/** What holds in every reachable state of the demo server: who owns the device, which control operations can be
    in flight, and how the data model mirrors the LEDs. */
module BeagleSafety {
  import opened Wrappers
  import opened BeagleModel

  /** Automatic mode exactly while nobody holds control; the holder is connected. */
  ghost predicate Ownership(s: Server) {
    && (s.automatic <==> s.controlling == None)
    && (s.controlling.Some? ==> s.controlling.value in s.open)
    && s.open !! s.closing
  }

  /** An operation in flight belongs to a client the library still knows, and that client is the holder exactly
      if it is still connected. Only an effective double point command sleeps. */
  ghost predicate FlightOwner(s: Server, p: Point) {
    s.InFlight(p) ==>
      var op := s.SlotOf(p).op;
      && op.client in s.open + s.closing
      && (op.client in s.open <==> s.controlling == Some(op.client))
      && (s.SlotOf(p).Sleeping? ==> p == DPCSO1 && op.Effective())
  }

  ghost predicate FlightOwners(s: Server) {
    forall p: Point :: FlightOwner(s, p)
  }

  /** LED and stVal of a single point agree, and the LED is not flashing. */
  ghost predicate SingleMirror(s: Server, n: Single) {
    && s.leds.Get(n).trigger == Steady
    && s.leds.Get(n).brightness == BoolToInt(s.status.Get(n).stVal)
  }

  /** While the double point handler sleeps the state is intermediate and LED4 flashes with the handler's time
      stamp; otherwise the state is off or on, as LED4 is. */
  ghost predicate DoubleMirror(s: Server) {
    if s.dpSlot.Sleeping? then
      && s.dpStVal == s.dpcState == DPC_STATE_INTERMEDIATE
      && s.dpT == s.dpSlot.time
      && s.led4.trigger == Timer && s.led4.delayOn == s.led4.delayOff == 200
    else
      && s.led4.trigger == Steady
      && ((s.dpStVal == DPC_STATE_OFF && s.led4.brightness == 0) ||
          (s.dpStVal == DPC_STATE_ON && s.led4.brightness == 1))
  }

  ghost predicate Mirror(s: Server) {
    && (forall n: Single :: SingleMirror(s, n))
    && DoubleMirror(s)
  }

  ghost predicate Inv(s: Server) {
    Ownership(s) && FlightOwners(s) && Mirror(s)
  }

  lemma HasTaskIff(s: Server, c: Client)
    ensures s.HasTask(c) <==> exists p: Point :: s.InFlight(p) && s.SlotOf(p).op.client == c
  {
    if s.HasTask(c) {
      assert (s.InFlight(SP(SPCSO1)) && s.SlotOf(SP(SPCSO1)).op.client == c)
        || (s.InFlight(SP(SPCSO2)) && s.SlotOf(SP(SPCSO2)).op.client == c)
        || (s.InFlight(SP(SPCSO3)) && s.SlotOf(SP(SPCSO3)).op.client == c)
        || (s.InFlight(DPCSO1) && s.SlotOf(DPCSO1).op.client == c);
    }
  }

  lemma StepOwnership(s: Server, e: Event)
    requires Ownership(s)
    ensures Ownership(Step(s, e))
  {
  }

  lemma StepFlightOwner(s: Server, e: Event, p: Point)
    requires Ownership(s) && FlightOwner(s, p)
    ensures FlightOwner(Step(s, e), p)
  {
    if e.Forget? { HasTaskIff(s, e.client); }
  }

  lemma StepSingleMirror(s: Server, e: Event, n: Single)
    requires SingleMirror(s, n)
    ensures SingleMirror(Step(s, e), n)
  {
  }

  lemma StepDoubleMirror(s: Server, e: Event)
    requires DoubleMirror(s)
    ensures DoubleMirror(Step(s, e))
  {
  }

  lemma StepInv(s: Server, e: Event)
    requires Inv(s)
    ensures Inv(Step(s, e))
  {
    StepOwnership(s, e);
    forall p: Point ensures FlightOwner(Step(s, e), p) {
      assert FlightOwner(s, p);
      StepFlightOwner(s, e, p);
    }
    forall n: Single ensures SingleMirror(Step(s, e), n) {
      assert SingleMirror(s, n);
      StepSingleMirror(s, e, n);
    }
    StepDoubleMirror(s, e);
  }

  lemma {:induction false} RunInv(s: Server, es: seq<Event>)
    requires Inv(s)
    ensures Inv(Run(s, es))
  {
    if es != [] {
      RunInv(s, es[..|es| - 1]);
      StepInv(Run(s, es[..|es| - 1]), es[|es| - 1]);
    }
  }

  /** Every state the server can get into satisfies the invariant. */
  lemma ReachableInv(start: nat, es: seq<Event>)
    ensures Inv(Run(Initial(start), es))
  {
    RunInv(Initial(start), es);
  }

  /** Mode and ownership, over every run. */
  lemma {:induction false} ModeOwnership(start: nat, es: seq<Event>)
    ensures
      var s := Run(Initial(start), es);
      && (s.automatic <==> s.controlling == None)
      && (s.controlling.Some? ==> s.controlling.value in s.open)
  {
    ReachableInv(start, es);
  }

  /** Device and data model, over every run. */
  lemma DataModelMirrorsLeds(start: nat, es: seq<Event>)
    ensures
      var s := Run(Initial(start), es);
      && (forall n: Single :: s.leds.Get(n).trigger == Steady
            && s.leds.Get(n).brightness == (if s.status.Get(n).stVal then 1 else 0))
      && (s.dpSlot.Sleeping? <==> s.dpStVal == 0)
      && (s.dpSlot.Sleeping? <==> s.led4.trigger == Timer)
      && (s.led4.trigger == Timer ==> s.led4.delayOn == 200 && s.led4.delayOff == 200)
      && (s.dpStVal == 1 <==> s.led4.trigger == Steady && s.led4.brightness == 0)
      && (s.dpStVal == 2 <==> s.led4.trigger == Steady && s.led4.brightness == 1)
  {
    ReachableInv(start, es);
    var s := Run(Initial(start), es);
    forall n: Single ensures s.leds.Get(n).trigger == Steady
                          && s.leds.Get(n).brightness == (if s.status.Get(n).stVal then 1 else 0) {
      assert SingleMirror(s, n);
    }
  }

  /** An operation in flight is the current holder's, and the main loop cannot toggle, exactly until the
      indication that its client has gone; that indication does not wait for the operation. */
  lemma FlightBelongsToHolderUntilClose(start: nat, es: seq<Event>, p: Point, now: nat)
    requires Run(Initial(start), es).InFlight(p)
    ensures
      var s := Run(Initial(start), es);
      var c := s.SlotOf(p).op.client;
      && (s.controlling == Some(c) <==> c !in s.closing)
      && (c !in s.closing ==> !Toggles(s, now))
      && (Toggles(s, now) ==> forall q: Point :: s.InFlight(q) ==> s.SlotOf(q).op.client in s.closing)
  {
    ReachableInv(start, es);
    var s := Run(Initial(start), es);
    assert FlightOwner(s, p);
    forall q: Point | Toggles(s, now) && s.InFlight(q) ensures s.SlotOf(q).op.client in s.closing {
      assert FlightOwner(s, q);
    }
  }

  /** Two operations of connected clients that are in flight together are the same client's. */
  lemma ConnectedFlightsShareOwner(start: nat, es: seq<Event>, p: Point, q: Point)
    requires
      var s := Run(Initial(start), es);
      && s.InFlight(p) && s.SlotOf(p).op.client in s.open
      && s.InFlight(q) && s.SlotOf(q).op.client in s.open
    ensures
      var s := Run(Initial(start), es);
      s.SlotOf(p).op.client == s.SlotOf(q).op.client
  {
    ReachableInv(start, es);
    var s := Run(Initial(start), es);
    assert FlightOwner(s, p) && FlightOwner(s, q);
  }

  /** The file contents and attributes a control handler writes. */
  datatype Process = Process(leds: Trio<Led>, led4: Led, status: Trio<Status>, dpcState: nat, dpStVal: nat, dpT: nat)

  function ProcessOf(s: Server): Process {
    Process(s.leds, s.led4, s.status, s.dpcState, s.dpStVal, s.dpT)
  }

  /** From its start to its end, nothing but its own handler moves the double point: no tick, no request, no
      other handler, whoever connects or leaves. */
  lemma {:induction false} SleepingDpcUndisturbed(s: Server, es: seq<Event>)
    requires s.dpSlot.Sleeping?
    requires Finish !in es
    ensures
      var s' := Run(s, es);
      && s'.dpSlot == s.dpSlot && s'.led4 == s.led4
      && s'.dpcState == s.dpcState && s'.dpStVal == s.dpStVal && s'.dpT == s.dpT
  {
    if es != [] {
      SleepingDpcUndisturbed(s, es[..|es| - 1]);
      assert es[|es| - 1] in es;
    }
  }

  /** A whole effective double point command: whatever happens during its sleep, it ends with the commanded
      state on the data model and on LED4, stamped with the time it began. */
  lemma DpcCommandCompletes(start: nat, before: seq<Event>, now: nat, during: seq<Event>)
    requires
      var s := Run(Initial(start), before);
      s.dpSlot.Accepted? && !s.dpSlot.op.test && s.dpSlot.op.value.Boolean?
    requires Finish !in during
    ensures
      var s := Run(Initial(start), before);
      var s' := Run(Initial(start), before + [Execute(DPCSO1, now)] + during + [Finish]);
      && s'.dpStVal == s'.dpcState == (if s.dpSlot.op.value.b then 2 else 1)
      && s'.led4.trigger == Steady && s'.led4.brightness == (if s.dpSlot.op.value.b then 1 else 0)
      && s'.dpT == now && s'.dpSlot == Ready
  {
    var s := Run(Initial(start), before);
    RunAppend(Initial(start), before, Execute(DPCSO1, now));
    RunConcat(Initial(start), before + [Execute(DPCSO1, now)], during);
    SleepingDpcUndisturbed(Step(s, Execute(DPCSO1, now)), during);
    RunAppend(Initial(start), before + [Execute(DPCSO1, now)] + during, Finish);
  }

  /** A whole single point command: LED, value, quality and time stamp of its own point are written, and nothing
      else in the server changes but its slot. */
  lemma SingleCommandWrites(s: Server, n: Single, now: nat)
    requires s.SlotOf(SP(n)).Accepted? && s.SlotOf(SP(n)).op.Effective()
    ensures
      var s' := Step(s, Execute(SP(n), now));
      var b := s.SlotOf(SP(n)).op.value.b;
      && s'.leds.Get(n).trigger == Steady && s'.leds.Get(n).brightness == (if b then 1 else 0)
      && s'.status.Get(n) == Status(b, (match n case SPCSO1 => 1024 case SPCSO2 => 35 case SPCSO3 => 0), now)
      && s'.SlotOf(SP(n)) == Ready
      && (forall m: Single | m != n :: s'.leds.Get(m) == s.leds.Get(m))
      && (forall m: Single | m != n :: s'.status.Get(m) == s.status.Get(m) && s'.slots.Get(m) == s.slots.Get(m))
      && s'.(leds := s.leds, status := s.status, slots := s.slots) == s
  {
  }

  /** A test command, or one whose value is not a boolean, leaves the process as it is when its handler runs. */
  lemma IneffectiveCommandLeavesProcess(s: Server, p: Point, now: nat)
    requires s.SlotOf(p).Accepted? && !s.SlotOf(p).op.Effective()
    ensures Step(s, Execute(p, now)) == s.WithSlot(p, Ready)
    ensures ProcessOf(Step(s, Execute(p, now))) == ProcessOf(s)
  {
  }
}

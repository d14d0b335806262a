/** The data model as a function of the past: what every attribute holds after a run, and which commands leave no
    trace in it. */
module BeagleData {
  import opened Wrappers
  import opened BeagleModel
  import opened BeagleSafety
  import opened BeagleHistory
  import opened BeagleTiming

  /** The server before event `i` of a history. */
  function At(start: nat, es: seq<Event>, i: nat): Server
    requires i <= |es|
  {
    Run(Initial(start), es[..i])
  }

  /** Event `i` is a toggle of the main loop. */
  ghost predicate TogglesAt(start: nat, es: seq<Event>, i: nat) {
    i < |es| && es[i].Tick? && Toggles(At(start, es, i), es[i].now)
  }

  /** Event `i` runs the handler of an operation on `p`. */
  ghost predicate StartsAt(start: nat, es: seq<Event>, i: nat, p: Point) {
    i < |es| && es[i].Execute? && es[i].p == p && At(start, es, i).SlotOf(p).Accepted?
  }

  /** That operation, by the history: the first one accepted that has not ended. */
  ghost function Operated(start: nat, es: seq<Event>, i: nat, p: Point): Operation
    requires StartsAt(start, es, i, p)
  {
    OperationsRunOnceInOrder(start, es[..i], p);
    AcceptedOps(start, es[..i], p)[|EndedOps(start, es[..i], p)|]
  }

  lemma OperatedIsSlot(start: nat, es: seq<Event>, i: nat, p: Point)
    requires StartsAt(start, es, i, p)
    ensures Operated(start, es, i, p) == At(start, es, i).SlotOf(p).op
  {
    OperationsRunOnceInOrder(start, es[..i], p);
  }

  lemma AtNext(start: nat, es: seq<Event>, i: nat)
    requires i < |es|
    ensures At(start, es, i + 1) == Step(At(start, es, i), es[i])
  {
    assert es[..i + 1][..i] == es[..i];
  }

  // ---------- single points ----------

  /** Event `i` runs the handler of an operation on `p` that is no test and has a boolean value. */
  ghost predicate DrivesAt(start: nat, es: seq<Event>, i: nat, p: Point) {
    && StartsAt(start, es, i, p)
    && !Operated(start, es, i, p).test && Operated(start, es, i, p).value.Boolean?
  }

  ghost predicate WritesAt(start: nat, es: seq<Event>, i: nat, n: Single) {
    TogglesAt(start, es, i) || DrivesAt(start, es, i, SP(n))
  }

  /** What such an event writes: a toggle the parity of the number of toggles, a handler the operation's value. */
  ghost function Written(start: nat, es: seq<Event>, i: nat, n: Single): Status
    requires WritesAt(start, es, i, n)
  {
    Status(
      if TogglesAt(start, es, i) then |ToggleTimes(Initial(start), es[..i + 1])| % 2 == 1
      else Operated(start, es, i, SP(n)).value.b,
      match n case SPCSO1 => 1024 case SPCSO2 => 35 case SPCSO3 => 0,
      es[i].now)
  }

  lemma StepWrites(start: nat, es: seq<Event>, i: nat, n: Single)
    requires i < |es|
    ensures At(start, es, i + 1).status.Get(n) ==
      if WritesAt(start, es, i, n) then Written(start, es, i, n) else At(start, es, i).status.Get(n)
  {
    AtNext(start, es, i);
    if StartsAt(start, es, i, SP(n)) { OperatedIsSlot(start, es, i, SP(n)); }
    if DrivesAt(start, es, i, SP(n)) { SingleCommandWrites(At(start, es, i), n, es[i].now); }
    if TogglesAt(start, es, i) { BlinkParity(start, es[..i + 1]); }
  }

  /** No event from `i` on, up to event `m`, writes `n`. */
  ghost predicate Unwritten(start: nat, es: seq<Event>, i: nat, m: nat, n: Single) {
    forall k: nat :: i <= k < m ==> !WritesAt(start, es, k, n)
  }

  lemma {:induction false} UnwrittenKeeps(start: nat, es: seq<Event>, i: nat, m: nat, n: Single)
    requires i <= m <= |es| && Unwritten(start, es, i, m, n)
    ensures At(start, es, m).status.Get(n) == At(start, es, i).status.Get(n)
  {
    if i < m {
      UnwrittenKeeps(start, es, i, m - 1, n);
      StepWrites(start, es, m - 1, n);
    }
  }

  /** After every run a single point shows value, quality and time of the last write, be it by the main loop or by a
      handler. */
  lemma {:induction false} StatusIsLastWrite(start: nat, es: seq<Event>, i: nat, n: Single)
    requires WritesAt(start, es, i, n) && Unwritten(start, es, i + 1, |es|, n)
    ensures Run(Initial(start), es).status.Get(n) == Written(start, es, i, n)
  {
    assert es[..|es|] == es;
    StepWrites(start, es, i, n);
    UnwrittenKeeps(start, es, i + 1, |es|, n);
  }

  /** If there is no last write there was none at all, and the point shows what it had at the start. */
  lemma {:induction false} StatusIfUnwritten(start: nat, es: seq<Event>, n: Single)
    ensures Unwritten(start, es, 0, |es|, n) ==> Run(Initial(start), es).status.Get(n) == Status(false, 0, 0)
    ensures Unwritten(start, es, 0, |es|, n) <==>
      forall i: nat :: WritesAt(start, es, i, n) ==> !Unwritten(start, es, i + 1, |es|, n)
  {
    assert es[..|es|] == es && es[..0] == [];
    if Unwritten(start, es, 0, |es|, n) {
      UnwrittenKeeps(start, es, 0, |es|, n);
    } else {
      var i := LastWrite(start, es, |es|, n);
    }
  }

  lemma {:induction false} LastWrite(start: nat, es: seq<Event>, m: nat, n: Single) returns (i: nat)
    requires m <= |es| && !Unwritten(start, es, 0, m, n)
    ensures i < m && WritesAt(start, es, i, n) && Unwritten(start, es, i + 1, m, n)
  {
    if WritesAt(start, es, m - 1, n) {
      i := m - 1;
    } else {
      i := LastWrite(start, es, m - 1, n);
    }
  }

  // ---------- toggles ----------

  /** When the main loop toggles, by the history: at a clock sample while nobody holds control, a second after the last
      toggle or, if there was none, after the start; and at every such sample. */
  lemma TogglesIff(start: nat, es: seq<Event>, i: nat)
    requires i < |es|
    ensures TogglesAt(start, es, i) <==>
      var ts := ToggleTimes(Initial(start), es[..i]);
      && es[i].Tick?
      && (forall j: nat, c: Client :: !HoldsSince(start, es[..i], j, c))
      && (if ts == [] then start else ts[|ts| - 1]) + 1000 <= es[i].now
  {
    var past := es[..i];
    var s := At(start, es, i);
    ToggleDeadline(Initial(start), past);
    ReachableInv(start, past);
    forall j: nat, c: Client | HoldsSince(start, past, j, c) ensures s.controlling == Some(c) {
      HolderIff(start, past, c);
    }
    if s.controlling.Some? { HolderIff(start, past, s.controlling.value); }
  }

  // ---------- the double point ----------

  /** Event `i` ends the sleep of the double point handler. */
  ghost predicate WakesAt(start: nat, es: seq<Event>, i: nat) {
    i < |es| && es[i] == Finish && At(start, es, i).dpSlot.Sleeping?
  }

  ghost predicate Undriven(start: nat, es: seq<Event>, i: nat, m: nat) {
    forall k: nat :: i <= k < m ==> !DrivesAt(start, es, k, DPCSO1)
  }

  ghost predicate Woken(start: nat, es: seq<Event>, i: nat, m: nat) {
    exists k: nat :: i <= k < m && WakesAt(start, es, k)
  }

  /** The step begins an effective double point command. */
  predicate Drives(s: Server, e: Event) {
    e.Execute? && e.p == DPCSO1 && s.dpSlot.Accepted? && s.dpSlot.op.Effective()
  }

  lemma DrivesAtIff(start: nat, es: seq<Event>, i: nat)
    requires i < |es|
    ensures DrivesAt(start, es, i, DPCSO1) <==> Drives(At(start, es, i), es[i])
  {
    if StartsAt(start, es, i, DPCSO1) { OperatedIsSlot(start, es, i, DPCSO1); }
  }

  lemma StepDoubleIdle(s: Server, e: Event)
    requires !s.dpSlot.Sleeping? && !Drives(s, e)
    ensures Step(s, e).dpStVal == s.dpStVal && Step(s, e).dpT == s.dpT && !Step(s, e).dpSlot.Sleeping?
  {
  }

  /** State and time of the double point, before its first command. */
  lemma {:induction false} DoubleBefore(start: nat, es: seq<Event>, m: nat)
    requires m <= |es| && Undriven(start, es, 0, m)
    ensures At(start, es, m).dpStVal == DPC_STATE_OFF && At(start, es, m).dpT == 0
    ensures !At(start, es, m).dpSlot.Sleeping?
  {
    if m > 0 {
      DoubleBefore(start, es, m - 1);
      AtNext(start, es, m - 1);
      DrivesAtIff(start, es, m - 1);
      StepDoubleIdle(At(start, es, m - 1), es[m - 1]);
    }
  }

  /** State, time and slot of the double point in the handler of `op` begun at `now`, and after it. */
  ghost predicate DoubleIs(s: Server, op: Operation, now: nat, woken: bool) {
    && op.Effective() && s.dpT == now
    && if woken then s.dpStVal == DpcTarget(op.value.b) && !s.dpSlot.Sleeping?
       else s.dpStVal == DPC_STATE_INTERMEDIATE && s.dpSlot == Sleeping(op, now)
  }

  lemma StepDouble(start: nat, es: seq<Event>, i: nat, op: Operation, now: nat, woken: bool)
    requires i < |es| && DoubleIs(At(start, es, i), op, now, woken) && !DrivesAt(start, es, i, DPCSO1)
    ensures DoubleIs(At(start, es, i + 1), op, now, woken || WakesAt(start, es, i))
  {
    AtNext(start, es, i);
    DrivesAtIff(start, es, i);
    if woken { StepDoubleIdle(At(start, es, i), es[i]); } else { StepDoubleAsleep(At(start, es, i), es[i], op, now); }
  }

  lemma StepDoubleAsleep(s: Server, e: Event, op: Operation, now: nat)
    requires DoubleIs(s, op, now, false)
    ensures DoubleIs(Step(s, e), op, now, e == Finish)
  {
  }

  lemma {:induction false} DoubleSince(start: nat, es: seq<Event>, i: nat, m: nat)
    requires i < m <= |es| && DrivesAt(start, es, i, DPCSO1) && Undriven(start, es, i + 1, m)
    ensures DoubleIs(At(start, es, m), Operated(start, es, i, DPCSO1), es[i].now, Woken(start, es, i + 1, m))
  {
    if m == i + 1 {
      AtNext(start, es, i);
      OperatedIsSlot(start, es, i, DPCSO1);
    } else {
      DoubleSince(start, es, i, m - 1);
      StepDouble(start, es, m - 1, Operated(start, es, i, DPCSO1), es[i].now, Woken(start, es, i + 1, m - 1));
      assert Woken(start, es, i + 1, m) <==> Woken(start, es, i + 1, m - 1) || WakesAt(start, es, m - 1) by {
        if k: nat :| i + 1 <= k < m && WakesAt(start, es, k) {
          assert k < m - 1 || k == m - 1;
        }
      }
    }
  }

  /** After every run DPCSO1 has the time of the last effective command begun on it, and its state if its sleep is
      over, else the intermediate one. */
  lemma {:induction false} DoubleIsLastCommand(start: nat, es: seq<Event>, i: nat)
    requires DrivesAt(start, es, i, DPCSO1) && Undriven(start, es, i + 1, |es|)
    ensures Run(Initial(start), es).dpT == es[i].now
    ensures Run(Initial(start), es).dpStVal ==
      (if !Woken(start, es, i + 1, |es|) then 0 else if Operated(start, es, i, DPCSO1).value.b then 2 else 1)
  {
    assert es[..|es|] == es;
    DoubleSince(start, es, i, |es|);
  }

  /** If no effective command ever began, it is off, with no time. */
  lemma {:induction false} DoubleIfUndriven(start: nat, es: seq<Event>)
    requires Undriven(start, es, 0, |es|)
    ensures Run(Initial(start), es).dpStVal == 1 && Run(Initial(start), es).dpT == 0
  {
    assert es[..|es|] == es;
    DoubleBefore(start, es, |es|);
  }

  // ---------- commands that leave no trace ----------

  /** The event neither takes control from the holder `c` nor is a request of its for `p`. */
  predicate LeavesPoint(e: Event, c: Client, p: Point) {
    e != Close(c) && !(e.Oper? && e.client == c && e.p == p)
  }

  /** The two servers are alike, except that an ineffective operation of the holder may wait in `t`. */
  ghost predicate Alike(s: Server, t: Server, c: Client, p: Point, op: Operation) {
    && Inv(s) && s.controlling == Some(c) && s.SlotOf(p) == Ready
    && !op.Effective() && op.client == c
    && (t == s || t == s.WithSlot(p, Accepted(op)))
  }

  lemma WithSlotOf(s: Server, p: Point, slot: Slot, q: Point)
    ensures s.WithSlot(p, slot).SlotOf(q) == if p == q then slot else s.SlotOf(q)
    ensures s.SlotOf(p) == Ready ==> s.WithSlot(p, slot).WithSlot(p, Ready) == s
  {
  }

  lemma RequestAlike(s: Server, e: Event, c: Client, p: Point, op: Operation)
    requires s.controlling == Some(c) && s.SlotOf(p) == Ready && e.Oper? && LeavesPoint(e, c, p)
    ensures Step(s.WithSlot(p, Accepted(op)), e) == Step(s, e).WithSlot(p, Accepted(op))
    ensures Step(s, e).SlotOf(p) == Ready
  {
    WithSlotOf(s, p, Accepted(op), e.p);
  }

  lemma ExecutePending(s: Server, now: nat, p: Point, op: Operation)
    requires s.SlotOf(p) == Ready && !op.Effective()
    ensures Step(s.WithSlot(p, Accepted(op)), Execute(p, now)) == s == Step(s, Execute(p, now))
  {
    WithSlotOf(s, p, Accepted(op), p);
    IneffectiveCommandLeavesProcess(s.WithSlot(p, Accepted(op)), p, now);
  }

  lemma ExecuteOther(s: Server, q: Point, now: nat, p: Point, op: Operation)
    requires s.SlotOf(p) == Ready && q != p
    ensures Step(s.WithSlot(p, Accepted(op)), Execute(q, now)) == Step(s, Execute(q, now)).WithSlot(p, Accepted(op))
    ensures Step(s, Execute(q, now)).SlotOf(p) == Ready
  {
    WithSlotOf(s, p, Accepted(op), q);
  }

  lemma ForgetAlike(s: Server, e: Event, c: Client, p: Point, op: Operation)
    requires Inv(s) && s.controlling == Some(c) && op.client == c && s.SlotOf(p) == Ready && e.Forget?
    ensures Step(s.WithSlot(p, Accepted(op)), e) == Step(s, e).WithSlot(p, Accepted(op))
  {
  }

  lemma OtherAlike(s: Server, e: Event, c: Client, p: Point, op: Operation)
    requires Inv(s) && s.controlling == Some(c) && s.SlotOf(p) == Ready && LeavesPoint(e, c, p)
    requires e.Connect? || e.Close? || e.Finish? || e.Tick?
    ensures Step(s.WithSlot(p, Accepted(op)), e) == Step(s, e).WithSlot(p, Accepted(op))
    ensures Step(s, e).SlotOf(p) == Ready
  {
  }

  lemma StepAlike(s: Server, t: Server, e: Event, c: Client, p: Point, op: Operation)
    requires Alike(s, t, c, p, op) && LeavesPoint(e, c, p)
    ensures Alike(Step(s, e), Step(t, e), c, p, op)
  {
    StepInv(s, e);
    StepKeepsHolder(s, e, c);
    match e
    case Oper(_, _, _, _) => RequestAlike(s, e, c, p, op);
    case Execute(q, now) => if q == p { ExecutePending(s, now, p, op); } else { ExecuteOther(s, q, now, p, op); }
    case Forget(_) => ForgetAlike(s, e, c, p, op);
    case _ => OtherAlike(s, e, c, p, op);
  }

  lemma StepKeepsHolder(s: Server, e: Event, c: Client)
    requires s.controlling == Some(c) && e != Close(c)
    ensures Step(s, e).controlling == Some(c)
  {
  }

  lemma {:induction false} RunAlike(s: Server, t: Server, es: seq<Event>, c: Client, p: Point, op: Operation)
    requires Alike(s, t, c, p, op) && forall i :: 0 <= i < |es| ==> LeavesPoint(es[i], c, p)
    ensures Alike(Run(s, es), Run(t, es), c, p, op)
  {
    if es != [] {
      var init := es[..|es| - 1];
      RunAlike(s, t, init, c, p, op);
      StepAlike(Run(s, init), Run(t, init), es[|es| - 1], c, p, op);
    }
  }

  /** A test command of the holder, or one that is not boolean, put anywhere into a run: as long as the holder stays
      and makes no other request for the same object, no LED or attribute ever differs, and once its handler has run
      nothing at all does, for ever after. */
  lemma {:induction false} IneffectiveLeavesNoTrace(start: nat, a: seq<Event>, c: Client, p: Point, v: CtlVal,
      test: bool, b: seq<Event>, now: nat, d: seq<Event>)
    requires test || v.OtherType?
    requires Run(Initial(start), a).controlling == Some(c) && !Run(Initial(start), a).InFlight(p)
    requires forall i :: 0 <= i < |b| ==> LeavesPoint(b[i], c, p)
    ensures ProcessOf(Run(Initial(start), a + [Oper(c, p, v, test)] + b)) == ProcessOf(Run(Initial(start), a + b))
    ensures Run(Initial(start), a + [Oper(c, p, v, test)] + b + [Execute(p, now)] + d) == Run(Initial(start), a + b + d)
  {
    var s0, e, op := Initial(start), Oper(c, p, v, test), Operation(c, v, test);
    var s := Run(s0, a);
    ReachableInv(start, a);
    RunAppend(s0, a, e);
    RunConcat(s0, a + [e], b);
    RunConcat(s0, a, b);
    RunAlike(s, Step(s, e), b, c, p, op);
    var u, t := Run(s0, a + b), Run(s0, a + [e] + b);
    RunAppend(s0, a + [e] + b, Execute(p, now));
    ExecutePending(u, now, p, op);
    RunConcat(s0, a + [e] + b + [Execute(p, now)], d);
    RunConcat(s0, a + b, d);
  }
}

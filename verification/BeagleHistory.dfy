/** What a run of the demo server shows about its past: who was let through by the arbiter, and what became of
    every accepted operation. */
module BeagleHistory {
  import opened Wrappers
  import opened BeagleModel
  import opened BeagleSafety

  // ---------- the arbiter ----------

  /** Event `i` of the history is an operate request that the check handler lets through. */
  ghost predicate AcceptedAt(start: nat, es: seq<Event>, i: nat) {
    i < |es| && Accepts(Run(Initial(start), es[..i]), es[i])
  }

  /** Event `i` is an accepted request of `c`, and `c` has not gone since. */
  ghost predicate HoldsSince(start: nat, es: seq<Event>, i: nat, c: Client) {
    && AcceptedAt(start, es, i)
    && es[i].client == c
    && forall k :: i < k < |es| ==> es[k] != Close(c)
  }

  lemma HoldsSinceExtends(start: nat, es: seq<Event>, e: Event, i: nat, c: Client)
    requires i < |es|
    ensures HoldsSince(start, es + [e], i, c) <==> HoldsSince(start, es, i, c) && e != Close(c)
  {
    var fs := es + [e];
    assert fs[..i] == es[..i];
    if HoldsSince(start, fs, i, c) {
      assert fs[|es|] == e;
      forall k | i < k < |es| ensures es[k] != Close(c) { assert fs[k] == es[k]; }
    }
  }

  /** The holder, read off the history alone. */
  lemma {:induction false} HolderIff(start: nat, es: seq<Event>, c: Client)
    ensures Run(Initial(start), es).controlling == Some(c) <==> exists i: nat :: HoldsSince(start, es, i, c)
  {
    if es != [] {
      var init, e := es[..|es| - 1], es[|es| - 1];
      var s := Run(Initial(start), init);
      assert es == init + [e];
      HolderIff(start, init, c);
      ReachableInv(start, init);
      forall i: nat | i < |init|
        ensures HoldsSince(start, es, i, c) <==> HoldsSince(start, init, i, c) && e != Close(c)
      {
        HoldsSinceExtends(start, init, e, i, c);
      }
      assert HoldsSince(start, es, |init|, c) <==> Accepts(s, e) && e.client == c;
      if Run(Initial(start), es).controlling == Some(c) && s.controlling == Some(c) {
        var i: nat :| HoldsSince(start, init, i, c);
        assert HoldsSince(start, es, i, c);
      }
    }
  }

  /** The arbiter's complete specification: a request that reaches the check is rejected if and only if a request
      of another client was accepted before and that client has not gone in between. */
  lemma RejectedIffHeldByOther(start: nat, es: seq<Event>, j: nat)
    requires j < |es| && ReachesCheck(Run(Initial(start), es[..j]), es[j])
    ensures !AcceptedAt(start, es, j) <==>
      exists i: nat :: i < j && AcceptedAt(start, es, i) && es[i].client != es[j].client
                       && (forall k :: i < k < j ==> es[k] != Close(es[i].client))
  {
    var past := es[..j];
    var s := Run(Initial(start), past);
    forall i: nat | i < j ensures AcceptedAt(start, past, i) <==> AcceptedAt(start, es, i) {
      assert past[..i] == es[..i];
    }
    if !AcceptedAt(start, es, j) {
      HolderIff(start, past, s.controlling.value);
      var i: nat :| HoldsSince(start, past, i, s.controlling.value);
      forall k | i < k < j ensures es[k] != Close(es[i].client) { assert past[k] == es[k]; }
      assert i < j && AcceptedAt(start, es, i);
    }
    if i: nat :| i < j && AcceptedAt(start, es, i) && es[i].client != es[j].client
                 && (forall k :: i < k < j ==> es[k] != Close(es[i].client)) {
      assert HoldsSince(start, past, i, es[i].client);
      HolderIff(start, past, es[i].client);
    }
  }

  /** No toggle between an accepted request and the moment its client has gone. */
  lemma NoToggleWhileHeld(start: nat, es: seq<Event>, i: nat, c: Client, now: nat)
    requires HoldsSince(start, es, i, c)
    ensures !Toggles(Run(Initial(start), es), now)
  {
    HolderIff(start, es, c);
    ReachableInv(start, es);
  }

  // ---------- operations ----------

  /** The operations accepted for `p`, in order. */
  ghost function AcceptedOps(start: nat, es: seq<Event>, p: Point): seq<Operation> {
    if es == [] then []
    else
      var init, e := es[..|es| - 1], es[|es| - 1];
      AcceptedOps(start, init, p) +
      if Accepts(Run(Initial(start), init), e) && e.p == p then [Operation(e.client, e.value, e.test)] else []
  }

  /** In this step the handler of an operation on `p` runs to its end: at once, or, if it is an effective double point
      command, after its sleep. */
  ghost predicate Ends(s: Server, e: Event, p: Point) {
    var slot := s.SlotOf(p);
    || (e.Execute? && e.p == p && slot.Accepted? && !(p == DPCSO1 && !slot.op.test && slot.op.value.Boolean?))
    || (e.Finish? && p == DPCSO1 && slot.Sleeping?)
  }

  /** The operations on `p` whose handler has run to its end, in order. */
  ghost function EndedOps(start: nat, es: seq<Event>, p: Point): seq<Operation> {
    if es == [] then []
    else
      var init, e := es[..|es| - 1], es[|es| - 1];
      var s := Run(Initial(start), init);
      EndedOps(start, init, p) +
      if Ends(s, e, p) then [s.SlotOf(p).op] else []
  }

  /** The operation of `p` in flight, if there is one. */
  function Pending(s: Server, p: Point): seq<Operation> {
    if s.InFlight(p) then [s.SlotOf(p).op] else []
  }

  /** An operation in flight stays so until its handler has run to its end: no request, tick or lost connection drops
      or changes it. */
  lemma StepKeepsOperation(s: Server, e: Event, p: Point)
    requires FlightOwner(s, p)
    ensures s.InFlight(p) ==> !(Accepts(s, e) && e.p == p)
    ensures Pending(Step(s, e), p) ==
      if s.InFlight(p) then if Ends(s, e, p) then [] else Pending(s, p)
      else if Accepts(s, e) && e.p == p then [Operation(e.client, e.value, e.test)] else []
  {
  }

  /** Per control object: every accepted operation is carried out exactly once, in the order of acceptance, and
      none begins before the one before it has ended. */
  lemma {:induction false} OperationsRunOnceInOrder(start: nat, es: seq<Event>, p: Point)
    ensures AcceptedOps(start, es, p) == EndedOps(start, es, p) + Pending(Run(Initial(start), es), p)
  {
    if es != [] {
      var init, e := es[..|es| - 1], es[|es| - 1];
      OperationsRunOnceInOrder(start, init, p);
      ReachableInv(start, init);
      StepKeepsOperation(Run(Initial(start), init), e, p);
    }
  }

  // ---------- connections ----------

  /** Event `i` lets `c` in: a connection that is not there yet. */
  ghost predicate LetInAt(start: nat, es: seq<Event>, i: nat, c: Client) {
    && i < |es| && es[i] == Connect(c)
    && c !in Run(Initial(start), es[..i]).open && c !in Run(Initial(start), es[..i]).closing
  }

  ghost predicate OpenSince(start: nat, es: seq<Event>, i: nat, c: Client) {
    LetInAt(start, es, i, c) && forall k :: i < k < |es| ==> es[k] != Close(c)
  }

  lemma OpenSinceExtends(start: nat, es: seq<Event>, e: Event, i: nat, c: Client)
    requires i < |es|
    ensures OpenSince(start, es + [e], i, c) <==> OpenSince(start, es, i, c) && e != Close(c)
  {
    var fs := es + [e];
    assert fs[..i] == es[..i];
    if OpenSince(start, fs, i, c) {
      assert fs[|es|] == e;
      forall k | i < k < |es| ensures es[k] != Close(c) { assert fs[k] == es[k]; }
    }
  }

  lemma StepOpen(s: Server, e: Event, c: Client)
    ensures c in Step(s, e).open <==>
      (c in s.open && e != Close(c)) || (e == Connect(c) && c !in s.open && c !in s.closing)
  {
  }

  /** Who is connected, by the history: whoever was let in and has not gone since. Who holds control does not matter. */
  lemma {:induction false} OpenIff(start: nat, es: seq<Event>, c: Client)
    ensures c in Run(Initial(start), es).open <==> exists i: nat :: OpenSince(start, es, i, c)
  {
    if es != [] {
      var init, e := es[..|es| - 1], es[|es| - 1];
      assert es == init + [e];
      OpenIff(start, init, c);
      StepOpen(Run(Initial(start), init), e, c);
      forall i: nat | i < |init| ensures OpenSince(start, es, i, c) <==> OpenSince(start, init, i, c) && e != Close(c) {
        OpenSinceExtends(start, init, e, i, c);
      }
      assert OpenSince(start, es, |init|, c) <==> LetInAt(start, es, |init|, c);
      if i: nat :| OpenSince(start, init, i, c) && e != Close(c) { assert OpenSince(start, es, i, c); }
    }
  }

  /** By the history, an operation of `c` is in flight: the first one accepted for some object that has not ended. */
  ghost predicate Busy(start: nat, es: seq<Event>, c: Client) {
    exists p: Point :: BusyAt(start, es, c, p)
  }

  ghost predicate BusyAt(start: nat, es: seq<Event>, c: Client, p: Point) {
    var accepted, ended := AcceptedOps(start, es, p), EndedOps(start, es, p);
    |ended| < |accepted| && accepted[|ended|].client == c
  }

  lemma BusyIff(start: nat, es: seq<Event>, c: Client)
    ensures Busy(start, es, c) <==> Run(Initial(start), es).HasTask(c)
  {
    var s := Run(Initial(start), es);
    HasTaskIff(s, c);
    forall p: Point ensures BusyAt(start, es, c, p) <==> s.InFlight(p) && s.SlotOf(p).op.client == c {
      OperationsRunOnceInOrder(start, es, p);
    }
    if p: Point :| s.InFlight(p) && s.SlotOf(p).op.client == c { assert BusyAt(start, es, c, p); }
  }

  /** Event `k` makes the library forget `c`, if it has gone: it does so once no operation of `c` is in flight. */
  ghost predicate ForgetsAt(start: nat, es: seq<Event>, k: nat, c: Client) {
    k < |es| && es[k] == Forget(c) && !Busy(start, es[..k], c)
  }

  ghost predicate ClosingSince(start: nat, es: seq<Event>, i: nat, c: Client) {
    && i < |es| && es[i] == Close(c) && c in Run(Initial(start), es[..i]).open
    && forall k: nat :: i < k < |es| ==> !ForgetsAt(start, es, k, c)
  }

  lemma ClosingSinceExtends(start: nat, es: seq<Event>, e: Event, i: nat, c: Client)
    requires i < |es|
    ensures ClosingSince(start, es + [e], i, c) <==>
      ClosingSince(start, es, i, c) && !ForgetsAt(start, es + [e], |es|, c)
  {
    var fs := es + [e];
    assert fs[..i] == es[..i];
    forall k: nat | k < |es| ensures ForgetsAt(start, fs, k, c) <==> ForgetsAt(start, es, k, c) {
      assert fs[..k] == es[..k];
    }
  }

  lemma StepClosing(s: Server, e: Event, c: Client)
    ensures c in Step(s, e).closing <==>
      (c in s.closing && !(e == Forget(c) && !s.HasTask(c))) || (e == Close(c) && c in s.open)
  {
  }

  /** Whose control threads the library still waits for, by the history. */
  lemma {:induction false} ClosingIff(start: nat, es: seq<Event>, c: Client)
    ensures c in Run(Initial(start), es).closing <==> exists i: nat :: ClosingSince(start, es, i, c)
  {
    if es != [] {
      var init, e := es[..|es| - 1], es[|es| - 1];
      assert es == init + [e] && es[..|init|] == init;
      ClosingIff(start, init, c);
      BusyIff(start, init, c);
      StepClosing(Run(Initial(start), init), e, c);
      forall i: nat | i < |init|
        ensures ClosingSince(start, es, i, c) <==> ClosingSince(start, init, i, c) && !ForgetsAt(start, es, |init|, c)
      {
        ClosingSinceExtends(start, init, e, i, c);
      }
      assert ClosingSince(start, es, |init|, c) <==> e == Close(c) && c in Run(Initial(start), init).open;
      if i: nat :| ClosingSince(start, init, i, c) && !ForgetsAt(start, es, |init|, c) {
        assert ClosingSince(start, es, i, c);
      }
    }
  }

  // ---------- acceptance ----------

  /** When an operate request is accepted: the client was let in and has not gone since, every operation accepted for
      the object has ended, and no other client holds control. All three are facts of the history. */
  lemma AcceptedIff(start: nat, es: seq<Event>, c: Client, p: Point, v: CtlVal, test: bool)
    ensures Accepts(Run(Initial(start), es), Oper(c, p, v, test)) <==>
      && (exists i: nat :: OpenSince(start, es, i, c))
      && |AcceptedOps(start, es, p)| == |EndedOps(start, es, p)|
      && forall i: nat, a: Client :: HoldsSince(start, es, i, a) ==> a == c
  {
    var s := Run(Initial(start), es);
    OpenIff(start, es, c);
    OperationsRunOnceInOrder(start, es, p);
    forall i: nat, a: Client | HoldsSince(start, es, i, a) ensures s.controlling == Some(a) {
      HolderIff(start, es, a);
    }
    if s.controlling.Some? {
      HolderIff(start, es, s.controlling.value);
    }
  }

  /** So whoever comes while another client holds control can operate as soon as that one has gone, on any object
      without an operation in flight. */
  lemma SuccessorIsAccepted(start: nat, es: seq<Event>, c: Client, d: Client, p: Point, v: CtlVal, test: bool)
    requires
      var s := Run(Initial(start), es);
      && s.controlling == Some(c) && c != d && d !in s.open && d !in s.closing
      && |AcceptedOps(start, es, p)| == |EndedOps(start, es, p)|
    ensures Accepts(Run(Initial(start), es + [Connect(d)] + [Close(c)]), Oper(d, p, v, test))
  {
    RunAppend(Initial(start), es, Connect(d));
    RunAppend(Initial(start), es + [Connect(d)], Close(c));
    OperationsRunOnceInOrder(start, es, p);
    ReachableInv(start, es);
  }

  // ---------- what does not hold ----------

  /** The operate request is answered before its handler runs, so one client can have operations on two control
      objects in flight at once. */
  lemma TwoOperationsInFlight(start: nat, c: Client, v: CtlVal, w: CtlVal) returns (es: seq<Event>)
    ensures
      var s := Run(Initial(start), es);
      s.InFlight(SP(SPCSO1)) && s.InFlight(DPCSO1) && s.controlling == Some(c)
  {
    var e0, e1, e2 := Connect(c), Oper(c, SP(SPCSO1), v, false), Oper(c, DPCSO1, w, false);
    es := [] + [e0] + [e1] + [e2];
    RunAppend(Initial(start), [], e0);
    RunAppend(Initial(start), [] + [e0], e1);
    RunAppend(Initial(start), [] + [e0] + [e1], e2);
  }

  /** The holder may leave while its double point command sleeps. Automatic mode then starts, a clock sample
      toggles LEDs 1 to 3, and another client takes control, all before the command has ended. */
  lemma HolderMayLeaveDuringCommand(start: nat, c: Client, d: Client, b: bool, v: CtlVal, now: nat)
      returns (es: seq<Event>)
    requires c != d && start + 1000 <= now
    ensures
      var s := Run(Initial(start), es);
      && Toggles(s, now)
      && s.dpSlot == Sleeping(Operation(c, Boolean(b), false), start)
      && var s' := Run(Initial(start), es + [Tick(now)] + [Oper(d, SP(SPCSO1), v, false)]);
        && s'.dpSlot == s.dpSlot
        && s'.controlling == Some(d)
        && s'.slots.first == Accepted(Operation(d, v, false))
        && forall n: Single :: s'.status.Get(n).stVal != s.status.Get(n).stVal
  {
    var s0 := Initial(start);
    var e0, e1, e2 := Connect(c), Connect(d), Oper(c, DPCSO1, Boolean(b), false);
    var e3, e4 := Execute(DPCSO1, start), Close(c);
    es := [] + [e0] + [e1] + [e2] + [e3] + [e4];
    RunAppend(s0, [], e0);
    RunAppend(s0, [] + [e0], e1);
    RunAppend(s0, [] + [e0] + [e1], e2);
    RunAppend(s0, [] + [e0] + [e1] + [e2], e3);
    RunAppend(s0, [] + [e0] + [e1] + [e2] + [e3], e4);
    RunAppend(s0, es, Tick(now));
    RunAppend(s0, es + [Tick(now)], Oper(d, SP(SPCSO1), v, false));
  }
}

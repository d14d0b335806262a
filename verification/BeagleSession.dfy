/** A client of the demo server at work, in a run with everybody else.

    The client follows a plan of operates and sleeps. `others(i)` is what everybody else does before its action `i`
    takes effect, or, if it is a sleep, during it. So the state after any number of its actions is a function of the
    state it starts in, of its plan and of the behaviour of the others. */
module BeagleSession {
  import opened Wrappers
  import opened BeagleModel
  import opened BeagleSafety
  import opened BeagleClient

  datatype Action = Do(p: Point, on: bool) | Sleep

  datatype Session = Session(start: Server, client: Client, plan: nat -> Action, others: nat -> seq<Event>) {
    /** The session starts in a state that satisfies the invariant, with the client connected, and the others are
        others. */
    ghost predicate Valid() {
      Inv(start) && client in start.open && forall i: nat :: AllForeign(others(i), client)
    }

    function Request(i: nat): Event
      requires plan(i).Do?
    {
      Oper(client, plan(i).p, Boolean(plan(i).on), false)
    }

    /** The server after the client's first `m` actions. */
    function After(m: nat): Server
      decreases m, 0
    {
      if m == 0 then start
      else if plan(m - 1).Do? then Step(Before(m - 1), Request(m - 1))
      else Before(m - 1)
    }

    /** The server when action `m` takes effect. */
    function Before(m: nat): Server
      decreases m, 1
    {
      Run(After(m), others(m))
    }

    /** Action `i` is a sleep or an operate that is accepted. */
    ghost predicate Succeeds(i: nat) {
      plan(i).Do? ==> Accepts(Before(i), Request(i))
    }

    ghost predicate SucceedsUpTo(m: nat) {
      forall i: nat :: i < m ==> Succeeds(i)
    }

    /** There is an operate among the first `m` actions. */
    ghost predicate Operated(m: nat) {
      m > 0 && (plan(m - 1).Do? || Operated(m - 1))
    }

    /** All events up to action `m`, in order. */
    function Trace(m: nat): seq<Event> {
      if m == 0 then [] else Trace(m - 1) + others(m - 1) + if plan(m - 1).Do? then [Request(m - 1)] else []
    }

    /** The client's requests among its first `m` actions. */
    function Script(m: nat): seq<Event> {
      if m == 0 then [] else Script(m - 1) + if plan(m - 1).Do? then [Request(m - 1)] else []
    }

    /** What the client knows of `p` after `m` successful actions. */
    function BeliefAt(m: nat, p: Point): Belief {
      if m == 0 then Unknown else Learnt(BeliefAt(m - 1, p), plan(m - 1), p)
    }
  }

  /** What a successful action adds to what the client knows of `p`. */
  function Learnt(belief: Belief, a: Action, p: Point): Belief {
    if a.Do? && a.p == p then Updated(belief, a.on) else belief
  }

  // ---------- a session is a run ----------

  lemma TraceNext(x: Session, m: nat)
    ensures x.Trace(m + 1) ==
      if x.plan(m).Do? then x.Trace(m) + x.others(m) + [x.Request(m)] else x.Trace(m) + x.others(m)
  {
    assert x.Trace(m) + x.others(m) + [] == x.Trace(m) + x.others(m);
  }

  lemma AfterNext(x: Session, m: nat)
    ensures x.After(m + 1) == if x.plan(m).Do? then Step(x.Before(m), x.Request(m)) else x.Before(m)
  {
  }

  lemma BeforeIsRun(x: Session, m: nat)
    requires x.After(m) == Run(x.start, x.Trace(m))
    ensures x.Before(m) == Run(x.start, x.Trace(m) + x.others(m))
  {
    RunConcat(x.start, x.Trace(m), x.others(m));
  }

  /** The states of a session are those of a run of the server. */
  lemma {:induction false} AfterIsRun(x: Session, m: nat)
    ensures x.After(m) == Run(x.start, x.Trace(m))
  {
    if m != 0 {
      AfterIsRun(x, m - 1);
      BeforeIsRun(x, m - 1);
      TraceNext(x, m - 1);
      AfterNext(x, m - 1);
      if x.plan(m - 1).Do? {
        RunAppend(x.start, x.Trace(m - 1) + x.others(m - 1), x.Request(m - 1));
      }
    }
  }

  /** The client's own events in a run. */
  function Own(es: seq<Event>, c: Client): seq<Event> {
    if es == [] then []
    else Own(es[..|es| - 1], c) + if ForeignTo(es[|es| - 1], c) then [] else [es[|es| - 1]]
  }

  lemma {:induction false} OwnOfForeign(es: seq<Event>, fs: seq<Event>, c: Client)
    requires AllForeign(fs, c)
    ensures Own(es + fs, c) == Own(es, c)
  {
    if fs == [] {
      assert es + fs == es;
    } else {
      OwnOfForeign(es, fs[..|fs| - 1], c);
      assert (es + fs)[..|es + fs| - 1] == es + fs[..|fs| - 1];
    }
  }

  lemma OwnAppend(es: seq<Event>, e: Event, c: Client)
    ensures Own(es + [e], c) == Own(es, c) + if ForeignTo(e, c) then [] else [e]
  {
    assert (es + [e])[..|es|] == es;
  }

  lemma OwnOfAction(es: seq<Event>, fs: seq<Event>, e: Event, c: Client)
    requires AllForeign(fs, c) && !ForeignTo(e, c)
    ensures Own(es + fs + [e], c) == Own(es, c) + [e]
  {
    OwnOfForeign(es, fs, c);
    OwnAppend(es + fs, e, c);
  }

  lemma ScriptNext(x: Session, m: nat)
    ensures x.Script(m + 1) == if x.plan(m).Do? then x.Script(m) + [x.Request(m)] else x.Script(m)
  {
  }

  /** What the client itself does in that run is its script, and nothing else. */
  lemma {:induction false} OwnEventsAreScript(x: Session, m: nat)
    requires x.Valid()
    ensures Own(x.Trace(m), x.client) == x.Script(m)
  {
    if m != 0 {
      OwnEventsAreScript(x, m - 1);
      TraceNext(x, m - 1);
      ScriptNext(x, m - 1);
      if x.plan(m - 1).Do? {
        OwnOfAction(x.Trace(m - 1), x.others(m - 1), x.Request(m - 1), x.client);
      } else {
        OwnOfForeign(x.Trace(m - 1), x.others(m - 1), x.client);
      }
    }
  }

  // ---------- what the client knows ----------

  lemma {:induction false} InvariantAfter(x: Session, m: nat)
    requires x.Valid()
    ensures Inv(x.After(m)) && x.client in x.After(m).open
    ensures Inv(x.Before(m)) && x.client in x.Before(m).open
    decreases m
  {
    if m != 0 {
      InvariantAfter(x, m - 1);
      if x.plan(m - 1).Do? { StepInv(x.Before(m - 1), x.Request(m - 1)); }
    }
    RunInv(x.After(m), x.others(m));
    InterferenceKeepsOpen(x.After(m), x.others(m), x.client);
  }

  lemma {:induction false} UnknownBefore(x: Session, m: nat, p: Point)
    requires !x.Operated(m)
    ensures x.BeliefAt(m, p) == Unknown
  {
    if m != 0 { UnknownBefore(x, m - 1, p); }
  }

  /** One action: the client holds control after it, and knows what it knew, or learnt. */
  lemma ActionKeepsKnowledge(x: Session, m: nat, p: Point)
    requires x.Valid() && x.Operated(m + 1) && x.Succeeds(m)
    requires x.Operated(m) ==> Holding(x.Before(m), x.client)
    requires Knows(x.Before(m), x.client, p, x.BeliefAt(m, p))
    ensures Holding(x.After(m + 1), x.client) && Knows(x.After(m + 1), x.client, p, x.BeliefAt(m + 1, p))
  {
    var t, a := x.Before(m), x.plan(m);
    InvariantAfter(x, m);
    if a.Do? {
      AcceptedSettles(t, x.client, a.p, a.on);
      AcceptedUpdatesKnowledge(t, x.client, a.p, a.on, p, x.BeliefAt(m, p));
    }
  }

  /** As long as its operates are accepted the client holds control from the first one on, and all it knows is right:
      after each of its actions, and at any time before the next one takes effect. */
  lemma {:induction false} ClientKnows(x: Session, m: nat, p: Point)
    requires x.Valid() && x.Operated(m) && x.SucceedsUpTo(m)
    ensures Holding(x.After(m), x.client) && Knows(x.After(m), x.client, p, x.BeliefAt(m, p))
    ensures Holding(x.Before(m), x.client) && Knows(x.Before(m), x.client, p, x.BeliefAt(m, p))
    decreases m
  {
    if x.Operated(m - 1) { ClientKnows(x, m - 1, p); } else { UnknownBefore(x, m - 1, p); }
    assert x.Succeeds(m - 1);
    ActionKeepsKnowledge(x, m - 1, p);
    InterferenceKeepsSettled(x.After(m), x.others(m), x.client);
    InterferenceKeepsKnowledge(x.After(m), x.others(m), x.client, p, x.BeliefAt(m, p));
  }

  // ---------- refusals ----------

  /** Somebody else holds control. */
  predicate HeldByOther(s: Server, c: Client) { s.controlling.Some? && s.controlling != Some(c) }

  /** The first operate is refused if and only if its object has an operation in flight or somebody else holds control,
      a later one, those before it being accepted, if and only if its object has an operation in flight. If the client
      had operated the object before, that operation is its own last command on it. */
  lemma RefusedWhy(x: Session, m: nat)
    requires x.Valid() && x.SucceedsUpTo(m) && x.plan(m).Do?
    ensures
      var t, p := x.Before(m), x.plan(m).p;
      && (!x.Succeeds(m) <==> t.InFlight(p) || (!x.Operated(m) && HeldByOther(t, x.client)))
      && (t.InFlight(p) && x.BeliefAt(m, p).Last? ==>
          t.SlotOf(p).op == Operation(x.client, Boolean(x.BeliefAt(m, p).on), false))
  {
    InvariantAfter(x, m);
    if x.Operated(m) { ClientKnows(x, m, x.plan(m).p); } else { UnknownBefore(x, m, x.plan(m).p); }
  }

  /** All the others' control threads get to run, in this order, one after the other. */
  predicate IsDrain(es: seq<Event>) {
    && |es| == 5 && es[0].Execute? && es[0].p == SP(SPCSO1) && es[1].Execute? && es[1].p == SP(SPCSO2)
    && es[2].Execute? && es[2].p == SP(SPCSO3) && es[3].Execute? && es[3].p == DPCSO1 && es[4] == Finish
  }

  /** Whatever happens, at last all control threads get to run. */
  predicate Drains(es: seq<Event>) {
    |es| >= 5 && IsDrain(es[|es| - 5..])
  }

  lemma SingleThreadDrains(s: Server, n: Single, now: nat)
    requires Inv(s)
    ensures
      var t := Step(s, Execute(SP(n), now));
      Inv(t) && t.slots == s.slots.Set(n, Ready) && t.dpSlot == s.dpSlot
  {
    StepInv(s, Execute(SP(n), now));
    assert FlightOwner(s, SP(n));
  }

  lemma DoubleThreadDrains(s: Server, now: nat)
    requires Inv(s)
    ensures
      var t := Step(Step(s, Execute(DPCSO1, now)), Finish);
      t.dpSlot == Ready && t.slots == s.slots
  {
    assert FlightOwner(s, DPCSO1);
  }

  lemma RunOfFive(s: Server, es: seq<Event>)
    requires |es| == 5
    ensures Run(s, es) == Step(Step(Step(Step(Step(s, es[0]), es[1]), es[2]), es[3]), es[4])
  {
    assert es == [] + [es[0]] + [es[1]] + [es[2]] + [es[3]] + [es[4]];
    RunAppend(s, [], es[0]);
    RunAppend(s, [] + [es[0]], es[1]);
    RunAppend(s, [] + [es[0]] + [es[1]], es[2]);
    RunAppend(s, [] + [es[0]] + [es[1]] + [es[2]], es[3]);
    RunAppend(s, [] + [es[0]] + [es[1]] + [es[2]] + [es[3]], es[4]);
  }

  lemma NoneInFlightAfterDrain(s: Server, es: seq<Event>)
    requires Inv(s) && IsDrain(es)
    ensures forall p: Point :: !Run(s, es).InFlight(p)
  {
    RunOfFive(s, es);
    var s1 := Step(s, es[0]);
    var s2 := Step(s1, es[1]);
    var s3 := Step(s2, es[2]);
    SingleThreadDrains(s, SPCSO1, es[0].now);
    SingleThreadDrains(s1, SPCSO2, es[1].now);
    SingleThreadDrains(s2, SPCSO3, es[2].now);
    DoubleThreadDrains(s3, es[3].now);
  }

  lemma NoneInFlight(x: Session, m: nat)
    requires x.Valid() && Drains(x.others(m))
    ensures forall p: Point :: !x.Before(m).InFlight(p)
  {
    var es := x.others(m);
    var a, b := es[..|es| - 5], es[|es| - 5..];
    assert es == a + b;
    InvariantAfter(x, m);
    RunConcat(x.After(m), a, b);
    RunInv(x.After(m), a);
    NoneInFlightAfterDrain(Run(x.After(m), a), b);
  }

  lemma {:induction false} NobodyElseTakesControl(s: Server, es: seq<Event>, c: Client)
    requires !HeldByOther(s, c) && forall i :: 0 <= i < |es| ==> !es[i].Oper?
    ensures !HeldByOther(Run(s, es), c)
  {
    if es != [] { NobodyElseTakesControl(s, es[..|es| - 1], c); }
  }

  /** Nobody holds control against the client at the start, nobody else operates until the client has, and before each
      of its actions all control threads get to run. */
  ghost predicate Favourable(x: Session) {
    && x.Valid() && !HeldByOther(x.start, x.client)
    && (forall i: nat :: Drains(x.others(i)))
    && (forall i: nat, k: nat :: k < |x.others(i)| && x.others(i)[k].Oper? ==> x.Operated(i))
  }

  lemma {:induction false} FavourableUnheld(x: Session, m: nat)
    requires Favourable(x) && !x.Operated(m)
    ensures !HeldByOther(x.After(m), x.client) && !HeldByOther(x.Before(m), x.client)
    decreases m
  {
    if m != 0 {
      FavourableUnheld(x, m - 1);
      AfterNext(x, m - 1);
    }
    NobodyElseTakesControl(x.After(m), x.others(m), x.client);
  }

  /** Under such circumstances no operate is ever refused, whatever the plan. */
  lemma {:induction false} FavourableSucceeds(x: Session, m: nat)
    requires Favourable(x)
    ensures x.SucceedsUpTo(m)
  {
    if m != 0 {
      FavourableSucceeds(x, m - 1);
      if x.plan(m - 1).Do? {
        NoneInFlight(x, m - 1);
        if !x.Operated(m - 1) { FavourableUnheld(x, m - 1); }
        RefusedWhy(x, m - 1);
      }
      assert x.Succeeds(m - 1);
    }
  }
}

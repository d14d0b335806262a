/** What a client of the demo server can rely on while other clients, control threads and the main loop interfere.

    An operate request is answered before its handler runs, so what the client can rely on is the settled value of
    a control object: the one it shows once the operation in flight on it, if any, has ended. */
module BeagleClient {
  import opened Wrappers
  import opened BeagleModel
  import opened BeagleSafety

  // ---------- settled values ----------

  /** The stVal of each control object after its pending operation. */
  datatype View = View(singles: Trio<bool>, double: nat) {
    function Commanded(p: Point, on: bool): View {
      match p
      case SP(n) => this.(singles := singles.Set(n, on))
      case DPCSO1 => this.(double := DpcTarget(on))
    }

    predicate Shows(p: Point, on: bool) {
      match p
      case SP(n) => singles.Get(n) == on
      case DPCSO1 => double == DpcTarget(on)
    }
  }

  function SettledSingle(s: Server, n: Single): bool {
    var slot := s.slots.Get(n);
    if slot.Accepted? && slot.op.Effective() then slot.op.value.b else s.status.Get(n).stVal
  }

  function SettledDouble(s: Server): nat {
    if s.dpSlot != Ready && s.dpSlot.op.Effective() then DpcTarget(s.dpSlot.op.value.b) else s.dpStVal
  }

  function Settled(s: Server): View {
    View(Trio(SettledSingle(s, SPCSO1), SettledSingle(s, SPCSO2), SettledSingle(s, SPCSO3)), SettledDouble(s))
  }

  /** `c` holds control of a server in a state that satisfies the invariant. */
  ghost predicate Holding(s: Server, c: Client) {
    Inv(s) && s.controlling == Some(c)
  }

  /** The event is not one of `c`'s own doing. */
  predicate ForeignTo(e: Event, c: Client) {
    match e
    case Connect(d) => d != c
    case Close(d) => d != c
    case Forget(d) => d != c
    case Oper(d, _, _, _) => d != c
    case _ => true
  }

  predicate AllForeign(es: seq<Event>, c: Client) {
    forall i :: 0 <= i < |es| ==> ForeignTo(es[i], c)
  }

  lemma HandlerKeepsSettledSingle(s: Server, e: Event, n: Single)
    requires (e.Execute? || e.Finish?) && FlightOwner(s, SP(n))
    ensures SettledSingle(Step(s, e), n) == SettledSingle(s, n)
  {
  }

  lemma HandlerKeepsSettledDouble(s: Server, e: Event)
    requires (e.Execute? || e.Finish?) && FlightOwner(s, DPCSO1)
    ensures SettledDouble(Step(s, e)) == SettledDouble(s)
  {
  }

  /** Running the handlers of accepted operations, to their sleep or their end, settles nothing anew. */
  lemma HandlersKeepSettled(s: Server, e: Event)
    requires Inv(s) && (e.Execute? || e.Finish?)
    ensures Settled(Step(s, e)) == Settled(s)
  {
    forall p: Point ensures FlightOwner(s, p) {}
    HandlerKeepsSettledSingle(s, e, SPCSO1);
    HandlerKeepsSettledSingle(s, e, SPCSO2);
    HandlerKeepsSettledSingle(s, e, SPCSO3);
    HandlerKeepsSettledDouble(s, e);
  }

  lemma ForeignStepKeepsSettled(s: Server, e: Event, c: Client)
    requires Holding(s, c) && ForeignTo(e, c)
    ensures Holding(Step(s, e), c) && Settled(Step(s, e)) == Settled(s)
  {
    StepInv(s, e);
    if e.Execute? || e.Finish? { HandlersKeepSettled(s, e); }
  }

  /** While `c` holds control, no interleaving of main loop passes, control threads and other clients takes it
      away or changes a settled value. */
  lemma {:induction false} InterferenceKeepsSettled(s: Server, es: seq<Event>, c: Client)
    requires Holding(s, c) && AllForeign(es, c)
    ensures Holding(Run(s, es), c) && Settled(Run(s, es)) == Settled(s)
  {
    if es != [] {
      var init := es[..|es| - 1];
      InterferenceKeepsSettled(s, init, c);
      ForeignStepKeepsSettled(Run(s, init), es[|es| - 1], c);
    }
  }

  lemma ForeignStepKeepsOpen(s: Server, e: Event, c: Client)
    requires c in s.open && ForeignTo(e, c)
    ensures c in Step(s, e).open
  {
  }

  lemma {:induction false} InterferenceKeepsOpen(s: Server, es: seq<Event>, c: Client)
    requires c in s.open && AllForeign(es, c)
    ensures c in Run(s, es).open
  {
    if es != [] {
      var init := es[..|es| - 1];
      InterferenceKeepsOpen(s, init, c);
      ForeignStepKeepsOpen(Run(s, init), es[|es| - 1], c);
    }
  }

  /** An accepted request settles its own control object at the requested value, and no other one. */
  lemma AcceptedSettles(s: Server, c: Client, p: Point, b: bool)
    requires Inv(s) && Accepts(s, Oper(c, p, Boolean(b), false))
    ensures
      var t := Step(s, Oper(c, p, Boolean(b), false));
      Holding(t, c) && Settled(t) == Settled(s).Commanded(p, b)
  {
    StepInv(s, Oper(c, p, Boolean(b), false));
  }

  // ---------- what a client knows of its commands ----------

  /** What a client knows of a control object: its last accepted command, if there is one, and whether that command
      asked for a change of what the client had commanded before. */
  datatype Belief = Unknown | Last(on: bool, changed: bool)

  /** The object shows this value now. */
  predicate Shown(s: Server, p: Point, on: bool) {
    match p
    case SP(n) => s.status.Get(n).stVal == on
    case DPCSO1 => s.dpStVal == DpcTarget(on)
  }

  /** The belief is right: the object is settled at the last command, nothing but that command can be in flight on
      it, and while a command that asked for a change is in flight the object does not show it. */
  ghost predicate Knows(s: Server, c: Client, p: Point, belief: Belief) {
    belief.Last? ==>
      && Settled(s).Shows(p, belief.on)
      && (s.InFlight(p) ==> s.SlotOf(p).op == Operation(c, Boolean(belief.on), false))
      && (s.InFlight(p) && belief.changed ==> !Shown(s, p, belief.on))
  }

  lemma SettledIffShown(s: Server, p: Point, on: bool)
    requires !s.InFlight(p)
    ensures Settled(s).Shows(p, on) <==> Shown(s, p, on)
  {
  }

  /** A command that asked for a change is shown exactly once it has ended. */
  lemma ShownIffEnded(s: Server, c: Client, p: Point, belief: Belief)
    requires Knows(s, c, p, belief) && belief.Last? && belief.changed
    ensures Shown(s, p, belief.on) <==> !s.InFlight(p)
  {
    if !s.InFlight(p) { SettledIffShown(s, p, belief.on); }
  }

  lemma ForeignStepKeepsSlot(s: Server, e: Event, c: Client, p: Point)
    requires Holding(s, c) && ForeignTo(e, c)
    ensures Step(s, e).InFlight(p) ==> s.InFlight(p) && Step(s, e).SlotOf(p).op == s.SlotOf(p).op
  {
  }

  lemma ForeignStepKeepsUnshown(s: Server, e: Event, c: Client, p: Point, on: bool)
    requires Holding(s, c) && ForeignTo(e, c) && !Shown(s, p, on)
    ensures Step(s, e).InFlight(p) ==> !Shown(Step(s, e), p, on)
  {
    assert FlightOwner(s, p);
  }

  lemma ForeignStepKeepsKnowledge(s: Server, e: Event, c: Client, p: Point, belief: Belief)
    requires Holding(s, c) && ForeignTo(e, c) && Knows(s, c, p, belief)
    ensures Knows(Step(s, e), c, p, belief)
  {
    ForeignStepKeepsSettled(s, e, c);
    ForeignStepKeepsSlot(s, e, c, p);
    if belief.Last? && belief.changed && s.InFlight(p) { ForeignStepKeepsUnshown(s, e, c, p, belief.on); }
  }

  /** Interference makes no belief wrong. */
  lemma {:induction false} InterferenceKeepsKnowledge(s: Server, es: seq<Event>, c: Client, p: Point, belief: Belief)
    requires Holding(s, c) && AllForeign(es, c) && Knows(s, c, p, belief)
    ensures Knows(Run(s, es), c, p, belief)
  {
    if es != [] {
      var init := es[..|es| - 1];
      InterferenceKeepsSettled(s, init, c);
      InterferenceKeepsKnowledge(s, init, c, p, belief);
      ForeignStepKeepsKnowledge(Run(s, init), es[|es| - 1], c, p, belief);
    }
  }

  /** What an accepted command makes of a belief about its own object. */
  function Updated(belief: Belief, on: bool): Belief {
    Last(on, belief.Last? && belief.on != on)
  }

  lemma AcceptedUpdatesOwn(s: Server, c: Client, p: Point, on: bool, belief: Belief)
    requires Inv(s) && Accepts(s, Oper(c, p, Boolean(on), false)) && Knows(s, c, p, belief)
    ensures Knows(Step(s, Oper(c, p, Boolean(on), false)), c, p, Updated(belief, on))
  {
    AcceptedSettles(s, c, p, on);
    if belief.Last? && belief.on != on {
      SettledIffShown(s, p, belief.on);
    }
  }

  lemma AcceptedKeepsOther(s: Server, c: Client, p: Point, on: bool, q: Point, belief: Belief)
    requires Inv(s) && Accepts(s, Oper(c, p, Boolean(on), false)) && Knows(s, c, q, belief) && p != q
    ensures Knows(Step(s, Oper(c, p, Boolean(on), false)), c, q, belief)
  {
    AcceptedSettles(s, c, p, on);
  }

  lemma AcceptedUpdatesKnowledge(s: Server, c: Client, p: Point, on: bool, q: Point, belief: Belief)
    requires Inv(s) && Accepts(s, Oper(c, p, Boolean(on), false)) && Knows(s, c, q, belief)
    ensures Knows(Step(s, Oper(c, p, Boolean(on), false)), c, q, if p == q then Updated(belief, on) else belief)
  {
    if p == q { AcceptedUpdatesOwn(s, c, p, on, belief); } else { AcceptedKeepsOther(s, c, p, on, q, belief); }
  }
}

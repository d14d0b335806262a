/** The LED chaser client, run against the demo server under arbitrary interference. Its actions are numbered from 0:
    three operates, then ten actions a round. */
module BeagleChase {
  import opened Wrappers
  import opened BeagleModel
  import opened BeagleSafety
  import opened BeagleDemo
  import opened BeagleClient
  import opened BeagleSession

  // ---------- the client's actions ----------

  /** Action `j` of round `k`. */
  function RoundAction(k: nat, j: nat): Action {
    match j
    case 0 => Do(SP(SPCSO3), false)
    case 1 => Do(SP(SPCSO1), true)
    case 2 => Sleep
    case 3 => Do(SP(SPCSO1), false)
    case 4 => Do(SP(SPCSO2), true)
    case 5 => Sleep
    case 6 => Do(SP(SPCSO2), false)
    case 7 => Do(SP(SPCSO3), true)
    case 8 => Sleep
    case _ => Do(DPCSO1, k % 2 == 0)
  }

  function ActionAt(i: nat): Action {
    match i
    case 0 => Do(SP(SPCSO1), false)
    case 1 => Do(SP(SPCSO2), false)
    case 2 => Do(DPCSO1, false)
    case _ => RoundAction((i - 3) / 10, (i - 3) % 10)
  }

  /** The number of actions done when the client comes to the head of its loop for round `k`. */
  function HeadAt(k: nat): nat { 3 + 10 * k }

  /** The number of actions done at the end of sleep `i`. */
  function SleepEnd(i: nat): nat { HeadAt(i / 3) + 3 * (i % 3) + 3 }

  /** The LED lit at sleep `i`. */
  function LitAt(i: nat): Single {
    if i % 3 == 0 then SPCSO1 else if i % 3 == 1 then SPCSO2 else SPCSO3
  }

  lemma ActionInRound(k: nat, j: nat)
    requires j < 10
    ensures ActionAt(HeadAt(k) + j) == RoundAction(k, j)
  {
    assert (10 * k + j) / 10 == k && (10 * k + j) % 10 == j;
  }

  /** The session of the chaser that starts in `s`. */
  function ChaserSession(s: Server, c: Client, others: nat -> seq<Event>): Session {
    Session(s, c, (i: nat) => ActionAt(i), others)
  }

  ghost predicate IsChaser(x: Session) {
    forall i: nat {:trigger ActionAt(i)} :: x.plan(i) == ActionAt(i)
  }

  lemma PlanInRound(x: Session, k: nat, j: nat)
    requires IsChaser(x) && j < 10
    ensures x.plan(HeadAt(k) + j) == RoundAction(k, j)
  {
    ActionInRound(k, j);
  }

  /** What the client asks for, request by request: LEDs 1, 2 and 4 off before the loop, and in round `k` the next LED
      on after the last one off, three times, and then LED4 on or off in turn. */
  lemma ChaserScript(x: Session, k: nat)
    requires IsChaser(x)
    ensures x.Script(3) == [
      Oper(x.client, SP(SPCSO1), Boolean(false), false),
      Oper(x.client, SP(SPCSO2), Boolean(false), false),
      Oper(x.client, DPCSO1, Boolean(false), false)]
    ensures x.Script(13 + 10 * k) == x.Script(3 + 10 * k) + [
      Oper(x.client, SP(SPCSO3), Boolean(false), false), Oper(x.client, SP(SPCSO1), Boolean(true), false),
      Oper(x.client, SP(SPCSO1), Boolean(false), false), Oper(x.client, SP(SPCSO2), Boolean(true), false),
      Oper(x.client, SP(SPCSO2), Boolean(false), false), Oper(x.client, SP(SPCSO3), Boolean(true), false),
      Oper(x.client, DPCSO1, Boolean(k % 2 == 0), false)]
  {
    ScriptOfStart(x);
    RoundIsPlanned(x, k);
    ScriptOfRound(x, 3 + 10 * k, k);
  }

  lemma ScriptOfStart(x: Session)
    requires IsChaser(x)
    ensures x.Script(3) == [
      Oper(x.client, SP(SPCSO1), Boolean(false), false),
      Oper(x.client, SP(SPCSO2), Boolean(false), false),
      Oper(x.client, DPCSO1, Boolean(false), false)]
  {
    assert x.plan(0) == ActionAt(0) && x.plan(1) == ActionAt(1) && x.plan(2) == ActionAt(2);
    ScriptNext(x, 0);
    ScriptNext(x, 1);
    ScriptNext(x, 2);
  }

  lemma ScriptOfRound(x: Session, i: nat, k: nat)
    requires PlansRound(x, i, k)
    ensures x.Script(i + 10) == x.Script(i) + [
      Oper(x.client, SP(SPCSO3), Boolean(false), false), Oper(x.client, SP(SPCSO1), Boolean(true), false),
      Oper(x.client, SP(SPCSO1), Boolean(false), false), Oper(x.client, SP(SPCSO2), Boolean(true), false),
      Oper(x.client, SP(SPCSO2), Boolean(false), false), Oper(x.client, SP(SPCSO3), Boolean(true), false),
      Oper(x.client, DPCSO1, Boolean(k % 2 == 0), false)]
  {
    ScriptOfThird(x, i, SPCSO3, SPCSO1);
    ScriptOfThird(x, i + 3, SPCSO1, SPCSO2);
    ScriptOfThird(x, i + 6, SPCSO2, SPCSO3);
    ScriptNext(x, i + 9);
  }

  lemma ScriptOfThird(x: Session, i: nat, off: Single, on: Single)
    requires x.plan(i) == Do(SP(off), false) && x.plan(i + 1) == Do(SP(on), true) && x.plan(i + 2) == Sleep
    ensures x.Script(i + 3) == x.Script(i) + [
      Oper(x.client, SP(off), Boolean(false), false), Oper(x.client, SP(on), Boolean(true), false)]
  {
    ScriptNext(x, i);
    ScriptNext(x, i + 1);
    ScriptNext(x, i + 2);
  }

  lemma {:induction false} ChaserOperated(x: Session, m: nat)
    requires IsChaser(x) && m > 0
    ensures x.Operated(m)
  {
    if m == 1 {
      assert x.plan(0) == ActionAt(0);
    } else {
      ChaserOperated(x, m - 1);
    }
  }

  // ---------- heads and sleeps ----------

  /** What the client knows after `j` actions of round `k`. */
  function Known(k: nat, j: nat, p: Point): Belief {
    match p
    case SP(SPCSO1) => if j <= 1 then Last(false, k > 0) else Last(j <= 3, true)
    case SP(SPCSO2) => if j <= 4 then Last(false, k > 0) else Last(j <= 6, true)
    case SP(SPCSO3) => if j == 0 && k == 0 then Unknown else if 0 < j <= 7 then Last(false, k > 0) else Last(true, true)
    case DPCSO1 => if j <= 9 then Last(k % 2 == 1, k > 0) else Last(k % 2 == 0, true)
  }

  lemma KnownNext(k: nat, j: nat, p: Point)
    requires j < 10
    ensures Known(k, j + 1, p) == Learnt(Known(k, j, p), RoundAction(k, j), p)
    ensures Known(k, 10, p) == Known(k + 1, 0, p)
  {
  }

  lemma {:induction false} BeliefIsKnown(x: Session, k: nat, j: nat, p: Point)
    requires IsChaser(x) && j <= 10
    ensures x.BeliefAt(HeadAt(k) + j, p) == Known(k, j, p)
    decreases k, j
  {
    if j > 0 {
      BeliefIsKnown(x, k, j - 1, p);
      PlanInRound(x, k, j - 1);
      KnownNext(k, j - 1, p);
    } else if k > 0 {
      BeliefIsKnown(x, k - 1, 10, p);
      KnownNext(k - 1, 9, p);
    } else {
      BeliefAtFirstHead(x, p);
    }
  }

  lemma BeliefAtFirstHead(x: Session, p: Point)
    requires IsChaser(x)
    ensures x.BeliefAt(HeadAt(0), p) == Known(0, 0, p)
  {
    assert x.plan(0) == ActionAt(0) && x.plan(1) == ActionAt(1) && x.plan(2) == ActionAt(2);
    assert x.BeliefAt(1, p) == if p == SP(SPCSO1) then Last(false, false) else Unknown;
    assert x.BeliefAt(2, p) == if p == SP(SPCSO2) then Last(false, false) else x.BeliefAt(1, p);
  }

  /** What the client knows of the three points at the end of sleep `i`: its last command on just the one to be lit
      was `on`; and from the third sleep on, all its commands were changes. */
  lemma KnownAtSleep(x: Session, i: nat, n: Single)
    requires IsChaser(x)
    ensures
      var b := x.BeliefAt(SleepEnd(i), SP(n));
      b.Last? && b.on == (n == LitAt(i)) && (n == LitAt(i) || i >= 2 ==> b.changed)
  {
    BeliefIsKnown(x, i / 3, 3 * (i % 3) + 3, SP(n));
  }

  /** Of the three LEDs, settled on is just `lit`. */
  ghost predicate Chasing(s: Server, lit: Single) {
    forall n: Single :: SettledSingle(s, n) <==> n == lit
  }

  /** Of the three points, true is just `lit`, and its LED alone is lit. */
  ghost predicate ChaseShown(s: Server, lit: Single) {
    forall n: Single :: (s.status.Get(n).stVal <==> n == lit) && s.leds.Get(n).brightness == (if n == lit then 1 else 0)
  }

  /** At each of its sleeps, under any interference, exactly one LED is settled on, LEDs 1 to 3 in turn. Shown it is
      from the third sleep on if and only if no operation on the three is in flight. At the first two an `off` sent to
      an LED that was dark already may still be in flight as well, and nothing else. */
  lemma SleepTheorem(x: Session, i: nat)
    requires x.Valid() && IsChaser(x) && x.SucceedsUpTo(SleepEnd(i))
    ensures
      var t, lit := x.After(SleepEnd(i)), LitAt(i);
      && Holding(t, x.client) && Chasing(t, lit)
      && (i >= 2 ==> (ChaseShown(t, lit) <==> forall n: Single :: !t.InFlight(SP(n))))
      && (ChaseShown(t, lit) <==>
          forall n: Single :: t.InFlight(SP(n)) ==> n != lit && t.leds.Get(n).brightness == 0)
  {
    var t, lit := x.After(SleepEnd(i)), LitAt(i);
    ChaserOperated(x, SleepEnd(i));
    forall n: Single ensures SingleAtSleep(t, x.client, n, i) {
      ClientKnows(x, SleepEnd(i), SP(n));
      KnownAtSleep(x, i, n);
      SingleShown(t, x.client, n, i, x.BeliefAt(SleepEnd(i), SP(n)));
    }
    assert forall n: Single :: SingleAtSleep(t, x.client, n, i);
    AllSinglesAtSleep(t, x.client, i);
  }

  lemma AllSinglesAtSleep(t: Server, c: Client, i: nat)
    requires forall n: Single :: SingleAtSleep(t, c, n, i)
    ensures Holding(t, c) && Chasing(t, LitAt(i))
    ensures i >= 2 ==> (ChaseShown(t, LitAt(i)) <==> forall n: Single :: !t.InFlight(SP(n)))
    ensures ChaseShown(t, LitAt(i)) <==>
      forall n: Single :: t.InFlight(SP(n)) ==> n != LitAt(i) && t.leds.Get(n).brightness == 0
  {
    forall n: Single ensures (SettledSingle(t, n) <==> n == LitAt(i)) { assert SingleAtSleep(t, c, n, i); }
    assert SingleAtSleep(t, c, SPCSO1, i) && SingleAtSleep(t, c, SPCSO2, i) && SingleAtSleep(t, c, SPCSO3, i);
    if ChaseShown(t, LitAt(i)) {
      forall n: Single | t.InFlight(SP(n)) ensures n != LitAt(i) && t.leds.Get(n).brightness == 0 && i < 2 {
        assert SingleAtSleep(t, c, n, i);
      }
    }
    if forall n: Single :: t.InFlight(SP(n)) ==> n != LitAt(i) && t.leds.Get(n).brightness == 0 {
      forall n: Single ensures (t.status.Get(n).stVal <==> n == LitAt(i))
                            && t.leds.Get(n).brightness == (if n == LitAt(i) then 1 else 0) {
        assert SingleAtSleep(t, c, n, i);
      }
    }
  }

  /** One of the three points at the end of sleep `i`. */
  ghost predicate SingleAtSleep(t: Server, c: Client, n: Single, i: nat) {
    && Holding(t, c)
    && (SettledSingle(t, n) <==> n == LitAt(i))
    && t.leds.Get(n).brightness == BoolToInt(t.status.Get(n).stVal)
    && (!t.InFlight(SP(n)) ==> (t.status.Get(n).stVal <==> n == LitAt(i)))
    && (t.InFlight(SP(n)) && (i >= 2 || n == LitAt(i)) ==> (t.status.Get(n).stVal <==> n != LitAt(i)))
  }

  /** Not only at the sleeps: from the first operate of the loop on, at no time more than one of the three points is
      settled on. */
  lemma NeverTwoSettled(x: Session, m: nat, n: Single, n': Single)
    requires x.Valid() && IsChaser(x) && m >= 4 && x.SucceedsUpTo(m) && n != n'
    ensures !(SettledSingle(x.After(m), n) && SettledSingle(x.After(m), n'))
    ensures !(SettledSingle(x.Before(m), n) && SettledSingle(x.Before(m), n'))
  {
    var k, j := (m - 3) / 10, (m - 3) % 10;
    assert HeadAt(k) + j == m;
    ChaserOperated(x, m);
    OffUnlessLast(x, k, j, n);
    OffUnlessLast(x, k, j, n');
    OneBelief(k, j, n, n');
  }

  lemma OffUnlessLast(x: Session, k: nat, j: nat, n: Single)
    requires x.Valid() && IsChaser(x) && j < 10 && x.SucceedsUpTo(HeadAt(k) + j) && x.Operated(HeadAt(k) + j)
    requires Known(k, j, SP(n)).Last?
    ensures SettledSingle(x.After(HeadAt(k) + j), n) == Known(k, j, SP(n)).on
    ensures SettledSingle(x.Before(HeadAt(k) + j), n) == Known(k, j, SP(n)).on
  {
    ClientKnows(x, HeadAt(k) + j, SP(n));
    BeliefIsKnown(x, k, j, SP(n));
  }

  lemma OneBelief(k: nat, j: nat, n: Single, n': Single)
    requires n != n' && Known(k, j, SP(n)).Last? && Known(k, j, SP(n')).Last?
    ensures !(Known(k, j, SP(n)).on && Known(k, j, SP(n')).on)
  {
  }

  lemma SingleShown(t: Server, c: Client, n: Single, i: nat, b: Belief)
    requires Holding(t, c) && Knows(t, c, SP(n), b)
    requires b.Last? && b.on == (n == LitAt(i)) && (n == LitAt(i) || i >= 2 ==> b.changed)
    ensures SingleAtSleep(t, c, n, i)
  {
    assert SingleMirror(t, n);
    if !t.InFlight(SP(n)) { SettledIffShown(t, SP(n), n == LitAt(i)); }
  }

  /** At the head of round `k` DPCSO1 is settled on if `k` is odd, else off. From the second round on it is shown if
      and only if the command on it has ended; at the first head, an `off` sent to a dark LED4 may also not have
      begun. */
  lemma HeadTheorem(x: Session, k: nat)
    requires x.Valid() && IsChaser(x) && x.SucceedsUpTo(HeadAt(k))
    ensures
      var t, on := x.After(HeadAt(k)), k % 2 == 1;
      && Holding(t, x.client) && SettledDouble(t) == DpcTarget(on)
      && (k >= 1 ==> (t.dpStVal == DpcTarget(on) <==> t.dpSlot == Ready))
      && (t.dpStVal == DpcTarget(on) <==>
          t.dpSlot == Ready || (k == 0 && t.dpSlot.Accepted? && t.led4.brightness == 0))
  {
    var t, on := x.After(HeadAt(k)), k % 2 == 1;
    ChaserOperated(x, HeadAt(k));
    ClientKnows(x, HeadAt(k), DPCSO1);
    BeliefIsKnown(x, k, 0, DPCSO1);
    if k >= 1 { ShownIffEnded(t, x.client, DPCSO1, Known(k, 0, DPCSO1)); }
    if t.dpSlot == Ready { SettledIffShown(t, DPCSO1, on); }
  }

  // ---------- the program ----------

  /** A session's state after each number of actions, and which actions succeed. */
  datatype Course = Course(state: nat -> Server, succeeds: nat -> bool) {
    ghost predicate Of(x: Session) {
      && (forall m: nat {:trigger x.After(m)} :: state(m) == x.After(m))
      && (forall m: nat {:trigger x.Succeeds(m)} :: succeeds(m) <==> x.Succeeds(m))
    }

    ghost predicate SucceedsUpTo(m: nat) {
      forall i: nat :: i < m ==> succeeds(i)
    }

    /** The last of the first `done` actions, and no other, was refused. */
    ghost predicate Stopped(done: nat) {
      done > 0 && SucceedsUpTo(done - 1) && !succeeds(done - 1)
    }

    /** All heads and sleeps among the first `done` actions are recorded, with their states. */
    ghost predicate Recorded(done: nat, heads: seq<Server>, sleeps: seq<Server>) {
      && (forall k: nat :: k < |heads| <==> HeadAt(k) < done)
      && (forall k: nat :: k < |heads| ==> heads[k] == state(HeadAt(k)))
      && (forall i: nat :: i < |sleeps| <==> SleepEnd(i) < done)
      && (forall i: nat :: i < |sleeps| ==> sleeps[i] == state(SleepEnd(i)))
    }

    /** The sleeps of round `k` are recorded. */
    ghost predicate RoundRecorded(k: nat, done: nat, sleeps: seq<Server>) {
      && |sleeps| <= 3
      && (|sleeps| > 0 <==> HeadAt(k) + 3 < done)
      && (|sleeps| > 1 <==> HeadAt(k) + 6 < done)
      && (|sleeps| > 2 <==> HeadAt(k) + 9 < done)
      && (|sleeps| > 0 ==> sleeps[0] == state(HeadAt(k) + 3))
      && (|sleeps| > 1 ==> sleeps[1] == state(HeadAt(k) + 6))
      && (|sleeps| > 2 ==> sleeps[2] == state(HeadAt(k) + 9))
    }
  }

  ghost function CourseOf(x: Session): (h: Course)
    ensures h.Of(x)
  {
    Course((m: nat) => x.After(m), (m: nat) => x.Succeeds(m))
  }

  /** One operate call, after the others have run for a while. */
  method Operate(server: DemoServer, con: Client, p: Point, on: bool, others: seq<Event>) returns (ok: bool)
    modifies server
    ensures server.Abs() == Step(Run(old(server.Abs()), others), Oper(con, p, Boolean(on), false))
    ensures ok <==> Accepts(Run(old(server.Abs()), others), Oper(con, p, Boolean(on), false))
  {
    server.Interfere(others);
    ok := server.OperateRequest(con, p, Boolean(on), false);
  }

  /** An operate call that is action `i` of the session. */
  method Act(server: DemoServer, x: Session, p: Point, on: bool, i: nat, ghost h: Course) returns (ok: bool)
    requires h.Of(x) && server.Abs() == h.state(i) && x.plan(i) == Do(p, on)
    modifies server
    ensures server.Abs() == h.state(i + 1)
    ensures ok <==> h.succeeds(i)
  {
    assert h.state(i) == x.After(i);
    ok := Operate(server, x.client, p, on, x.others(i));
    assert h.state(i + 1) == x.After(i + 1) == Step(x.Before(i), x.Request(i));
    assert h.succeeds(i) <==> x.Succeeds(i);
  }

  /** A sleep that is action `i` of the session. */
  method SleepAct(server: DemoServer, x: Session, i: nat, ghost h: Course)
    requires h.Of(x) && server.Abs() == h.state(i) && x.plan(i) == Sleep
    modifies server
    ensures server.Abs() == h.state(i + 1)
    ensures h.succeeds(i)
  {
    assert h.state(i) == x.After(i);
    server.Interfere(x.others(i));
    assert h.state(i + 1) == x.After(i + 1) == x.Before(i);
    assert h.succeeds(i) <==> x.Succeeds(i);
  }

  /** The three operates before the loop. */
  method Prepare(server: DemoServer, x: Session, ghost h: Course) returns (ok: bool, ghost done: nat)
    requires h.Of(x) && IsChaser(x) && server.Abs() == h.state(0)
    modifies server
    ensures server.Abs() == h.state(done)
    ensures if ok then done == HeadAt(0) && h.SucceedsUpTo(done) else h.Stopped(done) && done <= HeadAt(0)
  {
    assert x.plan(0) == ActionAt(0) && x.plan(1) == ActionAt(1) && x.plan(2) == ActionAt(2);
    ok := Act(server, x, SP(SPCSO1), false, 0, h);
    done := 1;
    if !ok { return; }
    ok := Act(server, x, SP(SPCSO2), false, 1, h);
    done := 2;
    if !ok { return; }
    ok := Act(server, x, DPCSO1, false, 2, h);
    done := 3;
  }

  /** A third of a round: LED `off` goes off, LED `on` goes on, and the client sleeps. `i` counts its actions. */
  method Advance(server: DemoServer, x: Session, off: Single, on: Single, i: nat, ghost h: Course)
      returns (ok: bool, ghost done: nat)
    requires h.Of(x) && server.Abs() == h.state(i) && h.SucceedsUpTo(i)
    requires x.plan(i) == Do(SP(off), false) && x.plan(i + 1) == Do(SP(on), true) && x.plan(i + 2) == Sleep
    modifies server
    ensures server.Abs() == h.state(done)
    ensures if ok then done == i + 3 && h.SucceedsUpTo(done) else h.Stopped(done) && i < done < i + 3
  {
    ok := Act(server, x, SP(off), false, i, h);
    done := i + 1;
    if !ok { return; }
    ok := Act(server, x, SP(on), true, i + 1, h);
    done := i + 2;
    if !ok { return; }
    SleepAct(server, x, i + 2, h);
    done := i + 3;
  }

  /** The plan of round `k`, its actions numbered from `i`. */
  ghost predicate PlansRound(x: Session, i: nat, k: nat) {
    && x.plan(i) == Do(SP(SPCSO3), false) && x.plan(i + 1) == Do(SP(SPCSO1), true) && x.plan(i + 2) == Sleep
    && x.plan(i + 3) == Do(SP(SPCSO1), false) && x.plan(i + 4) == Do(SP(SPCSO2), true) && x.plan(i + 5) == Sleep
    && x.plan(i + 6) == Do(SP(SPCSO2), false) && x.plan(i + 7) == Do(SP(SPCSO3), true) && x.plan(i + 8) == Sleep
    && x.plan(i + 9) == Do(DPCSO1, k % 2 == 0)
  }

  lemma RoundIsPlanned(x: Session, k: nat)
    requires IsChaser(x)
    ensures PlansRound(x, HeadAt(k), k)
  {
    PlanInRound(x, k, 0);
    PlanInRound(x, k, 1);
    PlanInRound(x, k, 2);
    PlanInRound(x, k, 3);
    PlanInRound(x, k, 4);
    PlanInRound(x, k, 5);
    PlanInRound(x, k, 6);
    PlanInRound(x, k, 7);
    PlanInRound(x, k, 8);
    PlanInRound(x, k, 9);
  }

  /** The three thirds of a round, each ending in a sleep. `sleeps` are the server's states at their ends. */
  method Thirds(server: DemoServer, x: Session, k: nat, ghost h: Course)
      returns (ok: bool, sleeps: seq<Server>, ghost done: nat)
    requires h.Of(x) && PlansRound(x, HeadAt(k), k) && server.Abs() == h.state(HeadAt(k)) && h.SucceedsUpTo(HeadAt(k))
    modifies server
    ensures server.Abs() == h.state(done)
    ensures if ok then done == HeadAt(k) + 9 && h.SucceedsUpTo(done)
            else h.Stopped(done) && HeadAt(k) < done <= HeadAt(k) + 9
    ensures ok ==> |sleeps| == 3
    ensures h.RoundRecorded(k, if ok then done + 1 else done, sleeps)
  {
    sleeps := [];
    var i := HeadAt(k);
    ok, done := Advance(server, x, SPCSO3, SPCSO1, i, h);
    if !ok { return; }
    sleeps := sleeps + [server.Abs()];
    ok, done := Advance(server, x, SPCSO1, SPCSO2, i + 3, h);
    if !ok { return; }
    sleeps := sleeps + [server.Abs()];
    ok, done := Advance(server, x, SPCSO2, SPCSO3, i + 6, h);
    if !ok { return; }
    sleeps := sleeps + [server.Abs()];
  }

  lemma SleepInRound(k: nat, i: nat)
    requires i >= 3 * k
    ensures if i < 3 * k + 3 then SleepEnd(i) == HeadAt(k) + 3 * (i - 3 * k) + 3 else SleepEnd(i) > HeadAt(k + 1)
  {
  }

  lemma RecordedLengths(h: Course, k: nat, heads: seq<Server>, sleeps: seq<Server>)
    requires h.Recorded(HeadAt(k), heads, sleeps)
    ensures |heads| == k && |sleeps| == 3 * k
  {
    assert k < |heads| <==> HeadAt(k) < HeadAt(k);
    SleepInRound(k, 3 * k);
    assert 3 * k < |sleeps| <==> SleepEnd(3 * k) < HeadAt(k);
    if k > 0 {
      assert k - 1 < |heads| <==> HeadAt(k - 1) < HeadAt(k);
      SleepInRound(k - 1, 3 * k - 1);
      assert 3 * k - 1 < |sleeps| <==> SleepEnd(3 * k - 1) < HeadAt(k);
    }
  }

  lemma RecordedRound(h: Course, k: nat, done: nat, heads: seq<Server>, sleeps: seq<Server>, more: seq<Server>)
    requires h.Recorded(HeadAt(k), heads, sleeps)
    requires HeadAt(k) < done <= HeadAt(k + 1) && h.RoundRecorded(k, done, more)
    ensures h.Recorded(done, heads + [h.state(HeadAt(k))], sleeps + more)
  {
    RecordedLengths(h, k, heads, sleeps);
    forall i: nat ensures i < |sleeps + more| <==> SleepEnd(i) < done {
      if i >= 3 * k { SleepInRound(k, i); }
    }
    forall i: nat | i < |sleeps + more| ensures (sleeps + more)[i] == h.state(SleepEnd(i)) {
      if i >= 3 * k { SleepInRound(k, i); }
    }
  }

  lemma NothingRecorded(h: Course, done: nat)
    requires done <= HeadAt(0)
    ensures h.Recorded(done, [], [])
  {
  }

  /** One round, recorded. */
  method Round(server: DemoServer, x: Session, led4State: bool, k: nat, heads: seq<Server>, sleeps: seq<Server>,
      ghost h: Course)
      returns (ok: bool, heads': seq<Server>, sleeps': seq<Server>, ghost done: nat)
    requires h.Of(x) && PlansRound(x, HeadAt(k), k) && server.Abs() == h.state(HeadAt(k)) && h.SucceedsUpTo(HeadAt(k))
    requires led4State <==> k % 2 == 1
    requires h.Recorded(HeadAt(k), heads, sleeps)
    modifies server
    ensures server.Abs() == h.state(done)
    ensures if ok then done == HeadAt(k + 1) && h.SucceedsUpTo(done)
            else h.Stopped(done) && HeadAt(k) < done <= HeadAt(k + 1)
    ensures h.Recorded(done, heads', sleeps')
  {
    heads' := heads + [server.Abs()];
    var more;
    ok, more, done := Thirds(server, x, k, h);
    if ok {
      ok := Act(server, x, DPCSO1, !led4State, HeadAt(k) + 9, h);
      done := HeadAt(k) + 10;
    }
    sleeps' := sleeps + more;
    RecordedRound(h, k, done, heads, sleeps, more);
  }

  /** The three operates and then the rounds. */
  method Loop(server: DemoServer, x: Session, rounds: nat, ghost h: Course)
      returns (ok: bool, heads: seq<Server>, sleeps: seq<Server>, ghost done: nat)
    requires h.Of(x) && IsChaser(x) && server.Abs() == h.state(0)
    modifies server
    ensures if ok then done == HeadAt(rounds) && h.SucceedsUpTo(done) else h.Stopped(done) && done <= HeadAt(rounds)
    ensures server.Abs() == h.state(done)
    ensures h.Recorded(done, heads, sleeps)
  {
    heads, sleeps := [], [];
    var led4State := false;
    ok, done := Prepare(server, x, h);
    NothingRecorded(h, done);
    var k := 0;
    while ok && k < rounds
      invariant k <= rounds
      invariant if ok then done == HeadAt(k) && h.SucceedsUpTo(done) else h.Stopped(done) && done <= HeadAt(rounds)
      invariant server.Abs() == h.state(done)
      invariant h.Recorded(done, heads, sleeps)
      invariant ok ==> (led4State <==> k % 2 == 1)
      decreases rounds - k, ok
    {
      RoundIsPlanned(x, k);
      ok, heads, sleeps, done := Round(server, x, led4State, k, heads, sleeps, h);
      led4State := !led4State;
      k := k + 1;
    }
  }

  /** All heads and sleeps among the first `done` actions are recorded, with the states of the session. */
  ghost predicate Recorded(x: Session, done: nat, heads: seq<Server>, sleeps: seq<Server>) {
    && (forall k: nat :: k < |heads| <==> HeadAt(k) < done)
    && (forall k: nat :: k < |heads| ==> heads[k] == x.After(HeadAt(k)))
    && (forall i: nat :: i < |sleeps| <==> SleepEnd(i) < done)
    && (forall i: nat :: i < |sleeps| ==> sleeps[i] == x.After(SleepEnd(i)))
  }

  lemma CourseResult(x: Session, h: Course, ok: bool, done: nat, heads: seq<Server>, sleeps: seq<Server>)
    requires h.Of(x) && h.Recorded(done, heads, sleeps)
    requires if ok then h.SucceedsUpTo(done) else h.Stopped(done)
    ensures h.state(done) == x.After(done)
    ensures if ok then x.SucceedsUpTo(done) else done > 0 && x.SucceedsUpTo(done - 1) && !x.Succeeds(done - 1)
    ensures Recorded(x, done, heads, sleeps)
  {
    forall k: nat | k < |heads| ensures heads[k] == x.After(HeadAt(k)) {}
    forall i: nat | i < |sleeps| ensures sleeps[i] == x.After(SleepEnd(i)) {}
  }

  /** The client from its first operate on, for any number of rounds of its endless loop. `done` is the number of
      actions, and `heads` and `sleeps` are the server's states at the loop heads and at the ends of the sleeps among
      them. The client goes on as long as its operates are accepted; at the first refusal it closes its connection. */
  method Chase(server: DemoServer, con: Client, rounds: nat, others: nat -> seq<Event>)
      returns (ok: bool, heads: seq<Server>, sleeps: seq<Server>, ghost done: nat)
    modifies server
    ensures done <= HeadAt(rounds) && (ok ==> done == HeadAt(rounds))
    ensures
      var x := ChaserSession(old(server.Abs()), con, others);
      && (if ok then x.SucceedsUpTo(done) else done > 0 && x.SucceedsUpTo(done - 1) && !x.Succeeds(done - 1))
      && server.Abs() == (if ok then x.After(done) else Step(x.After(done), Close(con)))
      && Recorded(x, done, heads, sleeps)
  {
    var x := ChaserSession(server.Abs(), con, others);
    ghost var h := CourseOf(x);
    assert h.state(0) == x.After(0);
    ok, heads, sleeps, done := Loop(server, x, rounds, h);
    CourseResult(x, h, ok, done, heads, sleeps);
    if !ok {
      server.Dispatch(Close(con));
    }
  }

  /** All in all: at every recorded sleep exactly one of SPCSO1..3 is settled on, in turn, and at every recorded head
      DPCSO1 is settled as led4State says. From the third sleep and the second head on, that is shown exactly if the
      commands given for it have ended. */
  lemma ChaseOutcome(x: Session, done: nat, heads: seq<Server>, sleeps: seq<Server>)
    requires x.Valid() && IsChaser(x)
    requires done > 0 && x.SucceedsUpTo(done - 1) && Recorded(x, done, heads, sleeps)
    ensures forall i: nat :: i < |sleeps| ==> Holding(sleeps[i], x.client) && Chasing(sleeps[i], LitAt(i))
    ensures forall i: nat :: 2 <= i < |sleeps| ==>
      (ChaseShown(sleeps[i], LitAt(i)) <==> forall n: Single :: !sleeps[i].InFlight(SP(n)))
    ensures forall k: nat :: k < |heads| ==>
      Holding(heads[k], x.client) && SettledDouble(heads[k]) == (if k % 2 == 1 then 2 else 1)
    ensures forall k: nat :: 1 <= k < |heads| ==>
      (heads[k].dpStVal == (if k % 2 == 1 then 2 else 1) <==> heads[k].dpSlot == Ready)
  {
    forall i: nat | i < |sleeps|
      ensures Holding(sleeps[i], x.client) && Chasing(sleeps[i], LitAt(i))
      ensures i >= 2 ==> (ChaseShown(sleeps[i], LitAt(i)) <==> forall n: Single :: !sleeps[i].InFlight(SP(n)))
    {
      assert SleepEnd(i) < done;
      SleepTheorem(x, i);
    }
    forall k: nat | k < |heads|
      ensures Holding(heads[k], x.client)
      ensures SettledDouble(heads[k]) == (if k % 2 == 1 then 2 else 1)
      ensures k >= 1 ==>
        (heads[k].dpStVal == (if k % 2 == 1 then 2 else 1) <==> heads[k].dpSlot == Ready)
    {
      assert HeadAt(k) < done;
      HeadTheorem(x, k);
    }
  }

  // ---------- before the control threads have run, and after ----------

  /** In a favourable session the chaser is never refused, and at each of its sleeps, the first included, the chase is
      shown. */
  lemma FavourableChaseIsShown(x: Session, i: nat)
    requires Favourable(x) && IsChaser(x)
    ensures x.SucceedsUpTo(SleepEnd(i)) && ChaseShown(x.After(SleepEnd(i)), LitAt(i))
  {
    FavourableSucceeds(x, SleepEnd(i));
    SleepTheorem(x, i);
    NoneInFlightAtSleep(x, i);
  }

  lemma NoneInFlightAtSleep(x: Session, i: nat)
    requires Favourable(x) && IsChaser(x)
    ensures forall p: Point :: !x.After(SleepEnd(i)).InFlight(p)
  {
    var m := HeadAt(i / 3) + (3 * (i % 3) + 2);
    PlanInRound(x, i / 3, 3 * (i % 3) + 2);
    AfterNext(x, m);
    NoneInFlight(x, m);
  }

  /** Once the control threads of the three points have run, the chase is shown. */
  lemma ChaseShownAfterHandlers(s: Server, c: Client, lit: Single, now: nat)
    requires Holding(s, c) && Chasing(s, lit)
    ensures ChaseShown(
      Run(s, [] + [Execute(SP(SPCSO1), now)] + [Execute(SP(SPCSO2), now)] + [Execute(SP(SPCSO3), now)]), lit)
  {
    var e1, e2, e3 := Execute(SP(SPCSO1), now), Execute(SP(SPCSO2), now), Execute(SP(SPCSO3), now);
    var es := [] + [e1] + [e2] + [e3];
    InterferenceKeepsSettled(s, es, c);
    RunAppend(s, [], e1);
    RunAppend(s, [] + [e1], e2);
    RunAppend(s, [] + [e1] + [e2], e3);
    SingleThreadDrains(s, SPCSO1, now);
    SingleThreadDrains(Step(s, e1), SPCSO2, now);
    SingleThreadDrains(Step(Step(s, e1), e2), SPCSO3, now);
    var t := Run(s, es);
    forall n: Single
      ensures (t.status.Get(n).stVal <==> n == lit) && t.leds.Get(n).brightness == (if n == lit then 1 else 0)
    {
      assert SingleMirror(t, n) && (SettledSingle(t, n) <==> n == lit);
      assert Settled(t).singles.Get(n) == SettledSingle(t, n) && Settled(s).singles.Get(n) == SettledSingle(s, n);
    }
  }

  /** One action of the client, at most one event before it, spelled out. */
  lemma SlowAction(x: Session, i: nat, es: seq<Event>) returns (u: Server)
    requires x.others(i) == es && |es| <= 1 && x.plan(i).Do?
    ensures
      var t := if es == [] then x.After(i) else Step(x.After(i), es[0]);
      && u == x.After(i + 1) == Step(t, x.Request(i))
      && (x.Succeeds(i) <==> Accepts(t, x.Request(i)))
  {
    if es != [] { RunAppend(x.After(i), [], es[0]); assert [] + es == es && es == [es[0]]; }
    u := x.After(i + 1);
    assert x.Before(i) == Run(x.After(i), es);
  }

  /** Only two control threads get to run, one before the client's second operate and one before its fourth. */
  function OnlyTwoThreads(now: nat): nat -> seq<Event> {
    i => if i == 1 then [Execute(SP(SPCSO1), now)] else if i == 3 then [Execute(DPCSO1, now)] else []
  }

  lemma SlowStart(x: Session, start: nat)
    requires x.start == Step(Initial(start), Connect(x.client)) && IsChaser(x) && x.others == OnlyTwoThreads(start)
    ensures x.SucceedsUpTo(3)
    ensures
      var t := x.After(3);
      && t == x.start.(controlling := Some(x.client), automatic := false,
         leds := t.leds, status := t.status, slots := t.slots, dpSlot := t.dpSlot)
      && t.slots == Trio(Ready, Accepted(Operation(x.client, Boolean(false), false)), Ready)
      && t.dpSlot == Accepted(Operation(x.client, Boolean(false), false))
      && forall n: Single :: !t.status.Get(n).stVal && t.leds.Get(n).brightness == 0
  {
    assert x.plan(0) == ActionAt(0) && x.plan(1) == ActionAt(1) && x.plan(2) == ActionAt(2);
    var s1 := SlowAction(x, 0, []);
    var s2 := SlowAction(x, 1, [Execute(SP(SPCSO1), start)]);
    var s3 := SlowAction(x, 2, []);
  }

  lemma SlowRound(x: Session, t: Server, start: nat)
    requires IsChaser(x) && x.others == OnlyTwoThreads(start) && t == x.After(3)
    requires t.controlling == Some(x.client) && x.client in t.open
    requires t.slots == Trio(Ready, Accepted(Operation(x.client, Boolean(false), false)), Ready)
    requires t.dpSlot == Accepted(Operation(x.client, Boolean(false), false))
    requires forall n: Single :: !t.status.Get(n).stVal && t.leds.Get(n).brightness == 0
    ensures x.Succeeds(3) && x.Succeeds(4) && x.Succeeds(5)
    ensures forall n: Single :: !x.After(6).status.Get(n).stVal && x.After(6).leds.Get(n).brightness == 0
    ensures x.After(6).dpStVal == DPC_STATE_INTERMEDIATE
  {
    PlanInRound(x, 0, 0);
    PlanInRound(x, 0, 1);
    PlanInRound(x, 0, 2);
    var s4 := SlowAction(x, 3, [Execute(DPCSO1, start)]);
    var s5 := SlowAction(x, 4, []);
    assert x.After(6) == x.Before(5) == Run(s5, []);
  }

  lemma SlowSession(x: Session, start: nat)
    requires x.start == Step(Initial(start), Connect(x.client)) && IsChaser(x) && x.others == OnlyTwoThreads(start)
    ensures x.SucceedsUpTo(6)
    ensures forall n: Single :: !x.After(6).status.Get(n).stVal && x.After(6).leds.Get(n).brightness == 0
    ensures x.After(6).dpStVal == DPC_STATE_INTERMEDIATE
  {
    SlowStart(x, start);
    SlowRound(x, x.After(3), start);
    forall i: nat | i < 6 ensures x.Succeeds(i) {
      assert i < 3 || i == 3 || i == 4 || i == 5;
    }
  }

  /** The exception at the first sleeps and the first head is real: with only two control threads in time, all
      operates up to the client's first sleep are accepted, and at its end all three LEDs are dark, while DPCSO1 is
      intermediate. */
  lemma FirstSleepMayBeDark(start: nat, c: Client) returns (x: Session)
    ensures x == ChaserSession(Run(Initial(start), [Connect(c)]), c, OnlyTwoThreads(start)) && x.Valid()
    ensures
      var t := x.After(SleepEnd(0));
      && x.SucceedsUpTo(SleepEnd(0))
      && (forall n: Single :: !t.status.Get(n).stVal && t.leds.Get(n).brightness == 0)
      && t.dpStVal == DPC_STATE_INTERMEDIATE
  {
    x := ChaserSession(Run(Initial(start), [Connect(c)]), c, OnlyTwoThreads(start));
    RunAppend(Initial(start), [], Connect(c));
    assert [] + [Connect(c)] == [Connect(c)];
    ReachableInv(start, [Connect(c)]);
    SlowSession(x, start);
  }
}

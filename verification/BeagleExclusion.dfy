/** When control operations exclude each other, over whole runs: what clients have to do, and no more, so that at most
    one operation is in flight at any time, and so that it is the holder's while it is. */
module BeagleExclusion {
  import opened Wrappers
  import opened BeagleModel
  import opened BeagleSafety

  ghost predicate AtMostOne(s: Server) {
    forall p: Point, q: Point :: s.InFlight(p) && s.InFlight(q) ==> p == q
  }

  /** An operation in flight is the holder's, in particular the mode is not automatic. */
  ghost predicate OfHolder(s: Server) {
    forall p: Point :: s.InFlight(p) ==> s.controlling == Some(s.SlotOf(p).op.client) && !s.automatic
  }

  ghost predicate Exclusive(s: Server) { AtMostOne(s) && OfHolder(s) }

  /** Nobody has an operation in flight whom an accepted request of `c` would run beside: neither `c` itself nor a
      client that has gone. */
  ghost predicate Waited(s: Server, c: Client) {
    !s.HasTask(c) && forall d: Client :: d in s.closing ==> !s.HasTask(d)
  }

  /** The request is accepted only if nobody's operation is in flight beside it. */
  ghost predicate Considerate(s: Server, e: Event) {
    Accepts(s, e) ==> Waited(s, e.client)
  }

  /** A client requests, and leaves, only when its own operations have ended. */
  ghost predicate Patient(s: Server, e: Event) {
    && (Accepts(s, e) ==> !s.HasTask(e.client))
    && (e.Close? && e.client in s.open ==> !s.HasTask(e.client))
  }

  // ---------- one step ----------

  lemma NoFlightIfWaited(s: Server, c: Client, p: Point)
    requires Inv(s) && Waited(s, c) && (s.controlling == None || s.controlling == Some(c))
    ensures !s.InFlight(p)
  {
    if s.InFlight(p) {
      assert FlightOwner(s, p);
      HasTaskIff(s, s.SlotOf(p).op.client);
    }
  }

  /** A step other than an accepted request puts nothing in flight. */
  lemma FlightsOnlyByRequest(s: Server, e: Event, p: Point)
    ensures Step(s, e).InFlight(p) ==> s.InFlight(p) || (Accepts(s, e) && e.p == p)
    ensures Accepts(s, e) && s.InFlight(p) ==> Step(s, e).InFlight(p) && e.p != p
    ensures Accepts(s, e) && e.p == p ==> Step(s, e).InFlight(p)
    ensures Step(s, e).InFlight(p) && s.InFlight(p) ==> Step(s, e).SlotOf(p).op == s.SlotOf(p).op
  {
  }

  lemma StepAtMostOneIff(s: Server, e: Event)
    requires Inv(s) && AtMostOne(s)
    ensures AtMostOne(Step(s, e)) <==> Considerate(s, e)
  {
    forall p: Point ensures Step(s, e).InFlight(p) ==> s.InFlight(p) || (Accepts(s, e) && e.p == p) {
      FlightsOnlyByRequest(s, e, p);
    }
    if Accepts(s, e) {
      if Waited(s, e.client) {
        forall p: Point ensures !s.InFlight(p) { NoFlightIfWaited(s, e.client, p); }
      } else {
        var d: Client :| s.HasTask(d);
        HasTaskIff(s, d);
        var p: Point :| s.InFlight(p);
        FlightsOnlyByRequest(s, e, p);
        FlightsOnlyByRequest(s, e, e.p);
      }
    }
  }

  lemma StepOfHolder(s: Server, e: Event, p: Point)
    requires Inv(s) && OfHolder(s) && Patient(s, e)
    requires Step(s, e).InFlight(p)
    ensures Step(s, e).controlling == Some(Step(s, e).SlotOf(p).op.client) && !Step(s, e).automatic
  {
    FlightsOnlyByRequest(s, e, p);
    if e.Close? { HasTaskIff(s, e.client); }
  }

  lemma ConsiderateIfPatient(s: Server, e: Event)
    requires Inv(s) && OfHolder(s) && Patient(s, e)
    ensures Considerate(s, e)
  {
    if Accepts(s, e) {
      forall d: Client | d in s.closing ensures !s.HasTask(d) { HasTaskIff(s, d); }
    }
  }

  lemma StepExclusiveIff(s: Server, e: Event)
    requires Inv(s) && Exclusive(s)
    ensures Exclusive(Step(s, e)) <==> Patient(s, e)
  {
    StepAtMostOneIff(s, e);
    if Patient(s, e) {
      ConsiderateIfPatient(s, e);
      forall p: Point | Step(s, e).InFlight(p)
        ensures Step(s, e).controlling == Some(Step(s, e).SlotOf(p).op.client) && !Step(s, e).automatic
      {
        StepOfHolder(s, e, p);
      }
    } else if e.Close? && e.client in s.open && s.HasTask(e.client) {
      HasTaskIff(s, e.client);
      var p: Point :| s.InFlight(p) && s.SlotOf(p).op.client == e.client;
      assert Step(s, e).InFlight(p) && Step(s, e).controlling == None;
    }
  }

  // ---------- whole runs ----------

  ghost predicate AtMostOneAt(start: nat, es: seq<Event>, i: nat)
    requires i <= |es|
  {
    AtMostOne(Run(Initial(start), es[..i]))
  }

  ghost predicate ConsiderateAt(start: nat, es: seq<Event>, i: nat)
    requires i < |es|
  {
    Considerate(Run(Initial(start), es[..i]), es[i])
  }

  ghost predicate ExclusiveAt(start: nat, es: seq<Event>, i: nat)
    requires i <= |es|
  {
    Exclusive(Run(Initial(start), es[..i]))
  }

  ghost predicate PatientAt(start: nat, es: seq<Event>, i: nat)
    requires i < |es|
  {
    Patient(Run(Initial(start), es[..i]), es[i])
  }

  /** What holds at a place of a history depends on the events before it alone. */
  lemma PrefixAt(start: nat, es: seq<Event>, e: Event, i: nat)
    requires i <= |es|
    ensures AtMostOneAt(start, es + [e], i) <==> AtMostOneAt(start, es, i)
    ensures ExclusiveAt(start, es + [e], i) <==> ExclusiveAt(start, es, i)
    ensures i < |es| ==> (ConsiderateAt(start, es + [e], i) <==> ConsiderateAt(start, es, i))
    ensures i < |es| ==> (PatientAt(start, es + [e], i) <==> PatientAt(start, es, i))
  {
    assert (es + [e])[..i] == es[..i];
  }

  lemma LastAtMostOne(start: nat, es: seq<Event>, e: Event)
    requires AtMostOneAt(start, es, |es|)
    ensures AtMostOneAt(start, es + [e], |es| + 1) <==> ConsiderateAt(start, es + [e], |es|)
  {
    assert (es + [e])[..|es|] == es[..|es|] == es && (es + [e])[..|es| + 1] == es + [e];
    ReachableInv(start, es);
    RunAppend(Initial(start), es, e);
    StepAtMostOneIff(Run(Initial(start), es), e);
  }

  lemma LastExclusive(start: nat, es: seq<Event>, e: Event)
    requires ExclusiveAt(start, es, |es|)
    ensures ExclusiveAt(start, es + [e], |es| + 1) <==> PatientAt(start, es + [e], |es|)
  {
    assert (es + [e])[..|es|] == es[..|es|] == es && (es + [e])[..|es| + 1] == es + [e];
    ReachableInv(start, es);
    RunAppend(Initial(start), es, e);
    StepExclusiveIff(Run(Initial(start), es), e);
  }

  /** At most one operation is in flight at any time of a run, if and only if every request that is accepted finds
      its own client without an operation in flight, and every client that has gone too. */
  lemma {:induction false} AtMostOneIff(start: nat, es: seq<Event>)
    ensures (forall i: nat :: i <= |es| ==> AtMostOneAt(start, es, i))
       <==> (forall i: nat :: i < |es| ==> ConsiderateAt(start, es, i))
  {
    if es != [] {
      var init, e := es[..|es| - 1], es[|es| - 1];
      assert es == init + [e];
      AtMostOneIff(start, init);
      forall i: nat | i <= |init|
        ensures AtMostOneAt(start, es, i) <==> AtMostOneAt(start, init, i)
        ensures i < |init| ==> (ConsiderateAt(start, es, i) <==> ConsiderateAt(start, init, i))
      {
        PrefixAt(start, init, e, i);
      }
      if AtMostOneAt(start, init, |init|) { LastAtMostOne(start, init, e); }
    }
  }

  /** At any time of a run at most one operation is in flight, and it is the holder's and the mode is not automatic,
      if and only if clients request, and leave, only when their own operations have ended. */
  lemma {:induction false} ExclusiveIff(start: nat, es: seq<Event>)
    ensures (forall i: nat :: i <= |es| ==> ExclusiveAt(start, es, i))
       <==> (forall i: nat :: i < |es| ==> PatientAt(start, es, i))
  {
    if es != [] {
      var init, e := es[..|es| - 1], es[|es| - 1];
      assert es == init + [e];
      ExclusiveIff(start, init);
      forall i: nat | i <= |init|
        ensures ExclusiveAt(start, es, i) <==> ExclusiveAt(start, init, i)
        ensures i < |init| ==> (PatientAt(start, es, i) <==> PatientAt(start, init, i))
      {
        PrefixAt(start, init, e, i);
      }
      if ExclusiveAt(start, init, |init|) { LastExclusive(start, init, e); }
    }
  }
}

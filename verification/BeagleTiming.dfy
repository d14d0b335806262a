/** The blinking of the main loop: how often it toggles, and what a toggle leaves behind. */
module BeagleTiming {
  import opened BeagleModel

  /** The clock samples at which the main loop toggled, in order. */
  ghost function ToggleTimes(s: Server, es: seq<Event>): seq<nat> {
    if es == [] then []
    else
      var init, e := es[..|es| - 1], es[|es| - 1];
      ToggleTimes(s, init) + if e.Tick? && Toggles(Run(s, init), e.now) then [e.now] else []
  }

  lemma StepDeadline(s: Server, e: Event)
    ensures Step(s, e).nextToggle == if e.Tick? && Toggles(s, e.now) then e.now + 1000 else s.nextToggle
  {
  }

  lemma {:induction false} ToggleDeadline(s: Server, es: seq<Event>)
    ensures
      var ts := ToggleTimes(s, es);
      Run(s, es).nextToggle == if ts == [] then s.nextToggle else ts[|ts| - 1] + 1000
  {
    if es != [] {
      var init := es[..|es| - 1];
      ToggleDeadline(s, init);
      StepDeadline(Run(s, init), es[|es| - 1]);
    }
  }

  /** Successive toggles are at least a second apart, in every run and for every clock. */
  lemma {:induction false} TogglesAtLeastASecondApart(s: Server, es: seq<Event>)
    ensures
      var ts := ToggleTimes(s, es);
      forall k :: 0 <= k < |ts| - 1 ==> ts[k] + 1000 <= ts[k + 1]
  {
    if es != [] {
      var init := es[..|es| - 1];
      TogglesAtLeastASecondApart(s, init);
      ToggleDeadline(s, init);
      var ts, us := ToggleTimes(s, init), ToggleTimes(s, es);
      assert ts <= us && |us| <= |ts| + 1;
      forall k | 0 <= k < |us| - 1 ensures us[k] + 1000 <= us[k + 1] {
        assert us[k] == ts[k];
        if k < |ts| - 1 { assert us[k + 1] == ts[k + 1]; }
      }
    }
  }

  /** The k-th toggle of the server comes no earlier than k seconds after its start. */
  lemma {:induction false} KthToggleNotBefore(start: nat, es: seq<Event>)
    ensures
      var ts := ToggleTimes(Initial(start), es);
      forall k :: 0 <= k < |ts| ==> start + 1000 * (k + 1) <= ts[k]
  {
    if es != [] {
      var init := es[..|es| - 1];
      KthToggleNotBefore(start, init);
      ToggleDeadline(Initial(start), init);
      var ts, us := ToggleTimes(Initial(start), init), ToggleTimes(Initial(start), es);
      assert ts <= us && |us| <= |ts| + 1;
      forall k | 0 <= k < |us| ensures start + 1000 * (k + 1) <= us[k] {
        if k < |ts| { assert us[k] == ts[k]; }
      }
    }
  }

  /** The clock samples of a run. */
  ghost function Samples(es: seq<Event>): seq<nat> {
    if es == [] then []
    else
      var e := es[|es| - 1];
      Samples(es[..|es| - 1]) + if e.Tick? then [e.now] else []
  }

  /** Nobody takes control during the run. */
  ghost predicate StaysAutomatic(s: Server, es: seq<Event>) {
    forall i :: 0 <= i <= |es| ==> Run(s, es[..i]).automatic
  }

  /** Time `k + 1` comes less than `bound` after time `k`. */
  ghost predicate GapBelow(ts: seq<nat>, k: nat, bound: nat)
    requires k + 1 < |ts|
  {
    ts[k + 1] < ts[k] + bound
  }

  ghost predicate GapsBelow(ts: seq<nat>, bound: nat) {
    forall k: nat :: k < |ts| - 1 ==> GapBelow(ts, k, bound)
  }

  /** Each sample comes at most `d` ms after the one before it. */
  ghost predicate SampledWithin(ts: seq<nat>, d: nat) {
    GapsBelow(ts, d + 1)
  }

  lemma PrefixStaysAutomatic(s: Server, es: seq<Event>)
    requires es != [] && StaysAutomatic(s, es)
    ensures StaysAutomatic(s, es[..|es| - 1])
  {
    var init := es[..|es| - 1];
    forall i | 0 <= i <= |init| ensures Run(s, init[..i]).automatic {
      assert init[..i] == es[..i];
    }
  }

  /** The first toggle less than d after it is due, if there was a sample before it was, the others less than 1000 + d
      apart, and the loop never a second behind at the last sample. */
  ghost predicate OnTime(ts: seq<nat>, samples: seq<nat>, first: nat, d: nat) {
    && (ts != [] && samples != [] && samples[0] < first ==> ts[0] < first + d)
    && GapsBelow(ts, 1000 + d)
    && (ts != [] ==> samples != [] && samples[|samples| - 1] < ts[|ts| - 1] + 1000)
    && (ts == [] && samples != [] ==> samples[|samples| - 1] < first)
  }

  lemma OnTimeExtends(ts: seq<nat>, samples: seq<nat>, first: nat, d: nat, now: nat)
    requires OnTime(ts, samples, first, d)
    requires samples != [] ==> now <= samples[|samples| - 1] + d
    ensures
      var deadline := if ts == [] then first else ts[|ts| - 1] + 1000;
      OnTime(if deadline <= now then ts + [now] else ts, samples + [now], first, d)
  {
    var deadline := if ts == [] then first else ts[|ts| - 1] + 1000;
    if deadline <= now {
      var us, bound := ts + [now], 1000 + d;
      forall k: nat | k < |us| - 1 ensures GapBelow(us, k, bound) {
        if k < |ts| - 1 { assert GapBelow(ts, k, bound); }
      }
    }
  }

  lemma WithinPrefix(ts: seq<nat>, now: nat, d: nat)
    requires SampledWithin(ts + [now], d)
    ensures SampledWithin(ts, d) && (ts != [] ==> now <= ts[|ts| - 1] + d)
  {
    var us, bound := ts + [now], d + 1;
    forall k: nat | k < |ts| - 1 ensures GapBelow(ts, k, bound) {
      assert GapBelow(us, k, bound);
    }
    if ts != [] { assert GapBelow(us, |ts| - 1, bound); }
  }

  lemma SamplesNext(s: Server, es: seq<Event>)
    requires es != []
    ensures
      var init, e := es[..|es| - 1], es[|es| - 1];
      && Samples(es) == (if e.Tick? then Samples(init) + [e.now] else Samples(init))
      && ToggleTimes(s, es) ==
         (if e.Tick? && Toggles(Run(s, init), e.now) then ToggleTimes(s, init) + [e.now] else ToggleTimes(s, init))
  {
  }

  /** While the main loop stays in automatic mode it is never a second behind at a sample, and with samples at
      most `d` ms apart the first toggle is less than `d` ms late, and successive ones less than 1000 + d ms apart. */
  lemma {:induction false} AutomaticToggleRate(s: Server, es: seq<Event>, d: nat)
    requires StaysAutomatic(s, es) && SampledWithin(Samples(es), d)
    ensures OnTime(ToggleTimes(s, es), Samples(es), s.nextToggle, d)
  {
    if es != [] {
      var init, e := es[..|es| - 1], es[|es| - 1];
      var ts, samples := ToggleTimes(s, init), Samples(init);
      SamplesNext(s, es);
      PrefixStaysAutomatic(s, es);
      if e.Tick? { WithinPrefix(samples, e.now, d); }
      AutomaticToggleRate(s, init, d);
      ToggleDeadline(s, init);
      assert Run(s, es[..|es| - 1]).automatic;
      if e.Tick? { OnTimeExtends(ts, samples, s.nextToggle, d, e.now); }
    }
  }

  lemma OnlyTogglesFlip(s: Server, e: Event)
    ensures Step(s, e).ledStateValue == if e.Tick? && Toggles(s, e.now) then !s.ledStateValue else s.ledStateValue
  {
  }

  /** Each toggle flips the blinking LEDs: they are on after an odd number of toggles. */
  lemma {:induction false} BlinkParity(start: nat, es: seq<Event>)
    ensures Run(Initial(start), es).ledStateValue <==> |ToggleTimes(Initial(start), es)| % 2 == 1
  {
    if es != [] {
      var init := es[..|es| - 1];
      BlinkParity(start, init);
      OnlyTogglesFlip(Run(Initial(start), init), es[|es| - 1]);
    }
  }

  /** LEDs 1 to 3, their status values and the main loop's own value agree, under one time stamp, each status with
      the quality of its own update function. */
  ghost predicate Synchronised(s: Server, time: nat) {
    forall n: Single :: SynchronisedAt(s, n, time)
  }

  ghost predicate SynchronisedAt(s: Server, n: Single, time: nat) {
    && s.leds.Get(n).trigger == Steady
    && s.leds.Get(n).brightness == BoolToInt(s.ledStateValue)
    && s.status.Get(n).stVal == s.ledStateValue
    && s.status.Get(n).t == time
    && s.status.Get(n).q == (match n case SPCSO1 => 1024 case SPCSO2 => 35 case SPCSO3 => 0)
  }

  /** The event makes a control handler drive one of LEDs 1 to 3. */
  predicate DrivesSingle(s: Server, e: Event) {
    e.Execute? && e.p.SP? && s.SlotOf(e.p).Accepted? && s.SlotOf(e.p).op.Effective()
  }

  /** The time stamp of the last toggle of the run, the first being at `now`. */
  ghost function LastToggle(s: Server, es: seq<Event>, now: nat): nat {
    var ts := ToggleTimes(s, es);
    if ts == [] then now else ts[|ts| - 1]
  }

  /** However remote control left the LEDs, a toggle brings them together, and they stay so until a control
      handler drives one of them. */
  lemma {:induction false} ToggleResynchronises(s: Server, now: nat, es: seq<Event>)
    requires Toggles(s, now)
    requires forall i :: 0 <= i < |es| ==> !DrivesSingle(Run(Step(s, Tick(now)), es[..i]), es[i])
    ensures
      var s' := Step(s, Tick(now));
      Synchronised(Run(s', es), LastToggle(s', es, now))
  {
    var s' := Step(s, Tick(now));
    if es != [] {
      var init, e := es[..|es| - 1], es[|es| - 1];
      forall i | 0 <= i < |init| ensures !DrivesSingle(Run(s', init[..i]), init[i]) {
        assert init[..i] == es[..i] && init[i] == es[i];
      }
      ToggleResynchronises(s, now, init);
      var t, t' := Run(s', init), Run(s', es);
      assert !DrivesSingle(t, e);
      forall n: Single ensures SynchronisedAt(t', n, LastToggle(s', es, now)) {
        assert SynchronisedAt(t, n, LastToggle(s', init, now));
        StepKeepsSynchronised(t, e, n, LastToggle(s', init, now));
      }
    }
  }

  lemma StepKeepsSynchronised(t: Server, e: Event, n: Single, time: nat)
    requires !DrivesSingle(t, e) && SynchronisedAt(t, n, time)
    ensures SynchronisedAt(Step(t, e), n, if e.Tick? && Toggles(t, e.now) then e.now else time)
  {
  }
}

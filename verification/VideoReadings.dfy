/** The profile controller told from what it is given: readings and their limits, reports and their numbers, clock times,
    and the requests and acknowledgements so far. The evidence of the other modules is restated in these terms. */
module VideoReadings {
  import opened AdaptiveVideo
  import opened VideoLaw
  import opened VideoEvidence
  import opened VideoPrompt

  // ---------- The readings of one sample ----------

  ghost predicate FewFrames(s: Stats) { s.fps.Finite? && 0.0 <= s.fps.value < 21.0 }

  ghost predicate BadReadings(s: Stats) {
    || s.stalled || FewFrames(s)
    || (s.rttMs.Finite? && s.rttMs.value > 250.0)
    || (s.jitterMs.Finite? && s.jitterMs.value > 50.0)
    || (s.lossRatio.Finite? && 0.05 < s.lossRatio.value <= 1.0)
    || (s.jitterBufferMs.Finite? && s.jitterBufferMs.value > 150.0)
  }

  ghost predicate GoodReadings(s: Stats) {
    && !s.stalled
    && s.fps.Finite? && s.fps.value >= 21.0
    && s.rttMs.Finite? && 0.0 <= s.rttMs.value < 160.0
    && s.jitterMs.Finite? && 0.0 <= s.jitterMs.value < 25.0
    && s.lossRatio.Finite? && 0.0 <= s.lossRatio.value < 0.01
    && (s.jitterBufferMs.Absent? || (s.jitterBufferMs.Finite? && 0.0 <= s.jitterBufferMs.value < 80.0))
  }

  lemma ReadingsMean(s: Stats)
    ensures s.LowFps() <==> FewFrames(s)
    ensures s.Impaired() <==> BadReadings(s)
    ensures s.Healthy() <==> GoodReadings(s)
  {
  }

  // ---------- The profiles ----------

  /** Better profiles come first, need more and show no fewer lines. */
  lemma ProfilesAreGraded(p: Profile, q: Profile)
    ensures p.Rank() < q.Rank() ==> p.MinBps() > q.MinBps() && p.Height() >= q.Height()
    ensures p.Rank() == q.Rank() ==> p == q
    ensures P720p60.MinBps() == 2_800_000 && P720p30.MinBps() == 1_400_000 && P540p30.MinBps() == 800_000
    ensures P360p30.MinBps() == 500_000 && P240p30.MinBps() == 250_000
    ensures P720p60.Height() == P720p30.Height() == 720 && P540p30.Height() == 540 && P360p30.Height() == 360 && P240p30.Height() == 240
    ensures P720p60.Rank() < P720p30.Rank()
  {
  }

  /** q is the best supported profile worse than the current one. */
  ghost predicate NextBelow(profiles: seq<Profile>, current: Profile, q: Profile) {
    && q in profiles && q.Rank() > current.Rank()
    && forall r :: r in profiles && r.Rank() > current.Rank() ==> q.Rank() <= r.Rank()
  }

  ghost predicate NextAbove(profiles: seq<Profile>, current: Profile, q: Profile) {
    && q in profiles && q.Rank() < current.Rank()
    && forall r :: r in profiles && r.Rank() < current.Rank() ==> r.Rank() <= q.Rank()
  }

  /** q is the best supported profile with fewer pixels than the current one. */
  ghost predicate NextSmaller(profiles: seq<Profile>, current: Profile, q: Profile) {
    && q in profiles && q.Height() < current.Height()
    && forall r :: r in profiles && r.Height() < current.Height() ==> q.Rank() <= r.Rank()
  }

  /** q is the best worse profile that the estimate covers, or the last of all if it covers none of them. */
  ghost predicate FitBelow(profiles: seq<Profile>, current: Profile, bps: int, q: Profile) {
    && q in profiles && q.Rank() > current.Rank()
    && (forall r :: r in profiles && current.Rank() < r.Rank() < q.Rank() ==> r.MinBps() > bps)
    && (q.MinBps() > bps ==> forall r :: r in profiles ==> r.Rank() <= q.Rank())
  }

  /** The list of worse profiles, in order. */
  ghost predicate Worse(profiles: seq<Profile>, current: Profile, lower: seq<Profile>) {
    && Ordered(lower)
    && (forall r :: r in lower ==> r in profiles && r.Rank() > current.Rank())
    && (forall r :: r in profiles && r.Rank() > current.Rank() ==> r in lower)
  }

  lemma LowerIsWorse(profiles: seq<Profile>, current: Profile)
    requires Ordered(profiles) && current in profiles
    ensures Worse(profiles, current, Lower(profiles, current))
  {
    LowerIsOther(profiles, current);
    var i := IndexOf(profiles, current);
    forall r | r in profiles && r.Rank() > current.Rank()
      ensures r in Lower(profiles, current)
    {
      var k :| 0 <= k < |profiles| && profiles[k] == r;
      assert k > i && Lower(profiles, current)[k - i - 1] == r;
    }
  }

  lemma FirstWorse(profiles: seq<Profile>, current: Profile, lower: seq<Profile>)
    requires Worse(profiles, current, lower) && lower != []
    ensures NextBelow(profiles, current, lower[0])
  {
    forall r | r in profiles && r.Rank() > current.Rank()
      ensures lower[0].Rank() <= r.Rank()
    {
      var k :| 0 <= k < |lower| && lower[k] == r;
    }
  }

  lemma NextUpMeans(profiles: seq<Profile>, current: Profile)
    requires Ordered(profiles) && current in profiles
    ensures NextUp(profiles, current).Some? ==> NextAbove(profiles, current, NextUp(profiles, current).value)
    ensures NextUp(profiles, current).None? ==> forall r :: r in profiles ==> r.Rank() >= current.Rank()
  {
    LowerIsOther(profiles, current);
    var i := IndexOf(profiles, current);
    forall r | r in profiles && r.Rank() < current.Rank()
      ensures i > 0 && r.Rank() <= profiles[i - 1].Rank()
    {
      var k :| 0 <= k < |profiles| && profiles[k] == r;
      assert k < i;
    }
  }

  lemma SmallerIsWorse(profiles: seq<Profile>, current: Profile, lower: seq<Profile>, r: Profile)
    requires Worse(profiles, current, lower) && r in profiles && r.Height() < current.Height()
    ensures r in lower
  {
    ProfilesAreGraded(r, current);
  }

  lemma FewerPixelsMean(profiles: seq<Profile>, current: Profile, lower: seq<Profile>)
    requires Worse(profiles, current, lower) && lower != []
    ensures
      var q := FewerPixels(lower, current.Height());
      if exists r :: r in profiles && r.Height() < current.Height() then NextSmaller(profiles, current, q) else NextBelow(profiles, current, q)
  {
    if exists r :: r in profiles && r.Height() < current.Height() {
      SmallestIsFound(profiles, current, lower);
    } else {
      assert forall i :: 0 <= i < |lower| ==> lower[i] in profiles;
      FirstWorse(profiles, current, lower);
    }
  }

  lemma SmallestIsFound(profiles: seq<Profile>, current: Profile, lower: seq<Profile>)
    requires Worse(profiles, current, lower) && lower != []
    requires exists r :: r in profiles && r.Height() < current.Height()
    ensures NextSmaller(profiles, current, FewerPixels(lower, current.Height()))
  {
    var h := current.Height();
    var r :| r in profiles && r.Height() < h;
    SmallerIsWorse(profiles, current, lower, r);
    var i :| 0 <= i < |lower| && lower[i] == r;
    FirstBelowIsBest(lower, h);
    var q := FirstBelow(lower, h);
    assert q == FewerPixels(lower, h);
    forall o | o in profiles && o.Height() < h
      ensures q.Rank() <= o.Rank()
    {
      SmallerIsWorse(profiles, current, lower, o);
    }
  }

  lemma BestFitMeans(profiles: seq<Profile>, current: Profile, lower: seq<Profile>, bps: int)
    requires Worse(profiles, current, lower) && lower != []
    ensures FitBelow(profiles, current, bps, BestFit(lower, bps))
  {
    BestFitIsBest(lower, bps);
    var q := BestFit(lower, bps);
    if q.MinBps() > bps { LastIsLast(profiles, current, lower); }
  }

  lemma LastIsLast(profiles: seq<Profile>, current: Profile, lower: seq<Profile>)
    requires Worse(profiles, current, lower) && lower != []
    ensures forall r :: r in profiles ==> r.Rank() <= lower[|lower| - 1].Rank()
  {
    var last := lower[|lower| - 1];
    assert last in lower;
    forall r | r in profiles
      ensures r.Rank() <= last.Rank()
    {
      if r.Rank() > current.Rank() {
        var k :| 0 <= k < |lower| && lower[k] == r;
      }
    }
  }

  lemma FitIsUnique(profiles: seq<Profile>, current: Profile, bps: int, q: Profile, o: Profile)
    requires FitBelow(profiles, current, bps, q) && FitBelow(profiles, current, bps, o)
    ensures q == o
  {
    ProfilesAreGraded(q, o);
  }

  // ---------- The reports ----------

  ghost predicate Timed(e: Event) { e.clock.Ms? && e.clock.t >= 0 }

  ghost predicate TimedReport(e: Event) { e.Report? && Timed(e) }

  /** A report with an estimate: a positive safe integer, no older than 1500 ms. */
  ghost predicate Telling(e: Event) {
    && e.Report? && e.bps.Some? && 0 < e.bps.value <= 9_007_199_254_740_991
    && e.ageMs.Some? && 0 <= e.ageMs.value <= 1_500
  }

  /** Below what the current profile needs. */
  ghost predicate TooLittle(current: Profile, e: Event) { Telling(e) && e.bps.value < current.MinBps() }

  /** Below 650 kbit/s, and the profile to fall to has fewer pixels and another one above it is passed over. */
  ghost predicate FarTooLittle(profiles: seq<Profile>, current: Profile, e: Event) {
    && TooLittle(current, e) && e.bps.value < 650_000
    && exists q :: FitBelow(profiles, current, e.bps.value, q) && q.Height() < current.Height() && PassesOver(profiles, current, q)
  }

  ghost predicate PassesOver(profiles: seq<Profile>, current: Profile, q: Profile) {
    exists r :: r in profiles && current.Rank() < r.Rank() < q.Rank()
  }

  lemma PassingIs(profiles: seq<Profile>, current: Profile, q: Profile)
    requires Ordered(profiles) && current in profiles && q in profiles
    ensures PassesOver(profiles, current, q) <==> IndexOf(profiles, q) - IndexOf(profiles, current) > 1
  {
    var i, j := IndexOf(profiles, current), IndexOf(profiles, q);
    if j - i > 1 {
      assert profiles[i + 1] in profiles;
    }
    if r :| r in profiles && current.Rank() < r.Rank() < q.Rank() {
      var k :| 0 <= k < |profiles| && profiles[k] == r;
      assert i < k < j;
    }
  }

  lemma FarMeans(profiles: seq<Profile>, current: Profile, bps: int, target: Profile)
    requires FitBelow(profiles, current, bps, target)
    ensures (exists q :: FitBelow(profiles, current, bps, q) && q.Height() < current.Height() && PassesOver(profiles, current, q))
      <==> target.Height() < current.Height() && PassesOver(profiles, current, target)
  {
    forall q | FitBelow(profiles, current, bps, q)
      ensures q == target
    {
      FitIsUnique(profiles, current, bps, q, target);
    }
  }

  lemma ReportMeans(p: Policy, e: Event)
    requires Valid(p)
    ensures LowReport(p, e) <==> TooLittle(p.current, e)
    ensures SevereReport(p, e) <==> FarTooLittle(p.profiles, p.current, e)
  {
    if TooLittle(p.current, e) {
      var lower := Lower(p.profiles, p.current);
      LowerIsWorse(p.profiles, p.current);
      if lower != [] {
        var target := BestFit(lower, e.bps.value);
        BestFitMeans(p.profiles, p.current, lower, e.bps.value);
        PassingIs(p.profiles, p.current, target);
        FarMeans(p.profiles, p.current, e.bps.value, target);
      }
    }
  }

  // ---------- What came before ----------

  datatype Ask = Ask(profile: Profile, at: int)

  /** The acknowledgement names the profile asked for last. */
  ghost predicate Takes(o: Option<Ask>, e: Event) {
    e.Ack? && Timed(e) && o.Some? && o.value.profile == e.profile
  }

  /** The last request among the first n events, unless it was acknowledged since. */
  ghost function Outstanding(events: seq<Event>, asks: seq<Option<Profile>>, n: nat): Option<Ask>
    requires n <= |events| == |asks|
  {
    if n == 0 then None
    else if asks[n - 1].Some? && events[n - 1].clock.Ms? then Some(Ask(asks[n - 1].value, events[n - 1].clock.t))
    else if Takes(Outstanding(events, asks, n - 1), events[n - 1]) then None
    else Outstanding(events, asks, n - 1)
  }

  /** The requests made since the last acknowledgement that was taken. */
  ghost function Unanswered(events: seq<Event>, asks: seq<Option<Profile>>, n: nat): nat
    requires n <= |events| == |asks|
  {
    if n == 0 || Takes(Outstanding(events, asks, n - 1), events[n - 1]) then 0
    else Unanswered(events, asks, n - 1) + if asks[n - 1].Some? then 1 else 0
  }

  /** When the profile last changed. */
  ghost function ChangedAt(events: seq<Event>, asks: seq<Option<Profile>>, n: nat): Option<int>
    requires n <= |events| == |asks|
  {
    if n == 0 then None
    else if Takes(Outstanding(events, asks, n - 1), events[n - 1]) then Some(events[n - 1].clock.t)
    else ChangedAt(events, asks, n - 1)
  }

  /** A sample at least 750 ms after the one looked at last, or not after it at all, is looked at. */
  ghost predicate IsLooked(last: Option<int>, e: Event) {
    e.Sample? && Timed(e) && (last.None? || e.clock.t <= last.value || e.clock.t - last.value >= 750)
  }

  ghost predicate StartsOver(last: Option<int>, e: Event) {
    IsLooked(last, e) && (last.None? || e.clock.t <= last.value || e.clock.t - last.value > 3_000)
  }

  ghost function LastLookedAt(events: seq<Event>, n: nat): Option<int>
    requires n <= |events|
  {
    if n == 0 then None
    else if IsLooked(LastLookedAt(events, n - 1), events[n - 1]) then Some(events[n - 1].clock.t)
    else LastLookedAt(events, n - 1)
  }

  /** When the samples without a gap began. */
  ghost function SamplesSince(events: seq<Event>, n: nat): Option<int>
    requires n <= |events|
  {
    if n == 0 then None
    else if StartsOver(LastLookedAt(events, n - 1), events[n - 1]) then Some(events[n - 1].clock.t)
    else SamplesSince(events, n - 1)
  }

  ghost function LastReportAt(events: seq<Event>, n: nat): Option<int>
    requires n <= |events|
  {
    if n == 0 then None
    else if TimedReport(events[n - 1]) then Some(events[n - 1].clock.t)
    else LastReportAt(events, n - 1)
  }

  /** The estimate of the last report, dated back by its age; none if that report told none. */
  ghost function LastEstimate(events: seq<Event>, n: nat): Option<Estimate>
    requires n <= |events|
  {
    if n == 0 then None
    else if TimedReport(events[n - 1]) then
      if Telling(events[n - 1]) then Some(Estimate(events[n - 1].bps.value, events[n - 1].clock.t - events[n - 1].ageMs.value)) else None
    else LastEstimate(events, n - 1)
  }

  /** Event n is a sample that counts: looked at, after 3000 ms of samples without a gap, with no request of the last
      5000 ms outstanding, and, before the first report, 8000 ms after a change of profile. */
  ghost predicate CountsAt(events: seq<Event>, asks: seq<Option<Profile>>, n: nat)
    requires n < |events| == |asks|
  {
    && IsLooked(LastLookedAt(events, n), events[n])
    && var now, since, changed, asked :=
         events[n].clock.t, SamplesSince(events, n + 1), ChangedAt(events, asks, n), Outstanding(events, asks, n);
       && since.Some? && now - since.value >= 3_000
       && (LastReportAt(events, n).None? && changed.Some? ==> now - changed.value >= 8_000)
       && (asked.Some? ==> now - asked.value.at >= 5_000)
  }

  /** A run from a controller that has heard nothing. */
  ghost predicate Fresh(t: Trace) {
    && IsTrace(t) && Unstarted(t.states[0]) && NeverSampled(t.states[0])
    && !t.states[0].feedback && t.states[0].bandwidth.None?
  }

  lemma InitialIsFresh(t: Trace, offered: set<Profile>, current: Profile)
    requires IsTrace(t) && current in offered && t.states[0] == Initial(offered, current)
    ensures Fresh(t)
  {
    InitialIsUnstarted(offered, current);
  }

  ghost predicate ClockPassed(events: seq<Event>, n: nat, time: int)
    requires n <= |events|
  {
    exists k :: 0 <= k < n && Timed(events[k]) && events[k].clock.t >= time
  }

  /** What the controller knows of its requests agrees with what came before. */
  ghost predicate RequestsKnown(t: Trace, n: nat)
    requires IsTrace(t) && n <= |t.events|
  {
    var p, o := t.states[n], Outstanding(t.events, t.asks, n);
    && p.lastRequested == (if o.Some? then Some(o.value.profile) else None)
    && p.unacknowledged == Unanswered(t.events, t.asks, n)
    && (p.pending.Some? ==> o.Some? && p.pending.value.requestedAt == o.value.at)
    && (p.pending.None? && o.Some? ==> ClockPassed(t.events, n, o.value.at + 5_000))
  }

  lemma {:induction false} RequestsAreKnown(t: Trace, n: nat)
    requires Fresh(t) && n <= |t.events|
    ensures RequestsKnown(t, n)
  {
    if n > 0 {
      RequestsAreKnown(t, n - 1);
      LawHolds(t, n - 1);
      RequestsStayKnown(t, n - 1);
    }
  }

  lemma RequestsStayKnown(t: Trace, n: nat)
    requires IsTrace(t) && n < |t.events| && RequestsKnown(t, n) && Valid(t.states[n]) && Valid(t.states[n + 1])
    requires RequestLaw(t.states[n], t.events[n], t.states[n + 1], t.asks[n])
    requires PendingLaw(t.states[n], t.events[n], t.states[n + 1], t.asks[n])
    ensures RequestsKnown(t, n + 1)
  {
    var p, o := t.states[n], Outstanding(t.events, t.asks, n);
    assert EffectiveAck(p, t.events[n]) <==> Takes(o, t.events[n]);
    if o.Some? && ClockPassed(t.events, n, o.value.at + 5_000) {
      assert ClockPassed(t.events, n + 1, o.value.at + 5_000);
    }
  }

  /** The profile changes exactly when the request made last is acknowledged, however late, and to that profile. */
  lemma ChangesMean(t: Trace, n: nat)
    requires Fresh(t) && n < |t.events|
    ensures EffectiveAck(t.states[n], t.events[n]) <==> Takes(Outstanding(t.events, t.asks, n), t.events[n])
    ensures t.states[n + 1].current ==
      if Takes(Outstanding(t.events, t.asks, n), t.events[n]) then t.events[n].profile else t.states[n].current
  {
    RequestsAreKnown(t, n);
    StatesAreValid(t, n);
    NextFacts(t, n);
  }

  lemma {:induction false} ClocksMean(t: Trace, n: nat)
    requires n <= |t.events|
    ensures LastLooked(t.events, n) == LastLookedAt(t.events, n) && SamplingSince(t.events, n) == SamplesSince(t.events, n)
    ensures LastReport(t.events, n) == LastReportAt(t.events, n)
  {
    if n > 0 { ClocksMean(t, n - 1); }
  }

  lemma {:induction false} ChangesAreDated(t: Trace, n: nat)
    requires Fresh(t) && n <= |t.events|
    ensures LastChange(t, n) == ChangedAt(t.events, t.asks, n)
  {
    if n > 0 {
      ChangesAreDated(t, n - 1);
      ChangesMean(t, n - 1);
    }
  }

  lemma {:induction false} EstimatesAreKnown(t: Trace, n: nat)
    requires Fresh(t) && n <= |t.events|
    ensures t.states[n].bandwidth == LastEstimate(t.events, n)
  {
    if n > 0 {
      EstimatesAreKnown(t, n - 1);
      LawHolds(t, n - 1);
    }
  }

  /** What makes a sample count, told from one state. */
  lemma CountsAre(p: Policy, now: int)
    ensures
      var since := if Restarts(p, now) then Some(now) else p.firstSampleAt;
      Counts(p, now) <==>
        && !TooSoon(p, now) && !Waiting(p, now) && since.Some? && now - since.value >= 3_000
        && (!p.feedback && p.lastChangeAt.Some? ==> now - p.lastChangeAt.value >= 8_000)
  {
  }

  lemma WaitingMeans(t: Trace, n: nat)
    requires Fresh(t) && ClockNeverFalls(t.events) && n < |t.events| && Timed(t.events[n])
    ensures
      var o := Outstanding(t.events, t.asks, n);
      Waiting(t.states[n], t.events[n].clock.t) <==> o.Some? && t.events[n].clock.t - o.value.at < 5_000
  {
    RequestsAreKnown(t, n);
    var o := Outstanding(t.events, t.asks, n);
    if t.states[n].pending.None? && o.Some? {
      var k :| 0 <= k < n && Timed(t.events[k]) && t.events[k].clock.t >= o.value.at + 5_000;
      assert t.events[k].clock.t <= t.events[n].clock.t;
    }
  }

  /** Which samples count is told from the events and the requests alone. */
  lemma CountsMean(t: Trace, n: nat)
    requires Fresh(t) && ClockNeverFalls(t.events) && n < |t.events|
    ensures CountedSample(t.states[n], t.events[n]) <==> CountsAt(t.events, t.asks, n)
  {
    var e := t.events[n];
    if e.Sample? && Timed(e) {
      ClocksAreKept(t, n);
      ClocksMean(t, n);
      ClocksMean(t, n + 1);
      ChangesAreDated(t, n);
      FeedbackMeansReport(t, n);
      WaitingMeans(t, n);
      CountsAre(t.states[n], e.clock.t);
    }
  }

  // ---------- Downgrades on samples ----------

  /** Between two samples that count, a and b: none that counts, no change of profile, no sampling started over. */
  ghost predicate Consecutive(t: Trace, a: nat, b: nat)
    requires IsTrace(t) && a < b < |t.events|
  {
    && CountedSample(t.states[a], t.events[a]) && CountedSample(t.states[b], t.events[b])
    && forall k :: a < k < b ==> PassesBy(t, k)
  }

  ghost predicate PassesBy(t: Trace, k: nat)
    requires IsTrace(t) && k < |t.events|
  {
    && !CountedSample(t.states[k], t.events[k]) && t.states[k + 1].current == t.states[k].current
    && !StartsOver(LastLookedAt(t.events, k), t.events[k])
  }

  /** The last of the counted samples that a run of poor ones ends with. */
  lemma {:induction false} LastOfRun(t: Trace, n: nat, k: nat, lowFps: bool) returns (a: nat)
    requires Fresh(t) && n <= |t.events| && k > 0 && PoorRun(t, n, k, lowFps)
    ensures a < n && CountedSample(t.states[a], t.events[a]) && Poor(t.events[a].stats, lowFps) && PoorRun(t, a, k - 1, lowFps)
    ensures forall i :: a < i < n ==> PassesBy(t, i)
  {
    if CountedSample(t.states[n - 1], t.events[n - 1]) {
      a := n - 1;
    } else {
      a := LastOfRun(t, n - 1, k, lowFps);
      UncountedPassesBy(t, n - 1);
    }
  }

  lemma UncountedPassesBy(t: Trace, k: nat)
    requires Fresh(t) && k < |t.events| && !CountedSample(t.states[k], t.events[k])
    requires !EffectiveAck(t.states[k], t.events[k]) && !RestartsSampling(t.states[k], t.events[k])
    ensures PassesBy(t, k)
  {
    ClocksAreKept(t, k);
    ClocksMean(t, k);
    RequestsAreSupported(t, k);
  }

  lemma PreviousIsUnique(t: Trace, a: nat, o: nat, b: nat)
    requires IsTrace(t) && a < b < |t.events| && o < b && Consecutive(t, a, b) && Consecutive(t, o, b)
    ensures a == o
  {
    assert a < o ==> PassesBy(t, o);
    assert o < a ==> PassesBy(t, a);
  }

  /** A downgrade asked for on a sample rests on three consecutive counted samples with bad readings, this one the
      last. It goes to the best profile below; or, if all three had few frames, to the best one with fewer pixels. */
  lemma DowngradesRestOnReadings(t: Trace, n: nat) returns (a: nat, b: nat)
    requires Fresh(t) && n < |t.events| && t.events[n].Sample? && t.asks[n].Some?
    requires t.asks[n].value.Rank() > t.states[n].current.Rank()
    ensures a < b < n && Consecutive(t, a, b) && Consecutive(t, b, n)
    ensures BadReadings(t.events[a].stats) && BadReadings(t.events[b].stats) && BadReadings(t.events[n].stats)
    ensures
      || NextBelow(t.states[0].profiles, t.states[n].current, t.asks[n].value)
      || (&& FewFrames(t.events[a].stats) && FewFrames(t.events[b].stats) && FewFrames(t.events[n].stats)
          && NextSmaller(t.states[0].profiles, t.states[n].current, t.asks[n].value))
  {
    SampleDowngradesHaveEvidence(t, n);
    b := LastOfRun(t, n, 2, false);
    a := LastOfRun(t, b, 1, false);
    ReadingsAtMean(t, n);
    ReadingsAtMean(t, a);
    ReadingsAtMean(t, b);
    if PoorRun(t, n + 1, 3, true) { FewRunIsSame(t, a, b, n); }
    StatesAreValid(t, n);
    TargetsMean(t.states[0].profiles, t.states[n].current);
  }

  /** The two profiles a downgrade can go to; the one for fewer pixels is the first below if none has fewer. */
  lemma TargetsMean(profiles: seq<Profile>, current: Profile)
    requires Ordered(profiles) && current in profiles && Lower(profiles, current) != []
    ensures NextBelow(profiles, current, Lower(profiles, current)[0])
    ensures
      var q := FewerPixels(Lower(profiles, current), current.Height());
      NextSmaller(profiles, current, q) || NextBelow(profiles, current, q)
  {
    LowerIsWorse(profiles, current);
    FirstWorse(profiles, current, Lower(profiles, current));
    FewerPixelsMean(profiles, current, Lower(profiles, current));
  }

  lemma ReadingsAtMean(t: Trace, k: nat)
    requires IsTrace(t) && k < |t.events| && t.events[k].Sample?
    ensures Poor(t.events[k].stats, false) <==> BadReadings(t.events[k].stats)
    ensures Poor(t.events[k].stats, true) <==> FewFrames(t.events[k].stats)
  {
    ReadingsMean(t.events[k].stats);
  }

  lemma FewRunIsSame(t: Trace, a: nat, b: nat, n: nat)
    requires Fresh(t) && a < b < n < |t.events| && Consecutive(t, a, b) && Consecutive(t, b, n) && PoorRun(t, n + 1, 3, true)
    ensures FewFrames(t.events[a].stats) && FewFrames(t.events[b].stats) && FewFrames(t.events[n].stats)
  {
    var b' := LastOfRun(t, n, 2, true);
    PreviousIsUnique(t, b, b', n);
    var a' := LastOfRun(t, b, 1, true);
    PreviousIsUnique(t, a, a', b);
    ReadingsAtMean(t, n);
    ReadingsAtMean(t, a);
    ReadingsAtMean(t, b);
  }

  // ---------- Three bad samples in a streak ----------

  /** Nothing is asked at event k, and it leaves the evidence of samples alone: a sample not looked at, a report that is not
      the first, an acknowledgement that is not taken, or an event without a usable time. */
  ghost predicate QuietAt(t: Trace, k: nat)
    requires IsTrace(t) && k < |t.events|
  {
    var e := t.events[k];
    && t.asks[k].None?
    && (Timed(e) ==>
          match e
          case Report(_, _, _) => LastReportAt(t.events, k).Some?
          case Sample(_, _) => !IsLooked(LastLookedAt(t.events, k), e)
          case Ack(_, _) => !Takes(Outstanding(t.events, t.asks, k), e))
  }

  ghost predicate QuietBetween(t: Trace, a: nat, b: nat)
    requires IsTrace(t) && a < b < |t.events|
  {
    forall k :: a < k < b ==> QuietAt(t, k)
  }

  lemma QuietMeans(t: Trace, k: nat)
    requires Fresh(t) && k < |t.events|
    ensures QuietAt(t, k) ==> Quiet(t.states[k], t.events[k]) && !CountedSample(t.states[k], t.events[k])
  {
    ClocksAreKept(t, k);
    ClocksMean(t, k);
    FeedbackMeansReport(t, k);
    ChangesMean(t, k);
  }

  /** The counts that one event leaves. */
  predicate CountLaw(p: Policy, e: Event, q: Policy, asked: Option<Profile>)
    requires p.current in p.profiles
  {
    && (asked.None? && CountedSample(p, e) ==> q.lowFpsSamples == if e.stats.LowFps() then p.lowFpsSamples + 1 else 0)
    && (asked.None? && Quiet(p, e) ==> q.lowFpsSamples == p.lowFpsSamples)
    && (asked.Some? && CountedSample(p, e) ==> asked == Some(
          if p.lowFpsSamples >= 2 && e.stats.LowFps() && Lower(p.profiles, p.current) != []
          then FewerPixels(Lower(p.profiles, p.current), p.current.Height())
          else if e.stats.Impaired() && Lower(p.profiles, p.current) != [] then Lower(p.profiles, p.current)[0]
          else asked.value))
  }

  lemma CountedIsExact(p: Policy, e: Event)
    requires Valid(p) && CountedSample(p, e)
    ensures CountLaw(p, e, Step(p, e).0, Step(p, e).1)
  {
    var now := e.clock.t;
    CountedIsNoRestart(p, e);
    var q := Released(Sampled(p, now), now);
    assert q.lowFpsSamples == p.lowFpsSamples && q.profiles == p.profiles && q.current == p.current;
    WeighedIsExact(p, e, q);
  }

  lemma WeighedIsExact(p: Policy, e: Event, q: Policy)
    requires Valid(p) && CountedSample(p, e) && q.lowFpsSamples == p.lowFpsSamples && q.profiles == p.profiles && q.current == p.current
    ensures CountLaw(p, e, Answer(Weigh(q, e.stats, e.clock.t), e.clock.t).0, Answer(Weigh(q, e.stats, e.clock.t), e.clock.t).1)
  {
  }

  lemma QuietIsExact(p: Policy, e: Event)
    requires Valid(p) && Quiet(p, e) && !CountedSample(p, e)
    ensures CountLaw(p, e, Step(p, e).0, Step(p, e).1)
  {
    if HeardReport(e) && ValidReport(e.bps, e.ageMs) {
      var q := Estimated(Heard(p, e.clock.t), e.bps.value, e.ageMs.value, e.clock.t);
      assert q.lowFpsSamples == p.lowFpsSamples && Released(q, e.clock.t).lowFpsSamples == p.lowFpsSamples;
      JudgedKeepsCount(Released(q, e.clock.t), e.bps.value, e.clock.t);
    }
  }

  lemma JudgedKeepsCount(q: Policy, bps: int, now: int)
    requires q.current in q.profiles
    ensures JudgeReport(q, bps, now).1.None? ==> JudgeReport(q, bps, now).0.lowFpsSamples == q.lowFpsSamples
  {
  }

  lemma TakenStepCounts(p: Policy, e: Event, q: Policy, asked: Option<Profile>)
    requires Valid(p) && q == Step(p, e).0 && asked == Step(p, e).1
    ensures CountedSample(p, e) || Quiet(p, e) ==> CountLaw(p, e, q, asked)
  {
    if CountedSample(p, e) { CountedIsExact(p, e); } else if Quiet(p, e) { QuietIsExact(p, e); }
  }

  lemma CountsStepBy(t: Trace, k: nat)
    requires Fresh(t) && k < |t.events|
    ensures Valid(t.states[k]) && t.states[k].profiles == t.states[0].profiles
    ensures CountedSample(t.states[k], t.events[k]) || QuietAt(t, k) ==> CountLaw(t.states[k], t.events[k], t.states[k + 1], t.asks[k])
    ensures QuietAt(t, k) ==> Quiet(t.states[k], t.events[k]) && !CountedSample(t.states[k], t.events[k])
  {
    StatesAreValid(t, k);
    QuietMeans(t, k);
    assert IsStep(t, k);
    TakenStepCounts(t.states[k], t.events[k], t.states[k + 1], t.asks[k]);
  }

  /** Quiet events change neither the streak, nor the count of samples with few frames, nor the profile, nor what is unanswered. */
  lemma {:induction false} QuietStretch(t: Trace, a: nat, b: nat)
    requires Fresh(t) && a < b < |t.events| && QuietBetween(t, a, b)
    ensures PoorStreak(t, b) == PoorStreak(t, a + 1) && t.states[b].lowFpsSamples == t.states[a + 1].lowFpsSamples
    decreases b - a
  {
    if a + 1 < b {
      QuietStretch(t, a, b - 1);
      assert QuietAt(t, b - 1);
      CountsStepBy(t, b - 1);
    }
  }

  /** A counted sample with bad readings lengthens the streak, and the count of samples with few frames or resets it. */
  lemma BadSampleCounts(t: Trace, a: nat)
    requires Fresh(t) && a < |t.events| && CountedSample(t.states[a], t.events[a]) && BadReadings(t.events[a].stats) && t.asks[a].None?
    ensures PoorStreak(t, a + 1) == PoorStreak(t, a) + 1
    ensures t.states[a + 1].lowFpsSamples == if FewFrames(t.events[a].stats) then t.states[a].lowFpsSamples + 1 else 0
  {
    ReadingsMean(t.events[a].stats);
    CountsStepBy(t, a);
  }

  /** Three counted samples with bad readings and only quiet events between them are answered at the third, as long as
      fewer than three requests are unanswered and there is a worse profile: with the best profile that has fewer pixels if
      all three had few frames and there is one, else with the best one below. */
  lemma BadSamplesAreAnswered(t: Trace, a: nat, b: nat, n: nat)
    requires Fresh(t) && a < b < n < |t.events|
    requires CountedSample(t.states[a], t.events[a]) && BadReadings(t.events[a].stats) && t.asks[a].None? && QuietBetween(t, a, b)
    requires CountedSample(t.states[b], t.events[b]) && BadReadings(t.events[b].stats) && t.asks[b].None? && QuietBetween(t, b, n)
    requires CountedSample(t.states[n], t.events[n]) && BadReadings(t.events[n].stats)
    requires Unanswered(t.events, t.asks, n) < 3
    requires exists q :: q in t.states[0].profiles && q.Rank() > t.states[n].current.Rank()
    ensures t.asks[n].Some?
    ensures
      var profiles, current := t.states[0].profiles, t.states[n].current;
      if FewFrames(t.events[a].stats) && FewFrames(t.events[b].stats) && FewFrames(t.events[n].stats)
         && exists q :: q in profiles && q.Height() < current.Height()
      then NextSmaller(profiles, current, t.asks[n].value)
      else NextBelow(profiles, current, t.asks[n].value)
  {
    BadSampleCounts(t, a);
    QuietStretch(t, a, b);
    BadSampleCounts(t, b);
    QuietStretch(t, b, n);
    ReadingsMean(t.events[n].stats);
    RequestsAreKnown(t, n);
    CountsStepBy(t, n);
    var profiles, current := t.states[0].profiles, t.states[n].current;
    LowerIsWorse(profiles, current);
    PoorStreaksAreAnswered(t, n);
    FewerPixelsMean(profiles, current, Lower(profiles, current));
    FirstWorse(profiles, current, Lower(profiles, current));
  }

  // ---------- Upgrades ----------

  /** The last report is recent enough and covers the next better profile one and a quarter times. */
  ghost predicate Covered(estimate: Option<Estimate>, now: int, profiles: seq<Profile>, current: Profile) {
    && estimate.Some? && now - estimate.value.sampledAt <= 1_500
    && exists q :: NextAbove(profiles, current, q) && estimate.value.bps * 4 >= q.MinBps() * 5
  }

  /** Event k does not spoil good evidence: a sample not looked at, or one that counts, has good readings and comes before
      any report or with the last one covering the next profile; a report not the first, at most 1500 ms after the one
      before, that covers it; an acknowledgement that is not taken; or an event without a usable time. */
  ghost predicate Spotless(t: Trace, k: nat)
    requires IsTrace(t) && k < |t.events|
  {
    var e, profiles, current := t.events[k], t.states[0].profiles, t.states[k].current;
    Timed(e) ==>
      match e
      case Sample(stats, clock) =>
        IsLooked(LastLookedAt(t.events, k), e) ==>
          && CountedSample(t.states[k], e) && GoodReadings(stats)
          && (LastReportAt(t.events, k).None? || Covered(LastEstimate(t.events, k), clock.t, profiles, current))
      case Report(_, _, clock) =>
        && LastReportAt(t.events, k).Some? && 0 < clock.t - LastReportAt(t.events, k).value <= 1_500
        && Covered(LastEstimate(t.events, k + 1), clock.t, profiles, current)
      case Ack(_, _) => !Takes(Outstanding(t.events, t.asks, k), e)
  }

  ghost predicate SpotlessFrom(t: Trace, m: nat, n: nat)
    requires IsTrace(t) && m < n < |t.events|
  {
    CountedSample(t.states[m], t.events[m]) && forall k :: m <= k <= n ==> Spotless(t, k)
  }

  lemma CoveredMeans(profiles: seq<Profile>, current: Profile, estimate: Option<Estimate>, now: int)
    requires Ordered(profiles) && current in profiles
    ensures Affords(profiles, current, estimate, now) <==> Covered(estimate, now, profiles, current)
  {
    NextUpMeans(profiles, current);
    if q :| NextAbove(profiles, current, q) {
      var next := NextUp(profiles, current).value;
      assert q.Rank() == next.Rank();
      ProfilesAreGraded(q, next);
    }
  }

  lemma KeepsMeans(t: Trace, k: nat)
    requires Fresh(t) && k < |t.events|
    ensures Keeps(t, k) <==> Spotless(t, k)
  {
    StatesAreValid(t, k);
    ClocksAreKept(t, k);
    ClocksMean(t, k);
    FeedbackMeansReport(t, k);
    LastReportIsKept(t, k);
    EstimatesAreKnown(t, k);
    ChangesMean(t, k);
    var p, e := t.states[k], t.events[k];
    if Timed(e) {
      CoveredMeans(p.profiles, p.current, LastEstimate(t.events, k), e.clock.t);
      CoveredMeans(p.profiles, p.current, LastEstimate(t.events, k + 1), e.clock.t);
      if e.Sample? { ReadingsMean(e.stats); }
    }
  }

  /** Every upgrade is asked for on a sample that counts and goes to the next better profile, after 6000 ms that began with
      one that counts and in which every sample looked at counted, had good readings and was covered, every report
      covered the next profile and followed within 1500 ms, and the profile did not change. */
  lemma UpgradesRestOnReadings(t: Trace, n: nat) returns (m: nat)
    requires Fresh(t) && n < |t.events| && t.asks[n].Some? && t.asks[n].value.Rank() < t.states[n].current.Rank()
    ensures m < n && SpotlessFrom(t, m, n) && CountedSample(t.states[n], t.events[n])
    ensures t.events[n].clock.t - t.events[m].clock.t >= 6_000
    ensures NextAbove(t.states[0].profiles, t.states[n].current, t.asks[n].value)
  {
    UpgradesHaveEvidence(t, n);
    StatesAreValid(t, n);
    NextUpMeans(t.states[0].profiles, t.states[n].current);
    m :| 0 <= m < n && GoodRun(t, m, n + 1) && t.events[n].clock.t - t.events[m].clock.t >= 6_000;
    forall k | m <= k <= n
      ensures Spotless(t, k)
    {
      assert Keeps(t, k);
      KeepsMeans(t, k);
    }
  }

  /** And such 6000 ms, with nothing asked in them, are answered with the next better profile. */
  lemma GoodReadingsAreAnswered(t: Trace, m: nat, n: nat)
    requires Fresh(t) && m < n < |t.events| && SpotlessFrom(t, m, n) && CountedSample(t.states[n], t.events[n])
    requires t.events[n].clock.t - t.events[m].clock.t >= 6_000
    requires Unanswered(t.events, t.asks, m) < 3 && NothingAsked(t, m, n)
    ensures
      if exists q :: q in t.states[0].profiles && q.Rank() < t.states[n].current.Rank()
      then t.asks[n].Some? && NextAbove(t.states[0].profiles, t.states[n].current, t.asks[n].value)
      else t.asks[n].None?
  {
    RequestsAreKnown(t, m);
    forall k | m <= k < n + 1
      ensures Keeps(t, k)
    {
      assert Spotless(t, k);
      KeepsMeans(t, k);
    }
    assert GoodRun(t, m, n + 1);
    GoodRunsAreAnswered(t, m, n);
    StatesAreValid(t, n);
    NextUpMeans(t.states[0].profiles, t.states[n].current);
  }

  // ---------- Downgrades on reports ----------

  /** Report k tells of too little (or far too little), and comes within 1500 ms of the one before. */
  ghost predicate Short(t: Trace, m: nat, k: nat, far: bool)
    requires IsTrace(t) && m <= k < |t.events|
  {
    var e, current := t.events[k], t.states[k].current;
    && !Takes(Outstanding(t.events, t.asks, k), e)
    && (TimedReport(e) ==>
          && TooLittle(current, e) && (far ==> FarTooLittle(t.states[0].profiles, current, e))
          && (k > m ==> LastReportAt(t.events, k).Some? && 0 < e.clock.t - LastReportAt(t.events, k).value <= 1_500))
  }

  /** From report m to n: no profile acknowledged, every report one of too little, none later than 1500 ms after the last. */
  ghost predicate ShortFrom(t: Trace, m: nat, n: nat, far: bool)
    requires IsTrace(t) && m <= n < |t.events|
  {
    TimedReport(t.events[m]) && TimedReport(t.events[n]) && forall k :: m <= k <= n ==> Short(t, m, k, far)
  }

  lemma ShortMeans(t: Trace, m: nat, k: nat, far: bool)
    requires Fresh(t) && m <= k < |t.events|
    ensures Unbroken(t, m, k, far) <==> Short(t, m, k, far)
  {
    StatesAreValid(t, k);
    ReportMeans(t.states[k], t.events[k]);
    ChangesMean(t, k);
    ClocksMean(t, k);
  }

  lemma ShortRunMeans(t: Trace, m: nat, n: nat, far: bool)
    requires Fresh(t) && m <= n < |t.events| && TimedReport(t.events[n])
    ensures LowRun(t, m, n + 1, far) <==> ShortFrom(t, m, n, far)
  {
    forall k | m <= k < n + 1
      ensures Unbroken(t, m, k, far) <==> Short(t, m, k, far)
    {
      ShortMeans(t, m, k, far);
    }
  }

  /** A request made on a report goes to the best worse profile its estimate covers (the last if none), and rests on reports
      of too little for 1000 ms, or of far too little for 500 ms. */
  lemma ReportRequestsRestOnNumbers(t: Trace, n: nat) returns (m: nat, far: bool)
    requires Fresh(t) && n < |t.events| && t.events[n].Report? && t.asks[n].Some?
    ensures m <= n && ShortFrom(t, m, n, far) && t.events[n].clock.t - t.events[m].clock.t >= (if far then 500 else 1_000)
    ensures Telling(t.events[n]) && FitBelow(t.states[0].profiles, t.states[n].current, t.events[n].bps.value, t.asks[n].value)
  {
    ReportRequestsHaveEvidence(t, n);
    StatesAreValid(t, n);
    ReportMeans(t.states[n], t.events[n]);
    LowerIsWorse(t.states[0].profiles, t.states[n].current);
    BestFitMeans(t.states[0].profiles, t.states[n].current, Lower(t.states[0].profiles, t.states[n].current), t.events[n].bps.value);
    far := !exists i :: 0 <= i <= n && LowRun(t, i, n + 1, false) && t.events[n].clock.t - t.events[i].clock.t >= 1_000;
    m :| 0 <= m <= n && LowRun(t, m, n + 1, far) && t.events[n].clock.t - t.events[m].clock.t >= (if far then 500 else 1_000);
    ShortRunMeans(t, m, n, far);
  }

  /** And such reports are answered, if the first of them found no request of the last 5000 ms outstanding and nothing was
      asked since. */
  lemma ShortagesAreAnswered(t: Trace, m: nat, n: nat, far: bool)
    requires Fresh(t) && m <= n < |t.events| && ShortFrom(t, m, n, far)
    requires t.events[n].clock.t - t.events[m].clock.t >= (if far then 500 else 1_000)
    requires Unanswered(t.events, t.asks, m) < 3 && NothingAsked(t, m, n) && ClockNeverFalls(t.events)
    requires
      var asked := Outstanding(t.events, t.asks, m);
      asked.Some? ==> t.events[m].clock.t - asked.value.at >= 5_000
    requires exists q :: q in t.states[0].profiles && q.Rank() > t.states[m].current.Rank()
    ensures t.asks[n].Some? && Telling(t.events[n])
    ensures FitBelow(t.states[0].profiles, t.states[n].current, t.events[n].bps.value, t.asks[n].value)
  {
    RequestsAreKnown(t, m);
    StatesAreValid(t, m);
    LowerIsWorse(t.states[0].profiles, t.states[m].current);
    ShortRunMeans(t, m, n, far);
    WaitingMeans(t, m);
    LowRunsAreAnswered(t, m, n, far);
    StatesAreValid(t, n);
    ReportMeans(t.states[n], t.events[n]);
    LowerIsWorse(t.states[0].profiles, t.states[n].current);
    BestFitMeans(t.states[0].profiles, t.states[n].current, Lower(t.states[0].profiles, t.states[n].current), t.events[n].bps.value);
  }
}

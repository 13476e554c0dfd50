/** What whole runs of the profile controller show: how often it asks, and what past evidence every request
    rests on. */
module VideoEvidence {
  import opened AdaptiveVideo
  import opened VideoLaw

  /** A run: the events, the states before and after each, and what each made the controller ask for. */
  datatype Trace = Trace(events: seq<Event>, states: seq<Policy>, asks: seq<Option<Profile>>)

  ghost predicate IsTrace(t: Trace) {
    && |t.states| == |t.events| + 1 && |t.asks| == |t.events|
    && Valid(t.states[0])
    && forall n :: 0 <= n < |t.events| ==> IsStep(t, n)
  }

  ghost predicate IsStep(t: Trace, n: nat)
    requires |t.states| == |t.events| + 1 && |t.asks| == |t.events| && n < |t.events|
  {
    t.states[n].current in t.states[n].profiles && (t.states[n + 1], t.asks[n]) == Step(t.states[n], t.events[n])
  }

  /** A controller that has heard nothing yet. */
  ghost predicate Unstarted(p: Policy) {
    && Valid(p) && p.pending.None? && p.unacknowledged == 0 && p.badSamples == 0 && p.lowFpsSamples == 0
    && p.goodSince.None? && p.shortage.None? && p.lastBandwidthAt.None?
  }

  lemma InitialIsUnstarted(offered: set<Profile>, current: Profile)
    requires current in offered
    ensures Unstarted(Initial(offered, current)) && NeverSampled(Initial(offered, current))
    ensures !Initial(offered, current).feedback
  {
    assert PROFILE_ORDER[current.Rank()] == current;
  }

  /** Any events whatever make a run, from any valid state. */
  lemma {:induction false} EveryRunHasTrace(p0: Policy, events: seq<Event>)
    requires Valid(p0)
    ensures exists t :: IsTrace(t) && t.events == events && t.states[0] == p0
  {
    if events == [] {
      assert IsTrace(Trace([], [p0], []));
    } else {
      var front, e := events[..|events| - 1], events[|events| - 1];
      EveryRunHasTrace(p0, front);
      var t :| IsTrace(t) && t.events == front && t.states[0] == p0;
      StatesAreValid(t, |front|);
      var next := Step(t.states[|front|], e);
      var longer := Trace(events, t.states + [next.0], t.asks + [next.1]);
      forall n | 0 <= n < |events|
        ensures IsStep(longer, n)
      {
        assert n < |front| ==> IsStep(t, n);
      }
      assert IsTrace(longer);
    }
  }

  lemma StepFacts(p: Policy, e: Event, q: Policy, asked: Option<Profile>)
    requires Valid(p) && q == Step(p, e).0 && asked == Step(p, e).1
    ensures Valid(q) && q.profiles == p.profiles && StepLaw(p, e, q, asked)
    ensures asked.Some? ==> asked.value in p.profiles && asked.value != p.current
    ensures q.current == if EffectiveAck(p, e) then p.lastRequested.value else p.current
  {
    StepKeepsValid(p, e);
    StepObeysLaw(p, e);
  }

  lemma NextFacts(t: Trace, n: nat)
    requires IsTrace(t) && n < |t.events| && Valid(t.states[n])
    ensures
      var p, e, q, asked := t.states[n], t.events[n], t.states[n + 1], t.asks[n];
      && Valid(q) && q.profiles == p.profiles && StepLaw(p, e, q, asked)
      && (asked.Some? ==> asked.value in p.profiles && asked.value != p.current)
      && q.current == if EffectiveAck(p, e) then p.lastRequested.value else p.current
  {
    assert IsStep(t, n);
    StepFacts(t.states[n], t.events[n], t.states[n + 1], t.asks[n]);
  }

  lemma {:induction false} StatesAreValid(t: Trace, n: nat)
    requires IsTrace(t) && n <= |t.events|
    ensures Valid(t.states[n]) && t.states[n].profiles == t.states[0].profiles
  {
    if n > 0 {
      StatesAreValid(t, n - 1);
      NextFacts(t, n - 1);
    }
  }

  lemma LawHolds(t: Trace, n: nat)
    requires IsTrace(t) && n < |t.events|
    ensures Valid(t.states[n]) && Valid(t.states[n + 1])
    ensures t.states[n].profiles == t.states[0].profiles && t.states[n + 1].profiles == t.states[0].profiles
    ensures StepLaw(t.states[n], t.events[n], t.states[n + 1], t.asks[n])
  {
    StatesAreValid(t, n);
    NextFacts(t, n);
  }

  lemma PendingLawHolds(t: Trace, n: nat)
    requires IsTrace(t) && n < |t.events|
    ensures PendingLaw(t.states[n], t.events[n], t.states[n + 1], t.asks[n])
    ensures t.asks[n].Some? ==> !EffectiveAck(t.states[n], t.events[n])
  {
    LawHolds(t, n);
  }

  lemma ShortageLawHolds(t: Trace, n: nat)
    requires IsTrace(t) && n < |t.events|
    ensures Valid(t.states[n]) && ShortageLaw(t.states[n], t.events[n], t.states[n + 1])
  {
    LawHolds(t, n);
  }

  lemma AskLawHolds(t: Trace, n: nat)
    requires IsTrace(t) && n < |t.events|
    ensures Valid(t.states[n]) && t.states[n].profiles == t.states[0].profiles && AskLaw(t.states[n], t.events[n], t.asks[n])
  {
    LawHolds(t, n);
  }

  // ---------- Discipline: what is asked, and how often ----------

  /** Every request is for a supported profile other than the current one, and the profile changes only by an
      effective acknowledgement, to what was asked for last. */
  lemma RequestsAreSupported(t: Trace, n: nat)
    requires IsTrace(t) && n < |t.events|
    ensures t.asks[n].Some? ==> t.asks[n].value in t.states[0].profiles && t.asks[n].value != t.states[n].current
    ensures t.states[n].current in t.states[0].profiles
    ensures t.states[n + 1].current != t.states[n].current <==> Acked(t, n)
    ensures Acked(t, n) ==> Some(t.states[n + 1].current) == t.states[n].lastRequested
  {
    StatesAreValid(t, n);
    NextFacts(t, n);
  }

  /** Event n is an effective acknowledgement. */
  ghost predicate Acked(t: Trace, n: nat)
    requires IsTrace(t) && n < |t.events|
  {
    EffectiveAck(t.states[n], t.events[n])
  }

  function Requests(asks: seq<Option<Profile>>): nat {
    if asks == [] then 0
    else Requests(asks[..|asks| - 1]) + if asks[|asks| - 1].Some? then 1 else 0
  }

  ghost function EffectiveAcks(t: Trace, n: nat): nat
    requires IsTrace(t) && n <= |t.events|
  {
    if n == 0 then 0 else EffectiveAcks(t, n - 1) + if Acked(t, n - 1) then 1 else 0
  }

  lemma RequestsStep(asks: seq<Option<Profile>>, n: nat)
    requires 0 < n <= |asks|
    ensures Requests(asks[..n]) == Requests(asks[..n - 1]) + if asks[n - 1].Some? then 1 else 0
  {
    assert asks[..n][..n - 1] == asks[..n - 1];
  }

  lemma CountedStep(t: Trace, n: nat)
    requires IsTrace(t) && n < |t.events|
    ensures t.states[n].unacknowledged <= 3 && t.states[n + 1].unacknowledged <= 3
    ensures Acked(t, n) ==> t.asks[n].None? && t.states[n].unacknowledged > 0 && t.states[n + 1].unacknowledged == 0
    ensures !Acked(t, n) ==>
      t.states[n + 1].unacknowledged == t.states[n].unacknowledged + if t.asks[n].Some? then 1 else 0
  {
    LawHolds(t, n);
  }

  /** Whatever the clocks say, n effective acknowledgements allow at most 3 * (n + 1) requests, and there
      are never more effective acknowledgements than requests. */
  lemma {:induction false} RequestsAreCapped(t: Trace, n: nat)
    requires IsTrace(t) && Unstarted(t.states[0]) && n <= |t.events|
    ensures Requests(t.asks[..n]) <= 3 * EffectiveAcks(t, n) + t.states[n].unacknowledged
    ensures Requests(t.asks[..n]) <= 3 * (EffectiveAcks(t, n) + 1)
    ensures EffectiveAcks(t, n) + t.states[n].unacknowledged <= Requests(t.asks[..n])
  {
    if n > 0 {
      RequestsAreCapped(t, n - 1);
      RequestsStep(t.asks, n);
      CountedStep(t, n - 1);
    }
  }

  ghost predicate ClockNeverFalls(events: seq<Event>) {
    forall i, j :: 0 <= i < j < |events| && events[i].clock.Usable() && events[j].clock.Usable() ==>
      events[i].clock.t <= events[j].clock.t
  }

  /** No usable clock from event n on is before this time. */
  ghost predicate ClocksFrom(events: seq<Event>, n: nat, time: int) {
    forall k :: n <= k < |events| && events[k].clock.Usable() ==> events[k].clock.t >= time
  }

  lemma ClocksGoOn(events: seq<Event>, n: nat, time: int)
    requires ClockNeverFalls(events) && n < |events|
    ensures ClocksFrom(events, n, time) ==> ClocksFrom(events, n + 1, time)
    ensures events[n].clock.Usable() && events[n].clock.t >= time ==> ClocksFrom(events, n + 1, time)
  {
  }

  /** After a request at i and with no effective acknowledgement since, either that request or a later one
      is still pending, or every clock from here on is 5000 ms past it. */
  lemma {:induction false} RequestHolds(t: Trace, i: nat, n: nat)
    requires IsTrace(t) && i < n <= |t.events| && ClockNeverFalls(t.events) && t.asks[i].Some?
    requires forall k :: i < k < n ==> !Acked(t, k)
    ensures t.events[i].clock.Usable() && Holds(t.states[n], t.events, n, t.events[i].clock.t)
  {
    PendingLawHolds(t, n - 1);
    if n > i + 1 {
      RequestHolds(t, i, n - 1);
      assert !Acked(t, n - 1);
      HoldsOn(t, n - 1, t.events[i].clock.t);
    }
  }

  /** A request made at this time or later is pending, or every usable clock from n on is 5000 ms past the time. */
  ghost predicate Holds(p: Policy, events: seq<Event>, n: nat, time: int) {
    (p.pending.Some? && p.pending.value.requestedAt >= time) || ClocksFrom(events, n, time + 5_000)
  }

  lemma HoldsOn(t: Trace, n: nat, time: int)
    requires IsTrace(t) && n < |t.events| && ClockNeverFalls(t.events) && !Acked(t, n)
    requires PendingLaw(t.states[n], t.events[n], t.states[n + 1], t.asks[n]) && Holds(t.states[n], t.events, n, time)
    ensures Holds(t.states[n + 1], t.events, n + 1, time)
  {
    ClocksGoOn(t.events, n, time + 5_000);
  }

  /** Two requests with no effective acknowledgement between them are at least 5000 ms apart. */
  lemma RequestsAreSpaced(t: Trace, i: nat, j: nat)
    requires IsTrace(t) && i < j < |t.events| && ClockNeverFalls(t.events) && t.asks[i].Some? && t.asks[j].Some?
    requires forall k :: i < k < j ==> !Acked(t, k)
    ensures t.events[i].clock.Usable() && t.events[j].clock.Usable()
    ensures t.events[j].clock.t - t.events[i].clock.t >= 5_000
  {
    RequestHolds(t, i, j);
    LawHolds(t, j);
  }

  // ---------- Evidence: bandwidth downgrades ----------

  /** The time of the last usable report among the first n events. */
  function LastReport(events: seq<Event>, n: nat): Option<int>
    requires n <= |events|
  {
    if n == 0 then None
    else if HeardReport(events[n - 1]) then Some(events[n - 1].clock.t)
    else LastReport(events, n - 1)
  }

  lemma {:induction false} LastReportIsKept(t: Trace, n: nat)
    requires IsTrace(t) && Unstarted(t.states[0]) && n <= |t.events|
    ensures t.states[n].lastBandwidthAt == LastReport(t.events, n)
  {
    if n > 0 {
      LastReportIsKept(t, n - 1);
      LawHolds(t, n - 1);
    }
  }

  /** From event m up to n: no effective acknowledgement, and every usable report is low (or severe) and
      comes more than 0 and at most 1500 ms after the report before it. */
  ghost predicate LowRun(t: Trace, m: nat, n: nat, severe: bool)
    requires IsTrace(t) && n <= |t.events|
  {
    && m < n && HeardReport(t.events[m])
    && forall k :: m <= k < n ==> Unbroken(t, m, k, severe)
  }

  ghost predicate Unbroken(t: Trace, m: nat, k: nat, severe: bool)
    requires IsTrace(t) && m <= k < |t.events|
  {
    StatesAreValid(t, k);
    var p, e := t.states[k], t.events[k];
    && !EffectiveAck(p, e)
    && (HeardReport(e) ==>
          && LowReport(p, e) && (severe ==> SevereReport(p, e))
          && (k > m ==> Follows(LastReport(t.events, k), e.clock.t)))
  }

  ghost predicate LowSince(t: Trace, n: nat, since: int, severe: bool)
    requires IsTrace(t) && n <= |t.events|
  {
    exists m :: 0 <= m < n && LowRun(t, m, n, severe) && t.events[m].clock.t == since
  }

  ghost predicate Backed(t: Trace, n: nat, s: Shortage)
    requires IsTrace(t) && n <= |t.events|
  {
    && LowSince(t, n, s.since, false)
    && (s.severeSince.Some? ==> LowSince(t, n, s.severeSince.value, true))
  }

  lemma LongerRun(t: Trace, n: nat, since: int, severe: bool)
    requires IsTrace(t) && n < |t.events| && LowSince(t, n, since, severe)
    requires forall m :: 0 <= m < n ==> Unbroken(t, m, n, severe)
    ensures LowSince(t, n + 1, since, severe)
  {
    var m :| 0 <= m < n && LowRun(t, m, n, severe) && t.events[m].clock.t == since;
    assert LowRun(t, m, n + 1, severe);
  }

  lemma NewRun(t: Trace, n: nat, severe: bool)
    requires IsTrace(t) && n < |t.events| && HeardReport(t.events[n]) && Unbroken(t, n, n, severe)
    ensures LowSince(t, n + 1, t.events[n].clock.t, severe)
  {
    assert LowRun(t, n, n + 1, severe);
  }

  lemma ExtensionIsBacked(t: Trace, n: nat, s: Shortage)
    requires IsTrace(t) && Unstarted(t.states[0]) && n < |t.events| && HeardReport(t.events[n])
    requires Valid(t.states[n]) && Extends(t.states[n], t.events[n], s)
    requires t.states[n].shortage.Some? ==> Backed(t, n, t.states[n].shortage.value)
    ensures Backed(t, n + 1, s)
  {
    LastReportIsKept(t, n);
    if s.since == t.events[n].clock.t { NewRun(t, n, false); } else { LongerRun(t, n, s.since, false); }
    if s.severeSince.Some? {
      if s.severeSince.value == t.events[n].clock.t { NewRun(t, n, true); }
      else { LongerRun(t, n, s.severeSince.value, true); }
    }
  }

  /** An event that is no report and no effective acknowledgement leaves the run unbroken. */
  lemma BackingLasts(t: Trace, n: nat, s: Shortage)
    requires IsTrace(t) && n < |t.events| && !HeardReport(t.events[n]) && !EffectiveAck(t.states[n], t.events[n])
    requires Backed(t, n, s)
    ensures Backed(t, n + 1, s)
  {
    LongerRun(t, n, s.since, false);
    if s.severeSince.Some? { LongerRun(t, n, s.severeSince.value, true); }
  }

  ghost predicate ShortageBacked(t: Trace, n: nat)
    requires IsTrace(t) && n <= |t.events|
  {
    t.states[n].shortage.Some? ==> Backed(t, n, t.states[n].shortage.value)
  }

  lemma ShortageStaysBacked(t: Trace, n: nat)
    requires IsTrace(t) && Unstarted(t.states[0]) && n < |t.events| && Valid(t.states[n])
    requires ShortageLaw(t.states[n], t.events[n], t.states[n + 1]) && ShortageBacked(t, n)
    ensures ShortageBacked(t, n + 1)
  {
    if t.states[n + 1].shortage.Some? {
      var s := t.states[n + 1].shortage.value;
      if HeardReport(t.events[n]) { ExtensionIsBacked(t, n, s); } else { BackingLasts(t, n, s); }
    }
  }

  lemma {:induction false} ShortageIsBacked(t: Trace, n: nat)
    requires IsTrace(t) && Unstarted(t.states[0]) && n <= |t.events|
    ensures ShortageBacked(t, n)
  {
    if n > 0 {
      ShortageIsBacked(t, n - 1);
      ShortageLawHolds(t, n - 1);
      ShortageStaysBacked(t, n - 1);
    }
  }

  /** A request made on a report is a downgrade to the best fit for that report, and rests on an unbroken run
      of low reports for 1000 ms, or of severe ones for 500 ms. */
  lemma ReportRequestsHaveEvidence(t: Trace, n: nat)
    requires IsTrace(t) && Unstarted(t.states[0]) && n < |t.events| && t.events[n].Report? && t.asks[n].Some?
    ensures HeardReport(t.events[n]) && LowReport(t.states[n], t.events[n])
    ensures t.states[n].current in t.states[0].profiles && Lower(t.states[0].profiles, t.states[n].current) != []
    ensures t.asks[n].value == BestFit(Lower(t.states[0].profiles, t.states[n].current), t.events[n].bps.value)
    ensures
      || (exists m :: 0 <= m <= n && LowRun(t, m, n + 1, false) && t.events[n].clock.t - t.events[m].clock.t >= 1_000)
      || (exists m :: 0 <= m <= n && LowRun(t, m, n + 1, true) && t.events[n].clock.t - t.events[m].clock.t >= 500)
  {
    LawHolds(t, n);
    var p, e := t.states[n], t.events[n];
    var s :| Extends(p, e, s) && LongEnough(s, e.clock.t);
    ShortageIsBacked(t, n);
    ExtensionIsBacked(t, n, s);
    if e.clock.t - s.since >= 1_000 {
      var m :| 0 <= m < n + 1 && LowRun(t, m, n + 1, false) && t.events[m].clock.t == s.since;
    } else {
      var m :| 0 <= m < n + 1 && LowRun(t, m, n + 1, true) && t.events[m].clock.t == s.severeSince.value;
    }
  }

  /** All the reports of a low run were judged against one and the same current profile. */
  lemma {:induction false} LowRunKeepsProfile(t: Trace, m: nat, k: nat, n: nat, severe: bool)
    requires IsTrace(t) && m <= k <= n <= |t.events| && LowRun(t, m, n, severe)
    ensures t.states[k].current == t.states[m].current
  {
    if k > m {
      LowRunKeepsProfile(t, m, k - 1, n, severe);
      assert Unbroken(t, m, k - 1, severe);
      RequestsAreSupported(t, k - 1);
    }
  }

  /** The best fit: the best lower profile the estimate covers, or the lowest when it covers none. */
  lemma {:induction false} BestFitIsBest(lower: seq<Profile>, bps: int)
    requires lower != [] && Ordered(lower)
    ensures BestFit(lower, bps).MinBps() <= bps || BestFit(lower, bps) == lower[|lower| - 1]
    ensures forall q :: q in lower && q.Rank() < BestFit(lower, bps).Rank() ==> q.MinBps() > bps
  {
    if !(bps >= lower[0].MinBps() || |lower| == 1) {
      BestFitIsBest(lower[1..], bps);
      assert lower[1..][|lower| - 2] == lower[|lower| - 1];
    }
  }

  // ---------- Evidence: downgrades on samples ----------

  /** The last k counted samples among the first n events were all poor, with no effective acknowledgement and
      no restart of sampling since the first of them. */
  ghost predicate PoorRun(t: Trace, n: nat, k: nat, lowFps: bool)
    requires IsTrace(t) && n <= |t.events|
  {
    k == 0 || (n > 0 && (
      var p, e := t.states[n - 1], t.events[n - 1];
      if CountedSample(p, e) then Poor(e.stats, lowFps) && PoorRun(t, n - 1, k - 1, lowFps)
      else !EffectiveAck(p, e) && !RestartsSampling(p, e) && PoorRun(t, n - 1, k, lowFps)))
  }

  lemma {:induction false} ShorterPoorRun(t: Trace, n: nat, k: nat, j: nat, lowFps: bool)
    requires IsTrace(t) && n <= |t.events| && j <= k && PoorRun(t, n, k, lowFps)
    ensures PoorRun(t, n, j, lowFps)
  {
    if j > 0 {
      if CountedSample(t.states[n - 1], t.events[n - 1]) { ShorterPoorRun(t, n - 1, k - 1, j - 1, lowFps); }
      else { ShorterPoorRun(t, n - 1, k, j, lowFps); }
    }
  }

  lemma {:induction false} PoorCountIsBacked(t: Trace, n: nat, lowFps: bool)
    requires IsTrace(t) && Unstarted(t.states[0]) && n <= |t.events|
    ensures PoorRun(t, n, PoorCount(t.states[n], lowFps), lowFps)
  {
    var count := PoorCount(t.states[n], lowFps);
    if n > 0 && count > 0 {
      LawHolds(t, n - 1);
      PoorCountIsBacked(t, n - 1, lowFps);
      var p, e := t.states[n - 1], t.events[n - 1];
      assert PoorLaw(p, e, t.states[n], lowFps);
      var before := if CountedSample(p, e) then count - 1 else count;
      ShorterPoorRun(t, n - 1, PoorCount(p, lowFps), before, lowFps);
    }
  }

  lemma DowngradeAsks(p: Policy, e: Event, asked: Option<Profile>)
    requires Valid(p) && AskLaw(p, e, asked) && e.Sample? && asked.Some? && asked.value.Rank() > p.current.Rank()
    ensures CountedSample(p, e) && p.badSamples >= 2 && e.stats.Impaired() && Lower(p.profiles, p.current) != []
    ensures
      var lower := Lower(p.profiles, p.current);
      || asked.value == lower[0]
      || (p.lowFpsSamples >= 2 && e.stats.LowFps() && asked.value == FewerPixels(lower, p.current.Height()))
  {
    LowerIsOther(p.profiles, p.current);
    assert e.stats.LowFps() ==> e.stats.Impaired();
  }

  lemma UpgradeAsks(p: Policy, e: Event, asked: Option<Profile>)
    requires Valid(p) && AskLaw(p, e, asked) && asked.Some? && asked.value.Rank() < p.current.Rank()
    ensures CountedSample(p, e) && Wholesome(p, e) && NextUp(p.profiles, p.current) == asked
    ensures p.goodSince.Some? && e.clock.t - p.goodSince.value >= 6_000
  {
    LowerIsOther(p.profiles, p.current);
    assert SampleAsks(p, e.stats, e.clock.t, asked.value);
  }

  /** A downgrade asked for on a sample rests on three consecutive counted impaired samples, this one the
      last; one that looks for fewer pixels on three with a low frame rate. */
  lemma SampleDowngradesHaveEvidence(t: Trace, n: nat)
    requires IsTrace(t) && Unstarted(t.states[0]) && n < |t.events| && t.events[n].Sample? && t.asks[n].Some?
    requires t.asks[n].value.Rank() > t.states[n].current.Rank()
    ensures CountedSample(t.states[n], t.events[n]) && PoorRun(t, n + 1, 3, false)
    ensures t.states[n].current in t.states[0].profiles
    ensures
      var lower := Lower(t.states[0].profiles, t.states[n].current);
      && lower != []
      && (|| t.asks[n].value == lower[0]
          || (PoorRun(t, n + 1, 3, true) && t.asks[n].value == FewerPixels(lower, t.states[n].current.Height())))
  {
    LawHolds(t, n);
    var p, e := t.states[n], t.events[n];
    DowngradeAsks(p, e, t.asks[n]);
    PoorCountIsBacked(t, n, false);
    ShorterPoorRun(t, n, p.badSamples, 2, false);
    if p.lowFpsSamples >= 2 {
      PoorCountIsBacked(t, n, true);
      ShorterPoorRun(t, n, p.lowFpsSamples, 2, true);
    }
  }

  /** A profile with fewer pixels: the best lower one that has fewer. */
  lemma {:induction false} FirstBelowIsBest(lower: seq<Profile>, height: nat)
    requires Ordered(lower) && exists i :: 0 <= i < |lower| && lower[i].Height() < height
    ensures FirstBelow(lower, height).Height() < height
    ensures forall q :: q in lower && q.Rank() < FirstBelow(lower, height).Rank() ==> q.Height() >= height
  {
    if lower[0].Height() >= height {
      var i :| 0 <= i < |lower| && lower[i].Height() < height;
      assert lower[1..][i - 1] == lower[i];
      FirstBelowIsBest(lower[1..], height);
    }
  }

  // ---------- Evidence: settling down ----------

  function LastLooked(events: seq<Event>, n: nat): Option<int>
    requires n <= |events|
  {
    if n == 0 then None
    else if Looked(LastLooked(events, n - 1), events[n - 1]) then Some(events[n - 1].clock.t)
    else LastLooked(events, n - 1)
  }

  /** Since when samples have come without a gap, told from the events alone. */
  function SamplingSince(events: seq<Event>, n: nat): Option<int>
    requires n <= |events|
  {
    if n == 0 then None
    else if Began(LastLooked(events, n - 1), events[n - 1]) then Some(events[n - 1].clock.t)
    else SamplingSince(events, n - 1)
  }

  /** When the profile last changed. */
  ghost function LastChange(t: Trace, n: nat): Option<int>
    requires IsTrace(t) && n <= |t.events|
  {
    if n == 0 then None else if Acked(t, n - 1) then Some(t.events[n - 1].clock.t) else LastChange(t, n - 1)
  }

  lemma TakenStepClocks(p: Policy, e: Event, q: Policy, asked: Option<Profile>)
    requires Valid(p) && q == Step(p, e).0 && asked == Step(p, e).1
    ensures ClockLaw(p, e, q) && (asked.Some? && e.Sample? ==> !WarmingUp(p.(firstSampleAt := q.firstSampleAt), e.clock.t))
  {
    StepObeysClocks(p, e);
  }

  lemma {:induction false} ClocksAreKept(t: Trace, n: nat)
    requires IsTrace(t) && NeverSampled(t.states[0]) && n <= |t.events|
    ensures t.states[n].lastSampleAt == LastLooked(t.events, n)
    ensures t.states[n].firstSampleAt == SamplingSince(t.events, n)
    ensures t.states[n].lastChangeAt == LastChange(t, n)
  {
    if n > 0 {
      ClocksAreKept(t, n - 1);
      StatesAreValid(t, n - 1);
      assert IsStep(t, n - 1);
      TakenStepClocks(t.states[n - 1], t.events[n - 1], t.states[n], t.asks[n - 1]);
    }
  }

  predicate NeverSampled(p: Policy) {
    p.lastSampleAt.None? && p.firstSampleAt.None? && p.lastChangeAt.None?
  }

  /** A request on a sample comes only after 3000 ms of sampling without a gap; and before the first report, at
      least 8000 ms after the profile last changed. */
  lemma SampleRequestsAreSettled(t: Trace, n: nat)
    requires IsTrace(t) && Unstarted(t.states[0]) && NeverSampled(t.states[0]) && !t.states[0].feedback
    requires n < |t.events| && t.events[n].Sample? && t.asks[n].Some?
    ensures t.events[n].clock.Usable()
    ensures
      var now, since, changed := t.events[n].clock.t, SamplingSince(t.events, n + 1), LastChange(t, n);
      && since.Some? && now - since.value >= 3_000
      && (LastReport(t.events, n).None? && changed.Some? ==> now - changed.value >= 8_000)
  {
    LawHolds(t, n);
    ClocksAreKept(t, n);
    ClocksAreKept(t, n + 1);
    FeedbackMeansReport(t, n);
    assert IsStep(t, n);
    TakenStepClocks(t.states[n], t.events[n], t.states[n + 1], t.asks[n]);
  }

  lemma {:induction false} FeedbackMeansReport(t: Trace, n: nat)
    requires IsTrace(t) && Unstarted(t.states[0]) && !t.states[0].feedback && n <= |t.events|
    ensures t.states[n].feedback <==> LastReport(t.events, n).Some?
  {
    if n > 0 {
      FeedbackMeansReport(t, n - 1);
      LawHolds(t, n - 1);
    }
  }

  // ---------- Evidence: upgrades ----------

  /** From the counted sample m up to n, nothing spoilt the good evidence. */
  ghost predicate GoodRun(t: Trace, m: nat, n: nat)
    requires IsTrace(t) && n <= |t.events|
  {
    && m < n && CountedSample(t.states[m], t.events[m])
    && forall k :: m <= k < n ==> Keeps(t, k)
  }

  ghost predicate Keeps(t: Trace, k: nat)
    requires IsTrace(t) && k < |t.events|
  {
    StatesAreValid(t, k);
    Wholesome(t.states[k], t.events[k])
  }

  lemma {:induction false} GoodSinceIsBacked(t: Trace, n: nat)
    requires IsTrace(t) && Unstarted(t.states[0]) && n <= |t.events| && t.states[n].goodSince.Some?
    ensures exists m :: 0 <= m < n && GoodRun(t, m, n) && t.events[m].clock == Ms(t.states[n].goodSince.value)
  {
    if n > 0 {
      LawHolds(t, n - 1);
      assert Keeps(t, n - 1);
      if t.states[n].goodSince == t.states[n - 1].goodSince {
        GoodSinceIsBacked(t, n - 1);
        var m :| 0 <= m < n - 1 && GoodRun(t, m, n - 1) && t.events[m].clock == Ms(t.states[n - 1].goodSince.value);
        assert GoodRun(t, m, n);
      } else {
        assert GoodRun(t, n - 1, n);
      }
    }
  }

  /** Every upgrade is asked for on a sample, goes one place up, and rests on 6000 ms in which every sample
      looked at counted and was healthy and in budget, and every report kept the budget. */
  lemma UpgradesHaveEvidence(t: Trace, n: nat)
    requires IsTrace(t) && Unstarted(t.states[0]) && n < |t.events| && t.asks[n].Some?
    requires t.asks[n].value.Rank() < t.states[n].current.Rank()
    ensures CountedSample(t.states[n], t.events[n])
    ensures t.states[n].current in t.states[0].profiles && NextUp(t.states[0].profiles, t.states[n].current) == t.asks[n]
    ensures exists m :: 0 <= m < n && GoodRun(t, m, n + 1) && t.events[n].clock.t - t.events[m].clock.t >= 6_000
  {
    AskLawHolds(t, n);
    var p, e := t.states[n], t.events[n];
    UpgradeAsks(p, e, t.asks[n]);
    assert Keeps(t, n);
    GoodSinceIsBacked(t, n);
    var m :| 0 <= m < n && GoodRun(t, m, n) && t.events[m].clock == Ms(p.goodSince.value);
    assert GoodRun(t, m, n + 1);
  }
}

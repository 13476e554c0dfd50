/** The other half of the profile controller's evidence: whenever the evidence is complete, it asks. */
module VideoPrompt {
  import opened AdaptiveVideo
  import opened VideoLaw
  import opened VideoEvidence

  // ---------- What one event may not forget ----------

  /** Evidence never starts after the stream it was read from. */
  predicate Timely(p: Policy) {
    && (p.shortage.Some? ==> p.lastBandwidthAt.Some? && p.shortage.value.since <= p.lastBandwidthAt.value)
    && (p.shortage.Some? && p.shortage.value.severeSince.Some? ==> p.shortage.value.severeSince.value <= p.lastBandwidthAt.value)
    && (p.goodSince.Some? ==> p.lastSampleAt.Some? && p.goodSince.value <= p.lastSampleAt.value)
  }

  /** An event that is neither a sample to look at, nor an effective acknowledgement, nor the first report. */
  predicate Quiet(p: Policy, e: Event) {
    || !e.clock.Usable()
    || match e
       case Report(_, _, _) => p.feedback
       case Sample(_, clock) => TooSoon(p, clock.t)
       case Ack(_, _) => !EffectiveAck(p, e)
  }

  predicate CanAsk(p: Policy) {
    p.unacknowledged < 3
  }

  predicate CanFall(p: Policy)
    requires p.current in p.profiles
  {
    CanAsk(p) && Lower(p.profiles, p.current) != []
  }

  predicate PoorPrompt(p: Policy, e: Event, q: Policy, asked: Option<Profile>)
    requires p.current in p.profiles
  {
    && (CountedSample(p, e) && e.stats.Impaired() ==>
          (asked.None? ==> q.badSamples == p.badSamples + 1) && (p.badSamples >= 2 && CanFall(p) ==> asked.Some?))
    && (Quiet(p, e) && asked.None? ==> q.badSamples >= p.badSamples)
  }

  function Since(s: Option<Shortage>, severe: bool): Option<int> {
    if s.None? then None else if severe then s.value.severeSince else Some(s.value.since)
  }

  /** When the run of low (or severe) reports that this one belongs to began. */
  function RunBegan(p: Policy, now: int, severe: bool): int {
    if p.feedback && Follows(p.lastBandwidthAt, now) && Since(p.shortage, severe).Some? then Since(p.shortage, severe).value else now
  }

  predicate ShortagePrompt(p: Policy, e: Event, q: Policy, asked: Option<Profile>, severe: bool)
    requires p.current in p.profiles
  {
    && (HeardReport(e) && LowReport(p, e) && (severe ==> SevereReport(p, e)) && CanFall(p) ==>
          var began := RunBegan(p, e.clock.t, severe);
          && (asked.None? ==> Since(q.shortage, severe) == Some(began))
          && (e.clock.t - began >= (if severe then 500 else 1_000) ==> asked.Some?))
    && (!HeardReport(e) && !EffectiveAck(p, e) && asked.None? ==> q.shortage == p.shortage)
  }

  /** A report that comes when the pending request is given up begins a run of its own. */
  predicate ReleasePrompt(p: Policy, e: Event, q: Policy, asked: Option<Profile>, severe: bool)
    requires p.current in p.profiles
  {
    p.pending.Some? && HeardReport(e) && !Waiting(p, e.clock.t)
    && LowReport(p, e) && (severe ==> SevereReport(p, e)) && CanFall(p) ==>
      asked.None? && q.pending.None? && Since(q.shortage, severe) == Some(e.clock.t)
  }

  predicate GoodPrompt(p: Policy, e: Event, q: Policy, asked: Option<Profile>)
    requires p.current in p.profiles
  {
    Wholesome(p, e) ==>
      && (asked.None? && p.goodSince.Some? ==> q.goodSince == p.goodSince)
      && (CountedSample(p, e) ==> CountedGood(p, e.clock.t, q, asked))
  }

  predicate CountedGood(p: Policy, now: int, q: Policy, asked: Option<Profile>)
    requires p.current in p.profiles
  {
    && (asked.None? && p.goodSince.None? ==> q.goodSince == Some(now))
    && (p.goodSince.Some? && now - p.goodSince.value >= 6_000 && CanAsk(p) && NextUp(p.profiles, p.current).Some? ==> asked.Some?)
  }

  predicate Prompt(p: Policy, e: Event, q: Policy, asked: Option<Profile>)
    requires p.current in p.profiles
  {
    && PoorPrompt(p, e, q, asked) && GoodPrompt(p, e, q, asked)
    && (p.pending.None? ==> ShortagePrompt(p, e, q, asked, false) && ShortagePrompt(p, e, q, asked, true))
    && ReleasePrompt(p, e, q, asked, false) && ReleasePrompt(p, e, q, asked, true)
    && (p.pending.None? && asked.None? ==> q.pending.None?)
    && (Timely(p) ==> Timely(q))
  }

  predicate ReportPrepared(p: Policy, q: Policy, now: int) {
    && q.pending.None? && q.lastBandwidthAt == Some(now) && q.lastSampleAt == p.lastSampleAt
    && (p.feedback ==> q.badSamples == p.badSamples)
    && q.shortage == (if p.feedback && Follows(p.lastBandwidthAt, now) then p.shortage else None)
  }

  lemma PreparedReport(p: Policy, bps: int, ageMs: int, now: int)
    requires Valid(p)
    ensures
      var q := Estimated(Heard(p, now), bps, ageMs, now);
      && (p.pending.None? ==> ReportPrepared(p, Released(q, now), now))
      && (p.goodSince.Some? && p.feedback && Follows(p.lastBandwidthAt, now) && Affords(p.profiles, p.current, q.bandwidth, now) ==>
            q.goodSince == p.goodSince)
  {
  }

  /** While a request is pending there is no evidence to keep, and a report brings back none of it. */
  lemma PendingReportIsPrompt(p: Policy, e: Event)
    requires Valid(p) && p.pending.Some? && HeardReport(e) && ValidReport(e.bps, e.ageMs)
    ensures Prompt(p, e, Step(p, e).0, Step(p, e).1)
  {
    var q := Estimated(Heard(p, e.clock.t), e.bps.value, e.ageMs.value, e.clock.t);
    assert q.badSamples == 0 && q.goodSince.None? && q.shortage.None?;
    if !Waiting(q, e.clock.t) { UnpendedReportIsPrompt(p, e, Released(q, e.clock.t)); }
  }

  lemma UnpendedReportIsPrompt(p: Policy, e: Event, q: Policy)
    requires Valid(p) && p.pending.Some? && HeardReport(e) && ValidReport(e.bps, e.ageMs)
    requires q.current == p.current && q.profiles == p.profiles && q.shortage.None? && q.goodSince.None?
    requires q.lastBandwidthAt == Some(e.clock.t) && q.pending.None?
    ensures Prompt(p, e, JudgeReport(q, e.bps.value, e.clock.t).0, JudgeReport(q, e.bps.value, e.clock.t).1)
  {
  }

  lemma BadReportIsPrompt(p: Policy, e: Event)
    requires Valid(p) && HeardReport(e) && !ValidReport(e.bps, e.ageMs)
    ensures Prompt(p, e, Step(p, e).0, Step(p, e).1)
  {
  }

  ghost predicate Judging(p: Policy, e: Event, q: Policy) {
    && Valid(p) && p.pending.None? && HeardReport(e) && ValidReport(e.bps, e.ageMs)
    && Prepared(p, q, e.bps.value, e.ageMs.value, e.clock.t) && ReportPrepared(p, q, e.clock.t)
    && (p.goodSince.Some? && Wholesome(p, e) ==> q.goodSince == p.goodSince)
  }

  lemma JudgedShortageIsPrompt(p: Policy, e: Event, q: Policy, severe: bool)
    requires Judging(p, e, q)
    ensures ShortagePrompt(p, e, JudgeReport(q, e.bps.value, e.clock.t).0, JudgeReport(q, e.bps.value, e.clock.t).1, severe)
  {
  }

  lemma JudgedIsPrompt(p: Policy, e: Event, q: Policy)
    requires Judging(p, e, q)
    ensures Prompt(p, e, JudgeReport(q, e.bps.value, e.clock.t).0, JudgeReport(q, e.bps.value, e.clock.t).1)
  {
    JudgedShortageIsPrompt(p, e, q, false);
    JudgedShortageIsPrompt(p, e, q, true);
    JudgedKeepsTheRest(p, e, q);
  }

  lemma JudgedKeepsTheRest(p: Policy, e: Event, q: Policy)
    requires Judging(p, e, q)
    ensures
      var (after, asked) := JudgeReport(q, e.bps.value, e.clock.t);
      && PoorPrompt(p, e, after, asked) && GoodPrompt(p, e, after, asked)
      && (asked.None? ==> after.pending.None?) && (Timely(p) ==> Timely(after))
  {
    JudgedKeepsSamples(q, e.bps.value, e.clock.t);
    if Timely(p) { JudgedStaysTimely(p, e, q); }
  }

  /** Judging a report leaves the evidence of samples alone, unless it asks. */
  lemma JudgedKeepsSamples(q: Policy, bps: int, now: int)
    requires q.current in q.profiles
    ensures
      var (after, asked) := JudgeReport(q, bps, now);
      asked.None? ==> after.badSamples == q.badSamples && after.goodSince == q.goodSince && after.pending == q.pending
  {
  }

  lemma JudgedStaysTimely(p: Policy, e: Event, q: Policy)
    requires Judging(p, e, q) && Timely(p)
    ensures Timely(JudgeReport(q, e.bps.value, e.clock.t).0)
  {
  }

  lemma ReportIsPrompt(p: Policy, e: Event)
    requires Valid(p) && HeardReport(e)
    ensures Prompt(p, e, Step(p, e).0, Step(p, e).1)
  {
    if !ValidReport(e.bps, e.ageMs) { BadReportIsPrompt(p, e); }
    else if p.pending.Some? { PendingReportIsPrompt(p, e); }
    else {
      var bps, ageMs, now := e.bps.value, e.ageMs.value, e.clock.t;
      ReportIsPrepared(p, bps, ageMs, now);
      PreparedReport(p, bps, ageMs, now);
      JudgedIsPrompt(p, e, Released(Estimated(Heard(p, now), bps, ageMs, now), now));
    }
  }

  predicate SampleReady(p: Policy, q: Policy, now: int) {
    && q.lastSampleAt == Some(now) && q.shortage == p.shortage && q.pending.None? && q.lastBandwidthAt == p.lastBandwidthAt
    && (Restarts(p, now) ==> q.goodSince.None?)
    && (!Restarts(p, now) ==> q.badSamples == p.badSamples && q.goodSince == p.goodSince)
  }

  lemma SampleIsReady(p: Policy, now: int)
    requires p.pending.None?
    ensures SampleReady(p, Released(Sampled(p, now), now), now)
  {
  }

  lemma WeighedIsPrompt(p: Policy, e: Event, q: Policy)
    requires Valid(p) && p.pending.None? && CountedSample(p, e) && !Restarts(p, e.clock.t)
    requires SamplePrepared(p, q, e.clock.t) && SampleReady(p, q, e.clock.t)
    ensures
      var weighed := Weigh(q, e.stats, e.clock.t);
      Prompt(p, e, Answer(weighed, e.clock.t).0, Answer(weighed, e.clock.t).1)
  {
  }

  lemma CountedIsNoRestart(p: Policy, e: Event)
    requires CountedSample(p, e)
    ensures !Restarts(p, e.clock.t)
  {
  }

  /** With a request pending before, a sample that does not count leaves no evidence either. */
  lemma PendingUncountedIsPrompt(p: Policy, e: Event, q: Policy)
    requires Valid(p) && p.pending.Some? && e.Sample? && e.clock.Usable() && !TooSoon(p, e.clock.t) && !CountedSample(p, e)
    requires q.shortage.None? && q.goodSince.None?
    ensures Prompt(p, e, q, None)
  {
  }

  lemma PendingWeighedIsPrompt(p: Policy, e: Event, q: Policy)
    requires Valid(p) && p.pending.Some? && CountedSample(p, e) && q.current == p.current && q.profiles == p.profiles
    requires q.badSamples == 0 && q.lowFpsSamples == 0 && q.goodSince.None? && q.shortage.None?
    requires q.lastSampleAt == Some(e.clock.t) && HasBudget(q, e.clock.t) == HasBudget(p, e.clock.t)
    ensures
      var weighed := Weigh(q, e.stats, e.clock.t);
      Prompt(p, e, Answer(weighed, e.clock.t).0, Answer(weighed, e.clock.t).1)
  {
  }

  lemma PendingSampleIsPrompt(p: Policy, e: Event)
    requires Valid(p) && p.pending.Some? && e.Sample?
    ensures Prompt(p, e, Step(p, e).0, Step(p, e).1)
  {
    if e.clock.Usable() && !TooSoon(p, e.clock.t) {
      var now := e.clock.t;
      SampleIsPrepared(p, now);
      var sampled := Sampled(p, now);
      var released := Released(sampled, now);
      if Waiting(sampled, now) { PendingUncountedIsPrompt(p, e, sampled); }
      else if WarmingUp(released, now) { PendingUncountedIsPrompt(p, e, ClearedButShortage(released)); }
      else { PendingWeighedIsPrompt(p, e, released); }
    }
  }

  lemma UncountedIsPrompt(p: Policy, e: Event)
    requires Valid(p) && p.pending.None? && e.Sample? && !CountedSample(p, e)
    ensures Prompt(p, e, Step(p, e).0, Step(p, e).1)
  {
    if e.clock.Usable() && !TooSoon(p, e.clock.t) {
      SampleIsReady(p, e.clock.t);
      WarmupIsPrompt(p, e, Released(Sampled(p, e.clock.t), e.clock.t));
    }
  }

  lemma WarmupIsPrompt(p: Policy, e: Event, q: Policy)
    requires Valid(p) && e.Sample? && e.clock.Usable() && !TooSoon(p, e.clock.t) && !CountedSample(p, e)
    requires SampleReady(p, q, e.clock.t)
    ensures Prompt(p, e, ClearedButShortage(q), None)
  {
  }

  lemma CountedIsPrompt(p: Policy, e: Event)
    requires Valid(p) && p.pending.None? && CountedSample(p, e)
    ensures Prompt(p, e, Step(p, e).0, Step(p, e).1)
  {
    var now := e.clock.t;
    CountedIsNoRestart(p, e);
    SampleIsPrepared(p, now);
    SampleIsReady(p, now);
    WeighedIsPrompt(p, e, Released(Sampled(p, now), now));
  }

  lemma SampleIsPrompt(p: Policy, e: Event)
    requires Valid(p) && e.Sample?
    ensures Prompt(p, e, Step(p, e).0, Step(p, e).1)
  {
    if p.pending.Some? { PendingSampleIsPrompt(p, e); }
    else if CountedSample(p, e) { CountedIsPrompt(p, e); }
    else { UncountedIsPrompt(p, e); }
  }

  lemma AckIsPrompt(p: Policy, e: Event)
    requires Valid(p) && (e.Ack? || !e.clock.Usable())
    ensures Prompt(p, e, Step(p, e).0, Step(p, e).1)
  {
  }

  lemma StepIsPrompt(p: Policy, e: Event)
    requires Valid(p)
    ensures Prompt(p, e, Step(p, e).0, Step(p, e).1)
  {
    if e.Ack? || !e.clock.Usable() { AckIsPrompt(p, e); }
    else if e.Sample? { SampleIsPrompt(p, e); }
    else { ReportIsPrompt(p, e); }
  }

  // ---------- Whole runs ----------

  lemma TakenStepIsPrompt(p: Policy, e: Event, q: Policy, asked: Option<Profile>)
    requires Valid(p) && q == Step(p, e).0 && asked == Step(p, e).1
    ensures Prompt(p, e, q, asked)
  {
    StepIsPrompt(p, e);
  }

  lemma PromptHolds(t: Trace, n: nat)
    requires IsTrace(t) && n < |t.events|
    ensures Valid(t.states[n]) && Prompt(t.states[n], t.events[n], t.states[n + 1], t.asks[n])
  {
    StatesAreValid(t, n);
    assert IsStep(t, n);
    TakenStepIsPrompt(t.states[n], t.events[n], t.states[n + 1], t.asks[n]);
  }

  lemma {:induction false} StatesAreTimely(t: Trace, n: nat)
    requires IsTrace(t) && Unstarted(t.states[0]) && n <= |t.events|
    ensures Timely(t.states[n])
  {
    if n > 0 {
      StatesAreTimely(t, n - 1);
      PromptHolds(t, n - 1);
    }
  }

  /** How many counted impaired samples lie behind, with only quiet events and no request among them. */
  ghost function PoorStreak(t: Trace, n: nat): nat
    requires IsTrace(t) && n <= |t.events|
  {
    if n == 0 || t.asks[n - 1].Some? then 0
    else
      var p, e := t.states[n - 1], t.events[n - 1];
      if CountedSample(p, e) && e.stats.Impaired() then 1 + PoorStreak(t, n - 1)
      else if Quiet(p, e) then PoorStreak(t, n - 1)
      else 0
  }

  lemma {:induction false} StreakIsCounted(t: Trace, n: nat)
    requires IsTrace(t) && n <= |t.events|
    ensures PoorStreak(t, n) <= t.states[n].badSamples
  {
    if n > 0 {
      StreakIsCounted(t, n - 1);
      PromptHolds(t, n - 1);
    }
  }

  /** The third counted impaired sample in a streak is answered with a downgrade, as long as fewer than three
      requests are unacknowledged and there is a profile to fall to. */
  lemma PoorStreaksAreAnswered(t: Trace, n: nat)
    requires IsTrace(t) && n < |t.events| && CountedSample(t.states[n], t.events[n])
    requires t.events[n].stats.Impaired() && PoorStreak(t, n) >= 2
    ensures Valid(t.states[n])
    ensures CanFall(t.states[n]) ==> t.asks[n].Some? && t.asks[n].value.Rank() > t.states[n].current.Rank()
  {
    StreakIsCounted(t, n);
    PromptHolds(t, n);
    LawHolds(t, n);
    var p := t.states[n];
    LowerIsOther(p.profiles, p.current);
    if CanFall(p) {
      assert SampleAsks(p, t.events[n].stats, t.events[n].clock.t, t.asks[n].value);
    }
  }

  ghost predicate NothingAsked(t: Trace, m: nat, n: nat)
    requires IsTrace(t) && n <= |t.events|
  {
    forall k :: m <= k < n ==> t.asks[k].None?
  }

  /** Free to judge a shortage, and one dated no later than time t if severe (or any) evidence is kept. */
  predicate Remembers(p: Policy, severe: bool, since: int)
    requires p.current in p.profiles
  {
    && p.pending.None? && CanFall(p) && p.feedback
    && Since(p.shortage, severe).Some? && Since(p.shortage, severe).value <= since
  }

  lemma LowRunBegins(t: Trace, m: nat, severe: bool)
    requires IsTrace(t) && Unstarted(t.states[0]) && m < |t.events| && HeardReport(t.events[m]) && Unbroken(t, m, m, severe)
    requires Valid(t.states[m]) && !Waiting(t.states[m], t.events[m].clock.t) && CanFall(t.states[m]) && t.asks[m].None?
    ensures Valid(t.states[m + 1]) && Remembers(t.states[m + 1], severe, t.events[m].clock.t)
  {
    StatesAreTimely(t, m);
    PromptHolds(t, m);
    LawHolds(t, m);
    RequestsAreSupported(t, m);
    assert t.states[m].pending.None? ==> ShortagePrompt(t.states[m], t.events[m], t.states[m + 1], t.asks[m], severe);
    assert ReleasePrompt(t.states[m], t.events[m], t.states[m + 1], t.asks[m], severe);
  }

  lemma LowRunGoesOn(t: Trace, m: nat, k: nat, severe: bool, since: int)
    requires IsTrace(t) && Unstarted(t.states[0]) && m < k < |t.events| && Unbroken(t, m, k, severe)
    requires Valid(t.states[k]) && Remembers(t.states[k], severe, since) && t.asks[k].None?
    ensures Valid(t.states[k + 1]) && Remembers(t.states[k + 1], severe, since)
  {
    PromptHolds(t, k);
    LawHolds(t, k);
    RequestsAreSupported(t, k);
    LastReportIsKept(t, k);
    assert ShortagePrompt(t.states[k], t.events[k], t.states[k + 1], t.asks[k], severe);
  }

  /** Within a low run and with nothing pending or asked, the shortage is dated no later than the run. */
  lemma {:induction false} LowRunIsRemembered(t: Trace, m: nat, k: nat, n: nat, severe: bool)
    requires IsTrace(t) && Unstarted(t.states[0]) && m < k <= n <= |t.events| && LowRun(t, m, n, severe)
    requires Valid(t.states[m]) && !Waiting(t.states[m], t.events[m].clock.t) && CanFall(t.states[m]) && NothingAsked(t, m, k)
    ensures Valid(t.states[k]) && Remembers(t.states[k], severe, t.events[m].clock.t)
  {
    assert Unbroken(t, m, k - 1, severe);
    if k - 1 == m {
      LowRunBegins(t, m, severe);
    } else {
      LowRunIsRemembered(t, m, k - 1, n, severe);
      LowRunGoesOn(t, m, k - 1, severe, t.events[m].clock.t);
    }
  }

  /** A low run of 1000 ms, or a severe one of 500 ms, is answered with the best fit below, unless something was
      awaited when it began or asked since, three requests are unacknowledged, or there is nothing to fall to. */
  lemma LowRunsAreAnswered(t: Trace, m: nat, n: nat, severe: bool)
    requires IsTrace(t) && Unstarted(t.states[0]) && m <= n < |t.events| && LowRun(t, m, n + 1, severe)
    requires HeardReport(t.events[n]) && t.events[n].clock.t - t.events[m].clock.t >= (if severe then 500 else 1_000)
    requires Valid(t.states[m]) && !Waiting(t.states[m], t.events[m].clock.t) && CanFall(t.states[m]) && NothingAsked(t, m, n)
    ensures Valid(t.states[n]) && CanFall(t.states[n]) && LowReport(t.states[n], t.events[n])
    ensures t.asks[n] == Some(BestFit(Lower(t.states[n].profiles, t.states[n].current), t.events[n].bps.value))
  {
    if m < n { LowRunIsRemembered(t, m, n, n + 1, severe); }
    assert Unbroken(t, m, n, severe);
    PromptHolds(t, n);
    LawHolds(t, n);
    LastReportIsKept(t, n);
    assert ShortagePrompt(t.states[n], t.events[n], t.states[n + 1], t.asks[n], severe);
  }

  predicate RemembersGood(p: Policy, since: int) {
    CanAsk(p) && p.goodSince.Some? && p.goodSince.value <= since
  }

  lemma GoodRunBegins(t: Trace, m: nat)
    requires IsTrace(t) && Unstarted(t.states[0]) && m < |t.events| && CountedSample(t.states[m], t.events[m]) && Keeps(t, m)
    requires CanAsk(t.states[m]) && t.asks[m].None?
    ensures RemembersGood(t.states[m + 1], t.events[m].clock.t) && t.states[m + 1].current == t.states[m].current
  {
    StatesAreTimely(t, m);
    PromptHolds(t, m);
    LawHolds(t, m);
    RequestsAreSupported(t, m);
    CountedIsNoRestart(t.states[m], t.events[m]);
  }

  lemma GoodRunGoesOn(t: Trace, k: nat, since: int)
    requires IsTrace(t) && k < |t.events| && Keeps(t, k) && RemembersGood(t.states[k], since) && t.asks[k].None?
    ensures RemembersGood(t.states[k + 1], since) && t.states[k + 1].current == t.states[k].current
  {
    PromptHolds(t, k);
    LawHolds(t, k);
    RequestsAreSupported(t, k);
  }

  lemma {:induction false} GoodRunIsRemembered(t: Trace, m: nat, k: nat, n: nat)
    requires IsTrace(t) && Unstarted(t.states[0]) && m < k <= n <= |t.events| && GoodRun(t, m, n)
    requires CanAsk(t.states[m]) && NothingAsked(t, m, k)
    ensures RemembersGood(t.states[k], t.events[m].clock.t) && t.states[k].current == t.states[m].current
  {
    assert Keeps(t, k - 1);
    if k - 1 == m {
      GoodRunBegins(t, m);
    } else {
      GoodRunIsRemembered(t, m, k - 1, n);
      GoodRunGoesOn(t, k - 1, t.events[m].clock.t);
    }
  }

  /** A good run of 6000 ms that ends in a counted sample is answered with the next better profile, unless
      something was asked since it began, three requests are unacknowledged, or there is no better one. */
  lemma GoodRunsAreAnswered(t: Trace, m: nat, n: nat)
    requires IsTrace(t) && Unstarted(t.states[0]) && m < n < |t.events| && GoodRun(t, m, n + 1)
    requires CountedSample(t.states[n], t.events[n]) && t.events[n].clock.t - t.events[m].clock.t >= 6_000
    requires CanAsk(t.states[m]) && NothingAsked(t, m, n)
    ensures Valid(t.states[n])
    ensures t.asks[n] == NextUp(t.states[n].profiles, t.states[n].current)
  {
    GoodRunIsRemembered(t, m, n, n + 1);
    assert Keeps(t, n);
    PromptHolds(t, n);
    LawHolds(t, n);
    var p, e := t.states[n], t.events[n];
    if t.asks[n].Some? {
      assert SampleAsks(p, e.stats, e.clock.t, t.asks[n].value);
    }
  }
}

/** What one event may do to the profile controller, field by field: the law its runs are argued from. */
module VideoLaw {
  import opened AdaptiveVideo

  predicate EffectiveAck(p: Policy, e: Event) {
    e.Ack? && Effective(p, e.profile, e.clock)
  }

  predicate HeardReport(e: Event) { e.Report? && e.clock.Usable() }

  /** A valid report below the current profile's minimum. */
  predicate LowReport(p: Policy, e: Event) {
    e.Report? && ValidReport(e.bps, e.ageMs) && e.bps.value < p.current.MinBps()
  }

  /** A low report so bad that the profile to fall to is at least two places down and has fewer pixels. */
  predicate SevereReport(p: Policy, e: Event)
    requires p.current in p.profiles
  {
    && LowReport(p, e) && Lower(p.profiles, p.current) != []
    && Severe(p.profiles, p.current, e.bps.value)
  }

  predicate Follows(last: Option<int>, now: int) {
    last.Some? && 0 < now - last.value <= BANDWIDTH_MAX_AGE_MS
  }

  predicate CountedSample(p: Policy, e: Event) {
    e.Sample? && e.clock.Usable() && Counts(p, e.clock.t)
  }

  predicate RestartsSampling(p: Policy, e: Event) {
    e.Sample? && e.clock.Usable() && Restarts(p, e.clock.t)
  }

  predicate Poor(stats: Stats, lowFps: bool) {
    if lowFps then stats.LowFps() else stats.Impaired()
  }

  /** An event that good evidence survives: a sample that is too early to look at, or that counts, is healthy
      and in budget; a report that is in budget and follows on the one before; no effective acknowledgement. */
  predicate Wholesome(p: Policy, e: Event)
    requires p.current in p.profiles
  {
    !e.clock.Usable() || match e
    case Sample(stats, clock) =>
      TooSoon(p, clock.t) || (Counts(p, clock.t) && stats.Healthy() && HasBudget(p, clock.t))
    case Report(bps, ageMs, clock) =>
      && p.feedback && ValidReport(bps, ageMs) && Follows(p.lastBandwidthAt, clock.t)
      && Affords(p.profiles, p.current, Some(Estimate(bps.value, clock.t - ageMs.value)), clock.t)
    case Ack(profile, clock) => !Effective(p, profile, clock)
  }

  // ---------- The law ----------

  /** The count of unacknowledged requests and the request that may be acknowledged. */
  predicate RequestLaw(p: Policy, e: Event, q: Policy, asked: Option<Profile>) {
    && (EffectiveAck(p, e) ==> asked.None? && p.unacknowledged > 0 && q.unacknowledged == 0 && q.lastRequested.None?)
    && (!EffectiveAck(p, e) ==>
          && q.unacknowledged == p.unacknowledged + (if asked.Some? then 1 else 0)
          && q.lastRequested == (if asked.Some? then asked else p.lastRequested))
  }

  /** A pending request ends by an effective acknowledgement or 5000 ms after it was made. */
  predicate PendingLaw(p: Policy, e: Event, q: Policy, asked: Option<Profile>) {
    !EffectiveAck(p, e) ==>
      && (q.pending != p.pending || asked.Some? ==>
            e.clock.Usable() && (p.pending.Some? ==> e.clock.t - p.pending.value.requestedAt >= 5_000))
      && (if asked.Some? then q.pending == Some(Pending(asked.value, e.clock.t)) else q.pending == p.pending || q.pending.None?)
  }

  /** Feedback begins with the first usable report and never ends; the estimate is the last report's. */
  predicate ReportLaw(p: Policy, e: Event, q: Policy) {
    && q.lastBandwidthAt == (if HeardReport(e) then Some(e.clock.t) else p.lastBandwidthAt)
    && q.feedback == (p.feedback || HeardReport(e))
    && (if !HeardReport(e) then q.bandwidth == p.bandwidth
        else if !ValidReport(e.bps, e.ageMs) then q.bandwidth.None?
        else q.bandwidth == Some(Estimate(e.bps.value, e.clock.t - e.ageMs.value)))
  }

  /** A sample that is looked at: usable and not too soon after the one looked at before. */
  predicate Looked(last: Option<int>, e: Event) {
    e.Sample? && e.clock.Usable() && !(last.Some? && 0 < e.clock.t - last.value < 750)
  }

  predicate Began(last: Option<int>, e: Event) {
    Looked(last, e) && (last.None? || e.clock.t <= last.value || e.clock.t - last.value > MAX_SAMPLE_GAP_MS)
  }

  /** Sampling starts afresh with the first sample and after a gap; a change is dated by its acknowledgement. */
  predicate ClockLaw(p: Policy, e: Event, q: Policy) {
    && q.lastSampleAt == (if Looked(p.lastSampleAt, e) then Some(e.clock.t) else p.lastSampleAt)
    && q.firstSampleAt == (if Began(p.lastSampleAt, e) then Some(e.clock.t) else p.firstSampleAt)
    && q.lastChangeAt == (if EffectiveAck(p, e) then Some(e.clock.t) else p.lastChangeAt)
  }

  /** The run of low reports that event e leaves, given the one before it. */
  predicate Extends(p: Policy, e: Event, s: Shortage)
    requires p.current in p.profiles && HeardReport(e)
  {
    && LowReport(p, e)
    && (|| s.since == e.clock.t
        || (Follows(p.lastBandwidthAt, e.clock.t) && p.shortage.Some? && p.shortage.value.since == s.since))
    && (s.severeSince.Some? ==>
          && SevereReport(p, e)
          && (|| s.severeSince.value == e.clock.t
              || (Follows(p.lastBandwidthAt, e.clock.t) && p.shortage.Some? && p.shortage.value.severeSince == s.severeSince)))
  }

  predicate ShortageLaw(p: Policy, e: Event, q: Policy)
    requires p.current in p.profiles
  {
    q.shortage.Some? ==>
      && !EffectiveAck(p, e)
      && if HeardReport(e) then Extends(p, e, q.shortage.value) else q.shortage == p.shortage
  }

  function PoorCount(p: Policy, lowFps: bool): nat {
    if lowFps then p.lowFpsSamples else p.badSamples
  }

  predicate PoorLaw(p: Policy, e: Event, q: Policy, lowFps: bool) {
    PoorCount(q, lowFps) > 0 ==>
      if CountedSample(p, e) then Poor(e.stats, lowFps) && PoorCount(q, lowFps) <= PoorCount(p, lowFps) + 1
      else !EffectiveAck(p, e) && !RestartsSampling(p, e) && PoorCount(q, lowFps) <= PoorCount(p, lowFps)
  }

  predicate GoodLaw(p: Policy, e: Event, q: Policy)
    requires p.current in p.profiles
  {
    q.goodSince.Some? ==>
      && Wholesome(p, e)
      && (q.goodSince == p.goodSince || (CountedSample(p, e) && q.goodSince == Some(e.clock.t)))
  }

  /** What a request rests on at the moment it is made. */
  ghost predicate AskLaw(p: Policy, e: Event, asked: Option<Profile>)
    requires p.current in p.profiles
  {
    asked.Some? ==>
      match e
      case Ack(_, _) => false
      case Report(bps, _, clock) =>
        && HeardReport(e) && LowReport(p, e) && Lower(p.profiles, p.current) != []
        && asked.value == BestFit(Lower(p.profiles, p.current), bps.value)
        && exists s :: Extends(p, e, s) && LongEnough(s, clock.t)
      case Sample(stats, clock) =>
        CountedSample(p, e) && SampleAsks(p, stats, clock.t, asked.value)
  }

  predicate SampleAsks(p: Policy, stats: Stats, now: int, asked: Profile)
    requires p.current in p.profiles
  {
    var lower := Lower(p.profiles, p.current);
    || (p.lowFpsSamples >= 2 && stats.LowFps() && lower != [] && asked == FewerPixels(lower, p.current.Height()))
    || (p.badSamples >= 2 && stats.Impaired() && lower != [] && asked == lower[0])
    || (stats.Healthy() && HasBudget(p, now) && NextUp(p.profiles, p.current) == Some(asked)
        && p.goodSince.Some? && now - p.goodSince.value >= 6_000)
  }

  ghost predicate StepLaw(p: Policy, e: Event, q: Policy, asked: Option<Profile>)
    requires p.current in p.profiles
  {
    && RequestLaw(p, e, q, asked) && PendingLaw(p, e, q, asked) && ReportLaw(p, e, q) && ShortageLaw(p, e, q)
    && PoorLaw(p, e, q, false) && PoorLaw(p, e, q, true) && GoodLaw(p, e, q) && AskLaw(p, e, asked)
  }

  // ---------- Reports obey it ----------

  lemma StepObeysClocks(p: Policy, e: Event)
    requires Valid(p)
    ensures ClockLaw(p, e, Step(p, e).0)
    ensures Step(p, e).1.Some? && e.Sample? ==> !WarmingUp(p.(firstSampleAt := Step(p, e).0.firstSampleAt), e.clock.t)
  {
    match e
    case Sample(stats, clock) => if clock.Usable() && !TooSoon(p, clock.t) { SampleObeysClocks(p, stats, clock.t); }
    case Report(bps, ageMs, clock) => if clock.Usable() { ReportObeysClocks(p, e); }
    case Ack(_, _) =>
  }

  lemma SampleObeysClocks(p: Policy, stats: Stats, now: int)
    requires Valid(p) && now >= 0 && !TooSoon(p, now)
    ensures ClockLaw(p, Sample(stats, Ms(now)), Observe(p, stats, Ms(now)).0)
    ensures Observe(p, stats, Ms(now)).1.Some? ==>
      !WarmingUp(p.(firstSampleAt := Observe(p, stats, Ms(now)).0.firstSampleAt), now)
  {
    var sampled := Sampled(p, now);
    var released := Released(sampled, now);
    assert released.firstSampleAt == sampled.firstSampleAt && released.lastSampleAt == Some(now)
      && released.lastChangeAt == p.lastChangeAt && released.feedback == p.feedback;
  }

  predicate SameClocks(p: Policy, q: Policy) {
    q.firstSampleAt == p.firstSampleAt && q.lastSampleAt == p.lastSampleAt && q.lastChangeAt == p.lastChangeAt
  }

  lemma EstimateKeepsClocks(p: Policy, bps: int, ageMs: int, now: int)
    requires p.current in p.profiles
    ensures
      var q := Estimated(Heard(p, now), bps, ageMs, now);
      SameClocks(p, q) && SameClocks(p, Released(q, now)) && q.current == p.current && q.profiles == p.profiles
  {
  }

  lemma JudgeKeepsClocks(q: Policy, bps: int, now: int)
    requires q.current in q.profiles
    ensures SameClocks(q, JudgeReport(q, bps, now).0)
  {
  }

  lemma ReportObeysClocks(p: Policy, e: Event)
    requires Valid(p) && HeardReport(e)
    ensures ClockLaw(p, e, Step(p, e).0)
  {
    if ValidReport(e.bps, e.ageMs) {
      EstimateKeepsClocks(p, e.bps.value, e.ageMs.value, e.clock.t);
      var q := Estimated(Heard(p, e.clock.t), e.bps.value, e.ageMs.value, e.clock.t);
      JudgeKeepsClocks(Released(q, e.clock.t), e.bps.value, e.clock.t);
      assert SameClocks(p, Step(p, e).0);
    }
  }

  /** What a valid report leaves to be judged. */
  predicate Prepared(p: Policy, q: Policy, bps: int, ageMs: int, now: int)
    requires p.current in p.profiles
  {
    && q.profiles == p.profiles && q.current == p.current && q.unacknowledged == p.unacknowledged
    && q.lastRequested == p.lastRequested && q.feedback && q.lastBandwidthAt == Some(now)
    && q.bandwidth == Some(Estimate(bps, now - ageMs))
    && (q.pending == p.pending || (q.pending.None? && now - p.pending.value.requestedAt >= 5_000))
    && (q.shortage.Some? ==> q.shortage == p.shortage && Follows(p.lastBandwidthAt, now))
    && (q.goodSince.Some? ==> q.goodSince == p.goodSince && p.feedback && Follows(p.lastBandwidthAt, now)
                              && Affords(p.profiles, p.current, q.bandwidth, now))
    && q.badSamples <= p.badSamples && q.lowFpsSamples <= p.lowFpsSamples
  }

  lemma ReportIsPrepared(p: Policy, bps: int, ageMs: int, now: int)
    requires p.current in p.profiles
    ensures
      var q := Estimated(Heard(p, now), bps, ageMs, now);
      Prepared(p, q, bps, ageMs, now) && Prepared(p, Released(q, now), bps, ageMs, now)
  {
  }

  lemma PreparedObeysLaw(p: Policy, e: Event, q: Policy)
    requires Valid(p) && HeardReport(e) && ValidReport(e.bps, e.ageMs)
    requires Prepared(p, q, e.bps.value, e.ageMs.value, e.clock.t)
    ensures StepLaw(p, e, q.(shortage := None), None)
  {
  }

  lemma JudgedObeysLaw(p: Policy, e: Event, q: Policy)
    requires Valid(p) && HeardReport(e) && ValidReport(e.bps, e.ageMs)
    requires Prepared(p, q, e.bps.value, e.ageMs.value, e.clock.t) && q.pending.None?
    ensures StepLaw(p, e, JudgeReport(q, e.bps.value, e.clock.t).0, JudgeReport(q, e.bps.value, e.clock.t).1)
  {
    PreparedObeysLaw(p, e, q);
    var bps, now := e.bps.value, e.clock.t;
    if !(bps >= q.current.MinBps() || Lower(q.profiles, q.current) == []) {
      LowObeysLaw(p, e, q, Lengthened(q, bps, now));
    }
  }

  lemma LengthenedExtends(p: Policy, e: Event, q: Policy)
    requires Valid(p) && HeardReport(e) && ValidReport(e.bps, e.ageMs)
    requires Prepared(p, q, e.bps.value, e.ageMs.value, e.clock.t)
    requires e.bps.value < p.current.MinBps() && Lower(p.profiles, p.current) != []
    ensures Extends(p, e, Lengthened(q, e.bps.value, e.clock.t))
  {
  }

  lemma LowObeysLaw(p: Policy, e: Event, q: Policy, s: Shortage)
    requires Valid(p) && HeardReport(e) && ValidReport(e.bps, e.ageMs)
    requires Prepared(p, q, e.bps.value, e.ageMs.value, e.clock.t) && q.pending.None?
    requires e.bps.value < p.current.MinBps() && Lower(p.profiles, p.current) != []
    requires s == Lengthened(q, e.bps.value, e.clock.t)
    ensures StepLaw(p, e, q.(shortage := Some(s)), None)
    ensures LongEnough(s, e.clock.t) ==>
      var target := BestFit(Lower(p.profiles, p.current), e.bps.value);
      var (after, asked) := Request(q.(shortage := Some(s)), target, e.clock.t);
      StepLaw(p, e, after, asked)
  {
    LengthenedExtends(p, e, q);
  }

  lemma ReportObeysLaw(p: Policy, e: Event)
    requires Valid(p) && HeardReport(e) && ValidReport(e.bps, e.ageMs)
    ensures StepLaw(p, e, Step(p, e).0, Step(p, e).1)
  {
    var now := e.clock.t;
    ReportIsPrepared(p, e.bps.value, e.ageMs.value, now);
    var q := Estimated(Heard(p, now), e.bps.value, e.ageMs.value, now);
    if Waiting(q, now) {
      PreparedObeysLaw(p, e, q);
      assert q.shortage.None?;
    } else {
      JudgedObeysLaw(p, e, Released(q, now));
    }
  }

  lemma BadReportObeysLaw(p: Policy, e: Event)
    requires Valid(p) && HeardReport(e) && !ValidReport(e.bps, e.ageMs)
    ensures StepLaw(p, e, Step(p, e).0, Step(p, e).1)
  {
  }

  // ---------- Samples obey it ----------

  /** What a sample that is not too soon leaves before it is weighed. */
  predicate SamplePrepared(p: Policy, q: Policy, now: int) {
    && q.profiles == p.profiles && q.current == p.current && q.unacknowledged == p.unacknowledged
    && q.lastRequested == p.lastRequested && q.feedback == p.feedback && q.lastBandwidthAt == p.lastBandwidthAt
    && q.bandwidth == p.bandwidth
    && (q.pending == p.pending || (q.pending.None? && now - p.pending.value.requestedAt >= 5_000))
    && (q.shortage.Some? ==> q.shortage == p.shortage)
    && (q.goodSince.Some? ==> q.goodSince == p.goodSince)
    && q.badSamples <= p.badSamples && q.lowFpsSamples <= p.lowFpsSamples
  }

  lemma SampleIsPrepared(p: Policy, now: int)
    ensures SamplePrepared(p, Sampled(p, now), now) && SamplePrepared(p, Released(Sampled(p, now), now), now)
  {
  }

  lemma UncountedObeysLaw(p: Policy, e: Event, q: Policy)
    requires Valid(p) && e.Sample? && e.clock.Usable() && !CountedSample(p, e) && SamplePrepared(p, q, e.clock.t)
    requires q.badSamples == 0 && q.lowFpsSamples == 0 && q.goodSince.None?
    ensures StepLaw(p, e, q, None)
  {
  }

  lemma WeighedObeysLaw(p: Policy, e: Event, q: Policy)
    requires Valid(p) && CountedSample(p, e) && SamplePrepared(p, q, e.clock.t) && q.pending.None?
    ensures
      var weighed := Weigh(q, e.stats, e.clock.t);
      StepLaw(p, e, Answer(weighed, e.clock.t).0, Answer(weighed, e.clock.t).1)
  {
  }

  lemma SampleObeysLaw(p: Policy, e: Event)
    requires Valid(p) && e.Sample? && e.clock.Usable() && !TooSoon(p, e.clock.t)
    ensures StepLaw(p, e, Step(p, e).0, Step(p, e).1)
  {
    var now := e.clock.t;
    SampleIsPrepared(p, now);
    SampledIsValid(p, now);
    var sampled := Sampled(p, now);
    var released := Released(sampled, now);
    if Waiting(sampled, now) {
      UncountedObeysLaw(p, e, sampled);
    } else if WarmingUp(released, now) {
      UncountedObeysLaw(p, e, ClearedButShortage(released));
    } else {
      WeighedObeysLaw(p, e, released);
    }
  }

  lemma OtherwiseObeysLaw(p: Policy, e: Event)
    requires Valid(p)
    requires e.Ack? || !e.clock.Usable() || (e.Sample? && TooSoon(p, e.clock.t))
    ensures StepLaw(p, e, Step(p, e).0, Step(p, e).1)
  {
  }

  /** Every event obeys the law. */
  lemma StepObeysLaw(p: Policy, e: Event)
    requires Valid(p)
    ensures StepLaw(p, e, Step(p, e).0, Step(p, e).1)
  {
    if e.Ack? || !e.clock.Usable() || (e.Sample? && TooSoon(p, e.clock.t)) { OtherwiseObeysLaw(p, e); }
    else if e.Sample? { SampleObeysLaw(p, e); }
    else if ValidReport(e.bps, e.ageMs) { ReportObeysLaw(p, e); }
    else { BadReportObeysLaw(p, e); }
  }
}

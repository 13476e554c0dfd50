/** The hysteresis controller for camera profiles: two streams of evidence (receiver samples and
    bandwidth reports), one outstanding request at a time, and acknowledgements that may come late. */
module AdaptiveVideo {

  datatype Option<+T> = None | Some(value: T)

  datatype Profile = P720p60 | P720p30 | P540p30 | P360p30 | P240p30
  {
    function Rank(): nat {
      match this
      case P720p60 => 0 case P720p30 => 1 case P540p30 => 2 case P360p30 => 3 case P240p30 => 4
    }

    function Height(): nat {
      match this
      case P720p60 => 720 case P720p30 => 720 case P540p30 => 540 case P360p30 => 360 case P240p30 => 240
    }

    function MinBps(): nat {
      match this
      case P720p60 => 2_800_000 case P720p30 => 1_400_000 case P540p30 => 800_000
      case P360p30 => 500_000 case P240p30 => 250_000
    }
  }

  const PROFILE_ORDER := [P720p60, P720p30, P540p30, P360p30, P240p30]
  const BANDWIDTH_MAX_AGE_MS: int := 1_500
  const MAX_SAMPLE_GAP_MS: int := 3_000
  const MIN_HEALTHY_FPS: real := 21.0
  const MAX_SAFE_INTEGER: int := 9_007_199_254_740_991

  /** A measured number: missing, not finite, or finite. */
  datatype Reading = Absent | NotFinite | Finite(value: real)
  {
    function NonNegative(): Option<real> {
      if Finite? && value >= 0.0 then Some(value) else None
    }
  }

  datatype Stats = Stats(fps: Reading, rttMs: Reading, jitterMs: Reading, lossRatio: Reading,
                         jitterBufferMs: Reading, stalled: bool)
  {
    predicate LowFps() { fps.NonNegative().Some? && fps.NonNegative().value < MIN_HEALTHY_FPS }

    predicate Above(r: Reading, limit: real) { r.NonNegative().Some? && r.NonNegative().value > limit }

    predicate Below(r: Reading, limit: real) { r.NonNegative().Some? && r.NonNegative().value < limit }

    predicate Impaired() {
      || LowFps() || stalled || Above(rttMs, 250.0) || Above(jitterMs, 50.0)
      || (Above(lossRatio, 0.05) && lossRatio.NonNegative().value <= 1.0) || Above(jitterBufferMs, 150.0)
    }

    predicate Healthy() {
      && !Impaired() && fps.NonNegative().Some? && fps.NonNegative().value >= MIN_HEALTHY_FPS
      && Below(rttMs, 160.0) && Below(jitterMs, 25.0) && Below(lossRatio, 0.01)
      && (jitterBufferMs.Absent? || Below(jitterBufferMs, 80.0))
    }
  }

  /** A clock argument: a number of milliseconds, or not a usable number. */
  datatype Clock = NotANumber | Ms(t: int)
  {
    predicate Usable() { Ms? && t >= 0 }
  }

  datatype Pending = Pending(profile: Profile, requestedAt: int)

  datatype Estimate = Estimate(bps: int, sampledAt: int)

  datatype Shortage = Shortage(since: int, severeSince: Option<int>)

  datatype Policy = Policy(
    profiles: seq<Profile>,
    current: Profile,
    firstSampleAt: Option<int>,
    lastSampleAt: Option<int>,
    lastChangeAt: Option<int>,
    badSamples: nat,
    lowFpsSamples: nat,
    goodSince: Option<int>,
    pending: Option<Pending>,
    lastRequested: Option<Profile>,
    unacknowledged: nat,
    feedback: bool,
    bandwidth: Option<Estimate>,
    lastBandwidthAt: Option<int>,
    shortage: Option<Shortage>)

  // ---------- The supported profiles, best first ----------

  ghost predicate Ordered(profiles: seq<Profile>) {
    forall i, j :: 0 <= i < j < |profiles| ==> profiles[i].Rank() < profiles[j].Rank()
  }

  function Supported(order: seq<Profile>, offered: set<Profile>): (profiles: seq<Profile>)
    requires Ordered(order)
    ensures Ordered(profiles) && forall p :: p in profiles <==> p in order && p in offered
  {
    if order == [] then []
    else
      var rest := Supported(order[1..], offered);
      assert forall p :: p in rest ==> order[0].Rank() < p.Rank();
      if order[0] in offered then [order[0]] + rest else rest
  }

  function IndexOf(profiles: seq<Profile>, p: Profile): (i: nat)
    requires p in profiles
    ensures i < |profiles| && profiles[i] == p
  {
    if profiles[0] == p then 0 else 1 + IndexOf(profiles[1..], p)
  }

  function Lower(profiles: seq<Profile>, p: Profile): seq<Profile>
    requires p in profiles
  {
    profiles[IndexOf(profiles, p) + 1..]
  }

  function NextUp(profiles: seq<Profile>, p: Profile): Option<Profile>
    requires p in profiles
  {
    if IndexOf(profiles, p) == 0 then None else Some(profiles[IndexOf(profiles, p) - 1])
  }

  /** The best profile of the list that fits the estimate, or the last one. */
  function BestFit(lower: seq<Profile>, bps: int): (p: Profile)
    requires lower != []
    ensures p in lower
  {
    if bps >= lower[0].MinBps() || |lower| == 1 then lower[0] else BestFit(lower[1..], bps)
  }

  /** The best profile of the list with fewer pixels, or the first one. */
  function FewerPixels(lower: seq<Profile>, height: nat): (p: Profile)
    requires lower != []
    ensures p in lower
  {
    if exists i :: 0 <= i < |lower| && lower[i].Height() < height then FirstBelow(lower, height) else lower[0]
  }

  function FirstBelow(lower: seq<Profile>, height: nat): (p: Profile)
    requires exists i :: 0 <= i < |lower| && lower[i].Height() < height
    ensures p in lower
  {
    if lower[0].Height() < height then lower[0]
    else
      assert exists i :: 0 <= i < |lower[1..]| && lower[1..][i].Height() < height by {
        var i :| 0 <= i < |lower| && lower[i].Height() < height;
        assert lower[1..][i - 1] == lower[i];
      }
      FirstBelow(lower[1..], height)
  }

  // ---------- One event ----------

  function Cleared(p: Policy): Policy {
    p.(badSamples := 0, lowFpsSamples := 0, goodSince := None, shortage := None)
  }

  function ClearedButShortage(p: Policy): Policy {
    Cleared(p).(shortage := p.shortage)
  }

  predicate Waiting(p: Policy, now: int) {
    p.pending.Some? && now - p.pending.value.requestedAt < 5_000
  }

  /** A request that was not acknowledged in time is given up, and the evidence with it. */
  function Released(p: Policy, now: int): Policy {
    if p.pending.Some? && !Waiting(p, now) then Cleared(p.(pending := None)) else p
  }

  /** The estimate is fresh and covers the next better profile with a quarter to spare. */
  predicate Affords(profiles: seq<Profile>, current: Profile, estimate: Option<Estimate>, now: int)
    requires current in profiles
  {
    var next := NextUp(profiles, current);
    && next.Some? && estimate.Some?
    && now - estimate.value.sampledAt <= BANDWIDTH_MAX_AGE_MS
    && estimate.value.bps * 4 >= next.value.MinBps() * 5
  }

  predicate HasBudget(p: Policy, now: int)
    requires p.current in p.profiles
  {
    !p.feedback || Affords(p.profiles, p.current, p.bandwidth, now)
  }

  function Request(p: Policy, profile: Profile, now: int): (Policy, Option<Profile>) {
    if p.unacknowledged >= 3 then (p, None)
    else
      (Cleared(p).(pending := Some(Pending(profile, now)), lastRequested := Some(profile),
        unacknowledged := p.unacknowledged + 1), Some(profile))
  }

  predicate ValidReport(bps: Option<int>, ageMs: Option<int>) {
    && bps.Some? && 0 < bps.value <= MAX_SAFE_INTEGER
    && ageMs.Some? && 0 <= ageMs.value <= BANDWIDTH_MAX_AGE_MS
  }

  predicate Severe(profiles: seq<Profile>, current: Profile, bps: int)
    requires current in profiles && Lower(profiles, current) != []
  {
    var target := BestFit(Lower(profiles, current), bps);
    && bps < 650_000 && current.Height() > target.Height()
    && IndexOf(profiles, target) - IndexOf(profiles, current) > 1
  }

  /** What every report does before it is judged: feedback begins, a gap breaks the run. */
  function Heard(p: Policy, now: int): Policy {
    var q := if p.feedback then p else Cleared(p).(feedback := true);
    var broken := p.lastBandwidthAt.None? || now <= p.lastBandwidthAt.value
                  || now - p.lastBandwidthAt.value > BANDWIDTH_MAX_AGE_MS;
    (if broken then q.(shortage := None, goodSince := None) else q).(lastBandwidthAt := Some(now))
  }

  function Estimated(p: Policy, bps: int, ageMs: int, now: int): Policy
    requires p.current in p.profiles
  {
    var q := p.(bandwidth := Some(Estimate(bps, now - ageMs)));
    if HasBudget(q, now) then q else q.(goodSince := None)
  }

  /** The run of reports below the current minimum, lengthened by this one. */
  function Lengthened(p: Policy, bps: int, now: int): Shortage
    requires p.current in p.profiles && Lower(p.profiles, p.current) != []
  {
    var before := if p.shortage.None? then Shortage(now, None) else p.shortage.value;
    before.(severeSince := if !Severe(p.profiles, p.current, bps) then None
                           else if before.severeSince.Some? then before.severeSince else Some(now))
  }

  predicate LongEnough(shortage: Shortage, now: int) {
    now - shortage.since >= 1_000 || (shortage.severeSince.Some? && now - shortage.severeSince.value >= 500)
  }

  /** A valid report against the current profile, with no acknowledgement awaited. */
  function JudgeReport(p: Policy, bps: int, now: int): (Policy, Option<Profile>)
    requires p.current in p.profiles
  {
    var lower := Lower(p.profiles, p.current);
    if bps >= p.current.MinBps() || lower == [] then (p.(shortage := None), None)
    else
      var shortage := Lengthened(p, bps, now);
      var q := p.(shortage := Some(shortage));
      if LongEnough(shortage, now) then Request(q, BestFit(lower, bps), now) else (q, None)
  }

  function ObserveBandwidth(p: Policy, bps: Option<int>, ageMs: Option<int>, clock: Clock): (Policy, Option<Profile>)
    requires p.current in p.profiles
  {
    if !clock.Usable() then (p, None)
    else
      var heard := Heard(p, clock.t);
      if !ValidReport(bps, ageMs) then (heard.(bandwidth := None, shortage := None, goodSince := None), None)
      else
        var estimated := Estimated(heard, bps.value, ageMs.value, clock.t);
        if Waiting(estimated, clock.t) then (estimated, None)
        else JudgeReport(Released(estimated, clock.t), bps.value, clock.t)
  }

  /** Samples closer than 750 ms to the previous one are not looked at. */
  predicate TooSoon(p: Policy, now: int) {
    p.lastSampleAt.Some? && 0 < now - p.lastSampleAt.value < 750
  }

  predicate Restarts(p: Policy, now: int) {
    p.lastSampleAt.None? || now <= p.lastSampleAt.value || now - p.lastSampleAt.value > MAX_SAMPLE_GAP_MS
  }

  function Sampled(p: Policy, now: int): Policy {
    (if Restarts(p, now) then ClearedButShortage(p).(firstSampleAt := Some(now)) else p).(lastSampleAt := Some(now))
  }

  predicate WarmingUp(p: Policy, now: int) {
    || p.firstSampleAt.None? || now - p.firstSampleAt.value < 3_000
    || (!p.feedback && p.lastChangeAt.Some? && now - p.lastChangeAt.value < 8_000)
  }

  /** Whether a sample at this time counts as evidence. */
  predicate Counts(p: Policy, now: int) {
    && !TooSoon(p, now) && !Waiting(Sampled(p, now), now)
    && !WarmingUp(Released(Sampled(p, now), now), now)
  }

  function Weigh(p: Policy, stats: Stats, now: int): Policy
    requires p.current in p.profiles
  {
    p.(lowFpsSamples := if stats.LowFps() then p.lowFpsSamples + 1 else 0,
       badSamples := if stats.Impaired() then p.badSamples + 1 else 0,
       goodSince := if stats.Impaired() || !stats.Healthy() || !HasBudget(p, now) then None
                    else if p.goodSince.Some? then p.goodSince else Some(now))
  }

  function Wanted(p: Policy, now: int): Option<Profile>
    requires p.current in p.profiles
  {
    var lower := Lower(p.profiles, p.current);
    if p.lowFpsSamples >= 3 then if lower == [] then None else Some(FewerPixels(lower, p.current.Height()))
    else if p.badSamples >= 3 then if lower == [] then None else Some(lower[0])
    else if p.goodSince.Some? && now - p.goodSince.value >= 6_000 then NextUp(p.profiles, p.current)
    else None
  }

  function Answer(p: Policy, now: int): (Policy, Option<Profile>)
    requires p.current in p.profiles
  {
    if Wanted(p, now).Some? then Request(p, Wanted(p, now).value, now) else (p, None)
  }

  /** A sample taken at this time, with no acknowledgement awaited. */
  function JudgeSample(p: Policy, stats: Stats, now: int): (Policy, Option<Profile>)
    requires p.current in p.profiles
  {
    if WarmingUp(p, now) then (ClearedButShortage(p), None) else Answer(Weigh(p, stats, now), now)
  }

  function Observe(p: Policy, stats: Stats, clock: Clock): (Policy, Option<Profile>)
    requires p.current in p.profiles
  {
    if !clock.Usable() || TooSoon(p, clock.t) then (p, None)
    else
      var sampled := Sampled(p, clock.t);
      if Waiting(sampled, clock.t) then (sampled, None) else JudgeSample(Released(sampled, clock.t), stats, clock.t)
  }

  /** Only the profile asked for last can be acknowledged, however late. */
  predicate Effective(p: Policy, profile: Profile, clock: Clock) {
    profile in p.profiles && clock.Usable() && p.lastRequested == Some(profile)
  }

  function Acknowledge(p: Policy, profile: Profile, clock: Clock): Policy {
    if !Effective(p, profile, clock) then p
    else Cleared(p).(current := profile, pending := None, lastRequested := None, unacknowledged := 0,
                     lastChangeAt := Some(clock.t))
  }

  datatype Event =
    | Report(bps: Option<int>, ageMs: Option<int>, clock: Clock)
    | Sample(stats: Stats, clock: Clock)
    | Ack(profile: Profile, clock: Clock)

  function Step(p: Policy, e: Event): (Policy, Option<Profile>)
    requires p.current in p.profiles
  {
    match e
    case Report(bps, ageMs, clock) => ObserveBandwidth(p, bps, ageMs, clock)
    case Sample(stats, clock) => Observe(p, stats, clock)
    case Ack(profile, clock) => (Acknowledge(p, profile, clock), None)
  }

  function Initial(offered: set<Profile>, current: Profile): Policy
    requires current in offered
  {
    Policy(Supported(PROFILE_ORDER, offered), current, None, None, None, 0, 0, None, None, None, 0, false, None, None, None)
  }

  // ---------- The invariant ----------

  ghost predicate Valid(p: Policy) {
    && Ordered(p.profiles) && p.current in p.profiles
    && p.lowFpsSamples <= p.badSamples
    && p.unacknowledged <= 3
    && (p.pending.Some? ==>
          && p.lastRequested == Some(p.pending.value.profile)
          && p.badSamples == 0 && p.goodSince.None? && p.shortage.None?)
    && (p.lastRequested.Some? ==> p.lastRequested.value in p.profiles && p.lastRequested.value != p.current)
    && (p.unacknowledged > 0 <==> p.lastRequested.Some?)
  }

  lemma IndexIs(profiles: seq<Profile>, i: nat)
    requires Ordered(profiles) && i < |profiles|
    ensures profiles[i] in profiles && IndexOf(profiles, profiles[i]) == i
  {
    var j := IndexOf(profiles, profiles[i]);
    assert profiles[j].Rank() == profiles[i].Rank();
  }

  lemma LowerIsOther(profiles: seq<Profile>, p: Profile)
    requires Ordered(profiles) && p in profiles
    ensures forall q :: q in Lower(profiles, p) ==> q in profiles && q.Rank() > p.Rank()
    ensures NextUp(profiles, p).Some? ==> NextUp(profiles, p).value in profiles && NextUp(profiles, p).value.Rank() < p.Rank()
  {
    var i := IndexOf(profiles, p);
    forall q | q in Lower(profiles, p)
      ensures q in profiles && q.Rank() > p.Rank()
    {
      var k :| 0 <= k < |Lower(profiles, p)| && Lower(profiles, p)[k] == q;
      assert profiles[i + 1 + k] == q;
    }
  }

  /** What one event may do: keep the invariant, ask for another supported profile, and change the
      current profile only when the last request is acknowledged. */
  ghost predicate Proper(p: Policy, after: Policy, asked: Option<Profile>) {
    && Valid(after) && after.profiles == p.profiles && after.current == p.current
    && (asked.Some? ==>
          asked.value in p.profiles && asked.value != p.current && after.lastRequested == asked)
  }

  lemma RequestIsProper(p: Policy, profile: Profile, now: int)
    requires Valid(p.(badSamples := 0, lowFpsSamples := 0, goodSince := None, shortage := None))
    requires profile in p.profiles && profile != p.current && p.lowFpsSamples <= p.badSamples && p.pending.None?
    ensures Proper(p, Request(p, profile, now).0, Request(p, profile, now).1)
  {
  }

  lemma EstimatedIsValid(p: Policy, bps: int, ageMs: int, now: int)
    requires Valid(p)
    ensures
      var q := Estimated(Heard(p, now), bps, ageMs, now);
      Valid(q) && q.profiles == p.profiles && q.current == p.current
  {
  }

  lemma ReportIsProper(p: Policy, bps: Option<int>, ageMs: Option<int>, clock: Clock)
    requires Valid(p)
    ensures Proper(p, ObserveBandwidth(p, bps, ageMs, clock).0, ObserveBandwidth(p, bps, ageMs, clock).1)
  {
    if clock.Usable() && ValidReport(bps, ageMs) {
      EstimatedIsValid(p, bps.value, ageMs.value, clock.t);
      var estimated := Estimated(Heard(p, clock.t), bps.value, ageMs.value, clock.t);
      if !Waiting(estimated, clock.t) {
        ReleasedIsValid(estimated, clock.t);
        JudgeIsProper(Released(estimated, clock.t), bps.value, clock.t);
      }
    }
  }

  lemma ShortageIsProper(p: Policy, s: Shortage, target: Profile, now: int)
    requires Valid(p) && p.pending.None? && target in p.profiles && target != p.current
    ensures Proper(p, p.(shortage := Some(s)), None)
    ensures Proper(p, Request(p.(shortage := Some(s)), target, now).0, Request(p.(shortage := Some(s)), target, now).1)
  {
  }

  lemma JudgeIsProper(p: Policy, bps: int, now: int)
    requires Valid(p) && p.pending.None?
    ensures Proper(p, JudgeReport(p, bps, now).0, JudgeReport(p, bps, now).1)
  {
    LowerIsOther(p.profiles, p.current);
    if !(bps >= p.current.MinBps() || Lower(p.profiles, p.current) == []) {
      ShortageIsProper(p, Lengthened(p, bps, now), BestFit(Lower(p.profiles, p.current), bps), now);
    }
  }

  lemma SampleIsProper(p: Policy, stats: Stats, clock: Clock)
    requires Valid(p)
    ensures Proper(p, Observe(p, stats, clock).0, Observe(p, stats, clock).1)
  {
    if clock.Usable() && !TooSoon(p, clock.t) {
      SampledIsValid(p, clock.t);
      var sampled := Sampled(p, clock.t);
      if !Waiting(sampled, clock.t) {
        ReleasedIsValid(sampled, clock.t);
        JudgeSampleIsProper(Released(sampled, clock.t), stats, clock.t);
      }
    }
  }

  lemma SampledIsValid(p: Policy, now: int)
    requires Valid(p)
    ensures Valid(Sampled(p, now))
  {
  }

  lemma ReleasedIsValid(p: Policy, now: int)
    requires Valid(p) && !Waiting(p, now)
    ensures Valid(Released(p, now)) && Released(p, now).pending.None?
  {
  }

  lemma JudgeSampleIsProper(p: Policy, stats: Stats, now: int)
    requires Valid(p) && p.pending.None?
    ensures Proper(p, JudgeSample(p, stats, now).0, JudgeSample(p, stats, now).1)
  {
    if !WarmingUp(p, now) {
      var weighed := Weigh(p, stats, now);
      assert Valid(weighed);
      WantedIsOther(weighed, now);
      var wanted := Wanted(weighed, now);
      if wanted.Some? { RequestIsProper(weighed, wanted.value, now); }
    }
  }

  lemma WantedIsOther(p: Policy, now: int)
    requires Ordered(p.profiles) && p.current in p.profiles
    ensures Wanted(p, now).Some? ==> Wanted(p, now).value in p.profiles && Wanted(p, now).value != p.current
    ensures Wanted(p, now).Some? ==>
      (if p.badSamples >= 3 || p.lowFpsSamples >= 3 then Wanted(p, now).value.Rank() > p.current.Rank()
       else Wanted(p, now).value.Rank() < p.current.Rank() && p.goodSince.Some? && now - p.goodSince.value >= 6_000)
  {
    LowerIsOther(p.profiles, p.current);
  }

  /** Every event keeps the invariant; what it asks for is a supported profile other than the current
      one, and the profile changes only by an effective acknowledgement of the last request. */
  lemma StepKeepsValid(p: Policy, e: Event)
    requires Valid(p)
    ensures Valid(Step(p, e).0) && Step(p, e).0.profiles == p.profiles
    ensures Step(p, e).1.Some? ==>
      Step(p, e).1.value in p.profiles && Step(p, e).1.value != p.current && Step(p, e).0.lastRequested == Step(p, e).1
    ensures Step(p, e).0.current ==
      if e.Ack? && Effective(p, e.profile, e.clock) then p.lastRequested.value else p.current
  {
    match e
    case Report(bps, ageMs, clock) => ReportIsProper(p, bps, ageMs, clock);
    case Sample(stats, clock) => SampleIsProper(p, stats, clock);
    case Ack(_, _) =>
  }

  // ---------- The object ----------

  class AdaptiveVideoPolicy {
    const profiles: seq<Profile>
    var current: Profile
    var firstSampleAt: Option<int>
    var lastSampleAt: Option<int>
    var lastChangeAt: Option<int>
    var badSamples: nat
    var lowFpsSamples: nat
    var goodSince: Option<int>
    var pending: Option<Pending>
    var lastRequested: Option<Profile>
    var unacknowledged: nat
    var feedback: bool
    var bandwidth: Option<Estimate>
    var lastBandwidthAt: Option<int>
    var shortage: Option<Shortage>

    constructor (offered: set<Profile>, current: Profile)
      requires current in offered
      ensures State() == Initial(offered, current)
    {
      this.profiles, this.current := Supported(PROFILE_ORDER, offered), current;
      firstSampleAt, lastSampleAt, lastChangeAt := None, None, None;
      badSamples, lowFpsSamples, goodSince := 0, 0, None;
      pending, lastRequested, unacknowledged := None, None, 0;
      feedback, bandwidth, lastBandwidthAt, shortage := false, None, None, None;
    }

    function State(): Policy
      reads this
    {
      Policy(profiles, current, firstSampleAt, lastSampleAt, lastChangeAt, badSamples, lowFpsSamples, goodSince,
        pending, lastRequested, unacknowledged, feedback, bandwidth, lastBandwidthAt, shortage)
    }

    method ClearEvidence()
      modifies this
      ensures State() == Cleared(old(State()))
    {
      badSamples, lowFpsSamples, goodSince, shortage := 0, 0, None, None;
    }

    method WaitingForAck(now: int) returns (waiting: bool)
      modifies this
      ensures waiting == Waiting(old(State()), now) && State() == Released(old(State()), now)
    {
      if pending.None? { return false; }
      if now - pending.value.requestedAt < 5_000 { return true; }
      pending := None;
      ClearEvidence();
      waiting := false;
    }

    method RequestProfile(profile: Profile, now: int) returns (asked: Option<Profile>)
      modifies this
      ensures (State(), asked) == Request(old(State()), profile, now)
    {
      if unacknowledged >= 3 { return None; }
      pending, lastRequested := Some(Pending(profile, now)), Some(profile);
      unacknowledged := unacknowledged + 1;
      ClearEvidence();
      asked := Some(profile);
    }

    method HearReport(now: int)
      modifies this
      ensures State() == Heard(old(State()), now)
    {
      if !feedback {
        feedback := true;
        ClearEvidence();
      }
      if lastBandwidthAt.None? || now - lastBandwidthAt.value <= 0 || now - lastBandwidthAt.value > BANDWIDTH_MAX_AGE_MS {
        shortage, goodSince := None, None;
      }
      lastBandwidthAt := Some(now);
    }

    method TakeEstimate(bps: int, ageMs: int, now: int)
      requires current in profiles
      modifies this
      ensures State() == Estimated(old(State()), bps, ageMs, now)
    {
      bandwidth := Some(Estimate(bps, now - ageMs));
      if !HasBudget(State(), now) { goodSince := None; }
    }

    method ObserveReport(bps: Option<int>, ageMs: Option<int>, clock: Clock) returns (asked: Option<Profile>)
      requires current in profiles
      modifies this
      ensures (State(), asked) == ObserveBandwidth(old(State()), bps, ageMs, clock)
    {
      if !clock.Usable() { return None; }
      HearReport(clock.t);
      if !ValidReport(bps, ageMs) {
        bandwidth, shortage, goodSince := None, None, None;
        return None;
      }
      TakeEstimate(bps.value, ageMs.value, clock.t);
      var waiting := WaitingForAck(clock.t);
      if waiting { return None; }
      asked := JudgeShortage(bps.value, clock.t);
    }

    method JudgeShortage(bps: int, now: int) returns (asked: Option<Profile>)
      requires current in profiles
      modifies this
      ensures (State(), asked) == JudgeReport(old(State()), bps, now)
    {
      var lower := Lower(profiles, current);
      if bps >= current.MinBps() || lower == [] {
        shortage := None;
        return None;
      }
      var target := BestFit(lower, bps);
      var severe := Severe(profiles, current, bps);
      if shortage.None? { shortage := Some(Shortage(now, None)); }
      var severeSince := if severe then (if shortage.value.severeSince.Some? then shortage.value.severeSince else Some(now)) else None;
      shortage := Some(Shortage(shortage.value.since, severeSince));
      var sustained := now - shortage.value.since >= 1_000;
      var collapsed := severeSince.Some? && now - severeSince.value >= 500;
      if !sustained && !collapsed { return None; }
      asked := RequestProfile(target, now);
    }

    /** The bandwidth evidence is independent of the samples and outlives them. */
    method ClearSampleEvidence()
      modifies this
      ensures State() == ClearedButShortage(old(State()))
    {
      var bandwidthEvidence := shortage;
      ClearEvidence();
      shortage := bandwidthEvidence;
    }

    method TakeSample(now: int)
      modifies this
      ensures State() == Sampled(old(State()), now)
    {
      if lastSampleAt.None? || now - lastSampleAt.value <= 0 || now - lastSampleAt.value > MAX_SAMPLE_GAP_MS {
        firstSampleAt := Some(now);
        ClearSampleEvidence();
      }
      lastSampleAt := Some(now);
    }

    method WeighSample(stats: Stats, now: int)
      requires current in profiles
      modifies this
      ensures State() == Weigh(old(State()), stats, now)
    {
      lowFpsSamples := if stats.LowFps() then lowFpsSamples + 1 else 0;
      if stats.Impaired() {
        badSamples := badSamples + 1;
        goodSince := None;
      } else {
        badSamples := 0;
        goodSince := if stats.Healthy() && HasBudget(State(), now) then (if goodSince.Some? then goodSince else Some(now)) else None;
      }
    }

    method ObserveSample(stats: Stats, clock: Clock) returns (asked: Option<Profile>)
      requires current in profiles
      modifies this
      ensures (State(), asked) == Observe(old(State()), stats, clock)
    {
      if !clock.Usable() { return None; }
      var now := clock.t;
      if lastSampleAt.Some? && 0 < now - lastSampleAt.value < 750 { return None; }
      TakeSample(now);
      var waiting := WaitingForAck(now);
      if waiting { return None; }
      if WarmingUp(State(), now) {
        ClearSampleEvidence();
        return None;
      }
      WeighSample(stats, now);
      var next := Wanted(State(), now);
      if next.None? { return None; }
      asked := RequestProfile(next.value, now);
    }

    method AcknowledgeProfile(profile: Profile, clock: Clock)
      modifies this
      ensures State() == Acknowledge(old(State()), profile, clock)
    {
      if profile !in profiles || !clock.Usable() || lastRequested != Some(profile) { return; }
      current := profile;
      pending := None;
      lastRequested := None;
      unacknowledged := 0;
      lastChangeAt := Some(clock.t);
      ClearEvidence();
    }
  }
}

/** A steady link: one estimate and no impaired samples. The profile then moves one way only, unless a request
    from before is still outstanding that the link does not justify; that one can cause one stale change. */
module VideoSteady {
  import opened AdaptiveVideo
  import opened VideoLaw
  import opened VideoEvidence
  import opened VideoPrompt

  /** No impaired sample, and no valid report of any estimate but bps. */
  predicate Steady(e: Event, bps: int) {
    match e
    case Report(b, ageMs, _) => ValidReport(b, ageMs) ==> b == Some(bps)
    case Sample(stats, _) => !stats.Impaired()
    case Ack(_, _) => true
  }

  /** Feedback has begun and knows no other estimate. */
  predicate Knows(p: Policy, bps: int) {
    p.feedback && (p.bandwidth.Some? ==> p.bandwidth.value.bps == bps)
  }

  /** The only requests a steady link can justify: one place up if that is affordable with a quarter to spare,
      or down to the best fit if the current profile is not affordable. */
  ghost predicate Justified(profiles: seq<Profile>, current: Profile, asked: Profile, bps: int)
    requires current in profiles
  {
    || (NextUp(profiles, current) == Some(asked) && bps * 4 >= asked.MinBps() * 5)
    || (bps < current.MinBps() && Lower(profiles, current) != [] && asked == BestFit(Lower(profiles, current), bps))
  }

  lemma SteadyStep(p: Policy, e: Event, q: Policy, asked: Option<Profile>, bps: int)
    requires p.current in p.profiles && StepLaw(p, e, q, asked) && Knows(p, bps) && Steady(e, bps)
    ensures Knows(q, bps)
    ensures asked.Some? ==> Justified(p.profiles, p.current, asked.value, bps)
  {
    if asked.Some? && e.Sample? {
      assert SampleAsks(p, e.stats, e.clock.t, asked.value);
    }
  }

  /** The best fit below an unaffordable profile is where a steady link stops. */
  lemma BestFitIsFinal(profiles: seq<Profile>, from: Profile, asked: Profile, bps: int)
    requires Ordered(profiles) && from in profiles && bps < from.MinBps() && Lower(profiles, from) != []
    ensures BestFit(Lower(profiles, from), bps) in profiles
    ensures !Justified(profiles, BestFit(Lower(profiles, from), bps), asked, bps)
  {
    var lower := Lower(profiles, from);
    LowerIsOther(profiles, from);
    LowerIsOrdered(profiles, from);
    BestFitIsBest(lower, bps);
    NothingBetween(profiles, from, BestFit(lower, bps), bps);
    if BestFit(lower, bps).MinBps() > bps { NothingBelowLast(profiles, from); }
  }

  lemma LowerIsOrdered(profiles: seq<Profile>, p: Profile)
    requires Ordered(profiles) && p in profiles
    ensures Ordered(Lower(profiles, p))
  {
  }

  lemma NothingBelowLast(profiles: seq<Profile>, from: Profile)
    requires Ordered(profiles) && from in profiles && Lower(profiles, from) != []
    ensures
      var lower := Lower(profiles, from);
      lower[|lower| - 1] in profiles && Lower(profiles, lower[|lower| - 1]) == []
  {
    var lower := Lower(profiles, from);
    assert lower[|lower| - 1] == profiles[|profiles| - 1];
    IndexIs(profiles, |profiles| - 1);
  }

  /** Going down from an unaffordable profile to its best fit passes only unaffordable ones. */
  lemma NothingBetween(profiles: seq<Profile>, from: Profile, to: Profile, bps: int)
    requires Ordered(profiles) && from in profiles && to in profiles && from.Rank() < to.Rank() && bps < from.MinBps()
    requires forall q :: q in Lower(profiles, from) && q.Rank() < to.Rank() ==> q.MinBps() > bps
    ensures NextUp(profiles, to).Some? && NextUp(profiles, to).value.MinBps() > bps
  {
    var i, j := IndexOf(profiles, from), IndexOf(profiles, to);
    assert i < j;
    var above := profiles[j - 1];
    if j - 1 > i {
      assert Lower(profiles, from)[j - 2 - i] == above;
      assert above.Rank() < to.Rank();
    }
  }

  lemma AffordableOnlyRises(profiles: seq<Profile>, from: Profile, asked: Profile, bps: int)
    requires Ordered(profiles) && from in profiles && bps >= from.MinBps() && Justified(profiles, from, asked, bps)
    ensures asked.Rank() < from.Rank() && bps >= asked.MinBps()
  {
    LowerIsOther(profiles, from);
  }

  /** Where a steady link can be: still affordable, if it was; else where it began, or at the best fit below. */
  ghost predicate OneWay(profiles: seq<Profile>, from: Profile, current: Profile, bps: int)
    requires from in profiles
  {
    if bps >= from.MinBps() then bps >= current.MinBps() && current.Rank() <= from.Rank()
    else || current == from
         || (Lower(profiles, from) != [] && current == BestFit(Lower(profiles, from), bps))
  }

  /** What may be asked for, or be outstanding, on a link that was steady since profile `from`. */
  ghost predicate Heading(profiles: seq<Profile>, from: Profile, current: Profile, asked: Profile, bps: int)
    requires from in profiles
  {
    if bps >= from.MinBps() then asked.Rank() < current.Rank() && bps >= asked.MinBps()
    else current == from && Lower(profiles, from) != [] && asked == BestFit(Lower(profiles, from), bps)
  }

  /** Nothing is outstanding, or only a request that fits the link: an affordable better profile, or the best fit
      below an unaffordable one. */
  ghost predicate Ready(p: Policy, bps: int)
    requires p.current in p.profiles
  {
    p.lastRequested.Some? ==> Heading(p.profiles, p.current, p.current, p.lastRequested.value, bps)
  }

  lemma SteadyRequest(profiles: seq<Profile>, from: Profile, current: Profile, asked: Profile, bps: int)
    requires Ordered(profiles) && from in profiles && current in profiles
    requires OneWay(profiles, from, current, bps) && Justified(profiles, current, asked, bps)
    ensures Heading(profiles, from, current, asked, bps)
  {
    if bps >= from.MinBps() {
      AffordableOnlyRises(profiles, current, asked, bps);
    } else if current != from {
      BestFitIsFinal(profiles, from, asked, bps);
    } else {
      LowerIsOther(profiles, from);
    }
  }

  // ---------- The one-way law ----------

  ghost predicate SteadyFrom(t: Trace, m: nat, n: nat, bps: int)
    requires n <= |t.events|
  {
    forall k :: m <= k < n ==> Steady(t.events[k], bps)
  }

  /** The law of one event, seen from moment m. If the profile at m was affordable, only affordable better ones are
      asked for and the profile never falls; if it was not, only its best fit is asked for and nothing after that. */
  ghost predicate OneWayStep(t: Trace, m: nat, n: nat, bps: int)
    requires IsTrace(t) && m <= n < |t.events|
  {
    StatesAreValid(t, m);
    var profiles, from := t.states[m].profiles, t.states[m].current;
    var current, next := t.states[n].current, t.states[n + 1].current;
    && (t.asks[n].Some? ==> Heading(profiles, from, current, t.asks[n].value, bps))
    && if bps >= from.MinBps() then next.Rank() <= current.Rank() && bps >= next.MinBps()
       else next == current || Heading(profiles, from, current, next, bps)
  }

  /** One event keeps what a steady link keeps. */
  lemma OneWayGoesOn(profiles: seq<Profile>, from: Profile, p: Policy, e: Event, q: Policy, asked: Option<Profile>, bps: int)
    requires Valid(p) && p.profiles == profiles && from in profiles && StepLaw(p, e, q, asked) && Knows(p, bps) && Steady(e, bps)
    requires q.current == if EffectiveAck(p, e) then p.lastRequested.value else p.current
    requires OneWay(profiles, from, p.current, bps)
    requires p.lastRequested.Some? ==> Heading(profiles, from, p.current, p.lastRequested.value, bps)
    ensures Knows(q, bps) && OneWay(profiles, from, q.current, bps)
    ensures q.lastRequested.Some? ==> Heading(profiles, from, q.current, q.lastRequested.value, bps)
  {
    SteadyStep(p, e, q, asked, bps);
    if asked.Some? { SteadyRequest(profiles, from, p.current, asked.value, bps); }
  }

  /** From a state that is ready for the link, what the link keeps. */
  lemma {:induction false} SteadyLinkIsOneWay(t: Trace, m: nat, n: nat, bps: int)
    requires IsTrace(t) && m <= n <= |t.events| && SteadyFrom(t, m, n, bps)
    requires Valid(t.states[m]) && Knows(t.states[m], bps) && Ready(t.states[m], bps)
    ensures Valid(t.states[n]) && t.states[n].profiles == t.states[m].profiles && Knows(t.states[n], bps)
    ensures OneWay(t.states[m].profiles, t.states[m].current, t.states[n].current, bps)
    ensures t.states[n].lastRequested.Some? ==>
      Heading(t.states[m].profiles, t.states[m].current, t.states[n].current, t.states[n].lastRequested.value, bps)
  {
    if n > m {
      SteadyLinkIsOneWay(t, m, n - 1, bps);
      NextFacts(t, n - 1);
      OneWayGoesOn(t.states[m].profiles, t.states[m].current, t.states[n - 1], t.events[n - 1], t.states[n], t.asks[n - 1], bps);
    }
  }

  /** Once feedback has begun, a steady link moves the profile in one direction only, from any state whose
      outstanding request, if there is one, fits the link. */
  lemma SteadyLinkNeverSwings(t: Trace, m: nat, n: nat, bps: int)
    requires IsTrace(t) && m <= n < |t.events| && SteadyFrom(t, m, n + 1, bps)
    requires Valid(t.states[m]) && Knows(t.states[m], bps) && Ready(t.states[m], bps)
    ensures OneWayStep(t, m, n, bps)
  {
    SteadyLinkIsOneWay(t, m, n, bps);
    SteadyLinkIsOneWay(t, m, n + 1, bps);
    LawHolds(t, n);
    RequestsAreSupported(t, n);
    var p := t.states[n];
    SteadyStep(p, t.events[n], t.states[n + 1], t.asks[n], bps);
    if t.asks[n].Some? { SteadyRequest(t.states[m].profiles, t.states[m].current, p.current, t.asks[n].value, bps); }
  }

  // ---------- Outstanding requests that do not fit ----------

  /** The law fails at once if a request that does not fit is acknowledged. */
  lemma UnfitRequestSwings(p: Policy, bps: int)
    requires Valid(p) && !Ready(p, bps)
    ensures exists t :: IsTrace(t) && t.states[0] == p && |t.events| == 1 && SteadyFrom(t, 0, 1, bps) && !OneWayStep(t, 0, 0, bps)
  {
    var asked := p.lastRequested.value;
    var late := Ack(asked, Ms(0));
    EveryRunHasTrace(p, [late]);
    var t :| IsTrace(t) && t.events == [late] && t.states[0] == p;
    RequestsAreSupported(t, 0);
    assert t.states[1].current == asked;
    assert asked.Rank() == p.current.Rank() ==> asked == p.current;
    assert !OneWayStep(t, 0, 0, bps);
  }

  /** Exactly from the ready states does every steady run obey the one-way law. */
  lemma OneWayIff(p: Policy, bps: int)
    requires Valid(p) && Knows(p, bps)
    ensures Ready(p, bps) <==>
      forall t, n: nat :: IsTrace(t) && t.states[0] == p && n < |t.events| && SteadyFrom(t, 0, n + 1, bps) ==> OneWayStep(t, 0, n, bps)
  {
    if Ready(p, bps) {
      forall t, n: nat | IsTrace(t) && t.states[0] == p && n < |t.events| && SteadyFrom(t, 0, n + 1, bps)
        ensures OneWayStep(t, 0, n, bps)
      {
        SteadyLinkNeverSwings(t, 0, n, bps);
      }
    } else {
      UnfitRequestSwings(p, bps);
    }
  }

  /** From any state at all with feedback, a steady link makes at most one change that breaks the law, and only by
      acknowledging the request outstanding at the start: up to moment s the profile stays, at s it is the same
      or the one that was asked for, and from s on the law holds. */
  lemma {:induction false} StaleRequestChangesOnce(t: Trace, m: nat, n: nat, bps: int) returns (s: nat)
    requires IsTrace(t) && m <= n <= |t.events| && SteadyFrom(t, m, n, bps) && Knows(t.states[m], bps)
    ensures m <= s <= n
    ensures forall k :: m <= k < s ==> t.states[k].current == t.states[m].current
    ensures t.states[s].current == t.states[m].current || Some(t.states[s].current) == t.states[m].lastRequested
    ensures forall k :: s <= k < n ==> OneWayStep(t, s, k, bps)
    decreases n - m
  {
    StatesAreValid(t, m);
    if m == n || Ready(t.states[m], bps) {
      s := m;
      LawFromReady(t, m, n, bps);
    } else {
      StaleStep(t, m, bps);
      if t.states[m + 1].lastRequested == t.states[m].lastRequested {
        s := StaleRequestChangesOnce(t, m + 1, n, bps);
      } else {
        s := m + 1;
        LawFromReady(t, s, n, bps);
      }
    }
  }

  lemma LawFromReady(t: Trace, m: nat, n: nat, bps: int)
    requires IsTrace(t) && m <= n <= |t.events| && SteadyFrom(t, m, n, bps) && Knows(t.states[m], bps)
    requires Valid(t.states[m]) && (m == n || Ready(t.states[m], bps))
    ensures forall k :: m <= k < n ==> OneWayStep(t, m, k, bps)
  {
    forall k | m <= k < n
      ensures OneWayStep(t, m, k, bps)
    {
      SteadyLinkNeverSwings(t, m, k, bps);
    }
  }

  /** One event on a steady link: once the outstanding request is acknowledged or replaced, the state is ready. */
  lemma NextIsReady(p: Policy, e: Event, q: Policy, asked: Option<Profile>, bps: int)
    requires Valid(p) && Valid(q) && q.profiles == p.profiles && StepLaw(p, e, q, asked) && Knows(p, bps) && Steady(e, bps)
    requires q.current == if EffectiveAck(p, e) then p.lastRequested.value else p.current
    ensures Knows(q, bps) && (q.lastRequested != p.lastRequested ==> Ready(q, bps))
    ensures q.current == p.current || (Some(q.current) == p.lastRequested && q.lastRequested != p.lastRequested)
  {
    SteadyStep(p, e, q, asked, bps);
    if asked.Some? { SteadyRequest(p.profiles, p.current, p.current, asked.value, bps); }
  }

  lemma StaleStep(t: Trace, m: nat, bps: int)
    requires IsTrace(t) && m < |t.events| && Steady(t.events[m], bps) && Knows(t.states[m], bps)
    ensures Valid(t.states[m]) && Valid(t.states[m + 1]) && Knows(t.states[m + 1], bps)
    ensures
      var p, q := t.states[m], t.states[m + 1];
      && (q.lastRequested != p.lastRequested ==> Ready(q, bps))
      && (q.current == p.current || (Some(q.current) == p.lastRequested && q.lastRequested != p.lastRequested))
  {
    StatesAreValid(t, m);
    NextFacts(t, m);
    NextIsReady(t.states[m], t.events[m], t.states[m + 1], t.asks[m], bps);
  }

  // ---------- Such a request can be reached ----------

  const Everything: set<Profile> := {P720p60, P720p30, P540p30, P360p30, P240p30}

  lemma {:induction false} SupportedAll(order: seq<Profile>, offered: set<Profile>)
    requires Ordered(order) && forall p :: p in order ==> p in offered
    ensures Supported(order, offered) == order
  {
    if order != [] { SupportedAll(order[1..], offered); }
  }

  function Told(bps: int, at: int): Event { Report(Some(bps), Some(0), Ms(at)) }

  lemma OrderFacts()
    ensures Lower(PROFILE_ORDER, P720p60) == [P720p30, P540p30, P360p30, P240p30]
    ensures BestFit(Lower(PROFILE_ORDER, P720p60), 900_000) == P540p30
    ensures NextUp(PROFILE_ORDER, P540p30) == Some(P720p30)
  {
    var lower := [P720p30, P540p30, P360p30, P240p30];
    assert Lower(PROFILE_ORDER, P720p60) == lower;
    assert lower[1..][0] == P540p30;
    IndexIs(PROFILE_ORDER, 2);
  }

  /** Two low reports a second apart, a rich one, and a late acknowledgement. */
  function StaleEvents(): seq<Event> {
    [Told(900_000, 0), Told(900_000, 1_000), Told(10_000_000, 2_000), Ack(P540p30, Ms(3_000))]
  }

  ghost predicate StaleRun(t: Trace) {
    && IsTrace(t) && t.events == StaleEvents()
    && t.states[0].profiles == PROFILE_ORDER && t.states[0].current == P720p60 && Unstarted(t.states[0])
  }

  lemma FirstReportWaits(t: Trace)
    requires StaleRun(t)
    ensures t.asks[0].None? && t.states[1].current == P720p60
  {
    LawHolds(t, 0);
    RequestsAreSupported(t, 0);
  }

  lemma ReportsAreLow(t: Trace)
    requires StaleRun(t)
    ensures LowRun(t, 0, 2, false)
  {
    FirstReportWaits(t);
    assert LastReport(t.events, 1) == Some(0) by { assert LastReport(t.events, 0) == None; }
    assert Unbroken(t, 0, 0, false) && Unbroken(t, 0, 1, false);
  }

  lemma StartCanFall(p: Policy)
    requires p.profiles == PROFILE_ORDER && p.current == P720p60 && p.unacknowledged == 0
    ensures CanFall(p)
  {
    OrderFacts();
  }

  lemma SecondReportAsks(t: Trace)
    requires StaleRun(t)
    ensures t.states[2].lastRequested == Some(P540p30) && t.states[2].current == P720p60
  {
    FirstReportWaits(t);
    ReportsAreLow(t);
    StartCanFall(t.states[0]);
    assert NothingAsked(t, 0, 1);
    LowRunsAreAnswered(t, 0, 1, false);
    StatesAreValid(t, 1);
    SecondAnswerIs(t);
  }

  lemma SecondAnswerIs(t: Trace)
    requires StaleRun(t) && t.states[1].current == P720p60 && t.states[1].profiles == PROFILE_ORDER
    requires t.asks[1] == Some(BestFit(Lower(PROFILE_ORDER, P720p60), 900_000))
    ensures t.states[2].lastRequested == Some(P540p30) && t.states[2].current == P720p60
  {
    OrderFacts();
    LawHolds(t, 1);
    RequestsAreSupported(t, 1);
  }

  lemma ThirdReportRecovers(t: Trace)
    requires StaleRun(t)
    ensures Knows(t.states[3], 10_000_000) && t.states[3].lastRequested == Some(P540p30) && t.states[3].current == P720p60
  {
    SecondReportAsks(t);
    LawHolds(t, 2);
    RequestsAreSupported(t, 2);
  }

  lemma RunFromStartIsStale(t: Trace)
    requires IsTrace(t) && t.events == StaleEvents() && t.states[0] == Initial(Everything, P720p60)
    ensures StaleRun(t)
  {
    InitialProfiles();
    InitialIsUnstarted(Everything, P720p60);
  }

  lemma InitialProfiles()
    ensures Initial(Everything, P720p60).profiles == PROFILE_ORDER
  {
    SupportedAll(PROFILE_ORDER, Everything);
  }

  lemma LateAckLowers(t: Trace)
    requires StaleRun(t)
    ensures t.states[4].current == P540p30
  {
    ThirdReportRecovers(t);
    StatesAreValid(t, 3);
    RequestsAreSupported(t, 3);
  }

  /** After a shortage and a recovery, with a steady estimate of 10,000,000, the late acknowledgement lowers an
      affordable profile. */
  lemma StaleRunBreaksLaw(t: Trace)
    requires StaleRun(t)
    ensures Knows(t.states[3], 10_000_000) && SteadyFrom(t, 3, 4, 10_000_000) && !OneWayStep(t, 3, 3, 10_000_000)
    ensures t.states[3].current == P720p60 && t.states[4].current == P540p30
  {
    ThirdReportRecovers(t);
    LateAckLowers(t);
    LowerIsWorse(t, 3, 10_000_000);
  }

  /** The link is steady at 10,000,000 from event 3 on, which lowers the affordable profile; and from the lower one the
      way back up is justified. */
  ghost predicate Swings(t: Trace) {
    && IsTrace(t) && t.states[0] == Initial(Everything, P720p60) && |t.events| == 4
    && Knows(t.states[3], 10_000_000) && SteadyFrom(t, 3, 4, 10_000_000) && !OneWayStep(t, 3, 3, 10_000_000)
    && t.states[3].current == P720p60 && t.states[4].current == P540p30
    && P540p30 in PROFILE_ORDER && Justified(PROFILE_ORDER, P540p30, P720p30, 10_000_000)
  }

  /** A request that does not fit is reached from the start. */
  lemma StaleRequestIsReal()
    ensures exists t :: Swings(t)
  {
    StartIsValid();
    EveryRunHasTrace(Initial(Everything, P720p60), StaleEvents());
    var t :| IsTrace(t) && t.events == StaleEvents() && t.states[0] == Initial(Everything, P720p60);
    RunFromStartIsStale(t);
    StaleRunBreaksLaw(t);
    WayBackIsJustified();
    assert Swings(t);
  }

  lemma StartIsValid()
    ensures Valid(Initial(Everything, P720p60))
  {
    InitialIsUnstarted(Everything, P720p60);
  }

  lemma WayBackIsJustified()
    ensures P540p30 in PROFILE_ORDER && Justified(PROFILE_ORDER, P540p30, P720p30, 10_000_000)
  {
    OrderFacts();
  }

  lemma LowerIsWorse(t: Trace, n: nat, bps: int)
    requires IsTrace(t) && n < |t.events| && bps >= t.states[n].current.MinBps()
    requires t.states[n + 1].current.Rank() > t.states[n].current.Rank()
    ensures !OneWayStep(t, n, n, bps)
  {
  }
}

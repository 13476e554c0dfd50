/** Bounded waiting. The queue's table is driven by single statements from many transactions; this
    module follows one waiting driver through an arbitrary run of them and bounds the time until the
    driver holds an offer. */
module FairWaiting {
  import opened LiveQueue

  datatype Statement =
    | Tick(now: int, capacity: nat)
    | Insert(id: EntryId, user: UserId, joinedAt: int)
    | Refresh(id: EntryId, until: int)
    | LeaveUser(user: UserId, at: int)
    | Accept(id: EntryId)
    | Close(ids: set<EntryId>, at: int)

  function RefreshRow(rows: seq<Entry>, id: EntryId, until: int): (after: seq<Entry>)
    ensures |after| == |rows|
    ensures forall i :: 0 <= i < |rows| ==>
      after[i] == if rows[i].id == id && rows[i].status.Waiting? then rows[i].(expiresAt := until) else rows[i]
  {
    seq(|rows|, i requires 0 <= i < |rows| =>
      if rows[i].id == id && rows[i].status.Waiting? then rows[i].(expiresAt := until) else rows[i])
  }

  function Apply(rows: seq<Entry>, s: Statement): seq<Entry> {
    match s
    case Tick(now, capacity) => AdvanceRows(rows, capacity, now)
    case Insert(id, user, joinedAt) => InsertRow(rows, id, user, joinedAt)
    case Refresh(id, until) => RefreshRow(rows, id, until)
    case LeaveUser(user, at) => LeaveRows(rows, user, at)
    case Accept(id) => SetStatus(rows, id, Accepted)
    case Close(ids, at) => CloseRows(rows, ids, at)
  }

  function Fold<S, A>(state: S, run: seq<A>, f: (S, A) -> S): S
    decreases |run|
  {
    if run == [] then state else Fold(f(state, run[0]), run[1..], f)
  }

  lemma {:induction false} FoldAppend<S, A>(state: S, a: seq<A>, b: seq<A>, f: (S, A) -> S)
    ensures Fold(state, a + b, f) == Fold(Fold(state, a, f), b, f)
    decreases |a|
  {
    if a == [] {
      assert a + b == b;
    } else {
      FoldAppend(f(state, a[0]), a[1..], b, f);
      assert (a + b)[0] == a[0] && (a + b)[1..] == a[1..] + b;
    }
  }

  function Run(rows: seq<Entry>, run: seq<Statement>): seq<Entry> {
    Fold(rows, run, Apply)
  }

  lemma RunAppend(rows: seq<Entry>, a: seq<Statement>, b: seq<Statement>)
    ensures Run(rows, a + b) == Run(Run(rows, a), b)
  {
    FoldAppend(rows, a, b, Apply);
  }

  // ---------- The driver at position p ----------

  /** What the driver at `p` needs of a statement: advances come in time, see a car and find an unexpired lease;
      joins come in the order of the queue's index; and the driver does not leave. */
  ghost predicate Patient(rows: seq<Entry>, s: Statement, p: nat, last: int, d: nat)
    requires p < |rows|
  {
    match s
    case Tick(now, capacity) =>
      last <= now <= last + d && capacity > 0 && !(rows[p].status.Waiting? && rows[p].expiresAt <= now)
    case Insert(id, _, joinedAt) => rows[p].joinedAt < joinedAt || (rows[p].joinedAt == joinedAt && rows[p].id < id)
    case LeaveUser(user, _) => user != rows[p].user
    case _ => true
  }

  /** A run that treats the driver at `p` fairly for as long as the driver holds no offer; after that anything
      may happen. */
  ghost predicate Fair(rows: seq<Entry>, run: seq<Statement>, p: nat, last: int, d: nat)
    decreases |run|
  {
    run == [] || (p < |rows| && (rows[p].status.Offered? || (
      && Patient(rows, run[0], p, last, d)
      && Fair(Apply(rows, run[0]), run[1..], p, if run[0].Tick? then run[0].now else last, d))))
  }

  /** What the transactions themselves see to: the table is in order, ids are fresh, and only an offered row is
      accepted, only an accepted one closed. */
  ghost predicate Sane(rows: seq<Entry>, s: Statement) {
    && InOrder(rows)
    && match s
       case Insert(id, _, _) => id !in Ids(rows)
       case Accept(id) => forall i :: 0 <= i < |rows| && rows[i].id == id ==> !rows[i].status.Waiting?
       case Close(ids, _) => forall i :: 0 <= i < |rows| && rows[i].id in ids ==> !rows[i].status.Waiting?
       case _ => true
  }

  ghost predicate SaneAt(rows: seq<Entry>, run: seq<Statement>, i: nat)
    requires i < |run|
  {
    Sane(Run(rows, run[..i]), run[i])
  }

  ghost predicate SaneRun(rows: seq<Entry>, run: seq<Statement>) {
    forall i :: 0 <= i < |run| ==> SaneAt(rows, run, i)
  }

  lemma SaneAppend(rows: seq<Entry>, a: seq<Statement>, b: seq<Statement>)
    requires SaneRun(rows, a) && SaneRun(Run(rows, a), b)
    ensures SaneRun(rows, a + b)
  {
    forall i | 0 <= i < |a + b|
      ensures SaneAt(rows, a + b, i)
    {
      if i < |a| {
        assert SaneAt(rows, a, i) && (a + b)[..i] == a[..i];
      } else {
        var j := i - |a|;
        assert SaneAt(Run(rows, a), b, j) && (a + b)[..i] == a + b[..j];
        RunAppend(rows, a, b[..j]);
      }
    }
  }

  /** The first statement is sane, and the rest is a sane run from what it leaves. */
  lemma SaneRest(rows: seq<Entry>, run: seq<Statement>)
    requires SaneRun(rows, run) && run != []
    ensures Sane(rows, run[0]) && SaneRun(Apply(rows, run[0]), run[1..])
  {
    assert SaneAt(rows, run, 0) && run[..0] == [];
    var next, rest := Apply(rows, run[0]), run[1..];
    forall i | 0 <= i < |rest|
      ensures SaneAt(next, rest, i)
    {
      assert SaneAt(rows, run, i + 1);
      assert run[..i + 1][0] == run[0] && run[..i + 1][1..] == rest[..i];
    }
  }

  /** Some advance of the run, at time `bound` or earlier, leaves the driver at `p` with an offer. */
  ghost predicate OfferedBy(rows: seq<Entry>, run: seq<Statement>, p: nat, bound: int)
    decreases |run|
  {
    run != [] && (
      var after := Apply(rows, run[0]);
      || (run[0].Tick? && run[0].now <= bound && p < |after| && after[p].status.Offered?)
      || OfferedBy(after, run[1..], p, bound))
  }

  ghost predicate OffersWithin(rows: seq<Entry>, t: int) {
    forall i :: 0 <= i < |rows| && rows[i].status.Offered? ==> rows[i].expiresAt <= t + 15_000
  }

  /** Up to and including the driver, rows keep their places; a row that is still live kept its
      status and a kept offer kept its deadline. */
  ghost predicate Calm(rows: seq<Entry>, after: seq<Entry>, p: nat) {
    && p < |rows| && p < |after|
    && (forall i :: 0 <= i <= p && after[i].Live() ==>
          && rows[i].status == after[i].status
          && (after[i].status.Offered? ==> rows[i].expiresAt == after[i].expiresAt))
  }

  lemma PatientIsCalm(rows: seq<Entry>, s: Statement, p: nat, last: int, d: nat)
    requires p < |rows| && rows[p].status.Waiting? && !s.Tick? && Sane(rows, s) && Patient(rows, s, p, last, d)
    ensures Calm(rows, Apply(rows, s), p) && Apply(rows, s)[p].status.Waiting?
  {
    if s.Insert? && !HasLiveRow(rows, s.user) {
      assert forall i :: 0 <= i < |rows| ==> rows[i].id in Ids(rows);
      var e := Entry(s.id, s.user, Waiting, s.joinedAt, s.joinedAt + QUEUE_LEASE_MS);
      var q := PlaceRowAt(rows, e);
      assert rows[p].Before(e);
      assert p < q;
      assert forall i :: 0 <= i <= p ==> (rows[..q] + [e] + rows[q..])[i] == rows[i];
    }
  }

  // ---------- The head of the line ----------

  function FirstLive(rows: seq<Entry>, from: nat): (h: nat)
    requires from < |rows| && exists i :: from <= i < |rows| && rows[i].Live()
    ensures from <= h < |rows| && rows[h].Live()
    ensures forall i :: from <= i < h ==> !rows[i].Live()
    decreases |rows| - from
  {
    if rows[from].Live() then from else FirstLive(rows, from + 1)
  }

  lemma {:induction false} NobodyAhead(rows: seq<Entry>, h: nat)
    requires h <= |rows| && forall i :: 0 <= i < h ==> !rows[i].Live()
    ensures Ahead(rows, h) == 0
  {
    if h > 0 {
      NobodyAhead(rows, h - 1);
      assert rows[..h][..h - 1] == rows[..h - 1];
    }
  }

  lemma {:induction false} AheadShrinks(rows: seq<Entry>, after: seq<Entry>, p: nat)
    requires p <= |rows| && p <= |after|
    requires forall i :: 0 <= i < p && after[i].Live() ==> rows[i].Live()
    ensures Ahead(after, p) <= Ahead(rows, p)
    ensures (exists i :: 0 <= i < p && rows[i].Live() && !after[i].Live()) ==> Ahead(after, p) < Ahead(rows, p)
  {
    if p > 0 {
      AheadShrinks(rows, after, p - 1);
      assert rows[..p][..p - 1] == rows[..p - 1] && after[..p][..p - 1] == after[..p - 1];
    }
  }

  /** The latest time at which the driver at `p` can still be without an offer. */
  ghost function Horizon(rows: seq<Entry>, p: nat, d: nat): int
    requires p < |rows| && rows[p].Live()
  {
    rows[FirstLive(rows, 0)].expiresAt + d + (Ahead(rows, p) - 1) * (15_000 + d)
  }

  /** How the table stands right after an advance at `t` that left the driver at `p` waiting. */
  ghost predicate JustAdvanced(rows: seq<Entry>, p: nat, t: int) {
    && p < |rows| && rows[p].status.Waiting?
    && OffersWithin(rows, t)
    && Ahead(rows, p) > 0
    && var head := rows[FirstLive(rows, 0)]; head.status.Offered? && t < head.expiresAt
  }

  lemma AdvanceLeavesHead(rows: seq<Entry>, capacity: nat, t: int, now: int, p: nat)
    requires p < |rows| && rows[p].Live() && OffersWithin(rows, t) && t <= now && capacity > 0
    requires !(rows[p].status.Waiting? && rows[p].expiresAt <= now)
    ensures var after := AdvanceRows(rows, capacity, now);
      && |after| == |rows|
      && (rows[p].status.Waiting? ==> after[p].status.Offered? || JustAdvanced(after, p, now))
  {
    var after := AdvanceRows(rows, capacity, now);
    AdvanceKeepsRows(rows, capacity, now);
    AdvanceRowOutcome(rows, capacity, now, p);
    OnlyAdvancesOffer(rows, Tick(now, capacity), now);
    if after[p].status.Waiting? {
      var h := FirstLive(after, 0);
      NobodyAhead(after, h);
      AdvanceRowOutcome(rows, capacity, now, h);
    }
  }

  /** While the driver waits, the horizon never moves away: either the head of the line is the same
      offer, or that offer is gone and the new head, offered no later than `now`, has one person
      fewer between it and the driver. */
  lemma HorizonNeverRecedes(start: seq<Entry>, rows: seq<Entry>, p: nat, t: int, now: int, d: nat, capacity: nat)
    requires JustAdvanced(start, p, t) && Calm(start, rows, p) && rows[p].Live()
    requires t <= now <= t + d && capacity > 0
    requires JustAdvanced(AdvanceRows(rows, capacity, now), p, now)
    ensures Horizon(AdvanceRows(rows, capacity, now), p, d) <= Horizon(start, p, d)
  {
    AdvanceKeepsRows(rows, capacity, now);
    if FirstLive(AdvanceRows(rows, capacity, now), 0) == FirstLive(start, 0) {
      AdvanceRowOutcome(rows, capacity, now, FirstLive(start, 0));
    }
    HorizonOf(start, AdvanceRows(rows, capacity, now), p, t, now, d);
  }

  /** The same, of two tables each just advanced, the second from one that had stayed calm. */
  lemma HorizonOf(start: seq<Entry>, after: seq<Entry>, p: nat, t: int, now: int, d: nat)
    requires JustAdvanced(start, p, t) && JustAdvanced(after, p, now) && now <= t + d
    requires forall i :: 0 <= i <= p && after[i].Live() ==> start[i].Live()
    requires FirstLive(after, 0) == FirstLive(start, 0) ==> after[FirstLive(after, 0)].expiresAt == start[FirstLive(start, 0)].expiresAt
    ensures Horizon(after, p, d) <= Horizon(start, p, d)
  {
    var old_head, head := FirstLive(start, 0), FirstLive(after, 0);
    if head == old_head {
      AheadShrinks(start, after, p);
      Scale(Ahead(after, p), Ahead(start, p), d);
    } else {
      HeadIsGone(start, after, p);
      Receding(after[head].expiresAt, start[old_head].expiresAt, Ahead(after, p), Ahead(start, p), t, now, d);
    }
  }

  lemma HeadIsGone(start: seq<Entry>, after: seq<Entry>, p: nat)
    requires p < |start| && p < |after| && start[p].Live() && after[p].Live()
    requires forall i :: 0 <= i <= p && after[i].Live() ==> start[i].Live()
    requires FirstLive(start, 0) != FirstLive(after, 0)
    ensures Ahead(after, p) < Ahead(start, p)
  {
    AheadShrinks(start, after, p);
    var old_head := FirstLive(start, 0);
    assert old_head < p;
    assert !after[old_head].Live();
  }

  /** A new offer at the head, one person fewer behind it. */
  lemma Receding(offer: int, lapsed: int, ahead: int, before: int, t: int, now: int, d: nat)
    requires ahead <= before - 1 && offer <= now + 15_000 && now <= t + d && t < lapsed
    ensures offer + d + (ahead - 1) * (15_000 + d) <= lapsed + d + (before - 1) * (15_000 + d)
  {
    Scale(ahead, before - 1, d);
    assert (before - 1 - 1) * (15_000 + d) + (15_000 + d) == (before - 1) * (15_000 + d);
  }

  lemma Scale(a: int, b: int, d: nat)
    requires a <= b
    ensures (a - 1) * (15_000 + d) <= (b - 1) * (15_000 + d)
  {
  }

  lemma {:induction false} WaitingEnds(start: seq<Entry>, rows: seq<Entry>, run: seq<Statement>, p: nat, last: int, d: nat, bound: int)
    requires JustAdvanced(start, p, last) && Calm(start, rows, p) && rows[p].Live()
    requires OffersWithin(rows, last)
    requires Horizon(start, p, d) <= bound
    requires Fair(rows, run, p, last, d) && SaneRun(rows, run)
    requires exists s :: s in run && s.Tick? && s.now >= bound
    ensures OfferedBy(rows, run, p, bound)
    decreases |run|
  {
    var s, rest := run[0], run[1..];
    var after := Apply(rows, s);
    SaneRest(rows, run);
    if s.Tick? {
      AdvanceLeavesHead(rows, s.capacity, last, s.now, p);
      HorizonAhead(start, p, last, d);
      if !after[p].status.Offered? {
        HorizonNeverRecedes(start, rows, p, last, s.now, d, s.capacity);
        HorizonAhead(after, p, s.now, d);
        LaterTick(run, bound);
        WaitingEnds(after, after, rest, p, s.now, d, bound);
      }
    } else {
      PatientIsCalm(rows, s, p, last, d);
      OnlyAdvancesOffer(rows, s, last);
      LaterTick(run, bound);
      WaitingEnds(start, after, rest, p, last, d, bound);
    }
  }

  lemma HorizonAhead(rows: seq<Entry>, p: nat, t: int, d: nat)
    requires JustAdvanced(rows, p, t)
    ensures t + d < Horizon(rows, p, d)
  {
    Scale(1, Ahead(rows, p), d);
  }

  lemma {:induction false} PlacedIsOldOrNew(rows: seq<Entry>, e: Entry)
    ensures forall i :: 0 <= i < |PlaceRow(rows, e)| ==> PlaceRow(rows, e)[i] in rows || PlaceRow(rows, e)[i] == e
  {
    if rows != [] && e.Before(rows[|rows| - 1]) {
      PlacedIsOldOrNew(rows[..|rows| - 1], e);
    }
  }

  /** Only an advance makes offers, and each is short. */
  lemma OnlyAdvancesOffer(rows: seq<Entry>, s: Statement, t: int)
    requires OffersWithin(rows, t) && (s.Tick? ==> s.now <= t)
    ensures OffersWithin(Apply(rows, s), t)
  {
    match s
    case Tick(now, capacity) =>
      AdvanceKeepsRows(rows, capacity, now);
      var after := AdvanceRows(rows, capacity, now);
      forall i | 0 <= i < |after| && after[i].status.Offered?
        ensures after[i].expiresAt <= t + 15_000
      {
        AdvanceRowOutcome(rows, capacity, now, i);
      }
    case Insert(id, user, joinedAt) =>
      PlacedIsOldOrNew(rows, Entry(id, user, Waiting, joinedAt, joinedAt + QUEUE_LEASE_MS));
    case _ =>
  }

  lemma LaterTick(run: seq<Statement>, bound: int)
    requires run != [] && (run[0].Tick? ==> run[0].now < bound)
    requires exists s :: s in run && s.Tick? && s.now >= bound
    ensures exists s :: s in run[1..] && s.Tick? && s.now >= bound
  {
    var s :| s in run && s.Tick? && s.now >= bound;
    assert run == [run[0]] + run[1..];
    assert s in run[1..];
  }

  /** Bounded waiting: a driver with k people ahead at the first advance holds an offer no later than
      k * (15000 + d) ms after it, however capacity fluctuates and whatever the others do. */
  lemma BoundedWaiting(rows: seq<Entry>, run: seq<Statement>, p: nat, d: nat, bound: int)
    requires p < |rows| && rows[p].status.Waiting?
    requires run != [] && run[0].Tick? && OffersWithin(rows, run[0].now)
    requires Fair(rows, run, p, run[0].now, d) && SaneRun(rows, run)
    requires bound == run[0].now + Ahead(rows, p) * (15_000 + d)
    requires exists s :: s in run && s.Tick? && s.now >= bound
    ensures OfferedBy(rows, run, p, bound)
  {
    var first, rest := run[0], run[1..];
    var after := Apply(rows, first);
    SaneRest(rows, run);
    AdvanceLeavesHead(rows, first.capacity, first.now, first.now, p);
    if after[p].status.Offered? {
      assert bound >= first.now;
    } else {
      AdvanceKeepsRows(rows, first.capacity, first.now);
      AheadShrinks(rows, after, p);
      HorizonAtStart(after, p, first.now, Ahead(rows, p), d);
      LaterTick(run, bound);
      WaitingEnds(after, after, rest, p, first.now, d, bound);
    }
  }

  lemma HorizonAtStart(rows: seq<Entry>, p: nat, t: int, k: nat, d: nat)
    requires JustAdvanced(rows, p, t) && Ahead(rows, p) <= k
    ensures t < Horizon(rows, p, d) <= t + k * (15_000 + d)
  {
    Scale(Ahead(rows, p), k, d);
    Scale(1, Ahead(rows, p), d);
    assert (k - 1) * (15_000 + d) + (15_000 + d) == k * (15_000 + d);
  }
}

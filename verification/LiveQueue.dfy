/** The live queue: one table of rows, kept in the order of the queue's index (joined-at, then id),
    and the statements the web app runs on it. The advance is the heart: it expires lapsed leases,
    walks the live rows in order and hands out as many offers as there are cars. */
module LiveQueue {

  const QUEUE_LEASE_MS: int := 60_000
  const QUEUE_OFFER_MS: int := 15_000

  type UserId(==, !new)

  /** Row ids are compared with `<` only to break ties between rows that joined at the same instant. */
  type EntryId = nat

  datatype Option<+T> = None | Some(value: T)

  datatype Status = Waiting | Offered | Accepted | Missed | Expired | Left

  datatype Entry = Entry(id: EntryId, user: UserId, status: Status, joinedAt: int, expiresAt: int)
  {
    predicate Live() { status.Waiting? || status.Offered? }

    predicate Before(other: Entry) {
      joinedAt < other.joinedAt || (joinedAt == other.joinedAt && id < other.id)
    }
  }

  // ---------- Shape of the table ----------

  ghost predicate InOrder(rows: seq<Entry>) {
    forall i, j :: 0 <= i < j < |rows| ==> rows[i].Before(rows[j])
  }

  ghost predicate DistinctIds(rows: seq<Entry>) {
    forall i, j :: 0 <= i < j < |rows| ==> rows[i].id != rows[j].id
  }

  /** The unique index on live rows: a user waits at most once. */
  ghost predicate OneLiveRowPerUser(rows: seq<Entry>) {
    forall i, j :: 0 <= i < j < |rows| && rows[i].Live() && rows[j].Live() ==> rows[i].user != rows[j].user
  }

  ghost predicate ValidTable(rows: seq<Entry>) {
    InOrder(rows) && DistinctIds(rows) && OneLiveRowPerUser(rows)
  }

  ghost function Ids(rows: seq<Entry>): set<EntryId> {
    set i | 0 <= i < |rows| :: rows[i].id
  }

  ghost function AcceptedIds(rows: seq<Entry>): set<EntryId> {
    set i | 0 <= i < |rows| && rows[i].status.Accepted? :: rows[i].id
  }

  function LiveRows(rows: seq<Entry>): seq<Entry> {
    if rows == [] then []
    else
      var last := rows[|rows| - 1];
      LiveRows(rows[..|rows| - 1]) + if last.Live() then [last] else []
  }

  function LiveCount(rows: seq<Entry>): nat {
    |LiveRows(rows)|
  }

  lemma {:induction false} LiveRowsAppend(a: seq<Entry>, b: seq<Entry>)
    ensures LiveRows(a + b) == LiveRows(a) + LiveRows(b)
  {
    if b == [] {
      assert a + b == a;
    } else {
      var n := |b| - 1;
      LiveRowsAppend(a, b[..n]);
      assert (a + b)[..|a + b| - 1] == a + b[..n];
    }
  }

  /** Where a live row of the table stands in the list of live rows. */
  lemma LiveRowsAt(rows: seq<Entry>, i: nat)
    requires i < |rows| && rows[i].Live()
    ensures LiveCount(rows[..i]) < LiveCount(rows)
    ensures LiveRows(rows)[LiveCount(rows[..i])] == rows[i]
  {
    assert rows == rows[..i] + ([rows[i]] + rows[i + 1..]);
    LiveRowsAppend(rows[..i], [rows[i]] + rows[i + 1..]);
    LiveRowsAppend([rows[i]], rows[i + 1..]);
    assert LiveRows([rows[i]]) == [rows[i]];
  }

  /** Every listed live row sits in the table, with exactly its list position of live rows ahead. */
  lemma {:induction false} LiveRowsFrom(rows: seq<Entry>, k: nat) returns (i: nat)
    requires k < LiveCount(rows)
    ensures i < |rows| && rows[i].Live() && LiveRows(rows)[k] == rows[i] && LiveCount(rows[..i]) == k
  {
    var n := |rows| - 1;
    if k < LiveCount(rows[..n]) {
      i := LiveRowsFrom(rows[..n], k);
      assert rows[..n][..i] == rows[..i];
    } else {
      i := n;
    }
  }

  lemma {:induction false} LiveCountMonotone(rows: seq<Entry>, i: nat, j: nat)
    requires i <= j <= |rows|
    ensures LiveCount(rows[..i]) <= LiveCount(rows[..j])
    ensures LiveCount(rows[..j]) <= LiveCount(rows[..i]) + (j - i)
    decreases j
  {
    if i < j {
      LiveCountMonotone(rows, i, j - 1);
      assert rows[..j][..j - 1] == rows[..j - 1];
    }
  }

  // ---------- The advance ----------

  /** What one advance does to one row, given whether a car is still free for it. */
  function Advanced(e: Entry, eligible: bool, now: int): Entry {
    if e.status.Waiting? && e.expiresAt <= now then e.(status := Expired)
    else if !e.Live() then e
    else if e.status.Offered? && eligible && e.expiresAt <= now then e.(status := Missed)
    else
      var status := if eligible then Offered else Waiting;
      if e.status == status then e
      else e.(status := status, expiresAt := now + if eligible then QUEUE_OFFER_MS else QUEUE_LEASE_MS)
  }

  function AdvanceRows(rows: seq<Entry>, capacity: nat, now: int): seq<Entry> {
    if rows == [] then []
    else
      var done := AdvanceRows(rows[..|rows| - 1], capacity, now);
      done + [Advanced(rows[|rows| - 1], LiveCount(done) < capacity, now)]
  }

  /** The number of live rows in front of a position. */
  function Ahead(rows: seq<Entry>, i: nat): nat
    requires i <= |rows|
  {
    LiveCount(rows[..i])
  }

  ghost predicate RowLaw(rows: seq<Entry>, after: seq<Entry>, capacity: nat, now: int, i: nat)
    requires i < |rows| == |after|
  {
    after[i] == Advanced(rows[i], Ahead(after, i) < capacity, now)
  }

  /** The law of the advance, row by row and without recursion: a row is judged by the number of
      survivors in front of it. */
  ghost predicate AdvanceLaw(rows: seq<Entry>, after: seq<Entry>, capacity: nat, now: int) {
    |after| == |rows| && forall i :: 0 <= i < |rows| ==> RowLaw(rows, after, capacity, now, i)
  }

  lemma {:induction false} AdvanceObeysLaw(rows: seq<Entry>, capacity: nat, now: int)
    ensures AdvanceLaw(rows, AdvanceRows(rows, capacity, now), capacity, now)
  {
    if rows != [] {
      var n := |rows| - 1;
      AdvanceObeysLaw(rows[..n], capacity, now);
      var done := AdvanceRows(rows[..n], capacity, now);
      var after := AdvanceRows(rows, capacity, now);
      forall i | 0 <= i < |rows|
        ensures RowLaw(rows, after, capacity, now, i)
      {
        assert after[..i] == done[..i];
        if i == n {
          assert done[..i] == done;
        } else {
          assert RowLaw(rows[..n], done, capacity, now, i);
        }
      }
    }
  }

  lemma {:induction false} LawDeterminesAdvance(rows: seq<Entry>, after: seq<Entry>, capacity: nat, now: int)
    requires AdvanceLaw(rows, after, capacity, now)
    ensures after == AdvanceRows(rows, capacity, now)
  {
    if rows != [] {
      var n := |rows| - 1;
      forall i | 0 <= i < n
        ensures RowLaw(rows[..n], after[..n], capacity, now, i)
      {
        assert RowLaw(rows, after, capacity, now, i);
        assert after[..n][..i] == after[..i];
      }
      LawDeterminesAdvance(rows[..n], after[..n], capacity, now);
      assert RowLaw(rows, after, capacity, now, n);
      assert after == after[..n] + [after[n]];
    }
  }

  /** What never changes about a row, and what the survivors have in common. */
  lemma AdvanceKeepsRows(rows: seq<Entry>, capacity: nat, now: int)
    ensures var after := AdvanceRows(rows, capacity, now);
      && |after| == |rows|
      && forall i :: 0 <= i < |rows| ==>
           && after[i].id == rows[i].id && after[i].user == rows[i].user && after[i].joinedAt == rows[i].joinedAt
           && (!rows[i].Live() ==> after[i] == rows[i])
           && (after[i].Live() ==> rows[i].Live() && after[i].expiresAt > now)
           && (after[i].status.Accepted? <==> rows[i].status.Accepted?)
  {
    AdvanceObeysLaw(rows, capacity, now);
    var after := AdvanceRows(rows, capacity, now);
    forall i | 0 <= i < |rows|
      ensures after[i] == Advanced(rows[i], true, now) || after[i] == Advanced(rows[i], false, now)
    {
      assert RowLaw(rows, after, capacity, now, i);
    }
  }

  /** Each row's fate, deadline included, is fixed by the number of survivors in front of it. */
  lemma AdvanceRowOutcome(rows: seq<Entry>, capacity: nat, now: int, i: nat)
    requires i < |rows|
    ensures var after := AdvanceRows(rows, capacity, now);
      && |after| == |rows|
      && (after[i].Live() ==> after[i].status == if Ahead(after, i) < capacity then Offered else Waiting)
      && (after[i].status.Offered? ==>
            after[i].expiresAt == if rows[i].status.Offered? then rows[i].expiresAt else now + 15_000)
      && (after[i].status.Waiting? ==>
            after[i].expiresAt == if rows[i].status.Waiting? then rows[i].expiresAt else now + 60_000)
      && (rows[i].Live() && after[i].status.Expired? <==> rows[i].status.Waiting? && rows[i].expiresAt <= now)
      && (rows[i].Live() && after[i].status.Missed? <==>
            rows[i].status.Offered? && rows[i].expiresAt <= now && Ahead(after, i) < capacity)
      && (rows[i].Live() && !after[i].Live() ==> after[i].status.Expired? || after[i].status.Missed?)
  {
    AdvanceObeysLaw(rows, capacity, now);
    assert RowLaw(rows, AdvanceRows(rows, capacity, now), capacity, now, i);
  }

  /** Main law, read off the list of survivors: it is the live list in its old order with the lapsed
      and missed rows taken out, exactly its first `capacity` members hold offers, and all of them
      outlive `now`. */
  lemma AdvanceOutcome(rows: seq<Entry>, capacity: nat, now: int, k: nat)
    requires k < LiveCount(AdvanceRows(rows, capacity, now))
    ensures var survivors := LiveRows(AdvanceRows(rows, capacity, now));
      && survivors[k].status == (if k < capacity then Offered else Waiting)
      && survivors[k].expiresAt > now
      && (exists i :: 0 <= i < |rows| && rows[i].Live() && rows[i].id == survivors[k].id && rows[i].user == survivors[k].user)
      && forall m :: 0 <= m < k && InOrder(rows) ==> survivors[m].Before(survivors[k])
  {
    var after := AdvanceRows(rows, capacity, now);
    AdvanceKeepsRows(rows, capacity, now);
    var i := LiveRowsFrom(after, k);
    AdvanceRowOutcome(rows, capacity, now, i);
    forall m | 0 <= m < k && InOrder(rows)
      ensures LiveRows(after)[m].Before(LiveRows(after)[k])
    {
      var j := LiveRowsFrom(after, m);
      if i <= j { LiveCountMonotone(after, i, j); }
    }
  }

  lemma AdvanceKeepsTable(rows: seq<Entry>, capacity: nat, now: int)
    requires ValidTable(rows)
    ensures ValidTable(AdvanceRows(rows, capacity, now))
    ensures Ids(AdvanceRows(rows, capacity, now)) == Ids(rows)
    ensures AcceptedIds(AdvanceRows(rows, capacity, now)) == AcceptedIds(rows)
  {
    AdvanceKeepsRows(rows, capacity, now);
    SameIds(rows, AdvanceRows(rows, capacity, now));
  }

  ghost predicate SettledRow(rows: seq<Entry>, capacity: nat, now: int, i: nat)
    requires i < |rows|
  {
    rows[i].Live() ==>
      rows[i].expiresAt > now && rows[i].status == if Ahead(rows, i) < capacity then Offered else Waiting
  }

  /** A table whose live rows already stand as an advance would leave them. */
  ghost predicate Settled(rows: seq<Entry>, capacity: nat, now: int) {
    forall i :: 0 <= i < |rows| ==> SettledRow(rows, capacity, now, i)
  }

  lemma AdvanceSettles(rows: seq<Entry>, capacity: nat, now: int)
    ensures Settled(AdvanceRows(rows, capacity, now), capacity, now)
  {
    AdvanceKeepsRows(rows, capacity, now);
    var after := AdvanceRows(rows, capacity, now);
    forall i | 0 <= i < |after|
      ensures SettledRow(after, capacity, now, i)
    {
      AdvanceRowOutcome(rows, capacity, now, i);
    }
  }

  /** Exactly the settled tables are left alone by an advance. */
  lemma AdvanceFixpoint(rows: seq<Entry>, capacity: nat, now: int)
    ensures AdvanceRows(rows, capacity, now) == rows <==> Settled(rows, capacity, now)
  {
    AdvanceSettles(rows, capacity, now);
    if Settled(rows, capacity, now) {
      forall i | 0 <= i < |rows|
        ensures RowLaw(rows, rows, capacity, now, i)
      {
        assert SettledRow(rows, capacity, now, i);
      }
      LawDeterminesAdvance(rows, rows, capacity, now);
    }
  }

  lemma AdvanceIsIdempotent(rows: seq<Entry>, capacity: nat, now: int)
    ensures AdvanceRows(AdvanceRows(rows, capacity, now), capacity, now) == AdvanceRows(rows, capacity, now)
  {
    AdvanceSettles(rows, capacity, now);
    AdvanceFixpoint(AdvanceRows(rows, capacity, now), capacity, now);
  }

  // ---------- The other statements on the table ----------

  function SetRow(rows: seq<Entry>, id: EntryId, status: Status, expiresAt: int): (after: seq<Entry>)
    ensures |after| == |rows|
    ensures forall i :: 0 <= i < |rows| ==>
      after[i] == if rows[i].id == id then rows[i].(status := status, expiresAt := expiresAt) else rows[i]
  {
    seq(|rows|, i requires 0 <= i < |rows| =>
      if rows[i].id == id then rows[i].(status := status, expiresAt := expiresAt) else rows[i])
  }

  function SetStatus(rows: seq<Entry>, id: EntryId, status: Status): (after: seq<Entry>)
    ensures |after| == |rows|
    ensures forall i :: 0 <= i < |rows| ==>
      after[i] == if rows[i].id == id then rows[i].(status := status) else rows[i]
  {
    seq(|rows|, i requires 0 <= i < |rows| => if rows[i].id == id then rows[i].(status := status) else rows[i])
  }

  function ExpireLapsed(rows: seq<Entry>, now: int): (after: seq<Entry>)
    ensures |after| == |rows|
    ensures forall i :: 0 <= i < |rows| ==>
      after[i] == if rows[i].status.Waiting? && rows[i].expiresAt <= now then rows[i].(status := Expired) else rows[i]
  {
    seq(|rows|, i requires 0 <= i < |rows| =>
      if rows[i].status.Waiting? && rows[i].expiresAt <= now then rows[i].(status := Expired) else rows[i])
  }

  function LeaveRows(rows: seq<Entry>, user: UserId, now: int): (after: seq<Entry>)
    ensures |after| == |rows|
    ensures forall i :: 0 <= i < |rows| ==>
      after[i] == if rows[i].user == user && rows[i].Live() then rows[i].(status := Left, expiresAt := now) else rows[i]
  {
    seq(|rows|, i requires 0 <= i < |rows| =>
      if rows[i].user == user && rows[i].Live() then rows[i].(status := Left, expiresAt := now) else rows[i])
  }

  /** The end of drive sessions: their queue rows are closed. */
  function CloseRows(rows: seq<Entry>, ids: set<EntryId>, now: int): (after: seq<Entry>)
    ensures |after| == |rows|
    ensures forall i :: 0 <= i < |rows| ==>
      after[i] == if rows[i].id in ids then rows[i].(status := Left, expiresAt := now) else rows[i]
  {
    seq(|rows|, i requires 0 <= i < |rows| =>
      if rows[i].id in ids then rows[i].(status := Left, expiresAt := now) else rows[i])
  }

  /** Whether the unique index on live rows turns an insert for this user away. */
  predicate HasLiveRow(rows: seq<Entry>, user: UserId) {
    exists i :: 0 <= i < |rows| && rows[i].user == user && rows[i].Live()
  }

  function PlaceRow(rows: seq<Entry>, e: Entry): (after: seq<Entry>)
    ensures |after| == |rows| + 1
  {
    if rows == [] || !e.Before(rows[|rows| - 1]) then rows + [e]
    else PlaceRow(rows[..|rows| - 1], e) + [rows[|rows| - 1]]
  }

  /** `insert … on conflict do nothing`: a new waiting row with a full lease. */
  function InsertRow(rows: seq<Entry>, id: EntryId, user: UserId, now: int): seq<Entry> {
    if HasLiveRow(rows, user) then rows
    else PlaceRow(rows, Entry(id, user, Waiting, now, now + QUEUE_LEASE_MS))
  }

  lemma {:induction false} PlaceRowAt(rows: seq<Entry>, e: Entry) returns (p: nat)
    requires InOrder(rows) && forall i :: 0 <= i < |rows| ==> rows[i].id != e.id
    ensures p <= |rows| && PlaceRow(rows, e) == rows[..p] + [e] + rows[p..]
    ensures forall i :: 0 <= i < p ==> rows[i].Before(e)
    ensures forall i :: p <= i < |rows| ==> e.Before(rows[i])
  {
    if rows == [] || !e.Before(rows[|rows| - 1]) {
      p := |rows|;
      assert rows[..p] == rows;
    } else {
      var n := |rows| - 1;
      p := PlaceRowAt(rows[..n], e);
      assert rows[p..] == rows[..n][p..] + [rows[n]];
    }
  }

  lemma InsertKeepsTable(rows: seq<Entry>, id: EntryId, user: UserId, now: int)
    requires ValidTable(rows) && id !in Ids(rows)
    ensures ValidTable(InsertRow(rows, id, user, now))
    ensures HasLiveRow(InsertRow(rows, id, user, now), user)
    ensures AcceptedIds(InsertRow(rows, id, user, now)) == AcceptedIds(rows)
    ensures Ids(rows) <= Ids(InsertRow(rows, id, user, now)) <= Ids(rows) + {id}
    ensures forall e :: e in rows ==> e in InsertRow(rows, id, user, now)
    ensures forall e :: e in InsertRow(rows, id, user, now) ==>
      e in rows || e == Entry(id, user, Waiting, now, now + QUEUE_LEASE_MS)
  {
    if !HasLiveRow(rows, user) {
      var e := Entry(id, user, Waiting, now, now + QUEUE_LEASE_MS);
      assert forall i :: 0 <= i < |rows| ==> rows[i].id in Ids(rows);
      var p := PlaceRowAt(rows, e);
      var after := PlaceRow(rows, e);
      PlacedKeepsTable(rows, after, p, e);
      PlacedMembers(rows, after, p, e);
      assert after[p] == e;
    }
  }

  lemma PlacedMembers(rows: seq<Entry>, after: seq<Entry>, p: nat, e: Entry)
    requires p <= |rows| && after == rows[..p] + [e] + rows[p..]
    ensures forall x :: x in after <==> x in rows || x == e
    ensures Ids(after) == Ids(rows) + {e.id}
    ensures !e.status.Accepted? ==> AcceptedIds(after) == AcceptedIds(rows)
  {
    assert rows == rows[..p] + rows[p..];
    assert forall x :: x in after <==> x in rows || x == e;
    IdsOf(rows);
    IdsOf(after);
  }

  lemma PlacedKeepsTable(rows: seq<Entry>, after: seq<Entry>, p: nat, e: Entry)
    requires ValidTable(rows) && p <= |rows| && after == rows[..p] + [e] + rows[p..]
    requires forall i :: 0 <= i < |rows| ==> rows[i].id != e.id
    requires forall i :: 0 <= i < |rows| && rows[i].Live() ==> rows[i].user != e.user
    requires forall i :: 0 <= i < p ==> rows[i].Before(e)
    requires forall i :: p <= i < |rows| ==> e.Before(rows[i])
    ensures ValidTable(after)
  {
  }

  lemma IdsOf(rows: seq<Entry>)
    ensures forall id :: id in Ids(rows) <==> exists e :: e in rows && e.id == id
    ensures forall id :: id in AcceptedIds(rows) <==> exists e :: e in rows && e.id == id && e.status.Accepted?
  {
  }

  // ---------- What a driver is shown ----------

  datatype Shown = Waits | Ready | Driving | LapsedOffer

  datatype Snapshot = Snapshot(entry: EntryId, position: nat, count: nat, available: nat, shown: Shown, offerExpiresAt: Option<int>)

  datatype JoinResult = Answer(snapshot: Snapshot) | EntryMissing

  function FindUser(entries: seq<Entry>, user: UserId): (index: Option<nat>)
    ensures index.Some? ==> index.value < |entries| && entries[index.value].user == user
    ensures index.Some? ==> forall i :: 0 <= i < index.value ==> entries[i].user != user
    ensures index.None? ==> forall i :: 0 <= i < |entries| ==> entries[i].user != user
  {
    if entries == [] then None
    else if entries[0].user == user then Some(0)
    else
      var rest := FindUser(entries[1..], user);
      assert forall i :: 0 < i < |entries| ==> entries[i] == entries[1..][i - 1];
      if rest.Some? then Some(rest.value + 1) else None
  }

  function QueueSnapshot(user: UserId, entries: seq<Entry>, available: nat): JoinResult {
    var index := FindUser(entries, user);
    if index.None? then EntryMissing
    else
      var entry := entries[index.value];
      var position := index.value + 1;
      var ready := available > 0 && position <= available && entry.status.Offered?;
      Answer(Snapshot(entry.id, position, |entries|, available, if ready then Ready else Waits,
        if ready then Some(entry.expiresAt) else None))
  }

  /** After an advance the page says "ready" exactly to those whose stored row is offered, with the
      stored deadline, and nobody with a live row is told that the row is missing. */
  lemma SnapshotAgrees(rows: seq<Entry>, capacity: nat, now: int, user: UserId)
    ensures var after := AdvanceRows(rows, capacity, now);
      var answer := QueueSnapshot(user, LiveRows(after), capacity);
      && (answer.EntryMissing? <==> !HasLiveRow(after, user))
      && (answer.Answer? ==>
            exists i :: 0 <= i < |after| && after[i].user == user && after[i].Live()
              && answer.snapshot.entry == after[i].id
              && answer.snapshot.position == Ahead(after, i) + 1
              && (answer.snapshot.shown.Ready? <==> after[i].status.Offered?)
              && answer.snapshot.offerExpiresAt == if after[i].status.Offered? then Some(after[i].expiresAt) else None)
  {
    var after := AdvanceRows(rows, capacity, now);
    AdvanceKeepsRows(rows, capacity, now);
    var index := FindUser(LiveRows(after), user);
    if index.Some? {
      var i := LiveRowsFrom(after, index.value);
      AdvanceRowOutcome(rows, capacity, now, i);
    }
    forall i | 0 <= i < |after| && after[i].user == user && after[i].Live()
      ensures index.Some?
    {
      LiveRowsAt(after, i);
    }
  }

  // ---------- Joining ----------

  /** The newest row of a user, live or not (`order by joined_at desc, id desc limit 1`). */
  function LastRowOf(rows: seq<Entry>, user: UserId): Option<Entry> {
    if rows == [] then None
    else if rows[|rows| - 1].user == user then Some(rows[|rows| - 1])
    else LastRowOf(rows[..|rows| - 1], user)
  }

  /** Whether polling must not put the user back: the last offer was missed and nobody pressed join. */
  predicate HeldBack(rows: seq<Entry>, user: UserId, explicitJoin: bool) {
    !HasLiveRow(rows, user) && !explicitJoin && LastRowOf(rows, user).Some? && LastRowOf(rows, user).value.status.Missed?
  }

  /** The middle of the join transaction, between its two advances: a new row, or a fresh lease for a
      waiting one; an offer is never prolonged. */
  function TakePlace(rows: seq<Entry>, user: UserId, now: int, newId: EntryId): seq<Entry> {
    var index := FindUser(LiveRows(rows), user);
    if index.None? then InsertRow(rows, newId, user, now)
    else
      var entry := LiveRows(rows)[index.value];
      if entry.status.Waiting? then SetRow(rows, entry.id, Waiting, now + QUEUE_LEASE_MS) else rows
  }

  lemma TakePlaceKeepsTable(rows: seq<Entry>, user: UserId, now: int, newId: EntryId)
    requires ValidTable(rows) && newId !in Ids(rows)
    ensures ValidTable(TakePlace(rows, user, now, newId))
    ensures HasLiveRow(TakePlace(rows, user, now, newId), user)
    ensures AcceptedIds(TakePlace(rows, user, now, newId)) == AcceptedIds(rows)
    ensures Ids(rows) <= Ids(TakePlace(rows, user, now, newId)) <= Ids(rows) + {newId}
  {
    var index := FindUser(LiveRows(rows), user);
    if index.None? {
      InsertKeepsTable(rows, newId, user, now);
    } else {
      var i := LiveRowsFrom(rows, index.value);
      var after := TakePlace(rows, user, now, newId);
      assert after[i].user == user && after[i].Live();
      assert forall j :: 0 <= j < |rows| ==>
        && rows[j].id == after[j].id && rows[j].user == after[j].user && rows[j].joinedAt == after[j].joinedAt
        && (rows[j].Live() <==> after[j].Live()) && (rows[j].status.Accepted? <==> after[j].status.Accepted?);
      SameIds(rows, after);
    }
  }

  lemma SameIds(rows: seq<Entry>, after: seq<Entry>)
    requires |after| == |rows|
    requires forall i :: 0 <= i < |rows| ==> after[i].id == rows[i].id
    ensures Ids(after) == Ids(rows)
    ensures (forall i :: 0 <= i < |rows| ==> (after[i].status.Accepted? <==> rows[i].status.Accepted?)) ==>
      AcceptedIds(after) == AcceptedIds(rows)
  {
    assert forall i :: 0 <= i < |rows| ==> rows[i].id in Ids(after) && after[i].id in Ids(rows);
    if forall i :: 0 <= i < |rows| ==> (after[i].status.Accepted? <==> rows[i].status.Accepted?) {
      assert forall i :: 0 <= i < |rows| && rows[i].status.Accepted? ==> after[i].id in AcceptedIds(after);
      assert forall i :: 0 <= i < |rows| && after[i].status.Accepted? ==> rows[i].id in AcceptedIds(rows);
    }
  }

  /** Joining is total: whatever happens to the fleet between the two advances of the transaction
      (two arbitrary capacities), every place that was live or just taken survives the second advance,
      so the user has a live row at the end and the "entry is missing" failure cannot occur. */
  lemma JoiningIsTotal(rows: seq<Entry>, user: UserId, now: int, newId: EntryId, first: nat, second: nat)
    requires ValidTable(rows) && newId !in Ids(rows)
    ensures var placed := TakePlace(AdvanceRows(rows, first, now), user, now, newId);
      var after := AdvanceRows(placed, second, now);
      && |after| == |placed|
      && (forall i :: 0 <= i < |placed| && placed[i].Live() ==> after[i].Live())
      && HasLiveRow(after, user)
      && QueueSnapshot(user, LiveRows(after), second).Answer?
  {
    var mid := AdvanceRows(rows, first, now);
    AdvanceKeepsTable(rows, first, now);
    AdvanceKeepsRows(rows, first, now);
    TakePlaceKeepsTable(mid, user, now, newId);
    var placed := TakePlace(mid, user, now, newId);
    TakenPlacesOutlive(mid, user, now, newId);
    AdvanceKeepsRows(placed, second, now);
    var after := AdvanceRows(placed, second, now);
    forall i | 0 <= i < |placed| && placed[i].Live()
      ensures after[i].Live()
    {
      AdvanceRowOutcome(placed, second, now, i);
    }
    var p :| 0 <= p < |placed| && placed[p].user == user && placed[p].Live();
    assert after[p].user == user && after[p].Live();
    SnapshotAgrees(placed, second, now, user);
  }

  lemma TakenPlacesOutlive(rows: seq<Entry>, user: UserId, now: int, newId: EntryId)
    requires ValidTable(rows) && newId !in Ids(rows)
    requires forall i :: 0 <= i < |rows| && rows[i].Live() ==> rows[i].expiresAt > now
    ensures var placed := TakePlace(rows, user, now, newId);
      forall i :: 0 <= i < |placed| && placed[i].Live() ==> placed[i].expiresAt > now
  {
    var placed := TakePlace(rows, user, now, newId);
    if FindUser(LiveRows(rows), user).None? {
      InsertKeepsTable(rows, newId, user, now);
      forall i | 0 <= i < |placed| && placed[i].Live()
        ensures placed[i].expiresAt > now
      {
        assert placed[i] in placed;
      }
    }
  }

  lemma TakenPlaceHasLease(rows: seq<Entry>, user: UserId, now: int, newId: EntryId, e: Entry)
    requires ValidTable(rows) && newId !in Ids(rows)
    requires e in TakePlace(rows, user, now, newId) && e.user == user && e.Live()
    ensures if e.status.Waiting? then e.expiresAt == now + 60_000 else e in rows
  {
    var index := FindUser(LiveRows(rows), user);
    if index.None? {
      InsertKeepsTable(rows, newId, user, now);
      if e in rows {
        var i :| 0 <= i < |rows| && rows[i] == e;
        LiveRowsAt(rows, i);
      }
    } else {
      var k := LiveRowsFrom(rows, index.value);
      var i :| 0 <= i < |rows| && TakePlace(rows, user, now, newId)[i] == e;
      assert i == k;
    }
  }

  predicate HeldOffer(rows: seq<Entry>, e: Entry) {
    exists j :: 0 <= j < |rows| && rows[j].id == e.id && rows[j].status.Offered? && rows[j].expiresAt == e.expiresAt
  }

  /** Every join and every poll renews the lease of a waiting driver in full, and prolongs no offer: an
      offered driver has the deadline from before, or a first one of 15 s. */
  lemma JoiningRenewsLease(rows: seq<Entry>, user: UserId, now: int, newId: EntryId, first: nat, second: nat, i: nat)
    requires ValidTable(rows) && newId !in Ids(rows)
    requires
      var after := AdvanceRows(TakePlace(AdvanceRows(rows, first, now), user, now, newId), second, now);
      i < |after| && after[i].user == user && after[i].Live()
    ensures
      var e := AdvanceRows(TakePlace(AdvanceRows(rows, first, now), user, now, newId), second, now)[i];
      if e.status.Waiting? then e.expiresAt == now + 60_000
      else e.expiresAt == now + 15_000 || HeldOffer(rows, e)
  {
    var mid := AdvanceRows(rows, first, now);
    var placed := TakePlace(mid, user, now, newId);
    AdvanceKeepsTable(rows, first, now);
    AdvanceKeepsRows(placed, second, now);
    AdvanceRowOutcome(placed, second, now, i);
    TakenPlaceHasLease(mid, user, now, newId, placed[i]);
    if placed[i].status.Offered? {
      var j :| 0 <= j < |mid| && mid[j] == placed[i];
      AdvanceKeepsRows(rows, first, now);
      AdvanceRowOutcome(rows, first, now, j);
    }
  }

  // ---------- Accepting an offer ----------

  /** What an advance would do to the others had nobody accepted, with the accepted row put in its place. */
  function WithoutRow(with: seq<Entry>, rows: seq<Entry>, p: nat): (after: seq<Entry>)
    requires p < |rows| == |with|
    ensures |after| == |with| && after[p] == rows[p].(status := Accepted)
    ensures forall i :: 0 <= i < |with| && i != p ==> after[i] == with[i]
  {
    with[p := rows[p].(status := Accepted)]
  }

  /** The row at i is missed by the offer that only the last car made. */
  ghost predicate MissedAtLast(rows: seq<Entry>, with: seq<Entry>, capacity: nat, i: nat)
    requires i < |rows| == |with|
  {
    rows[i].status.Offered? && with[i].status.Missed? && Ahead(with, i) + 1 >= capacity
  }

  /** Nothing in the advance hangs on the car that the driver at p takes: the driver would keep the offer, and
      nobody in front is missed by an offer that needs the last car. */
  ghost predicate Spares(rows: seq<Entry>, with: seq<Entry>, capacity: nat, p: nat)
    requires p < |rows| == |with|
  {
    with[p].status.Offered? && forall i :: 0 <= i < p ==> !MissedAtLast(rows, with, capacity, i)
  }

  lemma AheadWithout(rows: seq<Entry>, with: seq<Entry>, p: nat, i: nat)
    requires p < |rows| == |with| && i <= |rows|
    ensures Ahead(WithoutRow(with, rows, p), i) == Ahead(with, i) - if p < i && with[p].Live() then 1 else 0
  {
    var after := WithoutRow(with, rows, p);
    if with[p].Live() {
      LiveCountWithout(with, after, p, i);
    } else {
      SameCount(with, after, i);
    }
  }

  lemma {:induction false} SameCount(rows: seq<Entry>, after: seq<Entry>, i: nat)
    requires |after| == |rows| && i <= |rows|
    requires forall j :: 0 <= j < |rows| ==> (rows[j].Live() <==> after[j].Live())
    ensures Ahead(after, i) == Ahead(rows, i)
  {
    if i > 0 {
      SameCount(rows, after, i - 1);
      assert rows[..i][..i - 1] == rows[..i - 1] && after[..i][..i - 1] == after[..i - 1];
    }
  }

  lemma EarlierIsFewer(rows: seq<Entry>, i: nat, p: nat)
    requires i < p <= |rows|
    ensures Ahead(rows, i) + (if rows[i].Live() then 1 else 0) <= Ahead(rows, p)
  {
    assert rows[..p] == rows[..i] + [rows[i]] + rows[i + 1..p];
    LiveRowsAppend(rows[..i] + [rows[i]], rows[i + 1..p]);
    LiveRowsAppend(rows[..i], [rows[i]]);
    assert [rows[i]][..0] == [];
  }

  /** One row of the other advance: the same outcome, if the driver's car is spared. */
  lemma OtherRowAgrees(rows: seq<Entry>, capacity: nat, t: int, p: nat, i: nat)
    requires DistinctIds(rows) && capacity > 0 && p < |rows| && rows[p].status.Offered? && i < |rows|
    requires |AdvanceRows(rows, capacity, t)| == |rows| && Spares(rows, AdvanceRows(rows, capacity, t), capacity, p)
    ensures
      var accepted, target := SetStatus(rows, rows[p].id, Accepted), WithoutRow(AdvanceRows(rows, capacity, t), rows, p);
      RowLaw(accepted, target, capacity - 1, t, i)
  {
    var with := AdvanceRows(rows, capacity, t);
    var accepted := SetStatus(rows, rows[p].id, Accepted);
    AdvanceObeysLaw(rows, capacity, t);
    assert RowLaw(rows, with, capacity, t, i);
    AheadWithout(rows, with, p, i);
    AdvanceRowOutcome(rows, capacity, t, p);
    assert i != p ==> accepted[i] == rows[i];
    if i < p {
      EarlierIsFewer(with, i, p);
      assert !MissedAtLast(rows, with, capacity, i);
    }
  }

  lemma SparedCarCommutes(rows: seq<Entry>, with: seq<Entry>, capacity: nat, t: int, p: nat)
    requires DistinctIds(rows) && capacity > 0 && p < |rows| == |with| && rows[p].status.Offered?
    requires with == AdvanceRows(rows, capacity, t) && Spares(rows, with, capacity, p)
    ensures AdvanceRows(SetStatus(rows, rows[p].id, Accepted), capacity - 1, t) == WithoutRow(with, rows, p)
  {
    var accepted, target := SetStatus(rows, rows[p].id, Accepted), WithoutRow(with, rows, p);
    var left: nat := capacity - 1;
    forall i | 0 <= i < |rows|
      ensures RowLaw(accepted, target, left, t, i)
    {
      OtherRowAgrees(rows, capacity, t, p, i);
    }
    LawDeterminesAdvance(accepted, target, left, t);
  }

  /** If the car is not spared, a row in front of the driver's hangs on it: missed at the last car, or offered it. */
  lemma UnsparedRow(rows: seq<Entry>, capacity: nat, t: int, p: nat) returns (i: nat)
    requires capacity > 0 && p < |rows| && rows[p].status.Offered? && rows[p].expiresAt > t
    requires |AdvanceRows(rows, capacity, t)| == |rows| && !Spares(rows, AdvanceRows(rows, capacity, t), capacity, p)
    ensures i < p && Ahead(AdvanceRows(rows, capacity, t), i) + 1 >= capacity
    ensures
      var with := AdvanceRows(rows, capacity, t);
      with[i].status.Offered? || (rows[i].status.Offered? && with[i].status.Missed?)
  {
    var with := AdvanceRows(rows, capacity, t);
    AdvanceRowOutcome(rows, capacity, t, p);
    if with[p].status.Offered? {
      i :| i < p && MissedAtLast(rows, with, capacity, i);
    } else {
      LiveCountMonotone(with, p, |with|);
      assert with[..|with|] == with;
      i := LiveRowsFrom(with, capacity - 1);
      if p <= i { LiveCountMonotone(with, p, i); }
      AdvanceRowOutcome(rows, capacity, t, i);
    }
  }

  lemma UnsparedRowDiffers(rows: seq<Entry>, capacity: nat, t: int, p: nat)
    requires DistinctIds(rows) && capacity > 0 && p < |rows| && rows[p].status.Offered? && rows[p].expiresAt > t
    requires |AdvanceRows(rows, capacity, t)| == |rows| && !Spares(rows, AdvanceRows(rows, capacity, t), capacity, p)
    ensures
      AdvanceRows(SetStatus(rows, rows[p].id, Accepted), capacity - 1, t) != WithoutRow(AdvanceRows(rows, capacity, t), rows, p)
  {
    var with := AdvanceRows(rows, capacity, t);
    var i := UnsparedRow(rows, capacity, t, p);
    AheadWithout(rows, with, p, i);
    FullRowIsSpared(SetStatus(rows, rows[p].id, Accepted), capacity - 1, t, i);
  }

  /** With as many survivors in front as there are cars, no row is offered, and none that was offered is missed. */
  lemma FullRowIsSpared(rows: seq<Entry>, capacity: nat, t: int, i: nat)
    requires i < |rows|
    ensures |AdvanceRows(rows, capacity, t)| == |rows|
    ensures
      var after := AdvanceRows(rows, capacity, t);
      Ahead(after, i) >= capacity ==> !after[i].status.Offered? && (rows[i].status.Offered? ==> !after[i].status.Missed?)
  {
    AdvanceRowOutcome(rows, capacity, t, i);
  }

  /** A live row whose deadline is past t. */
  predicate IsFirm(e: Entry, t: int) { e.Live() && e.expiresAt > t }

  /** How many firm rows stand in front of a position. */
  function Firm(rows: seq<Entry>, t: int, i: nat): nat
    requires i <= |rows|
  {
    if i == 0 then 0 else Firm(rows, t, i - 1) + if IsFirm(rows[i - 1], t) then 1 else 0
  }

  /** The cars suffice for the driver at p whatever happens to the offers in front: with a car to spare, or with
      none if every offer in front that has lapsed has some firm row behind it, still in front of p. */
  ghost predicate RoomFor(rows: seq<Entry>, capacity: nat, t: int, p: nat)
    requires p < |rows|
  {
    || Firm(rows, t, p) + 1 < capacity
    || (Firm(rows, t, p) + 1 == capacity
        && forall i :: 0 <= i < p && rows[i].status.Offered? && rows[i].expiresAt <= t ==> Firm(rows, t, i) < Firm(rows, t, p))
  }

  lemma {:induction false} FirmRises(rows: seq<Entry>, t: int, i: nat, j: nat)
    requires i <= j <= |rows|
    ensures Firm(rows, t, i) <= Firm(rows, t, j)
  {
    if i < j { FirmRises(rows, t, i, j - 1); }
  }

  /** As long as there are cars, exactly the firm rows survive an advance. */
  lemma {:induction false} FirmSurvive(rows: seq<Entry>, capacity: nat, t: int, i: nat)
    requires i <= |rows| == |AdvanceRows(rows, capacity, t)|
    ensures
      var ahead := Ahead(AdvanceRows(rows, capacity, t), i);
      if Firm(rows, t, i) < capacity then ahead == Firm(rows, t, i) else ahead >= capacity
  {
    var with := AdvanceRows(rows, capacity, t);
    if i > 0 {
      FirmSurvive(rows, capacity, t, i - 1);
      AdvanceRowOutcome(rows, capacity, t, i - 1);
      AheadNext(with, i - 1);
      DeadStaysDead(rows, capacity, t, i - 1);
    }
  }

  lemma AheadNext(rows: seq<Entry>, i: nat)
    requires i < |rows|
    ensures Ahead(rows, i + 1) == Ahead(rows, i) + if rows[i].Live() then 1 else 0
  {
    assert rows[..i + 1][..i] == rows[..i];
  }

  lemma DeadStaysDead(rows: seq<Entry>, capacity: nat, t: int, i: nat)
    requires i < |rows| == |AdvanceRows(rows, capacity, t)|
    ensures AdvanceRows(rows, capacity, t)[i].Live() ==> rows[i].Live()
  {
    AdvanceKeepsRows(rows, capacity, t);
  }

  /** The driver's car is spared exactly if there is room. */
  lemma SparesIff(rows: seq<Entry>, capacity: nat, t: int, p: nat)
    requires capacity > 0 && p < |rows| == |AdvanceRows(rows, capacity, t)|
    requires rows[p].status.Offered? && rows[p].expiresAt > t
    ensures Spares(rows, AdvanceRows(rows, capacity, t), capacity, p) <==> RoomFor(rows, capacity, t, p)
  {
    var with := AdvanceRows(rows, capacity, t);
    FirmSurvive(rows, capacity, t, p);
    AdvanceRowOutcome(rows, capacity, t, p);
    forall i | 0 <= i < p
      ensures Firm(rows, t, p) < capacity ==>
        (MissedAtLast(rows, with, capacity, i) <==>
           rows[i].status.Offered? && rows[i].expiresAt <= t && Firm(rows, t, i) + 1 >= capacity)
    {
      FirmRises(rows, t, i, p);
      FirmSurvive(rows, capacity, t, i);
      AdvanceRowOutcome(rows, capacity, t, i);
    }
    forall i | 0 <= i < p
      ensures Firm(rows, t, i) <= Firm(rows, t, p)
    {
      FirmRises(rows, t, i, p);
    }
  }

  /** An advance after an acceptance, with one car fewer, leaves everybody else exactly as it would have without the
      acceptance, if and only if there was room for the driver. */
  lemma AcceptanceCommutesIff(rows: seq<Entry>, capacity: nat, t: int, p: nat)
    requires DistinctIds(rows) && capacity > 0 && p < |rows| && rows[p].status.Offered? && rows[p].expiresAt > t
    ensures |AdvanceRows(rows, capacity, t)| == |rows|
    ensures
      var with := AdvanceRows(rows, capacity, t);
      AdvanceRows(SetStatus(rows, rows[p].id, Accepted), capacity - 1, t) == WithoutRow(with, rows, p) <==> RoomFor(rows, capacity, t, p)
  {
    AdvanceKeepsRows(rows, capacity, t);
    SparesIff(rows, capacity, t, p);
    var with := AdvanceRows(rows, capacity, t);
    if Spares(rows, with, capacity, p) {
      SparedCarCommutes(rows, with, capacity, t, p);
    } else {
      UnsparedRowDiffers(rows, capacity, t, p);
    }
  }

  /** It can fail: two offers until 10 and until 30, in a queue settled at time 5 with two cars. By time 15 the first
      has lapsed. If one car is gone by then, accepting the second offer spares the first driver a miss. */
  lemma AcceptanceCanDisturb(first: Entry, second: Entry)
    requires first.id != second.id && first.status.Offered? && second.status.Offered?
    requires first.expiresAt == 10 && second.expiresAt == 30
    ensures
      var rows := [first, second];
      && Settled(rows, 2, 5) && !RoomFor(rows, 1, 15, 1)
      && AdvanceRows(rows, 1, 15) == [first.(status := Missed), second]
      && AdvanceRows(SetStatus(rows, second.id, Accepted), 0, 15)
           == [first.(status := Waiting, expiresAt := 15 + 60_000), second.(status := Accepted)]
  {
    SettledTwo(first, second);
    NoRoomForSecond(first, second);
    AdvanceTwo(first, second, 1, 15);
    var accepted := second.(status := Accepted);
    assert SetStatus([first, second], second.id, Accepted) == [first, accepted];
    AdvanceTwo(first, accepted, 0, 15);
  }

  lemma NoRoomForSecond(first: Entry, second: Entry)
    requires first.status.Offered? && first.expiresAt == 10
    ensures !RoomFor([first, second], 1, 15, 1)
  {
    var rows := [first, second];
    assert Firm(rows, 15, 0) == 0 && Firm(rows, 15, 1) == 0;
    assert rows[0].status.Offered?;
  }

  lemma SettledTwo(first: Entry, second: Entry)
    requires first.status.Offered? && second.status.Offered? && first.expiresAt > 5 && second.expiresAt > 5
    ensures Settled([first, second], 2, 5)
  {
    var rows := [first, second];
    assert rows[..1] == [first] && [first][..0] == [];
    assert SettledRow(rows, 2, 5, 0) && SettledRow(rows, 2, 5, 1);
  }

  lemma AdvanceTwo(first: Entry, second: Entry, capacity: nat, now: int)
    ensures
      var one := Advanced(first, 0 < capacity, now);
      AdvanceRows([first, second], capacity, now) == [one, Advanced(second, (if one.Live() then 1 else 0) < capacity, now)]
  {
    var rows := [first, second];
    var one := Advanced(first, 0 < capacity, now);
    assert rows[..1] == [first] && [first][..0] == [] && [one][..0] == [];
    assert AdvanceRows([first], capacity, now) == [one];
    assert LiveCount([one]) == if one.Live() then 1 else 0;
  }

  /** Taking an offered driver out of a settled queue together with one car leaves a settled queue:
      nobody else's offer, deadline or place changes, now or under an advance at the same instant. */
  lemma AcceptanceDisturbsNobody(rows: seq<Entry>, capacity: nat, now: int, p: nat)
    requires DistinctIds(rows) && Settled(rows, capacity, now)
    requires p < |rows| && rows[p].status.Offered?
    ensures capacity > 0
    ensures var accepted := SetStatus(rows, rows[p].id, Accepted);
      AdvanceRows(accepted, capacity - 1, now) == accepted
  {
    assert SettledRow(rows, capacity, now, p);
    AdvanceFixpoint(rows, capacity, now);
    SparedCarCommutes(rows, rows, capacity, now, p);
    assert WithoutRow(rows, rows, p) == SetStatus(rows, rows[p].id, Accepted);
  }

  lemma {:induction false} LiveCountWithout(rows: seq<Entry>, after: seq<Entry>, p: nat, i: nat)
    requires |after| == |rows| && p < |rows| && rows[p].Live() && !after[p].Live()
    requires forall j :: 0 <= j < |rows| && j != p ==> after[j] == rows[j]
    requires i <= |rows|
    ensures LiveCount(after[..i]) == LiveCount(rows[..i]) - if p < i then 1 else 0
  {
    if i > 0 {
      LiveCountWithout(rows, after, p, i - 1);
      assert after[..i][..i - 1] == after[..i - 1] && rows[..i][..i - 1] == rows[..i - 1];
    }
  }
}

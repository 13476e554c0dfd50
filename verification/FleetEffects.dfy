/** What each transaction does, told from the rows it finds and the numbers it goes by: who is refused and what a
    refusal leaves behind, who is held back, which cars are counted, and what ends, expires and follows. */
module FleetEffects {
  import opened LiveQueue
  import opened Fleet
  import opened FleetLaws

  // ---------- Creating a drive ----------

  /** The user holds an offer that runs past t. */
  ghost predicate StandsAt(rows: seq<Entry>, user: UserId, t: int) {
    exists p :: 0 <= p < |rows| && rows[p].user == user && rows[p].status == Offered && rows[p].expiresAt > t
  }

  /** A session not yet ended that runs past t names the car or the user. */
  ghost predicate TakenAt(db: Db, user: UserId, c: CarId, t: int) {
    exists s :: s in db.sessions && db.sessions[s].status != Ended && db.sessions[s].expiresAt > t
      && (db.sessions[s].car == c || db.sessions[s].user == user)
  }

  ghost predicate Outlive(rows: seq<Entry>, t: int) {
    forall i :: 0 <= i < |rows| && (rows[i].status == Waiting || rows[i].status == Offered) ==> rows[i].expiresAt > t
  }

  lemma StandingIsFound(rows: seq<Entry>, user: UserId, t: int)
    requires OneLiveRowPerUser(rows)
    ensures
      var index := FindUser(LiveRows(rows), user);
      StandsAt(rows, user, t) <==>
        index.Some? && LiveRows(rows)[index.value].status.Offered? && LiveRows(rows)[index.value].expiresAt > t
  {
    var index := FindUser(LiveRows(rows), user);
    if p :| 0 <= p < |rows| && rows[p].user == user && rows[p].status == Offered && rows[p].expiresAt > t {
      UserIsFound(rows, user, p);
    }
    if index.Some? {
      var k := LiveRowsFrom(rows, index.value);
    }
  }

  /** A refusal for want of an offer, of the car, or because the car or the user is taken, leaves the first advance. */
  lemma EarlyRefusal(db: Db, user: UserId, c: CarId, t1: int, t2: int, locked: Option<DeviceId>, newId: SessionId)
    requires Valid(db)
    requires !StandsAt(AdvanceQueue(db, t1).entries, user, t1) || locked.None? || TakenAt(db, user, c, t1)
    ensures Create(db, user, c, t1, t2, locked, newId) == Refused(AdvanceQueue(db, t1))
  {
    AdvanceKeepsValid(db, t1);
    StandingIsFound(AdvanceQueue(db, t1).entries, user, t1);
    assert TakenAt(db, user, c, t1) ==> Busy(AdvanceQueue(db, t1), user, c, t1);
  }

  lemma AdvancedOutlive(rows: seq<Entry>, capacity: nat, t: int)
    ensures Outlive(AdvanceRows(rows, capacity, t), t) && Settled(AdvanceRows(rows, capacity, t), capacity, t)
  {
    AdvanceKeepsRows(rows, capacity, t);
    AdvanceSettles(rows, capacity, t);
  }

  /** An offer that runs out between the two clock readings is refused, and the queue is advanced to the second:
      what is left live outlives it, the places are settled, and the user holds no offer of old. */
  lemma LapsedRefusal(db: Db, user: UserId, c: CarId, t1: int, t2: int, locked: Option<DeviceId>, newId: SessionId)
    requires Valid(db) && locked.Some? && !TakenAt(db, user, c, t1)
    requires StandsAt(AdvanceQueue(db, t1).entries, user, t1) && !StandsAt(AdvanceQueue(db, t1).entries, user, t2)
    ensures
      var refusal := Create(db, user, c, t1, t2, locked, newId);
      && refusal == Refused(AdvanceQueue(AdvanceQueue(db, t1), t2))
      && Outlive(refusal.db.entries, t2) && Settled(refusal.db.entries, |AvailableCars(refusal.db, t2)|, t2)
  {
    var q := AdvanceQueue(db, t1);
    AdvanceKeepsValid(db, t1);
    StandingIsFound(q.entries, user, t1);
    StandingIsFound(q.entries, user, t2);
    assert !Busy(q, user, c, t1);
    AdvancedOutlive(q.entries, Capacity(q, t2), t2);
    SameFleet(q, AdvanceQueue(q, t2), t2);
  }

  /** A standing offer refused all the same, because the device has not been heard of for 15 s at the second reading or
      because a session of the user has not been ended, leaves the first advance. */
  lemma LateRefusal(db: Db, user: UserId, c: CarId, t1: int, t2: int, d: DeviceId, newId: SessionId)
    requires Valid(db) && Allowed(db, CreateStep(user, c, t1, t2, Some(d), newId)) && !TakenAt(db, user, c, t1)
    requires StandsAt(AdvanceQueue(db, t1).entries, user, t1) && StandsAt(AdvanceQueue(db, t1).entries, user, t2)
    requires
      || db.devices[d].lastSeenAt.None? || db.devices[d].lastSeenAt.value <= t2 - 15_000
      || exists s :: s in db.sessions && db.sessions[s].user == user && db.sessions[s].status != Ended
    ensures Create(db, user, c, t1, t2, Some(d), newId) == Refused(AdvanceQueue(db, t1))
  {
    var q := AdvanceQueue(db, t1);
    AdvanceKeepsValid(db, t1);
    StandingIsFound(q.entries, user, t1);
    StandingIsFound(q.entries, user, t2);
  }

  /** And otherwise the drive is granted: a session of this user on this car for five minutes from the second reading. */
  lemma Grant(db: Db, user: UserId, c: CarId, t1: int, t2: int, d: DeviceId, newId: SessionId)
    requires Valid(db) && Allowed(db, CreateStep(user, c, t1, t2, Some(d), newId))
    requires StandsAt(AdvanceQueue(db, t1).entries, user, t2)
    requires db.devices[d].lastSeenAt.Some? && db.devices[d].lastSeenAt.value > t2 - 15_000
    requires forall s :: s in db.sessions && db.sessions[s].user == user ==> db.sessions[s].status == Ended
    ensures
      var grant := Create(db, user, c, t1, t2, Some(d), newId);
      && grant.Granted? && newId in grant.db.sessions && c in grant.db.cars && grant.db.cars[c].state == RESERVED
      && var s := grant.db.sessions[newId];
         s.user == user && s.car == c && s.status == Created && s.expiresAt == t2 + 300_000 && s.updatedAt == t2
  {
    CreateSucceedsIff(db, user, c, t1, t2, Some(d), newId);
    var p := CreateEffect(db, user, c, t1, t2, Some(d), newId);
  }

  // ---------- Joining and polling ----------

  /** The user's row at l is the last one: none of theirs stands behind it. */
  ghost predicate LastRow(rows: seq<Entry>, user: UserId, l: int) {
    && 0 <= l < |rows| && rows[l].user == user
    && forall i :: l < i < |rows| ==> rows[i].user != user
  }

  lemma {:induction false} LastRowIs(rows: seq<Entry>, user: UserId, l: int)
    requires LastRow(rows, user, l)
    ensures LastRowOf(rows, user) == Some(rows[l])
  {
    if l < |rows| - 1 { LastRowIs(rows[..|rows| - 1], user, l); }
  }

  lemma {:induction false} NoRowAtAll(rows: seq<Entry>, user: UserId)
    requires forall i :: 0 <= i < |rows| ==> rows[i].user != user
    ensures LastRowOf(rows, user).None?
  {
    if rows != [] { NoRowAtAll(rows[..|rows| - 1], user); }
  }

  ghost predicate MissedLast(rows: seq<Entry>, user: UserId) {
    exists l :: LastRow(rows, user, l) && rows[l].status == Missed
  }

  /** The last row of a user, if there is one. */
  lemma {:induction false} SomeLastRow(rows: seq<Entry>, user: UserId) returns (l: int)
    requires exists i :: 0 <= i < |rows| && rows[i].user == user
    ensures LastRow(rows, user, l)
  {
    if rows[|rows| - 1].user == user {
      l := |rows| - 1;
    } else {
      var i :| 0 <= i < |rows| && rows[i].user == user;
      assert rows[..|rows| - 1][i] == rows[i];
      l := SomeLastRow(rows[..|rows| - 1], user);
    }
  }

  ghost predicate NoLiveRow(rows: seq<Entry>, user: UserId) {
    forall i :: 0 <= i < |rows| && rows[i].user == user ==> rows[i].status != Waiting && rows[i].status != Offered
  }

  lemma HeldBackIff(rows: seq<Entry>, user: UserId)
    requires NoLiveRow(rows, user)
    ensures HeldBack(rows, user, false) <==> MissedLast(rows, user)
  {
    if exists i :: 0 <= i < |rows| && rows[i].user == user {
      var l := SomeLastRow(rows, user);
      LastRowIs(rows, user, l);
      forall m | LastRow(rows, user, m)
        ensures m == l
      {
      }
    } else {
      NoRowAtAll(rows, user);
    }
  }

  /** A poll by somebody who neither waits nor drives: if the last row of theirs is missed it changes nothing more and
      the answer is "expired" with that row; in every other case they are put in line. */
  lemma PollAfterMiss(db: Db, user: UserId, now: int, newId: EntryId)
    requires Valid(db) && newId !in Ids(db.entries)
    requires NoLiveRow(AdvanceQueue(db, now).entries, user)
    ensures
      var q, after := AdvanceQueue(db, now), ReadOrJoin(db, user, now, false, None, newId);
      var answer := JoinAnswer(db, user, now, false, None, newId);
      && answer.Answer?
      && (if MissedLast(q.entries, user)
          then after == q && answer.snapshot.shown == LapsedOffer
               && forall l :: LastRow(q.entries, user, l) ==> answer.snapshot.entry == q.entries[l].id
          else |after.entries| == |q.entries| + 1 && HasLiveRow(after.entries, user) && answer.snapshot.shown != LapsedOffer)
  {
    var q := AdvanceQueue(db, now);
    AdvanceKeepsValid(db, now);
    HeldBackIff(q.entries, user);
    if MissedLast(q.entries, user) {
      forall l | LastRow(q.entries, user, l)
        ensures LastRowOf(q.entries, user) == Some(q.entries[l])
      {
        LastRowIs(q.entries, user, l);
      }
    } else {
      JoinerIsPlaced(db, user, now, newId);
    }
  }

  lemma PlaceIsNew(rows: seq<Entry>, user: UserId, now: int, newId: EntryId)
    requires NoLiveRow(rows, user)
    ensures |TakePlace(rows, user, now, newId)| == |rows| + 1
  {
    var index := FindUser(LiveRows(rows), user);
    if index.Some? {
      var i := LiveRowsFrom(rows, index.value);
    }
  }

  /** The middle and the end of a join: a live row of the user, one row more if they had none, and an answer. */
  lemma JoinerIsPlaced(db: Db, user: UserId, now: int, newId: EntryId)
    requires Valid(db) && newId !in Ids(db.entries)
    ensures
      var q := AdvanceQueue(db, now);
      var after := AdvanceQueue(q.(entries := TakePlace(q.entries, user, now, newId)), now);
      && HasLiveRow(after.entries, user)
      && (NoLiveRow(q.entries, user) ==> |after.entries| == |q.entries| + 1)
      && QueueSnapshot(user, LiveRows(after.entries), Capacity(after, now)).Answer?
  {
    var q := AdvanceQueue(db, now);
    var placed := q.(entries := TakePlace(q.entries, user, now, newId));
    JoiningIsTotal(db.entries, user, now, newId, Capacity(db, now), Capacity(placed, now));
    SameFleet(placed, AdvanceQueue(placed, now), now);
    if NoLiveRow(q.entries, user) { PlaceIsNew(q.entries, user, now, newId); }
  }

  /** Pressing join always ends with a live row, also after a miss. */
  lemma JoinIsNeverHeldBack(db: Db, user: UserId, now: int, newId: EntryId)
    requires Valid(db) && newId !in Ids(db.entries)
    ensures HasLiveRow(ReadOrJoin(db, user, now, true, None, newId).entries, user)
    ensures JoinAnswer(db, user, now, true, None, newId).Answer?
    ensures JoinAnswer(db, user, now, true, None, newId).snapshot.shown != LapsedOffer
  {
    AdvanceKeepsValid(db, now);
    JoinerIsPlaced(db, user, now, newId);
  }

  /** A user who drives is answered with the row the drive was accepted on, and the queue is only advanced. */
  lemma DriverIsAnswered(db: Db, user: UserId, now: int, explicitJoin: bool, s: SessionId, newId: EntryId)
    requires s in db.sessions && db.sessions[s].entry.Some?
    ensures ReadOrJoin(db, user, now, explicitJoin, Some(s), newId) == AdvanceQueue(db, now)
    ensures
      var answer := JoinAnswer(db, user, now, explicitJoin, Some(s), newId);
      && answer.Answer? && answer.snapshot.shown == Driving && answer.snapshot.entry == db.sessions[s].entry.value
      && answer.snapshot.position == 0 && answer.snapshot.offerExpiresAt.None?
  {
  }

  /** Every answer tells how many live rows and how many free cars there are at the end of the transaction. */
  lemma AnswersCount(db: Db, user: UserId, now: int, explicitJoin: bool, driving: Option<SessionId>, newId: EntryId)
    requires JoinAnswer(db, user, now, explicitJoin, driving, newId).Answer?
    ensures
      var answer, after := JoinAnswer(db, user, now, explicitJoin, driving, newId), ReadOrJoin(db, user, now, explicitJoin, driving, newId);
      answer.snapshot.count == LiveCount(after.entries) && answer.snapshot.available == |AvailableCars(after, now)|
  {
    var after := ReadOrJoin(db, user, now, explicitJoin, driving, newId);
    if QueueSnapshot(user, LiveRows(after.entries), Capacity(after, now)).Answer? { SnapshotCounts(user, after, now); }
  }

  lemma SnapshotCounts(user: UserId, db: Db, now: int)
    requires QueueSnapshot(user, LiveRows(db.entries), Capacity(db, now)).Answer?
    ensures
      var snapshot := QueueSnapshot(user, LiveRows(db.entries), Capacity(db, now)).snapshot;
      snapshot.count == LiveCount(db.entries) && snapshot.available == |AvailableCars(db, now)|
  {
  }

  /** The row of somebody who joins: theirs, under the new id, joined now. */
  ghost predicate JoinedNow(rows: seq<Entry>, user: UserId, now: int, newId: EntryId) {
    exists i :: 0 <= i < |rows| && rows[i].id == newId && rows[i].user == user && rows[i].joinedAt == now
      && (rows[i].status == Waiting || rows[i].status == Offered)
  }

  lemma NewRowIs(rows: seq<Entry>, user: UserId, now: int, newId: EntryId, capacity: nat)
    requires ValidTable(rows) && newId !in Ids(rows) && NoLiveRow(rows, user)
    ensures JoinedNow(AdvanceRows(TakePlace(rows, user, now, newId), capacity, now), user, now, newId)
  {
    var index := FindUser(LiveRows(rows), user);
    if index.Some? {
      var i := LiveRowsFrom(rows, index.value);
    }
    var e := Entry(newId, user, Waiting, now, now + 60_000);
    assert forall i :: 0 <= i < |rows| ==> rows[i].id in Ids(rows);
    var p := PlaceRowAt(rows, e);
    var placed := rows[..p] + [e] + rows[p..];
    assert TakePlace(rows, user, now, newId) == placed && placed[p] == e;
    AdvanceKeepsRows(placed, capacity, now);
    AdvanceRowOutcome(placed, capacity, now, p);
  }

  /** Who comes to the queue without a live row gets a row that joined now, and waits behind all who joined before. */
  lemma JoinerQueuesUp(db: Db, user: UserId, now: int, explicitJoin: bool, newId: EntryId)
    requires Valid(db) && newId !in Ids(db.entries)
    requires NoLiveRow(AdvanceQueue(db, now).entries, user) && (explicitJoin || !MissedLast(AdvanceQueue(db, now).entries, user))
    ensures JoinedNow(ReadOrJoin(db, user, now, explicitJoin, None, newId).entries, user, now, newId)
  {
    var q := AdvanceQueue(db, now);
    AdvanceKeepsValid(db, now);
    HeldBackIff(q.entries, user);
    var placed := q.(entries := TakePlace(q.entries, user, now, newId));
    NewRowIs(q.entries, user, now, newId, Capacity(placed, now));
  }

  /** Of two live rows, the one that joined earlier, or at the same time under the smaller id. */
  ghost predicate CameFirst(a: Entry, b: Entry) {
    a.joinedAt < b.joinedAt || (a.joinedAt == b.joinedAt && a.id < b.id)
  }

  /** First come, first offered: after an advance nobody holds an offer while somebody who came first waits, and whoever
      came first is shown a smaller position. */
  lemma FirstComeFirstOffered(db: Db, now: int, i: nat, j: nat)
    requires Valid(db)
    requires
      var rows := AdvanceQueue(db, now).entries;
      && i < |rows| && j < |rows| && CameFirst(rows[i], rows[j])
      && (rows[i].status == Waiting || rows[i].status == Offered) && (rows[j].status == Waiting || rows[j].status == Offered)
    ensures
      var rows := AdvanceQueue(db, now).entries;
      && (rows[j].status == Offered ==> rows[i].status == Offered)
      && i < j && Ahead(rows, i) < Ahead(rows, j)
  {
    var rows := AdvanceQueue(db, now).entries;
    AdvanceKeepsValid(db, now);
    assert i != j && (j < i ==> rows[j].Before(rows[i]));
    AdvanceSettles(db.entries, Capacity(db, now), now);
    assert SettledRow(rows, Capacity(db, now), now, i) && SettledRow(rows, Capacity(db, now), now, j);
    LiveCountMonotone(rows, i + 1, j);
    assert rows[..i + 1][..i] == rows[..i];
  }

  /** Leaving marks the live rows of the user, and theirs alone, as left now; then the queue is advanced. */
  lemma LeaveEffect(db: Db, user: UserId, now: int)
    ensures exists left: seq<Entry> ::
      && Next(db, LeaveStep(user, now)) == AdvanceQueue(db.(entries := left), now)
      && IsLeft(db.entries, left, user, now)
  {
    assert IsLeft(db.entries, LeaveRows(db.entries, user, now), user, now);
  }

  ghost predicate IsLeft(rows: seq<Entry>, left: seq<Entry>, user: UserId, now: int) {
    && |left| == |rows|
    && forall i :: 0 <= i < |rows| ==>
         left[i] == if rows[i].user == user && (rows[i].status == Waiting || rows[i].status == Offered)
                    then rows[i].(status := Left, expiresAt := now) else rows[i]
  }

  // ---------- The cars that count ----------

  ghost predicate ReadyDevice(db: Db, c: CarId, d: DeviceId, now: int) {
    && d in db.devices && db.devices[d].car == Some(c) && db.devices[d].state == AVAILABLE
    && db.devices[d].lastSeenAt.Some? && db.devices[d].lastSeenAt.value > now - 15_000
  }

  /** A car is counted exactly if its row is AVAILABLE and not blocked, a device of its own that is AVAILABLE was heard of
      in the last 15 s, and no session not yet ended that still runs is on it. */
  lemma CarCountsIff(db: Db, c: CarId, now: int)
    ensures c in AvailableCars(db, now) <==>
      && c in db.cars && db.cars[c].state == AVAILABLE && !db.cars[c].adminBlocked
      && (exists d :: ReadyDevice(db, c, d, now))
      && forall s :: s in db.sessions && db.sessions[s].car == c && db.sessions[s].status != Ended ==> db.sessions[s].expiresAt <= now
  {
    if exists d :: d in db.devices && db.devices[d].Serves(c, now) {
      var d :| d in db.devices && db.devices[d].Serves(c, now);
      assert ReadyDevice(db, c, d, now);
    }
    if d :| ReadyDevice(db, c, d, now) {
      assert db.devices[d].Serves(c, now);
    }
  }

  /** The row that `create` locks is the same kind of car and device, told once more from the rows. */
  lemma LockedIff(db: Db, c: CarId, d: DeviceId, now: int)
    ensures CanDrive(db, c, d, now) <==>
      && c in db.cars && db.cars[c].state == AVAILABLE && !db.cars[c].adminBlocked
      && d in db.devices && db.devices[d].car == Some(c) && db.devices[d].state == AVAILABLE
      && db.devices[d].lastSeenAt.Some? && db.devices[d].lastSeenAt.value > now - 15_000
  {
  }

  // ---------- Authorizing, activating, expiring ----------

  /** Only its own user, for its own car, in time and once can a session be authorized; nothing else changes a session. */
  lemma AuthorizeIff(db: Db, s: SessionId, user: UserId, c: CarId, now: int)
    ensures
      var after := Authorize(db, s, user, c, now);
      if s in db.sessions && db.sessions[s].user == user && db.sessions[s].car == c
         && db.sessions[s].status == Created && db.sessions[s].expiresAt > now
      then
        && after.sessions == db.sessions[s := db.sessions[s].(status := Negotiating, updatedAt := now)]
        && (c in db.cars ==> after.cars == db.cars[c := db.cars[c].(state := CONNECTING)])
        && after.entries == db.entries && after.devices == db.devices
      else after == db
  {
  }

  /** Only a negotiating session authorized less than 20 s ago, and still running, can be activated. */
  lemma ActivateIff(db: Db, s: SessionId, now: int)
    ensures
      var after := MarkActive(db, s, now);
      if s in db.sessions && db.sessions[s].status == Negotiating
         && now - db.sessions[s].updatedAt < 20_000 && db.sessions[s].expiresAt > now
      then
        && after.sessions == db.sessions[s := db.sessions[s].(status := Active, updatedAt := now)]
        && (db.sessions[s].car in db.cars ==> after.cars == db.cars[db.sessions[s].car := db.cars[db.sessions[s].car].(state := ACTIVE)])
        && after.entries == db.entries && after.devices == db.devices
      else after == db
  {
  }

  /** Expiring ends exactly the sessions that ran out, and those 20 s old that never became active; the rest stay. */
  lemma ExpiryIff(db: Db, now: int, restored: map<CarId, CarState>, s: SessionId)
    requires s in db.sessions
    ensures
      var after, was := Next(db, ExpireStep(now, restored)), db.sessions[s];
      && s in after.sessions
      && if was.status != Ended && (was.expiresAt <= now || (was.status != Active && now - was.updatedAt >= 20_000))
         then after.sessions[s] == was.(status := Ended, updatedAt := now)
         else after.sessions[s] == was
  {
  }

  /** Where a car goes when its session ends: blocked if it is blocked, else to the state of the device heard of last, if
      that was in the last 15 s, else offline. */
  ghost predicate Restored(db: Db, c: CarId, now: int, state: CarState)
    requires c in db.cars
  {
    if db.cars[c].adminBlocked then state == ADMIN_BLOCKED
    else if forall d :: d in db.devices && db.devices[d].car == Some(c) ==>
              db.devices[d].lastSeenAt.None? || db.devices[d].lastSeenAt.value <= now - 15_000
    then state == OFFLINE
    else exists d :: HeardLast(db, c, d) && db.devices[d].state == state
  }

  ghost predicate HeardLast(db: Db, c: CarId, d: DeviceId) {
    && d in db.devices && db.devices[d].car == Some(c) && db.devices[d].lastSeenAt.Some?
    && forall o :: o in db.devices && db.devices[o].car == Some(c) && db.devices[o].lastSeenAt.Some? ==>
         db.devices[o].lastSeenAt.value <= db.devices[d].lastSeenAt.value
  }

  lemma FreshIsRestored(db: Db, c: CarId, now: int, state: CarState)
    requires c in db.cars && FreshState(db, c, now, state)
    ensures Restored(db, c, now, state)
  {
    if !db.cars[c].adminBlocked && exists d :: d in db.devices && db.devices[d].car == Some(c) && db.devices[d].SeenSince(now - DEVICE_FRESHNESS_MS) {
      var cutoff := now - DEVICE_FRESHNESS_MS;
      var d :| d in db.devices && db.devices[d].car == Some(c) && db.devices[d].SeenSince(cutoff) && db.devices[d].state == state
        && forall o :: o in db.devices && db.devices[o].car == Some(c) && db.devices[o].SeenSince(cutoff) ==>
             db.devices[o].lastSeenAt.value <= db.devices[d].lastSeenAt.value;
      assert HeardLast(db, c, d);
    }
  }

  /** Ending a held session: the session is ended, its queue row left, and its car goes where its devices are. */
  lemma EndEffect(db: Db, s: SessionId, now: int, restored: map<CarId, CarState>)
    requires Valid(db) && Allowed(db, EndStep(s, now, restored)) && s in db.sessions && db.sessions[s].status != Ended
    ensures
      var after, was := Next(db, EndStep(s, now, restored)), db.sessions[s];
      && after.sessions == db.sessions[s := was.(status := Ended, updatedAt := now)] && after.devices == db.devices
      && was.car in after.cars && Restored(db, was.car, now, after.cars[was.car].state)
      && |after.entries| == |db.entries|
      && forall i :: 0 <= i < |db.entries| ==>
           after.entries[i] == if was.entry == Some(db.entries[i].id) then db.entries[i].(status := Left, expiresAt := now) else db.entries[i]
  {
    assert db.sessions[s].car in CarsOf(db.sessions, {s});
    FreshIsRestored(db, db.sessions[s].car, now, restored[db.sessions[s].car]);
  }

  /** Every car of a session that expires goes where its devices are. */
  lemma ExpiryRestores(db: Db, now: int, restored: map<CarId, CarState>, s: SessionId)
    requires Valid(db) && Allowed(db, ExpireStep(now, restored)) && s in DueSessions(db, now)
    ensures
      var after, c := Next(db, ExpireStep(now, restored)), db.sessions[s].car;
      c in after.cars && Restored(db, c, now, after.cars[c].state)
  {
    var c := db.sessions[s].car;
    assert c in CarsOf(db.sessions, DueSessions(db, now));
    FreshIsRestored(db, c, now, restored[c]);
  }

  // ---------- Devices and their cars ----------

  /** A device that authenticates starts over, and so does its car unless it is blocked. */
  lemma AuthenticateEffect(db: Db, d: DeviceId)
    ensures
      var after := Authenticate(db, d);
      if d in db.devices && db.devices[d].car.Some? then
        var c := db.devices[d].car.value;
        && after.devices == db.devices[d := db.devices[d].(state := INITIALIZING)]
        && after.cars == (if c in db.cars && !db.cars[c].adminBlocked then db.cars[c := db.cars[c].(state := INITIALIZING)] else db.cars)
        && after.sessions == db.sessions && after.entries == db.entries
      else after == db
  {
  }

  /** A report of presence reaches the car exactly while no session not yet ended is on it. */
  lemma PresenceEffect(db: Db, c: CarId, state: CarState)
    ensures
      var after := Next(db, CarPresenceStep(c, state));
      if c in db.cars && forall s :: s in db.sessions && db.sessions[s].car == c ==> db.sessions[s].status == Ended
      then after == db.(cars := db.cars[c := db.cars[c].(state := state)])
      else after == db
  {
  }

  /** A lost device takes its car offline whoever drives it, unless the car is blocked. */
  lemma OfflineEffect(db: Db, c: CarId)
    ensures
      Next(db, CarOfflineStep(c)) ==
        if c in db.cars then db.(cars := db.cars[c := db.cars[c].(state := if db.cars[c].adminBlocked then ADMIN_BLOCKED else OFFLINE)])
        else db
  {
  }

  lemma DeviceEffect(db: Db, d: DeviceId, state: CarState, now: int)
    requires d in db.devices
    ensures Next(db, DeviceStep(d, state)) == db.(devices := db.devices[d := db.devices[d].(state := state)])
    ensures Next(db, HeartbeatStep(d, now)) == db.(devices := db.devices[d := db.devices[d].(lastSeenAt := Some(now))])
  {
  }
}

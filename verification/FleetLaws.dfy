/** What the joint invariant of the fleet buys over whole runs of both services: cars are exclusive, rows
    and sessions paired, final rows stay final, ends stay local, accepting an offer is exact and
    harmless, and waiting is bounded. */
module FleetLaws {
  import opened LiveQueue
  import opened Fleet
  import opened FairWaiting

  // ---------- Exclusive cars, paired rows ----------

  /** Car exclusivity over every interleaving of both services, from an empty database. */
  lemma CarsStayExclusive(run: seq<Step>)
    requires AllowedRun(Empty, run)
    ensures var db := After(Empty, run);
      && (forall c, s :: c in db.cars && db.cars[c].state == AVAILABLE && s in db.sessions && db.sessions[s].car == c ==>
            db.sessions[s].status.Ended?)
      && (forall s, t :: s in db.sessions && t in db.sessions && s != t && db.sessions[s].car == db.sessions[t].car ==>
            db.sessions[s].status.Ended? || db.sessions[t].status.Ended?)
  {
    RunKeepsValid(Empty, run);
  }

  /** Over every run, a queue row is accepted exactly when one held session names it. */
  lemma EntriesStayPaired(run: seq<Step>, e: Entry)
    requires AllowedRun(Empty, run) && e in After(Empty, run).entries
    ensures var db := After(Empty, run);
      && (e.status.Accepted? <==> exists s :: s in db.sessions && db.sessions[s].Held() && db.sessions[s].entry == Some(e.id))
      && (forall s, t :: s in db.sessions && t in db.sessions && db.sessions[s].entry == Some(e.id) == db.sessions[t].entry ==> s == t)
  {
    var db := After(Empty, run);
    RunKeepsValid(Empty, run);
    var i :| 0 <= i < |db.entries| && db.entries[i] == e;
    if e.status.Accepted? {
      assert e.id in HeldEntries(db.sessions);
    }
    if exists s :: s in db.sessions && db.sessions[s].Held() && db.sessions[s].entry == Some(e.id) {
      var s :| s in db.sessions && db.sessions[s].Held() && db.sessions[s].entry == Some(e.id);
      assert e.id in AcceptedIds(db.entries);
      var j :| 0 <= j < |db.entries| && db.entries[j].status.Accepted? && db.entries[j].id == e.id;
      assert i == j;
    }
  }

  // ---------- Missed, expired and left are final ----------

  predicate Final(e: Entry) {
    e.status.Missed? || e.status.Expired? || e.status.Left?
  }

  lemma AdvanceKeepsFinal(rows: seq<Entry>, capacity: nat, now: int, e: Entry)
    requires e in rows && !e.Live()
    ensures e in AdvanceRows(rows, capacity, now)
  {
    AdvanceKeepsRows(rows, capacity, now);
    var i :| 0 <= i < |rows| && rows[i] == e;
    assert AdvanceRows(rows, capacity, now)[i] == e;
  }

  lemma TakePlaceKeepsFinal(rows: seq<Entry>, user: UserId, now: int, newId: EntryId, e: Entry)
    requires ValidTable(rows) && newId !in Ids(rows) && e in rows && !e.Live()
    ensures e in TakePlace(rows, user, now, newId)
  {
    var index := FindUser(LiveRows(rows), user);
    if index.None? {
      InsertKeepsTable(rows, newId, user, now);
    } else {
      var k := LiveRowsFrom(rows, index.value);
      var i :| 0 <= i < |rows| && rows[i] == e;
      assert TakePlace(rows, user, now, newId)[i] == e;
    }
  }

  lemma ClosedRowIsAccepted(db: Db, due: set<SessionId>, i: nat)
    requires Valid(db) && i < |db.entries|
    requires forall s :: s in due ==> s in db.sessions && db.sessions[s].Held()
    ensures db.entries[i].id in EntriesOf(db.sessions, due) ==> db.entries[i].status.Accepted?
  {
    if db.entries[i].id in EntriesOf(db.sessions, due) {
      assert db.entries[i].id in HeldEntries(db.sessions);
      var j :| 0 <= j < |db.entries| && db.entries[j].status.Accepted? && db.entries[j].id == db.entries[i].id;
      assert i == j;
    }
  }

  lemma CloseKeepsFinal(db: Db, due: set<SessionId>, now: int, restored: map<CarId, CarState>, e: Entry)
    requires Valid(db) && e in db.entries && Final(e)
    requires forall s :: s in due ==> s in db.sessions && db.sessions[s].Held()
    ensures e in EndSessions(db, due, now, restored).entries
  {
    var i :| 0 <= i < |db.entries| && db.entries[i] == e;
    ClosedRowIsAccepted(db, due, i);
    assert EndSessions(db, due, now, restored).entries[i] == e;
  }

  lemma AcceptKeepsFinal(rows: seq<Entry>, p: nat, e: Entry)
    requires DistinctIds(rows) && p < |rows| && rows[p].Live() && e in rows && Final(e)
    ensures e in SetStatus(rows, rows[p].id, Accepted)
  {
    var i :| 0 <= i < |rows| && rows[i] == e;
    assert SetStatus(rows, rows[p].id, Accepted)[i] == e;
  }

  lemma CreateKeepsFinal(db: Db, user: UserId, c: CarId, t1: int, t2: int, locked: Option<DeviceId>, newId: SessionId, e: Entry)
    requires Valid(db) && e in db.entries && Final(e)
    ensures e in Create(db, user, c, t1, t2, locked, newId).db.entries
  {
    var q := AdvanceQueue(db, t1);
    AdvanceKeepsFinal(db.entries, Capacity(db, t1), t1, e);
    if Create(db, user, c, t1, t2, locked, newId).Granted? {
      AdvanceKeepsValid(db, t1);
      var p := CreateEffect(db, user, c, t1, t2, locked, newId);
      AcceptKeepsFinal(q.entries, p, e);
    } else {
      AdvanceKeepsFinal(q.entries, Capacity(q, t2), t2, e);
      RefusedCreate(db, user, c, t1, t2, locked, newId);
    }
  }

  /** Whatever step either service takes, a missed, expired or left row is still there, untouched. */
  lemma FinalRowsStay(db: Db, step: Step, e: Entry)
    requires Valid(db) && Allowed(db, step) && e in db.entries && Final(e)
    ensures e in Next(db, step).entries
  {
    match step
    case JoinStep(user, now, explicitJoin, driving, newEntry) =>
      var q := AdvanceQueue(db, now);
      AdvanceKeepsValid(db, now);
      AdvanceKeepsFinal(db.entries, Capacity(db, now), now, e);
      TakePlaceKeepsFinal(q.entries, user, now, newEntry, e);
      var placed := q.(entries := TakePlace(q.entries, user, now, newEntry));
      AdvanceKeepsFinal(placed.entries, Capacity(placed, now), now, e);
    case LeaveStep(user, now) =>
      var left := db.(entries := LeaveRows(db.entries, user, now));
      var i :| 0 <= i < |db.entries| && db.entries[i] == e;
      assert left.entries[i] == e;
      AdvanceKeepsFinal(left.entries, Capacity(left, now), now, e);
    case CreateStep(user, c, t1, t2, locked, newSession) =>
      CreateKeepsFinal(db, user, c, t1, t2, locked, newSession, e);
    case EndStep(s, now, restored) =>
      if s in db.sessions && db.sessions[s].Held() { CloseKeepsFinal(db, {s}, now, restored, e); }
    case ExpireStep(now, restored) => CloseKeepsFinal(db, DueSessions(db, now), now, restored, e);
    case _ =>
  }

  lemma {:induction false} FinalRowsStayForever(db: Db, run: seq<Step>, e: Entry)
    requires Valid(db) && AllowedRun(db, run) && e in db.entries && Final(e)
    ensures e in After(db, run).entries
    decreases |run|
  {
    if run != [] {
      FinalRowsStay(db, run[0], e);
      NextKeepsValid(db, run[0]);
      FinalRowsStayForever(Next(db, run[0]), run[1..], e);
    }
  }

  // ---------- Ends are local ----------

  /** Ending a session leaves every other held session, its car and its queue row exactly as they
      were; and ending it again, at any later time and from any caller, changes nothing. */
  lemma EndIsLocal(db: Db, s: SessionId, other: SessionId, now: int, restored: map<CarId, CarState>,
                   later: int, restoredLater: map<CarId, CarState>)
    requires Valid(db) && other in db.sessions && other != s && db.sessions[other].Held()
    ensures var after := End(db, s, now, restored);
      && after.sessions[other] == db.sessions[other]
      && after.cars[db.sessions[other].car] == db.cars[db.sessions[other].car]
      && (forall e :: e in db.entries && db.sessions[other].entry == Some(e.id) ==> e in after.entries)
      && End(after, s, later, restoredLater) == after
  {
    var after := End(db, s, now, restored);
    forall e | e in db.entries && db.sessions[other].entry == Some(e.id)
      ensures e in after.entries
    {
      var i :| 0 <= i < |db.entries| && db.entries[i] == e;
      if s in db.sessions {
        assert db.sessions[s].entry != db.sessions[other].entry;
      }
      assert after.entries[i] == e;
    }
  }

  /** Between steps a session can be activated exactly when the sweeper would spare it. */
  lemma ActivationMeetsExpiry(s: Session, now: int)
    ensures s.status.Negotiating? ==> (CanActivate(s, now) <==> !ShouldExpire(s, now))
    ensures CanActivate(s, now) ==> s.status.Negotiating?
    ensures CanActivate(s, now) && !ShouldExpire(s.(status := Active, updatedAt := now), now) <==> CanActivate(s, now)
  {
  }

  // ---------- Joining ----------

  /** Joining and polling always get an answer; a driver is only held back after a missed offer that
      nobody asked to renew; and "ready" is shown exactly to a user whose stored row is offered. */
  lemma JoinAlwaysAnswers(db: Db, user: UserId, now: int, explicitJoin: bool, driving: Option<SessionId>, newId: EntryId)
    requires Valid(db) && newId !in Ids(db.entries) && (driving.Some? ==> IsDriving(db, driving.value, user, now))
    ensures var answer := JoinAnswer(db, user, now, explicitJoin, driving, newId);
      && answer.Answer?
      && (answer.snapshot.shown.Driving? ==> driving.Some?)
      && (answer.snapshot.shown.LapsedOffer? ==> HeldBack(AdvanceQueue(db, now).entries, user, explicitJoin))
      && (answer.snapshot.shown.Waits? || answer.snapshot.shown.Ready? ==>
            ShowsRow(ReadOrJoin(db, user, now, explicitJoin, driving, newId).entries, user, answer.snapshot))
  {
    var q := AdvanceQueue(db, now);
    if !(driving.Some? && q.sessions[driving.value].entry.Some?) && !HeldBack(q.entries, user, explicitJoin) {
      PlacedUserIsShown(db, user, now, newId);
    }
  }

  ghost predicate ShowsRow(entries: seq<Entry>, user: UserId, snapshot: Snapshot) {
    exists i :: 0 <= i < |entries| && entries[i].user == user && entries[i].Live() && snapshot.entry == entries[i].id
      && (snapshot.shown.Ready? <==> entries[i].status.Offered?)
  }

  lemma PlacedUserIsShown(db: Db, user: UserId, now: int, newId: EntryId)
    requires Valid(db) && newId !in Ids(db.entries)
    ensures var q := AdvanceQueue(db, now);
      var after := AdvanceQueue(q.(entries := TakePlace(q.entries, user, now, newId)), now);
      var answer := QueueSnapshot(user, LiveRows(after.entries), Capacity(after, now));
      answer.Answer? && ShowsRow(after.entries, user, answer.snapshot)
  {
    var q := AdvanceQueue(db, now);
    var placed := q.(entries := TakePlace(q.entries, user, now, newId));
    SameFleet(placed, AdvanceQueue(placed, now), now);
    JoiningIsTotal(db.entries, user, now, newId, Capacity(db, now), Capacity(placed, now));
    SnapshotAgrees(placed.entries, Capacity(placed, now), now, user);
  }

  // ---------- Accepting an offer ----------

  /** Exactly when an accepted offer becomes a drive. The user clause is the sharp one: a session of
      the same user that has run out but was not yet ended by the gateway still blocks a new drive,
      although the explicit check of `create` looks only at unexpired sessions. The unique indexes
      on cars and on queue rows never turn an insert away. */
  lemma CreateSucceedsIff(db: Db, user: UserId, c: CarId, t1: int, t2: int, locked: Option<DeviceId>, newId: SessionId)
    requires Valid(db) && Allowed(db, CreateStep(user, c, t1, t2, locked, newId))
    ensures var q := AdvanceQueue(db, t1);
      Create(db, user, c, t1, t2, locked, newId).Granted? <==>
        && (exists p :: 0 <= p < |q.entries| && q.entries[p].user == user && q.entries[p].status.Offered?
              && q.entries[p].expiresAt > t2)
        && locked.Some? && db.devices[locked.value].SeenSince(t2 - 15_000)
        && !HasHeldSession(db, user)
  {
    var q := AdvanceQueue(db, t1);
    if Create(db, user, c, t1, t2, locked, newId).Granted? {
      var p := CreateEffect(db, user, c, t1, t2, locked, newId);
    }
    if p :| 0 <= p < |q.entries| && q.entries[p].user == user && q.entries[p].status.Offered? && q.entries[p].expiresAt > t2 {
      if locked.Some? && db.devices[locked.value].SeenSince(t2 - 15_000) && !HasHeldSession(db, user) {
        StandingOfferIsGranted(db, user, c, t1, t2, locked.value, newId, p);
      }
    }
  }

  /** The user's live row is the one the list of live rows finds. */
  lemma UserIsFound(rows: seq<Entry>, user: UserId, p: nat)
    requires OneLiveRowPerUser(rows) && p < |rows| && rows[p].user == user && rows[p].Live()
    ensures FindUser(LiveRows(rows), user).Some? && LiveRows(rows)[FindUser(LiveRows(rows), user).value] == rows[p]
  {
    LiveRowsAt(rows, p);
    assert LiveRows(rows)[LiveCount(rows[..p])].user == user;
    var k := LiveRowsFrom(rows, FindUser(LiveRows(rows), user).value);
  }

  lemma StandingOfferIsGranted(db: Db, user: UserId, c: CarId, t1: int, t2: int, d: DeviceId, newId: SessionId, p: nat)
    requires Valid(db) && CanDrive(db, c, d, t1) && db.devices[d].SeenSince(t2 - 15_000) && !HasHeldSession(db, user)
    requires var rows := AdvanceQueue(db, t1).entries;
      p < |rows| && rows[p].user == user && rows[p].status.Offered? && rows[p].expiresAt > t2
    ensures Create(db, user, c, t1, t2, Some(d), newId).Granted?
  {
    var q := AdvanceQueue(db, t1);
    AdvanceKeepsValid(db, t1);
    UserIsFound(q.entries, user, p);
    AdvanceOutlives(db.entries, Capacity(db, t1), t1, p);
    NothingConflicts(q, user, c, t1, d, q.entries[p]);
    ChecksGrant(db, user, c, t1, t2, d, newId, q);
  }

  lemma AdvanceOutlives(rows: seq<Entry>, capacity: nat, now: int, p: nat)
    requires p < |AdvanceRows(rows, capacity, now)| && AdvanceRows(rows, capacity, now)[p].Live()
    ensures AdvanceRows(rows, capacity, now)[p].expiresAt > now
  {
    AdvanceKeepsRows(rows, capacity, now);
  }

  /** The checks of `create`, one by one, grant the drive. */
  lemma ChecksGrant(db: Db, user: UserId, c: CarId, t1: int, t2: int, d: DeviceId, newId: SessionId, q: Db)
    requires q == AdvanceQueue(db, t1) && FindUser(LiveRows(q.entries), user).Some?
    requires var entry := LiveRows(q.entries)[FindUser(LiveRows(q.entries), user).value];
      entry.status.Offered? && entry.expiresAt > t1 && entry.expiresAt > t2 && !InsertConflicts(q, user, c, entry.id)
    requires !Busy(q, user, c, t1) && d in q.devices && q.devices[d].SeenSince(t2 - 15_000)
    ensures Create(db, user, c, t1, t2, Some(d), newId).Granted?
  {
  }

  lemma NothingConflicts(db: Db, user: UserId, c: CarId, now: int, d: DeviceId, e: Entry)
    requires Valid(db) && CanDrive(db, c, d, now) && e in db.entries && e.Live() && !HasHeldSession(db, user)
    ensures !InsertConflicts(db, user, c, e.id) && !Busy(db, user, c, now)
  {
  }

  /** The accepted car is one the advance counted, at both clock readings of the acceptance and at any time in
      between; and at any time at all, having taken it leaves exactly this one car fewer. */
  lemma AcceptTakesOneCountedCar(db: Db, user: UserId, c: CarId, t1: int, t2: int, locked: Option<DeviceId>, newId: SessionId, t: int)
    requires Valid(db) && Allowed(db, CreateStep(user, c, t1, t2, locked, newId))
    requires Create(db, user, c, t1, t2, locked, newId).Granted?
    ensures var q := AdvanceQueue(db, t1); var after := Create(db, user, c, t1, t2, locked, newId).db;
      AvailableCars(after, t) == AvailableCars(q, t) - {c} && (t1 <= t <= t2 ==> c in AvailableCars(q, t))
  {
    var q := AdvanceQueue(db, t1);
    var after := Create(db, user, c, t1, t2, locked, newId).db;
    var p := CreateEffect(db, user, c, t1, t2, locked, newId);
    assert CanDrive(db, c, locked.value, t1);
    forall x | x in db.cars && x != c
      ensures Available(after, x, t) <==> Available(q, x, t)
    {
      OtherCarIsSame(q, after, newId, x, t);
    }
    if t1 <= t <= t2 { LockedCarIsCounted(q, user, c, t1, t2, locked.value, t); }
  }

  lemma OtherCarIsSame(q: Db, after: Db, newId: SessionId, x: CarId, t: int)
    requires newId !in q.sessions && newId in after.sessions && after.sessions == q.sessions[newId := after.sessions[newId]]
    requires after.sessions[newId].car != x && after.devices == q.devices
    requires x in q.cars && x in after.cars && after.cars[x] == q.cars[x]
    ensures Available(after, x, t) <==> Available(q, x, t)
  {
    if InUse(q, x, t) {
      var s :| s in q.sessions && q.sessions[s].car == x && q.sessions[s].Held() && q.sessions[s].expiresAt > t;
      assert after.sessions[s] == q.sessions[s];
    }
  }

  lemma LockedCarIsCounted(q: Db, user: UserId, c: CarId, t1: int, t2: int, d: DeviceId, t: int)
    requires CanDrive(q, c, d, t1) && !Busy(q, user, c, t1) && t1 <= t <= t2
    requires q.devices[d].SeenSince(t2 - 15_000)
    ensures c in AvailableCars(q, t)
  {
    assert q.devices[d].Serves(c, t);
  }

  /** Accepting an offer disturbs nobody: whatever the second clock reading, an advance at the time of the first
      finds nothing to do afterwards, and everybody else's row is still there as it was. */
  lemma AcceptDisturbsNobody(db: Db, user: UserId, c: CarId, t1: int, t2: int, locked: Option<DeviceId>, newId: SessionId)
    requires Valid(db) && Allowed(db, CreateStep(user, c, t1, t2, locked, newId)) && t1 <= t2
    requires Create(db, user, c, t1, t2, locked, newId).Granted?
    ensures var q := AdvanceQueue(db, t1); var after := Create(db, user, c, t1, t2, locked, newId).db;
      && AdvanceQueue(after, t1) == after
      && forall e :: e in q.entries && e.user != user ==> e in after.entries
  {
    var q := AdvanceQueue(db, t1);
    var p := CreateEffect(db, user, c, t1, t2, locked, newId);
    AdvanceKeepsValid(db, t1);
    AcceptLeavesOneLess(db, user, c, t1, t2, locked, newId, t1);
    AdvanceSettles(db.entries, Capacity(db, t1), t1);
    SameFleet(db, q, t1);
    AcceptanceDisturbsNobody(q.entries, Capacity(q, t1), t1, p);
    AcceptKeepsOthers(q.entries, p);
  }

  lemma AcceptLeavesOneLess(db: Db, user: UserId, c: CarId, t1: int, t2: int, locked: Option<DeviceId>, newId: SessionId, t: int)
    requires Valid(db) && Allowed(db, CreateStep(user, c, t1, t2, locked, newId)) && t1 <= t <= t2
    requires Create(db, user, c, t1, t2, locked, newId).Granted?
    ensures var q := AdvanceQueue(db, t1); var after := Create(db, user, c, t1, t2, locked, newId).db;
      Capacity(q, t) > 0 && Capacity(after, t) == Capacity(q, t) - 1
  {
    AcceptTakesOneCountedCar(db, user, c, t1, t2, locked, newId, t);
  }

  /** And at any time up to the second reading, when more offers may have lapsed or cars gone: an advance after the
      acceptance treats everybody else exactly as it would have without it, if and only if the queue and the cars
      left room for the driver beforehand. */
  lemma AcceptCommutesIff(db: Db, user: UserId, c: CarId, t1: int, t2: int, locked: Option<DeviceId>, newId: SessionId, t: int)
    returns (p: nat)
    requires Valid(db) && Allowed(db, CreateStep(user, c, t1, t2, locked, newId)) && t1 <= t <= t2
    requires Create(db, user, c, t1, t2, locked, newId).Granted?
    ensures var q := AdvanceQueue(db, t1);
      && p < |q.entries| == |AdvanceQueue(q, t).entries| && q.entries[p].user == user && q.entries[p].status.Offered?
    ensures var q := AdvanceQueue(db, t1); var with := AdvanceQueue(q, t).entries;
      var after := Create(db, user, c, t1, t2, locked, newId).db;
      AdvanceQueue(after, t).entries == WithoutRow(with, q.entries, p) <==> RoomFor(q.entries, Capacity(q, t), t, p)
  {
    var q := AdvanceQueue(db, t1);
    p := CreateEffect(db, user, c, t1, t2, locked, newId);
    AdvanceKeepsValid(db, t1);
    AcceptLeavesOneLess(db, user, c, t1, t2, locked, newId, t);
    AcceptanceCommutesIff(q.entries, Capacity(q, t), t, p);
  }

  lemma AcceptKeepsOthers(rows: seq<Entry>, p: nat)
    requires DistinctIds(rows) && p < |rows|
    ensures forall e :: e in rows && e.user != rows[p].user ==> e in SetStatus(rows, rows[p].id, Accepted)
  {
    forall e | e in rows && e.user != rows[p].user
      ensures e in SetStatus(rows, rows[p].id, Accepted)
    {
      var i :| 0 <= i < |rows| && rows[i] == e;
      assert SetStatus(rows, rows[p].id, Accepted)[i] == e;
    }
  }

  lemma SameFleet(db: Db, other: Db, now: int)
    requires db.sessions == other.sessions && db.cars == other.cars && db.devices == other.devices
    ensures AvailableCars(db, now) == AvailableCars(other, now)
  {
    forall c | c in db.cars
      ensures Available(db, c, now) <==> Available(other, c, now)
    {
      assert InUse(db, c, now) <==> InUse(other, c, now);
    }
  }

  // ---------- Transactions as runs of statements ----------

  function PlaceStatements(rows: seq<Entry>, user: UserId, now: int, newId: EntryId): seq<Statement> {
    var index := FindUser(LiveRows(rows), user);
    if index.None? then [Insert(newId, user, now)]
    else if LiveRows(rows)[index.value].status.Waiting? then [Refresh(LiveRows(rows)[index.value].id, now + QUEUE_LEASE_MS)]
    else []
  }

  /** The statements a step runs on the queue's table, in order. */
  function Statements(db: Db, step: Step): seq<Statement> {
    match step
    case JoinStep(user, now, explicitJoin, driving, newEntry) =>
      var first := Tick(now, Capacity(db, now));
      var q := AdvanceQueue(db, now);
      if driving.Some? && driving.value in q.sessions && q.sessions[driving.value].entry.Some? then [first]
      else if HeldBack(q.entries, user, explicitJoin) then [first]
      else [first] + PlaceStatements(q.entries, user, now, newEntry) + [first]
    case LeaveStep(user, now) => [LeaveUser(user, now), Tick(now, Capacity(db, now))]
    case CreateStep(user, c, t1, t2, locked, newSession) =>
      var first := Tick(t1, Capacity(db, t1));
      var q := AdvanceQueue(db, t1);
      var index := FindUser(LiveRows(q.entries), user);
      if Create(db, user, c, t1, t2, locked, newSession).Granted? && index.Some? then
        [first, Accept(LiveRows(q.entries)[index.value].id)]
      else if Create(db, user, c, t1, t2, locked, newSession).db == q then [first]
      else [first, Tick(t2, Capacity(db, t2))]
    case EndStep(s, now, _) =>
      if s in db.sessions && db.sessions[s].Held() then [Close(EntriesOf(db.sessions, {s}), now)] else []
    case ExpireStep(now, _) => [Close(EntriesOf(db.sessions, DueSessions(db, now)), now)]
    case _ => []
  }

  lemma RunOne(rows: seq<Entry>, s: Statement)
    ensures Run(rows, [s]) == Apply(rows, s)
  {
    assert Run(rows, [s]) == Run(Apply(rows, s), [s][1..]);
    assert [s][1..] == [];
  }

  lemma RunTwo(rows: seq<Entry>, s: Statement, t: Statement)
    ensures Run(rows, [s, t]) == Apply(Apply(rows, s), t)
  {
    assert [s, t] == [s] + [t];
    RunAppend(rows, [s], [t]);
    RunOne(rows, s);
    RunOne(Apply(rows, s), t);
  }

  lemma PlaceIsStatements(rows: seq<Entry>, user: UserId, now: int, newId: EntryId)
    requires DistinctIds(rows)
    ensures Run(rows, PlaceStatements(rows, user, now, newId)) == TakePlace(rows, user, now, newId)
  {
    var index := FindUser(LiveRows(rows), user);
    if index.None? {
      RunOne(rows, Insert(newId, user, now));
    } else {
      var k := LiveRowsFrom(rows, index.value);
      if rows[k].status.Waiting? {
        RunOne(rows, Refresh(rows[k].id, now + QUEUE_LEASE_MS));
        assert RefreshRow(rows, rows[k].id, now + QUEUE_LEASE_MS) == SetRow(rows, rows[k].id, Waiting, now + QUEUE_LEASE_MS);
      }
    }
  }

  lemma JoinIsStatements(db: Db, user: UserId, now: int, explicitJoin: bool, driving: Option<SessionId>, newId: EntryId)
    requires Valid(db)
    ensures ReadOrJoin(db, user, now, explicitJoin, driving, newId).entries
      == Run(db.entries, Statements(db, JoinStep(user, now, explicitJoin, driving, newId)))
  {
    var q := AdvanceQueue(db, now);
    var first := Tick(now, Capacity(db, now));
    AdvanceKeepsValid(db, now);
    RunOne(db.entries, first);
    var place := PlaceStatements(q.entries, user, now, newId);
    PlaceIsStatements(q.entries, user, now, newId);
    var placed := TakePlace(q.entries, user, now, newId);
    SameFleet(db, q.(entries := placed), now);
    RunOne(placed, first);
    RunAppend(db.entries, [first], place);
    RunAppend(db.entries, [first] + place, [first]);
  }

  lemma CreateIsStatements(db: Db, user: UserId, c: CarId, t1: int, t2: int, locked: Option<DeviceId>, newId: SessionId)
    ensures Create(db, user, c, t1, t2, locked, newId).db.entries
      == Run(db.entries, Statements(db, CreateStep(user, c, t1, t2, locked, newId)))
  {
    var q := AdvanceQueue(db, t1);
    var first, second := Tick(t1, Capacity(db, t1)), Tick(t2, Capacity(db, t2));
    if Create(db, user, c, t1, t2, locked, newId).Granted? {
      var id := LiveRows(q.entries)[FindUser(LiveRows(q.entries), user).value].id;
      RunTwo(db.entries, first, Accept(id));
    } else {
      RefusedCreate(db, user, c, t1, t2, locked, newId);
      SameFleet(db, q, t2);
      RunOne(db.entries, first);
      RunTwo(db.entries, first, second);
    }
  }

  /** Every transaction acts on the queue as its statements in order, and on nothing else of it. */
  lemma StepIsStatements(db: Db, step: Step)
    requires Valid(db) && Allowed(db, step)
    ensures Next(db, step).entries == Run(db.entries, Statements(db, step))
  {
    match step
    case JoinStep(user, now, explicitJoin, driving, newEntry) =>
      JoinIsStatements(db, user, now, explicitJoin, driving, newEntry);
    case LeaveStep(user, now) =>
      SameFleet(db, db.(entries := LeaveRows(db.entries, user, now)), now);
      RunTwo(db.entries, LeaveUser(user, now), Tick(now, Capacity(db, now)));
    case CreateStep(user, c, t1, t2, locked, newSession) =>
      CreateIsStatements(db, user, c, t1, t2, locked, newSession);
    case EndStep(s, now, _) => RunOne(db.entries, Close(EntriesOf(db.sessions, {s}), now));
    case ExpireStep(now, _) => RunOne(db.entries, Close(EntriesOf(db.sessions, DueSessions(db, now)), now));
    case _ =>
  }

  function Trace(db: Db, run: seq<Step>): seq<Statement>
    decreases |run|
  {
    if run == [] then [] else Statements(db, run[0]) + Trace(Next(db, run[0]), run[1..])
  }

  lemma {:induction false} RunIsTrace(db: Db, run: seq<Step>)
    requires Valid(db) && AllowedRun(db, run)
    ensures After(db, run).entries == Run(db.entries, Trace(db, run))
    decreases |run|
  {
    if run != [] {
      var next := Next(db, run[0]);
      StepIsStatements(db, run[0]);
      NextKeepsValid(db, run[0]);
      RunIsTrace(next, run[1..]);
      RunAppend(db.entries, Statements(db, run[0]), Trace(next, run[1..]));
    }
  }

  // ---------- What the transactions see to ----------

  lemma WaitingRowsStayOut(db: Db, due: set<SessionId>)
    requires Valid(db) && forall s :: s in due ==> s in db.sessions && db.sessions[s].Held()
    ensures forall i :: 0 <= i < |db.entries| && db.entries[i].id in EntriesOf(db.sessions, due) ==> !db.entries[i].status.Waiting?
  {
    forall i | 0 <= i < |db.entries| && db.entries[i].id in EntriesOf(db.sessions, due)
      ensures !db.entries[i].status.Waiting?
    {
      ClosedRowIsAccepted(db, due, i);
    }
  }

  lemma SaneOne(rows: seq<Entry>, s: Statement)
    requires Sane(rows, s)
    ensures SaneRun(rows, [s])
  {
    assert [s][..0] == [];
    assert SaneAt(rows, [s], 0);
  }

  lemma SaneTwo(rows: seq<Entry>, s: Statement, t: Statement)
    requires Sane(rows, s) && Sane(Apply(rows, s), t)
    ensures SaneRun(rows, [s, t])
  {
    SaneOne(rows, s);
    SaneOne(Apply(rows, s), t);
    RunOne(rows, s);
    SaneAppend(rows, [s], [t]);
    assert [s, t] == [s] + [t];
  }

  lemma JoinIsSane(db: Db, user: UserId, now: int, explicitJoin: bool, driving: Option<SessionId>, newId: EntryId)
    requires Valid(db) && newId !in Ids(db.entries)
    ensures SaneRun(db.entries, Statements(db, JoinStep(user, now, explicitJoin, driving, newId)))
  {
    var q := AdvanceQueue(db, now);
    var first := Tick(now, Capacity(db, now));
    AdvanceKeepsTable(db.entries, Capacity(db, now), now);
    SaneOne(db.entries, first);
    RunOne(db.entries, first);
    var place := PlaceStatements(q.entries, user, now, newId);
    PlaceIsStatements(q.entries, user, now, newId);
    if place != [] { SaneOne(q.entries, place[0]); }
    TakePlaceKeepsTable(q.entries, user, now, newId);
    SaneOne(TakePlace(q.entries, user, now, newId), first);
    SaneAppend(db.entries, [first], place);
    RunAppend(db.entries, [first], place);
    SaneAppend(db.entries, [first] + place, [first]);
  }

  lemma CreateIsSane(db: Db, user: UserId, c: CarId, t1: int, t2: int, locked: Option<DeviceId>, newId: SessionId)
    requires Valid(db)
    ensures SaneRun(db.entries, Statements(db, CreateStep(user, c, t1, t2, locked, newId)))
  {
    var first, second := Tick(t1, Capacity(db, t1)), Tick(t2, Capacity(db, t2));
    AdvanceKeepsTable(db.entries, Capacity(db, t1), t1);
    if Create(db, user, c, t1, t2, locked, newId).Granted? {
      AcceptIsSane(db, user, c, t1, t2, locked, newId);
    } else {
      SaneOne(db.entries, first);
      SaneTwo(db.entries, first, second);
    }
  }

  lemma AcceptIsSane(db: Db, user: UserId, c: CarId, t1: int, t2: int, locked: Option<DeviceId>, newId: SessionId)
    requires Valid(db) && Create(db, user, c, t1, t2, locked, newId).Granted?
    ensures
      var live := LiveRows(AdvanceQueue(db, t1).entries);
      FindUser(live, user).Some? && SaneRun(db.entries, [Tick(t1, Capacity(db, t1)), Accept(live[FindUser(live, user).value].id)])
  {
    var rows := AdvanceQueue(db, t1).entries;
    AdvanceKeepsTable(db.entries, Capacity(db, t1), t1);
    var index := FindUser(LiveRows(rows), user).value;
    OfferedIsAccepted(rows, index);
    SaneTwo(db.entries, Tick(t1, Capacity(db, t1)), Accept(LiveRows(rows)[index].id));
  }

  lemma OfferedIsAccepted(rows: seq<Entry>, index: nat)
    requires InOrder(rows) && DistinctIds(rows) && index < LiveCount(rows) && LiveRows(rows)[index].status.Offered?
    ensures Sane(rows, Accept(LiveRows(rows)[index].id))
  {
    var p := LiveRowsFrom(rows, index);
  }

  /** In every transaction of both services: the table is in order at each statement, inserted ids are new, only
      offered rows are accepted and only accepted ones closed. */
  lemma StepIsSane(db: Db, step: Step)
    requires Valid(db) && Allowed(db, step)
    ensures SaneRun(db.entries, Statements(db, step))
  {
    match step
    case JoinStep(user, now, explicitJoin, driving, newEntry) => JoinIsSane(db, user, now, explicitJoin, driving, newEntry);
    case LeaveStep(user, now) =>
      LeaveKeepsValid(db, user, now);
      SaneTwo(db.entries, LeaveUser(user, now), Tick(now, Capacity(db, now)));
    case CreateStep(user, c, t1, t2, locked, newSession) => CreateIsSane(db, user, c, t1, t2, locked, newSession);
    case EndStep(s, now, _) =>
      if s in db.sessions && db.sessions[s].Held() {
        WaitingRowsStayOut(db, {s});
        SaneOne(db.entries, Close(EntriesOf(db.sessions, {s}), now));
      }
    case ExpireStep(now, _) =>
      WaitingRowsStayOut(db, DueSessions(db, now));
      SaneOne(db.entries, Close(EntriesOf(db.sessions, DueSessions(db, now)), now));
    case _ =>
  }

  lemma {:induction false} RunIsSane(db: Db, run: seq<Step>)
    requires Valid(db) && AllowedRun(db, run)
    ensures SaneRun(db.entries, Trace(db, run))
    decreases |run|
  {
    if run != [] {
      StepIsSane(db, run[0]);
      StepIsStatements(db, run[0]);
      NextKeepsValid(db, run[0]);
      RunIsSane(Next(db, run[0]), run[1..]);
      SaneAppend(db.entries, Statements(db, run[0]), Trace(Next(db, run[0]), run[1..]));
    }
  }

  // ---------- Bounded waiting over whole runs ----------

  ghost predicate ClocksUpTo(trace: seq<Statement>, t: int) {
    forall s :: s in trace && s.Tick? ==> s.now <= t
  }

  lemma {:induction false} OffersWithinRun(rows: seq<Entry>, trace: seq<Statement>, t: int)
    requires OffersWithin(rows, t) && ClocksUpTo(trace, t)
    ensures OffersWithin(Run(rows, trace), t)
    decreases |trace|
  {
    if trace != [] {
      OnlyAdvancesOffer(rows, trace[0], t);
      OffersWithinRun(Apply(rows, trace[0]), trace[1..], t);
    }
  }

  /** In every reachable state, no offer reaches further than 15 s past the latest clock read. */
  lemma OffersAreShort(run: seq<Step>, t: int)
    requires AllowedRun(Empty, run) && ClocksUpTo(Trace(Empty, run), t)
    ensures OffersWithin(After(Empty, run).entries, t)
  {
    RunIsTrace(Empty, run);
    OffersWithinRun(Empty.entries, Trace(Empty, run), t);
  }

  /** Take any run of both services from an empty database, whose clocks did not pass `start`, and a driver
      waiting at position `p`. Along any further run that begins with an advance at `start` and treats the
      driver fairly until there is an offer, the offer comes within k * (15000 + d) ms, k being the people
      ahead. Fairness is only what the services cannot see to: advances at least every d ms that see a car,
      joins in time order, a kept lease, and a driver who does not leave. */
  lemma WaitingIsBounded(run: seq<Step>, rest: seq<Step>, db: Db, trace: seq<Statement>, start: int, p: nat, d: nat, bound: int)
    requires AllowedRun(Empty, run) && db == After(Empty, run) && ClocksUpTo(Trace(Empty, run), start)
    requires AllowedRun(db, rest) && trace == Trace(db, rest)
    requires p < |db.entries| && db.entries[p].status.Waiting?
    requires trace != [] && trace[0].Tick? && trace[0].now == start
    requires Fair(db.entries, trace, p, start, d)
    requires bound == start + Ahead(db.entries, p) * (15_000 + d)
    requires exists s :: s in trace && s.Tick? && s.now >= bound
    ensures OfferedBy(db.entries, trace, p, bound)
  {
    OffersAreShort(run, start);
    RunKeepsValid(Empty, run);
    RunIsSane(db, rest);
    BoundedWaiting(db.entries, trace, p, d, bound);
  }
}

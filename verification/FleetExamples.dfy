/** States that runs of both services do reach, where the code does less than it seems to promise. */
module FleetExamples {
  import opened LiveQueue
  import opened Fleet
  import opened FleetLaws

  ghost predicate Reachable(db: Db) {
    exists run :: AllowedRun(Empty, run) && After(Empty, run) == db
  }

  lemma {:induction false} RunOneMore(db: Db, run: seq<Step>, step: Step)
    requires AllowedRun(db, run) && Allowed(After(db, run), step)
    ensures AllowedRun(db, run + [step]) && After(db, run + [step]) == Next(After(db, run), step)
    decreases |run|
  {
    if run == [] {
      OneStep(db, step);
      assert run + [step] == [step];
    } else {
      RunOneMore(Next(db, run[0]), run[1..], step);
      StepFirst(db, run[0], run[1..] + [step]);
      assert run + [step] == [run[0]] + (run[1..] + [step]);
    }
  }

  lemma OneStep(db: Db, step: Step)
    requires Allowed(db, step)
    ensures AllowedRun(db, [step]) && After(db, [step]) == Next(db, step)
  {
    StepFirst(db, step, []);
    assert [step] == [step] + [];
  }

  lemma StepFirst(db: Db, step: Step, rest: seq<Step>)
    requires Allowed(db, step) && AllowedRun(Next(db, step), rest)
    ensures AllowedRun(db, [step] + rest) && After(db, [step] + rest) == After(Next(db, step), rest)
  {
    assert ([step] + rest)[1..] == rest;
  }

  lemma ReachableNext(db: Db, step: Step)
    requires Reachable(db) && Allowed(db, step)
    ensures Reachable(Next(db, step))
  {
    var run :| AllowedRun(Empty, run) && After(Empty, run) == db;
    RunOneMore(Empty, run, step);
  }

  lemma ReachableIsValid(db: Db)
    requires Reachable(db)
    ensures Valid(db)
  {
    var run :| AllowedRun(Empty, run) && After(Empty, run) == db;
    RunKeepsValid(Empty, run);
  }

  // ---------- A session that has run out but was not ended ----------

  /** A new car with its device, which has just been heard of. */
  function WithCar(db: Db, c: CarId, d: DeviceId, now: int): Db {
    db.(cars := db.cars[c := Car(AVAILABLE, false)], devices := db.devices[d := Device(Some(c), AVAILABLE, Some(now))])
  }

  /** The same before the device said that it is ready, and before it was heard of. */
  function WithIdleCar(db: Db, c: CarId, d: DeviceId): Db {
    db.(cars := db.cars[c := Car(OFFLINE, false)], devices := db.devices[d := Device(Some(c), AVAILABLE, None)])
  }

  lemma IdleCarArrives(db: Db, c: CarId, d: DeviceId)
    requires Reachable(db) && c !in db.cars && d !in db.devices
    ensures Reachable(WithIdleCar(db, c, d))
  {
    var provisioned := db.(cars := db.cars[c := Car(OFFLINE, false)]);
    ReachableNext(db, ProvisionStep(c));
    assert Next(db, ProvisionStep(c)) == provisioned;
    var enrolled := provisioned.(devices := db.devices[d := Device(Some(c), INITIALIZING, None)]);
    ReachableNext(provisioned, EnrollStep(d, c));
    assert Next(provisioned, EnrollStep(d, c)) == enrolled;
    ReachableNext(enrolled, DeviceStep(d, AVAILABLE));
    assert Next(enrolled, DeviceStep(d, AVAILABLE)) == WithIdleCar(db, c, d);
  }

  lemma CarArrives(db: Db, c: CarId, d: DeviceId, now: int)
    requires Reachable(db) && c !in db.cars && d !in db.devices && forall s :: s in db.sessions ==> db.sessions[s].car != c
    ensures Reachable(WithCar(db, c, d, now))
  {
    IdleCarArrives(db, c, d);
    var heard := WithIdleCar(db, c, d).(devices := db.devices[d := Device(Some(c), AVAILABLE, Some(now))]);
    IdleCarIsHeard(db, c, d, now);
    FreeCarFollows(heard, c);
    ReachableNext(heard, CarPresenceStep(c, AVAILABLE));
  }

  lemma IdleCarIsHeard(db: Db, c: CarId, d: DeviceId, now: int)
    requires Reachable(WithIdleCar(db, c, d))
    ensures Reachable(WithIdleCar(db, c, d).(devices := db.devices[d := Device(Some(c), AVAILABLE, Some(now))]))
  {
    var idle := WithIdleCar(db, c, d);
    ReachableNext(idle, HeartbeatStep(d, now));
    assert Next(idle, HeartbeatStep(d, now)) == idle.(devices := db.devices[d := Device(Some(c), AVAILABLE, Some(now))]);
  }

  lemma FreeCarFollows(db: Db, c: CarId)
    requires c in db.cars && db.cars[c] == Car(OFFLINE, false) && forall s :: s in db.sessions ==> db.sessions[s].car != c
    ensures Next(db, CarPresenceStep(c, AVAILABLE)) == db.(cars := db.cars[c := Car(AVAILABLE, false)])
  {
  }

  lemma NewCarIsCounted(db: Db, c: CarId, d: DeviceId, now: int)
    requires forall s :: s in db.sessions ==> db.sessions[s].car != c
    ensures Capacity(WithCar(db, c, d, now), now) > 0 && CanDrive(WithCar(db, c, d, now), c, d, now)
  {
    var q := WithCar(db, c, d, now);
    assert q.devices[d].Serves(c, now);
    assert c in AvailableCars(q, now);
  }

  ghost predicate Over(rows: seq<Entry>, now: int) {
    LiveRows(rows) == [] && forall i :: 0 <= i < |rows| ==> !rows[i].Live() && rows[i].joinedAt < now
  }

  lemma JoinerIsLast(rows: seq<Entry>, user: UserId, now: int, newId: EntryId)
    requires Over(rows, now)
    ensures TakePlace(rows, user, now, newId) == rows + [Entry(newId, user, Waiting, now, now + QUEUE_LEASE_MS)]
  {
  }

  lemma LastIsOffered(rows: seq<Entry>, e: Entry, capacity: nat, now: int)
    requires AdvanceRows(rows, capacity, now) == rows && LiveRows(rows) == [] && capacity > 0
    ensures AdvanceRows(rows + [e], capacity, now) == rows + [Advanced(e, true, now)]
  {
    assert (rows + [e])[..|rows|] == rows;
  }

  lemma NothingToAdvance(rows: seq<Entry>, capacity: nat, now: int)
    requires Over(rows, now)
    ensures AdvanceRows(rows, capacity, now) == rows
  {
    assert Settled(rows, capacity, now);
    AdvanceFixpoint(rows, capacity, now);
  }

  /** A queue without live rows, and a joiner later than all of them: the joiner is offered a place at once. */
  lemma JoinerIsOffered(db: Db, user: UserId, now: int, newId: EntryId)
    requires Capacity(db, now) > 0 && Over(db.entries, now)
    ensures ReadOrJoin(db, user, now, true, None, newId)
      == db.(entries := db.entries + [Entry(newId, user, Offered, now, now + QUEUE_OFFER_MS)])
  {
    NothingToAdvance(db.entries, Capacity(db, now), now);
    assert AdvanceQueue(db, now) == db;
    JoinerIsLast(db.entries, user, now, newId);
    LastIsOffered(db.entries, Entry(newId, user, Waiting, now, now + QUEUE_LEASE_MS), Capacity(db, now), now);
    var placed := db.(entries := TakePlace(db.entries, user, now, newId));
    SameFleet(db, placed, now);
  }

  lemma OfferStands(db: Db, user: UserId, c: CarId, d: DeviceId)
    requires db.entries == [Entry(0, user, Offered, 0, QUEUE_OFFER_MS)] && db.sessions == map[] && CanDrive(db, c, d, 0)
    ensures AdvanceQueue(db, 0) == db
  {
    assert db.devices[d].Serves(c, 0) && c in AvailableCars(db, 0);
    OneOfferIsSettled(db.entries, Capacity(db, 0));
  }

  lemma OneOfferIsSettled(rows: seq<Entry>, capacity: nat)
    requires |rows| == 1 && rows[0].status.Offered? && rows[0].expiresAt > 0 && capacity > 0
    ensures AdvanceRows(rows, capacity, 0) == rows
  {
    assert rows[..0] == [];
    assert SettledRow(rows, capacity, 0, 0);
    AdvanceFixpoint(rows, capacity, 0);
  }

  function Driving(db: Db, user: UserId, c: CarId, s: SessionId): Db {
    db.(entries := [Entry(0, user, Accepted, 0, QUEUE_OFFER_MS)], cars := SetCar(db.cars, c, RESERVED),
        sessions := map[s := Session(user, c, Some(0), Created, DRIVE_SESSION_DURATION_MS, 0)])
  }

  /** One drive granted from an otherwise idle fleet. */
  lemma DriveIsGranted(db: Db, user: UserId, c: CarId, d: DeviceId, s: SessionId)
    requires Reachable(db) && db.entries == [Entry(0, user, Offered, 0, QUEUE_OFFER_MS)] && db.sessions == map[]
    requires CanDrive(db, c, d, 0)
    ensures Reachable(Driving(db, user, c, s))
  {
    ReachableIsValid(db);
    OfferStands(db, user, c, d);
    StandingOfferIsGranted(db, user, c, 0, 0, d, s, 0);
    GrantedIs(db, user, c, d, s);
    ReachableNext(db, CreateStep(user, c, 0, 0, Some(d), s));
  }

  lemma GrantedIs(db: Db, user: UserId, c: CarId, d: DeviceId, s: SessionId)
    requires db.entries == [Entry(0, user, Offered, 0, QUEUE_OFFER_MS)] && db.sessions == map[] && AdvanceQueue(db, 0) == db
    requires Create(db, user, c, 0, 0, Some(d), s).Granted?
    ensures Create(db, user, c, 0, 0, Some(d), s).db == Driving(db, user, c, s)
  {
    var p := CreateEffect(db, user, c, 0, 0, Some(d), s);
    assert SetStatus(db.entries, 0, Accepted) == [Entry(0, user, Accepted, 0, QUEUE_OFFER_MS)];
  }

  /** A reachable state at time 400,000 in which everything speaks for a drive and `create` refuses it. */
  ghost predicate Blocked(db: Db, user: UserId, c: CarId, d: DeviceId, stale: SessionId, newId: SessionId) {
    var now := 400_000;
    && Reachable(db) && Allowed(db, CreateStep(user, c, now, now, Some(d), newId))
    && (exists e :: e in db.entries && e.user == user && e.status.Offered? && e.expiresAt > now)
    && CanDrive(db, c, d, now) && !Busy(db, user, c, now)
    && stale in db.sessions && db.sessions[stale].user == user && db.sessions[stale].Held() && db.sessions[stale].expiresAt <= now
    && Create(db, user, c, now, now, Some(d), newId).Refused?
  }

  function FirstOffer(user: UserId, c: CarId, d: DeviceId): Db {
    WithCar(Empty, c, d, 0).(entries := [Entry(0, user, Offered, 0, QUEUE_OFFER_MS)])
  }

  lemma FirstOfferIsReached(user: UserId, c: CarId, d: DeviceId)
    ensures Reachable(FirstOffer(user, c, d))
  {
    assert AllowedRun(Empty, []) && After(Empty, []) == Empty;
    CarArrives(Empty, c, d, 0);
    NewCarIsCounted(Empty, c, d, 0);
    FirstJoinIsOffered(WithCar(Empty, c, d, 0), user);
  }

  lemma FirstJoinIsOffered(start: Db, user: UserId)
    requires Reachable(start) && start.entries == [] && start.sessions == map[] && Capacity(start, 0) > 0
    ensures Reachable(start.(entries := [Entry(0, user, Offered, 0, QUEUE_OFFER_MS)]))
  {
    JoinerIsOffered(start, user, 0, 0);
    var e := Entry(0, user, Offered, 0, QUEUE_OFFER_MS);
    assert start.entries + [e] == [e];
    JoinReaches(start, user, 0, 0, start.(entries := [e]));
  }

  lemma JoinReaches(db: Db, user: UserId, now: int, newId: EntryId, after: Db)
    requires Reachable(db) && newId !in Ids(db.entries) && forall s :: !IsDriving(db, s, user, now)
    requires after == ReadOrJoin(db, user, now, true, None, newId)
    ensures Reachable(after)
  {
    ReachableNext(db, JoinStep(user, now, true, None, newId));
  }

  function FirstDrive(user: UserId, c: CarId, d: DeviceId, s: SessionId): Db {
    Driving(FirstOffer(user, c, d), user, c, s)
  }

  lemma FirstDriveIsReached(user: UserId, c: CarId, d: DeviceId, s: SessionId)
    ensures Reachable(FirstDrive(user, c, d, s))
  {
    FirstOfferIsReached(user, c, d);
    NewCarIsCounted(Empty, c, d, 0);
    DriveIsGranted(FirstOffer(user, c, d), user, c, d, s);
  }

  /** The user's only session ran out at 300,000 and was not yet ended; a second car is free and offered to the user;
      the offer stands, the explicit check passes, and yet the drive is refused. */
  lemma RunOutSessionBlocks(user: UserId, c1: CarId, c2: CarId, d1: DeviceId, d2: DeviceId, stale: SessionId, newId: SessionId)
    requires c1 != c2 && d1 != d2 && stale != newId
    ensures exists db :: Blocked(db, user, c2, d2, stale, newId)
  {
    FirstDriveIsReached(user, c1, d1, stale);
    var driving := FirstDrive(user, c1, d1, stale);
    CarArrives(driving, c2, d2, 400_000);
    NewCarIsCounted(driving, c2, d2, 400_000);
    BlockedWhenLate(WithCar(driving, c2, d2, 400_000), user, c2, d2, stale, newId);
  }

  lemma BlockedWhenLate(db: Db, user: UserId, c: CarId, d: DeviceId, stale: SessionId, newId: SessionId)
    requires Reachable(db) && db.entries == [Entry(0, user, Accepted, 0, QUEUE_OFFER_MS)] && stale != newId
    requires db.sessions.Keys == {stale} && db.sessions[stale].user == user && db.sessions[stale].Held() && db.sessions[stale].expiresAt <= 400_000
    requires Capacity(db, 400_000) > 0 && CanDrive(db, c, d, 400_000)
    ensures exists after :: Blocked(after, user, c, d, stale, newId)
  {
    var now := 400_000;
    var e := Entry(1, user, Offered, now, now + QUEUE_OFFER_MS);
    assert LiveRows(db.entries) == [] by { assert db.entries[..0] == []; }
    JoinerIsOffered(db, user, now, 1);
    assert 1 !in Ids(db.entries);
    var after := db.(entries := db.entries + [e]);
    JoinReaches(db, user, now, 1, after);
    ReachableIsValid(after);
    assert after.entries[1] == e;
    CreateSucceedsIff(after, user, c, now, now, Some(d), newId);
    assert HasHeldSession(after, user);
    assert Blocked(after, user, c, d, stale, newId);
  }
}

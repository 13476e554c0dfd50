/** The database shared by the web app and the gateway: queue rows, drive sessions, cars, devices.
    Each transaction (or lone statement) is one step; steps of both services interleave freely.
    A row that a `select … limit 1` may choose freely, and every generated id, is an argument of the
    step, constrained by `Allowed`. */
module Fleet {
  import opened LiveQueue

  const DEVICE_FRESHNESS_MS: int := 15_000
  const DRIVE_SESSION_DURATION_MS: int := 300_000
  const DRIVE_CONNECTION_TIMEOUT_MS: int := 20_000

  type CarId(==, !new)
  type DeviceId(==, !new)
  type SessionId(==, !new)

  datatype CarState =
    | AVAILABLE | RESERVED | CONNECTING | ACTIVE | INITIALIZING | OFFLINE | SAFETY_BLOCKED | ADMIN_BLOCKED

  datatype SessionStatus = Created | Negotiating | Active | Ended

  datatype Session = Session(user: UserId, car: CarId, entry: Option<EntryId>, status: SessionStatus,
                             expiresAt: int, updatedAt: int)
  {
    /** The statuses that occupy a car. */
    predicate Held() { !status.Ended? }
  }

  datatype Car = Car(state: CarState, adminBlocked: bool)

  datatype Device = Device(car: Option<CarId>, state: CarState, lastSeenAt: Option<int>)
  {
    predicate SeenSince(cutoff: int) { lastSeenAt.Some? && lastSeenAt.value > cutoff }

    predicate Serves(c: CarId, now: int) {
      car == Some(c) && state == AVAILABLE && SeenSince(now - DEVICE_FRESHNESS_MS)
    }
  }

  datatype Db = Db(entries: seq<Entry>, sessions: map<SessionId, Session>, cars: map<CarId, Car>,
                   devices: map<DeviceId, Device>)

  // ---------- Queries ----------

  predicate InUse(db: Db, c: CarId, now: int) {
    exists s :: s in db.sessions && db.sessions[s].car == c && db.sessions[s].Held() && db.sessions[s].expiresAt > now
  }

  /** A fleet row that `listQueueCars` reports as available. */
  predicate Available(db: Db, c: CarId, now: int) {
    && c in db.cars && !db.cars[c].adminBlocked && db.cars[c].state == AVAILABLE
    && (exists d :: d in db.devices && db.devices[d].Serves(c, now))
    && !InUse(db, c, now)
  }

  function AvailableCars(db: Db, now: int): set<CarId> {
    set c | c in db.cars && Available(db, c, now)
  }

  function Capacity(db: Db, now: int): nat {
    |AvailableCars(db, now)|
  }

  /** The row `create` locks: a car with a device that can be driven right now. */
  predicate CanDrive(db: Db, c: CarId, d: DeviceId, now: int) {
    && c in db.cars && db.cars[c].state == AVAILABLE && !db.cars[c].adminBlocked
    && d in db.devices && db.devices[d].Serves(c, now)
  }

  predicate Busy(db: Db, user: UserId, c: CarId, now: int) {
    exists s :: s in db.sessions && db.sessions[s].Held() && db.sessions[s].expiresAt > now
      && (db.sessions[s].car == c || db.sessions[s].user == user)
  }

  /** The three unique indexes an inserted session can run into. */
  predicate InsertConflicts(db: Db, user: UserId, c: CarId, entry: EntryId) {
    exists s :: s in db.sessions
      && ((db.sessions[s].Held() && (db.sessions[s].car == c || db.sessions[s].user == user))
          || db.sessions[s].entry == Some(entry))
  }

  predicate HasHeldSession(db: Db, user: UserId) {
    exists s :: s in db.sessions && db.sessions[s].Held() && db.sessions[s].user == user
  }

  predicate IsDriving(db: Db, s: SessionId, user: UserId, now: int) {
    s in db.sessions && db.sessions[s].user == user && db.sessions[s].Held() && db.sessions[s].expiresAt > now
  }

  predicate ShouldExpire(s: Session, now: int) {
    s.expiresAt <= now
    || ((s.status.Created? || s.status.Negotiating?) && s.updatedAt <= now - DRIVE_CONNECTION_TIMEOUT_MS)
  }

  predicate CanActivate(s: Session, now: int) {
    s.status.Negotiating? && s.updatedAt > now - DRIVE_CONNECTION_TIMEOUT_MS && s.expiresAt > now
  }

  /** The state `freshDeviceStateSql` may give a car: that of a device seen last among the fresh ones. */
  predicate FreshState(db: Db, c: CarId, now: int, state: CarState) {
    var cutoff := now - DEVICE_FRESHNESS_MS;
    if c in db.cars && db.cars[c].adminBlocked then state == ADMIN_BLOCKED
    else if exists d :: d in db.devices && db.devices[d].car == Some(c) && db.devices[d].SeenSince(cutoff) then
      exists d :: d in db.devices && db.devices[d].car == Some(c) && db.devices[d].SeenSince(cutoff)
        && db.devices[d].state == state
        && forall other :: other in db.devices && db.devices[other].car == Some(c) && db.devices[other].SeenSince(cutoff) ==>
             db.devices[other].lastSeenAt.value <= db.devices[d].lastSeenAt.value
    else state == OFFLINE
  }

  // ---------- Transactions of the web app ----------

  function AdvanceQueue(db: Db, now: int): Db {
    db.(entries := AdvanceRows(db.entries, Capacity(db, now), now))
  }

  function ReadOrJoin(db: Db, user: UserId, now: int, explicitJoin: bool, driving: Option<SessionId>, newId: EntryId): Db {
    var q := AdvanceQueue(db, now);
    if driving.Some? && driving.value in q.sessions && q.sessions[driving.value].entry.Some? then q
    else if HeldBack(q.entries, user, explicitJoin) then q
    else AdvanceQueue(q.(entries := TakePlace(q.entries, user, now, newId)), now)
  }

  /** What the page shows at the end of the same transaction. */
  function JoinAnswer(db: Db, user: UserId, now: int, explicitJoin: bool, driving: Option<SessionId>, newId: EntryId): JoinResult {
    var q := AdvanceQueue(db, now);
    var count, available := LiveCount(q.entries), Capacity(q, now);
    if driving.Some? && driving.value in q.sessions && q.sessions[driving.value].entry.Some? then
      Answer(Snapshot(q.sessions[driving.value].entry.value, 0, count, available, Driving, None))
    else if HeldBack(q.entries, user, explicitJoin) then
      Answer(Snapshot(LastRowOf(q.entries, user).value.id, 0, count, available, LapsedOffer, None))
    else
      var after := ReadOrJoin(db, user, now, explicitJoin, driving, newId);
      QueueSnapshot(user, LiveRows(after.entries), Capacity(after, now))
  }

  function LeaveQueue(db: Db, user: UserId, now: int): Db {
    AdvanceQueue(db.(entries := LeaveRows(db.entries, user, now)), now)
  }

  datatype Outcome = Granted(db: Db) | Refused(db: Db)

  function Create(db: Db, user: UserId, c: CarId, t1: int, t2: int, locked: Option<DeviceId>, newId: SessionId): Outcome {
    var q := AdvanceQueue(db, t1);
    var index := FindUser(LiveRows(q.entries), user);
    if index.None? then Refused(q) else
    var entry := LiveRows(q.entries)[index.value];
    if !entry.status.Offered? || entry.expiresAt <= t1 then Refused(q)
    else if locked.None? || Busy(q, user, c, t1) then Refused(q)
    else if entry.expiresAt <= t2 then Refused(AdvanceQueue(q, t2))
    else if !(locked.value in q.devices && q.devices[locked.value].SeenSince(t2 - DEVICE_FRESHNESS_MS)) then Refused(q)
    else if InsertConflicts(q, user, c, entry.id) then Refused(q)
    else Granted(q.(
      sessions := q.sessions[newId := Session(user, c, Some(entry.id), Created, t2 + DRIVE_SESSION_DURATION_MS, t2)],
      entries := SetStatus(q.entries, entry.id, Accepted),
      cars := SetCar(q.cars, c, RESERVED)))
  }

  // ---------- Transactions of the gateway ----------

  function SetCar(cars: map<CarId, Car>, c: CarId, state: CarState): map<CarId, Car> {
    if c in cars then cars[c := cars[c].(state := state)] else cars
  }

  function Authorize(db: Db, s: SessionId, user: UserId, c: CarId, now: int): Db {
    if s in db.sessions && db.sessions[s].user == user && db.sessions[s].car == c
       && db.sessions[s].status.Created? && db.sessions[s].expiresAt > now then
      db.(sessions := db.sessions[s := db.sessions[s].(status := Negotiating, updatedAt := now)],
          cars := SetCar(db.cars, c, CONNECTING))
    else db
  }

  function MarkActive(db: Db, s: SessionId, now: int): Db {
    if s in db.sessions && CanActivate(db.sessions[s], now) then
      db.(sessions := db.sessions[s := db.sessions[s].(status := Active, updatedAt := now)],
          cars := SetCar(db.cars, db.sessions[s].car, ACTIVE))
    else db
  }

  /** Ends every session of `due`: the sessions, their queue rows and their cars in one transaction. */
  function EndSessions(db: Db, due: set<SessionId>, now: int, restored: map<CarId, CarState>): Db {
    Db(
      CloseRows(db.entries, EntriesOf(db.sessions, due), now),
      map s | s in db.sessions :: if s in due then db.sessions[s].(status := Ended, updatedAt := now) else db.sessions[s],
      map c | c in db.cars ::
        if c in CarsOf(db.sessions, due) && c in restored then db.cars[c].(state := restored[c]) else db.cars[c],
      db.devices)
  }

  function EntriesOf(sessions: map<SessionId, Session>, due: set<SessionId>): set<EntryId> {
    set s | s in due && s in sessions && sessions[s].entry.Some? :: sessions[s].entry.value
  }

  function CarsOf(sessions: map<SessionId, Session>, due: set<SessionId>): set<CarId> {
    set s | s in due && s in sessions :: sessions[s].car
  }

  function End(db: Db, s: SessionId, now: int, restored: map<CarId, CarState>): Db {
    if s in db.sessions && db.sessions[s].Held() then EndSessions(db, {s}, now, restored) else db
  }

  function DueSessions(db: Db, now: int): set<SessionId> {
    set s | s in db.sessions && db.sessions[s].Held() && ShouldExpire(db.sessions[s], now)
  }

  function Authenticate(db: Db, d: DeviceId): Db {
    if d in db.devices && db.devices[d].car.Some? then
      var c := db.devices[d].car.value;
      db.(devices := db.devices[d := db.devices[d].(state := INITIALIZING)],
          cars := if c in db.cars && !db.cars[c].adminBlocked then SetCar(db.cars, c, INITIALIZING) else db.cars)
    else db
  }

  /** The first statement of `setPresenceState` and of `markDeviceOffline`. */
  function WriteDevice(db: Db, d: DeviceId, state: CarState): Db {
    if d in db.devices then db.(devices := db.devices[d := db.devices[d].(state := state)]) else db
  }

  /** The last statement of `setPresenceState`: the car follows only while no session holds it. The
      written state was decided by earlier statements, so it may be stale: any state is possible. */
  function WriteCarPresence(db: Db, c: CarId, state: CarState): Db {
    if exists s :: s in db.sessions && db.sessions[s].car == c && db.sessions[s].Held() then db
    else db.(cars := SetCar(db.cars, c, state))
  }

  /** The last statement of `markDeviceOffline`: unconditional. */
  function WriteCarOffline(db: Db, c: CarId): Db {
    if c in db.cars then
      db.(cars := SetCar(db.cars, c, if db.cars[c].adminBlocked then ADMIN_BLOCKED else OFFLINE))
    else db
  }

  function Heartbeat(db: Db, d: DeviceId, now: int): Db {
    if d in db.devices then db.(devices := db.devices[d := db.devices[d].(lastSeenAt := Some(now))]) else db
  }

  // ---------- Steps ----------

  datatype Step =
    | JoinStep(user: UserId, now: int, explicitJoin: bool, driving: Option<SessionId>, newEntry: EntryId)
    | LeaveStep(user: UserId, now: int)
    | CreateStep(user: UserId, car: CarId, t1: int, t2: int, locked: Option<DeviceId>, newSession: SessionId)
    | AuthorizeStep(session: SessionId, user: UserId, car: CarId, now: int)
    | MarkActiveStep(session: SessionId, now: int)
    | EndStep(session: SessionId, now: int, restored: map<CarId, CarState>)
    | ExpireStep(now: int, restored: map<CarId, CarState>)
    | AuthenticateStep(device: DeviceId)
    | DeviceStep(device: DeviceId, state: CarState)
    | CarPresenceStep(car: CarId, state: CarState)
    | CarOfflineStep(car: CarId)
    | HeartbeatStep(device: DeviceId, now: int)
    | EnrollStep(device: DeviceId, car: CarId)
    | ProvisionStep(car: CarId)
    | AdminStep(car: CarId, blocked: bool)

  ghost predicate FreshFor(db: Db, due: set<SessionId>, now: int, restored: map<CarId, CarState>) {
    forall c :: c in CarsOf(db.sessions, due) ==> c in restored && FreshState(db, c, now, restored[c])
  }

  ghost predicate Allowed(db: Db, step: Step) {
    match step
    case JoinStep(user, now, _, driving, newEntry) =>
      && newEntry !in Ids(db.entries)
      && (driving.Some? ==> IsDriving(db, driving.value, user, now))
      && (driving.None? ==> forall s :: !IsDriving(db, s, user, now))
    case CreateStep(_, c, t1, _, locked, newSession) =>
      && newSession !in db.sessions
      && (locked.Some? ==> CanDrive(db, c, locked.value, t1))
      && (locked.None? ==> forall d :: !CanDrive(db, c, d, t1))
    case EndStep(s, now, restored) => FreshFor(db, {s}, now, restored)
    case ExpireStep(now, restored) => FreshFor(db, DueSessions(db, now), now, restored)
    case EnrollStep(d, c) => d !in db.devices && c in db.cars
    case ProvisionStep(c) => c !in db.cars
    case _ => true
  }

  function Next(db: Db, step: Step): Db {
    match step
    case JoinStep(user, now, explicitJoin, driving, newEntry) => ReadOrJoin(db, user, now, explicitJoin, driving, newEntry)
    case LeaveStep(user, now) => LeaveQueue(db, user, now)
    case CreateStep(user, c, t1, t2, locked, newSession) => Create(db, user, c, t1, t2, locked, newSession).db
    case AuthorizeStep(s, user, c, now) => Authorize(db, s, user, c, now)
    case MarkActiveStep(s, now) => MarkActive(db, s, now)
    case EndStep(s, now, restored) => End(db, s, now, restored)
    case ExpireStep(now, restored) => EndSessions(db, DueSessions(db, now), now, restored)
    case AuthenticateStep(d) => Authenticate(db, d)
    case DeviceStep(d, state) => WriteDevice(db, d, state)
    case CarPresenceStep(c, state) => WriteCarPresence(db, c, state)
    case CarOfflineStep(c) => WriteCarOffline(db, c)
    case HeartbeatStep(d, now) => Heartbeat(db, d, now)
    case EnrollStep(d, c) => db.(devices := db.devices[d := Device(Some(c), INITIALIZING, None)])
    case ProvisionStep(c) => db.(cars := db.cars[c := Car(OFFLINE, false)])
    case AdminStep(c, blocked) => if c in db.cars then db.(cars := db.cars[c := db.cars[c].(adminBlocked := blocked)]) else db
  }

  const Empty: Db := Db([], map[], map[], map[])

  ghost predicate AllowedRun(db: Db, run: seq<Step>)
    decreases |run|
  {
    run == [] || (Allowed(db, run[0]) && AllowedRun(Next(db, run[0]), run[1..]))
  }

  function After(db: Db, run: seq<Step>): Db
    decreases |run|
  {
    if run == [] then db else After(Next(db, run[0]), run[1..])
  }

  // ---------- The joint invariant ----------

  /** No car is held twice, and a held car is never shown as available. */
  ghost predicate CarsExclusive(sessions: map<SessionId, Session>, cars: map<CarId, Car>) {
    && (forall s :: s in sessions && sessions[s].Held() ==> sessions[s].car in cars && cars[sessions[s].car].state != AVAILABLE)
    && (forall s, t :: s in sessions && t in sessions && s != t && sessions[s].Held() && sessions[t].Held() ==>
          sessions[s].car != sessions[t].car)
  }

  ghost predicate UsersExclusive(sessions: map<SessionId, Session>) {
    forall s, t :: s in sessions && t in sessions && s != t && sessions[s].Held() && sessions[t].Held() ==>
      sessions[s].user != sessions[t].user
  }

  ghost function HeldEntries(sessions: map<SessionId, Session>): set<EntryId> {
    set s | s in sessions && sessions[s].Held() && sessions[s].entry.Some? :: sessions[s].entry.value
  }

  /** Queue rows and sessions are paired: a row is accepted exactly when a held session names it, no
      two sessions ever name the same row, and no session names a row that still waits. */
  ghost predicate Paired(entries: seq<Entry>, sessions: map<SessionId, Session>) {
    && AcceptedIds(entries) == HeldEntries(sessions)
    && (forall s, t :: s in sessions && t in sessions && s != t && sessions[s].entry.Some? ==>
          sessions[s].entry != sessions[t].entry)
    && (forall s :: s in sessions && sessions[s].entry.Some? ==> sessions[s].entry.value in Ids(entries))
    && (forall s, e :: s in sessions && e in entries && e.Live() ==> sessions[s].entry != Some(e.id))
  }

  ghost predicate Valid(db: Db) {
    && ValidTable(db.entries)
    && CarsExclusive(db.sessions, db.cars)
    && UsersExclusive(db.sessions)
    && Paired(db.entries, db.sessions)
  }

  // ---------- Every step keeps it ----------

  /** Statements on the queue that accept nobody and revive nobody leave the pairing intact. */
  lemma QueueKeepsPairs(entries: seq<Entry>, after: seq<Entry>, sessions: map<SessionId, Session>)
    requires Paired(entries, sessions)
    requires AcceptedIds(after) == AcceptedIds(entries) && Ids(entries) <= Ids(after)
    requires forall e :: e in after && e.Live() ==> e.id !in Ids(entries) || exists o :: o in entries && o.id == e.id && o.Live()
    ensures Paired(after, sessions)
  {
    forall s, e | s in sessions && e in after && e.Live()
      ensures sessions[s].entry != Some(e.id)
    {
      if e.id in Ids(entries) {
        var o :| o in entries && o.id == e.id && o.Live();
      }
    }
  }

  lemma AdvanceKeepsValid(db: Db, now: int)
    requires Valid(db)
    ensures Valid(AdvanceQueue(db, now)) && Ids(AdvanceQueue(db, now).entries) == Ids(db.entries)
    ensures forall e :: e in AdvanceQueue(db, now).entries && e.Live() ==> e.expiresAt > now
  {
    var capacity := Capacity(db, now);
    AdvanceKeepsTable(db.entries, capacity, now);
    AdvanceKeepsRows(db.entries, capacity, now);
    var after := AdvanceRows(db.entries, capacity, now);
    forall e | e in after && e.Live()
      ensures exists o :: o in db.entries && o.id == e.id && o.Live()
    {
      var i :| 0 <= i < |after| && after[i] == e;
      assert db.entries[i] in db.entries;
    }
    QueueKeepsPairs(db.entries, after, db.sessions);
  }

  lemma TakePlaceKeepsValid(db: Db, user: UserId, now: int, newId: EntryId)
    requires Valid(db) && newId !in Ids(db.entries)
    ensures Valid(db.(entries := TakePlace(db.entries, user, now, newId)))
  {
    var after := TakePlace(db.entries, user, now, newId);
    TakePlaceKeepsTable(db.entries, user, now, newId);
    forall e | e in after && e.Live()
      ensures e.id !in Ids(db.entries) || exists o :: o in db.entries && o.id == e.id && o.Live()
    {
      if FindUser(LiveRows(db.entries), user).None? {
        InsertKeepsTable(db.entries, newId, user, now);
      } else {
        var k := LiveRowsFrom(db.entries, FindUser(LiveRows(db.entries), user).value);
        var i :| 0 <= i < |after| && after[i] == e;
        assert db.entries[i] in db.entries;
      }
    }
    QueueKeepsPairs(db.entries, after, db.sessions);
  }

  lemma LeaveKeepsValid(db: Db, user: UserId, now: int)
    requires Valid(db)
    ensures Valid(db.(entries := LeaveRows(db.entries, user, now)))
  {
    var after := LeaveRows(db.entries, user, now);
    SameIds(db.entries, after);
    forall e | e in after && e.Live()
      ensures exists o :: o in db.entries && o.id == e.id && o.Live()
    {
      var i :| 0 <= i < |after| && after[i] == e;
      assert db.entries[i] in db.entries;
    }
    QueueKeepsPairs(db.entries, after, db.sessions);
  }

  /** What a successful `create` did, in terms of the queue it advanced. */
  lemma CreateEffect(db: Db, user: UserId, c: CarId, t1: int, t2: int, locked: Option<DeviceId>, newId: SessionId)
    returns (p: nat)
    requires Create(db, user, c, t1, t2, locked, newId).Granted?
    ensures var q := AdvanceQueue(db, t1); var after := Create(db, user, c, t1, t2, locked, newId).db;
      && p < |q.entries| && q.entries[p].user == user && q.entries[p].status.Offered? && q.entries[p].expiresAt > t1
      && q.entries[p].expiresAt > t2
      && locked.Some? && !Busy(q, user, c, t1) && !InsertConflicts(q, user, c, q.entries[p].id)
      && after.entries == SetStatus(q.entries, q.entries[p].id, Accepted)
      && after.sessions == q.sessions[newId :=
           Session(user, c, Some(q.entries[p].id), Created, t2 + 300_000, t2)]
      && after.cars == SetCar(q.cars, c, RESERVED) && after.devices == q.devices
  {
    var q := AdvanceQueue(db, t1);
    var index := FindUser(LiveRows(q.entries), user);
    p := LiveRowsFrom(q.entries, index.value);
  }

  lemma AcceptInTable(entries: seq<Entry>, p: nat)
    requires ValidTable(entries) && p < |entries| && entries[p].Live()
    ensures var after := SetStatus(entries, entries[p].id, Accepted);
      && ValidTable(after) && Ids(after) == Ids(entries)
      && AcceptedIds(after) == AcceptedIds(entries) + {entries[p].id}
      && forall e :: e in after && e.Live() ==> e in entries && e.id != entries[p].id
  {
    var after := SetStatus(entries, entries[p].id, Accepted);
    SameIds(entries, after);
    forall e | e in AcceptedIds(entries)
      ensures e in AcceptedIds(after)
    {
      var i :| 0 <= i < |entries| && entries[i].status.Accepted? && entries[i].id == e;
      assert after[i].status.Accepted?;
    }
    assert after[p].status.Accepted?;
    forall e | e in after && e.Live()
      ensures e in entries && e.id != entries[p].id
    {
      var i :| 0 <= i < |after| && after[i] == e;
      assert entries[i] in entries;
    }
  }

  lemma HeldEntriesGrow(sessions: map<SessionId, Session>, newId: SessionId, session: Session)
    requires newId !in sessions && session.Held() && session.entry.Some?
    ensures HeldEntries(sessions[newId := session]) == HeldEntries(sessions) + {session.entry.value}
  {
    var after := sessions[newId := session];
    assert after[newId] == session;
    forall e | e in HeldEntries(sessions)
      ensures e in HeldEntries(after)
    {
      var s :| s in sessions && sessions[s].Held() && sessions[s].entry == Some(e);
      assert after[s] == sessions[s];
    }
  }

  lemma AcceptKeepsPairs(entries: seq<Entry>, p: nat, sessions: map<SessionId, Session>, newId: SessionId, session: Session)
    requires ValidTable(entries) && Paired(entries, sessions)
    requires p < |entries| && entries[p].Live() && newId !in sessions
    requires session.Held() && session.entry == Some(entries[p].id)
    ensures ValidTable(SetStatus(entries, entries[p].id, Accepted))
    ensures Paired(SetStatus(entries, entries[p].id, Accepted), sessions[newId := session])
  {
    AcceptInTable(entries, p);
    HeldEntriesGrow(sessions, newId, session);
    assert entries[p] in entries && entries[p].id in Ids(entries);
  }

  lemma CreateKeepsValid(db: Db, user: UserId, c: CarId, t1: int, t2: int, locked: Option<DeviceId>, newId: SessionId)
    requires Valid(db) && Allowed(db, CreateStep(user, c, t1, t2, locked, newId))
    ensures Valid(Create(db, user, c, t1, t2, locked, newId).db)
  {
    var q := AdvanceQueue(db, t1);
    AdvanceKeepsValid(db, t1);
    if Create(db, user, c, t1, t2, locked, newId).Granted? {
      var p := CreateEffect(db, user, c, t1, t2, locked, newId);
      assert CanDrive(db, c, locked.value, t1);
      var session := Session(user, c, Some(q.entries[p].id), Created, t2 + 300_000, t2);
      AcceptKeepsPairs(q.entries, p, q.sessions, newId, session);
      NewSessionKeepsExclusive(q, newId, session);
    } else {
      AdvanceKeepsValid(q, t2);
      RefusedCreate(db, user, c, t1, t2, locked, newId);
    }
  }

  lemma RefusedCreate(db: Db, user: UserId, c: CarId, t1: int, t2: int, locked: Option<DeviceId>, newId: SessionId)
    requires Create(db, user, c, t1, t2, locked, newId).Refused?
    ensures var q := AdvanceQueue(db, t1); var after := Create(db, user, c, t1, t2, locked, newId).db;
      after == q || after == AdvanceQueue(q, t2)
  {
  }

  lemma NewSessionKeepsExclusive(db: Db, newId: SessionId, session: Session)
    requires Valid(db) && newId !in db.sessions && session.car in db.cars && db.cars[session.car].state == AVAILABLE
    requires !HasHeldSession(db, session.user)
    ensures CarsExclusive(db.sessions[newId := session], SetCar(db.cars, session.car, RESERVED))
    ensures UsersExclusive(db.sessions[newId := session])
  {
    forall s | s in db.sessions && db.sessions[s].Held()
      ensures db.sessions[s].car != session.car && db.sessions[s].user != session.user
    {
    }
  }

  lemma CloseInTable(entries: seq<Entry>, closed: set<EntryId>, now: int)
    requires ValidTable(entries)
    ensures var after := CloseRows(entries, closed, now);
      && ValidTable(after) && Ids(after) == Ids(entries)
      && AcceptedIds(after) == AcceptedIds(entries) - closed
      && forall e :: e in after && e.Live() ==> e in entries
  {
    var after := CloseRows(entries, closed, now);
    SameIds(entries, after);
    forall e | e in AcceptedIds(entries) - closed
      ensures e in AcceptedIds(after)
    {
      var i :| 0 <= i < |entries| && entries[i].status.Accepted? && entries[i].id == e;
      assert after[i].status.Accepted?;
    }
    forall e | e in after && e.Live()
      ensures e in entries
    {
      var i :| 0 <= i < |after| && after[i] == e;
    }
  }

  lemma HeldEntriesShrink(db: Db, due: set<SessionId>, now: int, restored: map<CarId, CarState>)
    requires Paired(db.entries, db.sessions)
    ensures HeldEntries(EndSessions(db, due, now, restored).sessions) == HeldEntries(db.sessions) - EntriesOf(db.sessions, due)
  {
    var after := EndSessions(db, due, now, restored).sessions;
    forall e | e in HeldEntries(db.sessions) - EntriesOf(db.sessions, due)
      ensures e in HeldEntries(after)
    {
      var s :| s in db.sessions && db.sessions[s].Held() && db.sessions[s].entry == Some(e);
      assert after[s] == db.sessions[s];
    }
    forall e | e in HeldEntries(after)
      ensures e in HeldEntries(db.sessions) - EntriesOf(db.sessions, due)
    {
      var s :| s in after && after[s].Held() && after[s].entry == Some(e);
      assert after[s] == db.sessions[s] && s !in due;
    }
  }

  lemma EndKeepsPairs(db: Db, due: set<SessionId>, now: int, restored: map<CarId, CarState>)
    requires ValidTable(db.entries) && Paired(db.entries, db.sessions)
    ensures ValidTable(EndSessions(db, due, now, restored).entries)
    ensures Paired(EndSessions(db, due, now, restored).entries, EndSessions(db, due, now, restored).sessions)
  {
    CloseInTable(db.entries, EntriesOf(db.sessions, due), now);
    HeldEntriesShrink(db, due, now, restored);
  }

  lemma EndKeepsValid(db: Db, due: set<SessionId>, now: int, restored: map<CarId, CarState>)
    requires Valid(db)
    requires forall s :: s in due ==> s in db.sessions && db.sessions[s].Held()
    ensures Valid(EndSessions(db, due, now, restored))
  {
    var after := EndSessions(db, due, now, restored);
    EndKeepsPairs(db, due, now, restored);
    forall s | s in after.sessions && after.sessions[s].Held()
      ensures after.sessions[s] == db.sessions[s] && s !in due
      ensures after.sessions[s].car in after.cars && after.cars[after.sessions[s].car] == db.cars[after.sessions[s].car]
    {
      assert db.sessions[s].car !in CarsOf(db.sessions, due);
    }
  }

  /** A session changing its status within the held ones, and its car's state to a busy one. */
  lemma ProgressKeepsValid(db: Db, s: SessionId, session: Session, state: CarState)
    requires Valid(db) && s in db.sessions && db.sessions[s].Held()
    requires session.Held() && session.car == db.sessions[s].car && session.user == db.sessions[s].user
    requires session.entry == db.sessions[s].entry && state != AVAILABLE
    ensures Valid(db.(sessions := db.sessions[s := session], cars := SetCar(db.cars, session.car, state)))
  {
    var after := db.sessions[s := session];
    forall e
      ensures e in HeldEntries(after) <==> e in HeldEntries(db.sessions)
    {
      if e in HeldEntries(db.sessions) {
        var t :| t in db.sessions && db.sessions[t].Held() && db.sessions[t].entry == Some(e);
        assert after[t].Held() && after[t].entry == Some(e);
      }
    }
    assert HeldEntries(after) == HeldEntries(db.sessions);
  }

  lemma NextKeepsValid(db: Db, step: Step)
    requires Valid(db) && Allowed(db, step)
    ensures Valid(Next(db, step))
  {
    match step
    case JoinStep(user, now, explicitJoin, driving, newEntry) =>
      AdvanceKeepsValid(db, now);
      var q := AdvanceQueue(db, now);
      TakePlaceKeepsValid(q, user, now, newEntry);
      AdvanceKeepsValid(q.(entries := TakePlace(q.entries, user, now, newEntry)), now);
    case LeaveStep(user, now) =>
      LeaveKeepsValid(db, user, now);
      AdvanceKeepsValid(db.(entries := LeaveRows(db.entries, user, now)), now);
    case CreateStep(user, c, t1, t2, locked, newSession) => CreateKeepsValid(db, user, c, t1, t2, locked, newSession);
    case AuthorizeStep(s, user, c, now) =>
      if Authorize(db, s, user, c, now) != db {
        ProgressKeepsValid(db, s, db.sessions[s].(status := Negotiating, updatedAt := now), CONNECTING);
      }
    case MarkActiveStep(s, now) =>
      if MarkActive(db, s, now) != db {
        ProgressKeepsValid(db, s, db.sessions[s].(status := Active, updatedAt := now), ACTIVE);
      }
    case EndStep(s, now, restored) =>
      if s in db.sessions && db.sessions[s].Held() { EndKeepsValid(db, {s}, now, restored); }
    case ExpireStep(now, restored) => EndKeepsValid(db, DueSessions(db, now), now, restored);
    case AuthenticateStep(_) =>
    case DeviceStep(_, _) =>
    case CarPresenceStep(_, _) =>
    case CarOfflineStep(_) =>
    case HeartbeatStep(_, _) =>
    case EnrollStep(_, _) =>
    case ProvisionStep(_) =>
    case AdminStep(_, _) =>
  }

  lemma {:induction false} RunKeepsValid(db: Db, run: seq<Step>)
    requires Valid(db) && AllowedRun(db, run)
    ensures Valid(After(db, run))
    decreases |run|
  {
    if run != [] {
      NextKeepsValid(db, run[0]);
      RunKeepsValid(Next(db, run[0]), run[1..]);
    }
  }
}

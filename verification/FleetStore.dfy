/** The stores of both services as one object over the shared tables: each method is one transaction,
    written statement by statement, and is proved to have exactly the effect of its step in `Fleet`. */
module FleetStore {
  import opened LiveQueue
  import opened Fleet

  /** `table` is `rows` with the row `entry` rewritten to `after`. */
  ghost predicate RowWritten(rows: seq<Entry>, table: seq<Entry>, entry: Entry, after: Entry) {
    && |table| == |rows|
    && forall i :: 0 <= i < |rows| ==>
         if rows[i].id == entry.id then rows[i] == entry ==> table[i] == after else table[i] == rows[i]
  }

  /** What happens to one live row, in the table and in the list. */
  method WriteRow(rows: seq<Entry>, entry: Entry, eligible: bool, now: int) returns (table: seq<Entry>, survivor: Option<Entry>)
    requires entry.Live() && !(entry.status.Waiting? && entry.expiresAt <= now)
    ensures RowWritten(rows, table, entry, Advanced(entry, eligible, now))
    ensures var after := Advanced(entry, eligible, now); survivor == if after.Live() then Some(after) else None
  {
    if entry.status.Offered? && eligible && entry.expiresAt <= now {
      return SetStatus(rows, entry.id, Missed), None;
    }
    var status := if eligible then Offered else Waiting;
    // An offer that has lost its car goes back to waiting with a fresh lease; it is not counted as missed.
    if entry.status == status {
      return rows, Some(entry);
    }
    var expiresAt := now + if eligible then QUEUE_OFFER_MS else QUEUE_LEASE_MS;
    return SetRow(rows, entry.id, status, expiresAt), Some(entry.(status := status, expiresAt := expiresAt));
  }

  /** `advanceLiveQueue` on the rows of the table: expire the lapsed leases, select the live rows in
      queue order, and walk them while updating the table row by row. */
  method AdvanceTable(rows: seq<Entry>, capacity: nat, now: int) returns (table: seq<Entry>, kept: seq<Entry>)
    requires DistinctIds(rows)
    ensures table == AdvanceRows(rows, capacity, now) && kept == LiveRows(table)
  {
    ghost var after := AdvanceRows(rows, capacity, now);
    ghost var lapsed := ExpireLapsed(rows, now);
    table := ExpireLapsed(rows, now);
    var live := LiveRows(table);
    kept := [];
    ghost var j: nat := 0;
    NothingPassed(rows, capacity, now);
    AdvanceHasOutcome(rows, capacity, now);
    while live != []
      invariant j <= |rows| && Midway(rows, after, lapsed, j, live, kept, table)
      decreases |live|
    {
      table, kept, j := AdvanceRow(rows, after, lapsed, j, live, kept, table, capacity, now);
      live := live[1..];
    }
    AllPassed(rows, after, lapsed, capacity, now, j, live, kept, table);
  }

  /** One round of the loop: the first row of `live` is judged by the survivors kept so far. */
  method AdvanceRow(ghost rows: seq<Entry>, ghost after: seq<Entry>, ghost lapsed: seq<Entry>, ghost j: nat,
                    live: seq<Entry>, passed: seq<Entry>, was: seq<Entry>, capacity: nat, now: int)
    returns (table: seq<Entry>, kept: seq<Entry>, ghost next: nat)
    requires DistinctIds(rows) && Outcome(rows, after, lapsed, capacity, now)
    requires j <= |rows| && live != [] && Midway(rows, after, lapsed, j, live, passed, was)
    ensures next <= |rows| && Midway(rows, after, lapsed, next, live[1..], kept, table)
  {
    ghost var h := NextRow(rows, after, lapsed, capacity, now, j, live, passed, was);
    var survivor;
    table, survivor := WriteRow(was, live[0], |passed| < capacity, now);
    kept := passed + if survivor.Some? then [survivor.value] else [];
    RowPassed(rows, after, lapsed, capacity, now, h, live, passed, was, kept, table);
    next := h + 1;
  }

  /** The advance has passed `j` rows: they are as it leaves them, the others have only lost their
      lapsed leases; `live` lists the live rows still to come and `kept` the survivors so far. */
  ghost predicate Midway(rows: seq<Entry>, after: seq<Entry>, lapsed: seq<Entry>, j: nat,
                         live: seq<Entry>, kept: seq<Entry>, table: seq<Entry>)
    requires j <= |rows|
  {
    && |after| == |lapsed| == |rows|
    && table == after[..j] + lapsed[j..]
    && live == LiveRows(lapsed[j..]) && kept == LiveRows(after[..j])
  }

  /** All the loop has to know of the advance: its law, and what losing the lapsed leases has already settled. */
  ghost predicate Outcome(rows: seq<Entry>, after: seq<Entry>, lapsed: seq<Entry>, capacity: nat, now: int) {
    && DeadRowsDone(rows, after, lapsed) && AdvanceLaw(rows, after, capacity, now)
    && forall i :: 0 <= i < |rows| && lapsed[i].Live() ==> !(rows[i].status.Waiting? && rows[i].expiresAt <= now)
  }

  lemma AdvanceHasOutcome(rows: seq<Entry>, capacity: nat, now: int)
    ensures Outcome(rows, AdvanceRows(rows, capacity, now), ExpireLapsed(rows, now), capacity, now)
  {
    DeadRowsAgree(rows, capacity, now);
    AdvanceObeysLaw(rows, capacity, now);
  }

  ghost predicate DeadRowsDone(rows: seq<Entry>, after: seq<Entry>, lapsed: seq<Entry>) {
    && |after| == |lapsed| == |rows|
    && forall i :: 0 <= i < |rows| ==>
         && after[i].id == rows[i].id == lapsed[i].id
         && (if lapsed[i].Live() then lapsed[i] == rows[i] else after[i] == lapsed[i])
  }

  lemma NothingPassed(rows: seq<Entry>, capacity: nat, now: int)
    ensures var lapsed := ExpireLapsed(rows, now);
      Midway(rows, AdvanceRows(rows, capacity, now), lapsed, 0, LiveRows(lapsed), [], lapsed)
  {
    AdvanceKeepsRows(rows, capacity, now);
    BeforeFirst(rows, AdvanceRows(rows, capacity, now), ExpireLapsed(rows, now));
  }

  lemma BeforeFirst(rows: seq<Entry>, after: seq<Entry>, lapsed: seq<Entry>)
    requires |after| == |lapsed| == |rows|
    ensures Midway(rows, after, lapsed, 0, LiveRows(lapsed), [], lapsed)
  {
    assert lapsed[0..] == lapsed && after[..0] == [];
  }

  lemma DeadRowsAgree(rows: seq<Entry>, capacity: nat, now: int)
    ensures DeadRowsDone(rows, AdvanceRows(rows, capacity, now), ExpireLapsed(rows, now))
  {
    var after := AdvanceRows(rows, capacity, now);
    AdvanceObeysLaw(rows, capacity, now);
    AdvanceKeepsRows(rows, capacity, now);
    forall i | 0 <= i < |rows| && !ExpireLapsed(rows, now)[i].Live()
      ensures after[i] == ExpireLapsed(rows, now)[i]
    {
      assert RowLaw(rows, after, capacity, now, i);
    }
  }

  lemma {:induction false} DeadRows(rows: seq<Entry>)
    requires forall i :: 0 <= i < |rows| ==> !rows[i].Live()
    ensures LiveRows(rows) == []
  {
    if rows != [] { DeadRows(rows[..|rows| - 1]); }
  }

  lemma SkipDead(rows: seq<Entry>, j: nat, h: nat)
    requires j <= h <= |rows| && forall i :: j <= i < h ==> !rows[i].Live()
    ensures LiveRows(rows[j..]) == LiveRows(rows[h..]) && LiveRows(rows[..h]) == LiveRows(rows[..j])
  {
    DeadRows(rows[j..h]);
    assert rows[j..] == rows[j..h] + rows[h..] && rows[..h] == rows[..j] + rows[j..h];
    LiveRowsAppend(rows[j..h], rows[h..]);
    LiveRowsAppend(rows[..j], rows[j..h]);
  }

  lemma OneRow(e: Entry)
    ensures LiveRows([e]) == if e.Live() then [e] else []
  {
    assert LiveRows([e][..0]) == [];
  }

  lemma {:induction false} FirstLiveAfter(rows: seq<Entry>, j: nat) returns (h: nat)
    requires j <= |rows| && LiveRows(rows[j..]) != []
    ensures j <= h < |rows| && rows[h].Live()
    ensures forall i :: j <= i < h ==> !rows[i].Live()
    decreases |rows| - j
  {
    var k := LiveRowsFrom(rows[j..], 0);
    if rows[j].Live() {
      h := j;
    } else {
      SkipDead(rows, j, j + 1);
      h := FirstLiveAfter(rows, j + 1);
    }
  }

  /** The next row the loop reads is the next live row of the table, and the law decides its fate. */
  lemma SkipTo(rows: seq<Entry>, after: seq<Entry>, lapsed: seq<Entry>, j: nat, h: nat,
               live: seq<Entry>, kept: seq<Entry>, table: seq<Entry>)
    requires j <= h <= |rows| && Midway(rows, after, lapsed, j, live, kept, table)
    requires forall i :: j <= i < h ==> !lapsed[i].Live() && after[i] == lapsed[i]
    ensures Midway(rows, after, lapsed, h, live, kept, table)
  {
    SkipDead(lapsed, j, h);
    SkipDead(after, j, h);
    assert after[..h] + lapsed[h..] == after[..j] + lapsed[j..];
  }

  lemma HeadOf(rows: seq<Entry>, h: nat)
    requires h < |rows|
    ensures LiveRows(rows[h..]) == (if rows[h].Live() then [rows[h]] else []) + LiveRows(rows[h + 1..])
    ensures LiveRows(rows[..h + 1]) == LiveRows(rows[..h]) + if rows[h].Live() then [rows[h]] else []
  {
    assert rows[h..] == [rows[h]] + rows[h + 1..] && rows[..h + 1] == rows[..h] + [rows[h]];
    LiveRowsAppend([rows[h]], rows[h + 1..]);
    LiveRowsAppend(rows[..h], [rows[h]]);
    OneRow(rows[h]);
  }

  /** The next row the loop reads is the next live row of the table, and the law decides its fate. */
  lemma NextRow(rows: seq<Entry>, after: seq<Entry>, lapsed: seq<Entry>, capacity: nat, now: int, j: nat,
                live: seq<Entry>, kept: seq<Entry>, table: seq<Entry>)
    returns (h: nat)
    requires Outcome(rows, after, lapsed, capacity, now)
    requires j <= |rows| && live != [] && Midway(rows, after, lapsed, j, live, kept, table)
    ensures j <= h < |rows| && lapsed[h].Live() && live[0] == rows[h]
    ensures after[h] == Advanced(rows[h], |kept| < capacity, now)
    ensures !(rows[h].status.Waiting? && rows[h].expiresAt <= now)
    ensures Midway(rows, after, lapsed, h, live, kept, table)
  {
    h := FirstLiveAfter(lapsed, j);
    SkipTo(rows, after, lapsed, j, h, live, kept, table);
    HeadOf(lapsed, h);
    assert RowLaw(rows, after, capacity, now, h);
  }

  lemma RowPassed(rows: seq<Entry>, after: seq<Entry>, lapsed: seq<Entry>, capacity: nat, now: int, h: nat,
                  live: seq<Entry>, passed: seq<Entry>, was: seq<Entry>, kept: seq<Entry>, table: seq<Entry>)
    requires Outcome(rows, after, lapsed, capacity, now)
    requires DistinctIds(rows) && h < |rows| && live != [] && Midway(rows, after, lapsed, h, live, passed, was)
    requires lapsed[h].Live() && RowWritten(was, table, rows[h], after[h])
    requires kept == passed + if after[h].Live() then [after[h]] else []
    ensures Midway(rows, after, lapsed, h + 1, live[1..], kept, table)
  {
    HeadOf(lapsed, h);
    HeadOf(after, h);
    HeadReplaced(rows, after, lapsed, h, was, table);
  }

  lemma HeadReplaced(rows: seq<Entry>, after: seq<Entry>, lapsed: seq<Entry>, h: nat, was: seq<Entry>, table: seq<Entry>)
    requires DistinctIds(rows) && DeadRowsDone(rows, after, lapsed) && h < |rows| && lapsed[h].Live()
    requires was == after[..h] + lapsed[h..] && RowWritten(was, table, rows[h], after[h])
    ensures table == after[..h + 1] + lapsed[h + 1..]
  {
    assert was[h] == rows[h];
    forall i | 0 <= i < |rows| && i != h
      ensures table[i] == was[i]
    {
      assert was[i].id == rows[i].id;
    }
  }

  lemma AllPassed(rows: seq<Entry>, after: seq<Entry>, lapsed: seq<Entry>, capacity: nat, now: int, j: nat,
                  live: seq<Entry>, kept: seq<Entry>, table: seq<Entry>)
    requires Outcome(rows, after, lapsed, capacity, now)
    requires j <= |rows| && live == [] && Midway(rows, after, lapsed, j, live, kept, table)
    ensures table == after && kept == LiveRows(after)
  {
    forall i | j <= i < |rows|
      ensures !lapsed[i].Live()
    {
      if lapsed[i].Live() { LiveRowsAt(lapsed[j..], i - j); }
    }
    SkipTo(rows, after, lapsed, j, |rows|, live, kept, table);
    assert after[..|rows|] == after && lapsed[|rows|..] == [];
  }

  lemma AdvanceKeepsIds(rows: seq<Entry>, capacity: nat, now: int)
    requires DistinctIds(rows)
    ensures DistinctIds(AdvanceRows(rows, capacity, now)) && Ids(AdvanceRows(rows, capacity, now)) == Ids(rows)
    ensures InOrder(rows) ==> InOrder(AdvanceRows(rows, capacity, now))
  {
    AdvanceKeepsRows(rows, capacity, now);
    SameIds(rows, AdvanceRows(rows, capacity, now));
  }

  lemma TakePlaceKeepsIds(rows: seq<Entry>, user: UserId, now: int, newId: EntryId)
    requires InOrder(rows) && DistinctIds(rows) && newId !in Ids(rows)
    ensures DistinctIds(TakePlace(rows, user, now, newId))
  {
    if FindUser(LiveRows(rows), user).None? && !HasLiveRow(rows, user) {
      PlacedIdsAreDistinct(rows, Entry(newId, user, Waiting, now, now + QUEUE_LEASE_MS));
    }
  }

  lemma PlacedIdsAreDistinct(rows: seq<Entry>, e: Entry)
    requires InOrder(rows) && DistinctIds(rows) && e.id !in Ids(rows)
    ensures DistinctIds(PlaceRow(rows, e))
  {
    assert forall i :: 0 <= i < |rows| ==> rows[i].id in Ids(rows);
    var p := PlaceRowAt(rows, e);
  }

  /** The loop of the gateway's sweep: for each session the update returned, its queue row and its car. */
  method ReleaseRows(db: Db, returned: map<SessionId, Session>, expired: set<SessionId>, now: int,
                     restored: map<CarId, CarState>)
    returns (entries: seq<Entry>, cars: map<CarId, Car>)
    requires forall s :: s in expired ==> s in returned && returned[s].car in restored
    ensures var after := EndSessions(db.(sessions := returned), expired, now, restored);
      entries == after.entries && cars == after.cars
  {
    entries, cars := db.entries, db.cars;
    ghost var before := db.(sessions := returned);
    var todo := expired;
    NoneEnded(before, now, restored);
    while todo != {}
      invariant todo <= expired
      invariant entries == EndSessions(before, expired - todo, now, restored).entries
      invariant cars == EndSessions(before, expired - todo, now, restored).cars
      decreases |todo|
    {
      var s :| s in todo;
      var session := returned[s];
      OneMoreEnded(before, expired - todo, s, now, restored);
      assert expired - todo + {s} == expired - (todo - {s});
      if session.entry.Some? {
        entries := SetRow(entries, session.entry.value, Left, now);
      }
      cars := SetCar(cars, session.car, restored[session.car]);
      todo := todo - {s};
    }
    assert expired - todo == expired;
  }

  lemma NoneEnded(db: Db, now: int, restored: map<CarId, CarState>)
    ensures forall none: set<SessionId> :: none == {} ==>
      EndSessions(db, none, now, restored).entries == db.entries && EndSessions(db, none, now, restored).cars == db.cars
  {
    assert EntriesOf(db.sessions, {}) == {} && CarsOf(db.sessions, {}) == {};
    assert EndSessions(db, {}, now, restored).entries == db.entries;
    assert EndSessions(db, {}, now, restored).cars == db.cars;
  }

  class Store {
    var entries: seq<Entry>
    var sessions: map<SessionId, Session>
    var cars: map<CarId, Car>
    var devices: map<DeviceId, Device>

    constructor ()
      ensures Contents() == Empty
    {
      entries, sessions, cars, devices := [], map[], map[], map[];
    }

    function Contents(): Db
      reads this
    {
      Db(entries, sessions, cars, devices)
    }

    method AdvanceLiveQueue(now: int) returns (kept: seq<Entry>)
      requires DistinctIds(entries)
      modifies this`entries
      ensures Contents() == AdvanceQueue(old(Contents()), now)
      ensures kept == LiveRows(entries)
    {
      entries, kept := AdvanceTable(entries, |AvailableCars(Contents(), now)|, now);
    }

    /** `joinOrRefresh`: the answer shown to the user after both advances. */
    method JoinOrRefresh(user: UserId, now: int, explicitJoin: bool, driving: Option<SessionId>, newId: EntryId)
      returns (answer: JoinResult)
      requires InOrder(entries) && DistinctIds(entries) && newId !in Ids(entries) && (driving.Some? ==> driving.value in sessions)
      modifies this`entries
      ensures Contents() == ReadOrJoin(old(Contents()), user, now, explicitJoin, driving, newId)
      ensures answer == JoinAnswer(old(Contents()), user, now, explicitJoin, driving, newId)
    {
      AdvanceKeepsIds(entries, Capacity(Contents(), now), now);
      var kept := AdvanceLiveQueue(now);
      var available := |AvailableCars(Contents(), now)|;
      if driving.Some? && sessions[driving.value].entry.Some? {
        return Answer(Snapshot(sessions[driving.value].entry.value, 0, |kept|, available, Driving, None));
      }
      HeldBackIsNotListed(entries, user);
      var last := LastRowOf(entries, user);
      // Held back: only an explicit join puts a user with a missed offer in line again.
      if FindUser(kept, user).None? && !explicitJoin && last.Some? && last.value.status.Missed? {
        return Answer(Snapshot(last.value.id, 0, |kept|, available, LapsedOffer, None));
      }
      PlaceUser(kept, user, now, newId);
      kept := AdvanceLiveQueue(now);
      answer := QueueSnapshot(user, kept, |AvailableCars(Contents(), now)|);
    }

    method PlaceUser(kept: seq<Entry>, user: UserId, now: int, newId: EntryId)
      requires InOrder(entries) && DistinctIds(entries) && newId !in Ids(entries) && kept == LiveRows(entries)
      modifies this`entries
      ensures entries == TakePlace(old(entries), user, now, newId) && DistinctIds(entries)
    {
      TakePlaceKeepsIds(entries, user, now, newId);
      var index := FindUser(kept, user);
      if index.None? {
        entries := InsertRow(entries, newId, user, now);
      } else {
        var entry := kept[index.value];
        if entry.status.Waiting? {
          entries := SetRow(entries, entry.id, Waiting, now + QUEUE_LEASE_MS);
        }
      }
    }

    method Leave(user: UserId, now: int)
      requires DistinctIds(entries)
      modifies this`entries
      ensures Contents() == LeaveQueue(old(Contents()), user, now)
      ensures !HasLiveRow(entries, user)
    {
      entries := LeaveRows(entries, user, now);
      AdvanceKeepsRows(entries, Capacity(Contents(), now), now);
      var kept := AdvanceLiveQueue(now);
    }

    /** Accepting an offer. `locked` is the car's device row that the locking select returned. */
    method Create(user: UserId, c: CarId, t1: int, t2: int, locked: Option<DeviceId>, newId: SessionId)
      returns (granted: bool)
      requires DistinctIds(entries) && (locked.Some? ==> locked.value in devices)
      modifies this
      ensures Contents() == Fleet.Create(old(Contents()), user, c, t1, t2, locked, newId).db
      ensures granted <==> Fleet.Create(old(Contents()), user, c, t1, t2, locked, newId).Granted?
      ensures granted ==>
        && newId in sessions && sessions[newId].user == user && sessions[newId].car == c
        && sessions[newId].expiresAt == t2 + 300_000 && (c in cars ==> cars[c].state == RESERVED)
    {
      ghost var before := Contents();
      var kept := AdvanceLiveQueue(t1);
      var index := FindUser(kept, user);
      if index.None? { return false; }
      var entry := kept[index.value];
      if !entry.status.Offered? || entry.expiresAt <= t1 { return false; }
      if locked.None? { return false; }
      if Busy(Contents(), user, c, t1) { return false; }
      // From here on the second clock reading counts; the offer may have run out between the two.
      if entry.expiresAt <= t2 {
        AdvanceKeepsIds(before.entries, Capacity(before, t1), t1);
        kept := AdvanceLiveQueue(t2);
        return false;
      }
      if !devices[locked.value].SeenSince(t2 - DEVICE_FRESHNESS_MS) { return false; }
      if InsertConflicts(Contents(), user, c, entry.id) { return false; }
      sessions := sessions[newId := Session(user, c, Some(entry.id), Created, t2 + DRIVE_SESSION_DURATION_MS, t2)];
      entries := SetStatus(entries, entry.id, Accepted);
      cars := SetCar(cars, c, RESERVED);
      granted := true;
    }

    method AuthorizeDriveSession(s: SessionId, user: UserId, c: CarId, now: int) returns (expiresAt: Option<int>)
      modifies this`sessions, this`cars
      ensures Contents() == Authorize(old(Contents()), s, user, c, now)
      ensures expiresAt.Some? <==> s in old(sessions) && old(sessions)[s].status.Created? && s in sessions && sessions[s].status.Negotiating?
      ensures expiresAt.Some? ==> expiresAt.value == sessions[s].expiresAt > now && sessions[s].updatedAt == now
    {
      if s !in sessions || sessions[s].user != user || sessions[s].car != c
         || !sessions[s].status.Created? || sessions[s].expiresAt <= now {
        return None;
      }
      sessions := sessions[s := sessions[s].(status := Negotiating, updatedAt := now)];
      cars := SetCar(cars, sessions[s].car, CONNECTING);
      expiresAt := Some(sessions[s].expiresAt);
    }

    method MarkDriveSessionActive(s: SessionId, now: int) returns (marked: bool)
      modifies this`sessions, this`cars
      ensures Contents() == MarkActive(old(Contents()), s, now)
      ensures marked <==> s in old(sessions) && old(sessions)[s].status.Negotiating? && !ShouldExpire(old(sessions)[s], now)
    {
      if s !in sessions || !sessions[s].status.Negotiating?
         || sessions[s].updatedAt <= now - DRIVE_CONNECTION_TIMEOUT_MS || sessions[s].expiresAt <= now {
        return false;
      }
      sessions := sessions[s := sessions[s].(status := Active, updatedAt := now)];
      cars := SetCar(cars, sessions[s].car, ACTIVE);
      marked := true;
    }

    method EndDriveSession(s: SessionId, now: int, restored: map<CarId, CarState>)
      requires FreshFor(Contents(), {s}, now, restored)
      modifies this`sessions, this`entries, this`cars
      ensures Contents() == End(old(Contents()), s, now, restored)
    {
      if s !in sessions || !sessions[s].Held() { return; }
      var session := sessions[s];
      assert session.car in CarsOf(sessions, {s});
      sessions := sessions[s := session.(status := Ended, updatedAt := now)];
      if session.entry.Some? {
        entries := SetRow(entries, session.entry.value, Left, now);
      }
      cars := SetCar(cars, session.car, restored[session.car]);
    }

    /** The gateway's sweep over the database: one update, then a loop over the rows it returned. */
    method ExpireDriveSessions(now: int, restored: map<CarId, CarState>) returns (count: nat)
      requires FreshFor(Contents(), DueSessions(Contents(), now), now, restored)
      modifies this`sessions, this`entries, this`cars
      ensures Contents() == EndSessions(old(Contents()), DueSessions(old(Contents()), now), now, restored)
      ensures count == |DueSessions(old(Contents()), now)|
      ensures forall s :: s in sessions && sessions[s].Held() ==> !ShouldExpire(sessions[s], now)
    {
      ghost var before := Contents();
      var returned := sessions;
      var expired := DueSessions(Contents(), now);
      sessions := map s | s in sessions ::
        if s in expired then sessions[s].(status := Ended, updatedAt := now) else sessions[s];
      entries, cars := ReleaseRows(Contents(), returned, expired, now, restored);
      assert before.sessions == returned;
      count := |expired|;
    }

    method AuthenticateDevice(d: DeviceId) returns (car: Option<CarId>)
      modifies this`devices, this`cars
      ensures Contents() == Authenticate(old(Contents()), d)
    {
      if d !in devices || devices[d].car.None? { return None; }
      car := devices[d].car;
      devices := devices[d := devices[d].(state := INITIALIZING)];
      if car.value in cars && !cars[car.value].adminBlocked {
        cars := SetCar(cars, car.value, INITIALIZING);
      }
    }

    /** Three statements without a transaction: as one call when nothing comes between them. */
    method SetPresenceState(d: DeviceId, state: CarState)
      modifies this`devices, this`cars
      ensures var first := WriteDevice(old(Contents()), d, state);
        if d !in old(devices) || old(devices)[d].car.None? then Contents() == first
        else
          var c := old(devices)[d].car.value;
          Contents() == WriteCarPresence(first, c, if c in cars && cars[c].adminBlocked then ADMIN_BLOCKED else state)
    {
      if d !in devices { return; }
      devices := devices[d := devices[d].(state := state)];
      if devices[d].car.None? { return; }
      var c := devices[d].car.value;
      var carState := if c in cars && cars[c].adminBlocked then ADMIN_BLOCKED else state;
      if !exists s :: s in sessions && sessions[s].car == c && sessions[s].Held() {
        cars := SetCar(cars, c, carState);
      }
    }

    method MarkDeviceOffline(d: DeviceId)
      modifies this`devices, this`cars
      ensures var first := WriteDevice(old(Contents()), d, OFFLINE);
        if d !in old(devices) || old(devices)[d].car.None? then Contents() == first
        else Contents() == WriteCarOffline(first, old(devices)[d].car.value)
    {
      if d !in devices { return; }
      devices := devices[d := devices[d].(state := OFFLINE)];
      if devices[d].car.None? { return; }
      var c := devices[d].car.value;
      if c in cars {
        cars := SetCar(cars, c, if cars[c].adminBlocked then ADMIN_BLOCKED else OFFLINE);
      }
    }
  }

  // ---------- Lemmas for the loops ----------

  /** The user the join turns away has no row in the list it looked through. */
  lemma HeldBackIsNotListed(rows: seq<Entry>, user: UserId)
    ensures FindUser(LiveRows(rows), user).None? <==> !HasLiveRow(rows, user)
  {
    var index := FindUser(LiveRows(rows), user);
    if index.Some? {
      var i := LiveRowsFrom(rows, index.value);
    }
    forall i | 0 <= i < |rows| && rows[i].user == user && rows[i].Live()
      ensures index.Some?
    {
      LiveRowsAt(rows, i);
    }
  }

  /** Ending one more session of the batch rewrites its queue row and its car, nothing else. */
  lemma OneMoreEnded(db: Db, done: set<SessionId>, s: SessionId, now: int, restored: map<CarId, CarState>)
    requires s in db.sessions && db.sessions[s].car in restored
    ensures var was, after := EndSessions(db, done, now, restored), EndSessions(db, done + {s}, now, restored);
      && after.entries == (if db.sessions[s].entry.Some? then SetRow(was.entries, db.sessions[s].entry.value, Left, now) else was.entries)
      && after.cars == SetCar(was.cars, db.sessions[s].car, restored[db.sessions[s].car])
  {
    var car, entry := db.sessions[s].car, db.sessions[s].entry;
    assert EntriesOf(db.sessions, done + {s}) == EntriesOf(db.sessions, done) + if entry.Some? then {entry.value} else {};
    assert CarsOf(db.sessions, done + {s}) == CarsOf(db.sessions, done) + {car};
    var was, after := EndSessions(db, done, now, restored), EndSessions(db, done + {s}, now, restored);
    if entry.Some? {
      assert after.entries == SetRow(was.entries, entry.value, Left, now);
    } else {
      assert after.entries == was.entries;
    }
    assert after.cars == SetCar(was.cars, car, restored[car]);
  }
}

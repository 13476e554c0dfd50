/** The gateway's handlers around the store and the registry. Every await lets other steps in between, so
    each handler is cut at its store calls; what is still to be done is kept in the state: sessions
    authorized but not attached, marked active but not connected, and owed an end in the database. */
module Gateway {
  import opened LiveQueue
  import F = Fleet
  import R = Registry

  datatype Ticket = Ticket(car: F.CarId, expiresAt: int, at: int)

  /** `ops` is the history of registry calls; `browsers` the sessions that a browser connection has attached. */
  datatype Gate = Gate(db: F.Db, reg: R.State, ops: seq<R.Op>, authorizing: map<F.SessionId, Ticket>,
                       marking: map<F.SessionId, int>, owed: set<F.SessionId>, browsers: set<F.SessionId>)

  datatype Step =
    | Store(step: F.Step)
    | AttachDevice(car: F.CarId, id: F.DeviceId, peer: R.Peer)
    | DetachDevice(car: F.CarId, peer: R.Peer)
    | Authorize(session: F.SessionId, user: UserId, car: F.CarId, now: int)
    | AttachBrowser(session: F.SessionId, peer: R.Peer, now: int)
    | MarkInStore(session: F.SessionId, now: int)
    | MarkInRegistry(session: F.SessionId)
    | BrowserSays(session: F.SessionId, message: R.Message)
    | DeviceSays(car: F.CarId, message: R.Message)
    | Telemetry(car: F.CarId, body: R.Payload)
    | CloseBrowser(session: F.SessionId)
    | Sweep(order: seq<F.SessionId>, now: int)
    | SettleEnd(session: F.SessionId, now: int, restored: map<F.CarId, F.CarState>)

  function Does(g: Gate, op: R.Op): Gate {
    g.(reg := R.Apply(g.reg, op), ops := g.ops + [op])
  }

  /** A browser connection speaks only after it attached its session, a clock read later in one handler is not
      earlier, and a sweep visits every session. One socket may well be a device's and a browser's at once: two
      authentications that overlap at their awaits make it so. */
  ghost predicate Allowed(g: Gate, step: Step) {
    match step
    case Store(s) => F.Allowed(g.db, s) && !s.AuthorizeStep? && !s.MarkActiveStep?
    case AttachBrowser(s, _, now) => s in g.authorizing && now >= g.authorizing[s].at
    case MarkInStore(s, _) => s in g.browsers
    case MarkInRegistry(s) => s in g.marking
    case BrowserSays(s, _) => s in g.browsers
    case CloseBrowser(s) => s in g.browsers
    case Sweep(order, _) => forall s :: s in g.reg.sessions ==> s in order
    case SettleEnd(s, now, restored) => s in g.owed && F.FreshFor(g.db, {s}, now, restored)
    case _ => true
  }

  function Next(g: Gate, step: Step): Gate {
    match step
    case Store(s) => g.(db := F.Next(g.db, s))
    case AttachDevice(c, id, peer) => Does(g, R.AttachDeviceOp(c, id, peer))
    case DetachDevice(c, peer) =>
      var ended := R.DetachDevice(g.reg, c, peer).1;
      Does(g, R.DetachDeviceOp(c, peer)).(owed := if ended.Some? then g.owed + {ended.value} else g.owed)
    case Authorize(s, user, c, now) =>
      var db := F.Authorize(g.db, s, user, c, now);
      if db == g.db then g
      else g.(db := db, authorizing := g.authorizing[s := Ticket(c, db.sessions[s].expiresAt, now)])
    case AttachBrowser(s, peer, now) =>
      if s !in g.authorizing then g
      else
        var ticket := g.authorizing[s];
        var q := Does(g, R.AttachBrowserOp(s, ticket.car, ticket.expiresAt, peer, now)).(authorizing := g.authorizing - {s});
        if R.CanAttach(g.reg, s, ticket.car) then q.(browsers := g.browsers + {s}) else q.(owed := g.owed + {s})
    case MarkInStore(s, now) =>
      if s in g.db.sessions && F.CanActivate(g.db.sessions[s], now) then
        g.(db := F.MarkActive(g.db, s, now), marking := g.marking[s := now])
      else g
    case MarkInRegistry(s) =>
      if s !in g.marking then g
      else
        var now := g.marking[s];
        Does(g, R.ConnectedOp(s, now)).(marking := g.marking - {s},
          owed := if R.CanConnect(g.reg, s, now) then g.owed else g.owed + {s})
    case BrowserSays(s, m) =>
      Does(g, R.BrowserOp(s, m)).(owed := if R.BrowserMayRelay(g.reg, s, m) && m.End? then g.owed + {s} else g.owed)
    case DeviceSays(c, m) =>
      Does(g, R.DeviceOp(c, m)).(owed := if R.DeviceMayRelay(g.reg, c, m) && m.End? then g.owed + {m.session} else g.owed)
    case Telemetry(c, body) => Does(g, R.TelemetryOp(c, body))
    case CloseBrowser(s) => Does(g, R.DetachBrowserOp(s, "browser disconnected")).(owed := g.owed + {s})
    case Sweep(order, now) =>
      var ended := R.Sweep(g.reg, order, now).1;
      Does(g, R.SweepOp(order, now)).(owed := g.owed + set s | s in ended)
    case SettleEnd(s, now, restored) => g.(db := F.End(g.db, s, now, restored), owed := g.owed - {s})
  }

  const Fresh: Gate := Gate(F.Empty, R.Nothing, [], map[], map[], {}, {})

  /** A run of the gateway from its start: the steps taken and the states before and after each. */
  datatype History = History(gates: seq<Gate>, steps: seq<Step>)

  ghost predicate IsHistory(h: History) {
    && |h.gates| == |h.steps| + 1 && h.gates[0] == Fresh
    && forall n :: 0 <= n < |h.steps| ==> Goes(h, n)
  }

  ghost predicate Goes(h: History, n: nat)
    requires |h.gates| == |h.steps| + 1 && n < |h.steps|
  {
    Allowed(h.gates[n], h.steps[n]) && h.gates[n + 1] == Next(h.gates[n], h.steps[n])
  }

  // ---------- The joint invariant ----------

  /** The database knows the session, no longer as merely created, on this car and with this deadline. */
  predicate Begun(db: F.Db, s: F.SessionId, c: F.CarId, expiresAt: int) {
    && s in db.sessions && !db.sessions[s].status.Created?
    && db.sessions[s].car == c && db.sessions[s].expiresAt == expiresAt
  }

  /** While the database still negotiates, the session's connection window there began by time at. */
  predicate WindowBegan(db: F.Db, s: F.SessionId, at: int)
    requires s in db.sessions
  {
    db.sessions[s].status.Negotiating? ==> db.sessions[s].updatedAt <= at
  }

  predicate TicketHolds(g: Gate, s: F.SessionId)
    requires s in g.authorizing
  {
    && Begun(g.db, s, g.authorizing[s].car, g.authorizing[s].expiresAt) && WindowBegan(g.db, s, g.authorizing[s].at)
    && s !in g.browsers
  }

  predicate LiveHolds(g: Gate, s: F.SessionId)
    requires s in g.reg.sessions
  {
    && Begun(g.db, s, g.reg.sessions[s].car, g.reg.sessions[s].expiresAt) && WindowBegan(g.db, s, g.reg.sessions[s].attachedAt)
    && s in g.browsers
  }

  predicate MarkHolds(g: Gate, s: F.SessionId)
    requires s in g.marking
  {
    && s in g.browsers
    && (s in g.reg.sessions ==> g.reg.sessions[s].attachedAt + R.CONNECTION_TIMEOUT_MS > g.marking[s])
  }

  predicate Connected(g: Gate, s: F.SessionId) {
    s in g.reg.sessions && g.reg.sessions[s].connectedAt.Some?
  }

  /** No session is left behind: one that negotiates or is active in the database is still being attached, is in
      the registry, or is owed an end; one that is active is being connected, is connected, or is owed an end. */
  predicate Covered(g: Gate, s: F.SessionId)
    requires s in g.db.sessions
  {
    var status := g.db.sessions[s].status;
    && (status.Negotiating? || status.Active? ==> s in g.authorizing || s in g.reg.sessions || s in g.owed)
    && (status.Active? ==> s in g.marking || Connected(g, s) || s in g.owed)
  }

  /** A session that is owed an end has begun in the database and is gone from the registry for good. */
  predicate OwedHolds(g: Gate, s: F.SessionId) {
    && s in g.db.sessions && !g.db.sessions[s].status.Created?
    && s !in g.authorizing && s !in g.reg.sessions
  }

  ghost predicate Inv(g: Gate) {
    && (forall s :: s in g.authorizing ==> TicketHolds(g, s))
    && (forall s :: s in g.reg.sessions ==> LiveHolds(g, s))
    && (forall s :: s in g.marking ==> MarkHolds(g, s))
    && (forall s :: s in g.browsers ==> s in g.db.sessions && !g.db.sessions[s].status.Created?)
    && (forall s :: s in g.db.sessions ==> Covered(g, s))
    && (forall s :: s in g.owed ==> OwedHolds(g, s))
  }

  /** What a step of the shared database may do to the sessions, other than authorizing and activating. */
  ghost predicate SessionsMove(before: map<F.SessionId, F.Session>, after: map<F.SessionId, F.Session>) {
    && (forall s :: s in before ==>
          && s in after && after[s].car == before[s].car && after[s].expiresAt == before[s].expiresAt
          && (after[s] == before[s] || after[s].status.Ended?))
    && (forall s :: s in after && s !in before ==> after[s].status.Created?)
  }

  lemma StoreMovesSessions(db: F.Db, step: F.Step)
    requires F.Allowed(db, step) && !step.AuthorizeStep? && !step.MarkActiveStep?
    ensures SessionsMove(db.sessions, F.Next(db, step).sessions)
  {
  }

  lemma MovedSessionsKeepInv(g: Gate, db: F.Db)
    requires Inv(g) && SessionsMove(g.db.sessions, db.sessions)
    ensures Inv(g.(db := db))
  {
  }

  /** The registry loses only sessions that are owed an end from now on. */
  ghost predicate RegistryShrinks(r: R.State, q: R.State, owed: set<F.SessionId>) {
    && (forall s :: s in r.sessions ==> s in q.sessions || s in owed)
    && (forall s :: s in q.sessions ==> s in r.sessions && q.sessions[s] == r.sessions[s])
  }

  /** What is newly owed an end was attached by a browser and is not in the registry. */
  ghost predicate OwesGone(g: Gate, q: Gate) {
    forall s :: s in q.owed ==> s in g.owed || (s in g.browsers && s !in q.reg.sessions)
  }

  /** A session in the registry was attached by a browser. */
  ghost predicate AllAttached(g: Gate) {
    R.Valid(g.reg) && forall s :: s in g.reg.sessions ==> s in g.browsers
  }

  lemma InvIsAttached(g: Gate)
    requires Inv(g) && R.Valid(g.reg)
    ensures AllAttached(g)
  {
    assert forall s :: s in g.reg.sessions ==> LiveHolds(g, s);
  }

  lemma ShrinkKeepsInv(g: Gate, q: Gate)
    requires Inv(g) && q == g.(reg := q.reg, ops := q.ops, owed := q.owed)
    requires g.owed <= q.owed && RegistryShrinks(g.reg, q.reg, q.owed)
    requires OwesGone(g, q)
    ensures Inv(q)
  {
  }

  lemma DetachShrinks(g: Gate, c: F.CarId, peer: R.Peer)
    requires AllAttached(g)
    ensures RegistryShrinks(g.reg, Next(g, DetachDevice(c, peer)).reg, Next(g, DetachDevice(c, peer)).owed) && OwesGone(g, Next(g, DetachDevice(c, peer)))
  {
  }

  lemma BrowserSaysShrinks(g: Gate, s: F.SessionId, m: R.Message)
    requires AllAttached(g)
    ensures RegistryShrinks(g.reg, Next(g, BrowserSays(s, m)).reg, Next(g, BrowserSays(s, m)).owed) && OwesGone(g, Next(g, BrowserSays(s, m)))
  {
  }

  lemma DeviceSaysShrinks(g: Gate, c: F.CarId, m: R.Message)
    requires AllAttached(g)
    ensures RegistryShrinks(g.reg, Next(g, DeviceSays(c, m)).reg, Next(g, DeviceSays(c, m)).owed) && OwesGone(g, Next(g, DeviceSays(c, m)))
  {
  }

  lemma SweepShrinks(g: Gate, order: seq<F.SessionId>, now: int)
    requires R.Valid(g.reg)
    ensures RegistryShrinks(g.reg, R.Sweep(g.reg, order, now).0, g.owed + set s | s in R.Sweep(g.reg, order, now).1)
  {
    R.SweepEndsLapsed(g.reg, order, now);
    LossesAreOwed(g.reg, R.Sweep(g.reg, order, now).0, R.Sweep(g.reg, order, now).1, g.owed);
  }

  lemma LossesAreOwed(r: R.State, q: R.State, ended: seq<F.SessionId>, owed: set<F.SessionId>)
    requires forall s :: s in q.sessions <==> s in r.sessions && s !in ended
    requires forall s :: s in q.sessions ==> q.sessions[s] == r.sessions[s]
    ensures RegistryShrinks(r, q, owed + set s | s in ended)
  {
  }

  /** The steps that touch the registry alone, the sweep aside. */
  predicate OnlyRegistry(step: Step) {
    || step.AttachDevice? || step.DetachDevice? || step.BrowserSays? || step.DeviceSays? || step.Telemetry?
    || step.CloseBrowser?
  }

  lemma RegistryStepShrinks(g: Gate, step: Step)
    requires AllAttached(g) && OnlyRegistry(step) && Allowed(g, step)
    ensures
      var q := Next(g, step);
      && q == g.(reg := q.reg, ops := q.ops, owed := q.owed) && g.owed <= q.owed
      && RegistryShrinks(g.reg, q.reg, q.owed) && OwesGone(g, q)
  {
    match step {
      case DetachDevice(c, peer) => DetachShrinks(g, c, peer);
      case BrowserSays(s, m) => BrowserSaysShrinks(g, s, m);
      case DeviceSays(c, m) => DeviceSaysShrinks(g, c, m);
      case _ =>
    }
  }

  lemma RegistryStepKeepsInv(g: Gate, step: Step)
    requires Inv(g) && R.Valid(g.reg) && OnlyRegistry(step) && Allowed(g, step)
    ensures Inv(Next(g, step))
  {
    InvIsAttached(g);
    RegistryStepShrinks(g, step);
    ShrinkKeepsInv(g, Next(g, step));
  }

  lemma SweepKeepsInv(g: Gate, order: seq<F.SessionId>, now: int)
    requires Inv(g) && R.Valid(g.reg)
    ensures Inv(Next(g, Sweep(order, now)))
  {
    SweepShrinks(g, order, now);
    InvIsAttached(g);
    R.SweepEndsLapsed(g.reg, order, now);
    ShrinkKeepsInv(g, Next(g, Sweep(order, now)));
  }

  lemma AuthorizeKeepsInv(g: Gate, s: F.SessionId, user: UserId, c: F.CarId, now: int)
    requires Inv(g)
    ensures Inv(Next(g, Authorize(s, user, c, now)))
  {
  }

  lemma AttachKeepsInv(g: Gate, s: F.SessionId, peer: R.Peer, now: int)
    requires Inv(g) && Allowed(g, AttachBrowser(s, peer, now))
    ensures Inv(Next(g, AttachBrowser(s, peer, now)))
  {
  }

  lemma MarkInStoreKeepsInv(g: Gate, s: F.SessionId, now: int)
    requires Inv(g) && s in g.browsers
    ensures Inv(Next(g, MarkInStore(s, now)))
  {
    if s in g.reg.sessions { assert LiveHolds(g, s); }
  }

  lemma MarkInRegistryKeepsInv(g: Gate, s: F.SessionId)
    requires Inv(g) && s in g.marking
    ensures Inv(Next(g, MarkInRegistry(s)))
  {
  }

  lemma OwedLessKeepsInv(g: Gate, s: F.SessionId)
    requires Inv(g) && (s in g.db.sessions ==> !g.db.sessions[s].Held())
    ensures Inv(g.(owed := g.owed - {s}))
  {
  }

  lemma EndMovesSessions(db: F.Db, s: F.SessionId, now: int, restored: map<F.CarId, F.CarState>)
    ensures SessionsMove(db.sessions, F.End(db, s, now, restored).sessions)
    ensures s in db.sessions ==> !F.End(db, s, now, restored).sessions[s].Held()
  {
  }

  lemma SettleKeepsInv(g: Gate, s: F.SessionId, now: int, restored: map<F.CarId, F.CarState>)
    requires Inv(g)
    ensures Inv(Next(g, SettleEnd(s, now, restored)))
  {
    var db := F.End(g.db, s, now, restored);
    EndMovesSessions(g.db, s, now, restored);
    MovedSessionsKeepInv(g, db);
    OwedLessKeepsInv(g.(db := db), s);
  }

  lemma NextKeepsInv(g: Gate, step: Step)
    requires Inv(g) && R.Valid(g.reg) && Allowed(g, step)
    ensures Inv(Next(g, step))
  {
    match step
    case Store(s) =>
      StoreMovesSessions(g.db, s);
      MovedSessionsKeepInv(g, F.Next(g.db, s));
    case Authorize(s, user, c, now) => AuthorizeKeepsInv(g, s, user, c, now);
    case AttachBrowser(s, peer, now) => AttachKeepsInv(g, s, peer, now);
    case MarkInStore(s, now) => MarkInStoreKeepsInv(g, s, now);
    case MarkInRegistry(s) => MarkInRegistryKeepsInv(g, s);
    case SettleEnd(s, now, restored) => SettleKeepsInv(g, s, now, restored);
    case Sweep(order, now) => SweepKeepsInv(g, order, now);
    case _ => RegistryStepKeepsInv(g, step);
  }

  // ---------- The registry calls are a proper run ----------

  /** The registry is what its calls made it, each session is attached at most once, and a session that no
      browser has attached has no story yet. */
  ghost predicate Traced(g: Gate) {
    && g.reg == R.Run(g.ops)
    && (forall s :: R.ProperRun(g.ops, s))
    && (forall s :: s !in g.browsers ==> R.StoryOf(g.ops, s).Unborn?)
  }

  lemma CallKeepsTrace(g: Gate, op: R.Op, q: Gate)
    requires Traced(g) && q.reg == R.Apply(g.reg, op) && q.ops == g.ops + [op] && g.browsers <= q.browsers
    requires forall s :: R.Proper(op, s, R.StoryOf(g.ops, s))
    requires forall s :: s in q.reg.sessions ==> s in q.browsers
    ensures Traced(q)
  {
    assert q.ops[..|g.ops|] == g.ops;
    forall s
      ensures R.ProperRun(q.ops, s) && (s !in q.browsers ==> R.StoryOf(q.ops, s).Unborn?)
    {
      assert R.ProperRun(g.ops, s);
    }
  }

  /** The registry call of a step, if it makes one. */
  function CallOf(g: Gate, step: Step): Option<R.Op> {
    match step
    case AttachDevice(c, id, peer) => Some(R.AttachDeviceOp(c, id, peer))
    case DetachDevice(c, peer) => Some(R.DetachDeviceOp(c, peer))
    case AttachBrowser(s, peer, now) =>
      if s in g.authorizing then Some(R.AttachBrowserOp(s, g.authorizing[s].car, g.authorizing[s].expiresAt, peer, now)) else None
    case MarkInRegistry(s) => if s in g.marking then Some(R.ConnectedOp(s, g.marking[s])) else None
    case BrowserSays(s, m) => Some(R.BrowserOp(s, m))
    case DeviceSays(c, m) => Some(R.DeviceOp(c, m))
    case Telemetry(c, body) => Some(R.TelemetryOp(c, body))
    case CloseBrowser(s) => Some(R.DetachBrowserOp(s, "browser disconnected"))
    case Sweep(order, now) => Some(R.SweepOp(order, now))
    case _ => None
  }

  lemma StepMakesItsCall(g: Gate, step: Step)
    ensures
      var call, q := CallOf(g, step), Next(g, step);
      && g.browsers <= q.browsers
      && (call.None? ==> q.reg == g.reg && q.ops == g.ops && q.browsers == g.browsers)
      && (call.Some? ==> q.reg == R.Apply(g.reg, call.value) && q.ops == g.ops + [call.value])
  {
  }

  ghost predicate Sound(g: Gate) {
    Inv(g) && R.Valid(g.reg) && Traced(g)
  }

  lemma NextKeepsSound(g: Gate, step: Step)
    requires Sound(g) && Allowed(g, step)
    ensures Sound(Next(g, step))
  {
    NextKeepsInv(g, step);
    StepMakesItsCall(g, step);
    var call, q := CallOf(g, step), Next(g, step);
    if call.Some? {
      R.ApplyKeepsValid(g.reg, call.value);
      assert forall s :: s in q.reg.sessions ==> LiveHolds(q, s);
      if step.AttachBrowser? { assert TicketHolds(g, step.session); }
      CallKeepsTrace(g, call.value, q);
    }
  }

  lemma FreshIsSound()
    ensures Sound(Fresh)
  {
  }

  lemma TakenStepIsSound(g: Gate, step: Step, q: Gate)
    requires Sound(g) && Allowed(g, step) && q == Next(g, step)
    ensures Sound(q)
  {
    NextKeepsSound(g, step);
  }

  lemma {:induction false} HistoryStaysSound(h: History, n: nat)
    requires IsHistory(h) && n <= |h.steps|
    ensures Sound(h.gates[n])
  {
    if n == 0 {
      FreshIsSound();
    } else {
      HistoryStaysSound(h, n - 1);
      assert Goes(h, n - 1);
      TakenStepIsSound(h.gates[n - 1], h.steps[n - 1], h.gates[n]);
    }
  }

  // ---------- What it means ----------

  /** An end is owed only to sessions that are gone from the registry, by whatever step: none that lives is ended. */
  lemma OnlyGoneSessionsAreOwed(h: History, n: nat, s: F.SessionId)
    requires IsHistory(h) && n <= |h.steps| && s in h.gates[n].owed
    ensures s !in h.gates[n].reg.sessions && s !in h.gates[n].authorizing && s in h.gates[n].db.sessions
  {
    HistoryStaysSound(h, n);
    assert OwedHolds(h.gates[n], s);
  }

  /** Relaying anything but an end owes no end and touches no session. */
  lemma OnlyEndsOweEnds(g: Gate, s: F.SessionId, c: F.CarId, m: R.Message)
    requires !m.End?
    ensures
      var q, o := Next(g, BrowserSays(s, m)), Next(g, DeviceSays(c, m));
      && q.owed == o.owed == g.owed && q.db == o.db == g.db
      && q.reg.sessions == o.reg.sessions == g.reg.sessions && q.browsers == o.browsers == g.browsers
  {
  }

  /** A relayed end is owed to the database too, and a closed browser always owes one. */
  lemma EndsAreOwed(g: Gate, s: F.SessionId, reason: string)
    requires R.Valid(g.reg) && s in g.reg.sessions
    ensures Next(g, BrowserSays(s, R.End(s, reason))).owed == g.owed + {s}
    ensures Next(g, DeviceSays(g.reg.sessions[s].car, R.End(s, reason))).owed == g.owed + {s}
    ensures Next(g, CloseBrowser(s)).owed == g.owed + {s}
  {
  }

  /** The four steps of a drive that nothing disturbs: authorized at t0, attached at t1, connected at t2. */
  ghost predicate Connects(g: Gate, s: F.SessionId, user: UserId, c: F.CarId, peer: R.Peer, t0: int, t1: int, t2: int) {
    var g1 := Next(g, Authorize(s, user, c, t0));
    var g2 := Next(g1, AttachBrowser(s, peer, t1));
    var g3 := Next(g2, MarkInStore(s, t2));
    var g4 := Next(g3, MarkInRegistry(s));
    && Allowed(g1, AttachBrowser(s, peer, t1)) && Allowed(g2, MarkInStore(s, t2)) && Allowed(g3, MarkInRegistry(s))
    && s in g4.db.sessions && g4.db.sessions[s].status == F.Active && Connected(g4, s) && g4.reg.sessions[s].browser == peer
    && g4.owed == g.owed && s !in g4.marking && s !in g4.authorizing
  }

  /** A created session of this user, on a car with a device and without a session, is connected and owes nothing if its
      browser says so within 20 s and before its deadline. */
  lemma UndisturbedDriveConnects(g: Gate, s: F.SessionId, user: UserId, c: F.CarId, peer: R.Peer, t0: int, t1: int, t2: int)
    requires Sound(g) && t0 <= t1 <= t2 < t0 + 20_000
    requires s in g.db.sessions && g.db.sessions[s].user == user && g.db.sessions[s].car == c
    requires g.db.sessions[s].status == F.Created && g.db.sessions[s].expiresAt > t2
    requires c in g.reg.devices && c !in g.reg.byCar
    ensures Connects(g, s, user, c, peer, t0, t1, t2)
  {
    assert s in g.reg.sessions ==> LiveHolds(g, s);
    assert s in g.marking ==> MarkHolds(g, s);
    var g1 := Next(g, Authorize(s, user, c, t0));
    assert g1.db != g.db by { assert g1.db.sessions[s].status == F.Negotiating; }
    assert g1.authorizing == g.authorizing[s := Ticket(c, g.db.sessions[s].expiresAt, t0)];
    AttachedConnects(g1, s, peer, t1, t2);
  }

  lemma AttachedConnects(g: Gate, s: F.SessionId, peer: R.Peer, t1: int, t2: int)
    requires s in g.authorizing && g.authorizing[s].at <= t1 <= t2 && s !in g.marking
    requires s in g.db.sessions && F.CanActivate(g.db.sessions[s], t2) && t2 < t1 + 20_000
    requires R.CanAttach(g.reg, s, g.authorizing[s].car)
    ensures
      var g2 := Next(g, AttachBrowser(s, peer, t1));
      var g3 := Next(g2, MarkInStore(s, t2));
      var g4 := Next(g3, MarkInRegistry(s));
      && Allowed(g, AttachBrowser(s, peer, t1)) && Allowed(g2, MarkInStore(s, t2)) && Allowed(g3, MarkInRegistry(s))
      && s in g4.db.sessions && g4.db.sessions[s].status == F.Active && Connected(g4, s) && g4.reg.sessions[s].browser == peer
      && g4.owed == g.owed && s !in g4.marking && s !in g4.authorizing
  {
  }

  /** The two connection windows agree: a session the database would activate now has passed neither deadline
      in the registry, so the sweep spares it and it can be marked connected. */
  lemma ActivationMeetsRegistry(h: History, n: nat, s: F.SessionId, now: int)
    requires IsHistory(h) && n <= |h.steps|
    requires var g := h.gates[n]; s in g.db.sessions && F.CanActivate(g.db.sessions[s], now) && s in g.reg.sessions
    ensures !h.gates[n].reg.sessions[s].Lapsed(now) && R.CanConnect(h.gates[n].reg, s, now)
  {
    HistoryStaysSound(h, n);
    assert LiveHolds(h.gates[n], s);
  }

  /** Once the database has activated a session, marking it connected fails only if the registry has already
      ended it, however late the call comes and whatever ran in between. */
  lemma MarkingFailsOnlyIfGone(h: History, n: nat, s: F.SessionId)
    requires IsHistory(h) && n <= |h.steps| && s in h.gates[n].marking
    ensures R.CanConnect(h.gates[n].reg, s, h.gates[n].marking[s]) <==> s in h.gates[n].reg.sessions
  {
    HistoryStaysSound(h, n);
    assert MarkHolds(h.gates[n], s);
  }

  /** At every moment, a session that is active in the database is connected in the registry, unless its handler
      is still between the two calls or an end is still on its way to the database; and one that is negotiating
      is in the registry, unless it is still being attached or an end is on its way. */
  lemma NoSessionIsLeftBehind(h: History, n: nat, s: F.SessionId)
    requires IsHistory(h) && n <= |h.steps| && s in h.gates[n].db.sessions
    requires var g := h.gates[n]; s !in g.authorizing && s !in g.marking && s !in g.owed
    ensures h.gates[n].db.sessions[s].status.Active? ==> Connected(h.gates[n], s)
    ensures h.gates[n].db.sessions[s].status.Negotiating? ==> s in h.gates[n].reg.sessions
  {
    HistoryStaysSound(h, n);
    assert Covered(h.gates[n], s);
  }

  /** When the `session.connected` handler and the end it may owe are done, the session is connected in the
      registry or ended in the database, whatever ran between its two calls. */
  lemma ConnectedOrEnded(g: Gate, s: F.SessionId, now: int, restored: map<F.CarId, F.CarState>)
    requires Sound(g) && s in g.marking
    ensures
      var q := Next(g, MarkInRegistry(s));
      && s in g.db.sessions
      && (Connected(q, s) || (s in q.owed && s in Next(q, SettleEnd(s, now, restored)).db.sessions
                              && Next(q, SettleEnd(s, now, restored)).db.sessions[s].status.Ended?))
  {
    assert MarkHolds(g, s);
  }

  /** Every gateway run is a proper registry run, so its message trace is told in full for every session. */
  lemma GatewayTellsEverySession(h: History, n: nat, s: F.SessionId)
    requires IsHistory(h) && n <= |h.steps|
    ensures R.Valid(h.gates[n].reg) && R.Tells(h.gates[n].reg, s, R.StoryOf(h.gates[n].ops, s))
  {
    HistoryStaysSound(h, n);
    R.SessionIsToldInFull(h.gates[n].ops, s);
  }
}

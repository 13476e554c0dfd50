/** The gateway's in-memory registry: which device serves each car, which session each car is in, and the
    messages it sends. A peer's `send` and `close` append to a log. */
module Registry {
  import opened LiveQueue
  import opened Fleet

  const CONNECTION_TIMEOUT_MS: int := 20_000

  type Peer(==, !new)
  type Payload(==, !new)

  datatype Message =
    | Start(session: SessionId, car: CarId)
    | Offer(session: SessionId, body: Payload)
    | Answer(session: SessionId, body: Payload)
    | Ice(session: SessionId, body: Payload)
    | End(session: SessionId, reason: string)
    | Telemetry(session: SessionId, body: Payload)
  {
    /** The messages a peer may ask to have relayed. */
    predicate Relayed() { Offer? || Answer? || Ice? || End? }
  }

  datatype Delivery = Sent(to: Peer, message: Message) | Closed(peer: Peer)

  datatype Connection = Connection(id: DeviceId, peer: Peer)

  datatype Live = Live(car: CarId, browser: Peer, device: Peer, expiresAt: int, attachedAt: int, connectedAt: Option<int>)
  {
    predicate ConnectionLapsed(now: int) { connectedAt.None? && attachedAt + CONNECTION_TIMEOUT_MS <= now }

    predicate Lapsed(now: int) { expiresAt <= now || ConnectionLapsed(now) }
  }

  datatype State = State(devices: map<CarId, Connection>, sessions: map<SessionId, Live>,
                         byCar: map<CarId, SessionId>, log: seq<Delivery>)

  const Nothing: State := State(map[], map[], map[], [])

  // ---------- What each operation does ----------

  function AttachDevice(r: State, c: CarId, id: DeviceId, peer: Peer): State {
    var replaced := c in r.devices && r.devices[c].peer != peer;
    r.(devices := r.devices[c := Connection(id, peer)],
       log := if replaced then r.log + [Closed(r.devices[c].peer)] else r.log)
  }

  function EndSession(r: State, s: SessionId, reason: string, notifyDevice: bool): State {
    if s !in r.sessions then r
    else
      var live := r.sessions[s];
      r.(sessions := r.sessions - {s}, byCar := r.byCar - {live.car},
         log := r.log + (if notifyDevice then [Sent(live.device, End(s, reason))] else []) + [Sent(live.browser, End(s, reason))])
  }

  predicate Attached(r: State, c: CarId, peer: Peer) {
    c in r.devices && r.devices[c].peer == peer
  }

  function DetachDevice(r: State, c: CarId, peer: Peer): (State, Option<SessionId>) {
    if !Attached(r, c, peer) then (r, None)
    else
      var q := r.(devices := r.devices - {c});
      if c in r.byCar then (EndSession(q, r.byCar[c], "device disconnected", false), Some(r.byCar[c])) else (q, None)
  }

  predicate CanAttach(r: State, s: SessionId, c: CarId) {
    s !in r.sessions && c !in r.byCar && c in r.devices
  }

  function AttachBrowser(r: State, s: SessionId, c: CarId, expiresAt: int, browser: Peer, now: int): State {
    if !CanAttach(r, s, c) then r
    else
      var device := r.devices[c].peer;
      State(r.devices, r.sessions[s := Live(c, browser, device, expiresAt, now, None)], r.byCar[c := s],
            r.log + [Sent(device, Start(s, c)), Sent(browser, Start(s, c))])
  }

  predicate BrowserMayRelay(r: State, s: SessionId, m: Message) {
    m.Relayed() && s in r.sessions && m.session == s && !m.Answer?
  }

  function RelayFromBrowser(r: State, s: SessionId, m: Message): State {
    if !BrowserMayRelay(r, s, m) then r
    else
      var q := r.(log := r.log + [Sent(r.sessions[s].device, m)]);
      if m.End? then EndSession(q, s, m.reason, false) else q
  }

  predicate InSession(r: State, c: CarId) {
    c in r.byCar && r.byCar[c] in r.sessions
  }

  predicate DeviceMayRelay(r: State, c: CarId, m: Message) {
    m.Relayed() && InSession(r, c) && m.session == r.byCar[c] && !m.Offer?
  }

  function RelayFromDevice(r: State, c: CarId, m: Message): State {
    if !DeviceMayRelay(r, c, m) then r
    else
      var q := r.(log := r.log + [Sent(r.sessions[r.byCar[c]].browser, m)]);
      if m.End? then EndSession(q, r.byCar[c], m.reason, false) else q
  }

  function SendTelemetry(r: State, c: CarId, body: Payload): State {
    if !InSession(r, c) then r
    else r.(log := r.log + [Sent(r.sessions[r.byCar[c]].browser, Telemetry(r.byCar[c], body))])
  }

  predicate CanConnect(r: State, s: SessionId, now: int) {
    s in r.sessions && r.sessions[s].attachedAt + CONNECTION_TIMEOUT_MS > now
  }

  function MarkConnected(r: State, s: SessionId, now: int): State {
    if !CanConnect(r, s, now) || r.sessions[s].connectedAt.Some? then r
    else r.(sessions := r.sessions[s := r.sessions[s].(connectedAt := Some(now))])
  }

  /** The sweep visits the sessions in the map's own order, which is an argument here. */
  function Sweep(r: State, order: seq<SessionId>, now: int): (State, seq<SessionId>)
    decreases |order|
  {
    if order == [] then (r, [])
    else
      var s := order[0];
      if s in r.sessions && r.sessions[s].Lapsed(now) then
        var reason := if r.sessions[s].ConnectionLapsed(now) then "connection timed out" else "session expired";
        var rest := Sweep(EndSession(r, s, reason, true), order[1..], now);
        (rest.0, [s] + rest.1)
      else Sweep(r, order[1..], now)
  }

  datatype Op =
    | AttachDeviceOp(car: CarId, id: DeviceId, peer: Peer)
    | DetachDeviceOp(car: CarId, peer: Peer)
    | AttachBrowserOp(session: SessionId, car: CarId, expiresAt: int, peer: Peer, now: int)
    | BrowserOp(session: SessionId, message: Message)
    | DeviceOp(car: CarId, message: Message)
    | TelemetryOp(car: CarId, body: Payload)
    | DetachBrowserOp(session: SessionId, reason: string)
    | ConnectedOp(session: SessionId, now: int)
    | SweepOp(order: seq<SessionId>, now: int)

  function Apply(r: State, op: Op): State {
    match op
    case AttachDeviceOp(c, id, peer) => AttachDevice(r, c, id, peer)
    case DetachDeviceOp(c, peer) => DetachDevice(r, c, peer).0
    case AttachBrowserOp(s, c, expiresAt, peer, now) => AttachBrowser(r, s, c, expiresAt, peer, now)
    case BrowserOp(s, m) => RelayFromBrowser(r, s, m)
    case DeviceOp(c, m) => RelayFromDevice(r, c, m)
    case TelemetryOp(c, body) => SendTelemetry(r, c, body)
    case DetachBrowserOp(s, reason) => EndSession(r, s, reason, true)
    case ConnectedOp(s, now) => MarkConnected(r, s, now)
    case SweepOp(order, now) => Sweep(r, order, now).0
  }

  // ---------- The bijection ----------

  /** Sessions and the per-car index are mutual inverses, and every car in session has a device. */
  ghost predicate Valid(r: State) {
    && (forall s :: s in r.sessions ==> r.sessions[s].car in r.byCar && r.byCar[r.sessions[s].car] == s)
    && (forall c :: c in r.byCar ==> r.byCar[c] in r.sessions && r.sessions[r.byCar[c]].car == c && c in r.devices)
  }

  lemma EndKeepsValid(r: State, s: SessionId, reason: string, notifyDevice: bool)
    requires Valid(r)
    ensures Valid(EndSession(r, s, reason, notifyDevice))
  {
  }

  lemma DetachKeepsValid(r: State, c: CarId, peer: Peer)
    requires Valid(r)
    ensures Valid(DetachDevice(r, c, peer).0)
    ensures Attached(r, c, peer) ==> c !in DetachDevice(r, c, peer).0.devices && c !in DetachDevice(r, c, peer).0.byCar
  {
  }

  /** A sweep ends exactly the lapsed sessions among those it visits, and reports exactly those. */
  lemma {:induction false} SweepEndsLapsed(r: State, order: seq<SessionId>, now: int)
    requires Valid(r)
    ensures Valid(Sweep(r, order, now).0) && Sweep(r, order, now).0.devices == r.devices
    ensures forall s :: s in Sweep(r, order, now).1 <==> s in order && s in r.sessions && r.sessions[s].Lapsed(now)
    ensures forall s :: s in Sweep(r, order, now).0.sessions <==> s in r.sessions && s !in Sweep(r, order, now).1
    ensures forall s :: s in Sweep(r, order, now).0.sessions ==> Sweep(r, order, now).0.sessions[s] == r.sessions[s]
    decreases |order|
  {
    if order != [] {
      var s := order[0];
      if s in r.sessions && r.sessions[s].Lapsed(now) {
        var reason := if r.sessions[s].ConnectionLapsed(now) then "connection timed out" else "session expired";
        EndKeepsValid(r, s, reason, true);
        SweepEndsLapsed(EndSession(r, s, reason, true), order[1..], now);
      } else {
        SweepEndsLapsed(r, order[1..], now);
      }
    }
  }

  lemma ApplyKeepsValid(r: State, op: Op)
    requires Valid(r)
    ensures Valid(Apply(r, op))
  {
    match op
    case DetachDeviceOp(c, peer) => DetachKeepsValid(r, c, peer);
    case SweepOp(order, now) => SweepEndsLapsed(r, order, now);
    case _ =>
  }

  // ---------- The message trace of one session ----------

  datatype Ending = ByDevice | DeviceLost | Otherwise

  datatype Story = Unborn | Going(device: Peer, browser: Peer) | Over(device: Peer, browser: Peer, ending: Ending)

  function EndingOf(op: Op): Ending {
    match op
    case DeviceOp(_, _) => ByDevice
    case DetachDeviceOp(_, _) => DeviceLost
    case _ => Otherwise
  }

  /** How the story of session s goes on when r becomes q by an operation. */
  function GoesOn(story: Story, s: SessionId, q: State, ending: Ending): Story {
    match story
    case Unborn => if s in q.sessions then Going(q.sessions[s].device, q.sessions[s].browser) else Unborn
    case Going(device, browser) => if s in q.sessions then story else Over(device, browser, ending)
    case Over(_, _, _) => story
  }

  predicate IsAbout(d: Delivery, s: SessionId) { d.Sent? && d.message.session == s }

  /** The messages about session s, in the order they were sent. */
  function About(log: seq<Delivery>, s: SessionId): seq<Delivery> {
    if log == [] then []
    else About(log[..|log| - 1], s) + if IsAbout(log[|log| - 1], s) then [log[|log| - 1]] else []
  }

  lemma AboutAppend(log: seq<Delivery>, d: Delivery, s: SessionId)
    ensures About(log + [d], s) == About(log, s) + if IsAbout(d, s) then [d] else []
  {
    assert (log + [d])[..|log|] == log;
  }

  predicate IsStart(d: Delivery, s: SessionId, p: Peer) { IsAbout(d, s) && d.message.Start? && d.to == p }

  predicate IsEnd(d: Delivery, s: SessionId, p: Peer) { IsAbout(d, s) && d.message.End? && d.to == p }

  /** A message while the session lasts: to one of its two peers, offers to the device only, answers and telemetry
      to the browser only. */
  predicate IsMiddle(d: Delivery, s: SessionId, device: Peer, browser: Peer) {
    && IsAbout(d, s) && !d.message.Start? && !d.message.End?
    && (d.to == device || d.to == browser)
    && (d.message.Offer? ==> d.to == device)
    && (d.message.Answer? || d.message.Telemetry? ==> d.to == browser)
  }

  /** All about one session, in turn: a start to the device, the same start to the browser, what is relayed, and
      then the ends, to these peers in this order, and nothing after them. */
  ghost predicate InTurn(about: seq<Delivery>, s: SessionId, device: Peer, browser: Peer, ends: seq<Peer>) {
    && |about| >= 2 + |ends|
    && IsStart(about[0], s, device) && IsStart(about[1], s, browser) && about[0].message == about[1].message
    && (forall i :: 2 <= i < |about| - |ends| ==> IsMiddle(about[i], s, device, browser))
    && forall j :: 0 <= j < |ends| ==> IsEnd(about[|about| - |ends| + j], s, ends[j])
  }

  /** To whom the ends go: the device first and then the browser; the browser alone if the device was lost; the
      browser twice if the car's device ended the session. */
  function EndsTo(device: Peer, browser: Peer, ending: Ending): seq<Peer> {
    match ending
    case Otherwise => [device, browser]
    case DeviceLost => [browser]
    case ByDevice => [browser, browser]
  }

  /** What the log holds about session s at each point of its story. */
  ghost predicate LogTells(log: seq<Delivery>, s: SessionId, story: Story) {
    match story
    case Unborn => About(log, s) == []
    case Going(device, browser) => InTurn(About(log, s), s, device, browser, [])
    case Over(device, browser, ending) => InTurn(About(log, s), s, device, browser, EndsTo(device, browser, ending))
  }

  ghost predicate Tells(r: State, s: SessionId, story: Story) {
    && LogTells(r.log, s, story)
    && (s in r.sessions <==> story.Going?)
    && (story.Going? ==> r.sessions[s].device == story.device && r.sessions[s].browser == story.browser)
  }

  lemma OtherMessage(log: seq<Delivery>, d: Delivery, s: SessionId, story: Story)
    requires LogTells(log, s, story) && !IsAbout(d, s)
    ensures LogTells(log + [d], s, story)
  {
    AboutAppend(log, d, s);
  }

  lemma MiddleMessage(log: seq<Delivery>, d: Delivery, s: SessionId, device: Peer, browser: Peer)
    requires InTurn(About(log, s), s, device, browser, []) && IsMiddle(d, s, device, browser)
    ensures InTurn(About(log + [d], s), s, device, browser, [])
  {
    AboutAppend(log, d, s);
    MiddleInTurn(About(log, s), d, s, device, browser);
  }

  lemma MiddleInTurn(about: seq<Delivery>, d: Delivery, s: SessionId, device: Peer, browser: Peer)
    requires InTurn(about, s, device, browser, []) && IsMiddle(d, s, device, browser)
    ensures InTurn(about + [d], s, device, browser, [])
  {
  }

  lemma EndInTurn(about: seq<Delivery>, d: Delivery, s: SessionId, device: Peer, browser: Peer, ends: seq<Peer>, p: Peer)
    requires InTurn(about, s, device, browser, ends) && IsEnd(d, s, p)
    ensures InTurn(about + [d], s, device, browser, ends + [p])
  {
    var longer, last := about + [d], ends + [p];
    forall j | 0 <= j < |last|
      ensures IsEnd(longer[|longer| - |last| + j], s, last[j])
    {
      if j < |ends| { assert longer[|longer| - |last| + j] == about[|about| - |ends| + j]; }
    }
  }

  lemma EndMessage(log: seq<Delivery>, d: Delivery, s: SessionId, device: Peer, browser: Peer, ends: seq<Peer>, p: Peer)
    requires InTurn(About(log, s), s, device, browser, ends) && IsEnd(d, s, p)
    ensures InTurn(About(log + [d], s), s, device, browser, ends + [p])
  {
    AboutAppend(log, d, s);
    EndInTurn(About(log, s), d, s, device, browser, ends, p);
  }

  lemma StartIsTold(r: State, s: SessionId, c: CarId, expiresAt: int, browser: Peer, now: int)
    requires Tells(r, s, Unborn) && CanAttach(r, s, c)
    ensures Tells(AttachBrowser(r, s, c, expiresAt, browser, now), s, Going(r.devices[c].peer, browser))
  {
    var d1, d2 := Sent(r.devices[c].peer, Start(s, c)), Sent(browser, Start(s, c));
    AboutAppend(r.log, d1, s);
    AboutAppend(r.log + [d1], d2, s);
    assert r.log + [d1, d2] == r.log + [d1] + [d2];
  }

  lemma EndOfOtherIsTold(r: State, t: SessionId, reason: string, notifyDevice: bool, s: SessionId, story: Story)
    requires Tells(r, s, story) && t != s
    ensures Tells(EndSession(r, t, reason, notifyDevice), s, story)
  {
    if t in r.sessions {
      var live := r.sessions[t];
      var log := r.log;
      if notifyDevice {
        OtherMessage(log, Sent(live.device, End(t, reason)), s, story);
        log := log + [Sent(live.device, End(t, reason))];
      }
      OtherMessage(log, Sent(live.browser, End(t, reason)), s, story);
      assert EndSession(r, t, reason, notifyDevice).log == log + [Sent(live.browser, End(t, reason))];
    }
  }

  /** Ending a session after some ends were sent already. */
  lemma EndIsInTurn(r: State, s: SessionId, reason: string, notifyDevice: bool, ends: seq<Peer>)
    requires s in r.sessions && InTurn(About(r.log, s), s, r.sessions[s].device, r.sessions[s].browser, ends)
    ensures InTurn(About(EndSession(r, s, reason, notifyDevice).log, s), s, r.sessions[s].device, r.sessions[s].browser,
      ends + (if notifyDevice then [r.sessions[s].device] else []) + [r.sessions[s].browser])
  {
    var live := r.sessions[s];
    if notifyDevice {
      var d := Sent(live.device, End(s, reason));
      EndMessage(r.log, d, s, live.device, live.browser, ends, live.device);
      EndMessage(r.log + [d], Sent(live.browser, End(s, reason)), s, live.device, live.browser, ends + [live.device], live.browser);
    } else {
      assert r.log + [] == r.log && ends + [] == ends;
      EndMessage(r.log, Sent(live.browser, End(s, reason)), s, live.device, live.browser, ends, live.browser);
    }
  }

  /** An id is attached at most once. */
  predicate Proper(op: Op, s: SessionId, story: Story) {
    op.AttachBrowserOp? && op.session == s ==> !story.Over?
  }

  lemma DetachIsTold(r: State, c: CarId, peer: Peer, s: SessionId, story: Story)
    requires Valid(r) && Tells(r, s, story)
    ensures Tells(DetachDevice(r, c, peer).0, s, GoesOn(story, s, DetachDevice(r, c, peer).0, DeviceLost))
  {
    if Attached(r, c, peer) && c in r.byCar {
      var q := r.(devices := r.devices - {c});
      if r.byCar[c] == s { EndIsInTurn(q, s, "device disconnected", false, []); }
      else { EndOfOtherIsTold(q, r.byCar[c], "device disconnected", false, s, story); }
    }
  }

  /** A message of session s relayed to the peer `to`, and the end of the session if it is one. */
  lemma OwnRelayIsTold(r: State, d: Delivery, s: SessionId, story: Story, to: Peer)
    requires s in r.sessions && Tells(r, s, story) && IsAbout(d, s) && d.to == to && d.message.Relayed()
    requires d.message.End? ==> to == story.device || to == story.browser
    requires !d.message.End? ==> IsMiddle(d, s, story.device, story.browser)
    ensures
      var q := r.(log := r.log + [d]);
      if d.message.End? then
        InTurn(About(EndSession(q, s, d.message.reason, false).log, s), s, story.device, story.browser, [to, story.browser])
      else Tells(q, s, story)
  {
    var q := r.(log := r.log + [d]);
    if d.message.End? {
      EndMessage(r.log, d, s, story.device, story.browser, [], to);
      EndIsInTurn(q, s, d.message.reason, false, [to]);
      assert [to] + [] + [story.browser] == [to, story.browser];
    } else {
      MiddleMessage(r.log, d, s, story.device, story.browser);
    }
  }

  lemma OtherRelayIsTold(r: State, d: Delivery, t: SessionId, s: SessionId, story: Story)
    requires t != s && Tells(r, s, story) && IsAbout(d, t)
    ensures
      var q := r.(log := r.log + [d]);
      Tells(q, s, story) && (d.message.End? ==> Tells(EndSession(q, t, d.message.reason, false), s, story))
  {
    OtherMessage(r.log, d, s, story);
    var q := r.(log := r.log + [d]);
    if d.message.End? { EndOfOtherIsTold(q, t, d.message.reason, false, s, story); }
  }

  lemma BrowserRelayIsTold(r: State, t: SessionId, m: Message, s: SessionId, story: Story)
    requires Valid(r) && Tells(r, s, story)
    ensures Tells(RelayFromBrowser(r, t, m), s, GoesOn(story, s, RelayFromBrowser(r, t, m), Otherwise))
  {
    if BrowserMayRelay(r, t, m) {
      var d := Sent(r.sessions[t].device, m);
      if t == s { OwnRelayIsTold(r, d, s, story, story.device); } else { OtherRelayIsTold(r, d, t, s, story); }
    }
  }

  lemma DeviceRelayIsTold(r: State, c: CarId, m: Message, s: SessionId, story: Story)
    requires Valid(r) && Tells(r, s, story)
    ensures Tells(RelayFromDevice(r, c, m), s, GoesOn(story, s, RelayFromDevice(r, c, m), ByDevice))
  {
    if DeviceMayRelay(r, c, m) {
      var t := r.byCar[c];
      var d := Sent(r.sessions[t].browser, m);
      if t == s { OwnRelayIsTold(r, d, s, story, story.browser); } else { OtherRelayIsTold(r, d, t, s, story); }
    }
  }

  lemma NotifiedEndIsTold(r: State, t: SessionId, reason: string, s: SessionId, story: Story)
    requires Tells(r, s, story)
    ensures Tells(EndSession(r, t, reason, true), s, GoesOn(story, s, EndSession(r, t, reason, true), Otherwise))
  {
    if t == s {
      if s in r.sessions { EndIsInTurn(r, s, reason, true, []); }
    } else {
      EndOfOtherIsTold(r, t, reason, true, s, story);
    }
  }

  lemma {:induction false} SweepIsTold(r: State, order: seq<SessionId>, now: int, s: SessionId, story: Story)
    requires Valid(r) && Tells(r, s, story)
    ensures Tells(Sweep(r, order, now).0, s, GoesOn(story, s, Sweep(r, order, now).0, Otherwise))
    decreases |order|
  {
    if order != [] {
      var t := order[0];
      if t in r.sessions && r.sessions[t].Lapsed(now) {
        var reason := if r.sessions[t].ConnectionLapsed(now) then "connection timed out" else "session expired";
        var q := EndSession(r, t, reason, true);
        NotifiedEndIsTold(r, t, reason, s, story);
        EndKeepsValid(r, t, reason, true);
        SweepEndsLapsed(q, order[1..], now);
        SweepIsTold(q, order[1..], now, s, GoesOn(story, s, q, Otherwise));
      } else {
        SweepIsTold(r, order[1..], now, s, story);
      }
    }
  }

  lemma AttachIsTold(r: State, op: Op, s: SessionId, story: Story)
    requires Valid(r) && Tells(r, s, story) && Proper(op, s, story) && op.AttachBrowserOp?
    ensures Tells(Apply(r, op), s, GoesOn(story, s, Apply(r, op), Otherwise))
  {
    if CanAttach(r, op.session, op.car) {
      if op.session == s {
        StartIsTold(r, s, op.car, op.expiresAt, op.peer, op.now);
      } else {
        var d1 := Sent(r.devices[op.car].peer, Start(op.session, op.car));
        var d2 := Sent(op.peer, Start(op.session, op.car));
        OtherMessage(r.log, d1, s, story);
        OtherMessage(r.log + [d1], d2, s, story);
        assert r.log + [d1, d2] == r.log + [d1] + [d2];
      }
    }
  }

  /** Every operation carries the story of every session on. */
  lemma ApplyIsTold(r: State, op: Op, s: SessionId, story: Story)
    requires Valid(r) && Tells(r, s, story) && Proper(op, s, story)
    ensures Tells(Apply(r, op), s, GoesOn(story, s, Apply(r, op), EndingOf(op)))
  {
    match op
    case AttachDeviceOp(c, id, peer) =>
      if c in r.devices { OtherMessage(r.log, Closed(r.devices[c].peer), s, story); }
    case DetachDeviceOp(c, peer) => DetachIsTold(r, c, peer, s, story);
    case AttachBrowserOp(_, _, _, _, _) => AttachIsTold(r, op, s, story);
    case BrowserOp(t, m) => BrowserRelayIsTold(r, t, m, s, story);
    case DeviceOp(c, m) => DeviceRelayIsTold(r, c, m, s, story);
    case TelemetryOp(c, body) =>
      if InSession(r, c) {
        var d := Sent(r.sessions[r.byCar[c]].browser, Telemetry(r.byCar[c], body));
        if r.byCar[c] == s { MiddleMessage(r.log, d, s, story.device, story.browser); }
        else { OtherMessage(r.log, d, s, story); }
      }
    case DetachBrowserOp(t, reason) => NotifiedEndIsTold(r, t, reason, s, story);
    case ConnectedOp(_, _) =>
    case SweepOp(order, now) => SweepIsTold(r, order, now, s, story);
  }

  /** A message of a live session reaches exactly the other side, and a relay other than an end changes nothing
      else; a message that names another session, or that this side may not send, changes nothing at all. */
  lemma RelayedMessagesArrive(r: State, s: SessionId, m: Message)
    requires Valid(r) && s in r.sessions && m.Relayed() && !m.End?
    ensures RelayFromBrowser(r, s, m) ==
      if m.session == s && !m.Answer? then r.(log := r.log + [Sent(r.sessions[s].device, m)]) else r
    ensures RelayFromDevice(r, r.sessions[s].car, m) ==
      if m.session == s && !m.Offer? then r.(log := r.log + [Sent(r.sessions[s].browser, m)]) else r
  {
  }

  // ---------- What each call does ----------

  /** A device that attaches serves its car from then on; the connection it replaces is closed, unless it is the same. No
      session is touched. */
  lemma AttachingDevice(r: State, c: CarId, id: DeviceId, peer: Peer)
    ensures
      var q := AttachDevice(r, c, id, peer);
      && Attached(q, c, peer) && q.devices == r.devices[c := Connection(id, peer)] && q.sessions == r.sessions && q.byCar == r.byCar
      && q.log == r.log + if c in r.devices && r.devices[c].peer != peer then [Closed(r.devices[c].peer)] else []
  {
  }

  /** Only the connection that serves the car now can detach; the session of the car, if there is one, is then over and
      reported, and its browser told. */
  lemma DetachingDevice(r: State, c: CarId, peer: Peer)
    requires Valid(r)
    ensures
      var (q, ended) := DetachDevice(r, c, peer);
      if !(c in r.devices && r.devices[c].peer == peer) then q == r && ended.None?
      else
        && q.devices == r.devices - {c}
        && (ended.None? ==> q.sessions == r.sessions && q.log == r.log && forall s :: s in r.sessions ==> r.sessions[s].car != c)
        && (ended.Some? ==>
              && ended.value in r.sessions && r.sessions[ended.value].car == c && q.sessions == r.sessions - {ended.value}
              && q.log == r.log + [Sent(r.sessions[ended.value].browser, End(ended.value, "device disconnected"))])
  {
  }

  /** A browser attaches exactly if its session is not there, its car has a device and no session; the session then knows
      both peers, its deadline and the time, and is not connected. */
  lemma AttachingBrowser(r: State, s: SessionId, c: CarId, expiresAt: int, browser: Peer, now: int)
    requires Valid(r)
    ensures
      var q := AttachBrowser(r, s, c, expiresAt, browser, now);
      if s !in r.sessions && c in r.devices && forall o :: o in r.sessions ==> r.sessions[o].car != c then
        q.sessions == r.sessions[s := Live(c, browser, r.devices[c].peer, expiresAt, now, None)] && q.devices == r.devices
      else q == r
  {
    if c in r.byCar {
      assert r.sessions[r.byCar[c]].car == c;
    }
  }

  /** A session ends with its two ends told for the given reason, and its car is free again; to end one that is not there
      does nothing. */
  lemma EndingSession(r: State, s: SessionId, reason: string, c: CarId)
    requires Valid(r)
    ensures
      var q := Apply(r, DetachBrowserOp(s, reason));
      if s !in r.sessions then q == r
      else
        && q.sessions == r.sessions - {s} && q.devices == r.devices
        && q.log == r.log + [Sent(r.sessions[s].device, End(s, reason))] + [Sent(r.sessions[s].browser, End(s, reason))]
        && (c in q.byCar <==> c in r.byCar && c != r.sessions[s].car)
  {
  }

  /** A relayed end goes to the other side, ends the session, and is answered to the browser. */
  lemma RelayedEndsEnd(r: State, s: SessionId, reason: string)
    requires Valid(r) && s in r.sessions
    ensures
      var live, m := r.sessions[s], End(s, reason);
      var q, o := RelayFromBrowser(r, s, m), RelayFromDevice(r, live.car, m);
      && q.sessions == o.sessions == r.sessions - {s}
      && q.log == r.log + [Sent(live.device, m)] + [Sent(live.browser, m)]
      && o.log == r.log + [Sent(live.browser, m)] + [Sent(live.browser, m)]
  {
  }

  /** Telemetry reaches the browser of the car's session under that session's name, and nobody if there is none. */
  lemma TelemetryArrives(r: State, c: CarId, body: Payload)
    requires Valid(r)
    ensures forall s :: s in r.sessions && r.sessions[s].car == c ==>
      SendTelemetry(r, c, body) == r.(log := r.log + [Sent(r.sessions[s].browser, Telemetry(s, body))])
    ensures (forall s :: s in r.sessions ==> r.sessions[s].car != c) ==> SendTelemetry(r, c, body) == r
  {
    if InSession(r, c) {
      assert r.sessions[r.byCar[c]].car == c;
    }
  }

  /** A session lapses at its deadline, or 20 s after it attached if it is not connected by then. */
  lemma LapsedIff(live: Live, now: int)
    ensures live.Lapsed(now) <==> now >= live.expiresAt || (live.connectedAt.None? && now - live.attachedAt >= 20_000)
  {
  }

  /** A session can be marked for 20 s, also when it is marked already; the time it keeps is the first. */
  lemma MarkingConnected(r: State, s: SessionId, now: int)
    ensures CanConnect(r, s, now) <==> s in r.sessions && now - r.sessions[s].attachedAt < 20_000
    ensures
      var q := MarkConnected(r, s, now);
      if s in r.sessions && now - r.sessions[s].attachedAt < 20_000 && r.sessions[s].connectedAt.None?
      then q == r.(sessions := r.sessions[s := r.sessions[s].(connectedAt := Some(now))])
      else q == r
  {
  }

  /** Why a sweep ends a session. */
  ghost predicate ToldWhy(log: seq<Delivery>, s: SessionId, live: Live, now: int) {
    var reason := if live.connectedAt.None? && now - live.attachedAt >= 20_000 then "connection timed out" else "session expired";
    Sent(live.device, End(s, reason)) in log && Sent(live.browser, End(s, reason)) in log
  }

  /** Every session a sweep ends is told to both sides with its reason. */
  lemma {:induction false} SweepTellsWhy(r: State, order: seq<SessionId>, now: int)
    requires Valid(r)
    ensures r.log <= Sweep(r, order, now).0.log
    ensures forall s :: s in Sweep(r, order, now).1 ==> s in r.sessions && ToldWhy(Sweep(r, order, now).0.log, s, r.sessions[s], now)
    decreases |order|
  {
    if order != [] {
      var s := order[0];
      if s in r.sessions && r.sessions[s].Lapsed(now) {
        var reason := if r.sessions[s].ConnectionLapsed(now) then "connection timed out" else "session expired";
        EndKeepsValid(r, s, reason, true);
        var q := EndSession(r, s, reason, true);
        SweepTellsWhy(q, order[1..], now);
        ToldWhyStays(q.log, Sweep(q, order[1..], now).0.log, s, r.sessions[s], now);
      } else {
        SweepTellsWhy(r, order[1..], now);
      }
    }
  }

  lemma ToldWhyStays(log: seq<Delivery>, longer: seq<Delivery>, s: SessionId, live: Live, now: int)
    requires log <= longer && ToldWhy(log, s, live, now)
    ensures ToldWhy(longer, s, live, now)
  {
  }

  // ---------- Whole runs ----------

  function Run(ops: seq<Op>): State {
    if ops == [] then Nothing else Apply(Run(ops[..|ops| - 1]), ops[|ops| - 1])
  }

  function StoryOf(ops: seq<Op>, s: SessionId): Story {
    if ops == [] then Unborn
    else GoesOn(StoryOf(ops[..|ops| - 1], s), s, Run(ops), EndingOf(ops[|ops| - 1]))
  }

  ghost predicate ProperRun(ops: seq<Op>, s: SessionId) {
    ops != [] ==>
      var front := ops[..|ops| - 1];
      ProperRun(front, s) && Proper(ops[|ops| - 1], s, StoryOf(front, s))
  }

  lemma {:induction false} RunStaysValid(ops: seq<Op>)
    ensures Valid(Run(ops))
  {
    if ops != [] {
      RunStaysValid(ops[..|ops| - 1]);
      ApplyKeepsValid(Run(ops[..|ops| - 1]), ops[|ops| - 1]);
    }
  }

  /** Over every run, all that was ever sent about a session is, in this order: one session.start to the device it
      started with, one to its browser, messages relayed between these two (offers to the device, answers to the
      browser), and once it is over its ends: to the device and then the browser, or, if the device was lost, to
      the browser alone, or, if the car's device ended it, to the browser twice. */
  lemma {:induction false} SessionIsToldInFull(ops: seq<Op>, s: SessionId)
    requires ProperRun(ops, s)
    ensures Valid(Run(ops)) && Tells(Run(ops), s, StoryOf(ops, s))
  {
    RunStaysValid(ops);
    if ops != [] {
      var front := ops[..|ops| - 1];
      SessionIsToldInFull(front, s);
      RunStaysValid(front);
      ApplyIsTold(Run(front), ops[|ops| - 1], s, StoryOf(front, s));
    }
  }

  /** How many session.end (or session.start) messages about session s peer p was sent. */
  function Sends(log: seq<Delivery>, s: SessionId, p: Peer, end: bool): nat {
    if log == [] then 0
    else
      var d := log[|log| - 1];
      Sends(log[..|log| - 1], s, p, end) + if (if end then IsEnd(d, s, p) else IsStart(d, s, p)) then 1 else 0
  }

  lemma SendsAppend(log: seq<Delivery>, d: Delivery, s: SessionId, p: Peer, end: bool)
    ensures Sends(log + [d], s, p, end) == Sends(log, s, p, end) + if (if end then IsEnd(d, s, p) else IsStart(d, s, p)) then 1 else 0
  {
    assert (log + [d])[..|log|] == log;
  }

  lemma {:induction false} SendsAreAbout(log: seq<Delivery>, about: seq<Delivery>, s: SessionId, p: Peer, end: bool)
    requires about == About(log, s)
    ensures Sends(log, s, p, end) == Sends(about, s, p, end)
  {
    if log != [] {
      var front, d := log[..|log| - 1], log[|log| - 1];
      var before := About(front, s);
      SendsAreAbout(front, before, s, p, end);
      assert log == front + [d];
      SendsAppend(front, d, s, p, end);
      if IsAbout(d, s) { SendsAppend(before, d, s, p, end); } else { assert about == before; }
    }
  }

  function Times(peers: seq<Peer>, p: Peer): nat {
    if peers == [] then 0 else Times(peers[..|peers| - 1], p) + if peers[|peers| - 1] == p then 1 else 0
  }

  lemma {:induction false} EndsAreCounted(about: seq<Delivery>, s: SessionId, device: Peer, browser: Peer, ends: seq<Peer>, p: Peer)
    requires InTurn(about, s, device, browser, ends)
    ensures Sends(about, s, p, true) == Times(ends, p)
    ensures Sends(about, s, p, false) == Times([device, browser], p)
    decreases |about|
  {
    var n := |about| - 1;
    if ends != [] {
      var k := |ends| - 1;
      assert IsEnd(about[n], s, ends[k]);
      EndsAreCounted(about[..n], s, device, browser, ends[..k], p);
    } else if n > 1 {
      assert IsMiddle(about[n], s, device, browser);
      EndsAreCounted(about[..n], s, device, browser, [], p);
    } else {
      StartsAreCounted(about[0], about[1], s, device, browser, p);
      assert about == [about[0], about[1]];
    }
  }

  lemma StartsAreCounted(d1: Delivery, d2: Delivery, s: SessionId, device: Peer, browser: Peer, p: Peer)
    requires IsStart(d1, s, device) && IsStart(d2, s, browser)
    ensures Sends([d1, d2], s, p, true) == 0 && Sends([d1, d2], s, p, false) == Times([device, browser], p)
  {
    assert [d1, d2][..1] == [d1] && [d1][..0] == [];
    assert [device, browser][..1] == [device] && [device][..0] == [];
    assert Sends([d1], s, p, true) == 0;
    assert Sends([d1], s, p, false) == Times([device], p);
  }

  lemma EndsToAreCounted(device: Peer, browser: Peer, ending: Ending)
    requires device != browser
    ensures Times([device, browser], device) == Times([device, browser], browser) == 1
    ensures Times(EndsTo(device, browser, ending), device) == if ending.Otherwise? then 1 else 0
    ensures Times(EndsTo(device, browser, ending), browser) == if ending.ByDevice? then 2 else 1
  {
    assert [device, browser][..1] == [device] && [browser, browser][..1] == [browser];
    assert Times([device], device) == 1 && Times([device], browser) == 0 && Times([browser], browser) == 1 && Times([browser], device) == 0;
  }

  /** Counted: a browser that is not also the device was sent one session.end, two if the car's device ended the
      session; and the device it started with one, or none if that device was lost or the car's device ended it. */
  lemma EndedSessionsAreCounted(ops: seq<Op>, s: SessionId)
    requires ProperRun(ops, s) && StoryOf(ops, s).Over? && StoryOf(ops, s).device != StoryOf(ops, s).browser
    ensures
      var log, story := Run(ops).log, StoryOf(ops, s);
      && Sends(log, s, story.device, false) == 1 && Sends(log, s, story.browser, false) == 1
      && Sends(log, s, story.device, true) == (if story.ending.Otherwise? then 1 else 0)
      && Sends(log, s, story.browser, true) == (if story.ending.ByDevice? then 2 else 1)
  {
    SessionIsToldInFull(ops, s);
    var log, story := Run(ops).log, StoryOf(ops, s);
    forall p, end
      ensures Sends(log, s, p, end) == Sends(About(log, s), s, p, end)
    {
      SendsAreAbout(log, About(log, s), s, p, end);
    }
    var ends := EndsTo(story.device, story.browser, story.ending);
    EndsAreCounted(About(log, s), s, story.device, story.browser, ends, story.device);
    EndsAreCounted(About(log, s), s, story.device, story.browser, ends, story.browser);
    EndsToAreCounted(story.device, story.browser, story.ending);
  }

  /** A device's connection is replaced in mid-session, and the new one does `last`. */
  function Replaced(c: CarId, id: DeviceId, first: Peer, second: Peer, s: SessionId, browser: Peer, last: Op): seq<Op> {
    [AttachDeviceOp(c, id, first), AttachBrowserOp(s, c, 60_000, browser, 0), AttachDeviceOp(c, id, second)] + [last]
  }

  lemma RunOneMore(ops: seq<Op>, op: Op, s: SessionId)
    ensures Run(ops + [op]) == Apply(Run(ops), op)
    ensures StoryOf(ops + [op], s) == GoesOn(StoryOf(ops, s), s, Run(ops + [op]), EndingOf(op))
    ensures ProperRun(ops, s) && Proper(op, s, StoryOf(ops, s)) ==> ProperRun(ops + [op], s)
  {
    assert (ops + [op])[..|ops|] == ops;
  }

  /** A device attaches again while its car is in session. */
  lemma DeviceIsReplaced(c: CarId, id: DeviceId, first: Peer, second: Peer, s: SessionId, browser: Peer)
    ensures
      var ops := [AttachDeviceOp(c, id, first), AttachBrowserOp(s, c, 60_000, browser, 0), AttachDeviceOp(c, id, second)];
      && ProperRun(ops, s) && StoryOf(ops, s) == Going(first, browser)
      && c in Run(ops).byCar && Run(ops).byCar[c] == s && s in Run(ops).sessions && Attached(Run(ops), c, second)
  {
    var attach, start, again := AttachDeviceOp(c, id, first), AttachBrowserOp(s, c, 60_000, browser, 0), AttachDeviceOp(c, id, second);
    RunOneMore([], attach, s);
    assert [] + [attach] == [attach];
    RunOneMore([attach], start, s);
    assert [attach] + [start] == [attach, start];
    RunOneMore([attach, start], again, s);
    assert [attach, start] + [again] == [attach, start, again];
  }

  /** A session can end without its starting device being told, though that device neither ended it nor dropped while
      attached: the connection that replaced it ends the session, or drops. */
  lemma ReplacedDeviceIsNotTold(c: CarId, id: DeviceId, first: Peer, second: Peer, s: SessionId, browser: Peer, last: Op, reason: string)
    requires first != second && first != browser
    requires last == DeviceOp(c, End(s, reason)) || last == DetachDeviceOp(c, second)
    ensures
      var ops := Replaced(c, id, first, second, s, browser, last);
      && ProperRun(ops, s) && StoryOf(ops, s) == Over(first, browser, EndingOf(last))
      && Sends(Run(ops).log, s, first, true) == 0
  {
    DeviceIsReplaced(c, id, first, second, s, browser);
    var ops := [AttachDeviceOp(c, id, first), AttachBrowserOp(s, c, 60_000, browser, 0), AttachDeviceOp(c, id, second)];
    RunOneMore(ops, last, s);
    EndedSessionsAreCounted(Replaced(c, id, first, second, s, browser, last), s);
  }

  // ---------- The object ----------

  class SessionRegistry {
    var devicesByCar: map<CarId, Connection>
    var sessions: map<SessionId, Live>
    var sessionsByCar: map<CarId, SessionId>
    ghost var log: seq<Delivery>

    constructor ()
      ensures View() == Nothing
    {
      devicesByCar, sessions, sessionsByCar, log := map[], map[], map[], [];
    }

    ghost function View(): State
      reads this
    {
      State(devicesByCar, sessions, sessionsByCar, log)
    }

    method Send(to: Peer, message: Message)
      modifies this`log
      ensures log == old(log) + [Sent(to, message)]
    {
      log := log + [Sent(to, message)];
    }

    method ClosePeer(peer: Peer)
      modifies this`log
      ensures log == old(log) + [Closed(peer)]
    {
      log := log + [Closed(peer)];
    }

    method AttachDeviceAt(car: CarId, id: DeviceId, peer: Peer)
      modifies this
      ensures View() == AttachDevice(old(View()), car, id, peer)
    {
      if car in devicesByCar && devicesByCar[car].peer != peer { ClosePeer(devicesByCar[car].peer); }
      devicesByCar := devicesByCar[car := Connection(id, peer)];
    }

    method FinishSession(s: SessionId, reason: string, notifyDevice: bool)
      modifies this
      ensures View() == EndSession(old(View()), s, reason, notifyDevice)
    {
      if s !in sessions { return; }
      var session := sessions[s];
      sessions := sessions - {s};
      sessionsByCar := sessionsByCar - {session.car};
      if notifyDevice { Send(session.device, End(s, reason)); }
      Send(session.browser, End(s, reason));
    }

    method DetachDeviceFrom(car: CarId, peer: Peer) returns (ended: Option<SessionId>)
      modifies this
      ensures (View(), ended) == DetachDevice(old(View()), car, peer)
    {
      if car !in devicesByCar || devicesByCar[car].peer != peer { return None; }
      devicesByCar := devicesByCar - {car};
      if car !in sessionsByCar { return None; }
      ended := Some(sessionsByCar[car]);
      FinishSession(ended.value, "device disconnected", false);
    }

    method AttachBrowserTo(s: SessionId, car: CarId, expiresAt: int, browser: Peer, now: int) returns (attached: bool)
      modifies this
      ensures attached == CanAttach(old(View()), s, car)
      ensures View() == AttachBrowser(old(View()), s, car, expiresAt, browser, now)
    {
      if s in sessions || car in sessionsByCar { return false; }
      if car !in devicesByCar { return false; }
      var device := devicesByCar[car].peer;
      sessions := sessions[s := Live(car, browser, device, expiresAt, now, None)];
      sessionsByCar := sessionsByCar[car := s];
      Send(device, Start(s, car));
      Send(browser, Start(s, car));
      attached := true;
    }

    method RelayBrowser(s: SessionId, message: Message) returns (relayed: bool)
      requires message.Relayed()
      modifies this
      ensures relayed == BrowserMayRelay(old(View()), s, message)
      ensures View() == RelayFromBrowser(old(View()), s, message)
    {
      if s !in sessions || message.session != s || message.Answer? { return false; }
      Send(sessions[s].device, message);
      if message.End? { FinishSession(s, message.reason, false); }
      relayed := true;
    }

    method RelayDevice(car: CarId, message: Message) returns (relayed: bool)
      requires message.Relayed()
      modifies this
      ensures relayed == DeviceMayRelay(old(View()), car, message)
      ensures View() == RelayFromDevice(old(View()), car, message)
    {
      if car !in sessionsByCar || sessionsByCar[car] !in sessions { return false; }
      var s := sessionsByCar[car];
      if message.session != s || message.Offer? { return false; }
      Send(sessions[s].browser, message);
      if message.End? { FinishSession(s, message.reason, false); }
      relayed := true;
    }

    method SendDeviceTelemetry(car: CarId, body: Payload) returns (sent: bool)
      modifies this
      ensures sent == InSession(old(View()), car) && View() == SendTelemetry(old(View()), car, body)
    {
      if car !in sessionsByCar || sessionsByCar[car] !in sessions { return false; }
      Send(sessions[sessionsByCar[car]].browser, Telemetry(sessionsByCar[car], body));
      sent := true;
    }

    method MarkConnectedAt(s: SessionId, now: int) returns (marked: bool)
      modifies this
      ensures marked == CanConnect(old(View()), s, now) && View() == MarkConnected(old(View()), s, now)
    {
      if s !in sessions || sessions[s].attachedAt + CONNECTION_TIMEOUT_MS <= now { return false; }
      if sessions[s].connectedAt.None? { sessions := sessions[s := sessions[s].(connectedAt := Some(now))]; }
      marked := true;
    }

    method SweepLapsed(order: seq<SessionId>, now: int) returns (expired: seq<SessionId>)
      modifies this
      ensures (View(), expired) == Sweep(old(View()), order, now)
    {
      expired := [];
      for i := 0 to |order|
        invariant Sweep(old(View()), order, now).0 == Sweep(View(), order[i..], now).0
        invariant Sweep(old(View()), order, now).1 == expired + Sweep(View(), order[i..], now).1
      {
        assert order[i..][1..] == order[i + 1..];
        var s := order[i];
        if s in sessions && sessions[s].Lapsed(now) {
          expired := expired + [s];
          FinishSession(s, if sessions[s].ConnectionLapsed(now) then "connection timed out" else "session expired", true);
        }
      }
      assert order[|order|..] == [] && expired + [] == expired;
    }
  }
}

/** Ride audio preferences: a client that edits freely, saves in a loop and may lose any response, and a
    server row that takes a write only if it is based on the row's current revision. */
module RideAudio {

  datatype Option<+T> = None | Some(value: T)

  type Account(==, !new)

  /** A playback setting; the volume in whole per cent, as edits round it. */
  datatype Value = Value(percent: int, muted: bool)

  datatype Row = Row(value: Value, revision: nat)

  datatype Body = Body(account: Account, value: Value, revision: nat)

  /** What the server answers to a write. A refusal stands for every answer without preferences. */
  datatype Reply = Accepted(revision: nat) | Conflict(revision: nat) | Refused

  // ---------- The server ----------

  /** An accepted write: whose row, what it wrote, on which revision, and which request of our client it was. */
  datatype Write = Write(account: Account, value: Value, based: nat, request: Option<nat>)

  function Save(rows: map<Account, Row>, body: Body): (map<Account, Row>, Reply) {
    if body.account !in rows then (rows, Refused)
    else if rows[body.account].revision == body.revision then
      (rows[body.account := Row(body.value, body.revision + 1)], Accepted(body.revision + 1))
    else (rows, Conflict(rows[body.account].revision))
  }

  // ---------- The client ----------

  datatype Status = Loading | Saved | Saving | NotSaved

  /** A save loop waiting for the answer to `body`: conflicts met, requests sent and edits made since the
      loop began, and the value a load has put (or left) in place since the request was sent, no edit standing. */
  datatype Loop = Loop(body: Body, conflicts: nat, sent: nat, edits: nat, loaded: Option<Value>)

  datatype Client = Client(value: Value, revision: Option<nat>, account: Option<Account>, edited: bool, dirty: bool,
                           closed: bool, saving: Option<Loop>, status: Status)

  const Pending: Client := Client(Value(0, true), None, None, false, false, false, None, Loading)

  datatype Volume = NotFinite | Finite(level: real)

  /** The nearest whole per cent, halves up. */
  function Percent(level: real): int {
    var clamped := if level < 0.0 then 0.0 else if level > 1.0 then 1.0 else level;
    (clamped * 100.0 + 0.5).Floor
  }

  function Report(c: Client, status: Status): Client {
    if c.closed then c else c.(status := status)
  }

  /** The head of the save loop: one more request, or the end of the loop. */
  function Iterate(c: Client, conflicts: nat, sent: nat, edits: nat): Client {
    if c.dirty && c.revision.Some? && c.account.Some? then
      c.(dirty := false, saving := Some(Loop(Body(c.account.value, c.value, c.revision.value), conflicts, sent + 1, edits, None)))
    else Report(c.(saving := None), Saved)
  }

  predicate StartsSaving(c: Client) {
    c.dirty && c.revision.Some? && c.saving.None?
  }

  function Flush(c: Client): Client {
    if StartsSaving(c) then Iterate(c, 0, 0, 0) else c
  }

  function Fail(c: Client): Client {
    Report(c.(dirty := true, saving := None), NotSaved)
  }

  /** The body of the loop after the await; no reply at all is a failure like a refusal. */
  function TakeReply(c: Client, reply: Reply): Client
    requires c.saving.Some?
  {
    var loop := c.saving.value;
    if reply.Refused? || c.account != Some(loop.body.account) then Fail(c)
    else if reply.Conflict? then
      var q := c.(revision := Some(reply.revision));
      if c.closed || loop.conflicts + 1 > 2 then Fail(q)
      else Iterate(q.(dirty := true), loop.conflicts + 1, loop.sent, loop.edits)
    else Iterate(c.(revision := Some(reply.revision)), loop.conflicts, loop.sent, loop.edits)
  }

  function Update(c: Client, volume: Volume, muted: bool): Client {
    if c.closed || volume.NotFinite? then c
    else
      Report(c.(value := Value(Percent(volume.level), muted), edited := true, dirty := true,
        saving := if c.saving.None? then None else Some(c.saving.value.(edits := c.saving.value.edits + 1, loaded := None))), Saving)
  }

  /** The account and row a load brings, before it is decided whether to flush. */
  function Adopt(c: Client, account: Account, row: Row): Client {
    var switched := c.account.Some? && c.account.value != account;
    var q := (if switched then c.(dirty := false, edited := false) else c).(account := Some(account), revision := Some(row.revision));
    if q.edited then q
    else
      var value := if q.closed then q.value else row.value;
      q.(value := value, saving := if q.saving.None? then None else Some(q.saving.value.(loaded := Some(value))))
  }

  function TakeLoad(c: Client, account: Account, row: Row): Client {
    var q := Adopt(c, account, row);
    if q.dirty then Flush(q) else Report(q, Saved)
  }

  // ---------- The world ----------

  datatype Request = Request(body: Body, reply: Option<Reply>)

  datatype Fetched = Fetched(account: Account, row: Row)

  datatype World = World(rows: map<Account, Row>, log: seq<Write>, client: Client, requests: seq<Request>, fetched: Option<Fetched>)

  datatype Step =
    | Edit(volume: Volume, muted: bool)
    | FlushStep
    | CloseStep
    | ServeLoad(account: Account)
    | LoadArrives
    | LoadFails
    | Deliver(request: nat)
    | Refuse(request: nat)
    | ReplyArrives
    | ReplyLost
    | OtherWrite(body: Body)

  /** The client after a step; if its loop has sent a request, that request is on its way. */
  function Sends(w: World, c: Client): World {
    var sent := c.saving.Some? && (w.client.saving.None? || c.saving.value.sent > w.client.saving.value.sent);
    w.(client := c, requests := if sent then w.requests + [Request(c.saving.value.body, None)] else w.requests)
  }

  ghost predicate Allowed(w: World, step: Step) {
    match step
    case ServeLoad(a) => a in w.rows
    case LoadArrives => w.fetched.Some?
    case Deliver(i) => i < |w.requests| && w.requests[i].reply.None?
    case Refuse(i) => i < |w.requests| && w.requests[i].reply.None?
    case ReplyArrives => w.client.saving.Some? && w.requests != [] && w.requests[|w.requests| - 1].reply.Some?
    case ReplyLost => w.client.saving.Some?
    case _ => true
  }

  function Processed(w: World, body: Body, request: Option<nat>): World {
    var (rows, reply) := Save(w.rows, body);
    w.(rows := rows,
       log := if reply.Accepted? then w.log + [Write(body.account, body.value, body.revision, request)] else w.log,
       requests := if request.Some? && request.value < |w.requests|
                   then w.requests[request.value := w.requests[request.value].(reply := Some(reply))] else w.requests)
  }

  function Next(w: World, step: Step): World
    requires Allowed(w, step)
  {
    match step
    case Edit(volume, muted) => w.(client := Update(w.client, volume, muted))
    case FlushStep => Sends(w, Flush(w.client))
    case CloseStep => Sends(w, Flush(w.client.(closed := true)))
    case ServeLoad(a) => w.(fetched := Some(Fetched(a, w.rows[a])))
    case LoadArrives => Sends(w.(fetched := None), TakeLoad(w.client, w.fetched.value.account, w.fetched.value.row))
    case LoadFails => w.(fetched := None, client := Report(w.client, NotSaved))
    case Deliver(i) => Processed(w, w.requests[i].body, Some(i))
    case Refuse(i) => w.(requests := w.requests[i := w.requests[i].(reply := Some(Refused))])
    case ReplyArrives => Sends(w, TakeReply(w.client, w.requests[|w.requests| - 1].reply.value))
    case ReplyLost => w.(client := Fail(w.client))
    case OtherWrite(body) => Processed(w, body, None)
  }

  // ---------- The invariant ----------

  function Writes(log: seq<Write>, a: Account): nat {
    if log == [] then 0 else Writes(log[..|log| - 1], a) + if log[|log| - 1].account == a then 1 else 0
  }

  /** The log holds the accepted writes of each row in order, each based on the number of those before it. */
  ghost predicate LogLaw(rows: map<Account, Row>, log: seq<Write>) {
    && (forall a :: a in rows ==> rows[a].revision == Writes(log, a))
    && (forall p :: 0 <= p < |log| ==> log[p].account in rows && log[p].based == Writes(log[..p], log[p].account))
    && (forall p, q :: 0 <= p < q < |log| && log[p].account == log[q].account ==> log[p].based < log[q].based)
    && (forall p :: 0 <= p < |log| ==> log[p].based < rows[log[p].account].revision)
  }

  predicate Known(rows: map<Account, Row>, a: Account, revision: nat) {
    a in rows && revision <= rows[a].revision
  }

  predicate WriteOf(b: Body, i: nat, write: Write) {
    write == Write(b.account, b.value, b.revision, Some(i))
  }

  ghost predicate RequestLaw(rows: map<Account, Row>, log: seq<Write>, requests: seq<Request>, i: nat)
    requires i < |requests|
  {
    var r := requests[i];
    && Known(rows, r.body.account, r.body.revision)
    && (r.reply.Some? && !r.reply.value.Refused? ==> Known(rows, r.body.account, r.reply.value.revision))
    && (r.reply.Some? && r.reply.value.Accepted? ==>
          r.reply.value.revision == r.body.revision + 1 && exists p :: 0 <= p < |log| && WriteOf(r.body, i, log[p]))
  }

  predicate AcceptedRequest(requests: seq<Request>, i: nat) {
    i < |requests| && requests[i].reply.Some? && requests[i].reply.value.Accepted?
  }

  /** Our writes in the log are our accepted requests, and none was based on more than a later accepted one. */
  ghost predicate OwnLaw(log: seq<Write>, requests: seq<Request>) {
    && (forall p {:trigger log[p].request} :: 0 <= p < |log| && log[p].request.Some? ==>
          && AcceptedRequest(requests, log[p].request.value)
          && WriteOf(requests[log[p].request.value].body, log[p].request.value, log[p]))
    && (forall i, k :: 0 <= i < k && AcceptedRequest(requests, k) && requests[i].body.account == requests[k].body.account ==>
          requests[i].body.revision <= requests[k].body.revision)
  }

  ghost predicate ServerLaw(rows: map<Account, Row>, log: seq<Write>, requests: seq<Request>) {
    && LogLaw(rows, log) && OwnLaw(log, requests)
    && forall i: nat :: i < |requests| ==> RequestLaw(rows, log, requests, i)
  }

  /** What the client holds is what its last request said, unless a load has put another value in place. */
  ghost predicate LoopLaw(w: World) {
    w.client.saving.Some? ==>
      var c, loop := w.client, w.client.saving.value;
      && w.requests != [] && w.requests[|w.requests| - 1].body == loop.body
      && (!c.dirty ==> c.value == if loop.loaded.Some? then loop.loaded.value else loop.body.value)
      && (loop.loaded.Some? ==> !c.edited)
      && loop.conflicts <= 2
      && loop.sent + (if c.dirty then 1 else 0) <= 1 + loop.edits + loop.conflicts
  }

  ghost predicate ClientLaw(w: World) {
    && (w.client.revision.Some? ==> w.client.account.Some? && Known(w.rows, w.client.account.value, w.client.revision.value))
    && (w.fetched.Some? ==> Known(w.rows, w.fetched.value.account, w.fetched.value.row.revision))
  }

  ghost predicate Valid(w: World) {
    ServerLaw(w.rows, w.log, w.requests) && ClientLaw(w) && LoopLaw(w)
  }

  ghost predicate Start(w: World) {
    && w.log == [] && w.requests == [] && w.fetched.None? && w.client == Pending
    && forall a :: a in w.rows ==> w.rows[a].revision == 0
  }

  lemma {:induction false} WritesGrow(log: seq<Write>, p: nat, a: Account)
    requires p <= |log|
    ensures Writes(log[..p], a) <= Writes(log, a)
  {
    if p == |log| {
      assert log[..p] == log;
    } else {
      WritesGrow(log[..|log| - 1], p, a);
      assert log[..|log| - 1][..p] == log[..p];
    }
  }

  /** A write that is accepted adds one to its row's revision, which is how many writes it was based on. */
  lemma SaveKeepsLog(rows: map<Account, Row>, log: seq<Write>, body: Body, request: Option<nat>)
    requires LogLaw(rows, log)
    ensures
      var (after, reply) := Save(rows, body);
      LogLaw(after, if reply.Accepted? then log + [Write(body.account, body.value, body.revision, request)] else log)
  {
    if Save(rows, body).1.Accepted? {
      var longer := log + [Write(body.account, body.value, body.revision, request)];
      assert longer[..|log|] == log;
      forall p | 0 <= p < |longer|
        ensures longer[p].based == Writes(longer[..p], longer[p].account)
      {
        if p < |log| { assert longer[..p] == log[..p]; }
      }
    }
  }

  predicate Answers(requests: seq<Request>, request: Option<nat>, body: Body) {
    request.Some? ==> request.value < |requests| && requests[request.value] == Request(body, None)
  }

  lemma ProcessedKeepsRequests(w: World, body: Body, request: Option<nat>, i: nat)
    requires ServerLaw(w.rows, w.log, w.requests) && i < |w.requests| && Answers(w.requests, request, body)
    ensures RequestLaw(Processed(w, body, request).rows, Processed(w, body, request).log, Processed(w, body, request).requests, i)
  {
    assert RequestLaw(w.rows, w.log, w.requests, i);
    if request == Some(i) { AnsweredKeepsLaw(w, body, i); } else { UnansweredKeepsLaw(w, body, request, i); }
  }

  lemma AnsweredKeepsLaw(w: World, body: Body, i: nat)
    requires Answers(w.requests, Some(i), body) && RequestLaw(w.rows, w.log, w.requests, i)
    ensures
      var q := Processed(w, body, Some(i));
      RequestLaw(q.rows, q.log, q.requests, i)
  {
    var q := Processed(w, body, Some(i));
    assert q.requests[i] == Request(body, Some(Save(w.rows, body).1));
    if Save(w.rows, body).1.Accepted? { assert WriteOf(body, i, q.log[|w.log|]); }
  }

  lemma UnansweredKeepsLaw(w: World, body: Body, request: Option<nat>, i: nat)
    requires i < |w.requests| && request != Some(i) && RequestLaw(w.rows, w.log, w.requests, i)
    ensures
      var q := Processed(w, body, request);
      i < |q.requests| && RequestLaw(q.rows, q.log, q.requests, i)
  {
    var q := Processed(w, body, request);
    var r := w.requests[i];
    assert q.requests[i] == r;
    RowsOnlyRise(w.rows, body, r.body.account, r.body.revision);
    if r.reply.Some? && !r.reply.value.Refused? { RowsOnlyRise(w.rows, body, r.body.account, r.reply.value.revision); }
    if AcceptedRequest(w.requests, i) {
      var p :| 0 <= p < |w.log| && WriteOf(r.body, i, w.log[p]);
      assert q.log[p] == w.log[p];
    }
  }

  lemma RowsOnlyRise(rows: map<Account, Row>, body: Body, a: Account, revision: nat)
    requires Known(rows, a, revision)
    ensures Known(Save(rows, body).0, a, revision)
  {
  }

  lemma ProcessedKeepsOwn(w: World, body: Body, request: Option<nat>)
    requires ServerLaw(w.rows, w.log, w.requests) && Answers(w.requests, request, body)
    ensures OwnLaw(Processed(w, body, request).log, Processed(w, body, request).requests)
  {
    var q := Processed(w, body, request);
    forall i, k | 0 <= i < k && AcceptedRequest(q.requests, k) && q.requests[i].body.account == q.requests[k].body.account
      ensures q.requests[i].body.revision <= q.requests[k].body.revision
    {
      if request == Some(k) { assert RequestLaw(w.rows, w.log, w.requests, i); } else { assert AcceptedRequest(w.requests, k); }
    }
    forall p | 0 <= p < |q.log| && q.log[p].request.Some?
      ensures AcceptedRequest(q.requests, q.log[p].request.value)
      ensures WriteOf(q.requests[q.log[p].request.value].body, q.log[p].request.value, q.log[p])
    {
      if p < |w.log| { assert AcceptedRequest(w.requests, w.log[p].request.value); }
    }
  }

  lemma ProcessedKeepsServer(w: World, body: Body, request: Option<nat>)
    requires ServerLaw(w.rows, w.log, w.requests) && Answers(w.requests, request, body)
    ensures ServerLaw(Processed(w, body, request).rows, Processed(w, body, request).log, Processed(w, body, request).requests)
  {
    SaveKeepsLog(w.rows, w.log, body, request);
    ProcessedKeepsOwn(w, body, request);
    var q := Processed(w, body, request);
    forall i: nat | i < |q.requests|
      ensures RequestLaw(q.rows, q.log, q.requests, i)
    {
      ProcessedKeepsRequests(w, body, request, i);
    }
  }

  lemma ProcessedKeepsClient(w: World, body: Body, request: Option<nat>)
    requires Answers(w.requests, request, body) && ClientLaw(w) && LoopLaw(w)
    ensures ClientLaw(Processed(w, body, request)) && LoopLaw(Processed(w, body, request))
  {
  }

  /** The client's own steps: what it may become. */
  ghost predicate Moves(w: World, c: Client) {
    && (c.revision.Some? ==> c.account.Some? && Known(w.rows, c.account.value, c.revision.value))
    && (c.saving.Some? ==>
          var loop := c.saving.value;
          && (!c.dirty ==> c.value == if loop.loaded.Some? then loop.loaded.value else loop.body.value)
          && (loop.loaded.Some? ==> !c.edited)
          && loop.conflicts <= 2
          && loop.sent + (if c.dirty then 1 else 0) <= 1 + loop.edits + loop.conflicts
          && (if w.client.saving.None? || loop.sent > w.client.saving.value.sent
              then Known(w.rows, loop.body.account, loop.body.revision)
              else loop.body == w.client.saving.value.body))
  }

  lemma SendKeepsServer(rows: map<Account, Row>, log: seq<Write>, requests: seq<Request>, body: Body)
    requires ServerLaw(rows, log, requests) && Known(rows, body.account, body.revision)
    ensures ServerLaw(rows, log, requests + [Request(body, None)])
  {
    var longer := requests + [Request(body, None)];
    forall i: nat | i < |longer|
      ensures RequestLaw(rows, log, longer, i)
    {
      if i < |requests| { assert RequestLaw(rows, log, requests, i); }
    }
    forall k | AcceptedRequest(longer, k)
      ensures AcceptedRequest(requests, k)
    {
    }
    assert forall p :: 0 <= p < |log| && log[p].request.Some? ==> AcceptedRequest(requests, log[p].request.value);
  }

  lemma MoveKeepsValid(w: World, c: Client)
    requires Valid(w) && Moves(w, c)
    ensures Valid(Sends(w, c))
  {
    if c.saving.Some? && (w.client.saving.None? || c.saving.value.sent > w.client.saving.value.sent) {
      SendKeepsServer(w.rows, w.log, w.requests, c.saving.value.body);
    }
  }

  lemma FlushMoves(w: World, c: Client)
    requires Moves(w, c) && (c.saving.Some? ==> w.client.saving.Some? && c.saving.value.sent == w.client.saving.value.sent)
    requires c.saving.None? ==> w.client.saving.None?
    ensures Moves(w, Flush(c))
  {
  }

  lemma ReplyMoves(w: World)
    requires Valid(w) && Allowed(w, ReplyArrives)
    ensures Moves(w, TakeReply(w.client, w.requests[|w.requests| - 1].reply.value))
  {
    var r := w.requests[|w.requests| - 1];
    assert RequestLaw(w.rows, w.log, w.requests, |w.requests| - 1);
    var c, loop := w.client, w.client.saving.value;
    if !r.reply.value.Refused? && c.account == Some(loop.body.account) {
      var q := c.(revision := Some(r.reply.value.revision));
      if r.reply.value.Accepted? { IterateMoves(w, q, loop.conflicts); }
      else if loop.conflicts < 2 { IterateMoves(w, q.(dirty := true), loop.conflicts + 1); }
    }
  }

  /** Going round the loop once more after a reply. */
  lemma IterateMoves(w: World, c: Client, conflicts: nat)
    requires w.client.saving.Some? && conflicts <= 2
    requires c.revision.Some? && c.account.Some? && Known(w.rows, c.account.value, c.revision.value)
    requires var loop := w.client.saving.value; c.dirty ==> loop.sent <= loop.edits + conflicts
    ensures Moves(w, Iterate(c, conflicts, w.client.saving.value.sent, w.client.saving.value.edits))
  {
  }

  lemma LoadMoves(w: World)
    requires Valid(w) && w.fetched.Some?
    ensures Moves(w, TakeLoad(w.client, w.fetched.value.account, w.fetched.value.row))
  {
    var q := Adopt(w.client, w.fetched.value.account, w.fetched.value.row);
    assert Moves(w, q);
    FlushMoves(w, q);
  }

  lemma RefusalKeepsServer(w: World, i: nat)
    requires ServerLaw(w.rows, w.log, w.requests) && Allowed(w, Refuse(i))
    ensures ServerLaw(w.rows, w.log, Next(w, Refuse(i)).requests)
  {
    var q := Next(w, Refuse(i));
    forall j: nat | j < |q.requests|
      ensures RequestLaw(q.rows, q.log, q.requests, j)
    {
      assert RequestLaw(w.rows, w.log, w.requests, j);
    }
    assert forall k :: AcceptedRequest(q.requests, k) ==> AcceptedRequest(w.requests, k);
    assert forall p :: 0 <= p < |w.log| && w.log[p].request.Some? ==> AcceptedRequest(w.requests, w.log[p].request.value);
  }

  lemma ClientStepKeepsValid(w: World, step: Step)
    requires Valid(w) && Allowed(w, step)
    requires step.FlushStep? || step.CloseStep? || step.LoadArrives? || step.ReplyArrives?
    ensures Valid(Next(w, step))
  {
    match step {
      case FlushStep =>
        FlushMoves(w, w.client);
        MoveKeepsValid(w, Flush(w.client));
      case CloseStep =>
        FlushMoves(w, w.client.(closed := true));
        MoveKeepsValid(w, Flush(w.client.(closed := true)));
      case LoadArrives =>
        LoadMoves(w);
        MoveKeepsValid(w.(fetched := None), TakeLoad(w.client, w.fetched.value.account, w.fetched.value.row));
      case ReplyArrives =>
        ReplyMoves(w);
        MoveKeepsValid(w, TakeReply(w.client, w.requests[|w.requests| - 1].reply.value));
    }
  }

  lemma ServerStepKeepsValid(w: World, step: Step)
    requires Valid(w) && Allowed(w, step) && (step.Deliver? || step.Refuse? || step.OtherWrite?)
    ensures Valid(Next(w, step))
  {
    match step {
      case Deliver(i) =>
        ProcessedKeepsServer(w, w.requests[i].body, Some(i));
        ProcessedKeepsClient(w, w.requests[i].body, Some(i));
      case Refuse(i) => RefusalKeepsServer(w, i);
      case OtherWrite(body) =>
        ProcessedKeepsServer(w, body, None);
        ProcessedKeepsClient(w, body, None);
    }
  }

  lemma NextKeepsValid(w: World, step: Step)
    requires Valid(w) && Allowed(w, step)
    ensures Valid(Next(w, step))
  {
    if step.FlushStep? || step.CloseStep? || step.LoadArrives? || step.ReplyArrives? { ClientStepKeepsValid(w, step); }
    else if step.Deliver? || step.Refuse? || step.OtherWrite? { ServerStepKeepsValid(w, step); }
  }

  // ---------- Whole runs ----------

  /** A run from the start: the steps taken and the worlds before and after each. */
  datatype History = History(worlds: seq<World>, steps: seq<Step>)
  {
    function Last(): World
      requires |worlds| == |steps| + 1
    {
      worlds[|steps|]
    }
  }

  ghost predicate IsHistory(h: History) {
    && |h.worlds| == |h.steps| + 1 && Start(h.worlds[0])
    && forall n :: 0 <= n < |h.steps| ==> Goes(h, n)
  }

  ghost predicate Goes(h: History, n: nat)
    requires |h.worlds| == |h.steps| + 1 && n < |h.steps|
  {
    Allowed(h.worlds[n], h.steps[n]) && h.worlds[n + 1] == Next(h.worlds[n], h.steps[n])
  }

  lemma {:induction false} HistoryStaysValid(h: History, n: nat)
    requires IsHistory(h) && n <= |h.steps|
    ensures Valid(h.worlds[n])
  {
    if n == 0 {
      StartIsValid(h.worlds[0]);
    } else {
      HistoryStaysValid(h, n - 1);
      assert Goes(h, n - 1);
      NextKeepsValid(h.worlds[n - 1], h.steps[n - 1]);
    }
  }

  /** No update is lost on the server: over every run its revision is the number of accepted writes, and the
      write that took a row to revision n + 1 was based on revision n. */
  lemma EveryWriteIsOnTheLast(h: History, p: nat)
    requires IsHistory(h) && p < |h.Last().log|
    ensures
      var q := h.Last();
      var account := q.log[p].account;
      && account in q.rows && q.rows[account].revision == Writes(q.log, account)
      && q.log[p].based == Writes(q.log[..p], account)
      && (forall r :: 0 <= r < |q.log| && r != p && q.log[r].account == account ==> q.log[r].based != q.log[p].based)
  {
    HistoryStaysValid(h, |h.steps|);
  }

  /** A save loop sends at most three requests more than there were edits during it. */
  lemma RequestsAreBounded(h: History)
    requires IsHistory(h) && h.Last().client.saving.Some?
    ensures var loop := h.Last().client.saving.value; loop.sent <= loop.edits + 3
  {
    HistoryStaysValid(h, |h.steps|);
  }

  /** The loop was waiting, the reply came, and the loop ended with "saved". */
  ghost predicate EndsSaved(w: World) {
    Allowed(w, ReplyArrives) && Next(w, ReplyArrives).client.saving.None? && !Next(w, ReplyArrives).client.dirty
  }

  lemma SavedReply(c: Client, reply: Reply)
    requires c.saving.Some? && TakeReply(c, reply).saving.None? && !TakeReply(c, reply).dirty
    ensures
      var loop, q := c.saving.value, TakeReply(c, reply);
      && reply.Accepted? && !c.dirty && c.account == Some(loop.body.account) == q.account
      && q.revision == Some(reply.revision) && q.value == c.value && q.edited == c.edited
  {
  }

  lemma SavedWasAccepted(w: World)
    requires Valid(w) && EndsSaved(w)
    ensures
      var k := |w.requests| - 1;
      var body, loop, q := w.requests[k].body, w.client.saving.value, Next(w, ReplyArrives).client;
      && AcceptedRequest(w.requests, k) && body == loop.body
      && q.account == Some(body.account) && q.revision == Some(body.revision + 1)
      && q.value == (if loop.loaded.Some? then loop.loaded.value else body.value)
      && (loop.loaded.Some? ==> !q.edited)
  {
    assert RequestLaw(w.rows, w.log, w.requests, |w.requests| - 1);
    SavedReply(w.client, w.requests[|w.requests| - 1].reply.value);
  }

  /** When a save loop ends with "saved", its last request is the last write of this client that the row has
      taken, and none of the client's earlier requests that are still on their way can be taken any more. */
  lemma SavedMeansStored(h: History)
    requires IsHistory(h) && EndsSaved(h.Last())
    ensures
      var now := h.Last();
      var k := |now.requests| - 1;
      var body := now.requests[k].body;
      && Next(now, ReplyArrives).client.account == Some(body.account)
      && (exists p :: LastOwn(now.log, p, body, k))
      && (forall i :: 0 <= i < |now.requests| && now.requests[i].body.account == body.account && now.requests[i].reply.None? ==>
            body.account in now.rows && now.requests[i].body.revision < now.rows[body.account].revision)
  {
    HistoryStaysValid(h, |h.steps|);
    SavedWasAccepted(h.Last());
    AcceptedIsLast(h.Last());
  }

  // ---------- What the client holds when it says "saved" ----------

  /** The load that arrives finds no edit standing on the account it was asked for. */
  predicate Overtakes(w: World, step: Step) {
    && step.LoadArrives? && w.fetched.Some?
    && !(w.client.edited && (w.client.account.None? || w.client.account.value == w.fetched.value.account))
  }

  /** What such a load leaves the client holding: the row it was served, or on a closed page what was there. */
  function LeftValue(w: World): Value
    requires w.fetched.Some?
  {
    if w.client.closed then w.client.value else w.fetched.value.row.value
  }

  /** Step j is the last load before moment n that overtook the edits, and came after the last request was sent. */
  ghost predicate LastOvertaker(h: History, n: nat, j: nat)
    requires IsHistory(h) && n <= |h.steps|
  {
    && j < n && Overtakes(h.worlds[j], h.steps[j]) && |h.worlds[j].requests| == |h.worlds[n].requests|
    && forall k :: j < k < n ==> !Overtakes(h.worlds[k], h.steps[k])
  }

  /** What a step does to a loop that goes on or begins: a new request, a load that overtakes, an edit, or nothing. */
  ghost predicate LoopStep(w: World, step: Step, q: World) {
    && |q.requests| >= |w.requests|
    && (q.client.saving.Some? ==>
          var loaded := q.client.saving.value.loaded;
          if |q.requests| > |w.requests| then loaded.None?
          else
            && w.client.saving.Some?
            && if Overtakes(w, step) then loaded == Some(LeftValue(w))
               else || (loaded == w.client.saving.value.loaded && q.client.dirty == w.client.dirty)
                    || (loaded.None? && q.client.dirty))
  }

  lemma NextIsLoopStep(w: World, step: Step)
    requires Allowed(w, step)
    ensures LoopStep(w, step, Next(w, step))
  {
  }

  lemma {:induction false} LoadedIsOvertaken(h: History, n: nat)
    requires IsHistory(h) && n <= |h.steps| && h.worlds[n].client.saving.Some?
    ensures
      var c := h.worlds[n].client;
      var loaded := c.saving.value.loaded;
      && (loaded.Some? ==> exists j: nat :: LastOvertaker(h, n, j) && loaded.value == LeftValue(h.worlds[j]))
      && (loaded.None? && !c.dirty ==> forall j: nat :: !LastOvertaker(h, n, j))
  {
    if n > 0 {
      var w, q, step := h.worlds[n - 1], h.worlds[n], h.steps[n - 1];
      assert Goes(h, n - 1);
      NextIsLoopStep(w, step);
      if |q.requests| > |w.requests| {
        forall j: nat | j < n
          ensures |h.worlds[j].requests| < |q.requests|
        {
          RequestsOnlyGrow(h, j, n - 1);
        }
      } else if Overtakes(w, step) {
        assert LastOvertaker(h, n, n - 1);
      } else {
        LoadedIsOvertaken(h, n - 1);
        forall j: nat
          ensures LastOvertaker(h, n, j) <==> LastOvertaker(h, n - 1, j)
        {
        }
      }
    }
  }

  lemma {:induction false} RequestsOnlyGrow(h: History, j: nat, n: nat)
    requires IsHistory(h) && j <= n <= |h.steps|
    ensures |h.worlds[j].requests| <= |h.worlds[n].requests|
  {
    if j < n {
      RequestsOnlyGrow(h, j, n - 1);
      assert Goes(h, n - 1);
      NextIsLoopStep(h.worlds[n - 1], h.steps[n - 1]);
    }
  }

  lemma OvertakerIsUnique(h: History, n: nat, i: nat, j: nat)
    requires IsHistory(h) && n <= |h.steps| && LastOvertaker(h, n, i) && LastOvertaker(h, n, j)
    ensures i == j
  {
  }

  /** When a save loop ends with "saved", the client holds another value than its last request wrote exactly if,
      while that request was awaited, a load came that found no edit standing on the account it was asked for, and
      the last such load left another value: the row it was served, or on a closed page the value dropped. */
  lemma SavedMisleadsIff(h: History)
    requires IsHistory(h) && EndsSaved(h.Last())
    ensures
      var now, n := h.Last(), |h.steps|;
      var wrote := now.requests[|now.requests| - 1].body.value;
      Next(now, ReplyArrives).client.value != wrote <==>
        exists j: nat :: LastOvertaker(h, n, j) && LeftValue(h.worlds[j]) != wrote
  {
    var now, n := h.Last(), |h.steps|;
    HistoryStaysValid(h, n);
    SavedWasAccepted(now);
    LoadedIsOvertaken(h, n);
    var loaded := now.client.saving.value.loaded;
    if loaded.Some? {
      var j: nat :| LastOvertaker(h, n, j) && loaded.value == LeftValue(h.worlds[j]);
      forall i: nat | LastOvertaker(h, n, i)
        ensures i == j
      {
        OvertakerIsUnique(h, n, i, j);
      }
    }
  }

  /** No load of the run brings an account other than the client's. */
  ghost predicate NeverSwitches(h: History)
    requires IsHistory(h)
  {
    forall n :: 0 <= n < |h.steps| && h.steps[n].LoadArrives? && h.worlds[n].fetched.Some? ==>
      h.worlds[n].client.account.None? || h.worlds[n].client.account.value == h.worlds[n].fetched.value.account
  }

  predicate EditStands(c: Client) {
    (c.dirty || c.saving.Some? ==> c.edited) && (c.saving.Some? ==> c.account.Some?)
  }

  lemma NextKeepsEdit(w: World, step: Step)
    requires Allowed(w, step) && EditStands(w.client)
    requires step.LoadArrives? ==> w.client.account.None? || w.client.account.value == w.fetched.value.account
    ensures EditStands(Next(w, step).client)
  {
  }

  lemma {:induction false} EditsStand(h: History, n: nat)
    requires IsHistory(h) && NeverSwitches(h) && n <= |h.steps|
    ensures EditStands(h.worlds[n].client)
  {
    if n > 0 {
      EditsStand(h, n - 1);
      assert Goes(h, n - 1);
      NextKeepsEdit(h.worlds[n - 1], h.steps[n - 1]);
    }
  }

  /** As long as no load switches the account, "saved" always tells the truth: edits while a request is awaited,
      conflicts, lost answers, late deliveries, loads of the same account and other clients' writes included. */
  lemma SavedIsTrueWithoutSwitch(h: History)
    requires IsHistory(h) && NeverSwitches(h) && EndsSaved(h.Last())
    ensures
      var now := h.Last();
      Next(now, ReplyArrives).client.value == now.requests[|now.requests| - 1].body.value
  {
    HistoryStaysValid(h, |h.steps|);
    EditsStand(h, |h.steps|);
    SavedWasAccepted(h.Last());
  }

  lemma AcceptedIsLast(w: World)
    requires Valid(w) && w.requests != [] && AcceptedRequest(w.requests, |w.requests| - 1)
    ensures
      var k := |w.requests| - 1;
      var body := w.requests[k].body;
      && (exists p :: LastOwn(w.log, p, body, k))
      && (forall i :: 0 <= i < |w.requests| && w.requests[i].body.account == body.account && w.requests[i].reply.None? ==>
            body.account in w.rows && w.requests[i].body.revision < w.rows[body.account].revision)
  {
    var k := |w.requests| - 1;
    var body := w.requests[k].body;
    assert RequestLaw(w.rows, w.log, w.requests, k);
    var p :| 0 <= p < |w.log| && WriteOf(body, k, w.log[p]);
    LastIsLast(w, p, body, k);
    assert LastOwn(w.log, p, body, k);
  }

  /** Entry p of the log is request k's, and every later write to that row is somebody else's. */
  ghost predicate LastOwn(log: seq<Write>, p: int, body: Body, k: nat) {
    && 0 <= p < |log| && WriteOf(body, k, log[p])
    && forall r :: p < r < |log| && log[r].account == body.account ==> log[r].request.None?
  }

  lemma LastIsLast(w: World, p: nat, body: Body, k: nat)
    requires Valid(w) && k + 1 == |w.requests| && w.requests[k].body == body && AcceptedRequest(w.requests, k)
    requires p < |w.log| && WriteOf(body, k, w.log[p])
    ensures forall r :: p < r < |w.log| && w.log[r].account == body.account ==> w.log[r].request.None?
  {
    forall r | p < r < |w.log| && w.log[r].account == body.account
      ensures w.log[r].request.None?
    {
      assert w.log[p].based < w.log[r].based;
    }
  }

  /** The world after the request that is on its way is answered, undisturbed. */
  function Answered(w: World): World
    requires w.requests != [] && w.requests[|w.requests| - 1].reply.None?
  {
    Next(w, Deliver(|w.requests| - 1))
  }

  ghost predicate Undisturbed(w: World, value: Value) {
    && Valid(w) && w.requests != [] && w.requests[|w.requests| - 1].reply.None?
    && w.client.saving.Some? && !w.client.closed && !w.client.dirty && w.client.value == value
    && w.client.saving.value.body.value == value && w.client.account == Some(w.client.saving.value.body.account)
  }

  ghost predicate StoredAndSaved(w: World, value: Value) {
    && EndsSaved(w) && Next(w, ReplyArrives).client.status == Saved && Next(w, ReplyArrives).client.value == value
    && w.client.account.Some? && w.client.account.value in w.rows && w.rows[w.client.account.value].value == value
  }

  /** With no edit, load or other write in between, a save loop that has met no more than one conflict stores its
      value: at once, or after a conflict with the next request, which is based on the row's own revision. */
  lemma UndisturbedSaveIsStored(w: World, value: Value)
    requires Undisturbed(w, value) && w.client.saving.value.conflicts < 2
    ensures
      || StoredAndSaved(Answered(w), value)
      || (&& Allowed(Answered(w), ReplyArrives) && Undisturbed(Next(Answered(w), ReplyArrives), value)
          && StoredAndSaved(Answered(Next(Answered(w), ReplyArrives)), value))
  {
    var body := w.client.saving.value.body;
    if Save(w.rows, body).1.Accepted? {
      AcceptedIsStored(w, value);
    } else {
      ConflictIsRetried(w, value);
      AcceptedIsStored(Next(Answered(w), ReplyArrives), value);
    }
  }

  lemma AcceptedIsStored(w: World, value: Value)
    requires Undisturbed(w, value) && Save(w.rows, w.client.saving.value.body).1.Accepted?
    ensures StoredAndSaved(Answered(w), value)
  {
  }

  lemma ConflictIsRetried(w: World, value: Value)
    requires Undisturbed(w, value) && w.client.saving.value.conflicts < 2 && !Save(w.rows, w.client.saving.value.body).1.Accepted?
    ensures Allowed(Answered(w), ReplyArrives)
    ensures Undisturbed(Next(Answered(w), ReplyArrives), value)
    ensures
      var q := Next(Answered(w), ReplyArrives);
      Save(q.rows, q.client.saving.value.body).1.Accepted?
  {
    var k := |w.requests| - 1;
    var body := w.client.saving.value.body;
    assert RequestLaw(w.rows, w.log, w.requests, k);
    var revision := w.rows[body.account].revision;
    NextKeepsValid(w, Deliver(k));
    NextKeepsValid(Answered(w), ReplyArrives);
    ConflictReply(w.client, revision);
    assert Answered(w) == w.(requests := w.requests[k := Request(body, Some(Conflict(revision)))]);
  }

  /** A client that has met few conflicts answers one with its value on the row's own revision. */
  lemma ConflictReply(c: Client, revision: nat)
    requires c.saving.Some? && !c.closed && c.saving.value.conflicts < 2 && c.account == Some(c.saving.value.body.account)
    ensures
      var q := TakeReply(c, Conflict(revision));
      && q.saving.Some? && q.saving.value.body == Body(c.account.value, c.value, revision)
      && q.saving.value.sent == c.saving.value.sent + 1
      && q.value == c.value && q.account == c.account && !q.closed && !q.dirty
  {
  }

  /** Revisions never fall, so a request based on an old one is answered with a conflict for ever. */
  lemma LateRequestsConflict(w: World, step: Step, i: nat)
    requires Valid(w) && Allowed(w, step) && i < |w.requests|
    requires var b := w.requests[i].body; b.account in w.rows && b.revision < w.rows[b.account].revision
    ensures
      var b, q := w.requests[i].body, Next(w, step);
      && b.account in q.rows && b.revision < q.rows[b.account].revision
      && i < |q.requests| && q.requests[i].body == b
      && (step == Deliver(i) ==> q.rows == w.rows && q.log == w.log)
  {
  }

  const Quiet: Value := Value(0, true)
  const Loud: Value := Value(100, false)

  function TwoRows(a: Account, b: Account, value: Value, revision: nat): map<Account, Row> {
    map[a := Row(value, revision), b := Row(Quiet, 0)]
  }

  /** The client as it waits for the answer to its one request. */
  function Waiting(current: Account, value: Value, revision: nat, edited: bool, body: Body, loaded: Option<Value>): Client {
    Client(value, Some(revision), Some(current), edited, false, false, Some(Loop(body, 0, 1, 0, loaded)), if edited then Saving else Saved)
  }

  /** The history of a misleading save: two accounts, an edit whose save is accepted, another client's write, and
      loads of the other account and the first again. */
  function Misled(a: Account, b: Account): History {
    var body := Body(a, Loud, 0);
    var before, after := TwoRows(a, b, Quiet, 0), TwoRows(a, b, Quiet, 2);
    var known := Client(Quiet, Some(0), Some(a), false, false, false, None, Saved);
    var sent, answered := [Request(body, None)], [Request(body, Some(Accepted(1)))];
    var first := [Write(a, Loud, 0, Some(0))];
    var both := first + [Write(a, Quiet, 1, None)];
    var waiting := Waiting(a, Loud, 0, true, body, None);
    var switched := Waiting(b, Quiet, 0, false, body, Some(Quiet));
    History(
      [World(before, [], Pending, [], None),
       World(before, [], Pending, [], Some(Fetched(a, Row(Quiet, 0)))),
       World(before, [], known, [], None),
       World(before, [], known.(value := Loud, edited := true, dirty := true, status := Saving), [], None),
       World(before, [], waiting, sent, None),
       World(TwoRows(a, b, Loud, 1), first, waiting, answered, None),
       World(after, both, waiting, answered, None),
       World(after, both, waiting, answered, Some(Fetched(b, Row(Quiet, 0)))),
       World(after, both, switched, answered, None),
       World(after, both, switched, answered, Some(Fetched(a, Row(Quiet, 2)))),
       World(after, both, Waiting(a, Quiet, 2, false, body, Some(Quiet)), answered, None)],
      [ServeLoad(a), LoadArrives, Edit(Finite(1.0), false), FlushStep, Deliver(0), OtherWrite(Body(a, Quiet, 1)),
       ServeLoad(b), LoadArrives, ServeLoad(a), LoadArrives])
  }

  lemma MisledBegins(a: Account, b: Account, n: nat)
    requires a != b && n < 5
    ensures Goes(Misled(a, b), n)
  {
  }

  lemma MisledGoesOn(a: Account, b: Account, n: nat)
    requires a != b && 5 <= n < 10
    ensures Goes(Misled(a, b), n)
  {
  }

  /** The exception is real: in this run the loop ends with "saved" while the client holds a value it never wrote. */
  lemma SwitchingAccountsCanMislead(a: Account, b: Account)
    requires a != b
    ensures
      var h := Misled(a, b);
      && IsHistory(h) && EndsSaved(h.Last())
      && Next(h.Last(), ReplyArrives).client.value != h.Last().requests[|h.Last().requests| - 1].body.value
  {
    var h := Misled(a, b);
    forall n | 0 <= n < |h.steps|
      ensures Goes(h, n)
    {
      if n < 5 { MisledBegins(a, b, n); } else { MisledGoesOn(a, b, n); }
    }
  }

  lemma StartIsValid(w: World)
    requires Start(w)
    ensures Valid(w)
  {
  }

  // ---------- What the client's own steps do ----------

  /** The stored per cent is the nearest to the level, the upper one of two as near, and never outside 0 to 100. */
  lemma PercentIsNearest(level: real)
    ensures
      var p := Percent(level);
      if level <= 0.0 then p == 0
      else if level >= 1.0 then p == 100
      else 0 <= p <= 100 && p as real - 0.5 <= level * 100.0 < p as real + 0.5
  {
  }

  /** An edit is kept unless the page is closed or the volume is no number; whatever a load has put in place is overruled. */
  lemma EditIsTaken(c: Client, volume: Volume, muted: bool)
    ensures
      var q := Update(c, volume, muted);
      if c.closed || volume.NotFinite? then q == c
      else
        && q.value == Value(Percent(volume.level), muted) && q.edited && q.dirty && q.status == Saving
        && q.account == c.account && q.revision == c.revision && !q.closed
        && (c.saving.None? ==> q.saving.None?)
        && (c.saving.Some? ==> q.saving == Some(c.saving.value.(edits := c.saving.value.edits + 1, loaded := None)))
  {
  }

  /** A load brings its account and revision. It is shown unless an edit of that account stands or the page is closed;
      what stands unsaved is sent on the revision the load has brought; what belonged to another account is forgotten. */
  lemma LoadIsTaken(c: Client, account: Account, row: Row)
    ensures
      var q, same := TakeLoad(c, account, row), c.account.None? || c.account.value == account;
      && q.account == Some(account) && q.revision == Some(row.revision) && q.closed == c.closed
      && q.edited == (c.edited && same)
      && q.value == (if (c.edited && same) || c.closed then c.value else row.value)
      && (if c.dirty && same && c.saving.None?
          then !q.dirty && q.saving == Some(Loop(Body(account, q.value, row.revision), 0, 1, 0, None)) && q.status == c.status
          else q.dirty == (c.dirty && same) && q.saving.Some? == c.saving.Some?
               && (!q.dirty && !c.closed ==> q.status == Saved))
  {
  }

  /** A refusal, an answer after a switch of account, a conflict on a closed page and the third conflict of a loop end it:
      not saved, and the value still to be sent. */
  lemma FailuresStopTheLoop(c: Client, reply: Reply)
    requires c.saving.Some?
    requires || reply.Refused? || c.account != Some(c.saving.value.body.account)
             || (reply.Conflict? && (c.closed || c.saving.value.conflicts >= 2))
    ensures
      var q := TakeReply(c, reply);
      && q.saving.None? && q.dirty && q.value == c.value && q.account == c.account
      && q.status == (if c.closed then c.status else NotSaved)
  {
  }

  /** An accepted answer ends the loop if nothing was edited meanwhile, and otherwise sends the edit on the new revision. */
  lemma AcceptedGoesOn(c: Client, revision: nat)
    requires c.saving.Some? && c.account == Some(c.saving.value.body.account)
    ensures
      var q := TakeReply(c, Accepted(revision));
      && q.revision == Some(revision) && q.value == c.value && !q.dirty
      && (if c.dirty then q.saving.Some? && q.saving.value.body == Body(c.account.value, c.value, revision)
          else q.saving.None? && q.status == if c.closed then c.status else Saved)
  {
  }

  /** An edit on an idle, loaded page, flushed and left undisturbed, is in the row when the loop says "saved". */
  lemma EditIsStored(w: World, volume: Volume, muted: bool)
    requires Valid(w) && volume.Finite? && !w.client.closed && w.client.saving.None? && w.client.revision.Some?
    ensures
      var value := Value(Percent(volume.level), muted);
      var sent := Next(Next(w, Edit(volume, muted)), FlushStep);
      && Undisturbed(sent, value)
      && (|| StoredAndSaved(Answered(sent), value)
          || (&& Allowed(Answered(sent), ReplyArrives) && Undisturbed(Next(Answered(sent), ReplyArrives), value)
              && StoredAndSaved(Answered(Next(Answered(sent), ReplyArrives)), value)))
  {
    var value := Value(Percent(volume.level), muted);
    var edited := Next(w, Edit(volume, muted));
    NextKeepsValid(w, Edit(volume, muted));
    FlushIsSent(edited);
    NextKeepsValid(edited, FlushStep);
    UndisturbedSaveIsStored(Next(edited, FlushStep), value);
  }

  lemma FlushIsSent(w: World)
    requires w.client.dirty && w.client.revision.Some? && w.client.account.Some? && w.client.saving.None?
    ensures
      var q, body := Next(w, FlushStep), Body(w.client.account.value, w.client.value, w.client.revision.value);
      && q == w.(client := w.client.(dirty := false, saving := Some(Loop(body, 0, 1, 0, None))), requests := w.requests + [Request(body, None)])
  {
  }

  // ---------- The objects ----------

  class AudioPreferencesStore {
    var users: map<Account, Row>

    constructor (users: map<Account, Row>)
      ensures this.users == users
    {
      this.users := users;
    }

    method Get(account: Account) returns (row: Option<Row>)
      ensures row == if account in users then Some(users[account]) else None
    {
      row := if account in users then Some(users[account]) else None;
    }

    method SavePreferences(body: Body) returns (reply: Reply)
      modifies this
      ensures (users, reply) == Save(old(users), body)
    {
      if body.account in users && users[body.account].revision == body.revision {
        users := users[body.account := Row(body.value, users[body.account].revision + 1)];
        return Accepted(users[body.account].revision);
      }
      var current := Get(body.account);
      reply := if current.Some? then Conflict(current.value.revision) else Refused;
    }
  }

  /** The save loop is cut at its await: `Save…` methods leave it waiting in `saving`. */
  class RideAudioPreferences {
    var value: Value
    var revision: Option<nat>
    var account: Option<Account>
    var edited: bool
    var dirty: bool
    var closed: bool
    var saving: Option<Loop>
    var status: Status

    constructor ()
      ensures State() == Pending
    {
      value, revision, account := Value(0, true), None, None;
      edited, dirty, closed, saving, status := false, false, false, None, Loading;
    }

    ghost function State(): Client
      reads this
    {
      Client(value, revision, account, edited, dirty, closed, saving, status)
    }

    method Show(s: Status)
      modifies this`status
      ensures State() == Report(old(State()), s)
    {
      if !closed { status := s; }
    }

    method UpdateValue(volume: Volume, muted: bool)
      modifies this
      ensures State() == Update(old(State()), volume, muted)
    {
      if closed || volume.NotFinite? { return; }
      value := Value(Percent(volume.level), muted);
      edited, dirty := true, true;
      if saving.Some? { saving := Some(saving.value.(edits := saving.value.edits + 1, loaded := None)); }
      Show(Saving);
    }

    method ContinueSaving(conflicts: nat, sent: nat, edits: nat)
      modifies this
      ensures State() == Iterate(old(State()), conflicts, sent, edits)
    {
      if dirty && revision.Some? && account.Some? {
        dirty := false;
        saving := Some(Loop(Body(account.value, value, revision.value), conflicts, sent + 1, edits, None));
      } else {
        saving := None;
        Show(Saved);
      }
    }

    method FlushNow()
      modifies this
      ensures State() == Flush(old(State()))
    {
      if dirty && revision.Some? && saving.None? { ContinueSaving(0, 0, 0); }
    }

    method CloseNow()
      modifies this
      ensures State() == Flush(old(State()).(closed := true))
    {
      closed := true;
      FlushNow();
    }

    method StopSaving()
      modifies this
      ensures State() == Fail(old(State()))
    {
      dirty := true;
      saving := None;
      Show(NotSaved);
    }

    method ReceiveReply(reply: Reply)
      requires saving.Some?
      modifies this
      ensures State() == TakeReply(old(State()), reply)
    {
      var loop := saving.value;
      if reply.Refused? || account != Some(loop.body.account) {
        StopSaving();
        return;
      }
      revision := Some(reply.revision);
      if reply.Conflict? {
        if closed || loop.conflicts + 1 > 2 {
          StopSaving();
          return;
        }
        dirty := true;
        ContinueSaving(loop.conflicts + 1, loop.sent, loop.edits);
        return;
      }
      ContinueSaving(loop.conflicts, loop.sent, loop.edits);
    }

    method ReceiveLoad(loaded: Account, row: Row)
      modifies this
      ensures State() == TakeLoad(old(State()), loaded, row)
    {
      if account.Some? && account.value != loaded { dirty, edited := false, false; }
      account, revision := Some(loaded), Some(row.revision);
      if !edited {
        // Edits may come before the first load; a closed page keeps what it shows.
        if !closed { value := row.value; }
        if saving.Some? { saving := Some(saving.value.(loaded := Some(value))); }
      }
      if dirty { FlushNow(); } else { Show(Saved); }
    }
  }
}

/** The browser's control loop: arm and disarm over a reliable channel, fifty frames a second over a fast
    one, and a stop on congestion or failure. Everything sent, and every input taken or cleared, is a mark in
    a log; the laws of the output are laws of that log. */
module ControlLoop {

  datatype Option<+T> = None | Some(value: T)

  const CONGESTION_MS: int := 200

  /** What a channel answers when it is looked at. */
  datatype Channel = Shut | Open(buffered: nat, throws: bool)
  {
    predicate Backed() { Open? && buffered > 0 }

    predicate Ready() { Open? && buffered == 0 }
  }

  datatype Axis = NotFinite | Finite(value: real)

  datatype Input = Input(steering: Option<Axis>, throttle: Option<Axis>, nitro: Option<bool>)

  datatype Held = Held(steering: real, throttle: real, nitro: bool)

  const Neutral: Held := Held(0.0, 0.0, false)

  // ---------- Encoding ----------

  function NormalizedAxis(a: Axis): real {
    match a
    case NotFinite => 0.0
    case Finite(x) => if x < -1.0 then -1.0 else if x > 1.0 then 1.0 else x
  }

  function DiscreteAxis(x: real): int {
    if x == 0.0 then 0 else if x < 0.0 then -1 else 1
  }

  /** Rounds half up, as `Math.round` does. */
  function Round(x: real): int {
    (x + 0.5).Floor
  }

  function EncodeAxis(x: real, proportional: bool): int {
    if proportional then Round(NormalizedAxis(Finite(x)) * 1000.0) else DiscreteAxis(x)
  }

  /** An encoded axis stays in range, keeps the order, and is the nearest step, the upper one of two as near; or just the
      sign. */
  lemma EncodingIsFaithful(x: real, y: real)
    requires -1.0 <= x <= y <= 1.0
    ensures -1000 <= EncodeAxis(x, true) <= EncodeAxis(y, true) <= 1000
    ensures x - 0.0005 <= EncodeAxis(x, true) as real / 1000.0 <= x + 0.0005
    ensures -1 <= EncodeAxis(x, false) <= EncodeAxis(y, false) <= 1
    ensures EncodeAxis(0.0, true) == EncodeAxis(0.0, false) == 0
    ensures EncodeAxis(x, true) as real - 0.5 <= x * 1000.0 < EncodeAxis(x, true) as real + 0.5
    ensures EncodeAxis(x, false) == (if x > 0.0 then 1 else if x == 0.0 then 0 else -1)
  {
  }

  /** Every thousandth survives the round trip. */
  lemma ThousandthsSurvive(k: int)
    requires -1000 <= k <= 1000
    ensures EncodeAxis(k as real / 1000.0, true) == k
  {
  }

  // ---------- The log ----------

  datatype Via = Fast(buffered: nat) | Http

  datatype Mark =
    | Bound
    | Requested
    | ArmSent
    | NeutralSent
    | Frame(via: Via, sequence: nat, steering: int, throttle: int, nitro: bool, armed: bool)
    | Applied(input: Input)
    | Cleared
    | Disarmed
    | Failed
    | Tick(backedAt: Option<int>)

  function Taken(held: Held, input: Input): Held {
    Held(NormalizedAxis(if input.steering.Some? then input.steering.value else Finite(held.steering)),
         NormalizedAxis(if input.throttle.Some? then input.throttle.value else Finite(held.throttle)),
         if input.nitro.Some? then input.nitro.value else held.nitro)
  }

  /** The input held after these marks: what was applied since the last clearing. */
  function HeldAfter(log: seq<Mark>): Held {
    if log == [] then Neutral
    else
      var front, m := log[..|log| - 1], log[|log| - 1];
      if m.Cleared? || m.Failed? then Neutral
      else if m.Applied? then Taken(HeldAfter(front), m.input)
      else HeldAfter(front)
  }

  /** An arm message was accepted at i, and since then nothing disarmed and nothing failed. */
  ghost predicate ArmedAt(log: seq<Mark>, n: int, i: int) {
    && 0 <= i < n <= |log| && log[i].ArmSent?
    && forall k :: i < k < n ==> !log[k].Disarmed? && !log[k].Failed?
  }

  ghost predicate ArmedAfter(log: seq<Mark>, n: int) {
    exists i :: ArmedAt(log, n, i)
  }

  /** Someone asked to arm at i, and since then nothing disarmed and nothing failed. */
  ghost predicate AskedAt(log: seq<Mark>, n: int, i: int) {
    && 0 <= i < n <= |log| && log[i].Requested?
    && forall k :: i < k < n ==> !log[k].Disarmed? && !log[k].Failed?
  }

  ghost predicate AskedAfter(log: seq<Mark>, n: int) {
    exists i :: AskedAt(log, n, i)
  }

  /** A pair of channels was bound among the first n marks. */
  ghost predicate BoundAfter(log: seq<Mark>, n: int) {
    exists b :: 0 <= b < n <= |log| && log[b].Bound?
  }

  /** The arm at i was sent over the pair of channels that is still bound at n. */
  ghost predicate ArmedOverPair(log: seq<Mark>, n: int, i: int) {
    ArmedAt(log, n, i) && forall k :: i < k < n ==> !log[k].Bound?
  }

  ghost predicate ArmedOnPair(log: seq<Mark>, n: int) {
    exists i :: ArmedOverPair(log, n, i)
  }

  /** When the congestion under way was first seen: at the first of the backed ticks that end the log. */
  function BackedSince(log: seq<Mark>): Option<int> {
    if log == [] then None
    else
      var front, m := log[..|log| - 1], log[|log| - 1];
      if !m.Tick? then BackedSince(front)
      else if m.backedAt.None? then None
      else if BackedSince(front).Some? then BackedSince(front)
      else m.backedAt
  }

  /** What was held before a clearing has no influence on what is held after it. */
  lemma {:induction false} ClearedInputIsGone(before: seq<Mark>, clear: Mark, after: seq<Mark>)
    requires clear.Cleared? || clear.Failed?
    ensures HeldAfter(before + [clear] + after) == HeldAfter([clear] + after)
  {
    if after == [] {
      assert before + [clear] + after == before + [clear] && [clear] + after == [clear];
    } else {
      var front, last := after[..|after| - 1], after[|after| - 1];
      ClearedInputIsGone(before, clear, front);
      assert before + [clear] + after == (before + [clear] + front) + [last] && [clear] + after == ([clear] + front) + [last];
    }
  }

  // ---------- The loop ----------

  datatype Loop = Loop(proportional: bool, bound: bool, sequence: nat, held: Held, armRequested: bool, armed: bool,
                       congestedAt: Option<int>, provider: bool, log: seq<Mark>)

  function Fresh(proportional: bool): Loop {
    Loop(proportional, false, 0, Neutral, false, false, None, false, [])
  }

  /** What one call sees of its surroundings: the reliable channel and, should its send throw, that channel
      once more; the fast channel, the clock read twice, the reliable channel should the fast one fail; the
      provider's answer; and whether there is an HTTP fallback. */
  datatype Env = Env(reliable: Channel, reliableAgain: Channel, fast: Channel, now: int, later: int,
                     reliableLast: Channel, provided: Input, origin: bool)

  function Note(s: Loop, m: Mark): Loop {
    s.(log := s.log + [m])
  }

  function TransportFailed(s: Loop, reliable: Channel): Loop {
    var q := Note(s, Failed).(armRequested := false, provider := false, held := Neutral, armed := false);
    if s.bound && reliable.Ready() && !reliable.throws then Note(q, NeutralSent) else q
  }

  function SendReliable(s: Loop, m: Mark, reliable: Channel, again: Channel): (Loop, bool) {
    if !s.bound || !reliable.Ready() then (s, false)
    else if reliable.throws then (TransportFailed(s, again), false)
    else (Note(s, m), true)
  }

  predicate MayArm(s: Loop, env: Env) {
    s.armRequested && !s.armed && s.bound && env.fast.Ready() && env.reliable.Ready()
  }

  function TryArm(s: Loop, env: Env): Loop {
    if !MayArm(s, env) then s
    else
      var (q, sent) := SendReliable(s, ArmSent, env.reliable, env.reliableAgain);
      if sent then q.(armed := true) else q
  }

  function Apply(s: Loop, input: Input): Loop {
    Note(s, Applied(input)).(held := Taken(s.held, input))
  }

  function FrameOf(s: Loop, via: Via): Mark {
    Frame(via, s.sequence,
          if s.armed then EncodeAxis(s.held.steering, s.proportional) else 0,
          if s.armed then EncodeAxis(s.held.throttle, s.proportional) else 0,
          s.armed && s.held.nitro, s.armed)
  }

  function Backed(s: Loop, env: Env): Loop {
    var since := if s.congestedAt.Some? then s.congestedAt.value else env.now;
    var q := Note(s, Tick(Some(env.now))).(congestedAt := Some(since));
    if s.armed && env.later - since >= CONGESTION_MS then TransportFailed(q, env.reliableLast) else q
  }

  function Emit(s: Loop, env: Env): Loop {
    if s.bound && env.fast.Open? then
      if env.fast.throws then TransportFailed(s, env.reliableLast) else Note(s, FrameOf(s, Fast(env.fast.buffered)))
    else if s.bound || !env.origin then s
    else Note(s, FrameOf(s, Http))
  }

  /** A tick that is not held back ends any congestion and asks the provider. */
  function Sampled(s: Loop, env: Env): Loop {
    var free := Note(s, Tick(None)).(congestedAt := None);
    if s.armed && s.provider then Apply(free, env.provided) else free
  }

  function SendLatest(s: Loop, env: Env): Loop {
    if s.bound && env.fast.Backed() then Backed(s, env)
    else
      var sampled := Sampled(s, env);
      Emit(sampled.(sequence := sampled.sequence + 1), env)
  }

  function Emptied(s: Loop): Loop {
    Note(s, Cleared).(provider := false, held := Neutral)
  }

  function Calm(s: Loop, env: Env): Loop {
    SendLatest(SendReliable(Emptied(s), NeutralSent, env.reliable, env.reliableAgain).0, env)
  }

  function Disarm(s: Loop, env: Env): Loop {
    Calm(Note(s, Disarmed).(armRequested := false, armed := false), env)
  }

  /** `stop` disarms with its own reason and unbinds; an unbound channel merely stops calling back. */
  datatype Op =
    | BindOp | OpenOp | ShutOp | ArmOp | DisarmOp | NeutralOp | TickOp
    | InputOp(input: Input) | ProviderOp(provider: bool)

  function Step(s: Loop, op: Op, env: Env): Loop {
    match op
    case BindOp => TryArm(Note(s, Bound).(bound := true), env)
    case OpenOp => TryArm(s, env)
    case ShutOp => TransportFailed(s, env.reliable)
    case ArmOp => TryArm(Note(s, Requested).(armRequested := true), env)
    case DisarmOp => Disarm(s, env)
    case NeutralOp => Calm(s, env)
    case TickOp => SendLatest(s, env)
    case InputOp(input) => Apply(s.(provider := false), input)
    case ProviderOp(provider) => s.(provider := provider)
  }

  function Run(proportional: bool, ops: seq<(Op, Env)>): Loop {
    if ops == [] then Fresh(proportional)
    else Step(Run(proportional, ops[..|ops| - 1]), ops[|ops| - 1].0, ops[|ops| - 1].1)
  }

  // ---------- The laws of the output ----------

  /** An arm message is sent only over bound channels, only while unarmed, and only if someone asked to arm and
      nothing disarmed or failed since. */
  ghost predicate ArmLaw(log: seq<Mark>, i: int)
    requires 0 <= i < |log|
  {
    log[i].ArmSent? ==> AskedAfter(log, i) && BoundAfter(log, i) && !ArmedAfter(log, i)
  }

  /** An unarmed frame is all zero. An armed one follows an accepted arm message with no disarm or failure in
      between, carries exactly the input taken since the last clearing, and never goes over HTTP. Nothing is
      put on a fast channel that is backed up, and sequence numbers rise. */
  ghost predicate FrameLaw(log: seq<Mark>, i: int, proportional: bool)
    requires 0 <= i < |log|
  {
    log[i].Frame? ==>
      var f, held := log[i], HeldAfter(log[..i]);
      && f.armed == ArmedAfter(log, i)
      && (!f.armed ==> f.steering == 0 && f.throttle == 0 && !f.nitro)
      && (f.armed ==>
            && f.steering == EncodeAxis(held.steering, proportional)
            && f.throttle == EncodeAxis(held.throttle, proportional)
            && f.nitro == held.nitro && f.via.Fast?)
      && (f.via.Fast? ==> f.via.buffered == 0)
      && forall j :: 0 <= j < i && log[j].Frame? ==> log[j].sequence < f.sequence
  }

  ghost predicate Lawful(log: seq<Mark>, proportional: bool) {
    forall i :: 0 <= i < |log| ==> FrameLaw(log, i, proportional) && ArmLaw(log, i)
  }

  /** The fields are what the log says. */
  ghost predicate Reads(s: Loop) {
    && s.held == HeldAfter(s.log)
    && s.armed == ArmedAfter(s.log, |s.log|)
    && s.armRequested == AskedAfter(s.log, |s.log|)
    && s.bound == BoundAfter(s.log, |s.log|)
    && s.congestedAt == BackedSince(s.log)
  }

  ghost predicate Valid(s: Loop) {
    && Reads(s) && Lawful(s.log, s.proportional)
    && (s.armed ==> s.bound)
    && forall j :: 0 <= j < |s.log| && s.log[j].Frame? ==> s.log[j].sequence <= s.sequence
  }

  lemma NoteReads(log: seq<Mark>, m: Mark)
    ensures
      var longer := log + [m];
      && HeldAfter(longer) == (if m.Cleared? || m.Failed? then Neutral
                               else if m.Applied? then Taken(HeldAfter(log), m.input) else HeldAfter(log))
      && ArmedAfter(longer, |longer|) == (m.ArmSent? || (ArmedAfter(log, |log|) && !m.Disarmed? && !m.Failed?))
      && AskedAfter(longer, |longer|) == (m.Requested? || (AskedAfter(log, |log|) && !m.Disarmed? && !m.Failed?))
      && BackedSince(longer) == (if !m.Tick? then BackedSince(log) else if m.backedAt.None? then None
                                 else if BackedSince(log).Some? then BackedSince(log) else m.backedAt)
  {
    var longer := log + [m];
    assert longer[..|log|] == log;
    if m.ArmSent? { assert ArmedAt(longer, |longer|, |log|); }
    else if ArmedAfter(log, |log|) && !m.Disarmed? && !m.Failed? {
      var i :| ArmedAt(log, |log|, i);
      assert ArmedAt(longer, |longer|, i);
    } else if ArmedAfter(longer, |longer|) {
      var i :| ArmedAt(longer, |longer|, i);
      assert longer[|log|] == m;
      assert ArmedAt(log, |log|, i);
    }
    NoteReadsAsked(log, m);
  }

  lemma NoteReadsAsked(log: seq<Mark>, m: Mark)
    ensures
      var longer := log + [m];
      AskedAfter(longer, |longer|) == (m.Requested? || (AskedAfter(log, |log|) && !m.Disarmed? && !m.Failed?))
  {
    var longer := log + [m];
    assert longer[|log|] == m;
    AskedStays(log, m, |log|);
    if m.Requested? { assert AskedAt(longer, |longer|, |log|); }
    if AskedAfter(longer, |log|) && !m.Disarmed? && !m.Failed? {
      var i :| AskedAt(longer, |log|, i);
      assert AskedAt(longer, |longer|, i);
    }
    if AskedAfter(longer, |longer|) && !m.Requested? {
      var i :| AskedAt(longer, |longer|, i);
      assert AskedAt(longer, |log|, i);
    }
  }

  lemma BoundStays(log: seq<Mark>, m: Mark, i: int)
    requires 0 <= i <= |log|
    ensures BoundAfter(log, i) == BoundAfter(log + [m], i)
    ensures BoundAfter(log + [m], |log| + 1) == (m.Bound? || BoundAfter(log, |log|))
  {
    var longer := log + [m];
    assert longer[|log|] == m;
    assert forall k :: 0 <= k < |log| ==> log[k] == longer[k];
    if BoundAfter(log, |log|) {
      var b :| 0 <= b < |log| && log[b].Bound?;
      assert longer[b].Bound?;
    }
  }

  lemma ArmedStays(log: seq<Mark>, m: Mark, i: int)
    requires 0 <= i <= |log|
    ensures ArmedAfter(log, i) == ArmedAfter(log + [m], i)
  {
    var longer := log + [m];
    assert forall k :: 0 <= k < |log| ==> log[k] == longer[k];
    if ArmedAfter(log, i) {
      var k :| ArmedAt(log, i, k);
      assert ArmedAt(longer, i, k);
    }
    if ArmedAfter(longer, i) {
      var k :| ArmedAt(longer, i, k);
      assert longer[k] == log[k];
      forall l | k < l < i
        ensures !log[l].Disarmed? && !log[l].Failed?
      {
        assert longer[l] == log[l];
      }
      assert ArmedAt(log, i, k);
    }
  }

  lemma AskedStays(log: seq<Mark>, m: Mark, i: int)
    requires 0 <= i <= |log|
    ensures AskedAfter(log, i) == AskedAfter(log + [m], i)
  {
    var longer := log + [m];
    assert forall k :: 0 <= k < |log| ==> log[k] == longer[k];
    if AskedAfter(log, i) {
      var k :| AskedAt(log, i, k);
      assert AskedAt(longer, i, k);
    }
    if AskedAfter(longer, i) {
      var k :| AskedAt(longer, i, k);
      assert longer[k] == log[k];
      forall l | k < l < i
        ensures !log[l].Disarmed? && !log[l].Failed?
      {
        assert longer[l] == log[l];
      }
      assert AskedAt(log, i, k);
    }
  }

  lemma EarlierLawStays(log: seq<Mark>, m: Mark, i: int, proportional: bool)
    requires 0 <= i < |log| && FrameLaw(log, i, proportional)
    ensures FrameLaw(log + [m], i, proportional)
  {
    var longer := log + [m];
    assert longer[..i] == log[..i];
    if ArmedAfter(log, i) {
      var k :| ArmedAt(log, i, k);
      assert ArmedAt(longer, i, k);
    }
    if ArmedAfter(longer, i) {
      var k :| ArmedAt(longer, i, k);
      assert ArmedAt(log, i, k);
    }
  }

  lemma NoteKeepsLaw(log: seq<Mark>, m: Mark, proportional: bool)
    requires Lawful(log, proportional) && FrameLaw(log + [m], |log|, proportional)
    requires m.ArmSent? ==> AskedAfter(log, |log|) && BoundAfter(log, |log|) && !ArmedAfter(log, |log|)
    ensures Lawful(log + [m], proportional)
  {
    forall i | 0 <= i < |log + [m]|
      ensures FrameLaw(log + [m], i, proportional) && ArmLaw(log + [m], i)
    {
      AskedStays(log, m, i);
      BoundStays(log, m, i);
      ArmedStays(log, m, i);
      if i < |log| {
        assert ArmLaw(log, i);
        EarlierLawStays(log, m, i, proportional);
      }
    }
  }

  /** A mark that is no frame, with the fields set to what the log now says. */
  lemma NoteKeepsValid(s: Loop, m: Mark, q: Loop)
    requires Valid(s) && !m.Frame? && q.log == s.log + [m] && q.proportional == s.proportional
    requires q.sequence == s.sequence && (q.armed ==> q.bound) && q.bound == (s.bound || m.Bound?)
    requires q.held == if m.Cleared? || m.Failed? then Neutral else if m.Applied? then Taken(s.held, m.input) else s.held
    requires q.armed == (m.ArmSent? || (s.armed && !m.Disarmed? && !m.Failed?)) && (m.ArmSent? ==> s.armRequested && s.bound && !s.armed)
    requires q.armRequested == (m.Requested? || (s.armRequested && !m.Disarmed? && !m.Failed?))
    requires q.congestedAt == if !m.Tick? then s.congestedAt else if m.backedAt.None? then None
                              else if s.congestedAt.Some? then s.congestedAt else m.backedAt
    ensures Valid(q)
  {
    NoteReads(s.log, m);
    BoundStays(s.log, m, |s.log|);
    NoteKeepsLaw(s.log, m, s.proportional);
  }

  lemma FailureKeepsValid(s: Loop, reliable: Channel)
    requires Valid(s)
    ensures Valid(TransportFailed(s, reliable)) && !TransportFailed(s, reliable).armed
    ensures TransportFailed(s, reliable).proportional == s.proportional
  {
    var q := Note(s, Failed).(armRequested := false, provider := false, held := Neutral, armed := false);
    NoteKeepsValid(s, Failed, q);
    NoteKeepsValid(q, NeutralSent, Note(q, NeutralSent));
  }

  lemma ReliableKeepsValid(s: Loop, reliable: Channel, again: Channel)
    requires Valid(s)
    ensures Valid(SendReliable(s, NeutralSent, reliable, again).0)
    ensures SendReliable(s, NeutralSent, reliable, again).0.proportional == s.proportional
  {
    FailureKeepsValid(s, again);
    NoteKeepsValid(s, NeutralSent, Note(s, NeutralSent));
  }

  lemma ArmKeepsValid(s: Loop, env: Env)
    requires Valid(s)
    ensures Valid(TryArm(s, env)) && TryArm(s, env).proportional == s.proportional
  {
    if MayArm(s, env) {
      if env.reliable.throws { FailureKeepsValid(s, env.reliableAgain); }
      else { NoteKeepsValid(s, ArmSent, Note(s, ArmSent).(armed := true)); }
    }
  }

  lemma FrameKeepsValid(s: Loop, via: Via)
    requires Valid(s) && (via.Fast? ==> via.buffered == 0) && (via.Http? ==> !s.bound)
    ensures Valid(Note(s.(sequence := s.sequence + 1), FrameOf(s.(sequence := s.sequence + 1), via)))
  {
    var next := s.(sequence := s.sequence + 1);
    var m := FrameOf(next, via);
    var longer := s.log + [m];
    NoteReads(s.log, m);
    BoundStays(s.log, m, |s.log|);
    assert longer[..|s.log|] == s.log;
    if ArmedAfter(s.log, |s.log|) {
      var k :| ArmedAt(s.log, |s.log|, k);
      assert ArmedAt(longer, |s.log|, k);
    }
    if ArmedAfter(longer, |s.log|) {
      var k :| ArmedAt(longer, |s.log|, k);
      assert ArmedAt(s.log, |s.log|, k);
    }
    assert FrameLaw(longer, |s.log|, s.proportional);
    NoteKeepsLaw(s.log, m, s.proportional);
  }

  lemma EmitKeepsValid(s: Loop, env: Env)
    requires Valid(s) && !(s.bound && env.fast.Backed())
    ensures Valid(Emit(s.(sequence := s.sequence + 1), env))
    ensures Emit(s.(sequence := s.sequence + 1), env).proportional == s.proportional
  {
    var next := s.(sequence := s.sequence + 1);
    assert Valid(next);
    if s.bound && env.fast.Open? {
      if env.fast.throws { FailureKeepsValid(next, env.reliableLast); } else { FrameKeepsValid(s, Fast(env.fast.buffered)); }
    } else if !s.bound && env.origin {
      FrameKeepsValid(s, Http);
    }
  }

  lemma BackedKeepsValid(s: Loop, env: Env)
    requires Valid(s)
    ensures Valid(Backed(s, env)) && Backed(s, env).proportional == s.proportional
  {
    var since := if s.congestedAt.Some? then s.congestedAt.value else env.now;
    var q := Note(s, Tick(Some(env.now))).(congestedAt := Some(since));
    NoteKeepsValid(s, Tick(Some(env.now)), q);
    FailureKeepsValid(q, env.reliableLast);
  }

  lemma SampledIsValid(s: Loop, env: Env)
    requires Valid(s)
    ensures Valid(Sampled(s, env)) && Sampled(s, env).proportional == s.proportional && Sampled(s, env).bound == s.bound
  {
    var free := Note(s, Tick(None)).(congestedAt := None);
    NoteKeepsValid(s, Tick(None), free);
    NoteKeepsValid(free, Applied(env.provided), Apply(free, env.provided));
  }

  lemma SendKeepsValid(s: Loop, env: Env)
    requires Valid(s)
    ensures Valid(SendLatest(s, env)) && SendLatest(s, env).proportional == s.proportional
  {
    if s.bound && env.fast.Backed() { BackedKeepsValid(s, env); } else { FreeTickKeepsValid(s, Sampled(s, env), env); }
  }

  lemma FreeTickKeepsValid(s: Loop, sampled: Loop, env: Env)
    requires Valid(s) && sampled == Sampled(s, env) && !(s.bound && env.fast.Backed())
    ensures
      var q := Emit(sampled.(sequence := sampled.sequence + 1), env);
      Valid(q) && q.proportional == s.proportional
  {
    SampledIsValid(s, env);
    EmitKeepsValid(sampled, env);
  }

  lemma CalmKeepsValid(s: Loop, env: Env)
    requires Valid(s)
    ensures Valid(Calm(s, env)) && Calm(s, env).proportional == s.proportional
  {
    var q := Emptied(s);
    NoteKeepsValid(s, Cleared, q);
    ReliableKeepsValid(q, env.reliable, env.reliableAgain);
    SendKeepsValid(SendReliable(q, NeutralSent, env.reliable, env.reliableAgain).0, env);
  }

  lemma StepKeepsValid(s: Loop, op: Op, env: Env)
    requires Valid(s)
    ensures Valid(Step(s, op, env)) && Step(s, op, env).proportional == s.proportional
  {
    match op
    case BindOp =>
      var q := Note(s, Bound).(bound := true);
      NoteKeepsValid(s, Bound, q);
      ArmKeepsValid(q, env);
    case OpenOp => ArmKeepsValid(s, env);
    case ShutOp => FailureKeepsValid(s, env.reliable);
    case ArmOp =>
      var q := Note(s, Requested).(armRequested := true);
      NoteKeepsValid(s, Requested, q);
      ArmKeepsValid(q, env);
    case DisarmOp =>
      var q := Note(s, Disarmed).(armRequested := false, armed := false);
      NoteKeepsValid(s, Disarmed, q);
      CalmKeepsValid(q, env);
    case NeutralOp => CalmKeepsValid(s, env);
    case TickOp => SendKeepsValid(s, env);
    case InputOp(input) => NoteKeepsValid(s.(provider := false), Applied(input), Apply(s.(provider := false), input));
    case ProviderOp(_) =>
  }

  /** Over every run, whatever the channels do: every frame and every arm message obeys its law, and the loop is
      armed exactly when an arm message was accepted since the last disarm or failure. */
  lemma {:induction false} EveryFrameIsLawful(proportional: bool, ops: seq<(Op, Env)>)
    ensures
      var s := Run(proportional, ops);
      && s.proportional == proportional && Valid(s) && Lawful(s.log, proportional)
      && s.armed == ArmedAfter(s.log, |s.log|)
  {
    if ops != [] {
      var n := |ops| - 1;
      EveryFrameIsLawful(proportional, ops[..n]);
      StepKeepsValid(Run(proportional, ops[..n]), ops[n].0, ops[n].1);
    }
  }

  lemma BackedTick(s: Loop, env: Env)
    ensures
      var q := Backed(s, env);
      var since := if s.congestedAt.Some? then s.congestedAt.value else env.now;
      && |q.log| > |s.log| && q.log[..|s.log|] == s.log
      && (forall i :: |s.log| <= i < |q.log| ==> !q.log[i].Frame?)
      && (if s.armed && env.later - since >= CONGESTION_MS
          then !q.armed && q.held == Neutral && !q.armRequested && !q.provider && q.log[|s.log| + 1] == Failed
          else q == s.(log := q.log, congestedAt := Some(since)))
  {
  }

  /** Congestion: a tick that finds the fast channel backed up sends no frame, and the first one at least
      200 ms after the congestion was first seen takes an armed loop out of it, with nothing held; an
      earlier one, or one of an unarmed loop, changes nothing but the time. */
  lemma CongestionDisarms(proportional: bool, ops: seq<(Op, Env)>, env: Env)
    requires Run(proportional, ops).bound && env.fast.Backed()
    ensures
      var s, q := Run(proportional, ops), Step(Run(proportional, ops), TickOp, env);
      var since := if BackedSince(s.log).Some? then BackedSince(s.log).value else env.now;
      && |q.log| > |s.log| && q.log[..|s.log|] == s.log
      && (forall i :: |s.log| <= i < |q.log| ==> !q.log[i].Frame?)
      && (if s.armed && env.later - since >= 200
          then !q.armed && q.held == Neutral && !q.armRequested && !q.provider && q.log[|s.log| + 1] == Failed
          else q == s.(log := q.log, congestedAt := Some(since)))
  {
    EveryFrameIsLawful(proportional, ops);
    BackedTick(Run(proportional, ops), env);
  }

  predicate Idle(s: Loop) {
    !s.armed && !s.armRequested && !s.provider && s.held == Neutral
  }

  lemma IdleStaysIdle(s: Loop, env: Env)
    requires Idle(s)
    ensures Idle(SendLatest(s, env)) && Idle(SendReliable(s, NeutralSent, env.reliable, env.reliableAgain).0)
  {
  }

  /** A disarm leaves the loop unarmed, unasked and with nothing held, whatever the channels do meanwhile. */
  lemma DisarmAlwaysDisarms(s: Loop, env: Env)
    ensures Idle(Step(s, DisarmOp, env))
  {
    var q := Emptied(Note(s, Disarmed).(armRequested := false, armed := false));
    IdleStaysIdle(q, env);
    IdleStaysIdle(SendReliable(q, NeutralSent, env.reliable, env.reliableAgain).0, env);
  }

  /** Another pair was bound at k while the loop was armed, and nothing has disarmed or failed since. */
  ghost predicate ReboundAt(log: seq<Mark>, n: int, k: int) {
    && 0 <= k < n <= |log| && log[k].Bound? && ArmedAfter(log, k)
    && forall l :: k < l < n ==> !log[l].Disarmed? && !log[l].Failed?
  }

  ghost predicate Rebound(log: seq<Mark>, n: int) {
    exists k :: ReboundAt(log, n, k)
  }

  /** No bind inside the present arm: the arm went over the pair bound now. */
  lemma UnreboundIsOnPair(log: seq<Mark>, n: int)
    requires 0 <= n <= |log| && ArmedAfter(log, n) && !Rebound(log, n)
    ensures ArmedOnPair(log, n)
  {
    var a :| ArmedAt(log, n, a);
    forall k | a < k < n
      ensures !log[k].Bound?
    {
      assert ArmedAt(log, k, a);
      assert !ReboundAt(log, n, k);
    }
    assert ArmedOverPair(log, n, a);
  }

  /** A bind inside the present arm: no arm message can have followed it, since the loop was armed all along. */
  lemma ReboundIsOffPair(log: seq<Mark>, proportional: bool, n: int, k: int, a: int)
    requires Lawful(log, proportional) && ReboundAt(log, n, k) && ArmedAt(log, n, a)
    ensures a < k
  {
    var b :| ArmedAt(log, k, b);
    assert a > k ==> ArmedAt(log, a, b);
    assert ArmLaw(log, a);
  }

  /** Over every run, an armed frame follows an arm over its own pair of channels if and only if no pair was bound
      within the present arm, that is, while the loop was armed and with no disarm or failure since. */
  lemma FrameIsOnPairIff(proportional: bool, ops: seq<(Op, Env)>, i: int)
    requires
      var log := Run(proportional, ops).log;
      0 <= i < |log| && log[i].Frame? && log[i].armed
    ensures ArmedOnPair(Run(proportional, ops).log, i) <==> !Rebound(Run(proportional, ops).log, i)
  {
    EveryFrameIsLawful(proportional, ops);
    var log := Run(proportional, ops).log;
    assert FrameLaw(log, i, proportional);
    if Rebound(log, i) {
      var k :| ReboundAt(log, i, k);
      forall a | ArmedAt(log, i, a)
        ensures !ArmedOverPair(log, i, a)
      {
        ReboundIsOffPair(log, proportional, i, k, a);
      }
    } else {
      UnreboundIsOnPair(log, i);
    }
  }

  /** So if channels are bound only while the loop is unarmed, every armed frame is on its pair. */
  lemma BindingUnarmedKeepsPair(proportional: bool, ops: seq<(Op, Env)>, i: int)
    requires
      var log := Run(proportional, ops).log;
      && 0 <= i < |log| && log[i].Frame? && log[i].armed
      && forall k :: 0 <= k < i && log[k].Bound? ==> !ArmedAfter(log, k)
    ensures ArmedOnPair(Run(proportional, ops).log, i)
  {
    FrameIsOnPairIff(proportional, ops, i);
  }

  lemma TickIsQuiet(q: Loop, tick: Env)
    requires q.bound && tick.fast.Ready() && !tick.fast.throws
    ensures
      var log := Step(q, TickOp, tick).log;
      && |log| > |q.log| && log[..|q.log|] == q.log
      && forall k :: |q.log| <= k < |log| ==> !log[k].ArmSent? && !log[k].Bound? && !log[k].Disarmed? && !log[k].Failed?
  {
    TickSendsOneFrame(q, tick);
  }

  lemma SameUpTo(log: seq<Mark>, longer: seq<Mark>)
    requires |longer| > |log| && longer[..|log|] == log
    requires forall k :: |log| <= k < |longer| ==> !longer[k].ArmSent? && !longer[k].Bound? && !longer[k].Disarmed? && !longer[k].Failed?
    ensures ArmedOnPair(longer, |longer| - 1) <==> ArmedOnPair(log, |log|)
  {
    assert forall k :: 0 <= k < |log| ==> longer[k] == log[k];
    var n := |longer| - 1;
    if ArmedOnPair(longer, n) {
      var a :| ArmedOverPair(longer, n, a);
      assert longer[a].ArmSent? && a < |log|;
      forall l | a < l < |log|
        ensures !log[l].Disarmed? && !log[l].Failed? && !log[l].Bound?
      {
        assert longer[l] == log[l];
      }
      assert ArmedOverPair(log, |log|, a);
    }
    if ArmedOnPair(log, |log|) {
      var a :| ArmedOverPair(log, |log|, a);
      assert ArmedOverPair(longer, n, a);
    }
  }

  lemma BoundIsOnPairIff(s: Loop, bind: Env)
    requires Valid(s)
    ensures
      var q := Step(s, BindOp, bind);
      (q.armed ==> ArmedOnPair(q.log, |q.log|)) <==> !s.armed
  {
    var q := Step(s, BindOp, bind);
    if s.armed {
      assert q == Note(s, Bound);
      assert q.log[|s.log|] == Bound;
    } else if q.armed {
      assert q.log == s.log + [Bound] + [ArmSent];
      assert ArmedOverPair(q.log, |q.log|, |s.log| + 1);
    }
  }

  /** The guard a caller can check: after a bind, the next frame on a sound channel is unarmed or on its own pair if
      and only if the loop was not armed when the pair was bound. */
  lemma BindingIsSafeIff(s: Loop, bind: Env, tick: Env)
    requires Valid(s) && tick.fast.Ready() && !tick.fast.throws
    ensures
      var log := Step(Step(s, BindOp, bind), TickOp, tick).log;
      && log != [] && log[|log| - 1].Frame?
      && ((log[|log| - 1].armed ==> ArmedOnPair(log, |log| - 1)) <==> !s.armed)
  {
    var q := Step(s, BindOp, bind);
    StepKeepsValid(s, BindOp, bind);
    BindBinds(s, bind);
    BoundIsOnPairIff(s, bind);
    TickSendsOneFrame(q, tick);
    TickIsQuiet(q, tick);
    SameUpTo(q.log, Step(q, TickOp, tick).log);
  }

  lemma BindBinds(s: Loop, bind: Env)
    ensures Step(s, BindOp, bind).bound
  {
  }

  /** Channels that are open, empty and do not fail. */
  const Sound: Env := Env(Open(0, false), Open(0, false), Open(0, false), 0, 0, Open(0, false), Input(None, None, None), false)

  /** It happens: bind, arm, bind another pair, and the next frame is armed with no arm over its pair. */
  lemma RebindingKeepsArmed(proportional: bool)
    ensures
      var log := Run(proportional, [(BindOp, Sound), (ArmOp, Sound), (BindOp, Sound), (TickOp, Sound)]).log;
      log != [] && log[|log| - 1].Frame? && log[|log| - 1].armed && !ArmedOnPair(log, |log| - 1)
  {
    var two := [(BindOp, Sound), (ArmOp, Sound)];
    var s := Run(proportional, two);
    ArmedInTwo(proportional);
    EveryFrameIsLawful(proportional, two);
    BindingIsSafeIff(s, Sound, Sound);
    var three := two + [(BindOp, Sound)];
    var four := three + [(TickOp, Sound)];
    assert three[..2] == two && four[..3] == three;
    assert Run(proportional, three) == Step(s, BindOp, Sound);
    assert four == [(BindOp, Sound), (ArmOp, Sound), (BindOp, Sound), (TickOp, Sound)];
    assert Run(proportional, four) == Step(Step(s, BindOp, Sound), TickOp, Sound);
  }

  lemma ArmedInTwo(proportional: bool)
    ensures Run(proportional, [(BindOp, Sound), (ArmOp, Sound)]).armed
  {
    var one := [(BindOp, Sound)];
    var two := one + [(ArmOp, Sound)];
    assert one[..0] == [] && two[..1] == one;
    assert Run(proportional, one) == Step(Fresh(proportional), BindOp, Sound);
    assert two == [(BindOp, Sound), (ArmOp, Sound)];
    ArmingSucceedsIff(Run(proportional, one), Sound);
  }

  /** On sound channels a disarm tells the car twice: a neutral message, then a frame that is all zero. */
  lemma DisarmTellsTheCar(s: Loop, env: Env)
    requires s.bound && env.reliable.Ready() && !env.reliable.throws && env.fast.Ready() && !env.fast.throws
    ensures Step(s, DisarmOp, env).log
      == s.log + [Disarmed] + [Cleared] + [NeutralSent] + [Tick(None)] + [Frame(Fast(0), s.sequence + 1, 0, 0, false, false)]
  {
  }

  /** A tick on a sound channel sends exactly one frame, with the next number and what is held by then. */
  lemma TickSendsOneFrame(s: Loop, env: Env)
    requires s.bound && env.fast.Ready() && !env.fast.throws
    ensures
      var q := Step(s, TickOp, env);
      && q.armed == s.armed && q.sequence == s.sequence + 1 && q.congestedAt.None?
      && q.held == (if s.armed && s.provider then Taken(s.held, env.provided) else s.held)
      && q.log == s.log + [Tick(None)] + (if s.armed && s.provider then [Applied(env.provided)] else []) + [FrameOf(q, Fast(0))]
  {
  }

  /** Asking to arm arms at once exactly when both channels are open and empty and the message can be sent;
      otherwise the wish stays, unless the send failed. */
  lemma ArmingSucceedsIff(s: Loop, env: Env)
    requires !s.armed
    ensures
      var q, ready := Step(s, ArmOp, env), s.bound && env.fast.Ready() && env.reliable.Ready();
      && (q.armed <==> ready && !env.reliable.throws)
      && (q.armRequested <==> !(ready && env.reliable.throws))
  {
  }

  // ---------- What an armed frame carries ----------

  datatype Part = Steering | Throttle | Nitro

  /** An input was applied that gives this part. */
  ghost predicate Gives(m: Mark, part: Part) {
    m.Applied? && match part
    case Steering => m.input.steering.Some?
    case Throttle => m.input.throttle.Some?
    case Nitro => m.input.nitro.Some?
  }

  /** Input i is the last to give this part among the first n marks, and nothing was cleared since. */
  ghost predicate GivenLast(log: seq<Mark>, n: int, i: int, part: Part) {
    && 0 <= i < n <= |log| && Gives(log[i], part)
    && forall k :: i < k < n ==> Passes(log[k], part)
  }

  ghost predicate Passes(m: Mark, part: Part) {
    !m.Cleared? && !m.Failed? && !Gives(m, part)
  }

  ghost predicate NeverGiven(log: seq<Mark>, n: int, part: Part) {
    forall i :: !GivenLast(log, n, i, part)
  }

  /** A given number as it is kept: within one, and zero for what is no number. */
  ghost function Clipped(a: Axis): real {
    if a.NotFinite? then 0.0 else if a.value > 1.0 then 1.0 else if a.value < -1.0 then -1.0 else a.value
  }

  lemma GivenBefore(log: seq<Mark>, i: int, part: Part)
    requires log != [] && i < |log| - 1
    ensures GivenLast(log, |log|, i, part) ==> GivenLast(log[..|log| - 1], |log| - 1, i, part) && Passes(log[|log| - 1], part)
    ensures GivenLast(log[..|log| - 1], |log| - 1, i, part) && Passes(log[|log| - 1], part) ==> GivenLast(log, |log|, i, part)
  {
    var front := log[..|log| - 1];
    assert forall k :: 0 <= k < |front| ==> front[k] == log[k];
  }

  /** What is held is what was given last. */
  lemma {:induction false} HeldIsGiven(log: seq<Mark>, i: int, part: Part)
    requires GivenLast(log, |log|, i, part)
    ensures
      var held, input := HeldAfter(log), log[i].input;
      match part
      case Steering => held.steering == Clipped(input.steering.value)
      case Throttle => held.throttle == Clipped(input.throttle.value)
      case Nitro => held.nitro == input.nitro.value
  {
    if i < |log| - 1 {
      GivenBefore(log, i, part);
      HeldIsGiven(log[..|log| - 1], i, part);
    }
  }

  lemma {:induction false} HeldIsNeutral(log: seq<Mark>, part: Part)
    requires NeverGiven(log, |log|, part)
    ensures
      match part
      case Steering => HeldAfter(log).steering == 0.0
      case Throttle => HeldAfter(log).throttle == 0.0
      case Nitro => !HeldAfter(log).nitro
  {
    if log != [] {
      var n := |log| - 1;
      if Passes(log[n], part) {
        forall i
          ensures !GivenLast(log[..n], n, i, part)
        {
          if GivenLast(log[..n], n, i, part) { GivenBefore(log, i, part); }
        }
        HeldIsNeutral(log[..n], part);
      } else {
        assert !GivenLast(log, |log|, n, part);
      }
    }
  }

  lemma GivenInPrefix(log: seq<Mark>, n: nat, i: int, part: Part)
    requires n <= |log|
    ensures GivenLast(log, n, i, part) <==> GivenLast(log[..n], n, i, part)
  {
    assert forall k :: 0 <= k < n ==> log[..n][k] == log[k];
  }

  /** Over every run: the steering of an armed frame is that of the last input that gave one since anything was cleared,
      clipped and encoded, or zero if there is none; the throttle is the same of the throttles; and its nitro is the last
      flag given. */
  lemma ArmedFramesCarryTheLastInput(proportional: bool, ops: seq<(Op, Env)>, n: nat, i: int)
    requires
      var log := Run(proportional, ops).log;
      n < |log| && log[n].Frame? && log[n].armed
    ensures
      var log := Run(proportional, ops).log;
      && (GivenLast(log, n, i, Steering) ==> log[n].steering == EncodeAxis(Clipped(log[i].input.steering.value), proportional))
      && (GivenLast(log, n, i, Throttle) ==> log[n].throttle == EncodeAxis(Clipped(log[i].input.throttle.value), proportional))
      && (GivenLast(log, n, i, Nitro) ==> log[n].nitro == log[i].input.nitro.value)
      && (NeverGiven(log, n, Steering) ==> log[n].steering == 0)
      && (NeverGiven(log, n, Throttle) ==> log[n].throttle == 0)
      && (NeverGiven(log, n, Nitro) ==> !log[n].nitro)
  {
    EveryFrameIsLawful(proportional, ops);
    var log := Run(proportional, ops).log;
    assert FrameLaw(log, n, proportional);
    FrameCarries(log, n, i, Steering);
    FrameCarries(log, n, i, Throttle);
    FrameCarries(log, n, i, Nitro);
  }

  lemma FrameCarries(log: seq<Mark>, n: nat, i: int, part: Part)
    requires n <= |log|
    ensures
      var held := HeldAfter(log[..n]);
      && (GivenLast(log, n, i, part) ==>
            match part
            case Steering => held.steering == Clipped(log[i].input.steering.value)
            case Throttle => held.throttle == Clipped(log[i].input.throttle.value)
            case Nitro => held.nitro == log[i].input.nitro.value)
      && (NeverGiven(log, n, part) ==>
            match part
            case Steering => held.steering == 0.0
            case Throttle => held.throttle == 0.0
            case Nitro => !held.nitro)
  {
    if GivenLast(log, n, i, part) {
      GivenInPrefix(log, n, i, part);
      HeldIsGiven(log[..n], i, part);
    }
    if NeverGiven(log, n, part) {
      forall k
        ensures !GivenLast(log[..n], n, k, part)
      {
        GivenInPrefix(log, n, k, part);
      }
      HeldIsNeutral(log[..n], part);
    }
  }

  // ---------- What each call leaves ----------

  /** The message that follows a failure. */
  ghost function LastWord(s: Loop, reliable: Channel): seq<Mark> {
    if s.bound && reliable.Open? && reliable.buffered == 0 && !reliable.throws then [NeutralSent] else []
  }

  /** Both channels are there, open and empty. */
  ghost predicate BothReady(env: Env) {
    env.fast.Open? && env.fast.buffered == 0 && env.reliable.Open? && env.reliable.buffered == 0
  }

  /** A channel that closes or fails stops everything: unarmed, unasked, nothing held, and one neutral message if it can
      still be sent. */
  lemma ClosingStops(s: Loop, env: Env)
    ensures
      var q := Step(s, ShutOp, env);
      q == s.(log := s.log + [Failed] + LastWord(s, env.reliable), armRequested := false, armed := false, provider := false, held := Neutral)
  {
  }

  /** A frame that cannot be sent stops everything too. */
  lemma ThrowingFrameStops(s: Loop, env: Env)
    requires s.bound && env.fast == Open(0, true)
    ensures
      var q := Step(s, TickOp, env);
      && Idle(q) && q.bound && q.sequence == s.sequence + 1 && q.congestedAt.None?
      && q.log == s.log + [Tick(None)] + (if s.armed && s.provider then [Applied(env.provided)] else []) + [Failed] + LastWord(s, env.reliableLast)
  {
  }

  /** With no channels ever bound a frame goes over HTTP if there is an address, and all zero when unarmed; with channels
      bound but the fast one shut nothing is sent at all. */
  lemma HttpIsForUnboundLoops(s: Loop, env: Env)
    requires !s.bound || env.fast.Shut?
    ensures
      var q, taken := Step(s, TickOp, env), s.log + [Tick(None)] + (if s.armed && s.provider then [Applied(env.provided)] else []);
      if s.bound || !env.origin then q.log == taken
      else |q.log| == |taken| + 1 && q.log[..|taken|] == taken && q.log[|taken|].Frame? && q.log[|taken|].via.Http?
           && q.log[|taken|].sequence == s.sequence + 1 && q.log[|taken|].armed == s.armed
  {
  }

  /** A direct input is taken as it is and ends any timed one. */
  lemma InputIsTaken(s: Loop, input: Input, env: Env)
    ensures
      var q := Step(s, InputOp(input), env);
      && !q.provider && q.log == s.log + [Applied(input)]
      && q == s.(held := q.held, provider := false, log := q.log)
  {
  }

  /** To arm, to bind and to see a channel open is each noted and followed by one attempt, over the new pair for a bind. */
  lemma AttemptsToArm(s: Loop, env: Env)
    ensures Step(s, ArmOp, env) == Attempted(s.(log := s.log + [Requested], armRequested := true), env)
    ensures Step(s, BindOp, env) == Attempted(s.(log := s.log + [Bound], bound := true), env)
    ensures Step(s, OpenOp, env) == Attempted(s, env)
  {
  }

  ghost function Attempted(s: Loop, env: Env): Loop {
    if !s.armRequested || s.armed || !s.bound || !BothReady(env) then s
    else if !env.reliable.throws then s.(armed := true, log := s.log + [ArmSent])
    else s.(log := s.log + [Failed] + LastWord(s, env.reliableAgain), armRequested := false, armed := false, provider := false, held := Neutral)
  }

  /** On sound channels a neutral call clears the input, tells the car and sends one frame, still armed if it was. */
  lemma NeutralTellsTheCar(s: Loop, env: Env)
    requires s.bound && env.reliable == Open(0, false) && env.fast == Open(0, false)
    ensures
      var q := Step(s, NeutralOp, env);
      && !q.provider && q.held == Neutral && q.armed == s.armed && q.armRequested == s.armRequested
      && q.log == s.log + [Cleared] + [NeutralSent] + [Tick(None)] + [Frame(Fast(0), s.sequence + 1, 0, 0, false, s.armed)]
  {
    var q := SendReliable(Emptied(s), NeutralSent, env.reliable, env.reliableAgain).0;
    TickSendsOneFrame(q, env);
  }

  // ---------- The object ----------

  class BrowserControlLoop {
    const proportional: bool
    var bound: bool
    var sequence: nat
    var steering: real
    var throttle: real
    var nitro: bool
    var armRequested: bool
    var armed: bool
    var congestedAt: Option<int>
    var provider: bool
    ghost var log: seq<Mark>

    constructor (proportional: bool)
      ensures State() == Fresh(proportional)
    {
      this.proportional, bound, sequence := proportional, false, 0;
      steering, throttle, nitro := 0.0, 0.0, false;
      armRequested, armed, congestedAt, provider, log := false, false, None, false, [];
    }

    ghost function State(): Loop
      reads this
    {
      Loop(proportional, bound, sequence, Held(steering, throttle, nitro), armRequested, armed, congestedAt, provider, log)
    }

    method ApplyInput(input: Input)
      modifies this
      ensures State() == Apply(old(State()), input)
    {
      steering := NormalizedAxis(if input.steering.Some? then input.steering.value else Finite(steering));
      throttle := NormalizedAxis(if input.throttle.Some? then input.throttle.value else Finite(throttle));
      nitro := if input.nitro.Some? then input.nitro.value else nitro;
      log := log + [Applied(input)];
    }

    method SetInput(input: Input)
      modifies this
      ensures forall env :: State() == Step(old(State()), InputOp(input), env)
    {
      provider := false;
      ApplyInput(input);
    }

    method FailTransport(reliable: Channel)
      modifies this
      ensures State() == TransportFailed(old(State()), reliable)
    {
      armRequested, provider := false, false;
      steering, throttle, nitro := 0.0, 0.0, false;
      armed := false;
      log := log + [Failed];
      // Best effort only: a broken channel is not retried.
      if bound && reliable.Ready() && !reliable.throws { log := log + [NeutralSent]; }
    }

    method SendOverReliable(m: Mark, reliable: Channel, again: Channel) returns (sent: bool)
      modifies this
      ensures (State(), sent) == SendReliable(old(State()), m, reliable, again)
    {
      if bound && reliable.Ready() {
        if reliable.throws {
          FailTransport(again);
        } else {
          log := log + [m];
          return true;
        }
      }
      sent := false;
    }

    method TryToArm(env: Env)
      modifies this
      ensures State() == TryArm(old(State()), env)
    {
      if !armRequested || armed || !bound || !env.fast.Open? || !env.reliable.Open?
         || env.fast.buffered > 0 || env.reliable.buffered > 0 { return; }
      var sent := SendOverReliable(ArmSent, env.reliable, env.reliableAgain);
      if sent { armed := true; }
    }

    method BindChannels(env: Env)
      modifies this
      ensures State() == Step(old(State()), BindOp, env)
    {
      bound := true;
      log := log + [Bound];
      TryToArm(env);
    }

    method Arm(env: Env)
      modifies this
      ensures State() == Step(old(State()), ArmOp, env)
    {
      armRequested := true;
      log := log + [Requested];
      TryToArm(env);
    }

    method SendFrame(env: Env)
      modifies this
      ensures State() == SendLatest(old(State()), env)
    {
      if bound && env.fast.Open? && env.fast.buffered > 0 {
        HoldBack(env);
        return;
      }
      SampleProvider(env);
      sequence := sequence + 1;
      EmitFrame(env);
    }

    method SampleProvider(env: Env)
      modifies this
      ensures State() == Sampled(old(State()), env)
    {
      congestedAt := None;
      log := log + [Tick(None)];
      if armed && provider { ApplyInput(env.provided); }
    }

    method HoldBack(env: Env)
      modifies this
      ensures State() == Backed(old(State()), env)
    {
      if congestedAt.None? { congestedAt := Some(env.now); }
      log := log + [Tick(Some(env.now))];
      if armed && env.later - congestedAt.value >= CONGESTION_MS { FailTransport(env.reliableLast); }
    }

    method EmitFrame(env: Env)
      modifies this
      ensures State() == Emit(old(State()), env)
    {
      var x := if armed then EncodeAxis(steering, proportional) else 0;
      var y := if armed then EncodeAxis(throttle, proportional) else 0;
      if bound && env.fast.Open? {
        if env.fast.throws { FailTransport(env.reliableLast); }
        else { log := log + [Frame(Fast(env.fast.buffered), sequence, x, y, armed && nitro, armed)]; }
        return;
      }
      if bound { return; }
      if !env.origin { return; }
      log := log + [Frame(Http, sequence, x, y, armed && nitro, armed)];
    }

    method EmptyInput()
      modifies this
      ensures State() == Emptied(old(State()))
    {
      provider := false;
      steering, throttle, nitro := 0.0, 0.0, false;
      log := log + [Cleared];
    }

    method GoNeutral(env: Env)
      modifies this
      ensures State() == Calm(old(State()), env)
    {
      EmptyInput();
      var _ := SendOverReliable(NeutralSent, env.reliable, env.reliableAgain);
      SendFrame(env);
    }

    method DisarmNow(env: Env)
      modifies this
      ensures State() == Step(old(State()), DisarmOp, env)
    {
      armRequested := false;
      armed := false;
      log := log + [Disarmed];
      GoNeutral(env);
    }
  }
}

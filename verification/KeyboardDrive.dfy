/** Driving with the keyboard: held keys become a steering ramp and a throttle. The model keeps a few start
    times and updates them key by key; what it outputs is a direct function of the history of intents. */
module KeyboardDrive {

  datatype Option<+T> = None | Some(value: T)

  // ---------- From held keys to an intent ----------

  datatype DriveKey = W | A | S | D | NITRO

  /** -1, 0 or 1 on each axis. */
  datatype Intent = Intent(steering: int, throttle: int, nitro: bool)

  const Rest: Intent := Intent(0, 0, false)

  function KeyForCode(code: string): Option<DriveKey> {
    if code == "KeyW" || code == "ArrowUp" then Some(W)
    else if code == "KeyA" || code == "ArrowLeft" then Some(A)
    else if code == "KeyS" || code == "ArrowDown" then Some(S)
    else if code == "KeyD" || code == "ArrowRight" then Some(D)
    else if code == "KeyN" then Some(NITRO)
    else None
  }

  predicate Has(pressed: set<string>, key: DriveKey) {
    exists code :: code in pressed && KeyForCode(code) == Some(key)
  }

  function UpdatePressed(current: set<string>, code: string, pressed: bool): set<string> {
    if pressed then current + {code} else current - {code}
  }

  function IntentOf(pressed: set<string>): Intent {
    var left, right := Has(pressed, A), Has(pressed, D);
    var forward, reverse := Has(pressed, W), Has(pressed, S);
    Intent(if left == right then 0 else if left then -1 else 1,
           if forward == reverse then 0 else if forward then 1 else -1,
           forward && !reverse && Has(pressed, NITRO))
  }

  /** Two codes of the same key are interchangeable, and codes of no key do not matter. */
  lemma AliasesAgree(pressed: set<string>, code: string, alias: string)
    requires KeyForCode(code) == KeyForCode(alias)
    ensures IntentOf(UpdatePressed(pressed, code, true)) == IntentOf(UpdatePressed(pressed, alias, true))
    ensures KeyForCode(code).None? ==> IntentOf(UpdatePressed(pressed, code, true)) == IntentOf(pressed)
    ensures KeyForCode(code).None? ==> IntentOf(UpdatePressed(pressed, code, false)) == IntentOf(pressed)
  {
    forall key: DriveKey
      ensures Has(pressed + {code}, key) == Has(pressed + {alias}, key) == (Has(pressed, key) || KeyForCode(code) == Some(key))
      ensures KeyForCode(code).None? ==> Has(pressed - {code}, key) == Has(pressed, key)
    {
      if Has(pressed, key) {
        var held :| held in pressed && KeyForCode(held) == Some(key);
        assert held in pressed + {code} && held in pressed + {alias};
        assert KeyForCode(code).None? ==> held in pressed - {code};
      }
      assert code in pressed + {code} && alias in pressed + {alias};
    }
  }

  /** What the keys mean, code by code. */
  lemma KeysMean(pressed: set<string>)
    ensures
      var left, right := "KeyA" in pressed || "ArrowLeft" in pressed, "KeyD" in pressed || "ArrowRight" in pressed;
      var forward, reverse := "KeyW" in pressed || "ArrowUp" in pressed, "KeyS" in pressed || "ArrowDown" in pressed;
      var intent := IntentOf(pressed);
      && (intent.steering == -1 <==> left && !right) && (intent.steering == 1 <==> right && !left)
      && (intent.throttle == 1 <==> forward && !reverse) && (intent.throttle == -1 <==> reverse && !forward)
      && -1 <= intent.steering <= 1 && -1 <= intent.throttle <= 1
      && (intent.nitro <==> "KeyN" in pressed && forward && !reverse)
  {
    HasMeans(pressed, A, "KeyA", "ArrowLeft");
    HasMeans(pressed, D, "KeyD", "ArrowRight");
    HasMeans(pressed, W, "KeyW", "ArrowUp");
    HasMeans(pressed, S, "KeyS", "ArrowDown");
    HasMeans(pressed, NITRO, "KeyN", "KeyN");
  }

  /** Pressing and releasing a code changes that code alone. */
  lemma PressingIsHeld(current: set<string>, code: string, other: string)
    ensures other in UpdatePressed(current, code, true) <==> other == code || other in current
    ensures other in UpdatePressed(current, code, false) <==> other != code && other in current
  {
  }

  lemma HasMeans(pressed: set<string>, key: DriveKey, code: string, alias: string)
    requires forall c :: KeyForCode(c) == Some(key) <==> c == code || c == alias
    ensures Has(pressed, key) <==> code in pressed || alias in pressed
  {
    assert KeyForCode(code) == Some(key) && KeyForCode(alias) == Some(key);
  }

  /** Opposite keys cancel, and Nitro needs the car to be driving forward. */
  lemma OppositesCancel(pressed: set<string>)
    ensures Has(pressed, A) && Has(pressed, D) ==> IntentOf(pressed).steering == 0
    ensures Has(pressed, W) && Has(pressed, S) ==> IntentOf(pressed).throttle == 0
    ensures IntentOf(pressed).nitro ==> IntentOf(pressed).throttle == 1
    ensures -1 <= IntentOf(pressed).steering <= 1 && -1 <= IntentOf(pressed).throttle <= 1
  {
  }

  // ---------- The incremental model ----------

  /** A clock reading in milliseconds, or one that is not a finite number. */
  datatype Clock = NotFinite | At(ms: real)

  datatype Output = Output(steering: real, throttle: real, nitro: bool)

  datatype Model = Model(intent: Intent, forwardSince: Option<real>, reverseSince: Option<real>,
                         turnSince: Option<real>, turnDuration: real, lastNow: real)

  const Start: Model := Model(Rest, None, None, None, 0.0, 0.0)

  function Later(now: real, clock: Clock): real {
    if clock.At? && clock.ms > now then clock.ms else now
  }

  function Clamped(x: real): real {
    if x < 0.0 then 0.0 else if x > 1.0 then 1.0 else x
  }

  /** How long the ramp of a turn takes: longer with Nitro, and in full only after a second of gas. */
  function RampTime(nitro: bool, gasSince: Option<real>, now: real): real {
    if gasSince.None? then 0.0 else (if nitro then 600.0 else 450.0) * Clamped((now - gasSince.value) / 1000.0)
  }

  function Progress(turnSince: Option<real>, duration: real, now: real): real {
    if turnSince.Some? && duration > 0.0 then Clamped((now - turnSince.value) / duration) else 1.0
  }

  function Since(started: Option<real>, before: int, now: int, wanted: int, time: real): Option<real> {
    if now != wanted then None else if before != wanted then Some(time) else started
  }

  function Updated(m: Model, next: Intent, now: real): Model {
    var forwardSince := Since(m.forwardSince, m.intent.throttle, next.throttle, 1, now);
    var reverseSince := Since(m.reverseSince, m.intent.throttle, next.throttle, -1, now);
    var turning := next.steering != m.intent.steering;
    Model(next, forwardSince, reverseSince,
          if !turning then m.turnSince else if next.steering == 0 then None else Some(now),
          if turning then RampTime(next.nitro, forwardSince, now) else if next.throttle != 1 then 0.0 else m.turnDuration,
          now)
  }

  function Shown(m: Model, now: real): Output {
    var progress := Progress(m.turnSince, m.turnDuration, now);
    Output(if progress == 0.0 then 0.0 else m.intent.steering as real * progress,
           if m.reverseSince.Some? && now - m.reverseSince.value >= 500.0 then -0.4 else m.intent.throttle as real,
           m.intent.nitro)
  }

  datatype Event = Update(pressed: set<string>, clock: Clock) | Sample(clock: Clock)

  function Step(m: Model, e: Event): Model {
    var now := Later(m.lastNow, e.clock);
    match e
    case Update(pressed, _) => Updated(m, IntentOf(pressed), now)
    case Sample(_) => m.(lastNow := now)
  }

  function Run(history: seq<Event>): Model {
    if history == [] then Start else Step(Run(history[..|history| - 1]), history[|history| - 1])
  }

  // ---------- The closed form ----------

  /** An intent, and when it was taken up. */
  datatype Taken = Taken(intent: Intent, time: real)

  /** The latest finite clock of the history, never below zero. */
  function Now(history: seq<Event>): real {
    if history == [] then 0.0 else Later(Now(history[..|history| - 1]), history[|history| - 1].clock)
  }

  /** It is the latest, and one of them if any is positive. */
  lemma {:induction false} NowIsLatest(history: seq<Event>)
    ensures Now(history) >= 0.0 && forall i :: 0 <= i < |history| && history[i].clock.At? ==> history[i].clock.ms <= Now(history)
    ensures Now(history) > 0.0 ==> exists i :: 0 <= i < |history| && history[i].clock == At(Now(history))
  {
    if history != [] {
      var n := |history| - 1;
      NowIsLatest(history[..n]);
      if Now(history) == Now(history[..n]) && Now(history) > 0.0 {
        var i :| 0 <= i < n && history[..n][i].clock == At(Now(history));
        assert history[i].clock == At(Now(history));
      } else if Now(history) > 0.0 {
        assert history[n].clock == At(Now(history));
      }
    }
  }

  /** The intents of the updates, each with the latest clock by then. */
  function Intents(history: seq<Event>): seq<Taken> {
    if history == [] then []
    else
      var front, e := history[..|history| - 1], history[|history| - 1];
      Intents(front) + if e.Update? then [Taken(IntentOf(e.pressed), Now(history))] else []
  }

  function LastIntent(us: seq<Taken>): Intent {
    if us == [] then Rest else us[|us| - 1].intent
  }

  function Before(us: seq<Taken>, i: int): Intent
    requires 0 <= i <= |us|
  {
    if i == 0 then Rest else us[i - 1].intent
  }

  /** Among the first n intents, the last run of throttle value v begins at i: it holds from i on, and not before. */
  ghost predicate ThrottleRun(us: seq<Taken>, n: int, i: int, v: int) {
    && 0 <= i < n <= |us| && Before(us, i).throttle != v
    && forall k :: i <= k < n ==> us[k].intent.throttle == v
  }

  /** The turn under way began at i. */
  ghost predicate TurnRun(us: seq<Taken>, i: int) {
    && 0 <= i < |us| && us[i].intent.steering != 0 && Before(us, i).steering != us[i].intent.steering
    && forall k :: i <= k < |us| ==> us[k].intent.steering == us[i].intent.steering
  }

  ghost predicate Released(us: seq<Taken>, i: int)
    requires 0 <= i
  {
    exists k :: i <= k < |us| && us[k].intent.throttle != 1
  }

  /** How long a turn takes to fill, by how long the gas had been held when it began: up to 450 ms after a second of gas, and
      600 ms with Nitro. */
  ghost function FillTime(nitro: bool, gas: real): real {
    (if nitro then 600.0 else 450.0) * if gas <= 0.0 then 0.0 else if gas >= 1000.0 then 1.0 else gas / 1000.0
  }

  lemma RampFills(nitro: bool, gasSince: real, now: real)
    ensures RampTime(nitro, Some(gasSince), now) == FillTime(nitro, now - gasSince)
  {
  }

  /** How far a turn has got: full without a ramp and from its end on, nothing before its start, and in between in proportion
      to the time. */
  lemma ProgressIsLinear(turnSince: real, duration: real, now: real)
    ensures
      var elapsed, progress := now - turnSince, Progress(Some(turnSince), duration, now);
      if duration <= 0.0 || elapsed >= duration then progress == 1.0
      else if elapsed <= 0.0 then progress == 0.0
      else progress == elapsed / duration
    ensures Progress(None, duration, now) == 1.0
  {
    var elapsed := now - turnSince;
    if duration > 0.0 {
      if elapsed < 0.0 { QuotientRises(elapsed, 0.0, duration); }
      else if elapsed >= duration { QuotientRises(duration, elapsed, duration); }
      else { QuotientRises(elapsed, duration, duration); }
    }
  }

  /** The ramp of the turn that began at i: full at once if the gas was released or absent at any time in the
      turn, and otherwise set by Nitro and by how long the gas had been held when the turn began. */
  ghost predicate TurnRamp(us: seq<Taken>, i: int, duration: real)
    requires 0 <= i < |us|
  {
    if Released(us, i) then duration == 0.0
    else exists g :: ThrottleRun(us, i + 1, g, 1) && FillsFrom(us[i], us[g], duration)
  }

  ghost predicate FillsFrom(turn: Taken, gas: Taken, duration: real) {
    duration == FillTime(turn.intent.nitro, turn.time - gas.time)
  }

  /** A turn of the given direction, that far along. */
  function Turned(direction: int, progress: real): real {
    if direction < 0 then -progress else if direction > 0 then progress else 0.0
  }

  ghost predicate TurnShows(us: seq<Taken>, i: int, duration: real, now: real, steering: real) {
    && TurnRun(us, i) && TurnRamp(us, i, duration)
    && steering == Turned(us[i].intent.steering, Progress(Some(us[i].time), duration, now))
  }

  ghost predicate ReversedFor(us: seq<Taken>, i: int, now: real) {
    ThrottleRun(us, |us|, i, -1) && now - us[i].time >= 500.0
  }

  /** What the keys mean at time now, told from the history of intents alone. */
  ghost predicate Means(us: seq<Taken>, now: real, out: Output) {
    && out.nitro == LastIntent(us).nitro
    && out.throttle == (if exists i :: ReversedFor(us, i, now) then -0.4 else LastIntent(us).throttle as real)
    && if LastIntent(us).steering == 0 then out.steering == 0.0
       else exists i, duration :: TurnShows(us, i, duration, now, out.steering)
  }

  lemma RunStartIsUnique(us: seq<Taken>, n: int, i: int, j: int, v: int)
    requires ThrottleRun(us, n, i, v) && ThrottleRun(us, n, j, v)
    ensures i == j
  {
  }

  lemma TurnStartIsUnique(us: seq<Taken>, i: int, j: int)
    requires TurnRun(us, i) && TurnRun(us, j)
    ensures i == j
  {
    assert us[i].intent.steering == us[|us| - 1].intent.steering == us[j].intent.steering;
  }

  // ---------- The fields are the closed form's ----------

  ghost predicate ThrottleSince(us: seq<Taken>, since: Option<real>, v: int) {
    if LastIntent(us).throttle == v then since.Some? && exists i :: ThrottleRun(us, |us|, i, v) && us[i].time == since.value
    else since.None?
  }

  ghost predicate TurnHeld(us: seq<Taken>, since: Option<real>, duration: real) {
    if LastIntent(us).steering == 0 then since.None?
    else exists i :: TurnRun(us, i) && since == Some(us[i].time) && TurnRamp(us, i, duration)
  }

  ghost predicate Tracks(m: Model, us: seq<Taken>) {
    && m.intent == LastIntent(us)
    && ThrottleSince(us, m.forwardSince, 1) && ThrottleSince(us, m.reverseSince, -1)
    && TurnHeld(us, m.turnSince, m.turnDuration)
    && (m.intent.throttle != 1 ==> m.turnDuration == 0.0)
  }

  lemma SinceTracks(us: seq<Taken>, since: Option<real>, v: int, next: Intent, now: real)
    requires ThrottleSince(us, since, v) && v != 0
    ensures ThrottleSince(us + [Taken(next, now)], Since(since, LastIntent(us).throttle, next.throttle, v, now), v)
  {
    var longer := us + [Taken(next, now)];
    if next.throttle == v {
      if LastIntent(us).throttle == v {
        var i :| ThrottleRun(us, |us|, i, v) && us[i].time == since.value;
        assert ThrottleRun(longer, |longer|, i, v) && longer[i] == us[i];
      } else {
        assert ThrottleRun(longer, |longer|, |us|, v);
      }
    }
  }

  lemma NewTurn(us: seq<Taken>, next: Intent, now: real, gasSince: Option<real>)
    requires next.steering != 0 && next.steering != LastIntent(us).steering
    requires ThrottleSince(us + [Taken(next, now)], gasSince, 1)
    ensures TurnHeld(us + [Taken(next, now)], Some(now), RampTime(next.nitro, gasSince, now))
  {
    var longer := us + [Taken(next, now)];
    var i := |us|;
    assert TurnRun(longer, i);
    if next.throttle == 1 {
      var g :| ThrottleRun(longer, i + 1, g, 1) && longer[g].time == gasSince.value;
      RampFills(next.nitro, gasSince.value, now);
      assert TurnRamp(longer, i, RampTime(next.nitro, gasSince, now));
    } else {
      assert longer[i].intent.throttle != 1;
      assert Released(longer, i);
    }
  }

  lemma SameRamp(us: seq<Taken>, next: Intent, now: real, i: int, duration: real)
    requires 0 <= i < |us| && TurnRamp(us, i, duration)
    ensures TurnRamp(us + [Taken(next, now)], i, if next.throttle != 1 then 0.0 else duration)
  {
    var longer := us + [Taken(next, now)];
    if next.throttle != 1 {
      assert longer[|us|].intent.throttle != 1;
    } else if Released(us, i) {
      var k :| i <= k < |us| && us[k].intent.throttle != 1;
      assert longer[k].intent.throttle != 1;
    } else {
      var g :| ThrottleRun(us, i + 1, g, 1) && FillsFrom(us[i], us[g], duration);
      assert ThrottleRun(longer, i + 1, g, 1) && longer[g] == us[g] && longer[i] == us[i];
      assert !Released(longer, i);
    }
  }

  lemma SameTurn(us: seq<Taken>, next: Intent, now: real, since: Option<real>, duration: real)
    requires TurnHeld(us, since, duration) && next.steering == LastIntent(us).steering
    ensures TurnHeld(us + [Taken(next, now)], since, if next.throttle != 1 then 0.0 else duration)
  {
    if next.steering != 0 {
      var longer := us + [Taken(next, now)];
      var i :| TurnRun(us, i) && since == Some(us[i].time) && TurnRamp(us, i, duration);
      SameRamp(us, next, now, i, duration);
      assert us[|us| - 1].intent.steering == us[i].intent.steering;
      assert TurnRun(longer, i) && longer[i] == us[i];
    }
  }

  lemma UpdateTracks(m: Model, us: seq<Taken>, next: Intent, now: real)
    requires Tracks(m, us)
    ensures Tracks(Updated(m, next, now), us + [Taken(next, now)])
  {
    SinceTracks(us, m.forwardSince, 1, next, now);
    SinceTracks(us, m.reverseSince, -1, next, now);
    if next.steering == m.intent.steering {
      SameTurn(us, next, now, m.turnSince, m.turnDuration);
    } else if next.steering != 0 {
      NewTurn(us, next, now, Updated(m, next, now).forwardSince);
    }
  }

  lemma {:induction false} RunTracks(history: seq<Event>)
    ensures Run(history).lastNow == Now(history) && Tracks(Run(history), Intents(history))
  {
    if history != [] {
      var front, e := history[..|history| - 1], history[|history| - 1];
      RunTracks(front);
      if e.Update? {
        UpdateTracks(Run(front), Intents(front), IntentOf(e.pressed), Now(history));
      } else {
        assert Intents(history) == Intents(front);
      }
    }
  }

  lemma ThrottleIsClosedForm(us: seq<Taken>, since: Option<real>, now: real)
    requires ThrottleSince(us, since, -1)
    ensures (since.Some? && now - since.value >= 500.0) <==> exists i :: ReversedFor(us, i, now)
  {
    if LastIntent(us).throttle == -1 {
      var j :| ThrottleRun(us, |us|, j, -1) && us[j].time == since.value;
      forall i | ReversedFor(us, i, now)
        ensures i == j
      {
        RunStartIsUnique(us, |us|, i, j, -1);
      }
      assert ReversedFor(us, j, now) <==> now - since.value >= 500.0;
    }
  }

  lemma SteeringIsClosedForm(us: seq<Taken>, since: Option<real>, duration: real, now: real)
    requires TurnHeld(us, since, duration) && LastIntent(us).steering != 0
    ensures exists i, d :: TurnShows(us, i, d, now, Turned(LastIntent(us).steering, Progress(since, duration, now)))
  {
    var i :| TurnRun(us, i) && since == Some(us[i].time) && TurnRamp(us, i, duration);
    assert us[|us| - 1].intent.steering == us[i].intent.steering;
    assert TurnShows(us, i, duration, now, Turned(LastIntent(us).steering, Progress(since, duration, now)));
  }

  lemma ShownIsTurned(m: Model, now: real)
    requires -1 <= m.intent.steering <= 1
    ensures Shown(m, now).steering == Turned(m.intent.steering, Progress(m.turnSince, m.turnDuration, now))
  {
  }

  /** Incremental keys equal the closed form: after any history of updates and samples, with any clocks, the
      output is what the history of intents means at that moment. */
  lemma OutputIsClosedForm(history: seq<Event>)
    ensures Means(Intents(history), Now(history), Shown(Run(history), Run(history).lastNow))
  {
    RunTracks(history);
    IntentIsSmall(history);
    var us, m, now := Intents(history), Run(history), Now(history);
    ShownIsTurned(m, now);
    ThrottleIsClosedForm(us, m.reverseSince, now);
    if m.intent.steering != 0 { SteeringIsClosedForm(us, m.turnSince, m.turnDuration, now); }
  }

  lemma RampIsUnique(us: seq<Taken>, i: int, a: real, b: real)
    requires 0 <= i < |us| && TurnRamp(us, i, a) && TurnRamp(us, i, b)
    ensures a == b
  {
    if !Released(us, i) {
      var g :| ThrottleRun(us, i + 1, g, 1) && FillsFrom(us[i], us[g], a);
      var h :| ThrottleRun(us, i + 1, h, 1) && FillsFrom(us[i], us[h], b);
      RunStartIsUnique(us, i + 1, g, h, 1);
      FillIsUnique(us[i], us[g], a, b);
    }
  }

  lemma FillIsUnique(turn: Taken, gas: Taken, a: real, b: real)
    requires FillsFrom(turn, gas, a) && FillsFrom(turn, gas, b)
    ensures a == b
  {
  }

  lemma SteeringIsUnique(us: seq<Taken>, i: int, d: real, j: int, e: real, now: real, a: real, b: real)
    requires TurnShows(us, i, d, now, a) && TurnShows(us, j, e, now, b)
    ensures a == b
  {
    TurnStartIsUnique(us, i, j);
    RampIsUnique(us, i, d, e);
  }

  /** The closed form leaves no choice: an intent history and a moment have one output. */
  lemma MeaningIsUnique(us: seq<Taken>, now: real, a: Output, b: Output)
    requires Means(us, now, a) && Means(us, now, b)
    ensures a == b
  {
    if LastIntent(us).steering != 0 {
      var i, d :| TurnShows(us, i, d, now, a.steering);
      var j, e :| TurnShows(us, j, e, now, b.steering);
      SteeringIsUnique(us, i, d, j, e, now, a.steering, b.steering);
    }
  }

  // ---------- What cannot be observed ----------

  /** Pressing keys that leave the intent as it is does exactly what a sample does. */
  lemma RepeatsAreSamples(history: seq<Event>, pressed: set<string>, clock: Clock)
    requires IntentOf(pressed) == Run(history).intent
    ensures Step(Run(history), Update(pressed, clock)) == Step(Run(history), Sample(clock))
  {
    RunTracks(history);
  }

  /** The history with every clock set to the latest finite one so far. */
  function Forwarded(history: seq<Event>): seq<Event> {
    if history == [] then []
    else
      var front, e := history[..|history| - 1], history[|history| - 1];
      var clock := At(Now(history));
      Forwarded(front) + [if e.Update? then Update(e.pressed, clock) else Sample(clock)]
  }

  /** Clocks that run backwards or are not numbers do what a clock standing still would do. */
  lemma {:induction false} BackwardClocksStandStill(history: seq<Event>)
    ensures Run(Forwarded(history)) == Run(history) && Now(Forwarded(history)) == Now(history)
    ensures |Forwarded(history)| == |history|
  {
    if history != [] {
      var front, e := history[..|history| - 1], history[|history| - 1];
      BackwardClocksStandStill(front);
      RunTracks(front);
      assert Forwarded(history)[..|history| - 1] == Forwarded(front);
    }
  }

  lemma ClampedRises(x: real, y: real)
    requires x <= y
    ensures 0.0 <= Clamped(x) <= Clamped(y) <= 1.0
  {
  }

  /** Outputs stay in range, and while nothing but time passes a turn only grows. */
  lemma TurnsOnlyGrow(history: seq<Event>, clock: Clock)
    ensures
      var m := Run(history);
      var before, after := Shown(m, m.lastNow), Shown(Step(m, Sample(clock)), Later(m.lastNow, clock));
      && -1.0 <= before.steering <= 1.0 && -1.0 <= before.throttle <= 1.0
      && (m.intent.steering >= 0 ==> 0.0 <= before.steering <= after.steering)
      && (m.intent.steering <= 0 ==> after.steering <= before.steering <= 0.0)
  {
    var m := Run(history);
    IntentIsSmall(history);
    var now, later := m.lastNow, Later(m.lastNow, clock);
    ShownIsTurned(m, now);
    ShownIsTurned(Step(m, Sample(clock)), later);
    if m.turnSince.Some? && m.turnDuration > 0.0 {
      QuotientRises(now - m.turnSince.value, later - m.turnSince.value, m.turnDuration);
      ClampedRises((now - m.turnSince.value) / m.turnDuration, (later - m.turnSince.value) / m.turnDuration);
    }
  }

  lemma QuotientRises(a: real, b: real, d: real)
    requires a <= b && d > 0.0
    ensures a / d <= b / d
  {
    var gap := b / d - a / d;
    assert gap * d == b - a;
    NonNegativeFactor(gap, d);
  }

  lemma NonNegativeFactor(x: real, d: real)
    requires d > 0.0 && x * d >= 0.0
    ensures x >= 0.0
  {
  }

  lemma {:induction false} IntentIsSmall(history: seq<Event>)
    ensures -1 <= Run(history).intent.steering <= 1 && -1 <= Run(history).intent.throttle <= 1
  {
    if history != [] {
      var front, e := history[..|history| - 1], history[|history| - 1];
      IntentIsSmall(front);
      if e.Update? { OppositesCancel(e.pressed); }
    }
  }

  // ---------- The object ----------

  class KeyboardDriveModel {
    var intent: Intent
    var forwardStartedAt: Option<real>
    var reverseStartedAt: Option<real>
    var turnStartedAt: Option<real>
    var turnDurationMs: real
    var lastNowMs: real

    constructor ()
      ensures State() == Start
    {
      intent, forwardStartedAt, reverseStartedAt, turnStartedAt, turnDurationMs, lastNowMs := Rest, None, None, None, 0.0, 0.0;
    }

    ghost function State(): Model
      reads this
    {
      Model(intent, forwardStartedAt, reverseStartedAt, turnStartedAt, turnDurationMs, lastNowMs)
    }

    method AdvanceClock(clock: Clock) returns (now: real)
      modifies this`lastNowMs
      ensures now == lastNowMs == Later(old(lastNowMs), clock)
    {
      if clock.At? && clock.ms > lastNowMs { lastNowMs := clock.ms; }
      now := lastNowMs;
    }

    method UpdateKeys(pressed: set<string>, clock: Clock) returns (out: Output)
      modifies this
      ensures State() == Step(old(State()), Update(pressed, clock)) && out == Shown(State(), lastNowMs)
    {
      var now := AdvanceClock(clock);
      var next := IntentOf(pressed);
      if next.throttle != 1 { forwardStartedAt := None; }
      else if intent.throttle != 1 { forwardStartedAt := Some(now); }
      if next.throttle != -1 { reverseStartedAt := None; }
      else if intent.throttle != -1 { reverseStartedAt := Some(now); }
      if next.steering != intent.steering {
        turnStartedAt := if next.steering == 0 then None else Some(now);
        // Nitro is captured at the start of the turn, so the ramp stays continuous.
        turnDurationMs := RampTime(next.nitro, forwardStartedAt, now);
      } else if next.throttle != 1 {
        turnDurationMs := 0.0;
      }
      intent := next;
      out := SampleAt(At(now));
    }

    method SampleAt(clock: Clock) returns (out: Output)
      modifies this`lastNowMs
      ensures State() == Step(old(State()), Sample(clock)) && out == Shown(State(), lastNowMs)
    {
      var now := AdvanceClock(clock);
      var throttle := if reverseStartedAt.Some? && now - reverseStartedAt.value >= 500.0 then -0.4 else intent.throttle as real;
      var progress := Progress(turnStartedAt, turnDurationMs, now);
      var steering := if progress == 0.0 then 0.0 else intent.steering as real * progress;
      out := Output(steering, throttle, intent.nitro);
    }

    method Reset()
      modifies this
      ensures State() == Start
    {
      intent, forwardStartedAt, reverseStartedAt, turnStartedAt, turnDurationMs, lastNowMs := Rest, None, None, None, 0.0, 0.0;
    }
  }
}

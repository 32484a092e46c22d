/** The poll loop of the runner: weighted work classes on one cursor, with cooldowns after failures. */
module Scheduler {
  import opened Angles

  datatype WorkClass = Text | Portrait | Mesh

  const WORK_SLOTS: seq<WorkClass> := [Text, Text, Text, Text, Portrait, Mesh]

  /** One value for each work class. */
  datatype Lanes<T> = Lanes(text: T, portrait: T, mesh: T)
  {
    function Get(w: WorkClass): T {
      match w case Text => text case Portrait => portrait case Mesh => mesh
    }

    function Set(w: WorkClass, value: T): Lanes<T> {
      match w case Text => this.(text := value) case Portrait => this.(portrait := value) case Mesh => this.(mesh := value)
    }
  }

  /** What one run of a lane comes to; `Fatal` stands for the error that ends the runner. */
  datatype Status = Empty | Processed | Failed | Fatal

  /** Everything outside the loop: the n-th reading of the clock and of the random source, the outcome of
      the n-th run, and the number of times the abort signal is read before it is raised. */
  datatype Environment = Environment(
    portraits: bool, meshes: bool, pollMs: nat,
    clock: nat -> real, random: nat -> real, status: (nat, WorkClass) -> Status, life: nat)
  {
    predicate Enabled(w: WorkClass) {
      match w case Text => true case Portrait => portraits case Mesh => meshes
    }

    predicate Aborted(reading: nat) {
      life <= reading
    }
  }

  datatype Attempt = Disabled | Unavailable | Cooling(until: real, at: real)
                   | Ran(status: Status, at: real) | Broke(at: real, failedAt: real, until: real)

  /** What the loop did: a slot of the cycle consumed, or a sleep. */
  datatype Event = Slot(workClass: WorkClass, attempt: Attempt) | Slept(ms: real, at: real)

  datatype State = State(
    cursor: nat, cooldownUntil: Lanes<real>,
    signals: nat, clocks: nat, randoms: nat, runs: nat, fatal: bool, trace: seq<Event>)

  const START := State(0, Lanes(0.0, 0.0, 0.0), 0, 0, 0, 0, false, [])

  function DelayBy(pollMs: nat, factor: real): int {
    Round((pollMs as real) * factor)
  }

  function JitterFactor(random: real): real {
    0.8 + Max(0.0, Min(1.0, random)) * 0.4
  }

  function JitteredDelay(pollMs: nat, random: real): int {
    DelayBy(pollMs, JitterFactor(random))
  }

  // ----- One pass over the slots, as a function -----

  /** A pass in progress: the lanes it found without work, and how many slots it has consumed. */
  datatype Pass = Pass(state: State, unavailable: set<WorkClass>, processed: bool, scanned: nat)

  function Log(s: State, w: WorkClass, attempt: Attempt): State {
    s.(trace := s.trace + [Slot(w, attempt)])
  }

  /** Run the lane of a slot that is enabled, available and off cooldown at `at`. */
  function Attempted(env: Environment, p: Pass, w: WorkClass, at: real): Pass {
    var status := env.status(p.state.runs, w);
    var s := p.state.(runs := p.state.runs + 1);
    match status
    case Processed => p.(state := Log(s, w, Ran(status, at)), processed := true)
    case Fatal => p.(state := Log(s, w, Ran(status, at)).(fatal := true))
    case Empty => p.(state := Log(s, w, Ran(status, at)), unavailable := p.unavailable + {w})
    case Failed =>
      var failedAt := env.clock(s.clocks);
      var until := failedAt + JitteredDelay(env.pollMs, env.random(s.randoms)) as real;
      var cooled := s.(clocks := s.clocks + 1, randoms := s.randoms + 1, cooldownUntil := s.cooldownUntil.Set(w, until));
      p.(state := Log(cooled, w, Broke(at, failedAt, until)), unavailable := p.unavailable + {w})
  }

  /** Consume the slot under the cursor, whatever comes of it. */
  function Consumed(env: Environment, p: Pass): Pass
    requires p.state.cursor < 6
  {
    var w := WORK_SLOTS[p.state.cursor];
    var s := p.state.(cursor := (p.state.cursor + 1) % 6);
    if !env.Enabled(w) then p.(state := Log(s, w, Disabled))
    else if w in p.unavailable then p.(state := Log(s, w, Unavailable))
    else
      var at := env.clock(s.clocks);
      var timed := s.(clocks := s.clocks + 1);
      if s.cooldownUntil.Get(w) > at then p.(state := Log(timed, w, Cooling(s.cooldownUntil.Get(w), at)))
      else Attempted(env, p.(state := timed), w, at)
  }

  /** The signal is read before every slot. */
  function SignalRead(p: Pass): Pass {
    p.(state := p.state.(signals := p.state.signals + 1))
  }

  function NextSlot(env: Environment, p: Pass): (q: Pass)
    requires p.state.cursor < 6
    ensures q.state.cursor < 6 && q.state.signals == p.state.signals + 1 && q.scanned == p.scanned + 1
  {
    Consumed(env, SignalRead(p)).(scanned := p.scanned + 1)
  }

  predicate Scanning(p: Pass) {
    p.scanned < 6 && !p.processed && !p.state.fatal
  }

  function Scanned(env: Environment, p: Pass): (q: Pass)
    requires p.state.cursor < 6
    ensures q.state.cursor < 6 && p.state.signals <= q.state.signals
    decreases 6 - p.scanned
  {
    if !Scanning(p) then p
    else if env.Aborted(p.state.signals) then SignalRead(p)
    else Scanned(env, NextSlot(env, p))
  }

  function NewPass(s: State): Pass {
    Pass(s, {}, false, 0)
  }

  /** The delay shortened to the cooldown of `w`, when that lane is enabled and cooling. */
  function Shortened(env: Environment, s: State, delay: real, w: WorkClass, at: real): real {
    if env.Enabled(w) && s.cooldownUntil.Get(w) > at then Min(delay, s.cooldownUntil.Get(w) - at) else delay
  }

  function ShortenedBy(env: Environment, s: State, delay: real, lanes: seq<WorkClass>, at: real): real {
    if lanes == [] then delay
    else Shortened(env, s, ShortenedBy(env, s, delay, lanes[..|lanes| - 1], at), lanes[|lanes| - 1], at)
  }

  function Rested(env: Environment, s: State): State {
    var jitter := JitteredDelay(env.pollMs, env.random(s.randoms)) as real;
    var at := env.clock(s.clocks);
    var delay := ShortenedBy(env, s, jitter, [Text, Portrait, Mesh], at);
    s.(randoms := s.randoms + 1, clocks := s.clocks + 1, trace := s.trace + [Slept(Max(1.0, delay), at)])
  }

  function OnePass(env: Environment, s: State): (t: State)
    requires s.cursor < 6
    ensures t.cursor < 6 && s.signals <= t.signals
  {
    var p := Scanned(env, NewPass(s));
    if p.processed || p.state.fatal then p.state
    else
      var read := p.state.(signals := p.state.signals + 1);
      if env.Aborted(p.state.signals) then read else Rested(env, read)
  }

  function Polled(env: Environment, s: State): State
    requires s.cursor < 6
    decreases env.life - s.signals
  {
    if s.fatal then s
    else
      var read := s.(signals := s.signals + 1);
      if env.Aborted(s.signals) then read else Polled(env, OnePass(env, read))
  }

  // ----- The loop -----

  /** Take the slot under the cursor: consumed before anything is awaited. */
  method TakeSlot(env: Environment, s: State, unavailable: set<WorkClass>)
    returns (t: State, processed: bool, grown: set<WorkClass>)
    requires s.cursor < 6
    ensures forall n :: Pass(t, grown, processed, n) == Consumed(env, Pass(s, unavailable, false, n))
  {
    processed, grown := false, unavailable;
    var w := WORK_SLOTS[s.cursor];
    t := s.(cursor := (s.cursor + 1) % 6);
    if !env.Enabled(w) { t := Log(t, w, Disabled); return; }
    if w in unavailable { t := Log(t, w, Unavailable); return; }
    var at := env.clock(t.clocks);
    t := t.(clocks := t.clocks + 1);
    if t.cooldownUntil.Get(w) > at {
      t := Log(t, w, Cooling(t.cooldownUntil.Get(w), at));
      return;
    }
    var status := env.status(t.runs, w);
    t := t.(runs := t.runs + 1);
    if status == Failed {
      var failedAt := env.clock(t.clocks);
      var until := failedAt + JitteredDelay(env.pollMs, env.random(t.randoms)) as real;
      t := t.(clocks := t.clocks + 1, randoms := t.randoms + 1, cooldownUntil := t.cooldownUntil.Set(w, until));
      t := Log(t, w, Broke(at, failedAt, until));
      grown := grown + {w};
    } else {
      t := Log(t, w, Ran(status, at));
      if status == Processed { processed := true; }
      if status == Fatal { t := t.(fatal := true); }
      if status == Empty { grown := grown + {w}; }
    }
  }

  /** Sleep until the jittered delay is over or the nearest cooldown ends. */
  method Rest(env: Environment, s: State) returns (t: State)
    ensures t == Rested(env, s)
  {
    var delay := JitteredDelay(env.pollMs, env.random(s.randoms)) as real;
    var sampledAt := env.clock(s.clocks);
    var lanes := [Text, Portrait, Mesh];
    var i := 0;
    while i < |lanes|
      invariant 0 <= i <= |lanes|
      invariant delay == ShortenedBy(env, s, JitteredDelay(env.pollMs, env.random(s.randoms)) as real, lanes[..i], sampledAt)
    {
      var w := lanes[i];
      assert lanes[..i + 1][..i] == lanes[..i];
      if env.Enabled(w) && s.cooldownUntil.Get(w) > sampledAt {
        delay := Min(delay, s.cooldownUntil.Get(w) - sampledAt);
      }
      i := i + 1;
    }
    assert lanes[..3] == lanes;
    t := s.(randoms := s.randoms + 1, clocks := s.clocks + 1, trace := s.trace + [Slept(Max(1.0, delay), sampledAt)]);
  }

  /** Scan the six slots once, until a lane has worked or the signal is raised. */
  method ScanSlots(env: Environment, start: State) returns (s: State, processed: bool)
    requires start.cursor < 6
    ensures var p := Scanned(env, NewPass(start)); s == p.state && processed == p.processed
  {
    s := start;
    var unavailable: set<WorkClass> := {};
    processed := false;
    var scanned := 0;
    while scanned < 6 && !processed && !s.fatal
      invariant s.cursor < 6 && 0 <= scanned <= 6
      invariant Scanned(env, Pass(s, unavailable, processed, scanned)) == Scanned(env, NewPass(start))
    {
      s := s.(signals := s.signals + 1);
      if env.Aborted(s.signals - 1) { break; }
      s, processed, unavailable := TakeSlot(env, s, unavailable);
      scanned := scanned + 1;
    }
  }

  method RunPass(env: Environment, start: State) returns (s: State)
    requires start.cursor < 6
    ensures s == OnePass(env, start)
  {
    var processed;
    s, processed := ScanSlots(env, start);
    if processed || s.fatal { return; }
    s := s.(signals := s.signals + 1);
    if !env.Aborted(s.signals - 1) { s := Rest(env, s); }
  }

  /** Poll until the signal is raised or a lane fails for good. */
  method RunPollLoop(env: Environment) returns (s: State)
    ensures s == Polled(env, START)
  {
    s := START;
    while !s.fatal
      invariant s.cursor < 6 && Polled(env, s) == Polled(env, START)
      decreases env.life - s.signals
    {
      s := s.(signals := s.signals + 1);
      if env.Aborted(s.signals - 1) { break; }
      s := RunPass(env, s);
    }
  }
}

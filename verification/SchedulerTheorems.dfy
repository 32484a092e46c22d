/** Fairness of the poll loop: what holds of the trace of every run. */
module SchedulerTheorems {
  import opened Angles
  import opened Scheduler

  // ----- Reading a trace -----

  predicate IsJob(e: Event) {
    e.Slot? && e.attempt.Ran? && e.attempt.status == Processed
  }

  predicate IsJobOf(e: Event, w: WorkClass) {
    IsJob(e) && e.workClass == w
  }

  /** A run of `w` that found nothing or failed. */
  predicate Fruitless(e: Event, w: WorkClass) {
    e.Slot? && e.workClass == w && ((e.attempt.Ran? && e.attempt.status == Empty) || e.attempt.Broke?)
  }

  predicate IsSlot(e: Event) {
    e.Slot?
  }

  /** The run that ends the runner. */
  predicate IsFatal(e: Event) {
    e.Slot? && e.attempt.Ran? && e.attempt.status == Fatal
  }

  /** The classes of the slots consumed, in order. */
  function SlotClasses(trace: seq<Event>): seq<WorkClass> {
    if trace == [] then []
    else
      var last := trace[|trace| - 1];
      SlotClasses(trace[..|trace| - 1]) + if last.Slot? then [last.workClass] else []
  }

  /** The class whose turn it is when `k` slots have been consumed. */
  function SlotClass(k: nat): WorkClass {
    WORK_SLOTS[k % 6]
  }

  /** When the cooldown of `w` ends, by the trace so far. */
  function CooldownOf(trace: seq<Event>, w: WorkClass): real {
    if trace == [] then 0.0
    else
      var last := trace[|trace| - 1];
      if last.Slot? && last.workClass == w && last.attempt.Broke? then last.attempt.until
      else CooldownOf(trace[..|trace| - 1], w)
  }

  /** A slot in which the lane was run. */
  predicate IsRun(e: Event) {
    e.Slot? && (e.attempt.Ran? || e.attempt.Broke?)
  }

  function RunsIn(trace: seq<Event>): nat {
    if trace == [] then 0 else RunsIn(trace[..|trace| - 1]) + if IsRun(trace[|trace| - 1]) then 1 else 0
  }

  function ShortestDelay(env: Environment): int {
    DelayBy(env.pollMs, 0.8)
  }

  function LongestDelay(env: Environment): int {
    DelayBy(env.pollMs, 1.2)
  }

  /** Text always has a lane; portraits and meshes have one if they are enabled. */
  predicate HasLane(env: Environment, w: WorkClass) {
    w == Text || (w == Portrait && env.portraits) || (w == Mesh && env.meshes)
  }

  // ----- The law of one event -----

  /** The lane ran to no avail earlier in this pass, and nothing has worked since. */
  ghost predicate WentWithout(trace: seq<Event>, p: nat, w: WorkClass)
    requires p <= |trace|
  {
    exists q :: 0 <= q < p < q + 6 && Fruitless(trace[q], w)
      && forall r :: q <= r < p ==> IsSlot(trace[r]) && !IsJob(trace[r])
  }

  /** The six events before `p` are slots, and nothing worked in any of them. */
  ghost predicate WholeIdlePass(trace: seq<Event>, p: nat)
    requires p <= |trace|
  {
    6 <= p && forall r :: p - 6 <= r < p ==> IsSlot(trace[r]) && !IsJob(trace[r])
  }

  ghost predicate CoolingAt(env: Environment, trace: seq<Event>, w: WorkClass, at: real) {
    HasLane(env, w) && at < CooldownOf(trace, w)
  }

  /** A sleep lasts from one millisecond to the longest delay, and overshoots no cooldown by a millisecond;
      it is shorter than the shortest delay only for the sake of a cooldown. */
  ghost predicate SleepIsRight(env: Environment, before: seq<Event>, ms: real, at: real) {
    && 1.0 <= ms <= Max(1.0, LongestDelay(env) as real)
    && (forall w :: CoolingAt(env, before, w, at) ==> at + ms < CooldownOf(before, w) + 1.0)
    && (ms < ShortestDelay(env) as real ==>
          exists w :: CoolingAt(env, before, w, at) && ms == Max(1.0, CooldownOf(before, w) - at))
  }

  ghost predicate Lawful(env: Environment, trace: seq<Event>, p: nat)
    requires p < |trace|
  {
    match trace[p]
    case Slept(ms, at) => WholeIdlePass(trace, p) && SleepIsRight(env, trace[..p], ms, at)
    case Slot(w, attempt) =>
      match attempt
      case Disabled => !HasLane(env, w)
      case Unavailable => HasLane(env, w) && WentWithout(trace, p, w)
      case Cooling(until, at) =>
        !WentWithout(trace, p, w) && CoolingAt(env, trace[..p], w, at) && until == CooldownOf(trace[..p], w)
      case Ran(status, at) =>
        && HasLane(env, w) && !WentWithout(trace, p, w) && CooldownOf(trace[..p], w) <= at
        && status == env.status(RunsIn(trace[..p]), w) != Failed
      case Broke(at, failedAt, until) =>
        && HasLane(env, w) && !WentWithout(trace, p, w) && CooldownOf(trace[..p], w) <= at
        && env.status(RunsIn(trace[..p]), w) == Failed
        && ShortestDelay(env) as real <= until - failedAt <= LongestDelay(env) as real
  }

  ghost predicate AllLawful(env: Environment, trace: seq<Event>) {
    forall p {:trigger Lawful(env, trace, p)} :: 0 <= p < |trace| ==> Lawful(env, trace, p)
  }

  /** The slots come round in the fixed order, and the cursor stands on the next. */
  ghost predicate InCycle(s: State) {
    && (forall k :: 0 <= k < |SlotClasses(s.trace)| ==> SlotClasses(s.trace)[k] == SlotClass(k))
    && s.cursor == |SlotClasses(s.trace)| % 6
  }

  ghost predicate CooldownsTraced(s: State) {
    forall w :: s.cooldownUntil.Get(w) == CooldownOf(s.trace, w)
  }

  /** A fatal run is the last event of all. */
  ghost predicate EndsIfFatal(s: State) {
    forall p :: 0 <= p < |s.trace| && IsFatal(s.trace[p]) ==> s.fatal && p == |s.trace| - 1
  }

  /** Every slot was preceded by a reading of the signal of its own that found it not raised. */
  ghost predicate InTime(env: Environment, s: State) {
    |SlotClasses(s.trace)| <= s.signals && |SlotClasses(s.trace)| <= env.life
  }

  ghost predicate Sound(env: Environment, s: State) {
    && InTime(env, s)
    && InCycle(s) && CooldownsTraced(s) && AllLawful(env, s.trace) && EndsIfFatal(s) && s.runs == RunsIn(s.trace)
  }

  // ----- Extending a trace -----

  lemma LawStands(env: Environment, trace: seq<Event>, e: Event, p: nat)
    requires p < |trace|
    ensures Lawful(env, trace + [e], p) <==> Lawful(env, trace, p)
  {
    var longer := trace + [e];
    assert longer[..p] == trace[..p] && longer[p] == trace[p];
    assert forall r :: 0 <= r < |trace| ==> longer[r] == trace[r];
    assert forall w :: WentWithout(longer, p, w) <==> WentWithout(trace, p, w);
  }

  lemma LawExtends(env: Environment, trace: seq<Event>, e: Event)
    requires AllLawful(env, trace) && Lawful(env, trace + [e], |trace|)
    ensures AllLawful(env, trace + [e])
  {
    forall p | 0 <= p < |trace + [e]|
      ensures Lawful(env, trace + [e], p)
    {
      if p < |trace| {
        assert Lawful(env, trace, p);
        LawStands(env, trace, e, p);
      }
    }
  }

  function CooldownAfter(trace: seq<Event>, e: Event, w: WorkClass): real {
    if e.Slot? && e.workClass == w && e.attempt.Broke? then e.attempt.until else CooldownOf(trace, w)
  }

  lemma {:induction false} ReadingsExtend(trace: seq<Event>, e: Event)
    ensures SlotClasses(trace + [e]) == SlotClasses(trace) + if e.Slot? then [e.workClass] else []
    ensures forall w :: CooldownOf(trace + [e], w) == CooldownAfter(trace, e, w)
    ensures RunsIn(trace + [e]) == RunsIn(trace) + if IsRun(e) then 1 else 0
  {
    assert (trace + [e])[..|trace|] == trace;
  }

  lemma RoundIsMonotone(x: real, y: real)
    requires x <= y
    ensures Round(x) <= Round(y)
  {
  }

  lemma DelayGrows(pollMs: nat, low: real, high: real)
    requires low <= high
    ensures DelayBy(pollMs, low) <= DelayBy(pollMs, high)
  {
    ProductOrder(pollMs as real, low, high);
    RoundIsMonotone((pollMs as real) * low, (pollMs as real) * high);
  }

  lemma FactorGrows(u: real, v: real)
    requires u <= v
    ensures 0.8 <= JitterFactor(u) <= JitterFactor(v) <= 1.2
    ensures u <= 0.0 ==> JitterFactor(u) == 0.8
    ensures u == 0.5 ==> JitterFactor(u) == 1.0
    ensures 1.0 <= u ==> JitterFactor(u) == 1.2
  {
  }

  lemma JitterIsBounded(env: Environment, random: real)
    ensures ShortestDelay(env) <= JitteredDelay(env.pollMs, random) <= LongestDelay(env)
  {
    FactorGrows(random, random);
    DelayGrows(env.pollMs, 0.8, JitterFactor(random));
    DelayGrows(env.pollMs, JitterFactor(random), 1.2);
  }

  /** The delay grows with the random number: it is the shortest at nought, the poll interval itself halfway, and
      the longest at one. */
  lemma JitterSpans(env: Environment, u: real, v: real)
    requires u <= v
    ensures JitteredDelay(env.pollMs, u) <= JitteredDelay(env.pollMs, v)
    ensures u <= 0.0 ==> JitteredDelay(env.pollMs, u) == ShortestDelay(env)
    ensures u == 0.5 ==> JitteredDelay(env.pollMs, u) == env.pollMs
    ensures 1.0 <= u ==> JitteredDelay(env.pollMs, u) == LongestDelay(env)
  {
    FactorGrows(u, v);
    DelayGrows(env.pollMs, JitterFactor(u), JitterFactor(v));
  }

  // ----- One slot -----

  /** In a pass that is still looking: the slots consumed so far did not work, and every lane set aside
      had its fruitless run among them. */
  ghost predicate Looking(p: Pass) {
    && p.scanned <= |p.state.trace|
    && (forall r :: |p.state.trace| - p.scanned <= r < |p.state.trace| ==> IsSlot(p.state.trace[r]) && !IsJob(p.state.trace[r]))
    && (forall w :: w in p.unavailable <==> FruitlessWithin(p, w))
    && BeginsAfresh(p.state.trace, |p.state.trace| - p.scanned)
  }

  /** Before a pass begins, a lane has worked or the loop has slept, unless it is the first. */
  ghost predicate BeginsAfresh(trace: seq<Event>, b: nat)
    requires b <= |trace|
  {
    b == 0 || !IsSlot(trace[b - 1]) || IsJob(trace[b - 1])
  }

  ghost predicate FruitlessWithin(p: Pass, w: WorkClass)
    requires p.scanned <= |p.state.trace|
  {
    exists q :: |p.state.trace| - p.scanned <= q < |p.state.trace| && Fruitless(p.state.trace[q], w)
  }

  ghost predicate Midway(env: Environment, p: Pass) {
    && p.scanned <= 6 && Sound(env, p.state)
    && (!p.processed && !p.state.fatal ==> Looking(p))
    && (p.processed ==> BeginsAfresh(p.state.trace, |p.state.trace|))
  }

  /** The state after a slot whose attempt was logged. */
  lemma SlotIsSound(env: Environment, s: State, t: State, w: WorkClass, attempt: Attempt)
    requires Sound(env, s) && s.cursor < 6 && w == WORK_SLOTS[s.cursor]
    requires t.trace == s.trace + [Slot(w, attempt)] && t.cursor == (s.cursor + 1) % 6
    requires t.cooldownUntil == if attempt.Broke? then s.cooldownUntil.Set(w, attempt.until) else s.cooldownUntil
    requires t.signals == s.signals && |SlotClasses(s.trace)| < s.signals && |SlotClasses(s.trace)| < env.life
    requires t.runs == s.runs + if IsRun(Slot(w, attempt)) then 1 else 0
    requires !s.fatal && (t.fatal <==> IsFatal(Slot(w, attempt))) && Lawful(env, t.trace, |s.trace|)
    ensures Sound(env, t)
  {
    ReadingsExtend(s.trace, Slot(w, attempt));
    LawExtends(env, s.trace, Slot(w, attempt));
  }

  lemma StillLooking(p: Pass, q: Pass, w: WorkClass, attempt: Attempt)
    requires Looking(p) && q.scanned == p.scanned + 1
    requires q.state.trace == p.state.trace + [Slot(w, attempt)] && !IsJob(Slot(w, attempt))
    requires q.unavailable == if Fruitless(Slot(w, attempt), w) then p.unavailable + {w} else p.unavailable
    ensures Looking(q)
  {
    var n := |p.state.trace|;
    assert q.state.trace[n] == Slot(w, attempt) && forall r :: 0 <= r < n ==> q.state.trace[r] == p.state.trace[r];
    forall v
      ensures FruitlessWithin(q, v) <==> FruitlessWithin(p, v) || Fruitless(Slot(w, attempt), v)
    {
      if FruitlessWithin(p, v) {
        var i :| n - p.scanned <= i < n && Fruitless(p.state.trace[i], v);
        assert Fruitless(q.state.trace[i], v);
      }
      if Fruitless(Slot(w, attempt), v) {
        assert Fruitless(q.state.trace[n], v);
      }
    }
  }

  lemma SetAsideWentWithout(p: Pass, w: WorkClass, trace: seq<Event>)
    requires Looking(p) && p.scanned < 6 && w in p.unavailable
    requires |trace| == |p.state.trace| + 1 && trace[..|p.state.trace|] == p.state.trace
    ensures WentWithout(trace, |p.state.trace|, w)
  {
    assert FruitlessWithin(p, w);
    var q :| |p.state.trace| - p.scanned <= q < |p.state.trace| && Fruitless(p.state.trace[q], w);
    assert forall r :: 0 <= r < |p.state.trace| ==> trace[r] == p.state.trace[r];
  }

  lemma OthersDidNotGoWithout(p: Pass, w: WorkClass, trace: seq<Event>)
    requires Looking(p) && w !in p.unavailable
    requires |trace| == |p.state.trace| + 1 && trace[..|p.state.trace|] == p.state.trace
    ensures !WentWithout(trace, |p.state.trace|, w)
  {
    var n := |p.state.trace|;
    assert !FruitlessWithin(p, w);
    assert forall r :: 0 <= r < n ==> trace[r] == p.state.trace[r];
    var b := n - p.scanned;
    if 0 < b {
      var last := trace[b - 1];
      assert !IsSlot(last) || IsJob(last);
    }
  }

  lemma AttemptIsLawful(env: Environment, p: Pass, w: WorkClass, attempt: Attempt)
    requires Midway(env, p) && !p.processed && !p.state.fatal && p.scanned < 6 && p.state.cursor < 6
    requires w == WORK_SLOTS[p.state.cursor] && Consumed(env, p).state.trace == p.state.trace + [Slot(w, attempt)]
    ensures Lawful(env, Consumed(env, p).state.trace, |p.state.trace|)
  {
    var trace := Consumed(env, p).state.trace;
    var s := p.state;
    assert trace[..|s.trace|] == s.trace && trace[|s.trace|] == Slot(w, attempt);
    assert s.cooldownUntil.Get(w) == CooldownOf(s.trace, w);
    if attempt.Unavailable? {
      SetAsideWentWithout(p, w, trace);
    } else if env.Enabled(w) {
      OthersDidNotGoWithout(p, w, trace);
    }
    if attempt.Broke? {
      JitterIsBounded(env, env.random(s.randoms));
    }
  }

  lemma ConsumedLogsOneSlot(env: Environment, p: Pass) returns (attempt: Attempt)
    requires p.state.cursor < 6 && !p.processed && !p.state.fatal
    ensures var q, w := Consumed(env, p), WORK_SLOTS[p.state.cursor];
      && q.state.trace == p.state.trace + [Slot(w, attempt)]
      && q.state.cursor == (p.state.cursor + 1) % 6 && q.scanned == p.scanned
      && q.state.cooldownUntil == (if attempt.Broke? then p.state.cooldownUntil.Set(w, attempt.until) else p.state.cooldownUntil)
      && q.processed == IsJob(Slot(w, attempt))
      && q.unavailable == (if Fruitless(Slot(w, attempt), w) then p.unavailable + {w} else p.unavailable)
      && (q.state.fatal <==> IsFatal(Slot(w, attempt))) && q.state.signals == p.state.signals
      && q.state.runs == p.state.runs + (if IsRun(Slot(w, attempt)) then 1 else 0)
  {
    attempt := Consumed(env, p).state.trace[|p.state.trace|].attempt;
  }

  lemma SlotKeepsMidway(env: Environment, p: Pass)
    requires Midway(env, p) && !p.processed && !p.state.fatal && p.scanned < 6 && p.state.cursor < 6
    requires |SlotClasses(p.state.trace)| < p.state.signals && |SlotClasses(p.state.trace)| < env.life
    ensures Midway(env, Consumed(env, p).(scanned := p.scanned + 1))
  {
    var w := WORK_SLOTS[p.state.cursor];
    var attempt := ConsumedLogsOneSlot(env, p);
    var q := Consumed(env, p).(scanned := p.scanned + 1);
    AttemptIsLawful(env, p, w, attempt);
    SlotIsSound(env, p.state, q.state, w, attempt);
    if !q.processed {
      StillLooking(p, q, w, attempt);
    }
  }

  // ----- One pass -----

  lemma SameTraceSameSoundness(env: Environment, p: Pass, q: Pass)
    requires Midway(env, p) && q.(state := p.state) == p
    requires q.state.(signals := p.state.signals) == p.state && p.state.signals <= q.state.signals
    ensures Midway(env, q)
  {
    assert q.state.trace == p.state.trace && q.state.cooldownUntil == p.state.cooldownUntil;
    forall w
      ensures p.scanned <= |p.state.trace| ==> (FruitlessWithin(q, w) <==> FruitlessWithin(p, w))
    {
    }
  }

  lemma NextSlotKeepsMidway(env: Environment, p: Pass)
    requires Midway(env, p) && Scanning(p) && p.state.cursor < 6 && !env.Aborted(p.state.signals)
    ensures Midway(env, NextSlot(env, p))
  {
    SameTraceSameSoundness(env, p, SignalRead(p));
    SlotKeepsMidway(env, SignalRead(p));
  }

  /** A pass ends with work, a fatal failure, all six slots consumed, or the signal raised. */
  lemma {:induction false} ScanIsSound(env: Environment, p: Pass)
    requires Midway(env, p) && p.state.cursor < 6
    ensures Midway(env, Scanned(env, p))
    ensures !Scanning(Scanned(env, p)) || env.Aborted(Scanned(env, p).state.signals)
    decreases 6 - p.scanned
  {
    if !Scanning(p) {
    } else if env.Aborted(p.state.signals) {
      SameTraceSameSoundness(env, p, SignalRead(p));
    } else {
      NextSlotKeepsMidway(env, p);
      ScanIsSound(env, NextSlot(env, p));
    }
  }

  // ----- Sleeping -----

  predicate CoolingIn(env: Environment, s: State, w: WorkClass, at: real) {
    env.Enabled(w) && at < s.cooldownUntil.Get(w)
  }

  /** Shortening by a list of lanes gives the least of the delay and their remaining cooldowns. */
  lemma {:induction false} ShortenedIsTheLeast(env: Environment, s: State, delay: real, lanes: seq<WorkClass>, at: real)
    ensures var d := ShortenedBy(env, s, delay, lanes, at);
      && d <= delay
      && (forall w :: w in lanes && CoolingIn(env, s, w, at) ==> d <= s.cooldownUntil.Get(w) - at)
      && (d == delay || exists w :: CoolingIn(env, s, w, at) && d == s.cooldownUntil.Get(w) - at)
  {
    if lanes != [] {
      var init, last := lanes[..|lanes| - 1], lanes[|lanes| - 1];
      ShortenedIsTheLeast(env, s, delay, init, at);
      assert lanes == init + [last];
    }
  }

  lemma {:induction false} CoolingAgrees(env: Environment, s: State, w: WorkClass, at: real)
    requires CooldownsTraced(s)
    ensures CoolingIn(env, s, w, at) <==> CoolingAt(env, s.trace, w, at)
    ensures s.cooldownUntil.Get(w) == CooldownOf(s.trace, w)
  {
  }

  lemma {:induction false} SleepMeetsItsBounds(env: Environment, s: State, jitter: real, d: real, at: real)
    requires CooldownsTraced(s) && jitter <= LongestDelay(env) as real && ShortestDelay(env) as real <= jitter
    requires d == ShortenedBy(env, s, jitter, [Text, Portrait, Mesh], at)
    ensures SleepIsRight(env, s.trace, Max(1.0, d), at)
  {
    var lanes := [Text, Portrait, Mesh];
    ShortenedIsTheLeast(env, s, jitter, lanes, at);
    forall w | CoolingAt(env, s.trace, w, at)
      ensures at + Max(1.0, d) < CooldownOf(s.trace, w) + 1.0
    {
      CoolingAgrees(env, s, w, at);
      assert w in lanes by { assert lanes[0] == Text && lanes[1] == Portrait && lanes[2] == Mesh; }
    }
    if Max(1.0, d) < ShortestDelay(env) as real {
      var w :| CoolingIn(env, s, w, at) && d == s.cooldownUntil.Get(w) - at;
      CoolingAgrees(env, s, w, at);
    }
  }

  lemma RestIsSound(env: Environment, s: State)
    requires Sound(env, s) && !s.fatal && WholeIdlePass(s.trace, |s.trace|)
    ensures Sound(env, Rested(env, s)) && BeginsAfresh(Rested(env, s).trace, |Rested(env, s).trace|)
  {
    var jitter := JitteredDelay(env.pollMs, env.random(s.randoms)) as real;
    var at := env.clock(s.clocks);
    var d := ShortenedBy(env, s, jitter, [Text, Portrait, Mesh], at);
    var e := Slept(Max(1.0, d), at);
    JitterIsBounded(env, env.random(s.randoms));
    SleepMeetsItsBounds(env, s, jitter, d, at);
    assert (s.trace + [e])[..|s.trace|] == s.trace;
    LawExtends(env, s.trace, e);
    ReadingsExtend(s.trace, e);
  }

  // ----- Whole runs -----

  lemma NewPassIsMidway(env: Environment, s: State)
    requires Sound(env, s) && BeginsAfresh(s.trace, |s.trace|)
    ensures Midway(env, NewPass(s))
  {
  }

  lemma IdlePassIsWhole(env: Environment, p: Pass)
    requires Midway(env, p) && !p.processed && !p.state.fatal && !Scanning(p)
    ensures WholeIdlePass(p.state.trace, |p.state.trace|)
    ensures Sound(env, p.state.(signals := p.state.signals + 1))
  {
  }

  /** The run is over, or a new pass may begin. */
  ghost predicate GoesOnAfresh(env: Environment, s: State) {
    s.fatal || env.Aborted(s.signals) || BeginsAfresh(s.trace, |s.trace|)
  }

  lemma PassIsSound(env: Environment, s: State)
    requires Sound(env, s) && s.cursor < 6 && !s.fatal && BeginsAfresh(s.trace, |s.trace|)
    ensures Sound(env, OnePass(env, s)) && GoesOnAfresh(env, OnePass(env, s))
  {
    NewPassIsMidway(env, s);
    ScanIsSound(env, NewPass(s));
    var p := Scanned(env, NewPass(s));
    if !p.processed && !p.state.fatal && !env.Aborted(p.state.signals) {
      IdlePassIsWhole(env, p);
      RestIsSound(env, p.state.(signals := p.state.signals + 1));
    }
  }

  lemma {:induction false} RunIsSound(env: Environment, s: State)
    requires Sound(env, s) && s.cursor < 6 && GoesOnAfresh(env, s)
    ensures Sound(env, Polled(env, s))
    decreases env.life - s.signals
  {
    if !s.fatal {
      var read := s.(signals := s.signals + 1);
      if env.Aborted(s.signals) {
        assert Polled(env, s) == read;
      } else {
        PassIsSound(env, read);
        RunIsSound(env, OnePass(env, read));
        assert Polled(env, s) == Polled(env, OnePass(env, read));
      }
    }
  }

  /** Every event of every run obeys the law of its kind, and the slots come round in the fixed order. */
  lemma {:induction false} EveryRunIsSound(env: Environment)
    ensures Sound(env, Polled(env, START))
  {
    RunIsSound(env, START);
  }

  // ----- Fairness -----

  /** The lane is ready over a stretch: enabled, off cooldown, and it always has work. */
  ghost predicate Ready(trace: seq<Event>, w: WorkClass, from: nat, end: nat)
    requires end <= |trace|
  {
    forall r :: from <= r < end && trace[r].Slot? && trace[r].workClass == w ==>
      trace[r].attempt == Unavailable || IsJob(trace[r])
  }

  /** The event at `r` consumed the slot whose turn it is after `k` slots. */
  ghost predicate Consumes(trace: seq<Event>, r: nat, k: nat) {
    r < |trace| && trace[r].Slot? && trace[r].workClass == SlotClass(k)
  }

  function SlotsBefore(trace: seq<Event>, r: nat): nat
    requires r <= |trace|
  {
    |SlotClasses(trace[..r])|
  }

  lemma {:induction false} ClassesOfAPrefix(trace: seq<Event>, n: nat)
    requires n <= |trace|
    ensures |SlotClasses(trace[..n])| <= |SlotClasses(trace)|
    ensures forall k :: 0 <= k < |SlotClasses(trace[..n])| ==> SlotClasses(trace[..n])[k] == SlotClasses(trace)[k]
    decreases |trace|
  {
    if n < |trace| {
      ClassesOfAPrefix(trace[..|trace| - 1], n);
      assert trace[..|trace| - 1][..n] == trace[..n];
    } else {
      assert trace[..n] == trace;
    }
  }

  /** Each slot event consumes the slot whose turn it is. */
  lemma SlotTakesItsTurn(s: State, r: nat)
    requires InCycle(s) && r < |s.trace| && s.trace[r].Slot?
    ensures Consumes(s.trace, r, SlotsBefore(s.trace, r)) && SlotsBefore(s.trace, r + 1) == SlotsBefore(s.trace, r) + 1
  {
    ClassesOfAPrefix(s.trace, r + 1);
    var n := SlotsBefore(s.trace, r);
    assert s.trace[..r + 1][..r] == s.trace[..r];
    assert SlotClasses(s.trace[..r + 1]) == SlotClasses(s.trace[..r]) + [s.trace[r].workClass];
    assert SlotClasses(s.trace[..r + 1])[n] == s.trace[r].workClass;
  }

  /** In a stretch of slots without a sleep, the turns are consecutive. */
  lemma {:induction false} StretchFollowsTheCycle(s: State, from: nat, d: nat)
    requires InCycle(s) && from + d < |s.trace| && forall r :: from <= r <= from + d ==> IsSlot(s.trace[r])
    ensures Consumes(s.trace, from + d, SlotsBefore(s.trace, from) + d)
    ensures SlotsBefore(s.trace, from + d + 1) == SlotsBefore(s.trace, from) + d + 1
    decreases d
  {
    SlotTakesItsTurn(s, from + d);
    if 0 < d {
      StretchFollowsTheCycle(s, from, d - 1);
    }
  }

  lemma TurnsRepeat(k: nat)
    ensures SlotClass(k + 6) == SlotClass(k)
  {
    assert (k + 6) % 6 == k % 6;
  }

  /** Every class has its turn within six. */
  lemma {:induction false} ClassComesRound(n: nat, w: WorkClass) returns (d: nat)
    ensures d < 6 && SlotClass(n + d) == w
  {
    if n < 6 {
      var at := match w case Text => 0 case Portrait => 4 case Mesh => 5;
      d := if n <= at then at - n else at + 6 - n;
      TurnsRepeat(at);
    } else {
      d := ClassComesRound(n - 6, w);
      TurnsRepeat(n - 6 + d);
    }
  }

  lemma FruitlessSinceTheJob(trace: seq<Event>, w: WorkClass, i: nat, k: nat) returns (q: nat)
    requires i < k < |trace| && WentWithout(trace, k, w) && IsJob(trace[i])
    ensures i < q < k && Fruitless(trace[q], w)
  {
    q :| q < k < q + 6 && Fruitless(trace[q], w) && forall r :: q <= r < k ==> IsSlot(trace[r]) && !IsJob(trace[r]);
  }

  /** After a job of any lane, a lane that is ready is not set aside before its next slot. */
  lemma ReadySlotIsAJob(env: Environment, trace: seq<Event>, w: WorkClass, i: nat, k: nat, end: nat)
    requires AllLawful(env, trace) && i < k < end <= |trace| && Ready(trace, w, i, end)
    requires IsJob(trace[i]) && trace[k].Slot? && trace[k].workClass == w
    ensures IsJobOf(trace[k], w)
  {
    assert Lawful(env, trace, k);
    if trace[k].attempt == Unavailable {
      var q := FruitlessSinceTheJob(trace, w, i, k);
      assert false;
    }
  }

  lemma NoJobBeforeASleep(env: Environment, trace: seq<Event>, r: nat, i: nat)
    requires AllLawful(env, trace) && r < |trace| && trace[r].Slept? && i < r <= i + 6
    ensures !IsJob(trace[i])
  {
    assert Lawful(env, trace, r);
  }

  /** After a job, no sleep comes before a ready lane has had its slot. */
  lemma NoSleepBeforeTheSlot(env: Environment, trace: seq<Event>, i: nat, r: nat)
    requires AllLawful(env, trace) && i < r < |trace| && r <= i + 6 && IsJob(trace[i])
    ensures IsSlot(trace[r])
  {
    if trace[r].Slept? {
      NoJobBeforeASleep(env, trace, r, i);
      assert false;
    }
  }

  /** The last turn of a class among the `m` turns from `n` on. */
  lemma {:induction false} LastTurn(n: nat, m: nat, w: WorkClass, d: nat) returns (t: nat)
    requires d < m && SlotClass(n + d) == w
    ensures n <= t < n + m && SlotClass(t) == w
    ensures forall u :: t < u < n + m ==> SlotClass(u) != w
    decreases m
  {
    if SlotClass(n + m - 1) == w {
      t := n + m - 1;
    } else {
      t := LastTurn(n, m - 1, w, d);
    }
  }

  /** Every turn taken in a stretch was taken by one of its events. */
  lemma {:induction false} TurnWasTaken(s: State, from: nat, end: nat, t: nat) returns (k: nat)
    requires InCycle(s) && from <= end <= |s.trace| && SlotsBefore(s.trace, from) <= t < SlotsBefore(s.trace, end)
    ensures from <= k < end && s.trace[k].Slot? && SlotsBefore(s.trace, k) == t
    decreases end
  {
    var last := end - 1;
    assert s.trace[..end][..last] == s.trace[..last];
    if s.trace[last].Slot? && SlotsBefore(s.trace, last) == t {
      k := last;
    } else {
      k := TurnWasTaken(s, from, last, t);
    }
  }

  lemma {:induction false} SlotsAreCounted(trace: seq<Event>, n: nat, m: nat)
    requires n <= m <= |trace|
    ensures SlotsBefore(trace, n) <= SlotsBefore(trace, m)
  {
    ClassesOfAPrefix(trace[..m], n);
    assert trace[..m][..n] == trace[..n];
  }

  /** A lane set aside at `k` was fruitless fewer than six turns before. */
  lemma {:induction false} FruitlessTurn(s: State, w: WorkClass, k: nat) returns (q: nat)
    requires InCycle(s) && k < |s.trace| && s.trace[k].Slot? && WentWithout(s.trace, k, w)
    ensures q < k && Fruitless(s.trace[q], w) && SlotClass(SlotsBefore(s.trace, q)) == w
    ensures SlotsBefore(s.trace, k) < SlotsBefore(s.trace, q) + 6
  {
    q :| q < k < q + 6 && Fruitless(s.trace[q], w) && forall r :: q <= r < k ==> IsSlot(s.trace[r]) && !IsJob(s.trace[r]);
    SlotTakesItsTurn(s, q);
    SlotTakesItsTurn(s, k);
    StretchFollowsTheCycle(s, q, k - q);
  }

  /** Of any six consecutive slots, from the start or after any event and with sleeps in between or not,
      a lane that stays ready works one. */
  lemma {:induction false} SixSlotsHoldAJob(env: Environment, s: State, w: WorkClass, from: nat, end: nat) returns (k: nat)
    requires Sound(env, s) && from <= end <= |s.trace| && Ready(s.trace, w, from, end)
    requires SlotsBefore(s.trace, end) == SlotsBefore(s.trace, from) + 6
    ensures from <= k < end && IsJobOf(s.trace[k], w)
  {
    var n := SlotsBefore(s.trace, from);
    var d := ClassComesRound(n, w);
    var t := LastTurn(n, 6, w, d);
    k := TurnWasTaken(s, from, end, t);
    SlotTakesItsTurn(s, k);
    assert Lawful(env, s.trace, k);
    if s.trace[k].attempt == Unavailable {
      var q := FruitlessTurn(s, w, k);
      SlotTakesItsTurn(s, q);
      TurnsRepeat(SlotsBefore(s.trace, q));
      SlotsAreCounted(s.trace, q + 1, from);
    }
  }

  /** A lane that stays ready works again within six slots of any job, and nothing sleeps in between. */
  lemma {:induction false} ReadyLaneRunsWithinSixSlots(
    env: Environment, s: State, w: WorkClass, i: nat, end: nat) returns (k: nat)
    requires Sound(env, s) && i + 7 <= end <= |s.trace|
    requires IsJob(s.trace[i]) && Ready(s.trace, w, i, end)
    ensures i < k <= i + 6 && IsJobOf(s.trace[k], w)
    ensures forall r :: i < r <= i + 6 ==> IsSlot(s.trace[r])
  {
    forall r | i < r <= i + 6
      ensures IsSlot(s.trace[r])
    {
      NoSleepBeforeTheSlot(env, s.trace, i, r);
    }
    StretchFollowsTheCycle(s, i + 1, 5);
    k := SixSlotsHoldAJob(env, s, w, i + 1, i + 7);
  }

  ghost predicate AllReady(trace: seq<Event>, from: nat, end: nat)
    requires end <= |trace|
  {
    Ready(trace, Text, from, end) && Ready(trace, Portrait, from, end) && Ready(trace, Mesh, from, end)
  }

  /** When every lane stays ready, every event after a job is a job. */
  lemma {:induction false} AllReadyAllJobs(env: Environment, trace: seq<Event>, i: nat, end: nat)
    requires AllLawful(env, trace) && i < end <= |trace| && IsJob(trace[i]) && AllReady(trace, i, end)
    ensures forall r :: i <= r < end ==> IsJob(trace[r])
    decreases end
  {
    if i + 1 < end {
      var last := end - 1;
      AllReadyAllJobs(env, trace, i, last);
      NoSleepBeforeTheSlot(env, trace, last - 1, last);
      ReadySlotIsAJob(env, trace, trace[last].workClass, last - 1, last, end);
    }
  }

  function ClassAt(e: Event): WorkClass {
    if e.Slot? then e.workClass else Text
  }

  function ClassesFrom(trace: seq<Event>, from: nat): seq<WorkClass>
    requires from + 6 <= |trace|
  {
    [ClassAt(trace[from]), ClassAt(trace[from + 1]), ClassAt(trace[from + 2]),
     ClassAt(trace[from + 3]), ClassAt(trace[from + 4]), ClassAt(trace[from + 5])]
  }

  function TurnsFrom(n: nat): seq<WorkClass> {
    [SlotClass(n), SlotClass(n + 1), SlotClass(n + 2), SlotClass(n + 3), SlotClass(n + 4), SlotClass(n + 5)]
  }

  lemma RotationKeepsContents(a: WorkClass, shared: seq<WorkClass>)
    ensures multiset([a] + shared) == multiset(shared + [a])
  {
  }

  lemma FirstTurns()
    ensures TurnsFrom(0) == [Text, Text, Text, Text, Portrait, Mesh]
  {
  }

  lemma TurnsShift(n: nat, shared: seq<WorkClass>)
    requires shared == [SlotClass(n + 1), SlotClass(n + 2), SlotClass(n + 3), SlotClass(n + 4), SlotClass(n + 5)]
    ensures TurnsFrom(n) == [SlotClass(n)] + shared && TurnsFrom(n + 1) == shared + [SlotClass(n)]
  {
    TurnsRepeat(n);
  }

  /** Six turns in a row are the whole cycle, from whatever point. */
  lemma {:induction false} SixTurnsAreTheCycle(n: nat)
    ensures multiset(TurnsFrom(n)) == multiset([Text, Text, Text, Text, Portrait, Mesh])
  {
    if n == 0 {
      FirstTurns();
    } else {
      var m := n - 1;
      var shared := [SlotClass(m + 1), SlotClass(m + 2), SlotClass(m + 3), SlotClass(m + 4), SlotClass(m + 5)];
      SixTurnsAreTheCycle(m);
      TurnsShift(m, shared);
      RotationKeepsContents(SlotClass(m), shared);
    }
  }

  lemma SlotTakesTheTurn(s: State, from: nat, d: nat)
    requires InCycle(s) && from + 6 <= |s.trace| && d < 6 && forall r :: from <= r < from + 6 ==> IsSlot(s.trace[r])
    ensures ClassAt(s.trace[from + d]) == SlotClass(SlotsBefore(s.trace, from) + d)
  {
    StretchFollowsTheCycle(s, from, d);
  }

  lemma SixSlotsAreSixTurns(s: State, from: nat)
    requires InCycle(s) && from + 6 <= |s.trace| && forall r :: from <= r < from + 6 ==> IsSlot(s.trace[r])
    ensures ClassesFrom(s.trace, from) == TurnsFrom(SlotsBefore(s.trace, from))
  {
    SlotTakesTheTurn(s, from, 0);
    SlotTakesTheTurn(s, from, 1);
    SlotTakesTheTurn(s, from, 2);
    SlotTakesTheTurn(s, from, 3);
    SlotTakesTheTurn(s, from, 4);
    SlotTakesTheTurn(s, from, 5);
  }

  /** When every lane stays ready, any six events in a row are six jobs: four of text, one portrait, one mesh. */
  lemma SixJobsAreFourOneOne(env: Environment, s: State, i: nat, from: nat, end: nat)
    requires Sound(env, s) && i <= from && from + 6 <= end <= |s.trace|
    requires IsJob(s.trace[i]) && AllReady(s.trace, i, end)
    ensures forall r :: from <= r < from + 6 ==> IsJob(s.trace[r])
    ensures multiset(ClassesFrom(s.trace, from)) == multiset([Text, Text, Text, Text, Portrait, Mesh])
  {
    AllReadyAllJobs(env, s.trace, i, end);
    SixSlotsAreSixTurns(s, from);
    SixTurnsAreTheCycle(SlotsBefore(s.trace, from));
  }
}

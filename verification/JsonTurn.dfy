/** The object that drives one child process, and what it can report for every course of events. */
module JsonTurns {
  import opened Optional
  import opened Texts
  import opened Session
  import opened Framing
  import opened SessionTheorems
  import opened TurnContract

  datatype Outcome = Resolved(result: Result) | Rejected(failure: Failure)

  /** What the caller gets when the child has closed: a failure always wins over a result. */
  function Closed(s: State): Outcome {
    if s.error.Some? then Rejected(s.error.value)
    else if s.result.Some? then Resolved(s.result.value)
    else Rejected(Invalid(false))
  }

  /** A turn that was already aborted writes nothing at all. */
  function Opened(aborted: bool): Stream {
    if aborted then OPENED.(state := Stopped(START.(sent := []), Some(Invalid(false)))) else OPENED
  }

  class JsonTurn {
    const options: Options
    var pending: string
    var eventBytes: nat
    var threadId: string
    var turnId: string
    var expectedResponse: int
    var configuration: Option<set<string>>
    var finalValue: Json
    var finalText: string
    var hasFinal: bool
    var usage: Option<Usage>
    var result: Option<Result>
    var error: Option<Failure>
    var stopping: bool
    var sent: seq<Request>
    ghost var heard: seq<Message>

    ghost function Snapshot(): State
      reads this
    {
      Session.State(expectedResponse, threadId, turnId, configuration,
                    if hasFinal then Some(Final(finalValue, finalText)) else None,
                    usage, result, error, stopping, sent)
    }

    ghost function View(): Stream
      reads this
    {
      Stream(pending, eventBytes, heard, Snapshot())
    }

    constructor (options: Options, aborted: bool)
      ensures this.options == options && View() == Opened(aborted)
    {
      this.options := options;
      pending, eventBytes, threadId, turnId, expectedResponse := "", 0, "", "", 1;
      configuration, finalValue, finalText, hasFinal := None, Null, "", false;
      usage, result, error, stopping, sent, heard := None, None, None, false, [], [];
      new;
      if aborted {
        Stop(Some(Invalid(false)));
      } else {
        Send(1, Initialize);
      }
    }

    method Send(id: int, request: Request)
      modifies this`expectedResponse, this`sent
      ensures Snapshot() == Sending(old(Snapshot()), id, request)
    {
      expectedResponse := id;
      sent := sent + [request];
    }

    method Stop(cause: Option<Failure>)
      modifies this`error, this`stopping
      ensures Snapshot() == Stopped(old(Snapshot()), cause)
    {
      if cause.Some? && error.None? { error := cause; }
      stopping := true;
    }

    /** The failure a handler throws, with the state it leaves behind. */
    ghost predicate Outcome(before: Handled, failure: Option<Failure>)
      reads this
    {
      match before
      case Done(state) => failure.None? && Snapshot() == state
      case Thrown(state, cause) => failure == Some(cause) && Snapshot() == state
    }

    method HandleReply(id: int, reply: Reply) returns (failure: Option<Failure>)
      modifies this
      ensures Outcome(AfterReply(options, old(Snapshot()), id, reply), failure)
      ensures pending == old(pending) && eventBytes == old(eventBytes) && heard == old(heard)
    {
      failure := None;
      if id == 1 {
        if reply.codexHome != Some(options.home) { return Some(Authentication); }
        sent := sent + [Initialized];
        Send(4, ReadConfig);
      } else if id == 4 {
        if !ConfigAccepted(reply) { return Some(Invalid(true)); }
        configuration := Some(reply.config.servers);
        if !reply.featuresOff { return Some(Invalid(true)); }
        if !reply.overridesOff { return Some(Invalid(true)); }
        Send(5, ReadRequirements);
      } else if id == 5 {
        if configuration.None? || !RequirementsAccepted(reply.requirements) { return Some(Invalid(true)); }
        Send(2, StartThread(configuration.value));
      } else if id == 2 {
        if !ThreadAccepted(options, reply) { return Some(Invalid(true)); }
        threadId := reply.threadId.value;
        Send(6, ListServers(threadId));
      } else if id == 6 {
        if threadId == "" || !ServersAccepted(reply) { return Some(Invalid(true)); }
        Send(3, StartTurn(threadId, options.input));
      } else if id == 3 {
        if reply.turnId.None? || !IsId(reply.turnId.value) || (turnId != "" && reply.turnId.value != turnId) {
          return Some(Invalid(false));
        }
        turnId := reply.turnId.value;
      } else {
        return Some(Invalid(false));
      }
    }

    method HandleUsage(m: Message) returns (failure: Option<Failure>)
      requires m.Message? && m.params.Some?
      modifies this`usage
      ensures Outcome(AfterUsage(options, old(Snapshot()), m), failure)
    {
      failure := None;
      if m.verb == Named("thread/tokenUsage/updated") && options.requireUsage {
        var params := m.params.value;
        if threadId == "" || params.threadId != Some(threadId) || turnId == "" || params.turnId != Some(turnId)
           || params.totals.None? || params.totals.value.input.None? || params.totals.value.output.None?
        {
          return Some(Invalid(false));
        }
        var total := Usage(params.totals.value.input.value, params.totals.value.output.value);
        if usage.Some? && (total.input < usage.value.input || total.output < usage.value.output) {
          return Some(Invalid(false));
        }
        usage := Some(total);
      }
    }

    method HandleTurn(m: Message) returns (failure: Option<Failure>)
      requires m.Message? && m.params.Some?
      modifies this`turnId
      ensures Outcome(AfterTurn(old(Snapshot()), m), failure)
    {
      failure := None;
      if NamesATurn(m) {
        var id := TurnNamed(m);
        if threadId == "" || m.params.value.threadId != Some(threadId) || id.None? || !IsId(id.value)
           || (turnId != "" && turnId != id.value)
        {
          return Some(Invalid(false));
        }
        turnId := id.value;
      }
    }

    method HandleItem(m: Message) returns (failure: Option<Failure>)
      requires m.Message? && m.params.Some?
      modifies this`finalValue, this`finalText, this`hasFinal
      ensures Outcome(AfterItem(options, old(Snapshot()), m), failure)
    {
      failure := None;
      if NamesAnItem(m) {
        if m.params.value.item.None? || !Passive(m.params.value.item.value.kind) { return Some(Invalid(false)); }
        var item := m.params.value.item.value;
        if m.verb == Named("item/completed") && item.kind == "agentMessage" && !item.commentary {
          if hasFinal || item.text.None? || ByteLength(item.text.value) > options.maxOutputBytes {
            return Some(Invalid(false));
          }
          var value := options.parseValue(item.text.value);
          if value.None? { return Some(Invalid(false)); }
          finalValue, finalText, hasFinal := value.value, item.text.value, true;
        }
      }
    }

    method HandleCompletion(m: Message) returns (failure: Option<Failure>)
      requires m.Message? && m.params.Some?
      modifies this`result, this`error, this`stopping
      ensures Outcome(AfterCompletion(options, old(Snapshot()), m), failure)
    {
      failure := None;
      if m.verb == Named("turn/completed") {
        var turn := m.params.value.turn;
        if expectedResponse != 0 || turn.None? || !turn.value.completed || turn.value.failed || !hasFinal
           || (options.requireUsage && usage.None?)
        {
          return Some(Invalid(false));
        }
        result := Some(Result(finalValue, finalText, threadId, turnId, usage));
        Stop(None);
      }
    }

    /** Usage, turn and item, in that order. */
    method HandleProgress(m: Message) returns (failure: Option<Failure>)
      requires m.Message? && m.params.Some?
      modifies this`usage, this`turnId, this`finalValue, this`finalText, this`hasFinal
      ensures Outcome(BeforeCompletion(options, old(Snapshot()), m), failure)
    {
      failure := HandleUsage(m);
      if failure.Some? { return; }
      failure := HandleTurn(m);
      if failure.Some? { return; }
      failure := HandleItem(m);
    }

    method HandleNotification(m: Message) returns (failure: Option<Failure>)
      requires m.Message?
      modifies this
      ensures Outcome(AfterNotification(options, old(Snapshot()), m), failure)
      ensures pending == old(pending) && eventBytes == old(eventBytes) && heard == old(heard)
    {
      if !m.verb.Named? || m.params.None? { return Some(Invalid(false)); }
      if m.verb == Named("model/rerouted") { return Some(Invalid(false)); }
      failure := HandleProgress(m);
      if failure.Some? { return; }
      failure := HandleCompletion(m);
    }

    method HandleMessage(m: Message) returns (failure: Option<Failure>)
      modifies this
      ensures Outcome(Handle(options, old(Snapshot()), m), failure)
      ensures pending == old(pending) && eventBytes == old(eventBytes) && heard == old(heard)
    {
      if m.NotARecord? || m.failed || (m.id != NoId && Truthy(m.verb)) { return Some(Invalid(false)); }
      if m.id != NoId {
        if m.id != Numbered(expectedResponse) || m.result.None? { return Some(Invalid(false)); }
        expectedResponse := 0;
        failure := HandleReply(m.id.n, m.result.value);
      } else {
        failure := HandleNotification(m);
      }
    }

    /** Hand over one line. */
    method OnLine(line: string)
      requires !stopping
      modifies this
      ensures View() == TakeLine(options, old(View()), line)
    {
      if Blank(line) { return; }
      var message := options.parse(line);
      if message.None? {
        Stop(Some(Invalid(false)));
        return;
      }
      var failure := HandleMessage(message.value);
      heard := heard + [message.value];
      if failure.Some? { Stop(failure); }
    }

    /** Hand over the pending lines one by one until the session stops. */
    method Drain()
      modifies this
      ensures View() == Drained(options, old(View()))
    {
      var newline := NewlineAt(pending);
      while !stopping && newline < |pending|
        invariant newline == NewlineAt(pending)
        invariant Drained(options, View()) == Drained(options, old(View()))
        decreases |pending|
      {
        var line := pending[..newline];
        pending := pending[newline + 1..];
        OnLine(line);
        newline := NewlineAt(pending);
      }
    }

    method Receive(chunk: string)
      modifies this`eventBytes, this`pending
      ensures View() == Received(old(View()), chunk)
    {
      eventBytes, pending := eventBytes + ByteLength(chunk), pending + chunk;
    }

    method OnData(chunk: string)
      modifies this
      ensures View() == Happened(options, old(View()), Data(chunk))
    {
      if stopping { return; }
      Receive(chunk);
      if eventBytes > EVENT_CEILING || ByteLength(pending) > PENDING_CEILING {
        Stop(Some(Invalid(false)));
        return;
      }
      Drain();
    }

    method OnTimeout()
      modifies this`error, this`stopping
      ensures View() == Happened(options, old(View()), TimedOut)
    {
      Stop(Some(Timeout));
    }

    method OnAbort()
      modifies this`error, this`stopping
      ensures View() == Happened(options, old(View()), Aborted)
    {
      Stop(Some(Invalid(false)));
    }

    method OnError()
      modifies this`error
      ensures View() == Happened(options, old(View()), SpawnFailed)
    {
      error := Some(Invalid(true));
    }

    method OnClose() returns (outcome: Outcome)
      ensures outcome == Closed(Snapshot())
    {
      if error.Some? { return Rejected(error.value); }
      if result.Some? { return Resolved(result.value); }
      outcome := Rejected(Invalid(false));
    }
  }

  // ----- Every course of events -----

  datatype Event = Data(chunk: string) | TimedOut | Aborted | SpawnFailed

  function Happened(options: Options, s: Stream, e: Event): Stream {
    match e
    case Data(chunk) => Fed(options, s, chunk)
    case TimedOut => s.(state := Stopped(s.state, Some(Timeout)))
    case Aborted => s.(state := Stopped(s.state, Some(Invalid(false))))
    case SpawnFailed => s.(state := s.state.(error := Some(Invalid(true))))
  }

  /** A turn after these events. */
  function After(options: Options, aborted: bool, events: seq<Event>): Stream {
    if events == [] then Opened(aborted)
    else Happened(options, After(options, aborted, events[..|events| - 1]), events[|events| - 1])
  }

  /** The two sessions differ at most in how they failed or stopped. */
  ghost predicate SameProgress(s: State, t: State) {
    && s.(error := None, stopping := false) == t.(error := None, stopping := false)
    && (!s.stopping ==> !t.stopping)
  }

  /** Two handlings that agree on whether they were refused, and on everything but failures. */
  ghost predicate SameHandling(a: Handled, b: Handled) {
    a.Done? == b.Done? && SameProgress(a.state, b.state)
  }

  lemma EarlyReplyIgnoresFailures(options: Options, s: State, t: State, id: int, r: Reply)
    requires SameProgress(s, t) && (id == 1 || id == 4 || id == 5)
    ensures SameHandling(AfterReply(options, s, id, r), AfterReply(options, t, id, r))
  {
  }

  lemma LateReplyIgnoresFailures(options: Options, s: State, t: State, id: int, r: Reply)
    requires SameProgress(s, t) && id != 1 && id != 4 && id != 5
    ensures SameHandling(AfterReply(options, s, id, r), AfterReply(options, t, id, r))
  {
  }

  lemma ReplyIgnoresFailures(options: Options, s: State, t: State, id: int, r: Reply)
    requires SameProgress(s, t)
    ensures SameHandling(AfterReply(options, s, id, r), AfterReply(options, t, id, r))
  {
    if id == 1 || id == 4 || id == 5 {
      EarlyReplyIgnoresFailures(options, s, t, id, r);
    } else {
      LateReplyIgnoresFailures(options, s, t, id, r);
    }
  }

  lemma UsageAndTurnIgnoreFailures(options: Options, s: State, t: State, m: Message)
    requires SameProgress(s, t) && m.Message? && m.params.Some?
    ensures SameHandling(AfterUsage(options, s, m), AfterUsage(options, t, m))
    ensures SameHandling(AfterTurn(s, m), AfterTurn(t, m))
  {
  }

  lemma ItemAndCompletionIgnoreFailures(options: Options, s: State, t: State, m: Message)
    requires SameProgress(s, t) && m.Message? && m.params.Some?
    ensures SameHandling(AfterItem(options, s, m), AfterItem(options, t, m))
    ensures SameHandling(AfterCompletion(options, s, m), AfterCompletion(options, t, m))
  {
  }

  lemma NotificationIgnoresFailures(options: Options, s: State, t: State, m: Message)
    requires SameProgress(s, t) && m.Message?
    ensures SameHandling(AfterNotification(options, s, m), AfterNotification(options, t, m))
  {
    if m.params.Some? {
      UsageAndTurnIgnoreFailures(options, s, t, m);
      var s1, t1 := AfterUsage(options, s, m).state, AfterUsage(options, t, m).state;
      UsageAndTurnIgnoreFailures(options, s1, t1, m);
      var s2, t2 := AfterTurn(s1, m).state, AfterTurn(t1, m).state;
      ItemAndCompletionIgnoreFailures(options, s2, t2, m);
      var s3, t3 := AfterItem(options, s2, m).state, AfterItem(options, t2, m).state;
      ItemAndCompletionIgnoreFailures(options, s3, t3, m);
    }
  }

  /** Handling a message never looks at an earlier failure. */
  lemma HandlingIgnoresFailures(options: Options, s: State, t: State, m: Message)
    requires SameProgress(s, t)
    ensures SameHandling(Handle(options, s, m), Handle(options, t, m))
  {
    if m.Message? {
      NotificationIgnoresFailures(options, s, t, m);
      if m.id.Numbered? && m.result.Some? {
        ReplyIgnoresFailures(options, s.(expected := 0), t.(expected := 0), m.id.n, m.result.value);
      }
    }
  }

  // ----- What has been heard accounts for everything -----

  lemma {:induction false} StepsKeepPace(options: Options, s: State, messages: seq<Message>, m: Message)
    requires SameProgress(s, Run(options, messages)) && !s.stopping
    ensures SameProgress(Step(options, s, m), Run(options, messages + [m]))
  {
    assert (messages + [m])[..|messages|] == messages;
    HandlingIgnoresFailures(options, s, Run(options, messages), m);
  }

  /** The stream has heard exactly the messages its session has made progress on. */
  ghost predicate Accounted(options: Options, s: Stream) {
    SameProgress(s.state, Run(options, s.heard))
  }

  lemma LineIsAccounted(options: Options, s: Stream, line: string)
    requires Accounted(options, s)
    ensures Accounted(options, TakeLine(options, s, line))
  {
    if !s.state.stopping && !Blank(line) && options.parse(line).Some? {
      StepsKeepPace(options, s.state, s.heard, options.parse(line).value);
    }
  }

  lemma {:induction false} DrainingIsAccounted(options: Options, s: Stream)
    requires Accounted(options, s)
    ensures Accounted(options, Drained(options, s))
    decreases |s.pending|
  {
    var n := NewlineAt(s.pending);
    if !s.state.stopping && n < |s.pending| {
      LineIsAccounted(options, s.(pending := s.pending[n + 1..]), s.pending[..n]);
      DrainingIsAccounted(options, TakeLine(options, s.(pending := s.pending[n + 1..]), s.pending[..n]));
    }
  }

  lemma FeedingIsAccounted(options: Options, s: Stream, chunk: string)
    requires Accounted(options, s)
    ensures Accounted(options, Fed(options, s, chunk))
  {
    DrainingIsAccounted(options, Received(s, chunk));
  }

  lemma {:induction false} EventsAreAccounted(options: Options, events: seq<Event>)
    ensures Accounted(options, After(options, false, events))
  {
    if events != [] {
      var init, e := events[..|events| - 1], events[|events| - 1];
      EventsAreAccounted(options, init);
      if e.Data? {
        FeedingIsAccounted(options, After(options, false, init), e.chunk);
      }
    }
  }

  /** For every course of events, a value is resolved only when nothing failed and the turn was completed:
      the whole handshake was heard in order, with exactly one final message, on one thread and one turn. */
  lemma ResolvesOnlyACompletedTurn(options: Options, events: seq<Event>) returns (k: nat)
    requires Closed(After(options, false, events).state).Resolved?
    ensures var s := After(options, false, events);
      && s.state.error.None?
      && 0 < k <= |s.heard| && CompletesTheTurn(s.heard[k - 1])
      && Completed(options, s.heard[..k], Closed(s.state).result)
  {
    EventsAreAccounted(options, events);
    k := ResultIsEarned(options, After(options, false, events).heard);
  }

  /** For every course of events, a value is resolved if and only if nothing failed and the child said all it must
      and nothing it may not; and the value is what it answered. */
  lemma ResolvesIff(options: Options, events: seq<Event>, result: Result)
    ensures Closed(After(options, false, events).state) == Resolved(result)
       <==> After(options, false, events).state.error.None? && HasSucceeded(options, After(options, false, events).heard, result)
  {
    EventsAreAccounted(options, events);
    SucceedsIff(options, After(options, false, events).heard, result);
  }

  /** What each event does to the cause of failure: the first cause stands, a timer or an abort is a cause if there is
      none, and only a child that cannot be spawned overrides. */
  lemma {:induction false} FirstCauseStands(options: Options, aborted: bool, events: seq<Event>, e: Event)
    ensures var before, after := After(options, aborted, events).state, After(options, aborted, events + [e]).state;
      && (before.error.Some? && !e.SpawnFailed? && (e.Data? ==> before.stopping) ==> after.error == before.error)
      && (before.error.None? && e.TimedOut? ==> after.error == Some(Timeout) && after.stopping)
      && (before.error.None? && e.Aborted? ==> after.error == Some(Invalid(false)) && after.stopping)
      && (e.SpawnFailed? ==> after.error == Some(Invalid(true)))
  {
    assert (events + [e])[..|events|] == events;
  }

  // ----- A good output is resolved -----

  /** The messages of the lines that are not blank; a line that does not parse ends them. */
  function Spoken(options: Options, lines: seq<string>): seq<Message> {
    if lines == [] then []
    else if Blank(lines[0]) then Spoken(options, lines[1..])
    else match options.parse(lines[0])
      case None => []
      case Some(m) => [m] + Spoken(options, lines[1..])
  }

  function AsData(chunks: seq<string>): seq<Event> {
    seq(|chunks|, i requires 0 <= i < |chunks| => Data(chunks[i]))
  }

  lemma {:induction false} DataIsFed(options: Options, chunks: seq<string>)
    ensures After(options, false, AsData(chunks)) == FedAll(options, chunks)
  {
    if chunks != [] {
      var init := chunks[..|chunks| - 1];
      assert AsData(chunks)[..|chunks| - 1] == AsData(init);
      DataIsFed(options, init);
    }
  }

  lemma {:induction false} StoppedRunStays(options: Options, messages: seq<Message>, more: seq<Message>)
    requires Run(options, messages).stopping
    ensures Run(options, messages + more) == Run(options, messages)
  {
    assert (messages + more)[..|messages|] == messages;
    StoppedKeepsTheResult(options, messages + more, |messages|);
  }

  /** What the session makes of a line that is not blank and parses. */
  lemma LineIsAMessage(options: Options, s: Stream, messages: seq<Message>, line: string)
    requires s.state == Run(options, messages) && !s.state.stopping && !Blank(line) && options.parse(line).Some?
    ensures TakeLine(options, s, line).state == Run(options, messages + [options.parse(line).value])
  {
    var m := options.parse(line).value;
    assert (messages + [m])[..|messages|] == messages;
  }

  lemma SpokenFirst(options: Options, messages: seq<Message>, lines: seq<string>)
    requires lines != [] && !Blank(lines[0]) && options.parse(lines[0]).Some?
    ensures messages + Spoken(options, lines) == (messages + [options.parse(lines[0]).value]) + Spoken(options, lines[1..])
  {
  }

  /** Reading lines is running the messages spoken in them, unless a line that does not parse comes before the
      session stops. */
  lemma {:induction false} LinesRunTheMessages(options: Options, s: Stream, messages: seq<Message>, lines: seq<string>)
    requires s.state == Run(options, messages)
    requires Run(options, messages + Spoken(options, lines)).stopping || OverLines(options, s, lines).state.error.None?
    ensures OverLines(options, s, lines).state == Run(options, messages + Spoken(options, lines))
    decreases |lines|
  {
    assert messages + [] == messages;
    if s.state.stopping {
      StoppedHearsNothing(options, s, lines);
      StoppedRunStays(options, messages, Spoken(options, lines));
    } else if lines != [] {
      var next := TakeLine(options, s, lines[0]);
      if Blank(lines[0]) {
        LinesRunTheMessages(options, next, messages, lines[1..]);
      } else if options.parse(lines[0]).Some? {
        LineIsAMessage(options, s, messages, lines[0]);
        SpokenFirst(options, messages, lines);
        LinesRunTheMessages(options, next, messages + [options.parse(lines[0]).value], lines[1..]);
      } else {
        StoppedHearsNothing(options, next, lines[1..]);
      }
    }
  }

  lemma {:induction false} SuccessStops(options: Options, messages: seq<Message>, result: Result)
    requires HasSucceeded(options, messages, result)
    ensures Run(options, messages).stopping && Run(options, messages).error.None? && Run(options, messages).result == Some(result)
  {
    var k :| 0 <= k <= |messages| && Succeeds(options, messages[..k], result);
    SuccessIsTaken(options, messages[..k], result);
    StoppedKeepsTheResult(options, messages, k);
  }

  /** What the first `n` chunks said, within the ceilings, was a success. */
  ghost predicate SucceedsWithin(options: Options, chunks: seq<string>, n: nat, result: Result) {
    && n <= |chunks| && WithinCeilings(chunks[..n])
    && HasSucceeded(options, Spoken(options, Lines(Joined(chunks[..n]))), result)
  }

  lemma {:induction false} StoppedFeedStays(options: Options, chunks: seq<string>, n: nat)
    requires n <= |chunks| && FedAll(options, chunks[..n]).state.stopping
    ensures FedAll(options, chunks) == FedAll(options, chunks[..n])
    decreases |chunks|
  {
    if n == |chunks| {
      assert chunks[..n] == chunks;
    } else {
      var init := chunks[..|chunks| - 1];
      assert init[..n] == chunks[..n];
      StoppedFeedStays(options, init, n);
    }
  }

  /** A child that says what it must is believed, however its output is cut into chunks. */
  lemma {:induction false} GoodOutputResolves(options: Options, chunks: seq<string>, n: nat, result: Result)
    requires SucceedsWithin(options, chunks, n, result)
    ensures Closed(FedAll(options, chunks).state) == Resolved(result)
  {
    var lines := Lines(Joined(chunks[..n]));
    FramingIsChunkInvariant(options, chunks[..n]);
    SuccessStops(options, Spoken(options, lines), result);
    assert [] + Spoken(options, lines) == Spoken(options, lines);
    LinesRunTheMessages(options, OPENED, [], lines);
    StoppedFeedStays(options, chunks, n);
  }

  lemma ResolvedChunkFits(options: Options, chunks: seq<string>, chunk: string)
    requires WithinCeilings(chunks) && !FedAll(options, chunks).state.stopping
    requires FedAll(options, chunks + [chunk]).state.error.None?
    ensures ChunkFits(Joined(chunks), chunk)
  {
    if !ChunkFits(Joined(chunks), chunk) {
      CeilingsHold(options, chunks, chunk);
    }
  }

  lemma ResolvedLinesAreGood(options: Options, lines: seq<string>, result: Result)
    requires Closed(OverLines(options, OPENED, lines).state) == Resolved(result)
    ensures HasSucceeded(options, Spoken(options, lines), result)
  {
    var spoken := Spoken(options, lines);
    assert [] + spoken == spoken;
    LinesRunTheMessages(options, OPENED, [], lines);
    SucceedsIff(options, spoken, result);
  }

  lemma {:induction false} LastChunkSucceeds(options: Options, chunks: seq<string>, result: Result)
    requires chunks != [] && !FedAll(options, chunks[..|chunks| - 1]).state.stopping
    requires Closed(FedAll(options, chunks).state) == Resolved(result)
    ensures SucceedsWithin(options, chunks, |chunks|, result)
  {
    var init, last := chunks[..|chunks| - 1], chunks[|chunks| - 1];
    assert init + [last] == chunks && chunks[..|chunks|] == chunks;
    RunningIsWithin(options, init);
    ResolvedChunkFits(options, init, last);
    OneMoreFits(chunks);
    FramingIsChunkInvariant(options, chunks);
    ResolvedLinesAreGood(options, Lines(Joined(chunks)), result);
  }

  lemma EarlierSuccess(options: Options, chunks: seq<string>, n: nat, result: Result)
    requires chunks != [] && SucceedsWithin(options, chunks[..|chunks| - 1], n, result)
    ensures SucceedsWithin(options, chunks, n, result)
  {
    assert chunks[..|chunks| - 1][..n] == chunks[..n];
  }

  /** A child that is believed has said what it must. */
  lemma {:induction false} ResolvedOutputIsGood(options: Options, chunks: seq<string>, result: Result)
    requires Closed(FedAll(options, chunks).state) == Resolved(result)
    ensures exists n :: SucceedsWithin(options, chunks, n, result)
  {
    if chunks != [] {
      var init := chunks[..|chunks| - 1];
      if FedAll(options, init).state.stopping {
        ResolvedOutputIsGood(options, init, result);
        var n :| SucceedsWithin(options, init, n, result);
        EarlierSuccess(options, chunks, n, result);
      } else {
        LastChunkSucceeds(options, chunks, result);
      }
    }
  }

  /** A turn that is neither timed out nor aborted resolves with this result if and only if the lines of some of
      its output, within the ceilings, say all the child must and nothing it may not, and come to this result. */
  lemma {:induction false} OutputResolvesIff(options: Options, chunks: seq<string>, result: Result)
    ensures Closed(After(options, false, AsData(chunks)).state) == Resolved(result)
       <==> exists n :: SucceedsWithin(options, chunks, n, result)
  {
    DataIsFed(options, chunks);
    if n :| SucceedsWithin(options, chunks, n, result) {
      GoodOutputResolves(options, chunks, n, result);
    }
    if Closed(FedAll(options, chunks).state) == Resolved(result) {
      ResolvedOutputIsGood(options, chunks, result);
    }
  }

  // ----- What was written -----

  /** For every course of events, the source has been written only if the whole handshake before it was heard. */
  lemma WritesOnlyAfterTheHandshake(options: Options, events: seq<Event>) returns (k: nat)
    requires HandsOver(After(options, false, events).state.sent)
    ensures var heard := After(options, false, events).heard;
      && k <= |heard| && |Replies(heard[..k])| == 5 && Handshake(options, Replies(heard[..k]))
  {
    EventsAreAccounted(options, events);
    k := SourceIsWrittenOnlyAfterTheHandshake(options, After(options, false, events).heard);
  }

  lemma {:induction false} StoppedStaysStopped(options: Options, events: seq<Event>)
    ensures After(options, true, events).state.stopping && After(options, true, events).state.sent == []
    ensures After(options, true, events).state.result.None?
  {
    if events != [] {
      StoppedStaysStopped(options, events[..|events| - 1]);
    }
  }

  /** A turn aborted before it began never writes and never resolves. */
  lemma {:induction false} AbortedTurnsStaySilent(options: Options, events: seq<Event>)
    ensures After(options, true, events).state.sent == [] && Closed(After(options, true, events).state).Rejected?
  {
    StoppedStaysStopped(options, events);
  }
}

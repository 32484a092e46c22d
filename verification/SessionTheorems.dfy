/** What a session can have done, for every output of the child. */
module SessionTheorems {
  import opened Optional
  import opened Texts
  import opened Session

  /** The order in which the replies must arrive. */
  const ORDER: seq<int> := [1, 4, 5, 2, 6, 3]

  // ----- The messages of one kind -----

  /** The messages that satisfy `p`, in order. */
  function Select(messages: seq<Message>, p: Message -> bool): seq<Message> {
    if messages == [] then []
    else
      var last := messages[|messages| - 1];
      Select(messages[..|messages| - 1], p) + if p(last) then [last] else []
  }

  function Replies(messages: seq<Message>): seq<Message> {
    Select(messages, IsReply)
  }

  function Finals(messages: seq<Message>): seq<Message> {
    Select(messages, IsFinal)
  }

  function Usages(messages: seq<Message>): seq<Message> {
    Select(messages, CarriesUsage)
  }

  lemma {:induction false} SelectExtends(messages: seq<Message>, m: Message, p: Message -> bool)
    ensures Select(messages + [m], p) == Select(messages, p) + if p(m) then [m] else []
  {
    assert (messages + [m])[..|messages|] == messages;
  }

  // ----- The handshake -----

  /** The `i`th reply is the one expected then, and passes its checks. */
  ghost predicate ReplyInOrder(options: Options, replies: seq<Message>, i: nat)
    requires i < |replies|
  {
    && i < 6 && replies[i].Message? && replies[i].id == Numbered(ORDER[i])
    && replies[i].result.Some? && Accepts(options, ORDER[i], replies[i].result.value)
  }

  /** The replies heard are the first of the handshake, once each, in order, and each passed its checks. */
  ghost predicate Handshake(options: Options, replies: seq<Message>) {
    forall i {:trigger ReplyInOrder(options, replies, i)} :: 0 <= i < |replies| ==> ReplyInOrder(options, replies, i)
  }

  ghost function ReplyAt(options: Options, replies: seq<Message>, i: nat): (r: Reply)
    requires Handshake(options, replies) && i < |replies|
    ensures i < 6 && Accepts(options, ORDER[i], r)
  {
    assert ReplyInOrder(options, replies, i);
    replies[i].result.value
  }

  /** Everything written to the child once these replies have been accepted. */
  ghost predicate Written(options: Options, replies: seq<Message>, s: State)
    requires Handshake(options, replies)
  {
    var n := |replies|;
    && s.sent ==
       [Initialize]
       + (if n < 1 then [] else [Initialized, ReadConfig])
       + (if n < 2 then [] else [ReadRequirements])
       + (if n < 3 then [] else [StartThread(ReplyAt(options, replies, 1).config.servers)])
       + (if n < 4 then [] else [ListServers(ReplyAt(options, replies, 3).threadId.value)])
       + (if n < 5 then [] else [StartTurn(ReplyAt(options, replies, 3).threadId.value, options.input)])
    && s.expected == (if n < 6 then ORDER[n] else 0)
    && s.configuration == (if n < 2 then None else Some(ReplyAt(options, replies, 1).config.servers))
    && s.threadId == (if n < 4 then "" else ReplyAt(options, replies, 3).threadId.value)
    && (6 <= n ==> ReplyAt(options, replies, 5).turnId == Some(s.turnId))
  }

  // ----- The turn -----

  /** A message that names a turn names this one. */
  ghost predicate OnOwnTurn(s: State, m: Message) {
    && m.Message? && m.params.Some?
    && m.params.value.threadId == Some(s.threadId) && s.threadId != ""
    && TurnNamed(m) == Some(s.turnId) && s.turnId != ""
  }

  ghost predicate AllOnOwnTurn(messages: seq<Message>, s: State) {
    forall i :: 0 <= i < |messages| && NamesATurn(messages[i]) ==> OnOwnTurn(s, messages[i])
  }

  /** The answer remembered is that of the only final message so far. */
  ghost predicate FinalHeard(options: Options, finals: seq<Message>, s: State) {
    && |finals| <= 1
    && (s.final.None? <==> finals == [])
    && (finals != [] ==>
          && IsFinal(finals[0])
          && finals[0].params.value.item.value.text == Some(s.final.value.text)
          && options.parseValue(s.final.value.text) == Some(s.final.value.value)
          && ByteLength(s.final.value.text) <= options.maxOutputBytes)
  }

  ghost predicate UsageIs(m: Message, s: State, u: Usage) {
    && m.Message? && m.params.Some?
    && m.params.value.threadId == Some(s.threadId) && m.params.value.turnId == Some(s.turnId)
    && m.params.value.totals == Some(Totals(Some(u.input), Some(u.output)))
  }

  /** The totals reported never shrank, all of them for this turn, and the last is remembered. */
  ghost predicate UsageHeard(options: Options, usages: seq<Message>, totals: seq<Usage>, s: State) {
    && |totals| == |usages|
    && (forall i :: 0 <= i < |usages| ==> UsageIs(usages[i], s, totals[i]))
    && (forall i, j :: 0 <= i <= j < |totals| ==> totals[i].input <= totals[j].input && totals[i].output <= totals[j].output)
    && s.usage == (if totals == [] then None else Some(totals[|totals| - 1]))
    && (totals != [] ==> s.threadId != "" && s.turnId != "")
  }

  ghost predicate UsageKept(options: Options, messages: seq<Message>, s: State) {
    if options.requireUsage then exists totals :: UsageHeard(options, Usages(messages), totals, s) else s.usage.None?
  }

  /** What is true of a session that is still running after these messages. */
  ghost predicate Running(options: Options, messages: seq<Message>, s: State) {
    && s.error.None? && s.result.None?
    && Handshake(options, Replies(messages)) && Written(options, Replies(messages), s)
    && AllOnOwnTurn(messages, s)
    && FinalHeard(options, Finals(messages), s)
    && UsageKept(options, messages, s)
  }

  // ----- Every message keeps it -----

  lemma StartIsRunning(options: Options)
    ensures Running(options, [], START)
  {
    assert Replies([]) == [] && Finals([]) == [] && Usages([]) == [];
    if options.requireUsage {
      assert UsageHeard(options, Usages([]), [], START);
    }
  }

  lemma HandshakeExtends(options: Options, replies: seq<Message>, m: Message)
    requires Handshake(options, replies)
    requires ReplyInOrder(options, replies + [m], |replies|)
    ensures Handshake(options, replies + [m])
    ensures forall i :: 0 <= i < |replies| ==> ReplyAt(options, replies + [m], i) == ReplyAt(options, replies, i)
    ensures ReplyAt(options, replies + [m], |replies|) == m.result.value
  {
    var all := replies + [m];
    forall i | 0 <= i < |all|
      ensures ReplyInOrder(options, all, i)
    {
      if i < |replies| {
        assert ReplyInOrder(options, replies, i);
      }
    }
  }

  lemma HandshakeIsShort(options: Options, replies: seq<Message>)
    requires Handshake(options, replies)
    ensures |replies| <= 6
  {
    if replies != [] {
      assert ReplyInOrder(options, replies, |replies| - 1);
    }
  }

  /** Only after the whole handshake is no reply expected. */
  lemma ExpectationEnds(options: Options, replies: seq<Message>, s: State)
    requires Handshake(options, replies) && Written(options, replies, s)
    ensures |replies| <= 6 && (s.expected == 0 <==> |replies| == 6)
  {
    HandshakeIsShort(options, replies);
    assert |replies| < 6 ==> ORDER[|replies|] != 0;
  }

  /** A reply that is accepted is the next of the handshake, and the session writes what follows it. */
  lemma ReplyAdvances(options: Options, replies: seq<Message>, s: State, m: Message)
    requires Handshake(options, replies) && Written(options, replies, s)
    requires m.Message? && m.id != NoId && Handle(options, s, m).Done?
    ensures Handshake(options, replies + [m])
    ensures Written(options, replies + [m], Handle(options, s, m).state)
  {
    HandshakeIsShort(options, replies);
    assert |replies| < 6;
    assert ReplyInOrder(options, replies + [m], |replies|);
    HandshakeExtends(options, replies, m);
  }

  lemma OthersAreNotReplies(messages: seq<Message>, m: Message)
    requires !IsReply(m)
    ensures Replies(messages + [m]) == Replies(messages)
  {
    SelectExtends(messages, m, IsReply);
    assert Replies(messages) + [] == Replies(messages);
  }

  lemma ReplyIsNothingElse(options: Options, messages: seq<Message>, s: State, m: Message)
    requires m.Message? && m.id != NoId && Handle(options, s, m).Done?
    ensures !NamesATurn(m) && Finals(messages + [m]) == Finals(messages) && Usages(messages + [m]) == Usages(messages)
    ensures Replies(messages + [m]) == Replies(messages) + [m]
  {
    SelectExtends(messages, m, IsReply);
    SelectExtends(messages, m, IsFinal);
    SelectExtends(messages, m, CarriesUsage);
    assert Finals(messages) + [] == Finals(messages) && Usages(messages) + [] == Usages(messages);
  }

  /** Once a turn has been named, neither the thread nor the turn changes any more. */
  ghost predicate KeepsTheTurn(s: State, t: State) {
    && (s.threadId != "" ==> t.threadId == s.threadId)
    && (s.turnId != "" ==> t.turnId == s.turnId)
  }

  lemma UsageSurvives(options: Options, messages: seq<Message>, more: seq<Message>, s: State, t: State)
    requires UsageKept(options, messages, s) && KeepsTheTurn(s, t) && t.usage == s.usage
    requires Usages(more) == Usages(messages)
    ensures UsageKept(options, more, t)
  {
    if options.requireUsage {
      var totals :| UsageHeard(options, Usages(messages), totals, s);
      assert UsageHeard(options, Usages(more), totals, t);
    }
  }

  lemma TurnsSurvive(messages: seq<Message>, m: Message, s: State, t: State)
    requires AllOnOwnTurn(messages, s) && KeepsTheTurn(s, t)
    requires NamesATurn(m) ==> OnOwnTurn(t, m)
    ensures AllOnOwnTurn(messages + [m], t)
  {
    forall i | 0 <= i < |messages + [m]| && NamesATurn((messages + [m])[i])
      ensures OnOwnTurn(t, (messages + [m])[i])
    {
      if i < |messages| {
        assert OnOwnTurn(s, messages[i]);
      }
    }
  }

  lemma ReplyKeepsTheTurn(options: Options, replies: seq<Message>, s: State, m: Message)
    requires Handshake(options, replies) && Written(options, replies, s)
    requires m.Message? && m.id != NoId && Handle(options, s, m).Done?
    ensures var t := Handle(options, s, m).state;
      KeepsTheTurn(s, t) && t.final == s.final && t.usage == s.usage && t.result == s.result && t.error == s.error && t.stopping == s.stopping
  {
    HandshakeIsShort(options, replies);
  }

  lemma ReplyKeepsRunning(options: Options, messages: seq<Message>, s: State, m: Message)
    requires Running(options, messages, s)
    requires m.Message? && m.id != NoId && Handle(options, s, m).Done?
    ensures Running(options, messages + [m], Handle(options, s, m).state)
  {
    var t := Handle(options, s, m).state;
    ReplyIsNothingElse(options, messages, s, m);
    ReplyAdvances(options, Replies(messages), s, m);
    ReplyKeepsTheTurn(options, Replies(messages), s, m);
    TurnsSurvive(messages, m, s, t);
    UsageSurvives(options, messages, messages + [m], s, t);
  }

  // ----- Notifications -----

  lemma UsageGrows(options: Options, usages: seq<Message>, totals: seq<Usage>, s: State, m: Message)
    requires UsageHeard(options, usages, totals, s) && options.requireUsage
    requires m.Message? && m.params.Some? && CarriesUsage(m) && UsageAccepted(s, m.params.value)
    ensures var t := AfterUsage(options, s, m).state;
      t.usage.Some? && UsageHeard(options, usages + [m], totals + [t.usage.value], t)
  {
  }

  lemma UsageIsHeard(options: Options, messages: seq<Message>, s: State, m: Message)
    requires UsageKept(options, messages, s)
    requires m.Message? && m.params.Some? && AfterUsage(options, s, m).Done?
    ensures UsageKept(options, messages + [m], AfterUsage(options, s, m).state)
  {
    var t := AfterUsage(options, s, m).state;
    SelectExtends(messages, m, CarriesUsage);
    if options.requireUsage && CarriesUsage(m) {
      var totals :| UsageHeard(options, Usages(messages), totals, s);
      UsageGrows(options, Usages(messages), totals, s, m);
      assert UsageHeard(options, Usages(messages + [m]), totals + [t.usage.value], t);
    } else if options.requireUsage {
      assert Usages(messages) + [] == Usages(messages);
      UsageSurvives(options, messages, messages + [m], s, t);
    }
  }

  lemma TurnAndAnswerLeaveUsage(options: Options, s: State, m: Message)
    requires m.Message? && m.params.Some? && BeforeCompletion(options, s, m).Done?
    ensures AfterUsage(options, s, m).Done?
    ensures KeepsTheTurn(AfterUsage(options, s, m).state, BeforeCompletion(options, s, m).state)
    ensures BeforeCompletion(options, s, m).state.usage == AfterUsage(options, s, m).state.usage
  {
  }

  lemma NotificationKeepsUsage(options: Options, messages: seq<Message>, s: State, m: Message)
    requires UsageKept(options, messages, s)
    requires m.Message? && m.params.Some? && BeforeCompletion(options, s, m).Done?
    ensures UsageKept(options, messages + [m], BeforeCompletion(options, s, m).state)
  {
    TurnAndAnswerLeaveUsage(options, s, m);
    UsageIsHeard(options, messages, s, m);
    UsageSurvives(options, messages + [m], messages + [m], AfterUsage(options, s, m).state, BeforeCompletion(options, s, m).state);
  }

  lemma NotificationKeepsTheTurn(options: Options, s: State, m: Message)
    requires m.Message? && m.params.Some? && BeforeCompletion(options, s, m).Done?
    ensures var t := BeforeCompletion(options, s, m).state;
      && KeepsTheTurn(s, t) && (NamesATurn(m) ==> OnOwnTurn(t, m))
      && t.(turnId := s.turnId, usage := s.usage, final := s.final) == s
  {
  }

  lemma NotificationKeepsTheAnswer(options: Options, messages: seq<Message>, s: State, m: Message)
    requires FinalHeard(options, Finals(messages), s)
    requires m.Message? && m.params.Some? && BeforeCompletion(options, s, m).Done?
    ensures FinalHeard(options, Finals(messages + [m]), BeforeCompletion(options, s, m).state)
  {
    SelectExtends(messages, m, IsFinal);
    assert Finals(messages) + [] == Finals(messages);
  }

  lemma NotificationKeepsRunning(options: Options, messages: seq<Message>, s: State, m: Message)
    requires Running(options, messages, s)
    requires m.Message? && m.id == NoId && m.params.Some? && BeforeCompletion(options, s, m).Done?
    ensures Running(options, messages + [m], BeforeCompletion(options, s, m).state)
  {
    var t := BeforeCompletion(options, s, m).state;
    OthersAreNotReplies(messages, m);
    NotificationKeepsUsage(options, messages, s, m);
    NotificationKeepsTheTurn(options, s, m);
    NotificationKeepsTheAnswer(options, messages, s, m);
    TurnsSurvive(messages, m, s, t);
    WrittenSurvives(options, Replies(messages), s, t);
  }

  lemma WrittenSurvives(options: Options, replies: seq<Message>, s: State, t: State)
    requires Handshake(options, replies) && Written(options, replies, s) && KeepsTheTurn(s, t)
    requires t.(turnId := s.turnId, usage := s.usage, final := s.final) == s
    ensures Written(options, replies, t)
  {
  }

  // ----- Runs -----

  /** A message that is refused writes nothing and settles nothing. */
  lemma RefusalWritesNothing(options: Options, s: State, m: Message)
    requires Handle(options, s, m).Thrown?
    ensures Handle(options, s, m).state.sent == s.sent && Handle(options, s, m).state.result == s.result
  {
  }

  /** The turn was completed as it should be: the handshake and the turn's own reply were heard, one final
      message, everything on one thread and one turn, and usage totals where they are required. */
  ghost predicate Completed(options: Options, messages: seq<Message>, result: Result) {
    exists s ::
      && Running(options, messages, s)
      && |Replies(messages)| == 6
      && |Finals(messages)| == 1
      && result == Result(s.final.value.value, s.final.value.text, s.threadId, s.turnId, s.usage)
      && (options.requireUsage ==> s.usage.Some?)
  }

  lemma CompletionIsEarned(options: Options, messages: seq<Message>, s: State, m: Message)
    requires Running(options, messages, s)
    requires m.Message? && m.id == NoId && m.params.Some? && BeforeCompletion(options, s, m).Done?
    requires Handle(options, s, m).Done? && Handle(options, s, m).state.result.Some?
    ensures Completed(options, messages + [m], Handle(options, s, m).state.result.value) && CompletesTheTurn(m)
  {
    NotificationKeepsRunning(options, messages, s, m);
    var t := BeforeCompletion(options, s, m).state;
    CompletionTakesTheAnswer(options, s, m);
    ExpectationEnds(options, Replies(messages + [m]), t);
  }

  ghost predicate CompletesTheTurn(m: Message) {
    && m.Message? && m.verb == Named("turn/completed")
    && m.params.Some? && m.params.value.turn.Some? && m.params.value.turn.value.completed
  }

  /** What a completion that is not refused takes for the result. */
  lemma CompletionTakesTheAnswer(options: Options, s: State, m: Message)
    requires m.Message? && m.id == NoId && m.params.Some? && BeforeCompletion(options, s, m).Done?
    requires BeforeCompletion(options, s, m).state.result.None?
    requires Handle(options, s, m).Done? && Handle(options, s, m).state.result.Some?
    ensures var t := BeforeCompletion(options, s, m).state;
      && t.expected == 0 && t.final.Some? && (options.requireUsage ==> t.usage.Some?) && CompletesTheTurn(m)
      && Handle(options, s, m).state.result.value == Result(t.final.value.value, t.final.value.text, t.threadId, t.turnId, t.usage)
  {
  }

  lemma HandledReplyIsARecord(options: Options, s: State, m: Message)
    requires Handle(options, s, m).Done?
    ensures m.Message? && (m.id == NoId ==> m.params.Some? && BeforeCompletion(options, s, m).Done?)
  {
  }

  lemma CompletionStops(options: Options, s: State, m: Message)
    requires m.Message? && m.id == NoId && m.params.Some? && BeforeCompletion(options, s, m).Done?
    requires Handle(options, s, m).Done? && !Handle(options, s, m).state.stopping
    ensures Handle(options, s, m).state == BeforeCompletion(options, s, m).state
  {
  }

  lemma MessageKeepsRunning(options: Options, messages: seq<Message>, s: State, m: Message)
    requires Running(options, messages, s) && !s.stopping && !Step(options, s, m).stopping
    ensures Running(options, messages + [m], Step(options, s, m))
  {
    HandledReplyIsARecord(options, s, m);
    if m.id == NoId {
      CompletionStops(options, s, m);
      NotificationKeepsRunning(options, messages, s, m);
    } else {
      ReplyKeepsRunning(options, messages, s, m);
    }
  }

  /** While the session runs, every message heard has kept the whole discipline. */
  lemma {:induction false} RunKeepsRunning(options: Options, messages: seq<Message>)
    requires !Run(options, messages).stopping
    ensures Running(options, messages, Run(options, messages))
  {
    if messages == [] {
      StartIsRunning(options);
    } else {
      var init, m := messages[..|messages| - 1], messages[|messages| - 1];
      var s := Run(options, init);
      RunKeepsRunning(options, init);
      assert messages == init + [m];
      MessageKeepsRunning(options, init, s, m);
    }
  }

  lemma ResultComesFromACompletion(options: Options, messages: seq<Message>, s: State, m: Message)
    requires Running(options, messages, s) && Step(options, s, m).result.Some?
    requires !s.stopping
    ensures Completed(options, messages + [m], Step(options, s, m).result.value) && CompletesTheTurn(m)
  {
    if Handle(options, s, m).Thrown? {
      RefusalWritesNothing(options, s, m);
    } else {
      HandledReplyIsARecord(options, s, m);
      if m.id != NoId {
        ReplyKeepsTheTurn(options, Replies(messages), s, m);
      }
      CompletionIsEarned(options, messages, s, m);
    }
  }

  /** A session that has a result completed its turn, at the message that stopped it. */
  lemma {:induction false} ResultIsEarned(options: Options, messages: seq<Message>) returns (k: nat)
    requires Run(options, messages).result.Some?
    ensures 0 < k <= |messages| && CompletesTheTurn(messages[k - 1])
    ensures Completed(options, messages[..k], Run(options, messages).result.value)
  {
    var init, m := messages[..|messages| - 1], messages[|messages| - 1];
    assert messages == init + [m];
    var s := Run(options, init);
    if s.stopping {
      k := ResultIsEarned(options, init);
      assert messages[..k] == init[..k];
    } else {
      k := |messages|;
      assert messages[..k] == messages;
      RunKeepsRunning(options, init);
      ResultComesFromACompletion(options, init, s, m);
    }
  }

  ghost predicate HandsOver(sent: seq<Request>) {
    exists i :: 0 <= i < |sent| && sent[i].StartTurn?
  }

  lemma HandoverIsFifth(options: Options, replies: seq<Message>, s: State)
    requires Handshake(options, replies) && Written(options, replies, s)
    ensures HandsOver(s.sent) <==> 5 <= |replies|
    ensures forall i :: 0 <= i < |s.sent| && s.sent[i].StartTurn? ==>
      5 <= |replies| && i == 6 && s.sent[i] == StartTurn(ReplyAt(options, replies, 3).threadId.value, options.input)
  {
    if 5 <= |replies| {
      assert s.sent[6].StartTurn?;
    }
  }

  lemma NotificationsWriteNothing(options: Options, s: State, m: Message)
    requires m.Message? && m.id == NoId
    ensures Handle(options, s, m).state.sent == s.sent
  {
  }

  lemma LaterMessagesWriteNothing(options: Options, replies: seq<Message>, s: State, m: Message)
    requires Handshake(options, replies) && Written(options, replies, s) && 5 <= |replies|
    ensures Step(options, s, m).sent == s.sent
  {
    if Handle(options, s, m).Thrown? {
      RefusalWritesNothing(options, s, m);
    } else {
      HandledReplyIsARecord(options, s, m);
      if m.id == NoId {
        NotificationsWriteNothing(options, s, m);
      } else {
        HandshakeIsShort(options, replies);
      }
    }
  }

  lemma HandoverIsEarned(options: Options, messages: seq<Message>, s: State, m: Message)
    requires Running(options, messages, s) && !s.stopping
    requires !HandsOver(s.sent) && HandsOver(Step(options, s, m).sent)
    ensures Handshake(options, Replies(messages + [m])) && |Replies(messages + [m])| == 5
    ensures forall i :: 0 <= i < |Step(options, s, m).sent| && Step(options, s, m).sent[i].StartTurn? ==>
      i == 6 && Step(options, s, m).sent[i] == StartTurn(ReplyAt(options, Replies(messages + [m]), 3).threadId.value, options.input)
  {
    HandoverIsFifth(options, Replies(messages), s);
    if Handle(options, s, m).Thrown? {
      RefusalWritesNothing(options, s, m);
    } else {
      HandledReplyIsARecord(options, s, m);
      if m.id == NoId {
        NotificationsWriteNothing(options, s, m);
      } else {
        ReplyKeepsRunning(options, messages, s, m);
        ReplyIsNothingElse(options, messages, s, m);
        HandoverIsFifth(options, Replies(messages + [m]), Step(options, s, m));
      }
    }
  }

  lemma {:induction false} HandedOverOnce(options: Options, messages: seq<Message>, m: Message)
    requires HandsOver(Run(options, messages).sent)
    ensures Step(options, Run(options, messages), m).sent == Run(options, messages).sent
  {
    var s := Run(options, messages);
    if !s.stopping {
      RunKeepsRunning(options, messages);
      HandoverIsFifth(options, Replies(messages), s);
      LaterMessagesWriteNothing(options, Replies(messages), s, m);
    }
  }

  /** The source is handed over at most once, and only after replies 1, 4, 5, 2 and 6 have each arrived
      once, in that order, and passed their checks: at the message where the fifth does. */
  lemma {:induction false} SourceIsWrittenOnlyAfterTheHandshake(options: Options, messages: seq<Message>) returns (k: nat)
    requires HandsOver(Run(options, messages).sent)
    ensures 0 < k <= |messages| && !HandsOver(Run(options, messages[..k - 1]).sent)
    ensures Handshake(options, Replies(messages[..k])) && |Replies(messages[..k])| == 5
    ensures forall i :: 0 <= i < |Run(options, messages).sent| && Run(options, messages).sent[i].StartTurn? ==>
      i == 6 && Run(options, messages).sent[i] == StartTurn(ReplyAt(options, Replies(messages[..k]), 3).threadId.value, options.input)
  {
    var init, m := messages[..|messages| - 1], messages[|messages| - 1];
    assert messages == init + [m];
    var s := Run(options, init);
    if HandsOver(s.sent) {
      k := SourceIsWrittenOnlyAfterTheHandshake(options, init);
      assert messages[..k] == init[..k] && messages[..k - 1] == init[..k - 1];
      HandedOverOnce(options, init, m);
    } else {
      k := |messages|;
      assert messages[..k] == messages && messages[..k - 1] == init;
      RunKeepsRunning(options, init);
      HandoverIsEarned(options, init, s, m);
    }
  }
}

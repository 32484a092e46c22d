/** What the child must say for a turn to succeed, message by message and with no state machine, and why the
    session accepts exactly that. */
module TurnContract {
  import opened Optional
  import opened Texts
  import opened Session
  import opened SessionTheorems

  // ----- What has been said -----

  /** The thread the child has opened: the fourth reply names it. */
  ghost predicate OpenedThread(heard: seq<Message>, id: string) {
    && 4 <= |Replies(heard)| && Replies(heard)[3].Message? && Replies(heard)[3].result.Some?
    && Replies(heard)[3].result.value.threadId == Some(id)
  }

  /** The turn a message names, if it names one. */
  function TurnIn(m: Message): Option<string> {
    if m.NotARecord? then None
    else if m.id != NoId then (if m.id == Numbered(3) && m.result.Some? then m.result.value.turnId else None)
    else if m.params.None? then None
    else if m.verb == Named("item/started") || m.verb == Named("item/completed") then m.params.value.turnId
    else if (m.verb == Named("turn/started") || m.verb == Named("turn/completed")) && m.params.value.turn.Some?
    then m.params.value.turn.value.id
    else None
  }

  ghost predicate NamedTurn(heard: seq<Message>, id: string) {
    exists i :: 0 <= i < |heard| && TurnIn(heard[i]) == Some(id)
  }

  /** A completed message of the agent that is not commentary. */
  predicate Answers(m: Message) {
    && m.Message? && m.verb == Named("item/completed") && m.params.Some? && m.params.value.item.Some?
    && m.params.value.item.value.kind == "agentMessage" && !m.params.value.item.value.commentary
  }

  predicate Counts(m: Message) {
    m.Message? && m.verb == Named("thread/tokenUsage/updated")
  }

  // ----- Replies -----

  ghost predicate WellFormedId(id: string) {
    && 0 < |id| <= 200
    && ('a' <= id[0] <= 'z' || 'A' <= id[0] <= 'Z' || '0' <= id[0] <= '9')
    && forall c :: c in id ==> 'a' <= c <= 'z' || 'A' <= c <= 'Z' || '0' <= c <= '9' || c == '.' || c == '_' || c == ':' || c == '-'
  }

  ghost predicate WellFormedServerName(name: string) {
    && 0 < |name| <= 100
    && forall c :: c in name ==> 'a' <= c <= 'z' || 'A' <= c <= 'Z' || '0' <= c <= '9' || c == '_' || c == '-'
  }

  /** The fields the `n`th reply must have. */
  ghost predicate ReplyHolds(options: Options, n: nat, r: Reply) {
    match n
    case 0 => r.codexHome == Some(options.home)
    case 1 =>
      && r.config.isolated && |r.config.servers| <= 256 && (forall name :: name in r.config.servers ==> WellFormedServerName(name))
      && r.featuresOff && r.overridesOff
    case 2 =>
      || r.requirements == NoRequirements
      || r.requirements == Requirements(false, false, None)
      || r.requirements == Requirements(false, false, Some("https://chatgpt.com/backend-api/"))
    case 3 =>
      && r.threadId.Some? && FiveGroups(r.threadId.value)
      && r.model == Some(options.model) && r.provider == Some("openai") && r.readOnly && r.neverAsks
      && (options.requireUsage ==> r.effort == Some(options.effort))
      && (options.serviceTier.Some? ==> r.serviceTier == options.serviceTier)
    case 4 =>
      && r.lastPage && r.servers.Some? && |r.servers.value| <= 256
      && forall i :: 0 <= i < |r.servers.value| ==> r.servers.value[i] == Server(true, Some(0))
    case 5 => r.turnId.Some? && WellFormedId(r.turnId.value)
    case _ => false
  }

  /** The reply is the next of the six, and the last of them names the turn already named. */
  ghost predicate ReplyFits(options: Options, heard: seq<Message>, m: Message)
    requires m.Message?
  {
    var n := |Replies(heard)|;
    && (m.verb == NoMethod || m.verb == Named("") || m.verb == NotAName(false))
    && n < 6 && m.id == Numbered([1, 4, 5, 2, 6, 3][n])
    && m.result.Some? && ReplyHolds(options, n, m.result.value)
    && (n == 5 ==> forall id :: NamedTurn(heard, id) ==> m.result.value.turnId == Some(id))
  }

  // ----- Notifications -----

  ghost predicate OnTheThread(heard: seq<Message>, params: Params) {
    params.threadId.Some? && OpenedThread(heard, params.threadId.value)
  }

  /** The message is about the own thread and names the turn that is already named, or is the first to name one. */
  ghost predicate OnTheTurn(heard: seq<Message>, m: Message)
    requires m.Message? && m.params.Some?
  {
    && OnTheThread(heard, m.params.value)
    && TurnIn(m).Some? && WellFormedId(TurnIn(m).value)
    && forall id :: NamedTurn(heard, id) ==> TurnIn(m) == Some(id)
  }

  /** Running totals of the own turn that are no less than any heard before. */
  ghost predicate UsageFits(heard: seq<Message>, params: Params) {
    && OnTheThread(heard, params)
    && params.turnId.Some? && NamedTurn(heard, params.turnId.value)
    && params.totals.Some? && params.totals.value.input.Some? && params.totals.value.output.Some?
    && forall i :: 0 <= i < |heard| && Counts(heard[i]) ==> NoMoreThan(heard[i], params.totals.value)
  }

  ghost predicate NoMoreThan(m: Message, totals: Totals)
    requires totals.input.Some? && totals.output.Some?
  {
    && m.Message? && m.params.Some? && m.params.value.totals.Some?
    && m.params.value.totals.value.input.Some? && m.params.value.totals.value.input.value <= totals.input.value
    && m.params.value.totals.value.output.Some? && m.params.value.totals.value.output.value <= totals.output.value
  }

  /** The answer is the first, is not too long, and can be parsed. */
  ghost predicate AnswerFits(options: Options, heard: seq<Message>, item: Item) {
    && (forall i :: 0 <= i < |heard| ==> !Answers(heard[i]))
    && item.text.Some? && ByteLength(item.text.value) <= options.maxOutputBytes && options.parseValue(item.text.value).Some?
  }

  /** The turn may end: all six replies are in, it has been answered, it has been counted where it must be, and it
      has completed without an error. */
  ghost predicate EndFits(options: Options, heard: seq<Message>, params: Params) {
    && |Replies(heard)| == 6
    && (exists i :: 0 <= i < |heard| && Answers(heard[i]))
    && (options.requireUsage ==> exists i :: 0 <= i < |heard| && Counts(heard[i]))
    && params.turn.Some? && params.turn.value.completed && !params.turn.value.failed
  }

  ghost predicate NoticeFits(options: Options, heard: seq<Message>, m: Message)
    requires m.Message?
  {
    && m.verb.Named? && m.params.Some? && m.verb.name != "model/rerouted"
    && (m.verb.name == "thread/tokenUsage/updated" && options.requireUsage ==> UsageFits(heard, m.params.value))
    && (m.verb.name in {"turn/started", "turn/completed", "item/started", "item/completed"} ==> OnTheTurn(heard, m))
    && (m.verb.name in {"item/started", "item/completed"} ==>
          m.params.value.item.Some? && m.params.value.item.value.kind in {"userMessage", "agentMessage", "reasoning"})
    && (Answers(m) ==> AnswerFits(options, heard, m.params.value.item.value))
    && (m.verb.name == "turn/completed" ==> EndFits(options, heard, m.params.value))
  }

  /** What the child may say after what it has said. */
  ghost predicate Fits(options: Options, heard: seq<Message>, m: Message) {
    m.Message? && !m.failed && if m.id == NoId then NoticeFits(options, heard, m) else ReplyFits(options, heard, m)
  }

  predicate Ends(m: Message) {
    m.Message? && m.verb == Named("turn/completed")
  }

  /** Every message fits what came before it, and none ends the turn. */
  ghost predicate GoesWell(options: Options, messages: seq<Message>) {
    forall k {:trigger messages[k]} :: 0 <= k < |messages| ==> Fits(options, messages[..k], messages[k]) && !Ends(messages[k])
  }

  // ----- The result -----

  ghost predicate AnsweredBy(options: Options, m: Message, result: Result) {
    && Answers(m) && m.params.value.item.value.text == Some(result.text)
    && options.parseValue(result.text) == Some(result.value)
  }

  /** The last totals, if they are required. */
  ghost predicate CountedAs(options: Options, heard: seq<Message>, usage: Option<Usage>) {
    if options.requireUsage then
      && usage.Some?
      && exists i :: 0 <= i < |heard| && Counts(heard[i])
                     && (forall j :: i < j < |heard| ==> !Counts(heard[j]))
                     && heard[i].params.Some?
                     && heard[i].params.value.totals == Some(Totals(Some(usage.value.input), Some(usage.value.output)))
    else usage == None
  }

  /** What was said in a turn that went well, and the message that ended it, come to this result. */
  ghost predicate ComesTo(options: Options, heard: seq<Message>, last: Message, result: Result) {
    && OpenedThread(heard, result.threadId) && TurnIn(last) == Some(result.turnId)
    && (exists i :: 0 <= i < |heard| && AnsweredBy(options, heard[i], result))
    && CountedAs(options, heard, result.usage)
  }

  /** The turn went well, its last message ended it, and this is its answer. */
  ghost predicate Succeeds(options: Options, messages: seq<Message>, result: Result) {
    messages != [] &&
    var heard, last := messages[..|messages| - 1], messages[|messages| - 1];
    GoesWell(options, heard) && Fits(options, heard, last) && Ends(last) && ComesTo(options, heard, last, result)
  }

  // ----- The session keeps count of it -----

  ghost predicate TurnKept(heard: seq<Message>, s: State) {
    forall id :: NamedTurn(heard, id) <==> s.turnId == id && id != ""
  }

  /** What the session remembers is what has been said. */
  ghost predicate Reflects(options: Options, heard: seq<Message>, s: State) {
    Running(options, heard, s) && !s.stopping && TurnKept(heard, s)
  }

  lemma AlphanumericIds(id: string)
    ensures IsId(id) <==> WellFormedId(id)
  {
    if IsId(id) {
      forall c | c in id
        ensures Alphanumeric(c) || c in "._:-"
      {
        var i :| 0 <= i < |id| && id[i] == c;
      }
    } else if WellFormedId(id) {
      forall i | 0 < i < |id|
        ensures Alphanumeric(id[i]) || id[i] in "._:-"
      {
        assert id[i] in id;
        OneOfFour(id[i]);
      }
    }
  }

  lemma OneOfFour(c: char)
    ensures c in "._:-" <==> c == '.' || c == '_' || c == ':' || c == '-'
    ensures c in "_-" <==> c == '_' || c == '-'
  {
    var four, two := "._:-", "_-";
    assert four[0] == '.' && four[1] == '_' && four[2] == ':' && four[3] == '-';
    assert two[0] == '_' && two[1] == '-';
  }

  lemma AlphanumericServerNames(name: string)
    ensures IsServerName(name) <==> WellFormedServerName(name)
  {
    if IsServerName(name) {
      forall c | c in name
        ensures Alphanumeric(c) || c == '_' || c == '-'
      {
        var i :| 0 <= i < |name| && name[i] == c;
        OneOfFour(c);
      }
    } else if WellFormedServerName(name) {
      forall i | 0 <= i < |name|
        ensures Alphanumeric(name[i]) || name[i] in "_-"
      {
        assert name[i] in name;
        OneOfFour(name[i]);
      }
    }
  }

  lemma ConfigHoldsIff(options: Options, r: Reply)
    ensures ReplyHolds(options, 1, r) <==> Accepts(options, 4, r)
  {
    forall name | name in r.config.servers
      ensures IsServerName(name) <==> WellFormedServerName(name)
    {
      AlphanumericServerNames(name);
    }
  }

  lemma ServersHoldIff(options: Options, r: Reply)
    ensures ReplyHolds(options, 4, r) <==> Accepts(options, 6, r)
  {
    if r.servers.Some? {
      forall i | 0 <= i < |r.servers.value|
        ensures r.servers.value[i] == Server(true, Some(0)) <==> r.servers.value[i].disabled && r.servers.value[i].tools == Some(0)
      {
      }
    }
  }

  lemma TurnHoldsIff(options: Options, r: Reply)
    ensures ReplyHolds(options, 5, r) <==> Accepts(options, 3, r)
  {
    if r.turnId.Some? {
      AlphanumericIds(r.turnId.value);
    }
  }

  lemma ThreadHoldsIff(options: Options, r: Reply)
    ensures ReplyHolds(options, 3, r) <==> Accepts(options, 2, r)
  {
    if r.threadId.Some? {
      UuidIff(r.threadId.value);
    }
  }

  lemma ReplyHoldsIff(options: Options, n: nat, r: Reply)
    requires n < 6
    ensures ReplyHolds(options, n, r) <==> Accepts(options, ORDER[n], r)
  {
    ConfigHoldsIff(options, r);
    ThreadHoldsIff(options, r);
    ServersHoldIff(options, r);
    TurnHoldsIff(options, r);
  }

  // ----- What the session remembers -----

  lemma {:induction false} SelectedAre(messages: seq<Message>, p: Message -> bool)
    ensures forall m :: m in Select(messages, p) <==> m in messages && p(m)
  {
    if messages != [] {
      SelectedAre(messages[..|messages| - 1], p);
      assert messages == messages[..|messages| - 1] + [messages[|messages| - 1]];
    }
  }

  lemma ThreadIsRemembered(options: Options, heard: seq<Message>, s: State, id: string)
    requires Reflects(options, heard, s)
    ensures OpenedThread(heard, id) <==> s.threadId == id && id != ""
    ensures s.threadId != "" <==> 4 <= |Replies(heard)|
  {
    if 4 <= |Replies(heard)| {
      assert ReplyInOrder(options, Replies(heard), 3);
    }
  }

  lemma AnswerIsRemembered(options: Options, heard: seq<Message>, s: State)
    requires Reflects(options, heard, s)
    ensures s.final.None? <==> forall i :: 0 <= i < |heard| ==> !Answers(heard[i])
    ensures forall i :: 0 <= i < |heard| && Answers(heard[i]) ==>
      s.final.Some? && heard[i].params.value.item.value.text == Some(s.final.value.text)
      && options.parseValue(s.final.value.text) == Some(s.final.value.value)
  {
    SelectedAre(heard, IsFinal);
    forall i | 0 <= i < |heard| && Answers(heard[i])
      ensures heard[i] in Finals(heard)
    {
      assert heard[i] in heard && IsFinal(heard[i]);
    }
    if Finals(heard) != [] {
      assert Finals(heard)[0] in Finals(heard);
      var i :| 0 <= i < |heard| && heard[i] == Finals(heard)[0];
      assert Answers(heard[i]);
    }
  }

  lemma CountsAreHeard(heard: seq<Message>)
    ensures forall i :: 0 <= i < |heard| && Counts(heard[i]) ==> heard[i] in Usages(heard)
    ensures forall m :: m in Usages(heard) ==> m in heard && Counts(m)
  {
    SelectedAre(heard, CarriesUsage);
    assert forall i :: 0 <= i < |heard| && Counts(heard[i]) ==> heard[i] in heard && CarriesUsage(heard[i]);
  }

  /** The totals remembered are the greatest heard. */
  lemma UsageIsRemembered(options: Options, heard: seq<Message>, s: State, totals: Totals)
    requires Reflects(options, heard, s) && options.requireUsage && totals.input.Some? && totals.output.Some?
    ensures s.usage.None? <==> forall i :: 0 <= i < |heard| ==> !Counts(heard[i])
    ensures (forall i :: 0 <= i < |heard| && Counts(heard[i]) ==> NoMoreThan(heard[i], totals))
       <==> (s.usage.Some? ==> s.usage.value.input <= totals.input.value && s.usage.value.output <= totals.output.value)
  {
    var usages := Usages(heard);
    var sums :| UsageHeard(options, usages, sums, s);
    CountsAreHeard(heard);
    if usages != [] {
      var last := usages[|usages| - 1];
      assert last in usages && UsageIs(last, s, sums[|sums| - 1]);
      var at :| 0 <= at < |heard| && heard[at] == last;
      assert Counts(heard[at]);
      forall i | 0 <= i < |heard| && Counts(heard[i]) && s.usage.value.input <= totals.input.value && s.usage.value.output <= totals.output.value
        ensures NoMoreThan(heard[i], totals)
      {
        var j :| 0 <= j < |usages| && usages[j] == heard[i];
        assert UsageIs(usages[j], s, sums[j]);
      }
    }
  }

  // ----- Accepted is what fits -----

  lemma ReplyFitsIff(options: Options, heard: seq<Message>, s: State, m: Message)
    requires Reflects(options, heard, s) && m.Message? && m.id != NoId
    ensures Handle(options, s, m).Done? <==> Fits(options, heard, m)
  {
    var replies := Replies(heard);
    HandshakeIsShort(options, replies);
    if |replies| < 6 {
      if m.result.Some? {
        ReplyHoldsIff(options, |replies|, m.result.value);
        ReplyStepIff(options, replies, s, m);
        if |replies| == 5 {
          LastReplyIff(heard, s, m);
        }
      }
    }
  }

  /** The session takes a reply if and only if it is the expected one, passes its checks, and names no other turn. */
  lemma ReplyStepIff(options: Options, replies: seq<Message>, s: State, m: Message)
    requires Handshake(options, replies) && Written(options, replies, s) && |replies| < 6
    requires m.Message? && m.id != NoId && m.result.Some?
    ensures Handle(options, s, m).Done? <==>
      && !m.failed && !Truthy(m.verb) && m.id == Numbered(ORDER[|replies|]) && Accepts(options, ORDER[|replies|], m.result.value)
      && (|replies| == 5 ==> s.turnId == "" || m.result.value.turnId == Some(s.turnId))
  {
    if 4 <= |replies| {
      assert ReplyInOrder(options, replies, 3);
    }
  }

  lemma LastReplyIff(heard: seq<Message>, s: State, m: Message)
    requires TurnKept(heard, s) && m.Message? && m.result.Some?
    ensures (forall id :: NamedTurn(heard, id) ==> m.result.value.turnId == Some(id))
       <==> s.turnId == "" || m.result.value.turnId == Some(s.turnId)
  {
    if s.turnId != "" {
      assert NamedTurn(heard, s.turnId);
    }
  }

  lemma UsageFitsIff(options: Options, heard: seq<Message>, s: State, params: Params)
    requires Reflects(options, heard, s) && options.requireUsage
    ensures UsageAccepted(s, params) <==> UsageFits(heard, params)
  {
    if params.threadId.Some? {
      ThreadIsRemembered(options, heard, s, params.threadId.value);
    }
    if params.turnId.Some? {
      assert NamedTurn(heard, params.turnId.value) <==> s.turnId == params.turnId.value && params.turnId.value != "";
    }
    if params.totals.Some? && params.totals.value.input.Some? && params.totals.value.output.Some? {
      UsageIsRemembered(options, heard, s, params.totals.value);
    }
  }

  lemma TurnFitsIff(options: Options, heard: seq<Message>, s: State, m: Message)
    requires Reflects(options, heard, s) && m.Message? && m.id == NoId && m.params.Some? && NamesATurn(m)
    ensures TurnIn(m) == TurnNamed(m)
    ensures TurnAccepted(s, m) <==> OnTheTurn(heard, m)
  {
    if m.params.value.threadId.Some? {
      ThreadIsRemembered(options, heard, s, m.params.value.threadId.value);
    }
    if TurnIn(m).Some? {
      AlphanumericIds(TurnIn(m).value);
    }
    if s.turnId != "" {
      assert NamedTurn(heard, s.turnId);
    }
  }

  lemma AnswerFitsIff(options: Options, heard: seq<Message>, s: State, item: Item)
    requires Reflects(options, heard, s)
    ensures FinalAccepted(options, s, item) <==> AnswerFits(options, heard, item)
  {
    AnswerIsRemembered(options, heard, s);
  }

  lemma EndFitsIff(options: Options, heard: seq<Message>, s: State, params: Params)
    requires Reflects(options, heard, s)
    ensures CompletionAccepted(options, s, params) <==> EndFits(options, heard, params)
  {
    ExpectationEnds(options, Replies(heard), s);
    AnswerIsRemembered(options, heard, s);
    if options.requireUsage {
      UsageIsRemembered(options, heard, s, Totals(Some(0), Some(0)));
    }
  }

  /** What each part of the handling looks at is as it was before the message. */
  lemma HandlingParts(options: Options, s: State, m: Message)
    requires m.Message? && m.id == NoId && m.verb.Named? && m.params.Some?
    ensures Handle(options, s, m).Done? <==>
      && !m.failed && m.verb.name != "model/rerouted"
      && (CarriesUsage(m) && options.requireUsage ==> UsageAccepted(s, m.params.value))
      && (NamesATurn(m) ==> TurnAccepted(s, m))
      && (NamesAnItem(m) ==> m.params.value.item.Some? && Passive(m.params.value.item.value.kind))
      && (IsFinal(m) ==> FinalAccepted(options, s, m.params.value.item.value))
      && (m.verb.name == "turn/completed" ==> CompletionAccepted(options, s, m.params.value))
  {
  }

  lemma NoticeFitsIff(options: Options, heard: seq<Message>, s: State, m: Message)
    requires Reflects(options, heard, s) && m.Message? && m.id == NoId
    ensures Handle(options, s, m).Done? <==> Fits(options, heard, m)
  {
    if m.verb.Named? && m.params.Some? {
      HandlingParts(options, s, m);
      if CarriesUsage(m) && options.requireUsage {
        UsageFitsIff(options, heard, s, m.params.value);
      }
      if NamesATurn(m) {
        TurnFitsIff(options, heard, s, m);
      }
      if IsFinal(m) {
        AnswerFitsIff(options, heard, s, m.params.value.item.value);
      }
      EndFitsIff(options, heard, s, m.params.value);
    }
  }

  lemma FitsIff(options: Options, heard: seq<Message>, s: State, m: Message)
    requires Reflects(options, heard, s)
    ensures Handle(options, s, m).Done? <==> Fits(options, heard, m)
  {
    if m.Message? {
      if m.id == NoId {
        NoticeFitsIff(options, heard, s, m);
      } else {
        ReplyFitsIff(options, heard, s, m);
      }
    }
  }

  // ----- One message more -----

  lemma NamedByOneMore(heard: seq<Message>, m: Message, id: string)
    ensures NamedTurn(heard + [m], id) <==> NamedTurn(heard, id) || TurnIn(m) == Some(id)
  {
    var all := heard + [m];
    if NamedTurn(heard, id) {
      var i :| 0 <= i < |heard| && TurnIn(heard[i]) == Some(id);
      assert TurnIn(all[i]) == Some(id);
    }
    if TurnIn(m) == Some(id) {
      assert TurnIn(all[|heard|]) == Some(id);
    }
  }

  lemma TurnAfterAReply(options: Options, heard: seq<Message>, s: State, m: Message)
    requires Reflects(options, heard, s) && Handle(options, s, m).Done? && m.id != NoId
    ensures Handle(options, s, m).state.turnId == match TurnIn(m) case Some(id) => id case None => s.turnId
    ensures TurnIn(m).Some? ==> TurnIn(m).value != "" && (s.turnId == "" || s.turnId == TurnIn(m).value)
  {
    HandshakeIsShort(options, Replies(heard));
  }

  lemma TurnAfterANotice(options: Options, s: State, m: Message)
    requires Handle(options, s, m).Done? && m.id == NoId
    ensures Handle(options, s, m).state.turnId == match TurnIn(m) case Some(id) => id case None => s.turnId
    ensures TurnIn(m).Some? ==> TurnIn(m).value != "" && (s.turnId == "" || s.turnId == TurnIn(m).value)
  {
  }

  lemma TurnStaysKept(options: Options, heard: seq<Message>, s: State, m: Message)
    requires Reflects(options, heard, s) && Handle(options, s, m).Done?
    ensures TurnKept(heard + [m], Handle(options, s, m).state)
  {
    if m.id == NoId {
      TurnAfterANotice(options, s, m);
    } else {
      TurnAfterAReply(options, heard, s, m);
    }
    forall id
      ensures NamedTurn(heard + [m], id) <==> Handle(options, s, m).state.turnId == id && id != ""
    {
      NamedByOneMore(heard, m, id);
    }
  }

  lemma StoppingEnds(options: Options, s: State, m: Message)
    requires !s.stopping && Handle(options, s, m).Done?
    ensures Handle(options, s, m).state.stopping <==> Ends(m)
  {
  }

  lemma OneMoreReflects(options: Options, heard: seq<Message>, s: State, m: Message)
    requires Reflects(options, heard, s)
    ensures !Step(options, s, m).stopping <==> Fits(options, heard, m) && !Ends(m)
    ensures !Step(options, s, m).stopping ==> Reflects(options, heard + [m], Step(options, s, m))
  {
    FitsIff(options, heard, s, m);
    if Handle(options, s, m).Done? {
      StoppingEnds(options, s, m);
      TurnStaysKept(options, heard, s, m);
      if !Ends(m) {
        MessageKeepsRunning(options, heard, s, m);
      }
    }
  }

  lemma GoesWellByOneMore(options: Options, messages: seq<Message>, m: Message)
    ensures GoesWell(options, messages + [m]) <==> GoesWell(options, messages) && Fits(options, messages, m) && !Ends(m)
  {
    var all := messages + [m];
    assert all[..|messages|] == messages && all[|messages|] == m;
    forall k | 0 <= k < |messages|
      ensures all[..k] == messages[..k] && all[k] == messages[k]
    {
    }
    if GoesWell(options, all) {
      forall k | 0 <= k < |messages|
        ensures Fits(options, messages[..k], messages[k]) && !Ends(messages[k])
      {
        assert all[k] == messages[k];
      }
    }
  }

  /** The session runs on exactly as long as everything fits and nothing ends the turn. */
  lemma {:induction false} RunsOnIff(options: Options, messages: seq<Message>)
    ensures !Run(options, messages).stopping <==> GoesWell(options, messages)
    ensures GoesWell(options, messages) ==> Reflects(options, messages, Run(options, messages))
  {
    if messages == [] {
      StartIsRunning(options);
    } else {
      var init, m := messages[..|messages| - 1], messages[|messages| - 1];
      assert messages == init + [m];
      RunsOnIff(options, init);
      GoesWellByOneMore(options, init, m);
      if GoesWell(options, init) {
        OneMoreReflects(options, init, Run(options, init), m);
      }
    }
  }

  // ----- The result is the answer -----

  /** What the completion of a turn that went well takes for the result. */
  lemma EndTakesTheResult(options: Options, heard: seq<Message>, s: State, m: Message)
    requires Reflects(options, heard, s) && Fits(options, heard, m) && Ends(m)
    ensures s.final.Some? && TurnIn(m).Some?
    ensures Step(options, s, m).result
         == Some(Result(s.final.value.value, s.final.value.text, s.threadId, TurnIn(m).value, s.usage))
    ensures Step(options, s, m).stopping && Step(options, s, m).error.None?
  {
    FitsIff(options, heard, s, m);
    TurnAfterANotice(options, s, m);
    EndFitsIff(options, heard, s, m.params.value);
  }

  lemma AnswerIsUnique(options: Options, heard: seq<Message>, s: State, result: Result)
    requires Reflects(options, heard, s) && s.final.Some?
    ensures (exists i :: 0 <= i < |heard| && AnsweredBy(options, heard[i], result))
       <==> result.text == s.final.value.text && result.value == s.final.value.value
  {
    AnswerIsRemembered(options, heard, s);
    var i :| 0 <= i < |heard| && Answers(heard[i]);
    if result.text == s.final.value.text && result.value == s.final.value.value {
      assert AnsweredBy(options, heard[i], result);
    }
  }

  /** The last of the messages that count is the last in the list of them. */
  lemma {:induction false} LastCount(heard: seq<Message>, i: int)
    requires 0 <= i < |heard| && Counts(heard[i]) && forall j :: i < j < |heard| ==> !Counts(heard[j])
    ensures Usages(heard) != [] && Usages(heard)[|Usages(heard)| - 1] == heard[i]
  {
    var init, last := heard[..|heard| - 1], heard[|heard| - 1];
    if i < |heard| - 1 {
      assert !Counts(last);
      assert Usages(init) + [] == Usages(init);
      LastCount(init, i);
    }
  }

  lemma {:induction false} SomeLastCount(heard: seq<Message>) returns (i: int)
    requires exists i :: 0 <= i < |heard| && Counts(heard[i])
    ensures 0 <= i < |heard| && Counts(heard[i]) && forall j :: i < j < |heard| ==> !Counts(heard[j])
  {
    i := |heard| - 1;
    while !Counts(heard[i])
      invariant 0 <= i < |heard| && (forall j :: i < j < |heard| ==> !Counts(heard[j]))
      invariant exists k :: 0 <= k <= i && Counts(heard[k])
      decreases i
    {
      i := i - 1;
    }
  }

  lemma UsageIsUnique(options: Options, heard: seq<Message>, s: State, usage: Option<Usage>)
    requires Reflects(options, heard, s) && (options.requireUsage ==> s.usage.Some?)
    ensures CountedAs(options, heard, usage) <==> usage == s.usage
  {
    if options.requireUsage {
      UsageIsRemembered(options, heard, s, Totals(Some(0), Some(0)));
      var sums :| UsageHeard(options, Usages(heard), sums, s);
      var last := SomeLastCount(heard);
      LastCount(heard, last);
      assert UsageIs(heard[last], s, sums[|sums| - 1]);
      forall i | 0 <= i < |heard| && Counts(heard[i]) && forall j :: i < j < |heard| ==> !Counts(heard[j])
        ensures i == last
      {
      }
    }
  }

  lemma ResultIsTheAnswer(options: Options, heard: seq<Message>, s: State, m: Message, result: Result)
    requires Reflects(options, heard, s) && Fits(options, heard, m) && Ends(m)
    ensures Step(options, s, m).result == Some(result) <==> ComesTo(options, heard, m, result)
  {
    EndTakesTheResult(options, heard, s, m);
    assert EndFits(options, heard, m.params.value);
    AnswerIsUnique(options, heard, s, result);
    EndFitsIff(options, heard, s, m.params.value);
    UsageIsUnique(options, heard, s, result.usage);
    ThreadIsRemembered(options, heard, s, result.threadId);
    assert s.threadId != "";
  }

  lemma {:induction false} StoppedKeepsTheResult(options: Options, messages: seq<Message>, k: nat)
    requires k <= |messages| && Run(options, messages[..k]).stopping
    ensures Run(options, messages) == Run(options, messages[..k])
  {
    if k < |messages| {
      var init := messages[..|messages| - 1];
      assert init[..k] == messages[..k];
      StoppedKeepsTheResult(options, init, k);
    } else {
      assert messages[..k] == messages;
    }
  }

  /** The turn has succeeded with this result at some point. */
  ghost predicate HasSucceeded(options: Options, messages: seq<Message>, result: Result) {
    exists k :: 0 <= k <= |messages| && Succeeds(options, messages[..k], result)
  }

  lemma {:induction false} SuccessIsTaken(options: Options, messages: seq<Message>, result: Result)
    requires Succeeds(options, messages, result)
    ensures Run(options, messages).result == Some(result) && Run(options, messages).stopping && Run(options, messages).error.None?
  {
    var heard, last := messages[..|messages| - 1], messages[|messages| - 1];
    assert messages == heard + [last];
    RunsOnIff(options, heard);
    ResultIsTheAnswer(options, heard, Run(options, heard), last, result);
    EndTakesTheResult(options, heard, Run(options, heard), last);
  }

  lemma StepWithoutSuccess(options: Options, heard: seq<Message>, s: State, m: Message)
    requires Reflects(options, heard, s) && Step(options, s, m).result.Some?
    ensures Fits(options, heard, m) && Ends(m)
  {
    FitsIff(options, heard, s, m);
    if Handle(options, s, m).Thrown? {
      RefusalWritesNothing(options, s, m);
    } else {
      StoppingEnds(options, s, m);
      if !Ends(m) {
        MessageKeepsRunning(options, heard, s, m);
      }
    }
  }

  lemma {:induction false} ResultIsASuccess(options: Options, messages: seq<Message>, result: Result)
    requires Run(options, messages).result == Some(result)
    ensures HasSucceeded(options, messages, result)
  {
    var init, m := messages[..|messages| - 1], messages[|messages| - 1];
    assert messages == init + [m];
    RunsOnIff(options, init);
    if Run(options, init).stopping {
      ResultIsASuccess(options, init, result);
      var k :| 0 <= k <= |init| && Succeeds(options, init[..k], result);
      assert messages[..k] == init[..k];
    } else {
      StepWithoutSuccess(options, init, Run(options, init), m);
      ResultIsTheAnswer(options, init, Run(options, init), m, result);
      assert messages[..|messages|] == messages && Succeeds(options, messages, result);
    }
  }

  /** The session has a result if and only if the child has said all it must and nothing it may not, up to and with
      the message that ended the turn; and then the result is what it said. */
  lemma {:induction false} SucceedsIff(options: Options, messages: seq<Message>, result: Result)
    ensures Run(options, messages).result == Some(result) <==> HasSucceeded(options, messages, result)
  {
    if HasSucceeded(options, messages, result) {
      var k :| 0 <= k <= |messages| && Succeeds(options, messages[..k], result);
      SuccessIsTaken(options, messages[..k], result);
      StoppedKeepsTheResult(options, messages, k);
    }
    if Run(options, messages).result == Some(result) {
      ResultIsASuccess(options, messages, result);
    }
  }

  // ----- How a turn fails -----

  /** The reply that is waited for, on time but not acceptable. */
  ghost predicate IsTheWrongReply(heard: seq<Message>, m: Message, n: nat) {
    && n == |Replies(heard)| && n < 6 && m.Message? && !m.failed
    && (m.verb == NoMethod || m.verb == Named("") || m.verb == NotAName(false))
    && m.id == Numbered([1, 4, 5, 2, 6, 3][n]) && m.result.Some?
  }

  /** What a misfit is reported as: a home that is not the own one as a failed login, a host that is not isolated or
      not as asked for as fatal, and everything else as an invalid turn. */
  ghost predicate IsReportedAs(heard: seq<Message>, m: Message, failure: Failure) {
    var n := |Replies(heard)|;
    failure == if IsTheWrongReply(heard, m, n) && n == 0 then Authentication else Invalid(IsTheWrongReply(heard, m, n) && n != 5)
  }

  lemma ReplyFailure(options: Options, heard: seq<Message>, s: State, m: Message)
    requires Reflects(options, heard, s) && m.Message? && m.id != NoId && Handle(options, s, m).Thrown?
    ensures IsReportedAs(heard, m, Handle(options, s, m).failure)
  {
    var replies := Replies(heard);
    HandshakeIsShort(options, replies);
    if 4 <= |replies| {
      assert ReplyInOrder(options, replies, 3);
    }
  }

  lemma NoticeFailure(options: Options, s: State, m: Message)
    requires m.Message? ==> m.id == NoId
    ensures Handle(options, s, m).Thrown? ==> Handle(options, s, m).failure == Invalid(false)
  {
  }

  lemma RefusalKeepsTheError(options: Options, s: State, m: Message)
    requires Handle(options, s, m).Thrown?
    ensures Handle(options, s, m).state.error == s.error
  {
  }

  lemma MisfitIsReported(options: Options, heard: seq<Message>, s: State, m: Message)
    requires Reflects(options, heard, s) && Handle(options, s, m).Thrown?
    ensures IsReportedAs(heard, m, Handle(options, s, m).failure)
    ensures Handle(options, s, m).state.error.None?
  {
    RefusalKeepsTheError(options, s, m);
    if m.Message? && m.id != NoId {
      ReplyFailure(options, heard, s, m);
    } else {
      NoticeFailure(options, s, m);
    }
  }

  /** The first message that does not fit ends the turn with the failure it calls for. */
  lemma {:induction false} FirstMisfitFails(options: Options, heard: seq<Message>, m: Message, later: seq<Message>)
    requires GoesWell(options, heard) && !Fits(options, heard, m)
    ensures var s := Run(options, heard + [m] + later);
      s.stopping && s.result.None? && s.error.Some? && IsReportedAs(heard, m, s.error.value)
  {
    var s, all := Run(options, heard), heard + [m] + later;
    RunsOnIff(options, heard);
    FitsIff(options, heard, s, m);
    MisfitIsReported(options, heard, s, m);
    RefusalWritesNothing(options, s, m);
    assert (heard + [m])[..|heard|] == heard && all[..|heard| + 1] == heard + [m];
    StoppedKeepsTheResult(options, all, |heard| + 1);
  }
}

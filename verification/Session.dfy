/** One turn of an isolated Codex session: a JSON-RPC conversation over a pipe, in which the source
    is handed over only after the child has shown that it is isolated. */
module Session {
  import opened Optional
  import opened Texts

  const CHATGPT_BASE_URL := "https://chatgpt.com/backend-api/"

  datatype Json = Null | Bool(b: bool) | Number(n: real) | String(s: string) | Array(items: seq<Json>) | Object(fields: map<string, Json>)

  // ----- Messages, as far as the session reads them -----

  datatype Id = NoId | Numbered(n: int) | OtherId

  datatype Method = NoMethod | Named(name: string) | NotAName(truthy: bool)

  /** The host configuration: whether every isolation setting has its required value, and the tool servers. */
  datatype HostConfig = HostConfig(isolated: bool, servers: set<string>)

  datatype Requirements = NoRequirements | Unreadable
                        | Requirements(instructions: bool, hooks: bool, baseUrl: Option<string>)

  datatype Server = Server(disabled: bool, tools: Option<nat>)

  /** The result of a response; a field that is missing or of the wrong type is `None`. */
  datatype Reply = Reply(
    codexHome: Option<string>,
    config: HostConfig, featuresOff: bool, overridesOff: bool,
    requirements: Requirements,
    threadId: Option<string>, model: Option<string>, provider: Option<string>, readOnly: bool, neverAsks: bool,
    effort: Option<string>, serviceTier: Option<string>,
    lastPage: bool, servers: Option<seq<Server>>,
    turnId: Option<string>)

  datatype Turn = Turn(id: Option<string>, completed: bool, failed: bool)

  datatype Item = Item(kind: string, commentary: bool, text: Option<string>)

  /** Running token totals; a count that is not a safe non-negative integer is `None`. */
  datatype Totals = Totals(input: Option<nat>, output: Option<nat>)

  datatype Params = Params(
    threadId: Option<string>, turnId: Option<string>, turn: Option<Turn>, item: Option<Item>, totals: Option<Totals>)

  datatype Message = NotARecord
                   | Message(id: Id, failed: bool, verb: Method, result: Option<Reply>, params: Option<Params>)

  // ----- The session -----

  datatype Options = Options(
    home: string, model: string, effort: string, serviceTier: Option<string>, requireUsage: bool,
    maxOutputBytes: nat, input: string, parse: string -> Option<Message>, parseValue: string -> Option<Json>)

  datatype Failure = Invalid(fatal: bool) | Authentication | Timeout

  datatype Request = Initialize | Initialized | ReadConfig | ReadRequirements
                   | StartThread(disabledServers: set<string>) | ListServers(threadId: string)
                   | StartTurn(threadId: string, input: string)

  datatype Usage = Usage(input: nat, output: nat)

  datatype Final = Final(value: Json, text: string)

  datatype Result = Result(value: Json, text: string, threadId: string, turnId: string, usage: Option<Usage>)

  /** Everything the session remembers; `sent` is what has been written to the child. */
  datatype State = State(
    expected: int, threadId: string, turnId: string, configuration: Option<set<string>>,
    final: Option<Final>, usage: Option<Usage>, result: Option<Result>,
    error: Option<Failure>, stopping: bool, sent: seq<Request>)

  const START := State(1, "", "", None, None, None, None, None, false, [Initialize])

  // ----- Checks -----

  predicate IsId(id: string) {
    && 1 <= |id| <= 200
    && Alphanumeric(id[0])
    && forall i :: 0 < i < |id| ==> Alphanumeric(id[i]) || id[i] in "._:-"
  }

  predicate IsServerName(name: string) {
    1 <= |name| <= 100 && forall i :: 0 <= i < |name| ==> Alphanumeric(name[i]) || name[i] in "_-"
  }

  predicate ConfigAccepted(r: Reply) {
    && r.config.isolated
    && |r.config.servers| <= 256
    && forall name :: name in r.config.servers ==> IsServerName(name)
  }

  predicate RequirementsAccepted(requirements: Requirements) {
    match requirements
    case NoRequirements => true
    case Unreadable => false
    case Requirements(instructions, hooks, baseUrl) =>
      !instructions && !hooks && (baseUrl.Some? ==> baseUrl.value == CHATGPT_BASE_URL)
  }

  predicate ThreadAccepted(options: Options, r: Reply) {
    && r.threadId.Some? && IsUuid(r.threadId.value)
    && r.model == Some(options.model) && r.provider == Some("openai")
    && r.readOnly && r.neverAsks
    && (options.requireUsage ==> r.effort == Some(options.effort))
    && (options.serviceTier.Some? ==> r.serviceTier == options.serviceTier)
  }

  predicate ServersAccepted(r: Reply) {
    && r.lastPage && r.servers.Some? && |r.servers.value| <= 256
    && forall i :: 0 <= i < |r.servers.value| ==> r.servers.value[i].disabled && r.servers.value[i].tools == Some(0)
  }

  /** The checks a reply must pass before the session takes its next step. */
  predicate Accepts(options: Options, id: int, r: Reply) {
    match id
    case 1 => r.codexHome == Some(options.home)
    case 4 => ConfigAccepted(r) && r.featuresOff && r.overridesOff
    case 5 => RequirementsAccepted(r.requirements)
    case 2 => ThreadAccepted(options, r)
    case 6 => ServersAccepted(r)
    case 3 => r.turnId.Some? && IsId(r.turnId.value)
    case _ => false
  }

  predicate Truthy(verb: Method) {
    match verb case NoMethod => false case Named(name) => name != "" case NotAName(truthy) => truthy
  }

  predicate IsReply(m: Message) {
    m.Message? && m.id != NoId
  }

  predicate CarriesUsage(m: Message) {
    m.Message? && m.verb == Named("thread/tokenUsage/updated")
  }

  predicate NamesATurn(m: Message) {
    m.Message? && (m.verb == Named("turn/started") || m.verb == Named("turn/completed") || NamesAnItem(m))
  }

  predicate NamesAnItem(m: Message) {
    m.Message? && (m.verb == Named("item/started") || m.verb == Named("item/completed"))
  }

  function TurnNamed(m: Message): Option<string>
    requires m.Message? && m.params.Some?
  {
    if NamesAnItem(m) then m.params.value.turnId
    else if m.params.value.turn.Some? then m.params.value.turn.value.id else None
  }

  predicate Passive(kind: string) {
    kind == "userMessage" || kind == "agentMessage" || kind == "reasoning"
  }

  /** A completed agent message that is not commentary: the answer of the turn. */
  predicate IsFinal(m: Message) {
    && m.Message? && m.verb == Named("item/completed") && m.params.Some? && m.params.value.item.Some?
    && m.params.value.item.value.kind == "agentMessage" && !m.params.value.item.value.commentary
  }

  // ----- One message -----

  /** A handler either finishes or throws; what it changed before throwing stays changed. */
  datatype Handled = Done(state: State) | Thrown(state: State, failure: Failure)

  function Sending(s: State, id: int, request: Request): State {
    s.(expected := id, sent := s.sent + [request])
  }

  function Stopped(s: State, cause: Option<Failure>): State {
    s.(error := if cause.Some? && s.error.None? then cause else s.error, stopping := true)
  }

  function AfterReply(options: Options, s: State, id: int, r: Reply): Handled {
    match id
    case 1 =>
      if !Accepts(options, 1, r) then Thrown(s, Authentication)
      else Done(Sending(s.(sent := s.sent + [Initialized]), 4, ReadConfig))
    case 4 =>
      if !ConfigAccepted(r) then Thrown(s, Invalid(true))
      else
        var configured := s.(configuration := Some(r.config.servers));
        if !r.featuresOff || !r.overridesOff then Thrown(configured, Invalid(true))
        else Done(Sending(configured, 5, ReadRequirements))
    case 5 =>
      if s.configuration.None? || !Accepts(options, 5, r) then Thrown(s, Invalid(true))
      else Done(Sending(s, 2, StartThread(s.configuration.value)))
    case 2 =>
      if !Accepts(options, 2, r) then Thrown(s, Invalid(true))
      else Done(Sending(s.(threadId := r.threadId.value), 6, ListServers(r.threadId.value)))
    case 6 =>
      if s.threadId == "" || !Accepts(options, 6, r) then Thrown(s, Invalid(true))
      else Done(Sending(s, 3, StartTurn(s.threadId, options.input)))
    case 3 =>
      if !Accepts(options, 3, r) || (s.turnId != "" && r.turnId.value != s.turnId) then Thrown(s, Invalid(false))
      else Done(s.(turnId := r.turnId.value))
    case _ => Thrown(s, Invalid(false))
  }

  predicate UsageAccepted(s: State, params: Params) {
    && s.threadId != "" && params.threadId == Some(s.threadId)
    && s.turnId != "" && params.turnId == Some(s.turnId)
    && params.totals.Some? && params.totals.value.input.Some? && params.totals.value.output.Some?
    && (s.usage.Some? ==> s.usage.value.input <= params.totals.value.input.value && s.usage.value.output <= params.totals.value.output.value)
  }

  function AfterUsage(options: Options, s: State, m: Message): Handled
    requires m.Message? && m.params.Some?
  {
    if !CarriesUsage(m) || !options.requireUsage then Done(s)
    else if !UsageAccepted(s, m.params.value) then Thrown(s, Invalid(false))
    else Done(s.(usage := Some(Usage(m.params.value.totals.value.input.value, m.params.value.totals.value.output.value))))
  }

  predicate TurnAccepted(s: State, m: Message)
    requires m.Message? && m.params.Some?
  {
    var id := TurnNamed(m);
    && s.threadId != "" && m.params.value.threadId == Some(s.threadId)
    && id.Some? && IsId(id.value)
    && (s.turnId != "" ==> s.turnId == id.value)
  }

  function AfterTurn(s: State, m: Message): Handled
    requires m.Message? && m.params.Some?
  {
    if !NamesATurn(m) then Done(s)
    else if !TurnAccepted(s, m) then Thrown(s, Invalid(false))
    else Done(s.(turnId := TurnNamed(m).value))
  }

  predicate FinalAccepted(options: Options, s: State, item: Item) {
    && s.final.None? && item.text.Some? && ByteLength(item.text.value) <= options.maxOutputBytes
    && options.parseValue(item.text.value).Some?
  }

  function AfterItem(options: Options, s: State, m: Message): Handled
    requires m.Message? && m.params.Some?
  {
    if !NamesAnItem(m) then Done(s)
    else if m.params.value.item.None? || !Passive(m.params.value.item.value.kind) then Thrown(s, Invalid(false))
    else if !IsFinal(m) then Done(s)
    else if !FinalAccepted(options, s, m.params.value.item.value) then Thrown(s, Invalid(false))
    else
      var text := m.params.value.item.value.text.value;
      Done(s.(final := Some(Final(options.parseValue(text).value, text))))
  }

  predicate CompletionAccepted(options: Options, s: State, params: Params) {
    && s.expected == 0
    && params.turn.Some? && params.turn.value.completed && !params.turn.value.failed
    && s.final.Some?
    && (options.requireUsage ==> s.usage.Some?)
  }

  function AfterCompletion(options: Options, s: State, m: Message): Handled
    requires m.Message? && m.params.Some?
  {
    if m.verb != Named("turn/completed") then Done(s)
    else if !CompletionAccepted(options, s, m.params.value) then Thrown(s, Invalid(false))
    else
      var result := Result(s.final.value.value, s.final.value.text, s.threadId, s.turnId, s.usage);
      Done(Stopped(s.(result := Some(result)), None))
  }

  /** What a notification does short of completing the turn. */
  function BeforeCompletion(options: Options, s: State, m: Message): Handled
    requires m.Message? && m.params.Some?
  {
    var usage := AfterUsage(options, s, m);
    if usage.Thrown? then usage else
    var turn := AfterTurn(usage.state, m);
    if turn.Thrown? then turn else
    AfterItem(options, turn.state, m)
  }

  function AfterNotification(options: Options, s: State, m: Message): Handled
    requires m.Message?
  {
    if !m.verb.Named? || m.params.None? || m.verb == Named("model/rerouted") then Thrown(s, Invalid(false))
    else
      var before := BeforeCompletion(options, s, m);
      if before.Thrown? then before else AfterCompletion(options, before.state, m)
  }

  function Handle(options: Options, s: State, m: Message): Handled {
    if m.NotARecord? || m.failed || (m.id != NoId && Truthy(m.verb)) then Thrown(s, Invalid(false))
    else if m.id == NoId then AfterNotification(options, s, m)
    else if m.id != Numbered(s.expected) || m.result.None? then Thrown(s, Invalid(false))
    else AfterReply(options, s.(expected := 0), m.id.n, m.result.value)
  }

  /** One message, with the failure of its handler turned into a stop; nothing is handled after a stop. */
  function Step(options: Options, s: State, m: Message): State {
    if s.stopping then s
    else
      match Handle(options, s, m)
      case Done(next) => next
      case Thrown(next, failure) => Stopped(next, Some(failure))
  }

  /** The session after a list of messages. */
  function Run(options: Options, messages: seq<Message>): State {
    if messages == [] then START
    else Step(options, Run(options, messages[..|messages| - 1]), messages[|messages| - 1])
  }
}

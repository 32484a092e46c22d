/** One job of each lane against a server that may do anything, and the discipline every run keeps. */
module RunnerJobs {
  import opened Optional
  import opened Texts
  import opened TerminalWrites

  // ----- The discipline -----

  function ClaimedJob(e: Exchange): Option<string> {
    if ClaimIn(e).Some? then Some(ClaimIn(e).value.jobId)
    else if e.post.AskTextClaim? && e.reply.Answered? && e.reply.value.TextClaimValue? && e.reply.value.sound
    then Some(e.reply.value.jobId)
    else None
  }

  predicate IsCompletion(e: Exchange) {
    e.post.Write? && (e.post.document.Completion? || e.post.document.TextCompletion?)
  }

  predicate IsFailure(e: Exchange) {
    e.post.Write? && !IsCompletion(e)
  }

  /** The exchange at `j` claimed the job that `e` writes about. */
  ghost predicate ClaimsFor(log: seq<Exchange>, j: int, e: Exchange) {
    0 <= j < |log| && e.post.Write? && ClaimedJob(log[j]) == Some(e.post.jobId)
  }

  /** A terminal write follows its claim at once, or it is a failure that follows a completion refused with 400. */
  ghost predicate Rightful(log: seq<Exchange>, j: nat)
    requires j < |log|
  {
    && (IsCompletion(log[j]) ==> ClaimsFor(log, j - 1, log[j]))
    && (IsFailure(log[j]) ==>
          || ClaimsFor(log, j - 1, log[j])
          || (2 <= j && ClaimsFor(log, j - 2, log[j]) && IsCompletion(log[j - 1])
              && log[j - 1].post.jobId == log[j].post.jobId && log[j - 1].reply == Refused(400)))
  }

  ghost predicate Disciplined(log: seq<Exchange>) {
    forall j {:trigger Rightful(log, j)} :: 0 <= j < |log| ==> Rightful(log, j)
  }

  /** Everything one job says to the server. */
  ghost predicate OneJob(said: seq<Exchange>) {
    && |said| <= 3
    && (1 <= |said| ==> !said[0].post.Write?)
    && (2 <= |said| ==> ClaimsFor(said, 0, said[1]))
    && (3 <= |said| ==> ClaimsFor(said, 0, said[2]) && IsFailure(said[2]) && IsCompletion(said[1]) && said[1].reply == Refused(400))
  }

  lemma JobKeepsDiscipline(log: seq<Exchange>, said: seq<Exchange>)
    requires Disciplined(log) && OneJob(said)
    ensures Disciplined(log + said)
  {
    var all := log + said;
    forall j | 0 <= j < |all|
      ensures Rightful(all, j)
    {
      if j < |log| {
        assert Rightful(log, j);
      } else {
        assert all[j] == said[j - |log|];
        assert 1 <= j - |log| ==> all[j - 1] == said[j - |log| - 1];
      }
    }
  }

  // ----- What a disciplined log cannot contain -----

  /** Between two completions there is a claim: each claim is completed at most once. */
  lemma AtMostOneCompletionPerClaim(log: seq<Exchange>, i: int, j: int)
    requires Disciplined(log) && 0 <= i < j < |log| && IsCompletion(log[i]) && IsCompletion(log[j])
    ensures i < j - 1 && ClaimsFor(log, j - 1, log[j])
  {
    assert Rightful(log, j);
  }

  /** A failure posted under a claim that was already completed follows that completion at once, about
      the same job, and the server had refused it with 400. */
  lemma FailureAfterCompletionNeeds400(log: seq<Exchange>, i: int, j: int)
    requires Disciplined(log) && 0 <= i < j < |log| && IsCompletion(log[i]) && IsFailure(log[j])
    requires forall k :: i < k < j ==> ClaimedJob(log[k]).None?
    ensures j == i + 1 && log[i].reply == Refused(400) && log[i].post.jobId == log[j].post.jobId
  {
    assert Rightful(log, j) && Rightful(log, i);
  }

  /** A completion whose answer was lost is the last word under its claim. */
  lemma LostAnswersAreFinal(log: seq<Exchange>, i: int, j: int)
    requires Disciplined(log) && 0 <= i < j < |log| && IsCompletion(log[i]) && log[i].reply == Lost
    requires log[j].post.Write?
    ensures exists k :: i < k < j && ClaimedJob(log[k]).Some?
  {
    if IsCompletion(log[j]) {
      AtMostOneCompletionPerClaim(log, i, j);
    } else if forall k :: i < k < j ==> ClaimedJob(log[k]).None? {
      FailureAfterCompletionNeeds400(log, i, j);
    }
  }

  // ----- The portrait lane -----

  type PortraitCompletion = d: Document | d.Completion? witness Completion("", "", None, false)

  /** What an execution comes to; `Crashed` is an exception. */
  datatype Execution = Produced(completion: PortraitCompletion) | GaveUp(code: Code, fatal: bool) | Crashed

  /** How a job ends: without work, done, with an error thrown, or with the error that ends the runner. */
  datatype JobEnd = NoWork | Worked | Threw(status: Option<int>) | FatalError

  function EndOf(r: Attempt<()>): JobEnd {
    match r case Done(_) => Worked case Error(status) => Threw(status)
  }

  /** The failure that reports `code` under a claim, in the version of that claim. */
  function ReportOf(claim: Claim, code: Code): (d: Document)
    ensures IsPortraitFailure(d)
  {
    match claim.version
    case V1(_) => FailureV1(claim.lease, code)
    case V2(binding) => FailureV2(claim.lease, code, claim.sourceSha, binding)
  }

  /** The client still remembers this claim, and it is one that parses. */
  ghost predicate Holding(client: CodexPortraitClient, claim: Claim)
    reads client
  {
    client.Remembered(claim.jobId) == Some(LeaseOf(claim)) && exists value :: IsAClaim(value, claim)
  }

  predicate FitsTheWire(client: CodexPortraitClient, d: Document) {
    client.sizeOf(d) <= 3 * 1024 * 1024
  }

  /** What the caller of a write is told: it is done if the server acknowledged it, and an error otherwise. */
  ghost predicate EndsAsAnswered(e: Exchange, end: JobEnd)
    requires e.post.Write?
  {
    var v2 := e.post.document.FailureV2? || (e.post.document.Completion? && e.post.document.chapter.Some?);
    end == if e.reply == Answered(Acknowledgement(v2, true)) then Worked
           else if e.reply.Refused? then Threw(Some(e.reply.status)) else Threw(None)
  }

  /** The report went out if it fits, and the end tells what the server made of it. */
  ghost predicate Reported(client: CodexPortraitClient, before: seq<Exchange>, after: seq<Exchange>, claim: Claim, code: Code, end: JobEnd) {
    if FitsTheWire(client, ReportOf(claim, code)) then
      && |after| == |before| + 1 && after[..|before|] == before
      && after[|before|].post == Write(claim.jobId, ReportOf(claim, code))
      && EndsAsAnswered(after[|before|], end)
    else after == before && end == Threw(None)
  }

  /** Report a failure; a fatal one ends the runner whatever becomes of the report. */
  method ReportFailure(client: CodexPortraitClient, claim: Claim, code: Code, fatal: bool) returns (end: JobEnd)
    requires client.Valid() && Holding(client, claim)
    modifies client
    ensures client.Valid()
    ensures fatal <==> end == FatalError
    ensures exists told :: Reported(client, old(client.log), client.log, claim, code, told) && (!fatal ==> end == told)
  {
    assert client.FailureFor(claim.jobId, FailureV1(claim.lease, code)) == ReportOf(claim, code);
    var r := client.Fail(claim.jobId, FailureV1(claim.lease, code));
    assert Reported(client, old(client.log), client.log, claim, code, EndOf(r));
    end := if fatal then FatalError else EndOf(r);
  }

  /** A well-formed completion of the version of its claim, under the lease, source and chapter of a version 2 claim. */
  ghost predicate IsFor(d: PortraitCompletion, claim: Claim) {
    && d.sound && FiveGroups(d.lease) && HexDigits(d.sourceSha, 64)
    && match claim.version
       case V1(_) => d.chapter == None
       case V2(binding) => d.chapter == Some(binding) && d.lease == claim.lease && d.sourceSha == claim.sourceSha
  }

  lemma PostableIff(client: CodexPortraitClient, claim: Claim, d: PortraitCompletion, value: Value)
    requires IsAClaim(value, claim)
    ensures client.IsPostable(claim.jobId, d, Some(LeaseOf(claim))) <==> IsFor(d, claim) && FitsTheWire(client, d)
  {
  }

  /** What is said after the claim is what the execution came to: a completion fit for its claim, and after it a
      failure if and only if the server refused it with 400; or the failure that reports how it ended. */
  ghost predicate Tells(client: CodexPortraitClient, said: seq<Exchange>, claim: Claim, outcome: Execution)
    requires 1 <= |said|
  {
    match outcome
    case Produced(completion) =>
      if IsFor(completion, claim) && FitsTheWire(client, completion) then
        && 2 <= |said| && said[1].post == Write(claim.jobId, completion)
        && (if said[1].reply == Refused(400) then ReportsAt(client, said, 2, claim, ImageInvalid) else |said| == 2)
      else |said| == 1
    case GaveUp(code, _) => ReportsAt(client, said, 1, claim, code)
    case Crashed => ReportsAt(client, said, 1, claim, GenerationFailed)
  }

  ghost predicate ReportsAt(client: CodexPortraitClient, said: seq<Exchange>, i: nat, claim: Claim, code: Code) {
    if FitsTheWire(client, ReportOf(claim, code))
    then |said| == i + 1 && said[i].post == Write(claim.jobId, ReportOf(claim, code)) else |said| == i
  }

  /** How a claimed job ends: fatally exactly if the execution said so, and otherwise as the last write went. */
  ghost predicate Ends(said: seq<Exchange>, outcome: Execution, end: JobEnd)
    requires 1 <= |said|
  {
    var last := said[|said| - 1];
    && (end == FatalError <==> outcome.GaveUp? && outcome.fatal)
    && (end != FatalError ==>
          if last.post.Write? && !(IsCompletion(last) && last.reply == Refused(400)) then EndsAsAnswered(last, end)
          else end == Threw(None))
  }

  /** Post what was produced; only a refusal with 400 is answered with a failure. */
  method DeliverCompletion(client: CodexPortraitClient, claim: Claim, completion: PortraitCompletion, ghost claimed: Exchange)
    returns (end: JobEnd)
    requires client.Valid() && Holding(client, claim) && !claimed.post.Write?
    modifies client
    ensures client.Valid()
    ensures |old(client.log)| <= |client.log| && client.log[..|old(client.log)|] == old(client.log)
    ensures Tells(client, [claimed] + client.log[|old(client.log)|..], claim, Produced(completion))
    ensures Ends([claimed] + client.log[|old(client.log)|..], Produced(completion), end)
  {
    ghost var value :| IsAClaim(value, claim);
    PostableIff(client, claim, completion, value);
    var r := client.Complete(claim.jobId, completion);
    if r == Error(Some(400)) {
      ghost var before := client.log;
      end := ReportFailure(client, claim, ImageInvalid, false);
      assert client.log[..|before|] == before;
    } else {
      end := EndOf(r);
    }
  }

  ghost predicate AcknowledgedLast(before: seq<Exchange>, after: seq<Exchange>) {
    |before| < |after| && after[|after| - 1].post.Write? && AcceptedBy(after[|after| - 1].reply, after[|after| - 1].post.document)
  }

  /** What is told of a claim keeps the discipline. */
  lemma TellingIsOneJob(client: CodexPortraitClient, said: seq<Exchange>, claim: Claim, outcome: Execution)
    requires 1 <= |said| && ClaimIn(said[0]) == Some(claim) && Tells(client, said, claim, outcome)
    ensures OneJob(said)
  {
  }

  /** Answer a claim with what its execution came to. */
  method AnswerClaim(client: CodexPortraitClient, claim: Claim, outcome: Execution, ghost claimed: Exchange) returns (end: JobEnd)
    requires client.Valid() && Holding(client, claim) && ClaimIn(claimed) == Some(claim)
    modifies client
    ensures client.Valid()
    ensures |old(client.log)| <= |client.log| && client.log[..|old(client.log)|] == old(client.log)
    ensures var said := [claimed] + client.log[|old(client.log)|..];
      && Tells(client, said, claim, outcome) && Ends(said, outcome, end) && OneJob(said)
      && (end == Worked ==> AcknowledgedLast([claimed], said)) && end != NoWork
  {
    match outcome
    case Produced(completion) => end := DeliverCompletion(client, claim, completion, claimed);
    case GaveUp(code, fatal) => end := ReportFailure(client, claim, code, fatal);
    case Crashed => end := ReportFailure(client, claim, GenerationFailed, false);
    TellingIsOneJob(client, [claimed] + client.log[|old(client.log)|..], claim, outcome);
  }

  ghost predicate HoldsAClaim(value: Value) {
    value.ClaimValue? && IsAClaim(value, value.claim)
  }

  lemma ClaimIsTaken(e: Exchange)
    requires e.post.AskClaim?
    ensures if e.reply.Answered? && HoldsAClaim(e.reply.value) then ClaimIn(e) == Some(e.reply.value.claim) else ClaimIn(e) == None
  {
    if e.reply.Answered? && e.reply.value.ClaimValue? {
      ParsedIff(e.reply.value, e.reply.value.claim);
    }
  }

  /** A claim is asked for; one that holds together is answered with what its execution came to, and without one
      nothing more is said. */
  ghost predicate AnswersTheClaim(client: CodexPortraitClient, said: seq<Exchange>, execute: Claim -> Execution, end: JobEnd) {
    && said != [] && said[0].post == AskClaim
    && match said[0].reply
       case NoContent => |said| == 1 && end == NoWork
       case Refused(status) => |said| == 1 && end == Threw(Some(status))
       case Lost => |said| == 1 && end == Threw(None)
       case Answered(value) =>
         if HoldsAClaim(value) then Tells(client, said, value.claim, execute(value.claim)) && Ends(said, execute(value.claim), end)
         else |said| == 1 && end == Threw(None)
  }

  /** One portrait job. Nothing is claimed unless the local check passes; a claim is asked for once; what follows
      it is what the execution came to, and the end is true of the server's last answer. */
  method RunOnePortraitJob(client: CodexPortraitClient, compatible: bool, execute: Claim -> Execution) returns (end: JobEnd)
    requires client.Valid()
    modifies client
    ensures client.Valid()
    ensures |old(client.log)| <= |client.log| && client.log[..|old(client.log)|] == old(client.log)
    ensures OneJob(client.log[|old(client.log)|..])
    ensures end == Worked ==> AcknowledgedLast(old(client.log), client.log)
    ensures !compatible ==> client.log == old(client.log) && end == NoWork
    ensures compatible ==> AnswersTheClaim(client, client.log[|old(client.log)|..], execute, end)
  {
    if !compatible { return NoWork; }
    var asked := client.AskForWork();
    ghost var claimed := client.log;
    ClaimIsTaken(claimed[|old(client.log)|]);
    if asked.Error? { return Threw(asked.status); }
    if asked.value.None? { return NoWork; }
    ghost var e := claimed[|old(client.log)|];
    assert claimed == old(client.log) + [e];
    end := AnswerClaim(client, asked.value.value, execute(asked.value.value), e);
    assert client.log[|old(client.log)|..] == [e] + client.log[|claimed|..];
  }

  /** Any number of portrait jobs, one after the other, until one fails for good. */
  method RunPortraitJobs(client: CodexPortraitClient, compatible: nat -> bool, execute: (nat, Claim) -> Execution, jobs: nat)
    requires client.Valid() && Disciplined(client.log)
    modifies client
    ensures client.Valid() && Disciplined(client.log) && Faithful(client.log)
  {
    var n := 0;
    while n < jobs
      invariant client.Valid() && Disciplined(client.log)
    {
      ghost var before := client.log;
      var end := RunOnePortraitJob(client, compatible(n), claim => execute(n, claim));
      assert client.log == before + client.log[|before|..];
      JobKeepsDiscipline(before, client.log[|before|..]);
      if end == FatalError { return; }
      n := n + 1;
    }
  }

  // ----- The text lane -----

  datatype TextExecution = TextProduced(sound: bool) | TextGaveUp(sound: bool, fatal: bool) | TextCrashed

  /** The job and the lease of an accepted text claim. */
  function ClaimedText(e: Exchange): Option<(string, string)> {
    if e.post.AskTextClaim? && e.reply.Answered? && e.reply.value.TextClaimValue? && e.reply.value.sound
    then Some((e.reply.value.jobId, e.reply.value.lease))
    else None
  }

  /** The text client remembers nothing between requests. */
  class CodexProviderClient {
    const server: nat -> Reply
    var log: seq<Exchange>

    constructor (server: nat -> Reply)
      ensures log == [] && this.server == server
    {
      this.server, log := server, [];
    }

    method AskForWork() returns (r: Attempt<Option<(string, string)>>)
      modifies this
      ensures var e := Exchange(AskTextClaim, server(|old(log)|));
        && log == old(log) + [e]
        && (r.Done? && r.value.Some? ==> ClaimedText(e) == r.value)
        && (ClaimedText(e).Some? ==> r == Done(ClaimedText(e)))
        && (r == Done(None) <==> e.reply.NoContent?)
        && (r.Error? ==> r.status == StatusOf(e.reply))
    {
      var reply := server(|log|);
      log := log + [Exchange(AskTextClaim, reply)];
      match reply
      case NoContent => r := Done(None);
      case Lost => r := Error(None);
      case Refused(status) => r := Error(Some(status));
      case Answered(value) =>
        r := if value.TextClaimValue? && value.sound then Done(Some((value.jobId, value.lease))) else Error(None);
    }

    method Terminal(jobId: string, d: Document) returns (r: Attempt<()>)
      requires d.TextCompletion? || d.TextFailure?
      modifies this
      ensures !d.sound ==> r == Error(None) && log == old(log)
      ensures d.sound ==> var reply := server(|old(log)|);
        && log == old(log) + [Exchange(Write(jobId, d), reply)]
        && r == (if AcceptedBy(reply, d) then Done(()) else Error(StatusOf(reply)))
    {
      if !d.sound { return Error(None); }
      var reply := server(|log|);
      log := log + [Exchange(Write(jobId, d), reply)];
      if reply == Answered(Acknowledgement(false, true)) { return Done(()); }
      r := Error(StatusOf(reply));
    }
  }

  function DocumentFor(lease: string, outcome: TextExecution): (d: Document)
    ensures d.TextCompletion? || d.TextFailure?
  {
    match outcome
    case TextProduced(sound) => TextCompletion(lease, sound)
    case TextGaveUp(sound, _) => TextFailure(lease, sound)
    case TextCrashed => TextFailure(lease, true)
  }

  /** Nothing but `d` is posted under the claim. */
  ghost predicate PostsOnly(said: seq<Exchange>, jobId: string, d: Document) {
    |said| == 2 && said[1].post == Write(jobId, d)
  }

  /** A claimed job is answered under the lease of its claim: a well-formed text with a completion, a failure
      or a crash with a failure, and a document that is not well formed not at all. */
  ghost predicate TellsText(said: seq<Exchange>, claim: (string, string), outcome: TextExecution)
    requires 1 <= |said|
  {
    && (outcome == TextProduced(true) ==> PostsOnly(said, claim.0, TextCompletion(claim.1, true)))
    && (outcome.TextGaveUp? && outcome.sound ==> PostsOnly(said, claim.0, TextFailure(claim.1, true)))
    && (outcome == TextCrashed ==> PostsOnly(said, claim.0, TextFailure(claim.1, true)))
    && (!outcome.TextCrashed? && !outcome.sound ==> |said| == 1)
  }

  /** How a claimed text job ends: fatally exactly if the execution said so, and otherwise as the write went. */
  ghost predicate EndsText(said: seq<Exchange>, outcome: TextExecution, end: JobEnd)
    requires 1 <= |said|
  {
    && (end == FatalError <==> outcome.TextGaveUp? && outcome.fatal)
    && (end != FatalError ==>
          end == if |said| == 1 then Threw(None)
                 else if said[1].reply == Answered(Acknowledgement(false, true)) then Worked
                 else if said[1].reply.Refused? then Threw(Some(said[1].reply.status)) else Threw(None))
  }

  /** A claim is asked for; a well-formed one is answered with what its execution came to, and without one nothing
      more is said. */
  ghost predicate AnswersTheText(said: seq<Exchange>, execute: ((string, string)) -> TextExecution, end: JobEnd) {
    && said != [] && said[0].post == AskTextClaim
    && match said[0].reply
       case NoContent => |said| == 1 && end == NoWork
       case Refused(status) => |said| == 1 && end == Threw(Some(status))
       case Answered(TextClaimValue(jobId, lease, true)) =>
         TellsText(said, (jobId, lease), execute((jobId, lease))) && EndsText(said, execute((jobId, lease)), end)
       case _ => |said| == 1 && end == Threw(None)
  }

  /** One text job: a claim is asked for once, its outcome is answered with one write at most, and nothing
      follows that write whatever the server says. */
  method RunOneCodexJob(client: CodexProviderClient, execute: ((string, string)) -> TextExecution) returns (end: JobEnd)
    modifies client
    ensures |old(client.log)| < |client.log| <= |old(client.log)| + 2 && client.log[..|old(client.log)|] == old(client.log)
    ensures OneJob(client.log[|old(client.log)|..])
    ensures end == Worked ==> AcknowledgedLast(old(client.log), client.log)
    ensures AnswersTheText(client.log[|old(client.log)|..], execute, end)
  {
    var asked := client.AskForWork();
    if asked.Error? { return Threw(asked.status); }
    if asked.value.None? { return NoWork; }
    var claim := asked.value.value;
    var outcome := execute(claim);
    var r := client.Terminal(claim.0, DocumentFor(claim.1, outcome));
    end := if outcome.TextGaveUp? && outcome.fatal then FatalError else EndOf(r);
  }

  /** Any number of text jobs, one after the other, until one fails for good. */
  method RunTextJobs(client: CodexProviderClient, execute: (nat, (string, string)) -> TextExecution, jobs: nat)
    requires Disciplined(client.log)
    modifies client
    ensures Disciplined(client.log)
    ensures |old(client.log)| <= |client.log| <= |old(client.log)| + 2 * jobs && client.log[..|old(client.log)|] == old(client.log)
  {
    var n := 0;
    while n < jobs
      invariant n <= jobs && Disciplined(client.log)
      invariant |old(client.log)| <= |client.log| <= |old(client.log)| + 2 * n && client.log[..|old(client.log)|] == old(client.log)
    {
      ghost var before := client.log;
      var end := RunOneCodexJob(client, claim => execute(n, claim));
      assert client.log == before + client.log[|before|..];
      JobKeepsDiscipline(before, client.log[|before|..]);
      assert client.log[..|old(client.log)|] == before[..|old(client.log)|];
      if end == FatalError { return; }
      n := n + 1;
    }
  }
}

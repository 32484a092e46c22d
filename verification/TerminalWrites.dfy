/** Claims, and the one terminal write that may follow each: what a runner says to the server. */
module TerminalWrites {
  import opened Optional
  import opened Texts

  // ----- Documents -----

  /** Where a version 2 document belongs in its portrait. */
  datatype Binding = Binding(count: int, index: int, id: string, revision: string)

  datatype Version = V1(index: int) | V2(binding: Binding)

  datatype Claim = Claim(jobId: string, lease: string, sourceSha: string, version: Version)

  datatype Code = GenerationFailed | GenerationRefused | ImageInvalid | AuthenticationFailed

  /** What is posted about a job. `sound` stands for the checks of everything not modelled here. */
  datatype Document =
    | Completion(lease: string, sourceSha: string, chapter: Option<Binding>, sound: bool)
    | FailureV1(lease: string, code: Code)
    | FailureV2(lease: string, code: Code, sourceSha: string, binding: Binding)
    | TextCompletion(lease: string, sound: bool)
    | TextFailure(lease: string, sound: bool)

  /** The body of an answer with status 200; `sound` as above. */
  datatype Value = ClaimValue(claim: Claim, sound: bool) | TextClaimValue(jobId: string, lease: string, sound: bool)
                 | Acknowledgement(v2: bool, accepted: bool) | OtherValue

  /** What becomes of a request: no answer was seen, an error status, an empty answer, or a body. */
  datatype Reply = Lost | Refused(status: int) | NoContent | Answered(value: Value)

  datatype Post = AskClaim | AskTextClaim | Write(jobId: string, document: Document)

  datatype Exchange = Exchange(post: Post, reply: Reply)

  datatype Attempt<T> = Done(value: T) | Error(status: Option<int>)

  // ----- Checks -----

  predicate IsJobId(id: string) {
    |id| == 38 && id[..6] == "ppjob_" && IsHex(id[6..], 32)
  }

  predicate BindingAccepted(b: Binding) {
    && 3 <= b.count <= 6 && 0 <= b.index < b.count
    && b.id == "chapter-" + [('1' as int + b.index) as char]
    && !Blank(b.revision) && |b.revision| <= 256
    && forall i :: 0 <= i < |b.revision| ==> 0x1F < b.revision[i] as int
  }

  function ParsedClaim(value: Value): Option<Claim> {
    if value.ClaimValue? && value.sound
       && IsJobId(value.claim.jobId) && IsUuid(value.claim.lease) && IsHex(value.claim.sourceSha, 64)
       && (match value.claim.version case V1(index) => 0 <= index <= 3 case V2(binding) => BindingAccepted(binding))
    then Some(value.claim) else None
  }

  predicate CompletionAccepted(d: Document) {
    && d.Completion? && d.sound && IsUuid(d.lease) && IsHex(d.sourceSha, 64)
    && (d.chapter.Some? ==> BindingAccepted(d.chapter.value))
  }

  predicate IsPortraitFailure(d: Document) {
    d.FailureV1? || d.FailureV2?
  }

  predicate FailureAccepted(d: Document) {
    && IsPortraitFailure(d) && IsUuid(d.lease)
    && (d.FailureV2? ==> BindingAccepted(d.binding) && IsHex(d.sourceSha, 64))
  }

  predicate IsV2(d: Document) {
    d.FailureV2? || (d.Completion? && d.chapter.Some?)
  }

  function BindingOf(d: Document): Binding
    requires IsV2(d)
  {
    if d.Completion? then d.chapter.value else d.binding
  }

  function ShaOf(d: Document): string
    requires IsV2(d)
  {
    d.sourceSha
  }

  /** What the client remembers of a claim. */
  datatype Lease = LeaseV1 | LeaseV2(lease: string, sourceSha: string, binding: Binding)

  function LeaseOf(c: Claim): Lease {
    match c.version case V1(_) => LeaseV1 case V2(binding) => LeaseV2(c.lease, c.sourceSha, binding)
  }

  predicate MatchesClaim(d: Document, lease: Lease)
    requires IsV2(d) && lease.LeaseV2?
  {
    d.lease == lease.lease && BindingOf(d) == lease.binding && ShaOf(d) == lease.sourceSha
  }

  /** A document of the version of the lease it is posted under; without a lease only version 1 passes. */
  predicate Suits(d: Document, lease: Option<Lease>) {
    match lease
    case None => !IsV2(d)
    case Some(LeaseV1) => !IsV2(d)
    case Some(LeaseV2(l, s, b)) => IsV2(d) && MatchesClaim(d, LeaseV2(l, s, b))
  }

  function StatusOf(reply: Reply): Option<int> {
    if reply.Refused? then Some(reply.status) else None
  }

  predicate AcceptedBy(reply: Reply, d: Document) {
    reply == Answered(Acknowledgement(IsV2(d), true))
  }

  // ----- What the log shows -----

  function ClaimIn(e: Exchange): Option<Claim> {
    if e.post.AskClaim? && e.reply.Answered? then ParsedClaim(e.reply.value) else None
  }

  /** The latest claim of this job. */
  function LatestFor(log: seq<Exchange>, jobId: string): Option<Claim> {
    if log == [] then None
    else
      var claim := ClaimIn(log[|log| - 1]);
      if claim.Some? && claim.value.jobId == jobId then claim else LatestFor(log[..|log| - 1], jobId)
  }

  lemma {:induction false} LatestExtends(log: seq<Exchange>, e: Exchange, jobId: string)
    ensures LatestFor(log + [e], jobId)
         == if ClaimIn(e).Some? && ClaimIn(e).value.jobId == jobId then ClaimIn(e) else LatestFor(log, jobId)
  {
    assert (log + [e])[..|log|] == log;
  }

  /** A version 2 document carries the lease and the binding of the latest claim of its job. */
  ghost predicate FaithfulAt(log: seq<Exchange>, j: nat)
    requires j < |log|
  {
    log[j].post.Write? && IsV2(log[j].post.document) ==>
      var claim := LatestFor(log[..j], log[j].post.jobId);
      var d := log[j].post.document;
      && claim.Some? && claim.value.version == V2(BindingOf(d))
      && d.lease == claim.value.lease && ShaOf(d) == claim.value.sourceSha
  }

  ghost predicate Faithful(log: seq<Exchange>) {
    forall j {:trigger FaithfulAt(log, j)} :: 0 <= j < |log| ==> FaithfulAt(log, j)
  }

  ghost predicate ClaimsTraced(claims: map<string, Lease>, log: seq<Exchange>) {
    forall jobId :: jobId in claims ==>
      LatestFor(log, jobId).Some? && claims[jobId] == LeaseOf(LatestFor(log, jobId).value)
  }

  lemma FaithfulExtends(log: seq<Exchange>, e: Exchange)
    requires Faithful(log) && FaithfulAt(log + [e], |log|)
    ensures Faithful(log + [e])
  {
    forall j | 0 <= j < |log + [e]|
      ensures FaithfulAt(log + [e], j)
    {
      if j < |log| {
        assert FaithfulAt(log, j);
        assert (log + [e])[..j] == log[..j];
      }
    }
  }

  /** A write that suits the remembered lease is faithful, and a failure to acknowledge changes nothing. */
  lemma WriteIsFaithful(claims: map<string, Lease>, log: seq<Exchange>, jobId: string, d: Document, reply: Reply)
    requires ClaimsTraced(claims, log) && Faithful(log)
    requires Suits(d, if jobId in claims then Some(claims[jobId]) else None)
    ensures Faithful(log + [Exchange(Write(jobId, d), reply)])
    ensures ClaimsTraced(claims, log + [Exchange(Write(jobId, d), reply)])
  {
    var e := Exchange(Write(jobId, d), reply);
    assert (log + [e])[..|log|] == log;
    FaithfulExtends(log, e);
    forall id | id in claims
      ensures LatestFor(log + [e], id) == LatestFor(log, id)
    {
      LatestExtends(log, e, id);
    }
  }

  lemma AskingIsFaithful(claims: map<string, Lease>, log: seq<Exchange>, reply: Reply)
    requires ClaimsTraced(claims, log) && Faithful(log)
    ensures var e := Exchange(AskClaim, reply);
      && Faithful(log + [e])
      && ClaimsTraced(if ClaimIn(e).Some? then claims[ClaimIn(e).value.jobId := LeaseOf(ClaimIn(e).value)] else claims, log + [e])
  {
    var e := Exchange(AskClaim, reply);
    assert (log + [e])[..|log|] == log;
    FaithfulExtends(log, e);
    forall id
      ensures LatestFor(log + [e], id)
           == if ClaimIn(e).Some? && ClaimIn(e).value.jobId == id then ClaimIn(e) else LatestFor(log, id)
    {
      LatestExtends(log, e, id);
    }
  }

  // ----- What a claim must be -----

  /** The chapter of a version 2 document: one of three to six, named by its number, with a legible revision. */
  ghost predicate IsAChapter(b: Binding) {
    && (b.count == 3 || b.count == 4 || b.count == 5 || b.count == 6) && 0 <= b.index < b.count
    && b.id == ["chapter-1", "chapter-2", "chapter-3", "chapter-4", "chapter-5", "chapter-6"][b.index]
    && |b.revision| <= 256 && (forall c :: c in b.revision ==> ' ' <= c)
    && exists c :: c in b.revision && !IsSpace(c)
  }

  lemma NumberedChapter(index: int)
    requires 0 <= index < 6
    ensures "chapter-" + [('1' as int + index) as char]
         == ["chapter-1", "chapter-2", "chapter-3", "chapter-4", "chapter-5", "chapter-6"][index]
  {
  }

  lemma ChapterIff(b: Binding)
    ensures BindingAccepted(b) <==> IsAChapter(b)
  {
    if 0 <= b.index < 6 {
      NumberedChapter(b.index);
    }
    if IsAChapter(b) {
      var c :| c in b.revision && !IsSpace(c);
      assert forall i :: 0 <= i < |b.revision| ==> b.revision[i] in b.revision;
    }
    if BindingAccepted(b) {
      var i :| 0 <= i < |b.revision| && !IsSpace(b.revision[i]);
      assert b.revision[i] in b.revision;
    }
  }

  ghost predicate NamesAJob(id: string) {
    exists digits :: id == "ppjob_" + digits && HexDigits(digits, 32)
  }

  /** The body of a claim that holds together: identifiers of the right forms, and a chapter of its version. */
  ghost predicate IsAClaim(value: Value, c: Claim) {
    && value == ClaimValue(c, true)
    && NamesAJob(c.jobId) && FiveGroups(c.lease) && HexDigits(c.sourceSha, 64)
    && match c.version
       case V1(index) => index == 0 || index == 1 || index == 2 || index == 3
       case V2(binding) => IsAChapter(binding)
  }

  lemma JobIdIff(id: string)
    ensures IsJobId(id) <==> NamesAJob(id)
  {
    if IsJobId(id) {
      IsHexIff(id[6..], 32);
      assert id == "ppjob_" + id[6..];
    }
    if digits :| id == "ppjob_" + digits && HexDigits(digits, 32) {
      IsHexIff(digits, 32);
      assert id[..6] == "ppjob_" && id[6..] == digits;
    }
  }

  /** A claim is taken if and only if it holds together. */
  lemma ParsedIff(value: Value, c: Claim)
    ensures ParsedClaim(value) == Some(c) <==> IsAClaim(value, c)
  {
    JobIdIff(c.jobId);
    UuidIff(c.lease);
    IsHexIff(c.sourceSha, 64);
    if c.version.V2? {
      ChapterIff(c.version.binding);
    }
  }

  // ----- What may be posted -----

  /** A well-formed report about a portrait job, in either version. */
  ghost predicate IsAReport(d: Document) {
    match d
    case Completion(lease, sha, chapter, sound) =>
      sound && FiveGroups(lease) && HexDigits(sha, 64) && (chapter.Some? ==> IsAChapter(chapter.value))
    case FailureV1(lease, _) => FiveGroups(lease)
    case FailureV2(lease, _, sha, binding) => FiveGroups(lease) && HexDigits(sha, 64) && IsAChapter(binding)
    case _ => false
  }

  /** Under a version 2 claim the document repeats its lease, source and chapter; elsewhere it is of version 1. */
  ghost predicate IsUnder(d: Document, lease: Option<Lease>) {
    if lease.Some? && lease.value.LeaseV2? then
      || (d.Completion? && d == Completion(lease.value.lease, lease.value.sourceSha, Some(lease.value.binding), d.sound))
      || (d.FailureV2? && d == FailureV2(lease.value.lease, d.code, lease.value.sourceSha, lease.value.binding))
    else !d.FailureV2? && (d.Completion? ==> d.chapter.None?)
  }

  lemma ReportIff(d: Document)
    ensures IsAReport(d) <==> CompletionAccepted(d) || FailureAccepted(d)
  {
    if d.Completion? || IsPortraitFailure(d) {
      UuidIff(d.lease);
    }
    if IsV2(d) {
      ChapterIff(BindingOf(d));
    }
    if d.Completion? || d.FailureV2? {
      IsHexIff(d.sourceSha, 64);
    }
  }

  lemma UnderIff(d: Document, lease: Option<Lease>)
    ensures IsUnder(d, lease) <==> Suits(d, lease)
  {
  }

  // ----- The portrait client -----

  const MAX_COMPLETION_BYTES := 3 * 1024 * 1024

  class CodexPortraitClient {
    /** How the server treats the n-th request, and how long a document is when serialized. */
    const server: nat -> Reply
    const sizeOf: Document -> nat
    var claims: map<string, Lease>
    var log: seq<Exchange>

    ghost predicate Valid()
      reads this
    {
      ClaimsTraced(claims, log) && Faithful(log)
    }

    function Remembered(jobId: string): Option<Lease>
      reads this
    {
      if jobId in claims then Some(claims[jobId]) else None
    }

    constructor (server: nat -> Reply, sizeOf: Document -> nat)
      ensures Valid() && log == [] && this.server == server && this.sizeOf == sizeOf
    {
      this.server, this.sizeOf, claims, log := server, sizeOf, map[], [];
    }

    /** One document went out, and the caller hears what the server made of it. */
    ghost predicate Posted(before: seq<Exchange>, after: seq<Exchange>, jobId: string, d: Document, r: Attempt<()>) {
      var reply := server(|before|);
      && after == before + [Exchange(Write(jobId, d), reply)]
      && r == if AcceptedBy(reply, d) then Done(()) else Error(StatusOf(reply))
    }

    /** The document is a well-formed report about a job, suits the claim, and is at most three megabytes long. */
    ghost predicate IsPostable(jobId: string, d: Document, lease: Option<Lease>) {
      NamesAJob(jobId) && IsAReport(d) && IsUnder(d, lease) && sizeOf(d) <= 3 * 1024 * 1024
    }

    method Send(post: Post) returns (reply: Reply)
      modifies this`log
      ensures reply == server(|old(log)|) && log == old(log) + [Exchange(post, reply)]
    {
      reply := server(|log|);
      log := log + [Exchange(post, reply)];
    }

    method AskForWork() returns (r: Attempt<Option<Claim>>)
      requires Valid()
      modifies this
      ensures Valid()
      ensures var e := Exchange(AskClaim, server(|old(log)|));
        && log == old(log) + [e]
        && (ClaimIn(e).Some? ==> r == Done(ClaimIn(e)) && Remembered(ClaimIn(e).value.jobId) == Some(LeaseOf(ClaimIn(e).value)))
        && (e.reply.NoContent? ==> r == Done(None))
        && (ClaimIn(e).None? && !e.reply.NoContent? ==> r == Error(StatusOf(e.reply)))
    {
      var reply := Send(AskClaim);
      AskingIsFaithful(old(claims), old(log), reply);
      match reply
      case NoContent => r := Done(None);
      case Lost => r := Error(None);
      case Refused(status) => r := Error(Some(status));
      case Answered(value) =>
        var claim := ParsedClaim(value);
        if claim.None? { return Error(None); }
        claims := claims[claim.value.jobId := LeaseOf(claim.value)];
        r := Done(claim);
    }

    /** Post a terminal document; the claim is forgotten only once the server has said it is accepted. */
    method Terminal(jobId: string, d: Document) returns (r: Attempt<()>)
      requires Valid() && Suits(d, Remembered(jobId))
      modifies this
      ensures Valid()
      ensures if sizeOf(d) <= MAX_COMPLETION_BYTES then Posted(old(log), log, jobId, d, r) else r == Error(None) && log == old(log)
      ensures claims == if r.Done? then old(claims) - {jobId} else old(claims)
    {
      if sizeOf(d) > MAX_COMPLETION_BYTES { return Error(None); }
      var reply := Send(Write(jobId, d));
      WriteIsFaithful(old(claims), old(log), jobId, d, reply);
      match reply
      case Lost => r := Error(None);
      case Refused(status) => r := Error(Some(status));
      case NoContent => r := Error(None);
      case Answered(value) =>
        if value != Acknowledgement(IsV2(d), true) { return Error(None); }
        claims := claims - {jobId};
        r := Done(());
    }

    /** Post a completion, unless it is not one for the claim remembered. */
    method Complete(jobId: string, completion: Document) returns (r: Attempt<()>)
      requires Valid() && completion.Completion?
      modifies this
      ensures Valid()
      ensures if IsPostable(jobId, completion, old(Remembered(jobId)))
              then Posted(old(log), log, jobId, completion, r)
              else r == Error(None) && log == old(log)
      ensures claims == if r.Done? then old(claims) - {jobId} else old(claims)
    {
      var lease := Remembered(jobId);
      JobIdIff(jobId);
      ReportIff(completion);
      UnderIff(completion, lease);
      if !IsJobId(jobId) || !CompletionAccepted(completion)
         || (IsV2(completion) && (lease.None? || !lease.value.LeaseV2?))
         || (lease.Some? && lease.value.LeaseV2? && (!IsV2(completion) || !MatchesClaim(completion, lease.value)))
      {
        return Error(None);
      }
      r := Terminal(jobId, completion);
    }

    /** The failure document actually posted: under a version 2 claim the binding is filled in. */
    function FailureFor(jobId: string, failure: Document): (d: Document)
      requires IsPortraitFailure(failure)
      reads this
      ensures IsPortraitFailure(d) && d.lease == failure.lease && d.code == failure.code
      ensures failure.FailureV2? || Remembered(jobId) in {None, Some(LeaseV1)} ==> d == failure
      ensures forall l, s, b :: failure.FailureV1? && Remembered(jobId) == Some(LeaseV2(l, s, b)) ==>
        d.FailureV2? && d.sourceSha == s && d.binding == b
    {
      if failure.FailureV1? && jobId in claims && claims[jobId].LeaseV2?
      then FailureV2(failure.lease, failure.code, claims[jobId].sourceSha, claims[jobId].binding) else failure
    }

    method Fail(jobId: string, failure: Document) returns (r: Attempt<()>)
      requires Valid() && IsPortraitFailure(failure)
      modifies this
      ensures Valid()
      ensures var body := old(FailureFor(jobId, failure));
              if IsPostable(jobId, body, old(Remembered(jobId)))
              then Posted(old(log), log, jobId, body, r)
              else r == Error(None) && log == old(log)
      ensures claims == if r.Done? then old(claims) - {jobId} else old(claims)
    {
      var lease := Remembered(jobId);
      var body := FailureFor(jobId, failure);
      JobIdIff(jobId);
      ReportIff(body);
      UnderIff(body, lease);
      if !IsJobId(jobId) || !FailureAccepted(body)
         || (IsV2(body) && (lease.None? || !lease.value.LeaseV2?))
         || (lease.Some? && lease.value.LeaseV2? && (!IsV2(body) || !MatchesClaim(body, lease.value)))
      {
        return Error(None);
      }
      r := Terminal(jobId, body);
    }
  }
}

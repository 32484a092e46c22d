/** From chunks of output to messages: newline framing, and why it does not depend on the chunks. */
module Framing {
  import opened Optional
  import opened Texts
  import opened Session

  const EVENT_CEILING := 32 * 1024 * 1024
  const PENDING_CEILING := 16 * 1024 * 1024

  /** The reading side: what is not yet a line, how much has arrived, the messages handed over, and the session. */
  datatype Stream = Stream(pending: string, eventBytes: nat, heard: seq<Message>, state: State)

  const OPENED := Stream("", 0, [], START)

  // ----- Lines -----

  /** The first newline, or the length of the text. */
  function NewlineAt(text: string): (n: nat)
    ensures n <= |text|
    ensures n < |text| ==> text[n] == '\n'
    ensures forall i :: 0 <= i < n ==> text[i] != '\n'
  {
    if text == "" || text[0] == '\n' then 0 else 1 + NewlineAt(text[1..])
  }

  /** The complete lines of a text, in order. */
  function Lines(text: string): seq<string>
    decreases |text|
  {
    var n := NewlineAt(text);
    if n == |text| then [] else [text[..n]] + Lines(text[n + 1..])
  }

  /** What follows the last newline. */
  function Rest(text: string): string
    decreases |text|
  {
    var n := NewlineAt(text);
    if n == |text| then text else Rest(text[n + 1..])
  }

  // ----- One line, one chunk -----

  function TakeLine(options: Options, s: Stream, line: string): Stream {
    if s.state.stopping || Blank(line) then s
    else
      match options.parse(line)
      case None => s.(state := Stopped(s.state, Some(Invalid(false))))
      case Some(m) => s.(heard := s.heard + [m], state := Step(options, s.state, m))
  }

  /** Hand over the pending lines one by one until the session stops. */
  function Drained(options: Options, s: Stream): Stream
    decreases |s.pending|
  {
    var n := NewlineAt(s.pending);
    if s.state.stopping || n == |s.pending| then s
    else
      var next := TakeLine(options, s.(pending := s.pending[n + 1..]), s.pending[..n]);
      Drained(options, next)
  }

  function Received(s: Stream, chunk: string): Stream {
    s.(pending := s.pending + chunk, eventBytes := s.eventBytes + ByteLength(chunk))
  }

  function Fed(options: Options, s: Stream, chunk: string): Stream {
    if s.state.stopping then s
    else
      var grown := Received(s, chunk);
      if grown.eventBytes > EVENT_CEILING || ByteLength(grown.pending) > PENDING_CEILING
      then grown.(state := Stopped(s.state, Some(Invalid(false))))
      else Drained(options, grown)
  }

  function FedAll(options: Options, chunks: seq<string>): Stream {
    if chunks == [] then OPENED
    else Fed(options, FedAll(options, chunks[..|chunks| - 1]), chunks[|chunks| - 1])
  }

  function Joined(chunks: seq<string>): string {
    if chunks == [] then "" else Joined(chunks[..|chunks| - 1]) + chunks[|chunks| - 1]
  }

  /** The session over whole lines, with no framing at all. */
  function OverLines(options: Options, s: Stream, lines: seq<string>): Stream
    decreases |lines|
  {
    if lines == [] then s else OverLines(options, TakeLine(options, s, lines[0]), lines[1..])
  }

  // ----- Framing -----

  lemma {:induction false} FirstLine(line: string, rest: string)
    requires forall i :: 0 <= i < |line| ==> line[i] != '\n'
    ensures Lines(line + ['\n'] + rest) == [line] + Lines(rest)
    ensures Rest(line + ['\n'] + rest) == Rest(rest)
  {
    var text := line + ['\n'] + rest;
    assert forall i :: 0 <= i < |line| ==> text[i] == line[i];
    assert text[|line|] == '\n';
    assert NewlineAt(text) == |line|;
    assert text[..|line|] == line && text[|line| + 1..] == rest;
  }

  lemma CutAtNewline(a: string, b: string, n: nat) returns (line: string, rest: string)
    requires n == NewlineAt(a) < |a|
    ensures forall i :: 0 <= i < |line| ==> line[i] != '\n'
    ensures a == line + ['\n'] + rest && a + b == line + ['\n'] + (rest + b) && |rest| < |a|
  {
    line, rest := a[..n], a[n + 1..];
  }

  lemma LeadingLine(line: string, x: seq<string>, y: seq<string>)
    ensures [line] + (x + y) == ([line] + x) + y
  {
  }

  lemma {:induction false} LinesJoin(a: string, b: string)
    ensures Lines(a + b) == Lines(a) + Lines(Rest(a) + b)
    ensures Rest(a + b) == Rest(Rest(a) + b)
    decreases |a|
  {
    var n := NewlineAt(a);
    if n == |a| {
      assert Lines(a) == [] && Rest(a) == a;
    } else {
      var line, rest := CutAtNewline(a, b, n);
      FirstLine(line, rest);
      FirstLine(line, rest + b);
      LinesJoin(rest, b);
      LeadingLine(line, Lines(rest), Lines(Rest(rest) + b));
    }
  }

  lemma {:induction false} OverLinesJoin(options: Options, s: Stream, a: seq<string>, b: seq<string>)
    ensures OverLines(options, s, a + b) == OverLines(options, OverLines(options, s, a), b)
    decreases |a|
  {
    if a == [] {
      assert a + b == b;
    } else {
      assert (a + b)[1..] == a[1..] + b;
      OverLinesJoin(options, TakeLine(options, s, a[0]), a[1..], b);
    }
  }

  lemma {:induction false} StoppedHearsNothing(options: Options, s: Stream, lines: seq<string>)
    requires s.state.stopping
    ensures OverLines(options, s, lines) == s
    decreases |lines|
  {
    if lines != [] {
      StoppedHearsNothing(options, s, lines[1..]);
    }
  }

  /** Two streams that have heard the same and are in the same state, however their input was cut. */
  ghost predicate SameHearing(s: Stream, t: Stream) {
    s.heard == t.heard && s.state == t.state
  }

  lemma LineIgnoresPending(options: Options, s: Stream, t: Stream, line: string)
    requires SameHearing(s, t)
    ensures SameHearing(TakeLine(options, s, line), TakeLine(options, t, line))
  {
  }

  lemma {:induction false} DrainingTakesTheLines(options: Options, s: Stream, t: Stream)
    requires SameHearing(s, t)
    ensures SameHearing(Drained(options, s), OverLines(options, t, Lines(s.pending)))
    decreases |s.pending|
  {
    var n := NewlineAt(s.pending);
    if s.state.stopping {
      StoppedHearsNothing(options, t, Lines(s.pending));
    } else if n == |s.pending| {
      assert Lines(s.pending) == [] && OverLines(options, t, []) == t;
    } else {
      var line, rest := s.pending[..n], s.pending[n + 1..];
      var next := TakeLine(options, s.(pending := rest), line);
      LineIgnoresPending(options, s.(pending := rest), t, line);
      DrainingTakesTheLines(options, next, TakeLine(options, t, line));
      OverFirstLine(options, t, line, Lines(rest));
    }
  }

  lemma {:induction false} DrainingLeavesTheRest(options: Options, s: Stream)
    ensures !Drained(options, s).state.stopping ==> Drained(options, s).pending == Rest(s.pending)
    ensures Drained(options, s).eventBytes == s.eventBytes
    decreases |s.pending|
  {
    var n := NewlineAt(s.pending);
    if !s.state.stopping && n < |s.pending| {
      DrainingLeavesTheRest(options, TakeLine(options, s.(pending := s.pending[n + 1..]), s.pending[..n]));
    }
  }

  lemma {:induction false} OverFirstLine(options: Options, t: Stream, line: string, lines: seq<string>)
    ensures OverLines(options, t, [line] + lines) == OverLines(options, TakeLine(options, t, line), lines)
  {
    assert ([line] + lines)[1..] == lines;
  }

  // ----- The ceilings -----

  /** With every chunk, no more than 32 MiB have arrived in all, and no more than 16 MiB of it are pending. */
  ghost predicate WithinCeilings(chunks: seq<string>) {
    forall i {:trigger chunks[i]} :: 0 <= i < |chunks| ==> ChunkFits(Joined(chunks[..i]), chunks[i])
  }

  ghost predicate ChunkFits(before: string, chunk: string) {
    && ByteLength(before + chunk) <= 32 * 1024 * 1024
    && ByteLength(Rest(before) + chunk) <= 16 * 1024 * 1024
  }

  lemma OneMoreFits(chunks: seq<string>)
    requires chunks != []
    ensures var init, last := chunks[..|chunks| - 1], chunks[|chunks| - 1];
      WithinCeilings(chunks) <==> WithinCeilings(init) && ChunkFits(Joined(init), last)
  {
    var init := chunks[..|chunks| - 1];
    assert forall i :: 0 <= i < |init| ==> chunks[..i] == init[..i] && chunks[i] == init[i];
  }

  lemma {:induction false} ChunkDrains(options: Options, s: Stream, t: Stream, before: string, chunk: string)
    requires !s.state.stopping && SameHearing(s, t) && ChunkFits(before, chunk)
    requires s.pending == Rest(before) && s.eventBytes == ByteLength(before)
    ensures SameHearing(Fed(options, s, chunk), OverLines(options, t, Lines(Rest(before) + chunk)))
    ensures !Fed(options, s, chunk).state.stopping ==> Fed(options, s, chunk).pending == Rest(Rest(before) + chunk)
    ensures Fed(options, s, chunk).eventBytes == ByteLength(before + chunk)
  {
    BytesJoin(before, chunk);
    DrainingTakesTheLines(options, Received(s, chunk), t);
    DrainingLeavesTheRest(options, Received(s, chunk));
  }

  /** The stream is where the complete lines of `text` take it, with the rest of the text pending. */
  ghost predicate Caught(options: Options, s: Stream, text: string) {
    && SameHearing(s, OverLines(options, OPENED, Lines(text)))
    && (!s.state.stopping ==> s.pending == Rest(text) && s.eventBytes == ByteLength(text))
  }

  lemma {:induction false} OneMoreChunk(options: Options, s: Stream, before: string, chunk: string)
    requires Caught(options, s, before) && ChunkFits(before, chunk)
    ensures Caught(options, Fed(options, s, chunk), before + chunk)
  {
    var t := OverLines(options, OPENED, Lines(before));
    var more := Lines(Rest(before) + chunk);
    LinesJoin(before, chunk);
    OverLinesJoin(options, OPENED, Lines(before), more);
    if s.state.stopping {
      StoppedHearsNothing(options, t, more);
    } else {
      ChunkDrains(options, s, t, before, chunk);
    }
  }

  /** Framing keeps nothing of how the output was cut: within the ceilings, the session is where the complete lines
      of the joined output take it, in order, up to the first stop. */
  lemma {:induction false} FramingIsChunkInvariant(options: Options, chunks: seq<string>)
    requires WithinCeilings(chunks)
    ensures Caught(options, FedAll(options, chunks), Joined(chunks))
    decreases |chunks|
  {
    if chunks != [] {
      var init, last := chunks[..|chunks| - 1], chunks[|chunks| - 1];
      OneMoreFits(chunks);
      FramingIsChunkInvariant(options, init);
      OneMoreChunk(options, FedAll(options, init), Joined(init), last);
    }
  }

  /** The first chunk beyond a ceiling fails the turn, unless it had stopped before, and nothing of it is heard. */
  lemma {:induction false} CeilingsHold(options: Options, chunks: seq<string>, chunk: string)
    requires WithinCeilings(chunks) && !ChunkFits(Joined(chunks), chunk)
    ensures var before, after := FedAll(options, chunks), FedAll(options, chunks + [chunk]);
      && after.heard == before.heard && after.state.stopping && after.state.result == before.state.result
      && after.state.error == if before.state.stopping then before.state.error else Some(OrElse(before.state.error, Invalid(false)))
  {
    FramingIsChunkInvariant(options, chunks);
    BytesJoin(Joined(chunks), chunk);
    assert (chunks + [chunk])[..|chunks|] == chunks;
  }

  function OrElse(cause: Option<Failure>, other: Failure): Failure {
    match cause case Some(failure) => failure case None => other
  }

  lemma {:induction false} RunningChunkFits(options: Options, chunks: seq<string>, chunk: string)
    requires WithinCeilings(chunks) && !FedAll(options, chunks + [chunk]).state.stopping
    ensures ChunkFits(Joined(chunks), chunk)
  {
    if !ChunkFits(Joined(chunks), chunk) {
      CeilingsHold(options, chunks, chunk);
    }
  }

  lemma StoppedIsStopped(options: Options, chunks: seq<string>, chunk: string)
    ensures FedAll(options, chunks).state.stopping ==> FedAll(options, chunks + [chunk]).state.stopping
  {
    assert (chunks + [chunk])[..|chunks|] == chunks;
  }

  /** A turn that has not stopped has stayed within the ceilings. */
  lemma {:induction false} RunningIsWithin(options: Options, chunks: seq<string>)
    requires !FedAll(options, chunks).state.stopping
    ensures WithinCeilings(chunks)
  {
    if chunks != [] {
      var init, last := chunks[..|chunks| - 1], chunks[|chunks| - 1];
      assert init + [last] == chunks;
      StoppedIsStopped(options, init, last);
      RunningIsWithin(options, init);
      RunningChunkFits(options, init, last);
      OneMoreFits(chunks);
    }
  }

  /** Two ways of cutting one output lead to the same session. */
  lemma {:induction false} CutsAgree(options: Options, cuts: seq<string>, others: seq<string>)
    requires Joined(cuts) == Joined(others) && WithinCeilings(cuts) && WithinCeilings(others)
    ensures SameHearing(FedAll(options, cuts), FedAll(options, others))
  {
    FramingIsChunkInvariant(options, cuts);
    FramingIsChunkInvariant(options, others);
  }
}

// processTransportBytes (src/agent_runtime_client.cpp): newline-delimited frames
// taken from whatever portions the sidecar's output arrives in.

module FrameReader {
  import Capabilities
  import opened Options
  import opened Bytes
  import opened Lines

  const NEWLINE: byte := 10
  const CARRIAGE_RETURN: byte := 13

  /**
   * Whether a line decodes as a message, and whether processMessage takes the last of the
   * frames handed to it since the process was launched; both are arbitrary.
   */
  datatype Transport = Transport(parses: Octets -> bool, accepts: seq<Octets> -> bool)

  datatype Reader = Reader(
    buffer: Octets,
    discardOutput: bool,
    // The history: the frames handed to processMessage, and how many there were at the first rejection.
    handed: seq<Octets>,
    rejected: Option<nat>)

  const LAUNCHED := Reader([], false, [], None)

  predicate IsSpace(b: byte) {
    b == 32 || 9 <= b <= 13
  }

  predicate IsBlank(line: Octets) {
    forall b | b in line :: IsSpace(b)
  }

  function WithoutReturn(line: Octets): Octets {
    if |line| > 0 && line[|line| - 1] == CARRIAGE_RETURN then line[..|line| - 1] else line
  }

  /** rejectProtocolMessage and rejectInitializeResponse: the output is discarded from now on. */
  function Reject(r: Reader): Reader {
    r.(discardOutput := true, rejected := if r.rejected.None? then Some(|r.handed|) else r.rejected)
  }

  function FirstNewline(s: Octets): (k: int)
    ensures k == -1 ==> NEWLINE !in s
    ensures k != -1 ==> 0 <= k < |s| && s[k] == NEWLINE && NEWLINE !in s[..k]
  {
    if s == [] then -1
    else if s[0] == NEWLINE then 0
    else
      var k := FirstNewline(s[1..]);
      if k == -1 then -1
      else
        assert s[..k + 1] == [s[0]] + s[1..][..k];
        k + 1
  }

  lemma {:induction false} FirstNewlineUnique(s: Octets, k: nat)
    requires k < |s| && s[k] == NEWLINE && NEWLINE !in s[..k]
    ensures FirstNewline(s) == k
  {
    if k > 0 {
      assert s[..k][0] == s[0];
      assert s[..k] == [s[0]] + s[1..][..k - 1];
      FirstNewlineUnique(s[1..], k - 1);
    }
  }

  function Hand(r: Reader, line: Octets, t: Transport): Reader {
    var r := r.(handed := r.handed + [line]);
    if t.accepts(r.handed) then r else Reject(r)
  }

  /** One line taken off the buffer, and whether the loop goes on to the next one. */
  function LineTaken(r: Reader, raw: Octets, t: Transport): (next: (Reader, bool))
    ensures next.0.buffer == r.buffer
  {
    var line := WithoutReturn(raw);
    if |line| > Capabilities.MAXIMUM_FRAME_BYTES then (Reject(r), false)
    else if IsBlank(line) then (r, true)
    else if !t.parses(line) then (Reject(r), false)
    else (Hand(r, line, t), true)
  }

  /** The loop over the buffer; it goes on after processMessage rejects a frame. */
  function Drained(r: Reader, t: Transport): Reader
    decreases |r.buffer|
  {
    var newline := FirstNewline(r.buffer);
    if newline < 0 then
      if |r.buffer| > Capabilities.MAXIMUM_FRAME_BYTES then Reject(r) else r
    else
      var (next, more) := LineTaken(r.(buffer := r.buffer[newline + 1..]), r.buffer[..newline], t);
      if more then Drained(next, t) else next
  }

  function Received(r: Reader, bytes: Octets, t: Transport): Reader {
    if r.discardOutput then r.(buffer := []) else Drained(r.(buffer := r.buffer + bytes), t)
  }

  function Reads(chunks: seq<Octets>, t: Transport): Reader {
    if chunks == [] then LAUNCHED
    else Received(Reads(chunks[..|chunks| - 1], t), chunks[|chunks| - 1], t)
  }

  class TransportReader {
    const transport: Transport
    var stdoutBuffer: Octets
    var discardProcessOutput: bool
    var handed: seq<Octets>
    ghost var rejected: Option<nat>

    ghost function Contents(): Reader
      reads this
    {
      Reader(stdoutBuffer, discardProcessOutput, handed, rejected)
    }

    constructor (transport: Transport)
      ensures Contents() == LAUNCHED && this.transport == transport
    {
      this.transport := transport;
      stdoutBuffer, discardProcessOutput := [], false;
      handed, rejected := [], None;
    }

    method RejectMessage()
      modifies this`discardProcessOutput, this`rejected
      ensures Contents() == Reject(old(Contents()))
    {
      discardProcessOutput := true;
      rejected := if rejected.None? then Some(|handed|) else rejected;
    }

    method ProcessMessage(line: Octets)
      modifies this
      ensures Contents() == Hand(old(Contents()), line, transport)
    {
      handed := handed + [line];
      if !transport.accepts(handed) {
        RejectMessage();
      }
    }

    method TakeLine(raw: Octets) returns (more: bool)
      modifies this
      ensures (Contents(), more) == LineTaken(old(Contents()), raw, transport)
    {
      var line := raw;
      if |line| > 0 && line[|line| - 1] == CARRIAGE_RETURN {
        line := line[..|line| - 1];
      }
      if |line| > Capabilities.MAXIMUM_FRAME_BYTES {
        RejectMessage();
        return false;
      }
      if IsBlank(line) {
        return true;
      }
      if !transport.parses(line) {
        RejectMessage();
        return false;
      }
      ProcessMessage(line);
      return true;
    }

    method ProcessTransportBytes(bytes: Octets)
      modifies this
      ensures Contents() == Received(old(Contents()), bytes, transport)
    {
      if discardProcessOutput {
        stdoutBuffer := [];
        return;
      }
      stdoutBuffer := stdoutBuffer + bytes;
      var more := true;
      while more
        invariant if more then Drained(Contents(), transport) == Received(old(Contents()), bytes, transport)
                  else Contents() == Received(old(Contents()), bytes, transport)
        decreases |stdoutBuffer|, more
      {
        more := DrainLine();
      }
    }

    /** One round of the loop; the last one either leaves an open line or ends with a rejection. */
    method DrainLine() returns (more: bool)
      modifies this
      ensures if more then Drained(Contents(), transport) == Drained(old(Contents()), transport)
              else Contents() == Drained(old(Contents()), transport)
      ensures |stdoutBuffer| < |old(stdoutBuffer)| || (stdoutBuffer == old(stdoutBuffer) && !more)
    {
      var newline := IndexOf(stdoutBuffer, NEWLINE);
      if newline < 0 {
        assert FirstNewline(stdoutBuffer) == -1;
        if |stdoutBuffer| > Capabilities.MAXIMUM_FRAME_BYTES {
          RejectMessage();
        }
        return false;
      }
      FirstNewlineUnique(stdoutBuffer, newline);
      var line := stdoutBuffer[..newline];
      stdoutBuffer := stdoutBuffer[newline + 1..];
      more := TakeLine(line);
    }
  }

  // ---------------------------------------------------------------------
  // The reference: the whole stream, split once

  /** The frames handed over before anything is rejected, and whether something is. */
  datatype Outcome = Running(frames: seq<Octets>) | Stopped(frames: seq<Octets>)

  function JudgeLine(frames: seq<Octets>, raw: Octets, t: Transport): Outcome {
    var line := WithoutReturn(raw);
    if |line| > Capabilities.MAXIMUM_FRAME_BYTES then Stopped(frames)
    else if IsBlank(line) then Running(frames)
    else if !t.parses(line) then Stopped(frames)
    else if t.accepts(frames + [line]) then Running(frames + [line])
    else Stopped(frames + [line])
  }

  function Judge(frames: seq<Octets>, lines: seq<Octets>, t: Transport): Outcome
    decreases |lines|
  {
    if lines == [] then Running(frames)
    else
      match JudgeLine(frames, lines[0], t)
      case Stopped(s) => Stopped(s)
      case Running(s) => Judge(s, lines[1..], t)
  }

  function JudgeCut(frames: seq<Octets>, cut: Cut<byte>, t: Transport): Outcome {
    var outcome := Judge(frames, cut.lines, t);
    if outcome.Running? && |cut.rest| > Capabilities.MAXIMUM_FRAME_BYTES then Stopped(outcome.frames) else outcome
  }

  function WholeStream(stream: Octets, t: Transport): Outcome {
    JudgeCut([], CutAll(stream, NEWLINE), t)
  }

  // ---------------------------------------------------------------------
  // One read

  /** The first rejection stays where it is, and nothing handed over before it is lost. */
  ghost predicate KeepsRejection(r: Reader, s: Reader) {
    s.rejected == r.rejected && r.handed <= s.handed && s.discardOutput
  }

  lemma KeepsTransitive(r: Reader, s: Reader, u: Reader)
    requires KeepsRejection(r, s) && KeepsRejection(s, u)
    ensures KeepsRejection(r, u)
  {
  }

  lemma TakenAfterRejection(r: Reader, raw: Octets, t: Transport)
    requires r.rejected.Some? && r.discardOutput
    ensures KeepsRejection(r, LineTaken(r, raw, t).0)
  {
  }

  /** The loop takes the first line off and goes on with the rest. */
  lemma DrainedFirst(r: Reader, newline: nat, t: Transport)
    requires newline < |r.buffer| && FirstNewline(r.buffer) == newline
    ensures var (next, more) := LineTaken(r.(buffer := r.buffer[newline + 1..]), r.buffer[..newline], t);
            Drained(r, t) == if more then Drained(next, t) else next
  {
  }

  lemma {:induction false} DrainedAfterRejection(r: Reader, t: Transport)
    requires r.rejected.Some? && r.discardOutput
    ensures KeepsRejection(r, Drained(r, t))
    decreases |r.buffer|
  {
    var newline := FirstNewline(r.buffer);
    if newline >= 0 {
      var tail := r.(buffer := r.buffer[newline + 1..]);
      DrainedFirst(r, newline, t);
      TakenAfterRejection(tail, r.buffer[..newline], t);
      var (next, more) := LineTaken(tail, r.buffer[..newline], t);
      if more {
        DrainedAfterRejection(next, t);
        KeepsTransitive(tail, next, Drained(next, t));
      }
    }
  }

  /** Taking a line does what judging it says. */
  lemma TakenIsJudged(r: Reader, raw: Octets, t: Transport)
    requires r.rejected.None?
    ensures var (next, more) := LineTaken(r, raw, t);
            match JudgeLine(r.handed, raw, t)
            case Running(frames) => more && next == r.(handed := frames)
            case Stopped(frames) =>
              next == Reader(r.buffer, true, frames, Some(|frames|))
  {
  }

  lemma CutFirstLine(buffer: Octets, newline: nat)
    requires newline < |buffer| && buffer[newline] == NEWLINE && NEWLINE !in buffer[..newline]
    ensures var tail := CutAll(buffer[newline + 1..], NEWLINE);
            CutAll(buffer, NEWLINE) == Cut([buffer[..newline]] + tail.lines, tail.rest)
  {
    var line := buffer[..newline];
    FeedFirstLine(Cut([], []), buffer, newline, NEWLINE);
    var none: seq<Octets> := [];
    assert [] + line == line && none + [line] == [line];
    Resume([line], [], [], buffer[newline + 1..], NEWLINE);
    assert [line] + [] == [line];
  }

  lemma JudgeFirst(frames: seq<Octets>, line: Octets, tail: Cut<byte>, t: Transport)
    ensures JudgeCut(frames, Cut([line] + tail.lines, tail.rest), t)
            == match JudgeLine(frames, line, t)
               case Stopped(s) => Stopped(s)
               case Running(s) => JudgeCut(s, tail, t)
  {
    assert ([line] + tail.lines)[1..] == tail.lines;
  }

  /** A drained reader shows the outcome, and keeps the open line if nothing was rejected. */
  ghost predicate Shows(s: Reader, outcome: Outcome, rest: Octets) {
    match outcome
    case Running(frames) => s == Reader(rest, false, frames, None)
    case Stopped(frames) =>
      s.discardOutput && s.rejected == Some(|frames|) && frames <= s.handed
  }

  /** A reader that has not rejected anything drains its buffer as the cut of the buffer is judged. */
  lemma {:induction false} DrainedJudges(r: Reader, t: Transport)
    requires r.rejected.None? && !r.discardOutput
    ensures var cut := CutAll(r.buffer, NEWLINE);
            Shows(Drained(r, t), JudgeCut(r.handed, cut, t), cut.rest)
    decreases |r.buffer|
  {
    var newline := FirstNewline(r.buffer);
    if newline < 0 {
      FeedPlain(Cut([], []), r.buffer, NEWLINE);
      assert [] + r.buffer == r.buffer;
    } else {
      var line, rest := r.buffer[..newline], r.buffer[newline + 1..];
      CutFirstLine(r.buffer, newline);
      JudgeFirst(r.handed, line, CutAll(rest, NEWLINE), t);
      TakenIsJudged(r.(buffer := rest), line, t);
      var (next, more) := LineTaken(r.(buffer := rest), line, t);
      if JudgeLine(r.handed, line, t).Running? {
        DrainedJudges(next, t);
      } else if more {
        DrainedAfterRejection(next, t);
      }
    }
  }

  // ---------------------------------------------------------------------
  // Many reads

  /** What a reader has handed over up to its first rejection. */
  function Observed(r: Reader): Outcome {
    if r.rejected.None? then Running(r.handed)
    else Stopped(if r.rejected.value <= |r.handed| then r.handed[..r.rejected.value] else r.handed)
  }

  lemma {:induction false} JudgeAppend(frames: seq<Octets>, a: seq<Octets>, b: seq<Octets>, t: Transport)
    ensures Judge(frames, a + b, t)
            == match Judge(frames, a, t)
               case Stopped(s) => Stopped(s)
               case Running(s) => Judge(s, b, t)
    decreases |a|
  {
    if a == [] {
      assert a + b == b;
    } else {
      assert (a + b)[1..] == a[1..] + b;
      match JudgeLine(frames, a[0], t) {
        case Stopped(_) =>
        case Running(s) => JudgeAppend(s, a[1..], b, t);
      }
    }
  }

  /** Cutting a longer stream: the open line and the new bytes are cut together. */
  lemma CutLonger(stream: Octets, bytes: Octets)
    ensures var cut := CutAll(stream, NEWLINE);
            var tail := CutAll(cut.rest + bytes, NEWLINE);
            CutAll(stream + bytes, NEWLINE) == Cut(cut.lines + tail.lines, tail.rest)
  {
    var cut := CutAll(stream, NEWLINE);
    FeedAppend(Cut([], []), stream, bytes, NEWLINE);
    Resume(cut.lines, [], cut.rest, bytes, NEWLINE);
    assert cut.lines + [] == cut.lines;
    RestHasNoNewline(Cut([], []), stream, NEWLINE);
    FeedAppend(Cut([], []), cut.rest, bytes, NEWLINE);
    FeedPlain(Cut([], []), cut.rest, NEWLINE);
    assert [] + cut.rest == cut.rest;
  }

  /** A reader that shows a stream without a rejection shows the longer stream after one more read. */
  lemma OneMoreRead(r: Reader, stream: Octets, bytes: Octets, t: Transport)
    requires WholeStream(stream, t).Running?
    requires Shows(r, WholeStream(stream, t), CutAll(stream, NEWLINE).rest)
    ensures Shows(Received(r, bytes, t), WholeStream(stream + bytes, t), CutAll(stream + bytes, NEWLINE).rest)
  {
    var cut := CutAll(stream, NEWLINE);
    CutLonger(stream, bytes);
    DrainedJudges(r.(buffer := r.buffer + bytes), t);
    JudgeAppend([], cut.lines, CutAll(cut.rest + bytes, NEWLINE).lines, t);
  }

  /** After any reads the reader shows the stream so far, or the prefix that first was rejected. */
  lemma {:induction false} ReadsShow(chunks: seq<Octets>, t: Transport) returns (k: nat)
    ensures k <= |chunks|
    ensures var prefix := Concat(chunks[..k]);
            Shows(Reads(chunks, t), WholeStream(prefix, t), CutAll(prefix, NEWLINE).rest)
    ensures Reads(chunks, t).rejected.None? ==> k == |chunks|
  {
    if chunks == [] {
      return 0;
    }
    var last := |chunks| - 1;
    k := ReadsShow(chunks[..last], t);
    if Reads(chunks[..last], t).rejected.None? {
      assert chunks[..last][..k] == chunks[..last];
      OneMoreRead(Reads(chunks[..last], t), Concat(chunks[..last]), chunks[last], t);
      assert chunks[..|chunks|] == chunks;
      k := |chunks|;
    } else {
      assert chunks[..last][..k] == chunks[..k];
    }
  }

  /** After a read that rejects nothing, the buffer holds no newline and at most the limit. */
  lemma BufferIsOneOpenLine(chunks: seq<Octets>, t: Transport)
    requires Reads(chunks, t).rejected.None?
    ensures 10 !in Reads(chunks, t).buffer && |Reads(chunks, t).buffer| <= 4194304
    ensures Reads(chunks, t).buffer == CutAll(Concat(chunks), NEWLINE).rest
  {
    var k := ReadsShow(chunks, t);
    assert chunks[..k] == chunks;
    RestHasNoNewline(Cut([], []), Concat(chunks), NEWLINE);
  }

  // ---------------------------------------------------------------------
  // Chunk independence

  /** The one shape whose fate depends on the cut: the limit, and a carriage return on top. */
  predicate IsBoundary(line: Octets) {
    |line| == 4194305 && line[|line| - 1] == 13
  }

  /** The whole stream reaches such a line and gets past it. */
  ghost predicate PassesBoundary(stream: Octets, t: Transport) {
    var lines := CutAll(stream, NEWLINE).lines;
    exists i :: 0 <= i < |lines| && PassesLine(stream, t, i)
  }

  ghost predicate PassesLine(stream: Octets, t: Transport, i: nat)
    requires i < |CutAll(stream, NEWLINE).lines|
  {
    var lines := CutAll(stream, NEWLINE).lines;
    var before := Judge([], lines[..i], t);
    IsBoundary(lines[i]) && before.Running? && WholeStream(stream, t) != Stopped(before.frames)
  }

  /** Once a prefix is rejected, more bytes change nothing unless they complete a passed boundary line. */
  lemma RejectionIsFinal(stream: Octets, more: Octets, t: Transport)
    requires WholeStream(stream, t).Stopped?
    requires !PassesBoundary(stream + more, t)
    ensures WholeStream(stream + more, t) == WholeStream(stream, t)
  {
    var cut, whole := CutAll(stream, NEWLINE), CutAll(stream + more, NEWLINE);
    var tail := CutAll(cut.rest + more, NEWLINE);
    CutLonger(stream, more);
    JudgeAppend([], cut.lines, tail.lines, t);
    var before := Judge([], cut.lines, t);
    if before.Running? {
      RestHasNoNewline(Cut([], []), stream, NEWLINE);
      OverflowIsFinal(cut.rest, more, before.frames, t);
      if tail.lines != [] {
        var i := |cut.lines|;
        assert whole.lines[i] == tail.lines[0] && whole.lines[..i] == cut.lines;
        assert !PassesLine(stream + more, t, i);
      }
    }
  }

  lemma OverflowIsFinal(rest: Octets, more: Octets, frames: seq<Octets>, t: Transport)
    requires |rest| > Capabilities.MAXIMUM_FRAME_BYTES && NEWLINE !in rest
    ensures var tail := CutAll(rest + more, NEWLINE);
            if tail.lines == [] then |tail.rest| > Capabilities.MAXIMUM_FRAME_BYTES
            else IsBoundary(tail.lines[0]) || Judge(frames, tail.lines, t) == Stopped(frames)
  {
    FeedAppend(Cut([], []), rest, more, NEWLINE);
    FeedPlain(Cut([], []), rest, NEWLINE);
    assert [] + rest == rest;
    var k := FirstNewline(more);
    if k == -1 {
      FeedPlain(Cut([], rest), more, NEWLINE);
    } else {
      FeedFirstLine(Cut([], rest), more, k, NEWLINE);
      var first := [rest + more[..k]];
      assert [] + first == first;
      LinesGrow(Cut(first, []), more[k + 1..], NEWLINE);
      assert CutAll(rest + more, NEWLINE).lines[0] == rest + more[..k];
    }
  }

  lemma {:induction false} LinesHaveNoNewline(cut: Cut<byte>, s: Octets, i: nat)
    requires NEWLINE !in cut.rest && (forall line | line in cut.lines :: NEWLINE !in line)
    requires i < |Feed(cut, s, NEWLINE).lines|
    ensures NEWLINE !in Feed(cut, s, NEWLINE).lines[i]
    decreases |s|
  {
    if s != [] {
      LinesHaveNoNewline(FeedOne(cut, s[0], NEWLINE), s[1..], i);
    }
  }

  lemma TwoReads(first: Octets, second: Octets, t: Transport)
    ensures Concat([first, second]) == first + second
    ensures Reads([first, second], t) == Received(Received(LAUNCHED, first, t), second, t)
  {
    var chunks := [first, second];
    assert chunks[..1] == [first] && [first][..0] == [];
    assert Concat([first]) == first;
    assert Reads([first], t) == Received(LAUNCHED, first, t);
  }

  /** Such a line is rejected when a read ends before its newline. */
  lemma BoundaryStops(before: Octets, line: Octets, lines: seq<Octets>, t: Transport)
    requires CutAll(before, NEWLINE) == Cut(lines, []) && NEWLINE !in line && IsBoundary(line)
    requires Judge([], lines, t).Running?
    ensures WholeStream(before + line, t) == Stopped(Judge([], lines, t).frames)
  {
    FeedAppend(Cut([], []), before, line, NEWLINE);
    FeedPlain(Cut(lines, []), line, NEWLINE);
    assert [] + line == line;
  }

  /** A stream that is rejected as a whole is rejected in one read, and a further read does not change what is observed. */
  lemma RejectedAtOnce(first: Octets, second: Octets, t: Transport)
    requires WholeStream(first, t).Stopped?
    ensures Observed(Received(Received(LAUNCHED, first, t), second, t)) == WholeStream(first, t)
  {
    assert LAUNCHED == Reads([], t) && CutAll([], NEWLINE) == Cut([], []);
    OneMoreRead(LAUNCHED, [], first, t);
    assert [] + first == first;
  }

  /** A stream that passes a boundary line is rejected when a read ends before that line's newline. */
  lemma BoundaryCut(stream: Octets, t: Transport) returns (chunks: seq<Octets>)
    requires PassesBoundary(stream, t)
    ensures Concat(chunks) == stream && Observed(Reads(chunks, t)) != WholeStream(stream, t)
  {
    var lines := CutAll(stream, NEWLINE).lines;
    var i :| 0 <= i < |lines| && PassesLine(stream, t, i);
    var before, after := LineAt(stream, i, NEWLINE);
    var first, second := before + lines[i], [NEWLINE] + after;
    chunks := [first, second];
    assert stream == first + second;
    LinesHaveNoNewline(Cut([], []), stream, i);
    TwoReads(first, second, t);
    BoundaryStops(before, lines[i], lines[..i], t);
    RejectedAtOnce(first, second, t);
  }

  const LONGEST_LINE: Octets := seq(Capabilities.MAXIMUM_FRAME_BYTES, _ => 97)

  /** Such a stream exists: one line of the limit in letters, a carriage return and a newline. */
  lemma BoundaryExists()
    ensures PassesBoundary(LONGEST_LINE + [CARRIAGE_RETURN] + [NEWLINE], Transport(_ => true, _ => true))
  {
    var t := Transport(_ => true, _ => true);
    var line := LONGEST_LINE + [CARRIAGE_RETURN];
    var stream := line + [NEWLINE];
    assert stream[..|line|] == line;
    FeedFirstLine(Cut([], []), stream, |line|, NEWLINE);
    assert [] + line == line && stream[|line| + 1..] == [];
    assert CutAll(stream, NEWLINE) == Cut([line], []);
    assert WithoutReturn(line) == LONGEST_LINE;
    assert LONGEST_LINE[0] in LONGEST_LINE && !IsSpace(LONGEST_LINE[0]);
    assert [line][1..] == [] && [line][..0] == [];
    assert Judge([], [line], t) == Running([LONGEST_LINE]);
    assert PassesLine(stream, t, 0);
  }

  /**
   * The frames handed over up to the first rejection are those of one whole-stream split,
   * for every way of cutting the stream into reads, if and only if the stream does not get
   * past a line of exactly the limit and a carriage return.
   */
  lemma ChunkIndependence(stream: Octets, t: Transport)
    ensures (forall chunks | Concat(chunks) == stream :: Observed(Reads(chunks, t)) == WholeStream(stream, t))
            <==> !PassesBoundary(stream, t)
  {
    if PassesBoundary(stream, t) {
      var chunks := BoundaryCut(stream, t);
    } else {
      forall chunks | Concat(chunks) == stream
        ensures Observed(Reads(chunks, t)) == WholeStream(stream, t)
      {
        ReadsObserve(chunks, t);
      }
    }
  }

  lemma ReadsObserve(chunks: seq<Octets>, t: Transport)
    requires !PassesBoundary(Concat(chunks), t)
    ensures Observed(Reads(chunks, t)) == WholeStream(Concat(chunks), t)
  {
    var k := ReadsShow(chunks, t);
    var prefix := Concat(chunks[..k]);
    if Reads(chunks, t).rejected.None? {
      assert chunks[..k] == chunks;
    } else {
      var more := ConcatPrefix(chunks, k);
      RejectionIsFinal(prefix, more, t);
    }
  }

  lemma {:induction false} ConcatPrefix(chunks: seq<Octets>, k: nat) returns (more: Octets)
    requires k <= |chunks|
    ensures Concat(chunks) == Concat(chunks[..k]) + more
  {
    if k == |chunks| {
      assert chunks[..k] == chunks;
      more := [];
    } else {
      var last := |chunks| - 1;
      more := ConcatPrefix(chunks[..last], k);
      assert chunks[..last][..k] == chunks[..k];
      more := more + chunks[last];
    }
  }
}

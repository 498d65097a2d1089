// Which frames a stream amounts to (src/agent_runtime_client.cpp, processTransportBytes): the
// bytes of its lines, stated without the reader and without the judge it is compared with.

module TransportFrames {
  import opened Bytes
  import opened Lines
  import opened FrameReader

  /** A line without the carriage return that may end it. */
  ghost predicate IsPayload(line: Octets, raw: Octets) {
    raw == line + [13] || (raw == line && (raw == [] || raw[|raw| - 1] != 13))
  }

  function Payload(raw: Octets): (line: Octets)
    ensures IsPayload(line, raw)
  {
    if raw != [] && raw[|raw| - 1] == 13 then
      assert raw == raw[..|raw| - 1] + [13];
      raw[..|raw| - 1]
    else raw
  }

  /** Nothing but spaces, tabs, line feeds, vertical tabs, form feeds and carriage returns. */
  predicate IsWhite(line: Octets) {
    forall i | 0 <= i < |line| :: line[i] == 32 || line[i] == 9 || line[i] == 10 || line[i] == 11 || line[i] == 12 || line[i] == 13
  }

  /** The payloads of the lines at the given positions. */
  function PayloadsAt(lines: seq<Octets>, at: seq<nat>): (frames: seq<Octets>)
    requires forall k | 0 <= k < |at| :: at[k] < |lines|
    ensures |frames| == |at|
  {
    seq(|at|, k requires 0 <= k < |at| => Payload(lines[at[k]]))
  }

  /** Every line fits, and the positions list, in order, the lines that are not white. */
  ghost predicate ArePositions(lines: seq<Octets>, at: seq<nat>) {
    && (forall k | 0 <= k < |at| :: at[k] < |lines|)
    && (forall j, k | 0 <= j < k < |at| :: at[j] < at[k])
    && (forall i: nat | i < |lines| :: |Payload(lines[i])| <= 4194304)
    && (forall i: nat | i < |lines| :: i in at <==> !IsWhite(Payload(lines[i])))
  }

  /** Every frame decodes, and is taken after those before it. */
  ghost predicate AllTaken(frames: seq<Octets>, t: Transport) {
    forall k | 0 <= k < |frames| :: t.parses(frames[k]) && t.accepts(frames[..k + 1])
  }

  ghost predicate AreFrames(lines: seq<Octets>, at: seq<nat>, frames: seq<Octets>, t: Transport) {
    ArePositions(lines, at) && frames == PayloadsAt(lines, at) && AllTaken(frames, t)
  }

  lemma PayloadUnique(line: Octets, raw: Octets)
    requires IsPayload(line, raw)
    ensures line == Payload(raw) == WithoutReturn(raw)
  {
    if raw == line + [13] {
      assert raw[..|raw| - 1] == line;
    }
  }

  lemma WhiteIsBlank(line: Octets)
    ensures IsWhite(line) <==> IsBlank(line)
  {
    if IsBlank(line) {
      forall i | 0 <= i < |line|
        ensures IsSpace(line[i])
      {
        assert line[i] in line;
      }
    }
  }

  lemma PositionsDropLast(lines: seq<Octets>, at: seq<nat>, raw: Octets)
    requires ArePositions(lines + [raw], at)
    ensures if IsWhite(Payload(raw)) then ArePositions(lines, at)
            else at != [] && at[|at| - 1] == |lines| && ArePositions(lines, at[..|at| - 1])
  {
    var all, n := lines + [raw], |lines|;
    assert forall i: nat | i < n :: all[i] == lines[i];
    assert all[n] == raw;
    if IsWhite(Payload(raw)) {
      assert n !in at;
    } else {
      assert n in at;
      var k :| 0 <= k < |at| && at[k] == n;
      assert at[|at| - 1] <= n;
      assert k == |at| - 1;
      var front := at[..|at| - 1];
      forall i: nat | i < n
        ensures i in front <==> i in at
      {
        assert at == front + [n];
      }
    }
  }

  lemma PositionsAddLast(lines: seq<Octets>, at: seq<nat>, raw: Octets)
    requires ArePositions(lines, at) && |Payload(raw)| <= 4194304
    ensures ArePositions(lines + [raw], if IsWhite(Payload(raw)) then at else at + [|lines|])
  {
    var all, n := lines + [raw], |lines|;
    var more := if IsWhite(Payload(raw)) then at else at + [n];
    assert forall k | 0 <= k < |at| :: at[k] < n;
    forall i: nat | i < |all|
      ensures |Payload(all[i])| <= 4194304
      ensures i in more <==> !IsWhite(Payload(all[i]))
    {
      if i < n {
        assert all[i] == lines[i];
      } else {
        assert all[i] == raw && i !in at;
      }
    }
  }

  /** One more line after lines that were all taken. */
  lemma JudgedNext(frames: seq<Octets>, lines: seq<Octets>, raw: Octets, t: Transport)
    ensures Judge(frames, lines + [raw], t)
         == match Judge(frames, lines, t) case Stopped(s) => Stopped(s) case Running(s) => JudgeLine(s, raw, t)
  {
    JudgeAppend(frames, lines, [raw], t);
    assert [raw][1..] == [];
  }

  lemma LineIsJudged(frames: seq<Octets>, raw: Octets, t: Transport)
    ensures var line := Payload(raw);
            && (JudgeLine(frames, raw, t) == Running(frames) <==> |line| <= 4194304 && IsWhite(line))
            && (JudgeLine(frames, raw, t) == Running(frames + [line])
                <==> |line| <= 4194304 && !IsWhite(line) && t.parses(line) && t.accepts(frames + [line]))
            && (JudgeLine(frames, raw, t).Running? ==>
                  JudgeLine(frames, raw, t).frames == if IsWhite(line) then frames else frames + [line])
  {
    PayloadUnique(Payload(raw), raw);
    WhiteIsBlank(Payload(raw));
    assert |frames + [Payload(raw)]| == |frames| + 1;
  }

  lemma {:induction false} RunningHasFrames(lines: seq<Octets>, t: Transport) returns (at: seq<nat>)
    requires Judge([], lines, t).Running?
    ensures AreFrames(lines, at, Judge([], lines, t).frames, t)
    decreases |lines|
  {
    if lines == [] {
      at := [];
    } else {
      var front, raw := lines[..|lines| - 1], lines[|lines| - 1];
      assert lines == front + [raw];
      JudgedNext([], front, raw, t);
      var before := RunningHasFrames(front, t);
      var frames := Judge([], front, t).frames;
      LineIsJudged(frames, raw, t);
      PositionsAddLast(front, before, raw);
      at := if IsWhite(Payload(raw)) then before else before + [|front|];
      FramesAddLast(front, before, raw, frames, t);
    }
  }

  lemma TakenAddLast(frames: seq<Octets>, line: Octets, t: Transport)
    requires AllTaken(frames, t) && t.parses(line) && t.accepts(frames + [line])
    ensures AllTaken(frames + [line], t)
  {
    var more := frames + [line];
    forall k | 0 <= k < |more|
      ensures t.parses(more[k]) && t.accepts(more[..k + 1])
    {
      assert k < |frames| ==> more[..k + 1] == frames[..k + 1];
      assert k == |frames| ==> more[..k + 1] == more;
    }
  }

  lemma PayloadsAddLast(lines: seq<Octets>, at: seq<nat>, raw: Octets)
    requires forall k | 0 <= k < |at| :: at[k] < |lines|
    ensures PayloadsAt(lines + [raw], at) == PayloadsAt(lines, at)
    ensures PayloadsAt(lines + [raw], at + [|lines|]) == PayloadsAt(lines, at) + [Payload(raw)]
  {
  }

  lemma FramesAddLast(lines: seq<Octets>, at: seq<nat>, raw: Octets, frames: seq<Octets>, t: Transport)
    requires AreFrames(lines, at, frames, t) && |Payload(raw)| <= 4194304
    requires !IsWhite(Payload(raw)) ==> t.parses(Payload(raw)) && t.accepts(frames + [Payload(raw)])
    ensures if IsWhite(Payload(raw)) then AreFrames(lines + [raw], at, frames, t)
            else AreFrames(lines + [raw], at + [|lines|], frames + [Payload(raw)], t)
  {
    PositionsAddLast(lines, at, raw);
    PayloadsAddLast(lines, at, raw);
    if !IsWhite(Payload(raw)) {
      TakenAddLast(frames, Payload(raw), t);
    }
  }

  lemma FramesDropLast(lines: seq<Octets>, at: seq<nat>, raw: Octets, frames: seq<Octets>, t: Transport)
    requires AreFrames(lines + [raw], at, frames, t)
    ensures |Payload(raw)| <= 4194304
    ensures if IsWhite(Payload(raw)) then AreFrames(lines, at, frames, t)
            else && frames != [] && at != [] && frames[|frames| - 1] == Payload(raw)
                 && AreFrames(lines, at[..|at| - 1], frames[..|frames| - 1], t)
  {
    assert (lines + [raw])[|lines|] == raw;
    PositionsDropLast(lines, at, raw);
    if IsWhite(Payload(raw)) {
      assert PayloadsAt(lines, at) == frames;
    } else {
      TakenPrefix(frames, |frames| - 1, t);
      assert PayloadsAt(lines, at[..|at| - 1]) == frames[..|frames| - 1];
    }
  }

  lemma SomeAreBelow(at: seq<nat>, n: nat)
    requires at != [] && forall k | 0 <= k < |at| :: at[k] < n
    ensures n > 0
  {
    assert at[0] < n;
  }

  lemma NoLinesNoFrames(at: seq<nat>, frames: seq<Octets>, t: Transport)
    requires AreFrames([], at, frames, t)
    ensures frames == []
  {
    if at != [] {
      SomeAreBelow(at, 0);
    }
  }

  lemma LastJudged(front: seq<Octets>, raw: Octets, before: seq<Octets>, frames: seq<Octets>, t: Transport)
    requires Judge([], front, t) == Running(before) && |Payload(raw)| <= 4194304
    requires if IsWhite(Payload(raw)) then frames == before
             else frames == before + [Payload(raw)] && t.parses(Payload(raw)) && t.accepts(frames)
    ensures Judge([], front + [raw], t) == Running(frames)
  {
    JudgedNext([], front, raw, t);
    LineIsJudged(before, raw, t);
  }

  lemma LastIsTaken(frames: seq<Octets>, t: Transport)
    requires AllTaken(frames, t) && frames != []
    ensures var n := |frames| - 1;
            t.parses(frames[n]) && t.accepts(frames) && frames == frames[..n] + [frames[n]]
  {
    var n := |frames| - 1;
    assert t.parses(frames[n]) && t.accepts(frames[..n + 1]);
    assert frames[..n + 1] == frames;
  }

  lemma {:induction false} FramesAreRun(lines: seq<Octets>, at: seq<nat>, frames: seq<Octets>, t: Transport)
    requires AreFrames(lines, at, frames, t)
    ensures Judge([], lines, t) == Running(frames)
    decreases |lines|
  {
    if lines == [] {
      NoLinesNoFrames(at, frames, t);
    } else {
      var front, raw := lines[..|lines| - 1], lines[|lines| - 1];
      assert lines == front + [raw];
      FramesDropLast(front, at, raw, frames, t);
      if IsWhite(Payload(raw)) {
        FramesAreRun(front, at, frames, t);
        LastJudged(front, raw, frames, frames, t);
      } else {
        var n := |frames| - 1;
        FramesAreRun(front, at[..|at| - 1], frames[..n], t);
        LastIsTaken(frames, t);
        LastJudged(front, raw, frames[..n], frames, t);
      }
    }
  }

  lemma TakenPrefix(frames: seq<Octets>, n: nat, t: Transport)
    requires AllTaken(frames, t) && n <= |frames|
    ensures AllTaken(frames[..n], t)
  {
    forall k | 0 <= k < n
      ensures t.parses(frames[..n][k]) && t.accepts(frames[..n][..k + 1])
    {
      assert frames[..n][..k + 1] == frames[..k + 1];
    }
  }

  /**
   * A stream is taken without a rejection exactly when its lines fit, its open end fits, and the
   * payloads of the lines that are not white all decode and are taken one after the other; then
   * these payloads are its frames.
   */
  lemma StreamExactly(stream: Octets, frames: seq<Octets>, t: Transport)
    ensures WholeStream(stream, t) == Running(frames)
       <==> && |CutAll(stream, 10).rest| <= 4194304
            && exists at :: AreFrames(CutAll(stream, 10).lines, at, frames, t)
  {
    var lines := CutAll(stream, 10).lines;
    if WholeStream(stream, t) == Running(frames) {
      var at := RunningHasFrames(lines, t);
    }
    if at :| AreFrames(lines, at, frames, t) {
      FramesAreRun(lines, at, frames, t);
    }
  }
}

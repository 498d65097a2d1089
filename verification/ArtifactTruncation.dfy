// What isValidCompleteCommandArtifact (src/agent_runtime_client.cpp) accepts, stated by the
// members of the result and the bytes of the content alone, and which truncations it accepts.

module ArtifactTruncation {
  import opened Bytes
  import opened Json
  import opened Identities
  import CommandPages
  import CompleteArtifact
  import Decimal

  // ---------------------------------------------------------------------
  // Contents

  /** The line that stands for the omitted bytes. */
  function Line(omitted: nat): Octets {
    Utf8("\n[Aegisy omitted " + Decimal.OfNat(omitted) + " command output bytes]\n")
  }

  predicate IsAt(content: Octets, part: Octets, i: nat) {
    i + |part| <= |content| && content[i..i + |part|] == part
  }

  ghost predicate OnlyAt(content: Octets, part: Octets, i: nat) {
    IsAt(content, part, i) && forall j: nat | IsAt(content, part, j) :: j == i
  }

  /** A head and a tail of a megabyte each, short of at most three bytes, around the only line of its kind. */
  ghost predicate IsTruncated(content: Octets, retained: nat, omitted: nat, head: Octets, tail: Octets) {
    && content == head + Line(omitted) + tail
    && 1048573 <= |head| <= 1048576 && 1048573 <= |tail| <= 1048576
    && |head| + |tail| == retained
    && OnlyAt(content, Line(omitted), |head|)
  }

  /** What the result says of the content: its size, its digest and how much of the output it is. */
  predicate Reports(result: Fields, content: Octets, retained: nat, omitted: nat, digest: Digest) {
    var reference := ToFields(Value(result, "content_reference"));
    && |content| <= 9007199254740991 && retained + omitted <= 9007199254740991
    && Value(reference, "bytes") == Integer(|content|)
    && Value(reference, "sha256") == Text(Hex(digest(content)))
    && Value(reference, "reference") == Text("command-output:sha256:" + Hex(digest(content)))
    && Value(result, "retained_bytes") == Integer(retained)
    && Value(result, "omitted_bytes") == Integer(omitted)
    && Value(result, "total_bytes") == Integer(retained + omitted)
    && Value(result, "truncated") == Boolean(omitted > 0)
  }

  ghost predicate IsWholeOrTruncated(content: Octets, retained: nat, omitted: nat) {
    if omitted == 0 then |content| == retained
    else exists head, tail :: IsTruncated(content, retained, omitted, head, tail)
  }

  // ---------------------------------------------------------------------
  // Exactly these are accepted

  lemma ReportsIsConsistent(result: Fields, content: Octets, retained: nat, omitted: nat, digest: Digest)
    requires Reports(result, content, retained, omitted, digest)
    ensures CompleteArtifact.Consistent(result, content, digest)
    ensures CommandPages.Number(result, "retained_bytes") == retained && CommandPages.Number(result, "omitted_bytes") == omitted
  {
    assert CommandPages.Add64(retained, omitted) == retained + omitted;
  }

  lemma ConsistentReports(result: Fields, content: Octets, retained: nat, omitted: nat, digest: Digest)
    requires CompleteArtifact.Consistent(result, content, digest)
    requires retained == CommandPages.Number(result, "retained_bytes") && omitted == CommandPages.Number(result, "omitted_bytes")
    ensures Reports(result, content, retained, omitted, digest)
  {
    assert CommandPages.Add64(retained, omitted) == retained + omitted;
  }

  lemma TruncatedSplits(content: Octets, line: Octets, retained: nat, head: Octets, tail: Octets)
    requires content == head + line + tail && OnlyAt(content, line, |head|) && |head| + |tail| == retained
    requires 1048573 <= |head| <= 1048576 && 1048573 <= |tail| <= 1048576
    ensures CompleteArtifact.UniqueGoodSplit(content, line, retained)
  {
    forall h, t | CompleteArtifact.Splits(content, line, h, t)
      ensures h == head && t == tail
    {
      CompleteArtifact.SplitIsOccurrence(content, line, h, t);
      CompleteArtifact.SplitIsOccurrence(content, line, head, tail);
      assert IsAt(content, line, |h|);
    }
    assert CompleteArtifact.GoodSplit(content, line, retained, head, tail);
  }

  lemma SplitsTruncated(content: Octets, line: Octets, retained: nat, head: Octets, tail: Octets)
    requires CompleteArtifact.GoodSplit(content, line, retained, head, tail)
    requires forall h, t | CompleteArtifact.Splits(content, line, h, t) :: h == head && t == tail
    ensures content == head + line + tail && OnlyAt(content, line, |head|) && |head| + |tail| == retained
    ensures 1048573 <= |head| <= 1048576 && 1048573 <= |tail| <= 1048576
  {
    CompleteArtifact.SplitIsOccurrence(content, line, head, tail);
    forall j: nat | IsAt(content, line, j)
      ensures j == |head|
    {
      CompleteArtifact.OccurrenceIsSplit(content, line, j);
      assert |content[..j]| == j;
    }
  }

  lemma TruncatedIffSplit(content: Octets, retained: nat, omitted: nat)
    ensures (exists head, tail :: IsTruncated(content, retained, omitted, head, tail))
       <==> CompleteArtifact.UniqueGoodSplit(content, Utf8(CommandPages.Marker(omitted)), retained)
  {
    var line := Line(omitted);
    forall head, tail | IsTruncated(content, retained, omitted, head, tail)
      ensures CompleteArtifact.UniqueGoodSplit(content, line, retained)
    {
      TruncatedSplits(content, line, retained, head, tail);
    }
    if CompleteArtifact.UniqueGoodSplit(content, line, retained) {
      var head, tail :| CompleteArtifact.GoodSplit(content, line, retained, head, tail)
                        && forall h, t | CompleteArtifact.Splits(content, line, h, t) :: h == head && t == tail;
      SplitsTruncated(content, line, retained, head, tail);
      assert IsTruncated(content, retained, omitted, head, tail);
    }
  }

  /**
   * The check accepts a result and a content exactly when the result reports the content and
   * this is everything that was retained: the whole output, or head, line and tail of it.
   */
  lemma AcceptedExactly(result: Fields, content: Octets, digest: Digest)
    ensures CompleteArtifact.IsValidCompleteCommandArtifact(result, content, digest)
       <==> exists retained, omitted ::
              Reports(result, content, retained, omitted, digest) && IsWholeOrTruncated(content, retained, omitted)
  {
    CompleteArtifact.AcceptedIffOneOmission(result, content, digest);
    var retained, omitted := CommandPages.Number(result, "retained_bytes"), CommandPages.Number(result, "omitted_bytes");
    TruncatedIffSplit(content, retained, omitted);
    if CompleteArtifact.IsValidCompleteCommandArtifact(result, content, digest) {
      ConsistentReports(result, content, retained, omitted, digest);
      assert IsWholeOrTruncated(content, retained, omitted);
    }
    forall r, o | Reports(result, content, r, o, digest) && IsWholeOrTruncated(content, r, o)
      ensures CompleteArtifact.IsValidCompleteCommandArtifact(result, content, digest)
    {
      ReportsIsConsistent(result, content, r, o, digest);
    }
  }

  // ---------------------------------------------------------------------
  // Truncating an output

  /** The content that is left of an output when `head` and `tail` bytes of it are kept. */
  function Truncated(output: Octets, head: nat, tail: nat): Octets
    requires head + tail < |output|
  {
    output[..head] + Line(|output| - head - tail) + output[|output| - tail..]
  }

  /** The line occurs in the truncated output once, where it was put. */
  ghost predicate HasItsLineOnce(output: Octets, head: nat, tail: nat)
    requires head + tail < |output|
  {
    OnlyAt(Truncated(output, head, tail), Line(|output| - head - tail), head)
  }

  lemma HonestReport(result: Fields, content: Octets, retained: nat, omitted: nat, digest: Digest)
    requires Reports(result, content, retained, omitted, digest)
    ensures CompleteArtifact.IsValidCompleteCommandArtifact(result, content, digest)
            <==> IsWholeOrTruncated(content, retained, omitted)
  {
    AcceptedExactly(result, content, digest);
    forall r, o | Reports(result, content, r, o, digest)
      ensures r == retained && o == omitted
    {
    }
  }

  lemma OneHead(content: Octets, retained: nat, omitted: nat, at: nat)
    requires IsAt(content, Line(omitted), at) && omitted > 0
    ensures IsWholeOrTruncated(content, retained, omitted)
       ==> && 1048573 <= at <= 1048576 && OnlyAt(content, Line(omitted), at)
           && 1048573 <= |content| - |Line(omitted)| - at <= 1048576
  {
    if IsWholeOrTruncated(content, retained, omitted) {
      var head, tail :| IsTruncated(content, retained, omitted, head, tail);
      assert at == |head|;
    }
  }

  lemma HeadAndTail(content: Octets, omitted: nat, head: Octets, tail: Octets)
    requires content == head + Line(omitted) + tail && omitted > 0
    requires 1048573 <= |head| <= 1048576 && 1048573 <= |tail| <= 1048576 && OnlyAt(content, Line(omitted), |head|)
    ensures IsWholeOrTruncated(content, |head| + |tail|, omitted)
  {
    assert IsTruncated(content, |head| + |tail|, omitted, head, tail);
  }

  /**
   * An honestly truncated output with an honest report is accepted exactly when its ends are
   * long enough and the line it was given occurs in it nowhere else: an output that itself
   * contains such a line is rejected.
   */
  lemma TruncationAccepted(output: Octets, head: nat, tail: nat, content: Octets, omitted: nat, result: Fields, digest: Digest)
    requires head + tail < |output| && content == Truncated(output, head, tail) && omitted == |output| - head - tail
    requires Reports(result, content, head + tail, omitted, digest)
    ensures CompleteArtifact.IsValidCompleteCommandArtifact(result, content, digest)
       <==> 1048573 <= head <= 1048576 && 1048573 <= tail <= 1048576 && HasItsLineOnce(output, head, tail)
  {
    HonestReport(result, content, head + tail, omitted, digest);
    TruncationPlaced(output, head, tail);
    OneHead(content, head + tail, omitted, head);
    if 1048573 <= head <= 1048576 && 1048573 <= tail <= 1048576 && HasItsLineOnce(output, head, tail) {
      HeadAndTail(content, omitted, output[..head], output[|output| - tail..]);
    }
  }

  lemma TruncationPlaced(output: Octets, head: nat, tail: nat)
    requires head + tail < |output|
    ensures IsAt(Truncated(output, head, tail), Line(|output| - head - tail), head)
  {
    var line := Line(|output| - head - tail);
    assert (output[..head] + line)[head..] == line;
  }

  /** A whole output with an honest report is accepted. */
  lemma WholeAccepted(output: Octets, result: Fields, digest: Digest)
    requires Reports(result, output, |output|, 0, digest)
    ensures CompleteArtifact.IsValidCompleteCommandArtifact(result, output, digest)
  {
    AcceptedExactly(result, output, digest);
    assert IsWholeOrTruncated(output, |output|, 0);
  }
}

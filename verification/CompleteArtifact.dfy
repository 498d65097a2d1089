// isValidCompleteCommandArtifact (src/agent_runtime_client.cpp): a command's whole output,
// as reassembled from its pages, with one line in the middle standing for omitted bytes.

module CompleteArtifact {
  import opened Options
  import opened Bytes
  import opened Json
  import opened Identities
  import opened CommandPages

  const HEAD_LIMIT := 1024 * 1024
  const TAIL_LIMIT := 1024 * 1024

  // ---------------------------------------------------------------------
  // QByteArray::indexOf and lastIndexOf

  predicate OccursAt(content: Octets, part: Octets, i: int) {
    0 <= i <= |content| - |part| && content[i..i + |part|] == part
  }

  /** The first position from `from` on where the part occurs, or -1. */
  function IndexOfFrom(content: Octets, part: Octets, from: nat): (i: int)
    ensures i == -1 || (from <= i && OccursAt(content, part, i))
    ensures forall j | from <= j && OccursAt(content, part, j) :: 0 <= i <= j
    decreases |content| - from
  {
    if from + |part| > |content| then -1
    else if OccursAt(content, part, from) then from
    else IndexOfFrom(content, part, from + 1)
  }

  /** The last position up to `limit` where the part occurs, or -1. */
  function LastIndexOfTo(content: Octets, part: Octets, limit: int): (i: int)
    requires limit >= -1
    ensures i == -1 || (i <= limit && OccursAt(content, part, i))
    ensures forall j | j <= limit && OccursAt(content, part, j) :: j <= i
    decreases limit
  {
    if limit < 0 then -1
    else if OccursAt(content, part, limit) then limit
    else LastIndexOfTo(content, part, limit - 1)
  }

  function IndexOf(content: Octets, part: Octets): int {
    IndexOfFrom(content, part, 0)
  }

  function LastIndexOf(content: Octets, part: Octets): int {
    LastIndexOfTo(content, part, |content|)
  }

  // ---------------------------------------------------------------------
  // The check

  /** Sizes, totals and digests fit together; what follows is the place of the omission. */
  predicate Consistent(result: Fields, content: Octets, digest: Digest) {
    var reference := ContentOf(result);
    var sha256 := Hex(digest(content));
    && IsNumber(reference, "bytes") && IsNumber(result, "total_bytes")
    && IsNumber(result, "retained_bytes") && IsNumber(result, "omitted_bytes")
    && Value(result, "truncated").Boolean? && Value(reference, "sha256").Text?
    && |content| == Number(reference, "bytes")
    && Number(result, "total_bytes") == Add64(Number(result, "retained_bytes"), Number(result, "omitted_bytes"))
    && IsTrue(Value(result, "truncated")) == (Number(result, "omitted_bytes") > 0)
    && ToText(Value(reference, "sha256")) == sha256
    && ToText(Value(reference, "reference")) == "command-output:sha256:" + sha256
  }

  predicate MarkerInPlace(content: Octets, marker: Octets, retained: nat) {
    var markerOffset := IndexOf(content, marker);
    if markerOffset < 0 || markerOffset != LastIndexOf(content, marker) then false
    else
      var tailBytes := |content| - markerOffset - |marker|;
      && HEAD_LIMIT - 3 <= markerOffset <= HEAD_LIMIT
      && TAIL_LIMIT - 3 <= tailBytes <= TAIL_LIMIT
      && retained == markerOffset + tailBytes
      && |content| == Add64(retained, |marker|)
  }

  predicate IsValidCompleteCommandArtifact(result: Fields, content: Octets, digest: Digest) {
    var retained, omitted := Number(result, "retained_bytes"), Number(result, "omitted_bytes");
    && Consistent(result, content, digest)
    && if omitted == 0 then |content| == retained
       else MarkerInPlace(content, Utf8(Marker(omitted)), retained)
  }

  // ---------------------------------------------------------------------
  // What the check means

  predicate Splits(content: Octets, marker: Octets, head: Octets, tail: Octets) {
    content == head + marker + tail
  }

  /** A head and a tail of the retained size, each within three bytes of its limit. */
  predicate GoodSplit(content: Octets, marker: Octets, retained: nat, head: Octets, tail: Octets) {
    && Splits(content, marker, head, tail)
    && |head| + |tail| == retained
    && HEAD_LIMIT - 3 <= |head| <= HEAD_LIMIT
    && TAIL_LIMIT - 3 <= |tail| <= TAIL_LIMIT
  }

  /** The content is head, marker and tail in one way only, and that way is a good one. */
  ghost predicate UniqueGoodSplit(content: Octets, marker: Octets, retained: nat) {
    exists head, tail ::
      && GoodSplit(content, marker, retained, head, tail)
      && forall h, t | Splits(content, marker, h, t) :: h == head && t == tail
  }

  lemma SplitIsOccurrence(content: Octets, marker: Octets, head: Octets, tail: Octets)
    requires Splits(content, marker, head, tail)
    ensures OccursAt(content, marker, |head|)
    ensures head == content[..|head|] && tail == content[|head| + |marker|..]
  {
    assert content[|head|..|head| + |marker|] == marker;
  }

  lemma OccurrenceIsSplit(content: Octets, marker: Octets, i: nat)
    requires OccursAt(content, marker, i)
    ensures Splits(content, marker, content[..i], content[i + |marker|..])
  {
    assert content == content[..i] + content[i..i + |marker|] + content[i + |marker|..];
  }

  /** The scans for the first and the last marker agree on exactly the uniquely split contents. */
  lemma MarkerInPlaceIffUniqueGoodSplit(content: Octets, marker: Octets, retained: nat)
    requires |content| < TWO_TO_THE_64
    ensures MarkerInPlace(content, marker, retained) <==> UniqueGoodSplit(content, marker, retained)
  {
    if MarkerInPlace(content, marker, retained) {
      PlacedMarkerSplits(content, marker, retained);
    }
    if UniqueGoodSplit(content, marker, retained) {
      var head, tail :| GoodSplit(content, marker, retained, head, tail)
                        && forall h, t | Splits(content, marker, h, t) :: h == head && t == tail;
      UniqueSplitIsFoundTwice(content, marker, head, tail);
    }
  }

  lemma PlacedMarkerSplits(content: Octets, marker: Octets, retained: nat)
    requires |content| < TWO_TO_THE_64 && MarkerInPlace(content, marker, retained)
    ensures UniqueGoodSplit(content, marker, retained)
  {
    OnlySplit(content, marker);
    var i := IndexOf(content, marker);
    OccurrenceIsSplit(content, marker, i);
    assert GoodSplit(content, marker, retained, content[..i], content[i + |marker|..]);
  }

  lemma UniqueSplitIsFoundTwice(content: Octets, marker: Octets, head: Octets, tail: Octets)
    requires Splits(content, marker, head, tail)
    requires forall h, t | Splits(content, marker, h, t) :: h == head && t == tail
    ensures IndexOf(content, marker) == |head| == LastIndexOf(content, marker)
  {
    SplitIsOccurrence(content, marker, head, tail);
    var first, last := IndexOf(content, marker), LastIndexOf(content, marker);
    OccurrenceIsSplit(content, marker, first);
    OccurrenceIsSplit(content, marker, last);
    assert |content[..first]| == first && |content[..last]| == last;
  }

  lemma OnlySplit(content: Octets, marker: Octets)
    requires IndexOf(content, marker) >= 0 && IndexOf(content, marker) == LastIndexOf(content, marker)
    ensures var i := IndexOf(content, marker);
            forall h, t | Splits(content, marker, h, t) :: h == content[..i] && t == content[i + |marker|..]
  {
    forall h, t | Splits(content, marker, h, t)
      ensures |h| == IndexOf(content, marker)
    {
      SplitIsOccurrence(content, marker, h, t);
    }
    forall h, t | Splits(content, marker, h, t)
      ensures h == content[..|h|] && t == content[|h| + |marker|..]
    {
      SplitIsOccurrence(content, marker, h, t);
    }
  }

  /**
   * A complete output is accepted if and only if its sizes and digests are consistent and it
   * either is the retained bytes or splits, in exactly one way, into a head and a tail
   * around the line that stands for the omitted bytes.
   */
  lemma AcceptedIffOneOmission(result: Fields, content: Octets, digest: Digest)
    ensures var retained, omitted := Number(result, "retained_bytes"), Number(result, "omitted_bytes");
            IsValidCompleteCommandArtifact(result, content, digest) <==>
              && Consistent(result, content, digest)
              && if omitted == 0 then |content| == retained
                 else UniqueGoodSplit(content, Utf8(Marker(omitted)), retained)
  {
    var retained, omitted := Number(result, "retained_bytes"), Number(result, "omitted_bytes");
    if Consistent(result, content, digest) && omitted > 0 {
      MarkerInPlaceIffUniqueGoodSplit(content, Utf8(Marker(omitted)), retained);
    }
  }

  /** The omitted bytes complete the total: head, omission and tail make up everything the command wrote. */
  lemma OmissionAccountsForTotal(result: Fields, content: Octets, digest: Digest)
    requires IsValidCompleteCommandArtifact(result, content, digest)
    requires Number(result, "omitted_bytes") > 0
    ensures var omitted := Number(result, "omitted_bytes");
            exists head, tail ::
              && GoodSplit(content, Utf8(Marker(omitted)), Number(result, "retained_bytes"), head, tail)
              && |head| + omitted + |tail| == Number(result, "total_bytes")
  {
    var retained, omitted := Number(result, "retained_bytes"), Number(result, "omitted_bytes");
    MarkerInPlaceIffUniqueGoodSplit(content, Utf8(Marker(omitted)), retained);
    var head, tail :| GoodSplit(content, Utf8(Marker(omitted)), retained, head, tail);
    assert |head| + omitted + |tail| == Number(result, "total_bytes");
  }

  /** What the pages already guarantee of the reassembled bytes, page by page. */
  predicate PagesAgree(result: Fields, content: Octets) {
    var omitted := Number(result, "omitted_bytes");
    && |content| == Number(ContentOf(result), "bytes")
    && |content| == Number(result, "retained_bytes") + MarkerBytes(omitted)
    && Number(result, "total_bytes") == Number(result, "retained_bytes") + omitted
  }

  lemma PageEquations(result: Fields, request: Fields, digest: Digest)
    requires IsValidCommandArtifactPage(result, request, digest)
    ensures Number(ContentOf(result), "bytes")
            == Number(result, "retained_bytes") + MarkerBytes(Number(result, "omitted_bytes"))
    ensures Number(result, "total_bytes") == Number(result, "retained_bytes") + Number(result, "omitted_bytes")
  {
    TotalsExact(result);
  }

  /** The bytes of a complete accepted chain have the size the complete check asks for. */
  lemma CompleteChainAgrees(chain: seq<Exchange>, digest: Digest)
    requires Injective(digest) && AcceptedChain(chain, digest)
    requires Extents(chain)[|chain| - 1].complete
    ensures PagesAgree(chain[|chain| - 1].result, Assembled(Extents(chain)))
  {
    ChainReassembles(chain, digest);
    LastContentBytes(Extents(chain));
    var last := chain[|chain| - 1];
    PageAgrees(last.result, last.request, digest, Assembled(Extents(chain)));
  }

  lemma PageAgrees(result: Fields, request: Fields, digest: Digest, content: Octets)
    requires IsValidCommandArtifactPage(result, request, digest) && |content| == ExtentOf(result).contentBytes
    ensures PagesAgree(result, content)
  {
    PageEquations(result, request, digest);
  }

  lemma LastContentBytes(extents: seq<Extent>)
    requires extents != [] && Reassembles(extents) && extents[|extents| - 1].complete
    ensures |Assembled(extents)| == extents[|extents| - 1].contentBytes
  {
  }
}

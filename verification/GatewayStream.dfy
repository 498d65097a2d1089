// assets/local_gateway.js, the handlers of one upstream response: SSE and JSON
// buffering, usage extraction and the terminal event.

module GatewayStream {
  import opened Options
  import opened Bytes
  import opened Lines
  import opened GatewayUsage
  import Utf16

  type Text = seq<Utf16.unit>

  const NEWLINE: Utf16.unit := 10

  const MAXIMUM_EVENT_BUFFER := 1024 * 1024

  const MAXIMUM_JSON_BUFFER := 4 * 1024 * 1024

  /**
   * What the script gets from the JavaScript library: the payload of an SSE line (trimmed,
   * "data:" removed, not "[DONE]", parsed as JSON), the payload of a whole body, and whether
   * a text is blank.
   */
  datatype Parser = Parser(ofLine: Text -> Option<Payload>, ofBody: Octets -> Option<Payload>, isBlank: Text -> bool)

  /** A chunk of the body and its UTF-8 decoding. */
  datatype Chunk = Chunk(bytes: Octets, text: Text)

  datatype Termination = End | AbortedByPeer | Failed | RequestFailed

  datatype Event = Data(chunk: Chunk) | Terminal(termination: Termination)

  /** The terminal event written to standard output; the request error handler reports no counts. */
  datatype Report = Report(termination: Termination, bytesReceived: nat, usage: Usage)

  datatype State = State(
    eventBuffer: Text,
    jsonBuffer: Octets,
    bytesReceived: nat,
    usage: Usage,
    terminalEventEmitted: bool,
    // The history: the lines inspected and the reports emitted so far.
    inspected: seq<Text>,
    reports: seq<Report>)

  const INITIAL := State([], [], 0, NO_USAGE, false, [], [])

  function PayloadList(payload: Option<Payload>): seq<Payload> {
    match payload case None => [] case Some(p) => [p]
  }

  function InspectedLines(usage: Usage, lines: seq<Text>, parser: Parser): Usage {
    if lines == [] then usage
    else
      Inspected(InspectedLines(usage, lines[..|lines| - 1], parser), PayloadList(parser.ofLine(lines[|lines| - 1])))
  }

  lemma OneLineMore(usage: Usage, lines: seq<Text>, line: Text, parser: Parser)
    ensures InspectedLines(usage, lines + [line], parser)
         == Inspected(InspectedLines(usage, lines, parser), PayloadList(parser.ofLine(line)))
  {
    assert (lines + [line])[..|lines|] == lines;
  }

  lemma LineTaken(lines: seq<Text>, buffer: Text, newline: nat)
    requires newline < |buffer| && buffer[newline] == NEWLINE && NEWLINE !in buffer[..newline]
    ensures Feed(Cut(lines, []), buffer, NEWLINE) == Feed(Cut(lines + [buffer[..newline]], []), buffer[newline + 1..], NEWLINE)
  {
    FeedFirstLine(Cut(lines, []), buffer, newline, NEWLINE);
    assert [] + buffer[..newline] == buffer[..newline];
  }

  lemma InspectedOne(usage: Usage, payload: Option<Payload>)
    ensures Inspected(usage, PayloadList(payload))
            == match payload case None => usage case Some(p) => MergedAll(usage, Places(p))
  {
    if payload.Some? {
      assert [payload.value][..0] == [];
      assert Inspected(usage, []) == usage;
    }
  }

  /** eventBuffer.slice(-1024 * 1024) when the buffer has grown beyond that. */
  function Clipped(buffer: Text): Text {
    if |buffer| > MAXIMUM_EVENT_BUFFER then buffer[|buffer| - MAXIMUM_EVENT_BUFFER..] else buffer
  }

  /** The text of a chunk of an event stream: it is buffered, and the complete lines are inspected. */
  function OnText(s: State, text: Text, parser: Parser): State {
    var cut := Feed(Cut([], []), Clipped(s.eventBuffer + text), NEWLINE);
    s.(eventBuffer := cut.rest,
       usage := InspectedLines(s.usage, cut.lines, parser),
       inspected := s.inspected + cut.lines)
  }

  /** The bytes of a chunk of any other body, as far as there is room for them. */
  function OnBytes(s: State, bytes: Octets): State {
    if |s.jsonBuffer| < MAXIMUM_JSON_BUFFER then s.(jsonBuffer := FirstBytes(s.jsonBuffer + bytes)) else s
  }

  function OnData(s: State, chunk: Chunk, isEventStream: bool, parser: Parser): State {
    var s := s.(bytesReceived := s.bytesReceived + |chunk.bytes|);
    if isEventStream then OnText(s, chunk.text, parser) else OnBytes(s, chunk.bytes)
  }

  function FirstBytes(bytes: Octets): Octets {
    if |bytes| > MAXIMUM_JSON_BUFFER then bytes[..MAXIMUM_JSON_BUFFER] else bytes
  }

  /** At the end of the response the open line, or the buffered body, is inspected. */
  function BeforeReport(s: State, termination: Termination, isEventStream: bool, parser: Parser): State {
    if termination != End then s
    else if isEventStream && !parser.isBlank(s.eventBuffer) then
      s.(usage := Inspected(s.usage, PayloadList(parser.ofLine(s.eventBuffer))),
         inspected := s.inspected + [s.eventBuffer])
    else if !isEventStream && |s.jsonBuffer| > 0 then
      s.(usage := Inspected(s.usage, PayloadList(parser.ofBody(s.jsonBuffer))))
    else s
  }

  function OnTerminal(s: State, termination: Termination, isEventStream: bool, parser: Parser): State {
    var s := BeforeReport(s, termination, isEventStream, parser);
    if s.terminalEventEmitted then s
    else
      var report := if termination == RequestFailed then Report(termination, 0, NO_USAGE)
                    else Report(termination, s.bytesReceived, s.usage);
      s.(terminalEventEmitted := true, reports := s.reports + [report])
  }

  function Step(s: State, event: Event, isEventStream: bool, parser: Parser): State {
    match event
    case Data(chunk) => OnData(s, chunk, isEventStream, parser)
    case Terminal(termination) => OnTerminal(s, termination, isEventStream, parser)
  }

  function Run(events: seq<Event>, isEventStream: bool, parser: Parser): State {
    if events == [] then INITIAL
    else Step(Run(events[..|events| - 1], isEventStream, parser), events[|events| - 1], isEventStream, parser)
  }

  // ---------------------------------------------------------------------
  // The handlers

  class ResponseHandlers {
    const isEventStream: bool
    const parser: Parser
    const usage: UsageTarget
    var eventBuffer: Text
    var jsonBuffer: Octets
    var bytesReceived: nat
    var terminalEventEmitted: bool
    ghost var inspected: seq<Text>
    var reports: seq<Report>

    ghost function Contents(): State
      reads this, usage
    {
      State(eventBuffer, jsonBuffer, bytesReceived, usage.Contents(), terminalEventEmitted, inspected, reports)
    }

    constructor (isEventStream: bool, parser: Parser)
      ensures Contents() == INITIAL && fresh(usage)
      ensures this.isEventStream == isEventStream && this.parser == parser
    {
      this.isEventStream, this.parser := isEventStream, parser;
      usage := new UsageTarget();
      eventBuffer, jsonBuffer, bytesReceived, terminalEventEmitted := [], [], 0, false;
      inspected, reports := [], [];
    }

    method InspectEventLine(line: Text)
      modifies this`inspected, usage
      ensures inspected == old(inspected) + [line]
      ensures usage.Contents() == Inspected(old(usage.Contents()), PayloadList(parser.ofLine(line)))
    {
      var payload := parser.ofLine(line);
      if payload.Some? {
        usage.InspectUsagePayload(payload.value);
      }
      InspectedOne(old(usage.Contents()), payload);
      inspected := inspected + [line];
    }

    method HandleData(chunk: Chunk)
      modifies this, usage
      ensures Contents() == OnData(old(Contents()), chunk, isEventStream, parser)
    {
      bytesReceived := bytesReceived + |chunk.bytes|;
      if isEventStream {
        HandleText(chunk.text);
      } else {
        HandleBytes(chunk.bytes);
      }
    }

    /** The text joins the buffer, which keeps its last part if it has grown too long. */
    method HandleText(text: Text)
      modifies this`eventBuffer, this`inspected, usage
      ensures Contents() == OnText(old(Contents()), text, parser)
    {
      eventBuffer := eventBuffer + text;
      if |eventBuffer| > MAXIMUM_EVENT_BUFFER {
        eventBuffer := eventBuffer[|eventBuffer| - MAXIMUM_EVENT_BUFFER..];
      }
      DrainLines();
    }

    /** As many of the bytes as the buffer still has room for. */
    method HandleBytes(bytes: Octets)
      modifies `jsonBuffer
      ensures Contents() == OnBytes(old(Contents()), bytes)
    {
      if |jsonBuffer| < MAXIMUM_JSON_BUFFER {
        var remaining := MAXIMUM_JSON_BUFFER - |jsonBuffer|;
        var taken := if |bytes| > remaining then bytes[..remaining] else bytes;
        assert jsonBuffer + taken == FirstBytes(jsonBuffer + bytes);
        jsonBuffer := jsonBuffer + taken;
      }
    }

    /** The while loop over the newlines of the event buffer. */
    method DrainLines()
      modifies this`eventBuffer, this`inspected, usage
      ensures var cut := Feed(Cut([], []), old(eventBuffer), NEWLINE);
              && eventBuffer == cut.rest
              && inspected == old(inspected) + cut.lines
              && usage.Contents() == InspectedLines(old(usage.Contents()), cut.lines, parser)
    {
      ghost var cut := Feed(Cut([], []), eventBuffer, NEWLINE);
      ghost var lines: seq<Text> := [];
      var newline := IndexOf(eventBuffer, NEWLINE);
      while newline >= 0
        invariant newline == -1 ==> NEWLINE !in eventBuffer
        invariant newline != -1 ==>
            0 <= newline < |eventBuffer| && eventBuffer[newline] == NEWLINE && NEWLINE !in eventBuffer[..newline]
        invariant Feed(Cut(lines, []), eventBuffer, NEWLINE) == cut
        invariant inspected == old(inspected) + lines
        invariant usage.Contents() == InspectedLines(old(usage.Contents()), lines, parser)
        decreases |eventBuffer|
      {
        var line := eventBuffer[..newline];
        LineTaken(lines, eventBuffer, newline);
        OneLineMore(old(usage.Contents()), lines, line, parser);
        eventBuffer := eventBuffer[newline + 1..];
        InspectEventLine(line);
        lines := lines + [line];
        newline := IndexOf(eventBuffer, NEWLINE);
      }
      FeedPlain(Cut(lines, []), eventBuffer, NEWLINE);
    }

    method HandleTerminal(termination: Termination)
      modifies this, usage
      ensures Contents() == OnTerminal(old(Contents()), termination, isEventStream, parser)
    {
      ghost var s := BeforeReport(Contents(), termination, isEventStream, parser);
      if termination == End {
        if isEventStream && !parser.isBlank(eventBuffer) {
          InspectEventLine(eventBuffer);
        } else if !isEventStream && |jsonBuffer| > 0 {
          var payload := parser.ofBody(jsonBuffer);
          if payload.Some? {
            usage.InspectUsagePayload(payload.value);
          }
          InspectedOne(old(usage.Contents()), payload);
        }
      }
      assert s == old(Contents()).(usage := usage.Contents(), inspected := inspected);
      if terminalEventEmitted {
        return;
      }
      terminalEventEmitted := true;
      var report := Report(termination, 0, NO_USAGE);
      if termination != RequestFailed {
        report := Report(termination, bytesReceived,
                         Usage(usage.inputTokens, usage.outputTokens, usage.totalTokens));
      }
      reports := reports + [report];
    }
  }

  // ---------------------------------------------------------------------
  // The JSON buffer

  function DataEvents(chunks: seq<Chunk>): (r: seq<Event>)
    ensures |r| == |chunks|
    ensures forall i | 0 <= i < |r| :: r[i] == Data(chunks[i])
  {
    seq(|chunks|, i requires 0 <= i < |chunks| => Data(chunks[i]))
  }

  lemma DataEventsLast(chunks: seq<Chunk>)
    requires chunks != []
    ensures var events := DataEvents(chunks);
            events[..|events| - 1] == DataEvents(chunks[..|chunks| - 1])
  {
  }

  function ByteChunks(chunks: seq<Chunk>): (r: seq<Octets>)
    ensures |r| == |chunks|
  {
    seq(|chunks|, i requires 0 <= i < |chunks| => chunks[i].bytes)
  }

  function TextChunks(chunks: seq<Chunk>): (r: seq<Text>)
    ensures |r| == |chunks|
  {
    seq(|chunks|, i requires 0 <= i < |chunks| => chunks[i].text)
  }

  /** However the body is cut, the buffer holds its first 4 MiB and the byte count is exact. */
  lemma {:induction false} JsonBufferIsPrefix(chunks: seq<Chunk>, parser: Parser)
    ensures var s := Run(DataEvents(chunks), false, parser);
            var body := Concat(ByteChunks(chunks));
            && s.jsonBuffer == (if |body| > 4194304 then body[..4194304] else body)
            && s.bytesReceived == |body| && s.inspected == [] && s.reports == []
            && s.usage == NO_USAGE && !s.terminalEventEmitted
  {
    if chunks != [] {
      var earlier, last := chunks[..|chunks| - 1], chunks[|chunks| - 1];
      JsonBufferIsPrefix(earlier, parser);
      DataEventsLast(chunks);
      assert ByteChunks(chunks)[..|chunks| - 1] == ByteChunks(earlier);
      FirstBytesOfMore(Concat(ByteChunks(earlier)), last.bytes);
    }
  }

  lemma FirstBytesOfMore(body: Octets, more: Octets)
    ensures FirstBytes(FirstBytes(body) + more) == FirstBytes(body + more)
    ensures |FirstBytes(body)| >= MAXIMUM_JSON_BUFFER ==> FirstBytes(body + more) == FirstBytes(body)
  {
  }

  // ---------------------------------------------------------------------
  // The SSE lines

  /** The whole stream, cut once. */
  function WholeCut(chunks: seq<Chunk>): Cut<Utf16.unit> {
    CutAll(Concat(TextChunks(chunks)), NEWLINE)
  }

  /** No chunk ever made the open line plus the chunk longer than the buffer allows. */
  ghost predicate NeverOverflows(chunks: seq<Chunk>) {
    forall i | 0 <= i < |chunks| :: |WholeCut(chunks[..i]).rest| + |chunks[i].text| <= 1048576
  }

  lemma WholeCutStep(chunks: seq<Chunk>)
    requires chunks != []
    ensures WholeCut(chunks)
            == Feed(WholeCut(chunks[..|chunks| - 1]), chunks[|chunks| - 1].text, NEWLINE)
  {
    var earlier, last := chunks[..|chunks| - 1], chunks[|chunks| - 1];
    assert TextChunks(chunks)[..|chunks| - 1] == TextChunks(earlier);
    FeedAppend(Cut([], []), Concat(TextChunks(earlier)), last.text, NEWLINE);
  }

  /** The lines inspected and the text still buffered. */
  function CutSoFar(s: State): Cut<Utf16.unit> {
    Cut(s.inspected, s.eventBuffer)
  }

  /** One data event on an event stream: the buffered text is clipped, then cut further. */
  lemma OnDataCuts(s: State, chunk: Chunk, parser: Parser)
    ensures CutSoFar(OnData(s, chunk, true, parser))
            == Feed(Cut(s.inspected, []), Clipped(s.eventBuffer + chunk.text), NEWLINE)
    ensures NEWLINE !in OnData(s, chunk, true, parser).eventBuffer
  {
    var buffer := Clipped(s.eventBuffer + chunk.text);
    Resume(s.inspected, [], [], buffer, NEWLINE);
    assert s.inspected + [] == s.inspected;
    RestHasNoNewline(Cut([], []), buffer, NEWLINE);
  }

  lemma {:induction false} BufferHasNoNewline(chunks: seq<Chunk>, parser: Parser)
    ensures NEWLINE !in Run(DataEvents(chunks), true, parser).eventBuffer
  {
    if chunks != [] {
      DataEventsLast(chunks);
      var earlier := chunks[..|chunks| - 1];
      OnDataCuts(Run(DataEvents(earlier), true, parser), chunks[|chunks| - 1], parser);
    }
  }

  /** Elements are never gained, and clipping loses some for good. */
  lemma {:induction false} CutWeight(chunks: seq<Chunk>, parser: Parser)
    ensures Weight(CutSoFar(Run(DataEvents(chunks), true, parser))) <= Weight(WholeCut(chunks))
  {
    if chunks != [] {
      DataEventsLast(chunks);
      var earlier, last := chunks[..|chunks| - 1], chunks[|chunks| - 1];
      CutWeight(earlier, parser);
      var s := Run(DataEvents(earlier), true, parser);
      OnDataCuts(s, last, parser);
      FeedWeight(Cut(s.inspected, []), Clipped(s.eventBuffer + last.text), NEWLINE);
      WholeCutStep(chunks);
      FeedWeight(WholeCut(earlier), last.text, NEWLINE);
    }
  }

  /**
   * The lines inspected, with the open line, are those of the whole stream if and only if
   * no chunk made the buffer overflow.
   */
  lemma {:induction false} SseLinesExactlyWhenNoOverflow(chunks: seq<Chunk>, parser: Parser)
    ensures CutSoFar(Run(DataEvents(chunks), true, parser)) == WholeCut(chunks) <==> NeverOverflows(chunks)
  {
    if chunks != [] {
      DataEventsLast(chunks);
      var last := |chunks| - 1;
      var earlier := chunks[..last];
      SseLinesExactlyWhenNoOverflow(earlier, parser);
      NeverOverflowsPrefix(chunks);
      LastChunk(chunks, parser);
    }
  }

  lemma NeverOverflowsPrefix(chunks: seq<Chunk>)
    requires chunks != []
    ensures var last := |chunks| - 1;
            NeverOverflows(chunks) <==>
              && NeverOverflows(chunks[..last])
              && |WholeCut(chunks[..last]).rest| + |chunks[last].text| <= MAXIMUM_EVENT_BUFFER
  {
    var last := |chunks| - 1;
    assert forall i | 0 <= i < last :: chunks[..last][..i] == chunks[..i];
  }

  lemma LastChunk(chunks: seq<Chunk>, parser: Parser)
    requires chunks != []
    ensures var earlier, last := chunks[..|chunks| - 1], chunks[|chunks| - 1];
            CutSoFar(Run(DataEvents(chunks), true, parser)) == WholeCut(chunks) <==>
              && CutSoFar(Run(DataEvents(earlier), true, parser)) == WholeCut(earlier)
              && |WholeCut(earlier).rest| + |last.text| <= MAXIMUM_EVENT_BUFFER
  {
    var earlier, last := chunks[..|chunks| - 1], chunks[|chunks| - 1];
    var s := Run(DataEvents(earlier), true, parser);
    DataEventsLast(chunks);
    WholeCutStep(chunks);
    OnDataCuts(s, last, parser);
    CutWeight(earlier, parser);
    BufferHasNoNewline(earlier, parser);
    ClippedCut(s, last.text, WholeCut(earlier));
  }

  /** Cutting the clipped buffer is cutting the whole stream exactly when nothing was lost, now or before. */
  lemma ClippedCut(s: State, text: Text, whole: Cut<Utf16.unit>)
    requires NEWLINE !in s.eventBuffer && Weight(CutSoFar(s)) <= Weight(whole)
    ensures Feed(Cut(s.inspected, []), Clipped(s.eventBuffer + text), NEWLINE) == Feed(whole, text, NEWLINE)
            <==> CutSoFar(s) == whole && |whole.rest| + |text| <= MAXIMUM_EVENT_BUFFER
  {
    var buffer := s.eventBuffer + text;
    if |buffer| > MAXIMUM_EVENT_BUFFER {
      FeedWeight(Cut(s.inspected, []), Clipped(buffer), NEWLINE);
      FeedWeight(whole, text, NEWLINE);
    } else {
      FeedAppend(Cut(s.inspected, []), s.eventBuffer, text, NEWLINE);
      FeedPlain(Cut(s.inspected, []), s.eventBuffer, NEWLINE);
      assert [] + s.eventBuffer == s.eventBuffer;
      if Feed(CutSoFar(s), text, NEWLINE) == Feed(whole, text, NEWLINE) {
        FeedInjective(CutSoFar(s), whole, text, NEWLINE);
      }
    }
  }

  // ---------------------------------------------------------------------
  // The report

  /** Whatever the order of end, abort and error, exactly one report follows the first of them. */
  lemma {:induction false} OneReport(events: seq<Event>, isEventStream: bool, parser: Parser)
    ensures var s := Run(events, isEventStream, parser);
            && s.terminalEventEmitted == HasTerminal(events)
            && |s.reports| == (if s.terminalEventEmitted then 1 else 0)
  {
    if events != [] {
      OneReport(events[..|events| - 1], isEventStream, parser);
      HasTerminalLast(events);
      ReportStep(Run(events[..|events| - 1], isEventStream, parser), events[|events| - 1], isEventStream, parser);
    }
  }

  ghost predicate HasTerminal(events: seq<Event>) {
    exists e :: e in events && e.Terminal?
  }

  lemma HasTerminalLast(events: seq<Event>)
    requires events != []
    ensures HasTerminal(events) <==> HasTerminal(events[..|events| - 1]) || events[|events| - 1].Terminal?
  {
    assert forall e | e in events :: e in events[..|events| - 1] || e == events[|events| - 1];
    assert forall e | e in events[..|events| - 1] :: e in events;
  }

  lemma ReportStep(s: State, event: Event, isEventStream: bool, parser: Parser)
    ensures var s1 := Step(s, event, isEventStream, parser);
            && s1.terminalEventEmitted == (s.terminalEventEmitted || event.Terminal?)
            && |s1.reports| == |s.reports| + if event.Terminal? && !s.terminalEventEmitted then 1 else 0
  {
  }

  /** The lines whose payloads an event stream reports: all complete ones and a last open one. */
  function ReportedLines(cut: Cut<Utf16.unit>, parser: Parser): seq<Text> {
    if parser.isBlank(cut.rest) then cut.lines else cut.lines + [cut.rest]
  }

  function PayloadsOf(lines: seq<Text>, parser: Parser): seq<Payload> {
    if lines == [] then []
    else PayloadsOf(lines[..|lines| - 1], parser) + PayloadList(parser.ofLine(lines[|lines| - 1]))
  }

  lemma InspectedAppendOne(usage: Usage, payloads: seq<Payload>, more: Option<Payload>)
    ensures Inspected(usage, payloads + PayloadList(more)) == Inspected(Inspected(usage, payloads), PayloadList(more))
  {
    match more {
      case None => assert payloads + [] == payloads;
      case Some(p) =>
        assert (payloads + [p])[..|payloads|] == payloads;
        assert [p][..0] == [];
    }
  }

  lemma {:induction false} InspectedLinesAppend(usage: Usage, a: seq<Text>, b: seq<Text>, parser: Parser)
    ensures InspectedLines(usage, a + b, parser) == InspectedLines(InspectedLines(usage, a, parser), b, parser)
    decreases |b|
  {
    if b == [] {
      assert a + b == a;
    } else {
      var front := b[..|b| - 1];
      assert (a + b)[..|a + b| - 1] == a + front;
      InspectedLinesAppend(usage, a, front, parser);
    }
  }

  lemma {:induction false} InspectedLinesArePayloads(lines: seq<Text>, parser: Parser)
    ensures InspectedLines(NO_USAGE, lines, parser) == Inspected(NO_USAGE, PayloadsOf(lines, parser))
  {
    if lines != [] {
      var earlier, last := lines[..|lines| - 1], lines[|lines| - 1];
      InspectedLinesArePayloads(earlier, parser);
      InspectedAppendOne(NO_USAGE, PayloadsOf(earlier, parser), parser.ofLine(last));
    }
  }

  /** The counts always are those of the lines inspected, and the bytes are counted exactly. */
  lemma {:induction false} UsageOfInspected(chunks: seq<Chunk>, parser: Parser)
    ensures var s := Run(DataEvents(chunks), true, parser);
            && s.usage == InspectedLines(NO_USAGE, s.inspected, parser)
            && s.bytesReceived == |Concat(ByteChunks(chunks))|
            && !s.terminalEventEmitted && s.reports == []
  {
    if chunks != [] {
      DataEventsLast(chunks);
      var earlier, last := chunks[..|chunks| - 1], chunks[|chunks| - 1];
      UsageOfInspected(earlier, parser);
      assert ByteChunks(chunks)[..|chunks| - 1] == ByteChunks(earlier);
      var s := Run(DataEvents(earlier), true, parser);
      var cut := Feed(Cut([], []), Clipped(s.eventBuffer + last.text), NEWLINE);
      InspectedLinesAppend(NO_USAGE, s.inspected, cut.lines, parser);
    }
  }

  /** At its end an event stream reports what all its lines mention. */
  lemma EventStreamEnd(chunks: seq<Chunk>, parser: Parser)
    requires NeverOverflows(chunks)
    ensures Run(DataEvents(chunks) + [Terminal(End)], true, parser).reports
         == [Report(End, |Concat(ByteChunks(chunks))|, Inspected(NO_USAGE, PayloadsOf(ReportedLines(WholeCut(chunks), parser), parser)))]
  {
    var events := DataEvents(chunks);
    var s := Run(events, true, parser);
    SseLinesExactlyWhenNoOverflow(chunks, parser);
    UsageOfInspected(chunks, parser);
    assert (events + [Terminal(End)])[..|events|] == events;
    LastLineInspected(s, parser);
    InspectedLinesArePayloads(ReportedLines(WholeCut(chunks), parser), parser);
  }

  lemma LastLineInspected(s: State, parser: Parser)
    requires s.usage == InspectedLines(NO_USAGE, s.inspected, parser)
    ensures BeforeReport(s, End, true, parser).usage
         == InspectedLines(NO_USAGE, ReportedLines(CutSoFar(s), parser), parser)
  {
    var lines := ReportedLines(CutSoFar(s), parser);
    if !parser.isBlank(s.eventBuffer) {
      assert lines[..|lines| - 1] == s.inspected;
    }
  }

  /**
   * The usage an event stream reports at its end: for each count the largest number in the
   * payloads of the whole stream's lines, however the stream was cut into chunks.
   */
  lemma EventStreamReport(chunks: seq<Chunk>, parser: Parser)
    requires NeverOverflows(chunks)
    ensures var s := Run(DataEvents(chunks) + [Terminal(End)], true, parser);
            var payloads := PayloadsOf(ReportedLines(WholeCut(chunks), parser), parser);
            && |s.reports| == 1 && s.reports[0].termination == End
            && s.reports[0].bytesReceived == |Concat(ByteChunks(chunks))|
            && forall count: Count :: IsLargestMention(CountOf(s.reports[0].usage, count), payloads, count)
  {
    EventStreamEnd(chunks, parser);
    var payloads := PayloadsOf(ReportedLines(WholeCut(chunks), parser), parser);
    forall count: Count
      ensures IsLargestMention(CountOf(Inspected(NO_USAGE, payloads), count), payloads, count)
    {
      UsageIsMaximum(payloads, count);
    }
  }

  /** A JSON body of at most 4 MiB is parsed whole at its end, however it was cut. */
  lemma JsonReport(chunks: seq<Chunk>, parser: Parser)
    requires |Concat(ByteChunks(chunks))| <= 4194304
    ensures var s := Run(DataEvents(chunks) + [Terminal(End)], false, parser);
            var body := Concat(ByteChunks(chunks));
            && s.reports == [Report(End, |body|,
                                    if body == [] then NO_USAGE
                                    else Inspected(NO_USAGE, PayloadList(parser.ofBody(body))))]
  {
    var events := DataEvents(chunks);
    JsonBufferIsPrefix(chunks, parser);
    NoReportFromData(chunks, parser);
    assert (events + [Terminal(End)])[..|events|] == events;
  }

  /** A response that does not end by itself is reported with the cause, and what was counted until then. */
  lemma InterruptedReport(chunks: seq<Chunk>, termination: Termination, isEventStream: bool, parser: Parser)
    requires termination != End
    ensures var s := Run(DataEvents(chunks) + [Terminal(termination)], isEventStream, parser);
            && |s.reports| == 1
            && s.reports[0].termination == termination
            && s.reports[0].bytesReceived == (if termination == RequestFailed then 0 else |Concat(ByteChunks(chunks))|)
            && (termination == RequestFailed || !isEventStream ==> s.reports[0].usage == NO_USAGE)
            && (termination != RequestFailed && isEventStream && NeverOverflows(chunks) ==>
                  s.reports[0].usage == Inspected(NO_USAGE, PayloadsOf(WholeCut(chunks).lines, parser)))
  {
    var events := DataEvents(chunks);
    var s := Run(events, isEventStream, parser);
    NoReportFromData(chunks, parser);
    assert (events + [Terminal(termination)])[..|events|] == events;
    if isEventStream {
      BytesAreCounted(chunks, parser);
      NoReportFromStream(chunks, parser);
      if NeverOverflows(chunks) {
        SseLinesExactlyWhenNoOverflow(chunks, parser);
        UsageOfInspected(chunks, parser);
        InspectedLinesArePayloads(WholeCut(chunks).lines, parser);
      }
    } else {
      JsonBufferIsPrefix(chunks, parser);
    }
  }

  lemma {:induction false} BytesAreCounted(chunks: seq<Chunk>, parser: Parser)
    ensures Run(DataEvents(chunks), true, parser).bytesReceived == |Concat(ByteChunks(chunks))|
  {
    if chunks != [] {
      DataEventsLast(chunks);
      BytesAreCounted(chunks[..|chunks| - 1], parser);
      assert ByteChunks(chunks)[..|chunks| - 1] == ByteChunks(chunks[..|chunks| - 1]);
    }
  }

  lemma {:induction false} NoReportFromStream(chunks: seq<Chunk>, parser: Parser)
    ensures var s := Run(DataEvents(chunks), true, parser); s.reports == [] && !s.terminalEventEmitted
  {
    if chunks != [] {
      DataEventsLast(chunks);
      NoReportFromStream(chunks[..|chunks| - 1], parser);
    }
  }

  /** After the first terminal event, nothing adds to the report or takes from it. */
  lemma {:induction false} FirstReportStays(events: seq<Event>, more: seq<Event>, isEventStream: bool, parser: Parser)
    requires HasTerminal(events)
    ensures Run(events + more, isEventStream, parser).reports == Run(events, isEventStream, parser).reports
    decreases |more|
  {
    if more == [] {
      assert events + more == events;
    } else {
      var front := more[..|more| - 1];
      FirstReportStays(events, front, isEventStream, parser);
      OneReport(events + front, isEventStream, parser);
      assert (events + more)[..|events + more| - 1] == events + front;
      var e :| e in events && e.Terminal?;
      assert e in events + front;
    }
  }

  lemma {:induction false} NoReportFromData(chunks: seq<Chunk>, parser: Parser)
    ensures Run(DataEvents(chunks), false, parser).reports == []
  {
    if chunks != [] {
      DataEventsLast(chunks);
      NoReportFromData(chunks[..|chunks| - 1], parser);
    }
  }
}

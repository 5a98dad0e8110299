// The event-stream interpretation of section 9.2.6 of the HTML Living
// Standard, written from its own steps (append to the data buffer with a LF,
// strip the last LF at dispatch), and the proof that the reader refines it.
module EventStreamStandard {
  import opened EventStreamLines
  import opened EventStreamParser

  // An event the standard dispatches.
  datatype Dispatched = Dispatched(data: string, eventType: string, lastEventId: string)

  // The three buffers and the last event ID string of the event source.
  datatype Source = Source(data: string, eventType: string, idBuffer: string, lastEventId: string)

  datatype Run = Run(source: Source, events: seq<Dispatched>)

  function BeforeColon(line: string): string {
    if line == "" || line[0] == ':' then "" else [line[0]] + BeforeColon(line[1..])
  }

  function AfterColon(line: string): string {
    if line == "" then "" else if line[0] == ':' then line[1..] else AfterColon(line[1..])
  }

  function WithoutLeadingSpace(value: string): string {
    if |value| > 0 && value[0] == ' ' then value[1..] else value
  }

  function ProcessField(s: Source, name: string, value: string): Source {
    if name == "event" then s.(eventType := value)
    else if name == "data" then s.(data := (s.data + value) + "\n")
    else if name == "id" && '\0' !in value then s.(idBuffer := value)
    else s
  }

  function Dispatch(s: Source): Run {
    var next := s.(lastEventId := s.idBuffer);
    if s.data == "" then
      Run(next.(eventType := ""), [])
    else
      var data := if s.data[|s.data| - 1] == '\n' then s.data[..|s.data| - 1] else s.data;
      var eventType := if s.eventType != "" then s.eventType else "message";
      Run(next.(data := "", eventType := ""), [Dispatched(data, eventType, next.lastEventId)])
  }

  function ProcessLine(s: Source, line: string): Run {
    if line == "" then Dispatch(s)
    else if line[0] == ':' then Run(s, [])
    else if ':' in line then Run(ProcessField(s, BeforeColon(line), WithoutLeadingSpace(AfterColon(line))), [])
    else Run(ProcessField(s, line, ""), [])
  }

  function ProcessLines(s: Source, lines: seq<string>): Run {
    if lines == [] then
      Run(s, [])
    else
      var before := ProcessLines(s, lines[..|lines| - 1]);
      var last := ProcessLine(before.source, lines[|lines| - 1]);
      Run(last.source, before.events + last.events)
  }

  function StreamStart(lastEventId: string): Source {
    Source("", "", lastEventId, lastEventId)
  }

  // A whole stream: one leading BOM ignored, an unterminated last line discarded.
  function Interpret(lastEventId: string, text: string): Run {
    var body := if text != "" && text[0] == BOM then text[1..] else text;
    ProcessLines(StreamStart(lastEventId), SplitLines(body).lines)
  }

  // The messages with data, seen as the standard's events.
  function EventsOf(messages: seq<Message>): seq<Dispatched> {
    if messages == [] then []
    else
      var m := messages[|messages| - 1];
      EventsOf(messages[..|messages| - 1]) +
      if m.record.hasData
      then [Dispatched(m.record.data, if m.record.event == "" then "message" else m.record.event, m.id)]
      else []
  }

  // The id the consumer would resume from after these messages.
  function Resumable(lastEventId: string, messages: seq<Message>): string {
    if messages == [] then lastEventId
    else
      var m := messages[|messages| - 1];
      if m.record.hasId then m.id else Resumable(lastEventId, messages[..|messages| - 1])
  }

  // The reader's flags and joined data, in the standard's buffers.
  ghost predicate Represents(s: Source, scan: Scan) {
    && s.data == (if scan.record.hasData then scan.record.data + "\n" else "")
    && (!scan.record.hasData ==> scan.record.data == "")
    && s.eventType == scan.record.event
    && s.idBuffer == scan.id
    && (!scan.record.hasId ==> s.lastEventId == scan.id)
  }

  lemma {:induction false} ColonParts(line: string)
    requires ':' in line
    ensures IndexOf(line, ':') < |line|
    ensures BeforeColon(line) == line[..IndexOf(line, ':')]
    ensures AfterColon(line) == line[IndexOf(line, ':') + 1..]
  {
    if line[0] != ':' {
      assert ':' in line[1..];
      ColonParts(line[1..]);
    }
  }

  lemma LineRefines(s: Source, scan: Scan, line: string)
    requires Represents(s, scan)
    ensures Represents(ProcessLine(s, line).source, ReadLine(scan, line).state)
    ensures ProcessLine(s, line).events == EventsOf(ReadLine(scan, line).messages)
    ensures line == "" && scan.record.hasId ==> ProcessLine(s, line).source.lastEventId == scan.id
    ensures !(line == "" && scan.record.hasId) ==> ProcessLine(s, line).source.lastEventId == s.lastEventId
  {
    if line == "" {
      CloseRefines(s, scan);
    } else {
      AbsorbRefines(s, scan, line);
    }
  }

  lemma CloseRefines(s: Source, scan: Scan)
    requires Represents(s, scan)
    ensures Represents(Dispatch(s).source, Scan(scan.id, EMPTY))
    ensures Dispatch(s).events == EventsOf(Closed(scan))
  {
    var out := Closed(scan);
    assert out != [] ==> out[..|out| - 1] == [];
    if scan.record.hasData {
      assert s.data[..|s.data| - 1] == scan.record.data;
    }
  }

  lemma AbsorbRefines(s: Source, scan: Scan, line: string)
    requires Represents(s, scan) && line != ""
    ensures Represents(ProcessLine(s, line).source, Absorb(scan, line))
    ensures ProcessLine(s, line).events == []
    ensures ProcessLine(s, line).source.lastEventId == s.lastEventId
  {
    if ':' in line {
      ColonParts(line);
    } else {
      NoColon(line);
    }
    match FieldOf(line)
    case Comment =>
    case Field(name, value) =>
      assert ProcessLine(s, line).source == ProcessField(s, name, value);
      if name == "data" && scan.record.hasData {
        assert s.data + value + "\n" == (scan.record.data + "\n" + value) + "\n";
      }
  }

  lemma {:induction false} EventsOfAppend(a: seq<Message>, b: seq<Message>)
    ensures EventsOf(a + b) == EventsOf(a) + EventsOf(b)
  {
    if b == [] {
      assert a + b == a;
    } else {
      assert (a + b)[..|a + b| - 1] == a + b[..|b| - 1];
      EventsOfAppend(a, b[..|b| - 1]);
    }
  }

  lemma {:induction false} ResumableAppend(lastEventId: string, a: seq<Message>, b: seq<Message>)
    ensures Resumable(lastEventId, a + b) == Resumable(Resumable(lastEventId, a), b)
  {
    if b == [] {
      assert a + b == a;
    } else {
      assert (a + b)[..|a + b| - 1] == a + b[..|b| - 1];
      ResumableAppend(lastEventId, a, b[..|b| - 1]);
    }
  }

  // For every line sequence: the messages with data are the standard's events,
  // and the id to resume from is the standard's last event ID string.
  lemma {:induction false} LinesRefineStandard(lastEventId: string, lines: seq<string>)
    ensures var std := ProcessLines(StreamStart(lastEventId), lines);
      var read := ReadLines(Scan(lastEventId, EMPTY), lines);
      && std.events == EventsOf(read.messages)
      && std.source.lastEventId == Resumable(lastEventId, read.messages)
      && Represents(std.source, read.state)
  {
    if lines != [] {
      var init := lines[..|lines| - 1];
      var line := lines[|lines| - 1];
      LinesRefineStandard(lastEventId, init);
      var std := ProcessLines(StreamStart(lastEventId), init);
      var read := ReadLines(Scan(lastEventId, EMPTY), init);
      LineRefines(std.source, read.state, line);
      var more := ReadLine(read.state, line).messages;
      EventsOfAppend(read.messages, more);
      ResumableAppend(lastEventId, read.messages, more);
      assert more != [] ==> more[..|more| - 1] == [];
    }
  }

  // For every text and every chunking of it that never cuts a CRLF: what the
  // reader yields is what the standard dispatches.
  lemma ReaderRefinesStandard(lastEventId: string, chunks: seq<string>)
    requires chunks != [] && chunks[0] != "" && KeepsCrlf(chunks)
    ensures var read := FeedAll(Open(lastEventId), chunks).messages;
      var std := Interpret(lastEventId, Concat(chunks));
      && EventsOf(read) == std.events
      && Resumable(lastEventId, read) == std.source.lastEventId
  {
    ChunkIndependence(Open(lastEventId), chunks);
    var text := Payload(Open(lastEventId), Concat(chunks));
    assert "" + text == text;
    LinesRefineStandard(lastEventId, SplitLines(text).lines);
  }
}

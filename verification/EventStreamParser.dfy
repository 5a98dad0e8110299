// The incremental event-stream reader (generator `r`): chunks of decoded text
// in, messages out, with a line buffer, the record being collected and the
// current id carried between chunks.
module EventStreamParser {
  import opened Options
  import opened EventStreamLines
  import opened JsText

  const BOM: char := '\U{FEFF}'

  // The record the reader is collecting, with its two flags.
  datatype Record = Record(data: string, event: string, retry: Option<int>, hasData: bool, hasId: bool)

  const EMPTY := Record("", "", None, false, false)

  // What the reader yields at a blank line.
  datatype Message = Message(record: Record, id: string)

  // What line processing carries: the current id and the open record.
  datatype Scan = Scan(id: string, record: Record)

  datatype Field = Comment | Field(name: string, value: string)

  function IndexOf(s: string, c: char): (i: nat)
    ensures i <= |s|
    ensures i < |s| ==> s[i] == c
  {
    if s == "" || s[0] == c then 0 else 1 + IndexOf(s[1..], c)
  }

  // Name and value of a non-blank line; one space after the colon is dropped.
  function FieldOf(line: string): Field {
    var colon := IndexOf(line, ':');
    if colon == |line| then
      Field(line, "")
    else if colon == 0 then
      Comment
    else
      var value := line[colon + 1..];
      Field(line[..colon], if value != "" && value[0] == ' ' then value[1..] else value)
  }

  predicate IsDigit(c: char) {
    '0' <= c <= '9'
  }

  function LeadingNumber(s: string, acc: nat): nat {
    if s != "" && IsDigit(s[0]) then LeadingNumber(s[1..], 10 * acc + (s[0] as nat - '0' as nat)) else acc
  }

  // parseInt(s, 10), with NaN as None and without rounding to a double.
  function ParseInt(s: string): Option<int> {
    var t := TrimStart(s);
    var negative := t != "" && t[0] == '-';
    var digits := if t != "" && (t[0] == '-' || t[0] == '+') then t[1..] else t;
    if digits == "" || !IsDigit(digits[0]) then None
    else
      var number: int := LeadingNumber(digits, 0);
      Some(if negative then -number else number)
  }

  function Absorb(s: Scan, line: string): Scan {
    match FieldOf(line)
    case Comment => s
    case Field(name, value) =>
      var r := s.record;
      if name == "data" then
        s.(record := r.(data := r.data + (if r.hasData then "\n" else "") + value, hasData := true))
      else if name == "event" then
        s.(record := r.(event := value))
      else if name == "id" then
        if '\0' in value then s else Scan(value, r.(hasId := true))
      else if name == "retry" && ParseInt(value).Some? then
        s.(record := r.(retry := ParseInt(value)))
      else
        s
  }

  // A blank line closes the record; an untouched one yields nothing.
  function Closed(s: Scan): seq<Message> {
    if s.record.hasData || s.record.hasId || s.record.event != "" then [Message(s.record, s.id)] else []
  }

  datatype Outcome<S> = Outcome(state: S, messages: seq<Message>)

  function ReadLine(s: Scan, line: string): Outcome<Scan> {
    if line == "" then Outcome(Scan(s.id, EMPTY), Closed(s)) else Outcome(Absorb(s, line), [])
  }

  function ReadLines(s: Scan, lines: seq<string>): Outcome<Scan> {
    if lines == [] then
      Outcome(s, [])
    else
      var before := ReadLines(s, lines[..|lines| - 1]);
      var last := ReadLine(before.state, lines[|lines| - 1]);
      Outcome(last.state, before.messages + last.messages)
  }

  lemma {:induction false} ReadLinesAppend(s: Scan, a: seq<string>, b: seq<string>)
    ensures ReadLines(s, a + b)
         == Outcome(ReadLines(ReadLines(s, a).state, b).state,
                    ReadLines(s, a).messages + ReadLines(ReadLines(s, a).state, b).messages)
  {
    if b == [] {
      assert a + b == a;
    } else {
      var init := b[..|b| - 1];
      assert (a + b)[..|a + b| - 1] == a + init;
      ReadLinesAppend(s, a, init);
    }
  }

  // The reader between chunks. `atStart` until the first chunk, which may carry a BOM.
  datatype Parser = Parser(buffer: string, atStart: bool, id: string, record: Record) {
    function Position(): Scan {
      Scan(id, record)
    }
  }

  function Open(lastEventId: string): Parser {
    Parser("", true, lastEventId, EMPTY)
  }

  function Payload(p: Parser, chunk: string): string {
    if p.atStart && chunk != "" && chunk[0] == BOM then chunk[1..] else chunk
  }

  function Feed(p: Parser, chunk: string): Outcome<Parser> {
    var split := SplitLines(p.buffer + Payload(p, chunk));
    var read := ReadLines(p.Position(), split.lines);
    Outcome(Parser(split.rest, false, read.state.id, read.state.record), read.messages)
  }

  function FeedAll(p: Parser, chunks: seq<string>): Outcome<Parser> {
    if chunks == [] then
      Outcome(p, [])
    else
      var before := FeedAll(p, chunks[..|chunks| - 1]);
      var last := Feed(before.state, chunks[|chunks| - 1]);
      Outcome(last.state, before.messages + last.messages)
  }

  function Concat(chunks: seq<string>): string {
    if chunks == [] then "" else Concat(chunks[..|chunks| - 1]) + chunks[|chunks| - 1]
  }

  // The text that, read in one piece, is read as the chunks are: wherever a
  // chunk boundary falls inside a CRLF, one more CR.
  function Bridge(a: string, b: string): string {
    if CutsCrlf(a, b) then a + "\r" + b else a + b
  }

  function Bridged(chunks: seq<string>): string {
    if chunks == [] then "" else Bridge(Bridged(chunks[..|chunks| - 1]), chunks[|chunks| - 1])
  }

  predicate KeepsCrlf(chunks: seq<string>) {
    forall k | 0 <= k < |chunks| :: !CutsCrlf(Concat(chunks[..k]), chunks[k])
  }

  // Two chunks read one after the other are their bridged text read at once.
  lemma {:induction false} FeedBridge(p: Parser, a: string, b: string)
    requires BreakFree(p.buffer) && (p.atStart ==> a != "")
    ensures var first := Feed(p, a); var second := Feed(first.state, b);
      Feed(p, Bridge(a, b)) == Outcome(second.state, first.messages + second.messages)
  {
    var text := p.buffer + Payload(p, a);
    var head := SplitLines(text);
    var whole := p.buffer + Payload(p, Bridge(a, b));
    var next := if CutsCrlf(a, b) then "\r" + b else b;
    assert Bridge(a, b) == a + next;
    assert whole == text + next by {
      assert Payload(p, a + next) == Payload(p, a) + next;
    }
    assert !CutsCrlf(text, next) by {
      if Payload(p, a) != "" {
        assert a[|a| - 1] == text[|text| - 1];
      } else if text != "" {
        assert !IsBreak(text[|text| - 1]);
      }
    }
    SplitAppend(text, next);
    if CutsCrlf(a, b) {
      assert text[|text| - 1] == '\r';
      SplitTerminated(text);
      SplitLeadingBreak(b);
      assert "" + b == b && "" + next == next;
    }
    assert SplitLines(head.rest + next) == SplitLines(head.rest + b);
    ReadLinesAppend(p.Position(), head.lines, SplitLines(head.rest + b).lines);
  }

  // Every chunking, wherever it cuts: the chunks are read exactly as their
  // bridged text is in one chunk.
  lemma {:induction false} ChunksReadAsBridgedText(p: Parser, chunks: seq<string>)
    requires BreakFree(p.buffer) && chunks != [] && (p.atStart ==> chunks[0] != "")
    ensures FeedAll(p, chunks) == Feed(p, Bridged(chunks))
    ensures chunks[0] != "" ==> Bridged(chunks) != ""
  {
    var init := chunks[..|chunks| - 1];
    var last := chunks[|chunks| - 1];
    if init == [] {
      assert chunks == [last];
      assert FeedAll(p, init) == Outcome(p, []);
      assert Bridged(chunks) == last;
      assert [] + Feed(p, last).messages == Feed(p, last).messages;
    } else {
      ChunksReadAsBridgedText(p, init);
      if p.atStart || Bridged(init) != "" {
        FeedBridge(p, Bridged(init), last);
      } else {
        FeedBridge(p, "", last);
      }
    }
  }

  lemma {:induction false} BridgedIsConcat(chunks: seq<string>)
    requires KeepsCrlf(chunks)
    ensures Bridged(chunks) == Concat(chunks)
  {
    if chunks != [] {
      var init := chunks[..|chunks| - 1];
      assert forall k | 0 <= k < |init| :: init[..k] == chunks[..k];
      BridgedIsConcat(init);
    }
  }

  // Chunk independence: a chunking that never cuts a CRLF yields the messages,
  // buffer, id and record of the text read in one chunk.
  lemma ChunkIndependence(p: Parser, chunks: seq<string>)
    requires BreakFree(p.buffer) && chunks != [] && (p.atStart ==> chunks[0] != "")
    requires KeepsCrlf(chunks)
    ensures FeedAll(p, chunks) == Feed(p, Concat(chunks))
  {
    ChunksReadAsBridgedText(p, chunks);
    BridgedIsConcat(chunks);
  }

  // Exactly when cutting inside a CRLF is harmless: when the record is
  // untouched at the CR, so that the extra blank line has nothing to close.
  lemma SplitCrlfHarmlessIffRecordEmpty(p: Parser, a: string)
    requires BreakFree(p.buffer) && a != "" && a[|a| - 1] == '\r'
    ensures var first := Feed(p, a); var second := Feed(first.state, "\n");
      Feed(p, a + "\n") == Outcome(second.state, first.messages + second.messages)
      <==> first.state.record == EMPTY
  {
    var first := Feed(p, a);
    var text := p.buffer + Payload(p, a);
    assert text[|text| - 1] == '\r';
    SplitCrlfTail(text);
    SplitTerminated(text);
    assert p.buffer + Payload(p, a + "\n") == text + "\n";
    var second := Feed(first.state, "\n");
    assert SplitLines("\n") == Split([""], "") by {
      SplitLoneBreak("", "\n");
      assert "" + "\n" == "\n";
    }
    assert first.state.buffer + "\n" == "\n";
    BlankLine(first.state.Position());
    assert Feed(p, a + "\n") == first;
    if first.state.record == EMPTY {
      assert first.messages + second.messages == first.messages;
    }
  }

  lemma BlankLine(s: Scan)
    ensures ReadLines(s, [""]) == Outcome(Scan(s.id, EMPTY), Closed(s))
  {
    assert [""][..0] == [];
    assert [] + Closed(s) == Closed(s);
  }

  lemma FeedTwo(p: Parser, a: string, b: string)
    ensures var first := Feed(p, a); var second := Feed(first.state, b);
      FeedAll(p, [a, b]) == Outcome(second.state, first.messages + second.messages)
  {
    assert [a, b][..1] == [a] && [a][..0] == [];
    assert FeedAll(p, []) == Outcome(p, []);
    assert [] + Feed(p, a).messages == Feed(p, a).messages;
  }

  lemma DataLineIsPending()
    ensures Feed(Open(""), "data\r").state.record.hasData
  {
    var p := Open("");
    assert p.buffer + Payload(p, "data\r") == "data" + "\r";
    SplitLoneBreak("data", "\r");
    assert ReadLines(p.Position(), ["data"]).state == Absorb(p.Position(), "data") by {
      assert ["data"][..0] == [];
    }
    NoColon("data");
  }

  // A boundary inside a CRLF that does harm: the pending record is closed early.
  lemma SplitCrlfCanTearARecord()
    ensures FeedAll(Open(""), ["data\r", "\n"]) != Feed(Open(""), "data\r\n")
  {
    DataLineIsPending();
    SplitCrlfHarmlessIffRecordEmpty(Open(""), "data\r");
    assert "data\r" + "\n" == "data\r\n";
    FeedTwo(Open(""), "data\r", "\n");
  }

  lemma {:induction false} NoColon(s: string)
    requires ':' !in s
    ensures IndexOf(s, ':') == |s|
  {
    if s != "" {
      assert s[0] in s;
      assert forall c | c in s[1..] :: c in s;
      NoColon(s[1..]);
    }
  }

  // The reader object: the fields generator `r` keeps between reads.
  class EventReader {
    var buffer: string
    var atStart: bool
    var id: string
    var record: Record

    function View(): Parser
      reads this
    {
      Parser(buffer, atStart, id, record)
    }

    constructor (lastEventId: string)
      ensures View() == Open(lastEventId)
    {
      buffer, atStart, id, record := "", true, lastEventId, EMPTY;
    }

    // One decoded chunk: its lines are processed in order and the messages collected.
    method Read(chunk: string) returns (messages: seq<Message>)
      modifies this
      ensures Outcome(View(), messages) == Feed(old(View()), chunk)
    {
      var text := chunk;
      if atStart {
        if text != "" && text[0] == BOM {
          text := text[1..];
        }
        atStart := false;
      }
      var split := SplitLines(buffer + text);
      buffer := split.rest;
      messages := [];
      for n := 0 to |split.lines|
        invariant buffer == split.rest && !atStart
        invariant Outcome(Scan(id, record), messages)
               == ReadLines(old(View().Position()), split.lines[..n])
      {
        var line := split.lines[n];
        assert split.lines[..n + 1][..n] == split.lines[..n];
        if line == "" {
          if record.hasData || record.hasId || record.event != "" {
            messages := messages + [Message(record, id)];
          }
          record := EMPTY;
        } else {
          AbsorbLine(line);
        }
      }
      assert split.lines[..|split.lines|] == split.lines;
    }

    method AbsorbLine(line: string)
      requires line != ""
      modifies this`id, this`record
      ensures Scan(id, record) == Absorb(old(Scan(id, record)), line)
    {
      var colon := IndexOf(line, ':');
      if colon != 0 {
        var name, value := line, "";
        if colon < |line| {
          name, value := line[..colon], line[colon + 1..];
          if value != "" && value[0] == ' ' {
            value := value[1..];
          }
        }
        if name == "data" {
          record := record.(data := record.data + (if record.hasData then "\n" else "") + value);
          record := record.(hasData := true);
        } else if name == "event" {
          record := record.(event := value);
        } else if name == "id" {
          if '\0' !in value {
            id, record := value, record.(hasId := true);
          }
        } else if name == "retry" {
          var n := ParseInt(value);
          if n.Some? {
            record := record.(retry := n);
          }
        }
      }
    }

    // A whole body, chunk by chunk, as `for await` drains the generator.
    method ReadAll(chunks: seq<string>) returns (messages: seq<Message>)
      modifies this
      ensures Outcome(View(), messages) == FeedAll(old(View()), chunks)
    {
      messages := [];
      for n := 0 to |chunks|
        invariant Outcome(View(), messages) == FeedAll(old(View()), chunks[..n])
      {
        assert chunks[..n + 1][..n] == chunks[..n];
        var more := Read(chunks[n]);
        messages := messages + more;
      }
      assert chunks[..|chunks|] == chunks;
    }
  }
}

// Resuming over lossy connections: each connection asks for the log after the
// last id the consumer took, is cut at any character, arrives in any chunks,
// and may be abandoned after any message.
module EventStreamResume {
  import opened EventStreamLines
  import opened EventStreamParser
  import opened EventStreamStandard

  // One event as the server frames it: field lines, each ended by LF, then a blank line.
  datatype Entry = Entry(lines: seq<string>)

  function Reading(e: Entry): Scan {
    ReadLines(Scan("", EMPTY), e.lines).state
  }

  function Key(e: Entry): string {
    Reading(e).id
  }

  function MessageOf(e: Entry): Message {
    Message(Reading(e).record, Key(e))
  }

  // Any fields in any order, as long as they carry data and a non-empty id.
  predicate WellFramed(e: Entry) {
    && e.lines != []
    && (forall k | 0 <= k < |e.lines| :: e.lines[k] != "" && BreakFree(e.lines[k]))
    && e.lines[0][0] != BOM
    && Reading(e).record.hasData
    && Reading(e).record.hasId
    && Key(e) != ""
  }

  predicate Published(log: seq<Entry>) {
    && (forall k | 0 <= k < |log| :: WellFramed(log[k]))
    && (forall j, k | 0 <= j < k < |log| :: Key(log[j]) != Key(log[k]))
  }

  function LinesOf(log: seq<Entry>): seq<string> {
    if log == [] then [] else log[0].lines + [""] + LinesOf(log[1..])
  }

  function Terminated(lines: seq<string>): string {
    if lines == [] then "" else lines[0] + "\n" + Terminated(lines[1..])
  }

  // What the server sends for a stretch of its log.
  function Wire(log: seq<Entry>): string {
    Terminated(LinesOf(log))
  }

  function MessagesOf(log: seq<Entry>): seq<Message> {
    if log == [] then [] else [MessageOf(log[0])] + MessagesOf(log[1..])
  }

  // The server's answer to Last-Event-ID: everything after that entry, or
  // everything when no id is sent.
  function After(log: seq<Entry>, key: string): seq<Entry> {
    if key == "" || log == [] then log
    else if Key(log[0]) == key then log[1..]
    else After(log[1..], key)
  }

  // A body as it arrived, and how many of its messages the consumer took
  // before it stopped: at the end, at an error in a handler, or on leaving.
  datatype Connection = Connection(chunks: seq<string>, taken: nat)

  function Received(lastEventId: string, c: Connection): seq<Message> {
    var all := FeedAll(Open(lastEventId), c.chunks).messages;
    if c.taken < |all| then all[..c.taken] else all
  }

  datatype Session = Session(lastEventId: string, delivered: seq<Message>)

  function Attach(s: Session, c: Connection): Session {
    var got := Received(s.lastEventId, c);
    Session(Resumable(s.lastEventId, got), s.delivered + got)
  }

  function Connect(connections: seq<Connection>): Session {
    if connections == [] then Session("", [])
    else Attach(Connect(connections[..|connections| - 1]), connections[|connections| - 1])
  }

  // Every body is a prefix, cut anywhere, of what the server sends for the id
  // the consumer resumes from.
  predicate Served(log: seq<Entry>, connections: seq<Connection>) {
    connections == [] ||
    var init := connections[..|connections| - 1];
    && Served(log, init)
    && Concat(connections[|connections| - 1].chunks) <= Wire(After(log, Connect(init).lastEventId))
  }

  // --- Framing -------------------------------------------------------------

  lemma {:induction false} SplitTerminatedLines(lines: seq<string>)
    requires forall k | 0 <= k < |lines| :: BreakFree(lines[k])
    ensures SplitLines(Terminated(lines)) == Split(lines, "")
  {
    if lines != [] {
      SplitTerminatedLines(lines[1..]);
      var head := lines[0] + "\n";
      SplitLoneBreak(lines[0], "\n");
      SplitAppend(head, Terminated(lines[1..]));
      assert "" + Terminated(lines[1..]) == Terminated(lines[1..]);
    }
  }

  lemma {:induction false} TerminatedHasNoCr(lines: seq<string>)
    requires forall k | 0 <= k < |lines| :: BreakFree(lines[k])
    ensures '\r' !in Terminated(lines)
  {
    if lines != [] {
      TerminatedHasNoCr(lines[1..]);
      assert '\r' !in lines[0];
    }
  }

  lemma {:induction false} LogLinesBreakFree(log: seq<Entry>)
    requires forall k | 0 <= k < |log| :: WellFramed(log[k])
    ensures forall k | 0 <= k < |LinesOf(log)| :: BreakFree(LinesOf(log)[k])
  {
    if log != [] {
      LogLinesBreakFree(log[1..]);
    }
  }

  // Nothing but the lines of an entry decides its message: not the id the
  // reader holds when the entry begins.
  lemma {:induction false} ReadingIgnoresHeldId(held: string, lines: seq<string>)
    requires forall k | 0 <= k < |lines| :: lines[k] != ""
    ensures var here := ReadLines(Scan(held, EMPTY), lines);
      var there := ReadLines(Scan("", EMPTY), lines);
      && here.messages == []
      && here.state.record == there.state.record
      && (there.state.record.hasId ==> here.state.id == there.state.id)
  {
    if lines != [] {
      ReadingIgnoresHeldId(held, lines[..|lines| - 1]);
    }
  }

  lemma EntryReadsAsItsMessage(held: string, e: Entry)
    requires WellFramed(e)
    ensures ReadLines(Scan(held, EMPTY), e.lines + [""]) == Outcome(Scan(Key(e), EMPTY), [MessageOf(e)])
  {
    ReadingIgnoresHeldId(held, e.lines);
    var whole := e.lines + [""];
    assert whole[..|whole| - 1] == e.lines;
    assert [] + [MessageOf(e)] == [MessageOf(e)];
  }

  lemma {:induction false} LogReadsAsItsMessages(held: string, log: seq<Entry>)
    requires forall k | 0 <= k < |log| :: WellFramed(log[k])
    ensures ReadLines(Scan(held, EMPTY), LinesOf(log)).messages == MessagesOf(log)
    decreases log
  {
    if log != [] {
      EntryReadsAsItsMessage(held, log[0]);
      LogReadsAsItsMessages(Key(log[0]), log[1..]);
      ReadLinesAppend(Scan(held, EMPTY), log[0].lines + [""], LinesOf(log[1..]));
    }
  }

  // --- One connection ------------------------------------------------------

  lemma {:induction false} PlainTextKeepsCrlf(chunks: seq<string>)
    requires '\r' !in Concat(chunks)
    ensures KeepsCrlf(chunks)
  {
    if chunks != [] {
      var init := chunks[..|chunks| - 1];
      assert forall c | c in Concat(init) :: c in Concat(chunks);
      PlainTextKeepsCrlf(init);
      forall k | 0 <= k < |chunks|
        ensures !CutsCrlf(Concat(chunks[..k]), chunks[k])
      {
        if k < |init| {
          assert chunks[..k] == init[..k];
        } else {
          assert chunks[..k] == init;
          assert Concat(init) != "" ==> Concat(init)[|Concat(init)| - 1] in Concat(init);
        }
      }
    }
  }

  // Without a BOM to strip, the first chunk may even be empty.
  lemma {:induction false} StartIsIrrelevant(p: Parser, chunks: seq<string>)
    requires chunks != [] && !(Concat(chunks) != "" && Concat(chunks)[0] == BOM)
    ensures FeedAll(p, chunks) == FeedAll(p.(atStart := false), chunks)
  {
    var init := chunks[..|chunks| - 1];
    if init == [] {
      assert Concat(chunks) == chunks[0];
    } else {
      assert Concat(init) != "" ==> Concat(init)[0] == Concat(chunks)[0];
      StartIsIrrelevant(p, init);
    }
  }

  lemma ChunksReadAsTheirText(held: string, chunks: seq<string>)
    requires '\r' !in Concat(chunks) && !(Concat(chunks) != "" && Concat(chunks)[0] == BOM)
    ensures FeedAll(Open(held), chunks).messages
         == ReadLines(Scan(held, EMPTY), SplitLines(Concat(chunks)).lines).messages
  {
    if chunks != [] {
      var p := Open(held).(atStart := false);
      StartIsIrrelevant(Open(held), chunks);
      PlainTextKeepsCrlf(chunks);
      ChunkIndependence(p, chunks);
      assert "" + Concat(chunks) == Concat(chunks);
    }
  }

  lemma PrefixOfLines(text: string, whole: string)
    requires text <= whole && '\r' !in whole
    ensures SplitLines(text).lines <= SplitLines(whole).lines
  {
    var more := whole[|text|..];
    assert whole == text + more;
    assert !CutsCrlf(text, more) by {
      assert text != "" ==> text[|text| - 1] in whole;
    }
    SplitAppend(text, more);
  }

  lemma PrefixOfMessages(s: Scan, lines: seq<string>, whole: seq<string>)
    requires lines <= whole
    ensures ReadLines(s, lines).messages <= ReadLines(s, whole).messages
  {
    assert whole == lines + whole[|lines|..];
    ReadLinesAppend(s, lines, whole[|lines|..]);
  }

  lemma WireStart(log: seq<Entry>)
    requires log != [] && WellFramed(log[0])
    ensures Wire(log) != "" && Wire(log)[0] != BOM
  {
    assert LinesOf(log)[0] == log[0].lines[0];
    assert Wire(log)[0] == log[0].lines[0][0];
  }

  // Cut anywhere and chunked anyhow, a connection yields a prefix of the
  // messages of the log it was sent; cut nowhere, it yields all of them.
  lemma ConnectionYieldsPrefix(held: string, log: seq<Entry>, chunks: seq<string>)
    requires forall k | 0 <= k < |log| :: WellFramed(log[k])
    requires Concat(chunks) <= Wire(log)
    ensures FeedAll(Open(held), chunks).messages <= MessagesOf(log)
    ensures Concat(chunks) == Wire(log) ==> FeedAll(Open(held), chunks).messages == MessagesOf(log)
  {
    var text := Concat(chunks);
    LogLinesBreakFree(log);
    TerminatedHasNoCr(LinesOf(log));
    assert forall c | c in text :: c in Wire(log);
    if log != [] {
      WireStart(log);
      assert text != "" ==> text[0] == Wire(log)[0];
    }
    ChunksReadAsTheirText(held, chunks);
    PrefixOfLines(text, Wire(log));
    SplitTerminatedLines(LinesOf(log));
    PrefixOfMessages(Scan(held, EMPTY), SplitLines(text).lines, LinesOf(log));
    LogReadsAsItsMessages(held, log);
  }

  // --- The session ---------------------------------------------------------

  lemma {:induction false} MessagesOfEach(log: seq<Entry>)
    ensures |MessagesOf(log)| == |log|
    ensures forall k | 0 <= k < |log| :: MessagesOf(log)[k] == MessageOf(log[k])
  {
    if log != [] {
      MessagesOfEach(log[1..]);
    }
  }

  // The id of the n-th message, or none before the first.
  function LastId(messages: seq<Message>, n: nat): string
    requires n <= |messages|
  {
    if n == 0 then "" else messages[n - 1].id
  }

  lemma {:induction false} AfterLastId(log: seq<Entry>, n: nat)
    requires Published(log) && n <= |log| && |MessagesOf(log)| == |log|
    ensures After(log, LastId(MessagesOf(log), n)) == log[n..]
  {
    MessagesOfEach(log);
    if n > 0 {
      assert WellFramed(log[n - 1]);
      AfterKey(log, n - 1);
    }
  }

  lemma {:induction false} AfterKey(log: seq<Entry>, k: nat)
    requires k < |log| && Key(log[k]) != ""
    requires forall j | 0 <= j < k :: Key(log[j]) != Key(log[k])
    ensures After(log, Key(log[k])) == log[k + 1..]
  {
    if k > 0 {
      assert Key(log[0]) != Key(log[k]);
      AfterKey(log[1..], k - 1);
    }
  }

  // A consumer in step with the log: it holds the first n messages, in order,
  // and the id of the n-th.
  predicate InStep(messages: seq<Message>, s: Session) {
    && s.delivered <= messages
    && s.lastEventId == LastId(messages, |s.delivered|)
  }

  lemma TakingKeepsStep(messages: seq<Message>, s: Session, got: seq<Message>)
    requires forall k | 0 <= k < |messages| :: messages[k].record.hasId
    requires InStep(messages, s) && got <= messages[|s.delivered|..]
    ensures InStep(messages, Session(Resumable(s.lastEventId, got), s.delivered + got))
  {
    if got != [] {
      assert got[|got| - 1] == messages[|s.delivered| + |got| - 1];
    }
  }

  lemma {:induction false} MessagesOfRest(log: seq<Entry>, n: nat)
    requires n <= |log|
    ensures |MessagesOf(log)| == |log|
    ensures MessagesOf(log[n..]) == MessagesOf(log)[n..]
  {
    MessagesOfEach(log);
    if n > 0 {
      MessagesOfRest(log[1..], n - 1);
      assert log[1..][n - 1..] == log[n..];
    }
  }

  // A body sent for the id held continues the log where the session stood.
  lemma BodyContinuesLog(log: seq<Entry>, s: Session, chunks: seq<string>)
    requires Published(log) && InStep(MessagesOf(log), s)
    requires Concat(chunks) <= Wire(After(log, s.lastEventId))
    ensures FeedAll(Open(s.lastEventId), chunks).messages <= MessagesOf(log)[|s.delivered|..]
    ensures Concat(chunks) == Wire(After(log, s.lastEventId))
        ==> FeedAll(Open(s.lastEventId), chunks).messages == MessagesOf(log)[|s.delivered|..]
  {
    var n := |s.delivered|;
    MessagesOfEach(log);
    AfterLastId(log, n);
    MessagesOfRest(log, n);
    ConnectionYieldsPrefix(s.lastEventId, log[n..], chunks);
  }

  lemma AttachKeepsStep(log: seq<Entry>, s: Session, c: Connection)
    requires Published(log) && InStep(MessagesOf(log), s)
    requires Concat(c.chunks) <= Wire(After(log, s.lastEventId))
    ensures InStep(MessagesOf(log), Attach(s, c))
    ensures Concat(c.chunks) == Wire(After(log, s.lastEventId))
         && |FeedAll(Open(s.lastEventId), c.chunks).messages| <= c.taken
         ==> Attach(s, c).delivered == MessagesOf(log)
  {
    BodyContinuesLog(log, s, c.chunks);
    EachMessageHasId(log);
    TakingKeepsStep(MessagesOf(log), s, Received(s.lastEventId, c));
  }

  lemma EachMessageHasId(log: seq<Entry>)
    requires Published(log)
    ensures forall k | 0 <= k < |MessagesOf(log)| :: MessagesOf(log)[k].record.hasId
    ensures forall j, k | 0 <= j < k < |MessagesOf(log)| :: MessagesOf(log)[j].id != MessagesOf(log)[k].id
  {
    MessagesOfEach(log);
    forall k | 0 <= k < |log|
      ensures MessagesOf(log)[k].record.hasId
    {
      assert WellFramed(log[k]);
    }
  }

  // Exactly once: over any connections, cut and chunked anyhow, the delivered
  // messages are a gap-free, duplicate-free prefix of the log, and the id
  // resumed from is always that of the last delivered message.
  lemma {:induction false} ExactlyOnceResume(log: seq<Entry>, connections: seq<Connection>)
    requires Published(log) && Served(log, connections)
    ensures InStep(MessagesOf(log), Connect(connections))
  {
    if connections != [] {
      var init := connections[..|connections| - 1];
      ExactlyOnceResume(log, init);
      AttachKeepsStep(log, Connect(init), connections[|connections| - 1]);
    }
  }

  // No message twice: delivered ids are pairwise distinct.
  lemma DeliveredIdsDistinct(log: seq<Entry>, connections: seq<Connection>, j: nat, k: nat)
    requires Published(log) && Served(log, connections)
    requires j < k < |Connect(connections).delivered|
    ensures Connect(connections).delivered[j].id != Connect(connections).delivered[k].id
  {
    ExactlyOnceResume(log, connections);
    EachMessageHasId(log);
  }

  // One connection that is not cut short completes the log, whatever came before.
  lemma UncutConnectionCompletes(log: seq<Entry>, connections: seq<Connection>, c: Connection)
    requires Published(log) && Served(log, connections)
    requires Concat(c.chunks) == Wire(After(log, Connect(connections).lastEventId))
    requires |FeedAll(Open(Connect(connections).lastEventId), c.chunks).messages| <= c.taken
    ensures Connect(connections + [c]).delivered == MessagesOf(log)
    ensures InStep(MessagesOf(log), Connect(connections + [c]))
  {
    assert (connections + [c])[..|connections|] == connections;
    ExactlyOnceResume(log, connections);
    AttachKeepsStep(log, Connect(connections), c);
  }

  // --- A plain framing -----------------------------------------------------

  function Frame(id: string, data: string): Entry {
    Entry(["id: " + id, "data: " + data])
  }

  // An id line and a data line are a well-framed entry, read back as written.
  lemma FrameReadsBack(id: string, data: string)
    requires id != "" && BreakFree(id) && '\0' !in id && BreakFree(data)
    ensures WellFramed(Frame(id, data))
    ensures MessageOf(Frame(id, data)) == Message(Record(data, "", EMPTY.retry, true, true), id)
  {
    FrameReading(id, data);
    FrameLines(id, data, Frame(id, data).lines);
  }

  lemma FrameLines(id: string, data: string, lines: seq<string>)
    requires BreakFree(id) && BreakFree(data)
    requires lines == ["id: " + id, "data: " + data]
    ensures forall k | 0 <= k < |lines| :: lines[k] != "" && BreakFree(lines[k])
    ensures lines[0][0] != BOM
  {
    assert lines[0][0] == 'i';
    BreakFreeTogether("id: ", id);
    BreakFreeTogether("data: ", data);
  }

  lemma BreakFreeTogether(a: string, b: string)
    requires BreakFree(a) && BreakFree(b)
    ensures BreakFree(a + b)
  {
  }

  lemma FrameReading(id: string, data: string)
    requires '\0' !in id
    ensures Reading(Frame(id, data)) == Scan(id, Record(data, "", EMPTY.retry, true, true))
  {
    var a, b := "id: " + id, "data: " + data;
    assert [a, b][..1] == [a] && [a][..0] == [];
    FieldLine("id", id);
    assert "id" + ": " + id == a;
    assert ReadLines(Scan("", EMPTY), [a]).state == Scan(id, EMPTY.(hasId := true));
    FieldLine("data", data);
    assert "data" + ": " + data == b;
    assert "" + "" + data == data;
  }

  lemma FieldLine(name: string, value: string)
    requires name == "id" || name == "data"
    ensures FieldOf(name + ": " + value) == Field(name, value)
  {
    var line := name + ": " + value;
    NoColon(name);
    ColonAfter(name, ": " + value);
    assert line == name + (": " + value);
    assert line[|name| + 1..] == " " + value;
  }

  lemma {:induction false} ColonAfter(name: string, rest: string)
    requires ':' !in name && rest != "" && rest[0] == ':'
    ensures IndexOf(name + rest, ':') == |name|
  {
    if name != "" {
      assert name[0] in name;
      assert forall c | c in name[1..] :: c in name;
      assert (name + rest)[1..] == name[1..] + rest;
      ColonAfter(name[1..], rest);
    }
  }
}

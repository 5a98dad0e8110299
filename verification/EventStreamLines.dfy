// How the event-stream reader cuts decoded text into lines: the JavaScript
// split on CRLF, CR or LF, keeping the unterminated tail in a buffer.
module EventStreamLines {

  predicate IsBreak(c: char) {
    c == '\r' || c == '\n'
  }

  predicate BreakFree(s: string) {
    forall k | 0 <= k < |s| :: !IsBreak(s[k])
  }

  // The terminated lines of a text, without their breaks, and its tail.
  datatype Split = Split(lines: seq<string>, rest: string) {
    function Then(next: Split): Split {
      Split(lines + next.lines, next.rest)
    }

    function Prepend(c: char): Split {
      if lines == [] then Split([], [c] + rest) else Split([[c] + lines[0]] + lines[1..], rest)
    }
  }

  // CRLF is one break of two characters; a lone CR or LF is one of one.
  function BreakLength(s: string): nat
    requires s != "" && IsBreak(s[0])
  {
    if s[0] == '\r' && 1 < |s| && s[1] == '\n' then 2 else 1
  }

  function SplitLines(s: string): Split {
    if s == "" then
      Split([], "")
    else if IsBreak(s[0]) then
      Split([""], "").Then(SplitLines(s[BreakLength(s)..]))
    else
      SplitLines(s[1..]).Prepend(s[0])
  }

  // A cut of a text between `a` and `b` that falls inside a CRLF pair.
  predicate CutsCrlf(a: string, b: string) {
    a != "" && b != "" && a[|a| - 1] == '\r' && b[0] == '\n'
  }

  // No break survives the split: not in the tail and not in any line.
  lemma {:induction false} SplitRemovesBreaks(s: string)
    ensures BreakFree(SplitLines(s).rest)
    ensures forall k | 0 <= k < |SplitLines(s).lines| :: BreakFree(SplitLines(s).lines[k])
    ensures SplitLines(s).lines == [] ==> SplitLines(s).rest == s
  {
    if s != "" {
      SplitRemovesBreaks(if IsBreak(s[0]) then s[BreakLength(s)..] else s[1..]);
    }
  }

  lemma ThenAssociates(a: Split, b: Split, c: Split)
    ensures a.Then(b.Then(c)) == a.Then(b).Then(c)
    ensures Split([], "").Then(c) == c
  {
    assert a.lines + (b.lines + c.lines) == a.lines + b.lines + c.lines;
    assert [] + c.lines == c.lines;
  }

  lemma PrependThen(a: Split, b: Split, c: char)
    requires a.lines != []
    ensures a.Then(b).Prepend(c) == a.Prepend(c).Then(b)
  {
    assert (a.lines + b.lines)[1..] == a.lines[1..] + b.lines;
    assert [[c] + a.lines[0]] + (a.lines[1..] + b.lines) == [[c] + a.lines[0]] + a.lines[1..] + b.lines;
  }

  // Splitting resumes from the buffered tail wherever no CRLF is cut.
  lemma {:induction false} SplitAppend(a: string, b: string)
    requires !CutsCrlf(a, b)
    ensures SplitLines(a + b)
         == Split(SplitLines(a).lines, "").Then(SplitLines(SplitLines(a).rest + b))
    decreases a, 1
  {
    if a == "" {
      assert a + b == b;
      ThenAssociates(Split([], ""), Split([], ""), SplitLines(b));
    } else if IsBreak(a[0]) {
      SplitAppendBreak(a, b);
    } else {
      SplitAppendChar(a, b);
    }
  }

  lemma {:induction false} SplitAppendBreak(a: string, b: string)
    requires !CutsCrlf(a, b) && a != "" && IsBreak(a[0])
    ensures SplitLines(a + b)
         == Split(SplitLines(a).lines, "").Then(SplitLines(SplitLines(a).rest + b))
    decreases a, 0
  {
    var after := a[BreakLength(a)..];
    assert BreakLength(a + b) == BreakLength(a);
    assert (a + b)[BreakLength(a)..] == after + b;
    SplitAppend(after, b);
    var head := SplitLines(after);
    ThenAssociates(Split([""], ""), Split(head.lines, ""), SplitLines(head.rest + b));
  }

  lemma {:induction false} SplitAppendChar(a: string, b: string)
    requires !CutsCrlf(a, b) && a != "" && !IsBreak(a[0])
    ensures SplitLines(a + b)
         == Split(SplitLines(a).lines, "").Then(SplitLines(SplitLines(a).rest + b))
    decreases a, 0
  {
    var head := SplitLines(a[1..]);
    assert (a + b)[1..] == a[1..] + b;
    if head.lines == [] {
      SplitRemovesBreaks(a[1..]);
      assert [a[0]] + a[1..] == a;
      ThenAssociates(Split([], ""), Split([], ""), SplitLines(a + b));
    } else {
      SplitAppend(a[1..], b);
      PrependThen(Split(head.lines, ""), SplitLines(head.rest + b), a[0]);
    }
  }

  // A text that ends in a break leaves nothing in the buffer.
  lemma {:induction false} SplitTerminated(a: string)
    requires a != "" && IsBreak(a[|a| - 1])
    ensures SplitLines(a).rest == "" && SplitLines(a).lines != []
  {
    if IsBreak(a[0]) {
      if BreakLength(a) < |a| {
        SplitTerminated(a[BreakLength(a)..]);
      }
    } else {
      SplitTerminated(a[1..]);
    }
  }

  lemma {:induction false} SplitLoneBreak(line: string, end: string)
    requires BreakFree(line)
    requires end == "\r" || end == "\n" || end == "\r\n"
    ensures SplitLines(line + end) == Split([line], "")
  {
    var s := line + end;
    if line == "" {
      assert s == end;
      assert s[BreakLength(s)..] == "";
    } else {
      assert s[1..] == line[1..] + end;
      SplitLoneBreak(line[1..], end);
      assert [line[0]] + line[1..] == line;
    }
  }

  // Read whole, the LF of a CRLF adds no line after its CR.
  lemma {:induction false} SplitCrlfTail(a: string)
    requires a != "" && a[|a| - 1] == '\r'
    ensures SplitLines(a + "\n") == SplitLines(a)
  {
    var head := a[..|a| - 1];
    assert a == head + "\r";
    assert a + "\n" == head + "\r\n";
    SplitAppend(head, "\r");
    SplitAppend(head, "\r\n");
    SplitRemovesBreaks(head);
    SplitLoneBreak(SplitLines(head).rest, "\r");
    SplitLoneBreak(SplitLines(head).rest, "\r\n");
  }

  // A LF at the front is a blank line, and a CR put before it changes nothing.
  lemma SplitLeadingBreak(b: string)
    requires b != "" && b[0] == '\n'
    ensures SplitLines("\r" + b) == SplitLines(b)
  {
    var c := "\r" + b;
    assert c[0] == '\r' && c[1] == '\n';
    assert c[2..] == b[1..];
  }
}

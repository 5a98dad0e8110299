// What a stream's text says, written out: its lines, their fields, the numbers
// in them, and which records are yielded.
module EventStreamFields {
  import opened Options
  import opened EventStreamLines
  import opened EventStreamParser
  import opened JsText

  // --- Lines ---------------------------------------------------------------

  // Lines, each with the break that ends it, and an unfinished rest.
  function Assemble(lines: seq<string>, ends: seq<string>, rest: string): string
    requires |ends| == |lines|
  {
    if lines == [] then rest else lines[0] + (ends[0] + Assemble(lines[1..], ends[1..], rest))
  }

  // A CR is a break of its own unless a LF follows it.
  predicate Breaks(lines: seq<string>, ends: seq<string>, rest: string)
    requires |ends| == |lines|
  {
    lines == [] ||
    (&& (ends[0] == "\n" || ends[0] == "\r\n" || ends[0] == "\r")
     && (ends[0] == "\r" ==>
          var more := Assemble(lines[1..], ends[1..], rest); more == "" || more[0] != '\n')
     && Breaks(lines[1..], ends[1..], rest))
  }

  lemma {:induction false} FirstLine(line: string, end: string, more: string)
    requires BreakFree(line) && (end == "\n" || end == "\r\n" || end == "\r")
    requires end == "\r" ==> more == "" || more[0] != '\n'
    ensures SplitLines(line + (end + more)) == Split([line] + SplitLines(more).lines, SplitLines(more).rest)
  {
    var text := line + (end + more);
    if line == "" {
      assert text == end + more;
      assert text[|end|..] == more;
    } else {
      assert text[0] == line[0] && text[1..] == line[1..] + (end + more);
      FirstLine(line[1..], end, more);
      assert [line[0]] + line[1..] == line;
    }
  }

  // The reader splits a text into exactly the lines it was put together from,
  // whichever of the three breaks ends each.
  lemma {:induction false} AssembledTextSplits(lines: seq<string>, ends: seq<string>, rest: string)
    requires |ends| == |lines| && Breaks(lines, ends, rest)
    requires BreakFree(rest) && forall k | 0 <= k < |lines| :: BreakFree(lines[k])
    ensures SplitLines(Assemble(lines, ends, rest)) == Split(lines, rest)
  {
    if lines == [] {
      NoBreakNoLine(rest);
    } else {
      assert forall k | 0 <= k < |lines[1..]| :: lines[1..][k] == lines[k + 1];
      AssembledTextSplits(lines[1..], ends[1..], rest);
      FirstLine(lines[0], ends[0], Assemble(lines[1..], ends[1..], rest));
      assert [lines[0]] + lines[1..] == lines;
    }
  }

  lemma {:induction false} NoBreakNoLine(s: string)
    requires BreakFree(s)
    ensures SplitLines(s) == Split([], s)
  {
    if s != "" {
      NoBreakNoLine(s[1..]);
      assert [s[0]] + s[1..] == s;
    }
  }

  // --- Fields --------------------------------------------------------------

  lemma {:induction false} FirstColon(name: string, rest: string)
    requires ':' !in name
    ensures IndexOf(name + ":" + rest, ':') == |name|
  {
    var line := name + ":" + rest;
    if name != "" {
      assert line[0] == name[0] && line[1..] == name[1..] + ":" + rest;
      FirstColon(name[1..], rest);
    }
  }

  // A field is a name, a colon, perhaps one space, and a value; a line without a
  // colon is all name, and one that starts with a colon is a comment.
  lemma LinesReadAsFields(name: string, value: string)
    requires ':' !in name && name != ""
    ensures FieldOf(name + ":" + (" " + value)) == Field(name, value)
    ensures value == "" || value[0] != ' ' ==> FieldOf(name + ":" + value) == Field(name, value)
    ensures FieldOf(name) == Field(name, "")
    ensures FieldOf(":" + value) == Comment
  {
    FirstColon(name, " " + value);
    FirstColon(name, value);
    NoColon(name);
    FirstColon("", value);
    assert "" + ":" + value == ":" + value;
    var spaced, plain := name + ":" + (" " + value), name + ":" + value;
    assert spaced[..|name|] == name && spaced[|name| + 1..] == " " + value && (" " + value)[1..] == value;
    assert plain[..|name|] == name && plain[|name| + 1..] == value;
  }

  // --- Numbers -------------------------------------------------------------

  predicate AllDigits(s: string) {
    forall k | 0 <= k < |s| :: IsDigit(s[k])
  }

  function Decimal(digits: string): nat
    requires AllDigits(digits)
  {
    if digits == "" then 0
    else 10 * Decimal(digits[..|digits| - 1]) + (digits[|digits| - 1] as nat - '0' as nat)
  }

  lemma {:induction false} DigitsCount(before: string, digits: string, rest: string)
    requires AllDigits(before + digits) && (rest == "" || !IsDigit(rest[0]))
    ensures AllDigits(before)
    ensures LeadingNumber(digits + rest, Decimal(before)) == Decimal(before + digits)
    decreases |digits|
  {
    assert forall k | 0 <= k < |before| :: (before + digits)[k] == before[k];
    if digits == "" {
      assert digits + rest == rest && before + digits == before;
    } else {
      var more := before + [digits[0]];
      assert (before + digits)[|before|] == digits[0];
      assert more + digits[1..] == before + digits;
      assert more[..|before|] == before;
      DigitsCount(more, digits[1..], rest);
      assert (digits + rest)[1..] == digits[1..] + rest;
    }
  }

  lemma {:induction false} SpacesTrimmed(spaces: string, s: string)
    requires (forall k | 0 <= k < |spaces| :: IsJsSpace(spaces[k])) && s != "" && !IsJsSpace(s[0])
    ensures TrimStart(spaces + s) == s
  {
    if spaces == "" {
      assert spaces + s == s;
    } else {
      assert (spaces + s)[1..] == spaces[1..] + s;
      SpacesTrimmed(spaces[1..], s);
    }
  }

  lemma SignedDigits(text: string, sign: string, number: string)
    requires sign == "" || sign == "+" || sign == "-"
    requires number != "" && IsDigit(number[0]) && TrimStart(text) == sign + number
    ensures ParseInt(text)
         == Some(if sign == "-" then 0 - LeadingNumber(number, 0) else LeadingNumber(number, 0) as int)
  {
    if sign == "" {
      assert sign + number == number;
    } else {
      assert (sign + number)[1..] == number;
    }
  }

  // A retry value is the digits after any white space and one sign, whatever
  // follows them.
  lemma RetryReadsDigits(spaces: string, sign: string, digits: string, rest: string)
    requires forall k | 0 <= k < |spaces| :: IsJsSpace(spaces[k])
    requires sign == "" || sign == "+" || sign == "-"
    requires digits != "" && AllDigits(digits) && (rest == "" || !IsDigit(rest[0]))
    ensures ParseInt(spaces + (sign + (digits + rest)))
         == Some(if sign == "-" then 0 - Decimal(digits) else Decimal(digits) as int)
  {
    var number := digits + rest;
    assert number[0] == digits[0];
    assert sign == "" ==> sign + number == number;
    SpacesTrimmed(spaces, sign + number);
    DigitsCount("", digits, rest);
    assert "" + digits == digits && Decimal("") == 0;
    SignedDigits(spaces + (sign + number), sign, number);
  }

  // Without a digit there it is no number, and the field is ignored.
  lemma RetryWithoutDigits(sign: string, rest: string)
    requires sign == "" || sign == "+" || sign == "-"
    requires rest == "" || (!IsDigit(rest[0]) && !IsJsSpace(rest[0]))
    requires sign == "" ==> rest == "" || (rest[0] != '+' && rest[0] != '-')
    ensures ParseInt(sign + rest) == None
  {
    var s := sign + rest;
    if sign == "" {
      assert s == rest;
    } else {
      assert s[1..] == rest;
    }
  }

  // --- Records -------------------------------------------------------------

  predicate Sets(line: string, name: string) {
    line != "" && FieldOf(line).Field? && FieldOf(line).name == name
  }

  predicate SetsId(line: string) {
    Sets(line, "id") && '\0' !in FieldOf(line).value
  }

  predicate SomeSets(lines: seq<string>, name: string) {
    lines != [] && (SomeSets(lines[..|lines| - 1], name) || Sets(lines[|lines| - 1], name))
  }

  predicate SomeSetsId(lines: seq<string>) {
    lines != [] && (SomeSetsId(lines[..|lines| - 1]) || SetsId(lines[|lines| - 1]))
  }

  // The value of the last event line, if there is one.
  function EventNamed(lines: seq<string>): string {
    if lines == [] then ""
    else
      var last := lines[|lines| - 1];
      if Sets(last, "event") then FieldOf(last).value else EventNamed(lines[..|lines| - 1])
  }

  lemma {:induction false} RecordCollects(id: string, lines: seq<string>)
    requires forall k | 0 <= k < |lines| :: lines[k] != ""
    ensures var read := ReadLines(Scan(id, EMPTY), lines);
      && read.messages == []
      && read.state.record.hasData == SomeSets(lines, "data")
      && read.state.record.hasId == SomeSetsId(lines)
      && read.state.record.event == EventNamed(lines)
  {
    if lines != [] {
      var init := lines[..|lines| - 1];
      assert forall k | 0 <= k < |init| :: init[k] == lines[k];
      RecordCollects(id, init);
      OneLineCollects(ReadLines(Scan(id, EMPTY), init).state, lines[|lines| - 1]);
    }
  }

  lemma OneLineCollects(s: Scan, line: string)
    requires line != ""
    ensures var read := ReadLine(s, line);
      && read.messages == []
      && (read.state.record.hasData <==> s.record.hasData || Sets(line, "data"))
      && (read.state.record.hasId <==> s.record.hasId || SetsId(line))
      && read.state.record.event == if Sets(line, "event") then FieldOf(line).value else s.record.event
  {
    assert |"data"| == 4 && |"event"| == 5 && |"id"| == 2 && |"retry"| == 5 && "event"[0] != "retry"[0];
  }

  // A blank line yields a message if and only if the lines since the last one
  // gave data, an id without NUL, or a last event name that is not empty; the
  // message carries that name, and at most one is yielded.
  lemma RecordIsYieldedIff(id: string, lines: seq<string>)
    requires forall k | 0 <= k < |lines| :: lines[k] != ""
    ensures var yielded := ReadLines(Scan(id, EMPTY), lines + [""]).messages;
      && |yielded| <= 1
      && (yielded != [] ==> yielded[0].record.event == EventNamed(lines))
      && (yielded != [] <==> SomeSets(lines, "data") || SomeSetsId(lines) || EventNamed(lines) != "")
  {
    RecordCollects(id, lines);
    ReadLinesAppend(Scan(id, EMPTY), lines, [""]);
    assert [""][..0] == [];
    BlankLine(ReadLines(Scan(id, EMPTY), lines).state);
  }
}

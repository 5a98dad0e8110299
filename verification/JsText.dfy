// JavaScript white space, as parseInt and trim see it.
module JsText {

  predicate IsJsSpace(c: char) {
    c in " \t\n\r\U{000B}\U{000C}\U{00A0}\U{1680}\U{2028}\U{2029}\U{202F}\U{205F}\U{3000}\U{FEFF}"
    || '\U{2000}' <= c <= '\U{200A}'
  }

  function TrimStart(s: string): string {
    if s != "" && IsJsSpace(s[0]) then TrimStart(s[1..]) else s
  }

  function TrimEnd(s: string): string {
    if s != "" && IsJsSpace(s[|s| - 1]) then TrimEnd(s[..|s| - 1]) else s
  }

  function Trim(s: string): string {
    TrimEnd(TrimStart(s))
  }

  predicate Blank(s: string) {
    forall c | c in s :: IsJsSpace(c)
  }

  // What trimming takes away is white space, and none is left at that end.
  lemma {:induction false} TrimmedStart(s: string) returns (before: string)
    ensures s == before + TrimStart(s) && Blank(before)
    ensures TrimStart(s) != "" ==> !IsJsSpace(TrimStart(s)[0])
  {
    before := "";
    if s != "" && IsJsSpace(s[0]) {
      var more := TrimmedStart(s[1..]);
      before := [s[0]] + more;
      assert s == [s[0]] + (more + TrimStart(s[1..]));
    }
  }

  lemma {:induction false} TrimmedEnd(s: string) returns (after: string)
    ensures s == TrimEnd(s) + after && Blank(after)
    ensures TrimEnd(s) != "" ==> !IsJsSpace(TrimEnd(s)[|TrimEnd(s)| - 1])
  {
    after := "";
    if s != "" && IsJsSpace(s[|s| - 1]) {
      var init := s[..|s| - 1];
      var more := TrimmedEnd(init);
      after := more + [s[|s| - 1]];
      assert s == init + [s[|s| - 1]];
      assert s == TrimEnd(init) + after;
    }
  }

  // Nothing is left exactly of a blank text.
  lemma TrimmedIsEmptyIff(s: string)
    ensures Trim(s) == "" <==> Blank(s)
  {
    var before := TrimmedStart(s);
    var after := TrimmedEnd(TrimStart(s));
    if Trim(s) != "" {
      assert Trim(s)[0] == TrimStart(s)[0] && TrimStart(s)[0] in s;
    }
  }
}

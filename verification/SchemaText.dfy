// Schema text as the import compares it: whitespace runs become one space,
// whitespace beside punctuation goes, and so does the surrounding whitespace.
module SchemaText {
  import opened Options

  // Python's whitespace for text, which both the pattern and strip() use.
  predicate IsSpace(c: char) {
    || '\t' <= c <= '\r' || '\U{001C}' <= c <= ' ' || c == '\U{0085}' || c == '\U{00A0}'
    || c == '\U{1680}' || '\U{2000}' <= c <= '\U{200A}' || c == '\U{2028}' || c == '\U{2029}'
    || c == '\U{202F}' || c == '\U{205F}' || c == '\U{3000}'
  }

  predicate IsPunct(c: char) {
    c == '(' || c == ')' || c == ',' || c == ';' || c == '='
  }

  predicate IsWord(c: char) {
    !IsSpace(c) && !IsPunct(c)
  }

  // --- The three passes ----------------------------------------------------

  function SkipSpace(s: string): (rest: string)
    ensures |rest| <= |s|
    ensures rest != [] ==> !IsSpace(rest[0])
    ensures s != [] && !IsSpace(s[0]) ==> rest == s
    ensures s != [] && IsSpace(s[0]) ==> |rest| < |s|
  {
    if s != [] && IsSpace(s[0]) then SkipSpace(s[1..]) else s
  }

  function Collapse(s: string): string
    decreases |s|
  {
    if s == [] then []
    else if IsSpace(s[0]) then [' '] + Collapse(SkipSpace(s))
    else [s[0]] + Collapse(s[1..])
  }

  // A match takes the whitespace on both sides of one punctuation character.
  function Tighten(s: string): string
    decreases |s|
  {
    if s == [] then []
    else
      var rest := SkipSpace(s);
      if rest != [] && IsPunct(rest[0]) then [rest[0]] + Tighten(SkipSpace(rest[1..]))
      else [s[0]] + Tighten(s[1..])
  }

  function StripEnd(s: string): string {
    if s != [] && IsSpace(s[|s| - 1]) then StripEnd(s[..|s| - 1]) else s
  }

  function Normalize(value: Option<string>): string {
    StripEnd(SkipSpace(Tighten(Collapse(match value case Some(text) => text case None => ""))))
  }

  // --- What the text says --------------------------------------------------

  predicate Joins(s: string) {
    |s| > 1 && IsWord(s[0]) && IsWord(s[1])
  }

  // The tokens of a text: each punctuation character, and each longest run of
  // characters that are neither punctuation nor whitespace.
  function Tokens(s: string): (tokens: seq<string>)
    ensures s != [] && !IsSpace(s[0]) ==> tokens != [] && tokens[0] != [] && tokens[0][0] == s[0]
  {
    if s == [] then []
    else
      var more := Tokens(s[1..]);
      if IsSpace(s[0]) then more
      else if Joins(s) then [[s[0]] + more[0]] + more[1..]
      else [[s[0]]] + more
  }

  predicate WordToken(t: string) {
    t != [] && IsWord(t[0])
  }

  // The tokens set closely: a space only between two words.
  function Render(tokens: seq<string>): string {
    if tokens == [] then []
    else if |tokens| > 1 && WordToken(tokens[0]) && WordToken(tokens[1]) then
      tokens[0] + [' '] + Render(tokens[1..])
    else tokens[0] + Render(tokens[1..])
  }

  // --- Each pass keeps the tokens ------------------------------------------

  lemma {:induction false} SkippingKeepsTokens(s: string)
    ensures Tokens(SkipSpace(s)) == Tokens(s)
  {
    if s != [] && IsSpace(s[0]) {
      SkippingKeepsTokens(s[1..]);
    }
  }

  lemma ConsTokens(c: char, a: string, b: string)
    requires Tokens(a) == Tokens(b)
    requires Joins([c] + a) == Joins([c] + b)
    ensures Tokens([c] + a) == Tokens([c] + b)
  {
    assert ([c] + a)[1..] == a && ([c] + b)[1..] == b;
  }

  lemma {:induction false} CollapsingKeepsTokens(s: string)
    ensures Tokens(Collapse(s)) == Tokens(s)
    decreases |s|
  {
    if s != [] {
      if IsSpace(s[0]) {
        var rest := SkipSpace(s);
        CollapsingKeepsTokens(rest);
        SkippingKeepsTokens(s);
        assert ([' '] + Collapse(rest))[1..] == Collapse(rest);
      } else {
        CollapsingKeepsTokens(s[1..]);
        assert s == [s[0]] + s[1..];
        ConsTokens(s[0], Collapse(s[1..]), s[1..]);
      }
    }
  }

  lemma {:induction false} TighteningKeepsTokens(s: string)
    ensures Tokens(Tighten(s)) == Tokens(s)
    decreases |s|
  {
    if s != [] {
      var rest := SkipSpace(s);
      SkippingKeepsTokens(s);
      if rest != [] && IsPunct(rest[0]) {
        var after := SkipSpace(rest[1..]);
        TighteningKeepsTokens(after);
        SkippingKeepsTokens(rest[1..]);
        assert rest == [rest[0]] + rest[1..];
        ConsTokens(rest[0], Tighten(after), rest[1..]);
      } else {
        TighteningKeepsTokens(s[1..]);
        assert s == [s[0]] + s[1..];
        ConsTokens(s[0], Tighten(s[1..]), s[1..]);
      }
    }
  }

  lemma {:induction false} TrailingSpaceIsNoToken(s: string, c: char)
    requires IsSpace(c)
    ensures Tokens(s + [c]) == Tokens(s)
  {
    if s == [] {
      assert [c][1..] == [] && s + [c] == [c];
    } else {
      TrailingSpaceIsNoToken(s[1..], c);
      assert (s + [c])[1..] == s[1..] + [c];
    }
  }

  lemma {:induction false} StrippingKeepsTokens(s: string)
    ensures Tokens(StripEnd(s)) == Tokens(s)
  {
    if s != [] && IsSpace(s[|s| - 1]) {
      var init := s[..|s| - 1];
      StrippingKeepsTokens(init);
      assert s == init + [s[|s| - 1]];
      TrailingSpaceIsNoToken(init, s[|s| - 1]);
    }
  }

  // Normalising changes nothing but whitespace.
  lemma NormalizingKeepsTokens(text: string)
    ensures Tokens(Normalize(Some(text))) == Tokens(text)
  {
    var tight := Tighten(Collapse(text));
    CollapsingKeepsTokens(text);
    TighteningKeepsTokens(Collapse(text));
    SkippingKeepsTokens(tight);
    StrippingKeepsTokens(SkipSpace(tight));
  }

  // --- The result is set closely -------------------------------------------

  predicate Single(s: string) {
    s == [] ||
    ((IsSpace(s[0]) ==> s[0] == ' ' && (|s| == 1 || !IsSpace(s[1]))) && Single(s[1..]))
  }

  // Spaces are single and never beside punctuation.
  predicate Tight(s: string) {
    s == [] ||
    ((IsSpace(s[0]) ==> s[0] == ' ' && (|s| == 1 || IsWord(s[1])))
     && (IsPunct(s[0]) ==> |s| == 1 || !IsSpace(s[1]))
     && Tight(s[1..]))
  }

  lemma {:induction false} CollapsedIsSingle(s: string)
    ensures Single(Collapse(s))
    decreases |s|
  {
    if s != [] {
      var rest := if IsSpace(s[0]) then SkipSpace(s) else s[1..];
      CollapsedIsSingle(rest);
      assert Collapse(s)[1..] == Collapse(rest);
    }
  }

  lemma {:induction false} SkippingKeepsSingle(s: string)
    requires Single(s)
    ensures Single(SkipSpace(s))
  {
    if s != [] && IsSpace(s[0]) {
      SkippingKeepsSingle(s[1..]);
    }
  }

  lemma {:induction false} TightenedIsTight(s: string)
    requires Single(s)
    ensures Tight(Tighten(s))
    decreases |s|
  {
    if s != [] {
      var rest := SkipSpace(s);
      if rest != [] && IsPunct(rest[0]) {
        SkippingKeepsSingle(s);
        SkippingKeepsSingle(rest[1..]);
        TightenedIsTight(SkipSpace(rest[1..]));
        assert Tighten(s)[1..] == Tighten(SkipSpace(rest[1..]));
      } else {
        TightenedIsTight(s[1..]);
        assert Tighten(s)[1..] == Tighten(s[1..]);
      }
    }
  }

  lemma {:induction false} SkippingKeepsTight(s: string)
    requires Tight(s)
    ensures Tight(SkipSpace(s))
  {
    if s != [] && IsSpace(s[0]) {
      SkippingKeepsTight(s[1..]);
    }
  }

  lemma {:induction false} TightPrefix(s: string, c: char)
    requires Tight(s + [c])
    ensures Tight(s)
  {
    if s != [] {
      assert (s + [c])[1..] == s[1..] + [c];
      TightPrefix(s[1..], c);
    }
  }

  lemma {:induction false} StrippingKeepsTight(s: string)
    requires Tight(s) && (s != [] ==> !IsSpace(s[0]))
    ensures Canonical(StripEnd(s))
  {
    if s != [] && IsSpace(s[|s| - 1]) {
      assert s == s[..|s| - 1] + [s[|s| - 1]];
      TightPrefix(s[..|s| - 1], s[|s| - 1]);
      StrippingKeepsTight(s[..|s| - 1]);
    }
  }

  predicate Canonical(s: string) {
    Tight(s) && (s != [] ==> !IsSpace(s[0]) && !IsSpace(s[|s| - 1]))
  }

  lemma NormalizedIsCanonical(text: string)
    ensures Canonical(Normalize(Some(text)))
  {
    CollapsedIsSingle(text);
    TightenedIsTight(Collapse(text));
    SkippingKeepsTight(Tighten(Collapse(text)));
    StrippingKeepsTight(SkipSpace(Tighten(Collapse(text))));
  }

  lemma RenderSpaced(s: string, rest: string)
    requires |s| > 2 && s == [s[0], ' '] + rest && IsWord(s[0]) && IsWord(s[2])
    requires Tokens(s[1..]) == Tokens(rest) && Render(Tokens(rest)) == rest
    ensures Render(Tokens(s)) == s
  {
    var more := Tokens(rest);
    assert rest[0] == s[2] && WordToken(more[0]);
    assert Tokens(s) == [[s[0]]] + more && ([[s[0]]] + more)[1..] == more;
  }

  lemma {:induction false} RenderedPastSpace(s: string)
    requires Canonical(s) && |s| > 1 && IsSpace(s[1])
    ensures Render(Tokens(s)) == s
    decreases |s|, 0
  {
    assert |s| > 2 && s[1..][1..] == s[2..] && s[1..][0] == s[1] && s[1..][1] == s[2];
    assert Tight(s[1..]) && Tight(s[2..]);
    CanonicalIsRendered(s[2..]);
    assert Tokens(s[1..]) == Tokens(s[2..]);
    RenderSpaced(s, s[2..]);
  }

  lemma {:induction false} CanonicalIsRendered(s: string)
    requires Canonical(s)
    ensures Render(Tokens(s)) == s
    decreases |s|, 1
  {
    if s != [] {
      assert s == [s[0]] + s[1..];
      if |s| > 1 && IsSpace(s[1]) {
        RenderedPastSpace(s);
      } else {
        CanonicalIsRendered(s[1..]);
        var more := Tokens(s[1..]);
        if Joins(s) {
          assert Tokens(s)[1..] == more[1..];
          assert more == [more[0]] + more[1..];
        } else {
          assert Tokens(s)[1..] == more;
        }
      }
    }
  }

  // The normal form is the tokens of the text, set closely.
  lemma NormalFormIsRenderedTokens(text: string)
    ensures Normalize(Some(text)) == Render(Tokens(text))
  {
    NormalizingKeepsTokens(text);
    NormalizedIsCanonical(text);
    CanonicalIsRendered(Normalize(Some(text)));
  }

  lemma NormalizeIsIdempotent(value: Option<string>)
    ensures Normalize(Some(Normalize(value))) == Normalize(value)
  {
    var text := match value case Some(text) => text case None => "";
    NormalFormIsRenderedTokens(text);
    NormalizingKeepsTokens(text);
    NormalFormIsRenderedTokens(Normalize(Some(text)));
  }

  // --- Texts that differ only in whitespace --------------------------------

  predicate AllSpace(s: string) {
    s == [] || (IsSpace(s[0]) && AllSpace(s[1..]))
  }

  predicate AllWord(s: string) {
    s == [] || (IsWord(s[0]) && AllWord(s[1..]))
  }

  predicate IsToken(t: string) {
    (|t| == 1 && IsPunct(t[0])) || (t != [] && AllWord(t))
  }

  // Whitespace before each token and at the end; some between two words.
  predicate Fits(tokens: seq<string>, gaps: seq<string>)
    decreases |tokens|
  {
    && |gaps| == |tokens| + 1
    && AllSpace(gaps[0])
    && (tokens != [] ==>
         && IsToken(tokens[0])
         && (|tokens| > 1 && WordToken(tokens[0]) && WordToken(tokens[1]) ==> gaps[1] != [])
         && Fits(tokens[1..], gaps[1..]))
  }

  function Weave(tokens: seq<string>, gaps: seq<string>): string
    requires |gaps| == |tokens| + 1
  {
    if tokens == [] then gaps[0] else gaps[0] + tokens[0] + Weave(tokens[1..], gaps[1..])
  }

  ghost predicate Spells(s: string, tokens: seq<string>) {
    exists gaps :: Fits(tokens, gaps) && s == Weave(tokens, gaps)
  }

  lemma {:induction false} LeadingSpaceIsNoToken(gap: string, s: string)
    requires AllSpace(gap)
    ensures Tokens(gap + s) == Tokens(s)
  {
    if gap == [] {
      assert gap + s == s;
    } else {
      assert (gap + s)[1..] == gap[1..] + s;
      LeadingSpaceIsNoToken(gap[1..], s);
    }
  }

  lemma {:induction false} LeadingToken(t: string, s: string)
    requires IsToken(t) && (s != [] && WordToken(t) ==> !IsWord(s[0]))
    ensures Tokens(t + s) == [t] + Tokens(s)
  {
    assert (t + s)[1..] == t[1..] + s;
    assert t == [t[0]] + t[1..];
    if |t| == 1 {
      assert t[1..] + s == s && [(t + s)[0]] == t;
      assert !Joins(t + s);
    } else {
      assert AllWord(t[1..]) && t[1] == t[1..][0];
      LeadingToken(t[1..], s);
      assert Joins(t + s);
      assert ([t[1..]] + Tokens(s))[1..] == Tokens(s);
    }
  }

  lemma {:induction false} WovenTokens(tokens: seq<string>, gaps: seq<string>)
    requires Fits(tokens, gaps)
    ensures Tokens(Weave(tokens, gaps)) == tokens
    decreases |tokens|
  {
    if tokens == [] {
      LeadingSpaceIsNoToken(gaps[0], []);
      assert gaps[0] + [] == gaps[0];
    } else {
      var rest := Weave(tokens[1..], gaps[1..]);
      WovenTokens(tokens[1..], gaps[1..]);
      LeadingToken(tokens[0], rest);
      LeadingSpaceIsNoToken(gaps[0], tokens[0] + rest);
      assert gaps[0] + tokens[0] + rest == gaps[0] + (tokens[0] + rest);
      assert tokens == [tokens[0]] + tokens[1..];
    }
  }

  function Gaps(s: string): (gaps: seq<string>)
    ensures |gaps| > 0
  {
    if s == [] then [[]]
    else
      var more := Gaps(s[1..]);
      if IsSpace(s[0]) then [[s[0]] + more[0]] + more[1..]
      else if Joins(s) then more
      else [[]] + more
  }

  lemma SpaceFits(c: char, tokens: seq<string>, gaps: seq<string>)
    requires IsSpace(c) && Fits(tokens, gaps)
    ensures var more := [[c] + gaps[0]] + gaps[1..];
      Fits(tokens, more) && Weave(tokens, more) == [c] + Weave(tokens, gaps)
  {
    var more := [[c] + gaps[0]] + gaps[1..];
    assert ([c] + gaps[0])[1..] == gaps[0] && more[1..] == gaps[1..];
    assert AllSpace(more[0]);
    if tokens == [] {
      assert Weave(tokens, more) == [c] + gaps[0];
    } else {
      var rest := Weave(tokens[1..], gaps[1..]);
      assert more[1] == gaps[1];
      assert ([c] + gaps[0]) + tokens[0] + rest == [c] + (gaps[0] + tokens[0] + rest);
    }
  }

  lemma LongerWordFits(c: char, tokens: seq<string>, gaps: seq<string>)
    requires IsWord(c) && Fits(tokens, gaps) && gaps[0] == []
    requires tokens != [] && WordToken(tokens[0])
    ensures var more := [[c] + tokens[0]] + tokens[1..];
      Fits(more, gaps) && Weave(more, gaps) == [c] + Weave(tokens, gaps)
  {
    var more := [[c] + tokens[0]] + tokens[1..];
    assert ([c] + tokens[0])[1..] == tokens[0] && more[1..] == tokens[1..];
    assert |tokens| > 1 ==> more[1] == tokens[1];
    assert AllWord([c] + tokens[0]);
    var rest := Weave(tokens[1..], gaps[1..]);
    assert gaps[0] + ([c] + tokens[0]) + rest == [c] + (gaps[0] + tokens[0] + rest);
  }

  lemma NewTokenFits(c: char, tokens: seq<string>, gaps: seq<string>)
    requires !IsSpace(c) && Fits(tokens, gaps)
    requires IsWord(c) && tokens != [] && WordToken(tokens[0]) ==> gaps[0] != []
    ensures Fits([[c]] + tokens, [[]] + gaps) && Weave([[c]] + tokens, [[]] + gaps) == [c] + Weave(tokens, gaps)
  {
    var first: string := [c];
    assert first[1..] == [] && IsToken(first) && AllSpace([]);
    FitsFirst(first, tokens, gaps);
  }

  lemma FitsFirst(first: string, tokens: seq<string>, gaps: seq<string>)
    requires IsToken(first) && Fits(tokens, gaps) && AllSpace([])
    requires WordToken(first) && tokens != [] && WordToken(tokens[0]) ==> gaps[0] != []
    ensures Fits([first] + tokens, [[]] + gaps)
    ensures Weave([first] + tokens, [[]] + gaps) == first + Weave(tokens, gaps)
  {
    var all, spaces := [first] + tokens, [[]] + gaps;
    assert all[1..] == tokens && spaces[1..] == gaps;
    assert all[0] == first && spaces[0] == [] && spaces[1] == gaps[0];
    assert [] + first == first;
  }

  lemma {:induction false} GapsFit(s: string)
    ensures Fits(Tokens(s), Gaps(s)) && Weave(Tokens(s), Gaps(s)) == s
    ensures s != [] ==> (IsSpace(s[0]) <==> Gaps(s)[0] != [])
  {
    if s != [] {
      GapsFit(s[1..]);
      var tokens, gaps := Tokens(s[1..]), Gaps(s[1..]);
      assert s == [s[0]] + s[1..];
      if IsSpace(s[0]) {
        SpaceFits(s[0], tokens, gaps);
      } else if Joins(s) {
        LongerWordFits(s[0], tokens, gaps);
      } else {
        FirstTokenHead(s[1..]);
        NewTokenFits(s[0], tokens, gaps);
      }
    }
  }

  // A text that starts with no word character gives no word at once.
  lemma FirstTokenHead(s: string)
    ensures s != [] && !IsSpace(s[0]) && Tokens(s) != [] && WordToken(Tokens(s)[0]) ==> IsWord(s[0])
    ensures s == [] ==> Tokens(s) == []
  {
  }

  lemma SpelledTokens(s: string, tokens: seq<string>)
    ensures Spells(s, tokens) <==> tokens == Tokens(s)
  {
    GapsFit(s);
    if Spells(s, tokens) {
      var gaps :| Fits(tokens, gaps) && s == Weave(tokens, gaps);
      WovenTokens(tokens, gaps);
    }
  }

  // Two texts have the same normal form exactly when they are the same tokens
  // with whitespace of any length and kind around them: some between two words,
  // any or none beside punctuation and at the ends.
  lemma NormalFormIsCanonical(a: string, b: string)
    ensures Normalize(Some(a)) == Normalize(Some(b)) <==> exists tokens :: Spells(a, tokens) && Spells(b, tokens)
  {
    SpelledTokens(a, Tokens(a));
    SpelledTokens(b, Tokens(a));
    NormalFormIsRenderedTokens(a);
    NormalFormIsRenderedTokens(b);
    NormalizingKeepsTokens(a);
    NormalizingKeepsTokens(b);
    if tokens :| Spells(a, tokens) && Spells(b, tokens) {
      SpelledTokens(a, tokens);
      SpelledTokens(b, tokens);
    }
  }

  lemma {:induction false} SpaceBesidePunctuationIsNoToken(before: string, c: char, after: string)
    requires IsPunct(c)
    ensures Tokens(before + ([' ', c] + after)) == Tokens(before + ([c] + after))
  {
    var loose, close := [' ', c] + after, [c] + after;
    if before == [] {
      assert before + loose == loose && before + close == close && loose[1..] == close;
    } else {
      SpaceBesidePunctuationIsNoToken(before[1..], c, after);
      assert before + loose == [before[0]] + (before[1..] + loose);
      assert before + close == [before[0]] + (before[1..] + close);
      ConsTokens(before[0], before[1..] + loose, before[1..] + close);
    }
  }

  // The space beside punctuation goes wherever it stands, quoted text included:
  // the column defaults 'a = b' and 'a=b' count as one.
  lemma SpaceBesidePunctuationIsLost(before: string, c: char, after: string)
    requires IsPunct(c)
    ensures Normalize(Some(before + ([' ', c] + after))) == Normalize(Some(before + ([c] + after)))
  {
    SpaceBesidePunctuationIsNoToken(before, c, after);
    NormalFormIsRenderedTokens(before + ([' ', c] + after));
    NormalFormIsRenderedTokens(before + ([c] + after));
  }

  lemma ConsCount(c: char, s: string)
    ensures |Tokens([c] + s)| == |Tokens(s)| + if IsSpace(c) || Joins([c] + s) then 0 else 1
  {
    assert ([c] + s)[1..] == s;
  }

  lemma SameJoin(c: char, a: string, b: string)
    requires a != "" && b != "" && a[0] == b[0]
    ensures Joins([c] + a) == Joins([c] + b)
  {
  }

  lemma {:induction false} SameHeadCounts(before: string, loose: string, close: string)
    requires loose != "" && close != "" && loose[0] == close[0]
    ensures |Tokens(before + loose)| - |Tokens(before + close)| == |Tokens(loose)| - |Tokens(close)|
  {
    if before == "" {
      assert before + loose == loose && before + close == close;
    } else {
      var a, b := before[1..] + loose, before[1..] + close;
      SameHeadCounts(before[1..], loose, close);
      assert before + loose == [before[0]] + a && before + close == [before[0]] + b;
      assert a != "" && b != "" && a[0] == b[0];
      SameJoin(before[0], a, b);
      ConsCount(before[0], a);
      ConsCount(before[0], b);
    }
  }

  lemma {:induction false} SameHeadTokens(before: string, loose: string, close: string)
    requires loose != "" && close != "" && Tokens(loose) == Tokens(close)
    requires loose[0] == close[0] || (IsSpace(loose[0]) && IsSpace(close[0]))
    ensures Tokens(before + loose) == Tokens(before + close)
  {
    if before == "" {
      assert before + loose == loose && before + close == close;
    } else {
      SameHeadTokens(before[1..], loose, close);
      assert before + loose == [before[0]] + (before[1..] + loose);
      assert before + close == [before[0]] + (before[1..] + close);
      ConsTokens(before[0], before[1..] + loose, before[1..] + close);
    }
  }

  // A space between two other characters can go, anywhere in a text, if and only
  // if one of the two is a parenthesis, a comma, a semicolon or an equals sign.
  lemma SpaceIsLostIff(before: string, c: char, d: char, after: string)
    requires !IsSpace(c) && !IsSpace(d)
    ensures Normalize(Some(before + ([c] + ([' ', d] + after)))) == Normalize(Some(before + ([c] + ([d] + after))))
      <==> c in "(),;=" || d in "(),;="
  {
    var loose, close := [c] + ([' ', d] + after), [c] + ([d] + after);
    var rest := [d] + after;
    assert ([' ', d] + after)[1..] == rest;
    assert loose[1..] == [' ', d] + after && close[1..] == rest;
    assert Tokens([' ', d] + after) == Tokens(rest);
    NormalFormIsRenderedTokens(before + loose);
    NormalFormIsRenderedTokens(before + close);
    NormalizingKeepsTokens(before + loose);
    NormalizingKeepsTokens(before + close);
    if IsPunct(c) || IsPunct(d) {
      SameHeadTokens(before, loose, close);
    } else {
      assert Joins(close) && !Joins(loose);
      SameHeadCounts(before, loose, close);
    }
  }

  // Any white space counts as a space: tabs, every line break, the separators of
  // ASCII, and the wide and unbroken spaces.
  lemma WhiteSpaceIsASpace(before: string, w: char, after: string)
    requires w in "\t\n\U{000B}\U{000C}\r\U{001C}\U{001D}\U{001E}\U{001F}\U{0085}\U{00A0}\U{1680}"
          || w in "\U{2000}\U{2001}\U{2002}\U{2003}\U{2004}\U{2005}\U{2006}\U{2007}\U{2008}\U{2009}\U{200A}"
          || w in "\U{2028}\U{2029}\U{202F}\U{205F}\U{3000}"
    ensures Normalize(Some(before + ([w] + after))) == Normalize(Some(before + ([' '] + after)))
  {
    assert ([w] + after)[1..] == after && ([' '] + after)[1..] == after;
    assert Tokens([w] + after) == Tokens(after) && Tokens([' '] + after) == Tokens(after);
    SameHeadTokens(before, [w] + after, [' '] + after);
    NormalFormIsRenderedTokens(before + ([w] + after));
    NormalFormIsRenderedTokens(before + ([' '] + after));
  }
}

// Lower-casing as the browser does it, and what find marks stand on when it
// changes the length of a text, or a letter by its neighbours.
module FindCasing {
  import opened TextTree
  import opened FindMarks

  // Each character's own lower case, possibly of several characters, and the two
  // properties that decide whether a capital sigma ends a word.
  datatype Casing = Casing(fold: char -> string, cased: char -> bool, ignorable: char -> bool)

  const SIGMA: char := '\U{03A3}'
  const SMALL_SIGMA: string := "\U{03C3}"
  const FINAL_SIGMA: string := "\U{03C2}"

  ghost predicate Valid(casing: Casing) {
    (forall c :: casing.fold(c) != "") && casing.fold(SIGMA) == SMALL_SIGMA
  }

  // --- Lower-casing --------------------------------------------------------

  // A letter stands before, or after, with only ignorable characters between.
  predicate LetterBefore(casing: Casing, text: string, i: nat)
    requires i <= |text|
  {
    i > 0 && (casing.cased(text[i - 1]) || (casing.ignorable(text[i - 1]) && LetterBefore(casing, text, i - 1)))
  }

  predicate LetterAfter(casing: Casing, text: string, i: nat)
    requires i <= |text|
    decreases |text| - i
  {
    i < |text| && (casing.cased(text[i]) || (casing.ignorable(text[i]) && LetterAfter(casing, text, i + 1)))
  }

  predicate IsFinal(casing: Casing, text: string, i: nat)
    requires i < |text|
  {
    LetterBefore(casing, text, i) && !LetterAfter(casing, text, i + 1)
  }

  // What one character becomes where it stands.
  function LowerAt(casing: Casing, text: string, i: nat): string
    requires i < |text|
  {
    if text[i] == SIGMA && IsFinal(casing, text, i) then FINAL_SIGMA else casing.fold(text[i])
  }

  function LowerUpTo(casing: Casing, text: string, n: nat): string
    requires n <= |text|
  {
    if n == 0 then "" else LowerUpTo(casing, text, n - 1) + LowerAt(casing, text, n - 1)
  }

  // String.toLowerCase.
  function Lower(casing: Casing, text: string): string {
    LowerUpTo(casing, text, |text|)
  }

  // No character before `end` becomes more than one.
  predicate KeepsLengthBefore(casing: Casing, text: string, end: nat) {
    forall i | 0 <= i < end && i < |text| :: |LowerAt(casing, text, i)| == 1
  }

  lemma {:induction false} LowerLength(casing: Casing, text: string, n: nat)
    requires Valid(casing) && n <= |text|
    ensures |LowerUpTo(casing, text, n)| >= n
    ensures |LowerUpTo(casing, text, n)| == n <==> KeepsLengthBefore(casing, text, n)
  {
    if n > 0 {
      LowerLength(casing, text, n - 1);
      assert LowerAt(casing, text, n - 1) != "";
      assert KeepsLengthBefore(casing, text, n)
        <==> KeepsLengthBefore(casing, text, n - 1) && |LowerAt(casing, text, n - 1)| == 1;
    }
  }

  lemma {:induction false} LowerPrefix(casing: Casing, text: string, n: nat, m: nat)
    requires n <= m <= |text|
    ensures LowerUpTo(casing, text, n) <= LowerUpTo(casing, text, m)
    decreases m
  {
    if n < m {
      LowerPrefix(casing, text, n, m - 1);
    }
  }

  lemma {:induction false} LowerCharacter(casing: Casing, text: string, n: nat, i: nat)
    requires Valid(casing) && i < n <= |text| && KeepsLengthBefore(casing, text, n)
    ensures |LowerUpTo(casing, text, n)| == n && LowerUpTo(casing, text, n)[i] == LowerAt(casing, text, i)[0]
    decreases n
  {
    LowerLength(casing, text, n);
    LowerLength(casing, text, n - 1);
    if i < n - 1 {
      LowerCharacter(casing, text, n - 1, i);
    }
  }

  // --- Where marks stand ---------------------------------------------------

  // The mark's characters are the ones whose lower case was found: they start
  // where the hit starts and become exactly the needle.
  predicate Placed(casing: Casing, text: string, needle: string, at: nat) {
    var end := at + |needle|;
    && end <= |text|
    && |LowerUpTo(casing, text, at)| == at && |LowerUpTo(casing, text, end)| == end
    && LowerUpTo(casing, text, end)[at..] == needle
  }

  // The lower case up to a hit's end is the text's, so the needle is there.
  lemma FoundBelow(casing: Casing, text: string, needle: string, at: nat, end: nat)
    requires end == at + |needle| <= |text| && |LowerUpTo(casing, text, end)| == end
    requires OccursAt(Lower(casing, text), needle, at)
    ensures LowerUpTo(casing, text, end)[at..] == needle
  {
    LowerPrefix(casing, text, end, |text|);
    var found := LowerUpTo(casing, text, end);
    forall j | 0 <= j < |needle|
      ensures found[at..][j] == needle[j]
    {
      assert Lower(casing, text)[at + j] == needle[j];
    }
  }

  // A mark stands on what was found if and only if no character before its end
  // becomes more than one.
  lemma HitIsPlacedIff(casing: Casing, text: string, needle: string, at: nat)
    requires Valid(casing) && OccursAt(Lower(casing, text), needle, at)
    ensures Placed(casing, text, needle, at) <==> KeepsLengthBefore(casing, text, at + |needle|)
  {
    var end := at + |needle|;
    LowerLength(casing, text, |text|);
    var whole := KeepsLengthBefore(casing, text, |text|);
    assert end > |text| ==> (KeepsLengthBefore(casing, text, end) <==> whole);
    if end <= |text| {
      LowerLength(casing, text, at);
      LowerLength(casing, text, end);
      if KeepsLengthBefore(casing, text, end) {
        FoundBelow(casing, text, needle, at, end);
      }
    }
  }

  lemma {:induction false} StartsOccur(lower: string, needle: string, cursor: nat)
    requires needle != ""
    ensures forall at | at in MarkStarts(lower, needle, cursor) :: OccursAt(lower, needle, at)
    decreases |lower| - cursor
  {
    var i := IndexFrom(lower, needle, cursor);
    if i >= 0 {
      IndexFromOccurs(lower, needle, cursor);
      StartsOccur(lower, needle, i + |needle|);
    }
  }

  // The marks among the nodes are those cut at these starts, and no others.
  ghost predicate MarksAt(nodes: seq<Node>, text: string, length: nat, starts: set<nat>) {
    forall node :: (node in nodes && node.Mark?) <==> CutAt(node, text, length, starts)
  }

  predicate CutAt(node: Node, text: string, length: nat, starts: set<nat>) {
    exists at | at in starts :: node == Hit(text, at, length)
  }

  lemma {:induction false} MarksStandAtStarts(text: string, lower: string, needle: string, cursor: nat)
    requires needle != ""
    ensures MarksAt(Pieces(text, lower, needle, cursor), text, |needle|, MarkStarts(lower, needle, cursor))
    decreases |lower| - cursor
  {
    var i := IndexFrom(lower, needle, cursor);
    if i >= 0 {
      MarksStandAtStarts(text, lower, needle, i + |needle|);
      OneMoreStart(text, i, |needle|, Gap(text, cursor, i), Pieces(text, lower, needle, i + |needle|),
                   MarkStarts(lower, needle, i + |needle|));
    }
  }

  lemma OneMoreStart(text: string, i: nat, length: nat, gap: seq<Node>, more: seq<Node>, later: set<nat>)
    requires (forall node | node in gap :: node.Text?) && MarksAt(more, text, length, later)
    ensures MarksAt(gap + [Hit(text, i, length)] + more, text, length, {i} + later)
  {
    var nodes := gap + [Hit(text, i, length)] + more;
    forall node: Node
      ensures (node in nodes && node.Mark?) <==> CutAt(node, text, length, {i} + later)
    {
      assert CutAt(node, text, length, {i} + later)
        <==> node == Hit(text, i, length) || CutAt(node, text, length, later) by {
        assert i in {i} + later;
        assert forall at | at in later :: at in {i} + later;
      }
      assert node in nodes <==> node in gap || node == Hit(text, i, length) || node in more;
    }
  }

  // For every mark of a text: it stands on the characters that were found if
  // and only if no character before its end becomes more than one.
  lemma MarksArePlacedIff(casing: Casing, text: string, needle: string, at: nat)
    requires Valid(casing) && needle != "" && at in MarkStarts(Lower(casing, text), needle, 0)
    ensures Hit(text, at, |needle|) in Replacement(text, Lower(casing, text), needle)
    ensures Placed(casing, text, needle, at) <==> KeepsLengthBefore(casing, text, at + |needle|)
  {
    var lower := Lower(casing, text);
    StartsOccur(lower, needle, 0);
    HitIsPlacedIff(casing, text, needle, at);
    MarksStandAtStarts(text, lower, needle, 0);
    assert CutAt(Hit(text, at, |needle|), text, |needle|, MarkStarts(lower, needle, 0));
  }

  // --- What marks lower-case to --------------------------------------------

  // Every capital sigma of a mark ends a word there exactly if it does in the text.
  predicate SigmasAgree(casing: Casing, text: string, at: nat, length: nat)
    requires at + length <= |text|
  {
    forall j | 0 <= j < length :: SigmaAgrees(casing, text, at, length, j)
  }

  predicate SigmaAgrees(casing: Casing, text: string, at: nat, length: nat, j: nat)
    requires at + length <= |text| && j < length
  {
    text[at + j] == SIGMA ==> IsFinal(casing, text[at..at + length], j) == IsFinal(casing, text, at + j)
  }

  lemma LowerAlone(casing: Casing, text: string, at: nat, length: nat, j: nat)
    requires Valid(casing) && at + length <= |text| && j < length
    requires KeepsLengthBefore(casing, text, at + length)
    ensures var mark := text[at..at + length];
      && |LowerAt(casing, mark, j)| == 1
      && (LowerAt(casing, mark, j) == LowerAt(casing, text, at + j)
          <==> SigmaAgrees(casing, text, at, length, j))
  {
    var mark := text[at..at + length];
    assert mark[j] == text[at + j];
    assert |LowerAt(casing, text, at + j)| == 1;
    assert SMALL_SIGMA[0] != FINAL_SIGMA[0];
  }

  // A mark that stands on what was found, lower-cased by itself, is the needle
  // if and only if none of its capital sigmas ends a word in the one and not in
  // the other.
  lemma MarkLowersToNeedleIff(casing: Casing, text: string, needle: string, at: nat)
    requires Valid(casing) && needle != "" && OccursAt(Lower(casing, text), needle, at)
    requires KeepsLengthBefore(casing, text, at + |needle|) && at + |needle| <= |text|
    ensures Lower(casing, Hit(text, at, |needle|).data) == needle <==> SigmasAgree(casing, text, at, |needle|)
  {
    var n, end := |needle|, at + |needle|;
    var mark := text[at..end];
    assert Hit(text, at, n).data == mark && |mark| == n;
    LowerLength(casing, text, end);
    LowerPrefix(casing, text, end, |text|);
    forall j | 0 <= j < n
      ensures |LowerAt(casing, mark, j)| == 1 && needle[j] == LowerAt(casing, text, at + j)[0]
      ensures LowerAt(casing, mark, j) == LowerAt(casing, text, at + j)
        <==> SigmaAgrees(casing, text, at, n, j)
    {
      LowerAlone(casing, text, at, n, j);
      LowerCharacter(casing, text, end, at + j);
      assert Lower(casing, text)[at + j] == needle[j];
    }
    assert KeepsLengthBefore(casing, mark, n);
    LowerLength(casing, mark, n);
    forall j | 0 <= j < n
      ensures Lower(casing, mark)[j] == LowerAt(casing, mark, j)[0]
    {
      LowerCharacter(casing, mark, n, j);
    }
    SameCharacters(casing, text, needle, at);
  }

  lemma SameCharacters(casing: Casing, text: string, needle: string, at: nat)
    requires at + |needle| <= |text|
    requires var mark := text[at..at + |needle|];
      && |Lower(casing, mark)| == |needle|
      && forall j | 0 <= j < |needle| ::
           && |LowerAt(casing, mark, j)| == 1 && |LowerAt(casing, text, at + j)| == 1
           && Lower(casing, mark)[j] == LowerAt(casing, mark, j)[0]
           && needle[j] == LowerAt(casing, text, at + j)[0]
           && (LowerAt(casing, mark, j) == LowerAt(casing, text, at + j)
               <==> SigmaAgrees(casing, text, at, |needle|, j))
    ensures Lower(casing, text[at..at + |needle|]) == needle <==> SigmasAgree(casing, text, at, |needle|)
  {
    var mark := text[at..at + |needle|];
    forall j | 0 <= j < |needle|
      ensures Lower(casing, mark)[j] == needle[j] <==> LowerAt(casing, mark, j) == LowerAt(casing, text, at + j)
    {
    }
  }

  // --- Two texts where marks go wrong --------------------------------------

  // A capital I with a dot becomes two characters, so the mark for the letter
  // after it is cut behind the text and is empty.
  lemma DottedCapitalMisplacesMark(casing: Casing)
    requires Valid(casing) && casing.fold('\U{0130}') == "i\U{0307}" && casing.fold('x') == "x"
    ensures Replacement("\U{0130}x", Lower(casing, "\U{0130}x"), "x") == [Text("\U{0130}x"), Mark("")]
  {
    var text := "\U{0130}x";
    var lower := Lower(casing, text);
    assert LowerUpTo(casing, text, 0) == "" && LowerUpTo(casing, text, 1) == "i\U{0307}";
    assert lower == "i\U{0307}x";
    assert lower[0] != 'x' && lower[1] != 'x' && lower[2] == 'x';
    assert !OccursAt(lower, "x", 0) && !OccursAt(lower, "x", 1) && OccursAt(lower, "x", 2);
    assert IndexFrom(lower, "x", 2) == 2;
    assert IndexFrom(lower, "x", 1) == 2;
    assert IndexFrom(lower, "x", 0) == 2;
    assert IndexFrom(lower, "x", 3) == -1;
    assert Slice(text, 0, 2) == text && Slice(text, 2, 3) == "";
    assert Pieces(text, lower, "x", 3) == [];
    assert Pieces(text, lower, "x", 0) == [Text(text)] + [Mark("")] + [];
  }

  // Of equal length, yet the mark alone lower-cases to the other small sigma.
  lemma FinalSigmaMarkLowersOtherwise(casing: Casing)
    requires Valid(casing) && casing.fold('\U{0391}') == "\U{03B1}" && casing.cased('\U{0391}')
    ensures var text := "\U{0391}\U{03A3}";
      && Replacement(text, Lower(casing, text), FINAL_SIGMA) == [Text("\U{0391}"), Mark("\U{03A3}")]
      && |Lower(casing, text)| == |text| && Lower(casing, "\U{03A3}") == SMALL_SIGMA
  {
    var text := "\U{0391}\U{03A3}";
    assert LetterBefore(casing, text, 1) && !LetterAfter(casing, text, 2);
    assert LowerUpTo(casing, text, 0) == "" && LowerUpTo(casing, text, 1) == "\U{03B1}";
    var lower := Lower(casing, text);
    assert lower == "\U{03B1}" + FINAL_SIGMA;
    assert lower[0] != FINAL_SIGMA[0] && lower[1] == FINAL_SIGMA[0];
    assert !OccursAt(lower, FINAL_SIGMA, 0) && OccursAt(lower, FINAL_SIGMA, 1);
    assert IndexFrom(lower, FINAL_SIGMA, 1) == 1;
    assert IndexFrom(lower, FINAL_SIGMA, 0) == 1;
    assert IndexFrom(lower, FINAL_SIGMA, 2) == -1;
    assert Slice(text, 0, 1) == "\U{0391}" && Slice(text, 1, 2) == "\U{03A3}";
    assert Pieces(text, lower, FINAL_SIGMA, 2) == [];
    assert Pieces(text, lower, FINAL_SIGMA, 0) == [Text("\U{0391}")] + [Mark("\U{03A3}")] + [];
    assert LowerUpTo(casing, "\U{03A3}", 0) == "";
  }
}

// Find in conversation: wrapping each hit of a text node in a mark, and
// unwrapping every mark again.
module FindMarks {
  import opened TextTree

  predicate OccursAt(lower: string, needle: string, i: nat) {
    i + |needle| <= |lower| && forall j | 0 <= j < |needle| :: lower[i + j] == needle[j]
  }

  // String.indexOf from a position: the first occurrence, or -1.
  function IndexFrom(lower: string, needle: string, from: nat): (i: int)
    ensures i == -1 || (from <= i && i + |needle| <= |lower|)
    decreases |lower| - from
  {
    if from + |needle| > |lower| then -1
    else if OccursAt(lower, needle, from) then from
    else IndexFrom(lower, needle, from + 1)
  }

  lemma {:induction false} IndexFromOccurs(lower: string, needle: string, from: nat)
    ensures IndexFrom(lower, needle, from) >= 0 ==> OccursAt(lower, needle, IndexFrom(lower, needle, from))
    decreases |lower| - from
  {
    if from + |needle| <= |lower| && !OccursAt(lower, needle, from) {
      IndexFromOccurs(lower, needle, from + 1);
    }
  }

  lemma {:induction false} IndexFromIsFirst(lower: string, needle: string, from: nat, at: nat)
    requires from <= at && OccursAt(lower, needle, at)
    ensures 0 <= IndexFrom(lower, needle, from) <= at
    decreases |lower| - from
  {
    if !OccursAt(lower, needle, from) {
      IndexFromIsFirst(lower, needle, from + 1, at);
    }
  }

  // String.slice clamps both ends to the text.
  function Slice(text: string, from: nat, to: nat): string
    requires from <= to
  {
    text[if from < |text| then from else |text|..if to < |text| then to else |text|]
  }

  // The text between the cursor and a hit, if there is any.
  function Gap(text: string, cursor: nat, hit: nat): seq<Node>
    requires cursor <= hit
  {
    if hit > cursor then [Text(Slice(text, cursor, hit))] else []
  }

  function Hit(text: string, at: nat, length: nat): Node {
    Mark(Slice(text, at, at + length))
  }

  // The rest of the text from a cursor on.
  function Tail(text: string, cursor: nat): string {
    if cursor < |text| then text[cursor..] else ""
  }

  function Last(text: string, cursor: nat): seq<Node> {
    if cursor < |text| then [Text(text[cursor..])] else []
  }

  // The nodes that replace a text node, from a cursor on. `lower` is the
  // lower-cased text, whatever its length.
  function Pieces(text: string, lower: string, needle: string, cursor: nat): seq<Node>
    requires needle != ""
    decreases |lower| - cursor
  {
    var i := IndexFrom(lower, needle, cursor);
    if i < 0 then Last(text, cursor)
    else Gap(text, cursor, i) + [Hit(text, i, |needle|)] + Pieces(text, lower, needle, i + |needle|)
  }

  function Replacement(text: string, lower: string, needle: string): seq<Node>
    requires needle != ""
  {
    if IndexFrom(lower, needle, 0) < 0 then [Text(text)] else Pieces(text, lower, needle, 0)
  }

  function AppendHit(text: string, length: nat, fragment: seq<Node>, cursor: nat, index: nat): seq<Node>
    requires cursor <= index
  {
    (if index > cursor then fragment + [Text(Slice(text, cursor, index))] else fragment) + [Hit(text, index, length)]
  }

  function AppendLast(text: string, fragment: seq<Node>, cursor: nat): seq<Node> {
    if cursor < |text| then fragment + [Text(text[cursor..])] else fragment
  }

  // What the loop still makes of the fragment and the count it holds.
  function Finish(text: string, lower: string, needle: string, fragment: seq<Node>, marks: nat, cursor: nat)
    : (seq<Node>, nat)
    requires needle != ""
    decreases |lower| - cursor
  {
    var index := IndexFrom(lower, needle, cursor);
    if index < 0 then
      (if marks == 0 then [Text(text)] else AppendLast(text, fragment, cursor), marks)
    else
      Finish(text, lower, needle, AppendHit(text, |needle|, fragment, cursor, index), marks + 1, index + |needle|)
  }

  lemma {:induction false} FinishIsReplacement(
    text: string, lower: string, needle: string, fragment: seq<Node>, marks: nat, cursor: nat)
    requires needle != ""
    ensures var (pieces, count) := Finish(text, lower, needle, fragment, marks, cursor);
      && count == marks + MarkCount(lower, needle, cursor)
      && pieces == if count == 0 then [Text(text)] else fragment + Pieces(text, lower, needle, cursor)
    decreases |lower| - cursor
  {
    var index := IndexFrom(lower, needle, cursor);
    if index >= 0 {
      var gap, hit, after := Gap(text, cursor, index), Hit(text, index, |needle|), index + |needle|;
      var more := Pieces(text, lower, needle, after);
      FinishIsReplacement(text, lower, needle, AppendHit(text, |needle|, fragment, cursor, index), marks + 1, after);
      assert fragment + [] == fragment;
      Regroup(fragment, gap, hit, more);
    } else {
      assert fragment + [] == fragment;
    }
  }

  lemma Regroup(done: seq<Node>, gap: seq<Node>, hit: Node, more: seq<Node>)
    ensures done + (gap + [hit] + more) == (done + gap + [hit]) + more
  {
  }

  // The greedy loop over one text node: the nodes that stand in its place, and
  // how many marks are among them.
  method MarkTextNode(text: string, lower: string, needle: string)
    returns (fragment: seq<Node>, marks: nat)
    requires needle != ""
    ensures fragment == Replacement(text, lower, needle)
    ensures marks == MarkCount(lower, needle, 0)
  {
    fragment, marks := RunMarkLoop(text, lower, needle);
    FinishIsReplacement(text, lower, needle, [], 0, 0);
    assert [] + Pieces(text, lower, needle, 0) == Pieces(text, lower, needle, 0);
  }

  method RunMarkLoop(text: string, lower: string, needle: string)
    returns (fragment: seq<Node>, marks: nat)
    requires needle != ""
    ensures (fragment, marks) == Finish(text, lower, needle, [], 0, 0)
  {
    fragment, marks := [], 0;
    var cursor := 0;
    var index := IndexFrom(lower, needle, 0);
    while index >= 0
      invariant index == IndexFrom(lower, needle, cursor)
      invariant Finish(text, lower, needle, fragment, marks, cursor) == Finish(text, lower, needle, [], 0, 0)
      decreases |lower| - cursor
    {
      if index > cursor {
        fragment := fragment + [Text(Slice(text, cursor, index))];
      }
      fragment := fragment + [Hit(text, index, |needle|)];
      marks := marks + 1;
      cursor := index + |needle|;
      index := IndexFrom(lower, needle, cursor);
    }
    if marks == 0 {
      fragment := [Text(text)];
    } else if cursor < |text| {
      fragment := fragment + [Text(text[cursor..])];
    }
  }

  lemma {:induction false} CountAppend(a: seq<Node>, b: seq<Node>)
    ensures CountMarks(a + b) == CountMarks(a) + CountMarks(b)
  {
    if a == [] {
      assert a + b == b;
    } else {
      assert (a + b)[1..] == a[1..] + b;
      CountAppend(a[1..], b);
    }
  }

  // --- Lossless ------------------------------------------------------------

  lemma TailSplits(text: string, a: nat, b: nat)
    requires a <= b
    ensures Tail(text, a) == Slice(text, a, b) + Tail(text, b)
  {
  }

  lemma ContentOne(node: Node, rest: seq<Node>)
    requires !node.Element?
    ensures Content([node] + rest) == node.data + Content(rest)
  {
    assert ([node] + rest)[1..] == rest;
    var texts := NodeTexts(node);
    assert TextNodes([node] + rest) == texts + TextNodes(rest);
    ConcatAppend(texts, TextNodes(rest));
    if texts != [] {
      assert texts[1..] == [];
    }
  }

  lemma GapContent(text: string, cursor: nat, at: nat, length: nat, rest: seq<Node>)
    requires cursor <= at
    ensures Content(Gap(text, cursor, at) + [Hit(text, at, length)] + rest)
         == Slice(text, cursor, at + length) + Content(rest)
  {
    var hit := Hit(text, at, length);
    ContentOne(hit, rest);
    if at > cursor {
      var head := Slice(text, cursor, at);
      ContentOne(Text(head), [hit] + rest);
      assert [Text(head)] + [hit] + rest == [Text(head)] + ([hit] + rest);
      assert head + (hit.data + Content(rest)) == (head + hit.data) + Content(rest);
      assert head + hit.data == Slice(text, cursor, at + length);
    } else {
      assert [] + [hit] + rest == [hit] + rest;
    }
  }

  // Whatever lower-casing did to the text, even to its length, the pieces
  // concatenate to the text.
  lemma {:induction false} PiecesConcatenate(text: string, lower: string, needle: string, cursor: nat)
    requires needle != ""
    ensures Content(Pieces(text, lower, needle, cursor)) == Tail(text, cursor)
    decreases |lower| - cursor
  {
    var i := IndexFrom(lower, needle, cursor);
    if i < 0 {
      ContentOne(Text(Tail(text, cursor)), []);
      assert [Text(Tail(text, cursor))] + [] == [Text(Tail(text, cursor))];
    } else {
      var after := i + |needle|;
      var rest := Pieces(text, lower, needle, after);
      PiecesConcatenate(text, lower, needle, after);
      GapContent(text, cursor, i, |needle|, rest);
      TailSplits(text, cursor, after);
    }
  }

  lemma ReplacementIsLossless(text: string, lower: string, needle: string)
    requires needle != ""
    ensures Content(Replacement(text, lower, needle)) == text
  {
    PiecesConcatenate(text, lower, needle, 0);
    ContentOne(Text(text), []);
    assert [Text(text)] + [] == [Text(text)];
  }

  // --- Exact marks ---------------------------------------------------------

  // Character-by-character lower-casing, the kind that keeps positions.
  predicate Lowers(fold: char -> char, text: string, lower: string) {
    |lower| == |text| && forall i | 0 <= i < |text| :: lower[i] == fold(text[i])
  }

  lemma HitLowers(fold: char -> char, text: string, lower: string, needle: string, i: nat)
    requires Lowers(fold, text, lower) && OccursAt(lower, needle, i)
    ensures Lowers(fold, Hit(text, i, |needle|).data, needle)
  {
    var hit := text[i..i + |needle|];
    forall j | 0 <= j < |needle|
      ensures needle[j] == fold(hit[j])
    {
      assert lower[i..i + |needle|][j] == lower[i + j];
    }
  }

  lemma MarkAmong(gap: seq<Node>, hit: Node, more: seq<Node>, node: Node)
    requires node in gap + [hit] + more && node.Mark?
    requires forall n | n in gap :: n.Text?
    ensures node == hit || node in more
  {
  }

  // Lower-cased character by character, every mark lower-cases to the needle.
  lemma {:induction false} MarksAreHits(
    fold: char -> char, text: string, lower: string, needle: string, cursor: nat, node: Node)
    requires needle != "" && Lowers(fold, text, lower)
    requires node in Pieces(text, lower, needle, cursor) && node.Mark?
    ensures Lowers(fold, node.data, needle)
    decreases |lower| - cursor
  {
    var i := IndexFrom(lower, needle, cursor);
    if i >= 0 {
      var more := Pieces(text, lower, needle, i + |needle|);
      MarkAmong(Gap(text, cursor, i), Hit(text, i, |needle|), more, node);
      if node in more {
        MarksAreHits(fold, text, lower, needle, i + |needle|, node);
      } else {
        IndexFromOccurs(lower, needle, cursor);
        HitLowers(fold, text, lower, needle, i);
      }
    }
  }

  // --- Maximal -------------------------------------------------------------

  function MarkCount(lower: string, needle: string, cursor: nat): nat
    requires needle != ""
    decreases |lower| - cursor
  {
    var i := IndexFrom(lower, needle, cursor);
    if i < 0 then 0 else 1 + MarkCount(lower, needle, i + |needle|)
  }

  lemma {:induction false} PiecesCount(text: string, lower: string, needle: string, cursor: nat)
    requires needle != ""
    ensures CountMarks(Pieces(text, lower, needle, cursor)) == MarkCount(lower, needle, cursor)
    decreases |lower| - cursor
  {
    var i := IndexFrom(lower, needle, cursor);
    if i >= 0 {
      var rest := Pieces(text, lower, needle, i + |needle|);
      PiecesCount(text, lower, needle, i + |needle|);
      assert ([Hit(text, i, |needle|)] + rest)[1..] == rest;
      assert Gap(text, cursor, i) + [Hit(text, i, |needle|)] + rest
          == Gap(text, cursor, i) + ([Hit(text, i, |needle|)] + rest);
      CountAppend(Gap(text, cursor, i), [Hit(text, i, |needle|)] + rest);
      assert CountMarks(Gap(text, cursor, i)) == 0;
    }
  }

  // Positions of pairwise disjoint occurrences, none before `cursor`.
  predicate DisjointHits(lower: string, needle: string, cursor: nat, hits: set<nat>) {
    && (forall p | p in hits :: cursor <= p && OccursAt(lower, needle, p))
    && (forall p, q | p in hits && q in hits && p < q :: p + |needle| <= q)
  }

  lemma {:induction false} Least(hits: set<nat>) returns (least: nat)
    requires hits != {}
    ensures least in hits && forall p | p in hits :: least <= p
    decreases hits
  {
    var any :| any in hits;
    var others := hits - {any};
    least := any;
    if others != {} {
      var other := Least(others);
      if other < any {
        least := other;
      }
    }
    assert forall p | p in hits :: p == any || p in others;
  }

  // No choice of pairwise disjoint occurrences has more of them than marks.
  lemma {:induction false} GreedyIsMaximal(lower: string, needle: string, cursor: nat, hits: set<nat>)
    requires needle != "" && DisjointHits(lower, needle, cursor, hits)
    ensures |hits| <= MarkCount(lower, needle, cursor)
    decreases |lower| - cursor
  {
    if hits != {} {
      var first := Least(hits);
      IndexFromIsFirst(lower, needle, cursor, first);
      var i := IndexFrom(lower, needle, cursor);
      var others := hits - {first};
      forall p | p in others
        ensures i + |needle| <= p
      {
        assert first < p;
      }
      GreedyIsMaximal(lower, needle, i + |needle|, others);
    }
  }

  function MarkStarts(lower: string, needle: string, cursor: nat): set<nat>
    requires needle != ""
    decreases |lower| - cursor
  {
    var i := IndexFrom(lower, needle, cursor);
    if i < 0 then {} else {i} + MarkStarts(lower, needle, i + |needle|)
  }

  lemma {:induction false} MarksAreDisjointHits(lower: string, needle: string, cursor: nat)
    requires needle != ""
    ensures DisjointHits(lower, needle, cursor, MarkStarts(lower, needle, cursor))
    ensures |MarkStarts(lower, needle, cursor)| == MarkCount(lower, needle, cursor)
    decreases |lower| - cursor
  {
    var i := IndexFrom(lower, needle, cursor);
    if i >= 0 {
      var after := i + |needle|;
      MarksAreDisjointHits(lower, needle, after);
      OneMoreMark(lower, needle, cursor, i, after);
    }
  }

  lemma OneMoreMark(lower: string, needle: string, cursor: nat, i: nat, after: nat)
    requires needle != "" && i == IndexFrom(lower, needle, cursor) && after == i + |needle|
    requires DisjointHits(lower, needle, after, MarkStarts(lower, needle, after))
    requires |MarkStarts(lower, needle, after)| == MarkCount(lower, needle, after)
    ensures DisjointHits(lower, needle, cursor, MarkStarts(lower, needle, cursor))
    ensures |MarkStarts(lower, needle, cursor)| == MarkCount(lower, needle, cursor)
  {
    IndexFromOccurs(lower, needle, cursor);
    OneMoreHit(lower, needle, cursor, i, MarkStarts(lower, needle, after));
  }

  lemma OneMoreHit(lower: string, needle: string, cursor: nat, i: nat, later: set<nat>)
    requires needle != "" && cursor <= i && OccursAt(lower, needle, i)
    requires DisjointHits(lower, needle, i + |needle|, later)
    ensures DisjointHits(lower, needle, cursor, {i} + later)
    ensures |{i} + later| == 1 + |later|
  {
    assert i !in later;
  }

  // The marks are as many as any pairwise disjoint occurrences can be, and as
  // many as some are: exactly the maximum.
  lemma MarkingIsMaximal(text: string, lower: string, needle: string, hits: set<nat>)
    requires needle != "" && DisjointHits(lower, needle, 0, hits)
    ensures |hits| <= CountMarks(Replacement(text, lower, needle))
    ensures exists best :: DisjointHits(lower, needle, 0, best)
                           && |best| == CountMarks(Replacement(text, lower, needle))
  {
    GreedyIsMaximal(lower, needle, 0, hits);
    PiecesCount(text, lower, needle, 0);
    MarksAreDisjointHits(lower, needle, 0);
    assert DisjointHits(lower, needle, 0, MarkStarts(lower, needle, 0));
    if IndexFrom(lower, needle, 0) < 0 {
      assert CountMarks([Text(text)]) == 0;
    }
  }

  // --- The whole tree ------------------------------------------------------

  // Every text node outside a code block, with its own lower-casing.
  function MarkAll(lower: string -> string, needle: string, nodes: seq<Node>): seq<Node>
    requires needle != ""
  {
    if nodes == [] then []
    else
      (match nodes[0]
       case Text(s) => Replacement(s, lower(s), needle)
       case Mark(s) => [Mark(s)]
       case Element(name, children) =>
         [Element(name, if name == "pre" then children else MarkAll(lower, needle, children))])
      + MarkAll(lower, needle, nodes[1..])
  }

  // The hits in every text node that stands in no code block.
  function HitsIn(lower: string -> string, needle: string, nodes: seq<Node>): nat
    requires needle != ""
  {
    if nodes == [] then 0
    else
      (match nodes[0]
       case Text(s) => MarkCount(lower(s), needle, 0)
       case Mark(_) => 0
       case Element(name, children) => if name == "pre" then 0 else HitsIn(lower, needle, children))
      + HitsIn(lower, needle, nodes[1..])
  }

  lemma ReplacementCount(text: string, lower: string, needle: string)
    requires needle != ""
    ensures CountMarks(Replacement(text, lower, needle)) == MarkCount(lower, needle, 0)
  {
    PiecesCount(text, lower, needle, 0);
    if IndexFrom(lower, needle, 0) < 0 {
      assert [Text(text)][1..] == [];
    }
  }

  // Every hit outside a code block is marked, and nothing else is: the marks of a
  // tree grow by exactly the hits, as many as fit, of those text nodes.
  lemma {:induction false} AllHitsAreMarked(lower: string -> string, needle: string, nodes: seq<Node>)
    requires needle != ""
    ensures CountMarks(MarkAll(lower, needle, nodes)) == CountMarks(nodes) + HitsIn(lower, needle, nodes)
  {
    if nodes != [] {
      var rest := MarkAll(lower, needle, nodes[1..]);
      AllHitsAreMarked(lower, needle, nodes[1..]);
      match nodes[0]
      case Text(s) =>
        ReplacementCount(s, lower(s), needle);
        CountAppend(Replacement(s, lower(s), needle), rest);
      case Mark(s) =>
        CountAppend([Mark(s)], rest);
        CountOne(Mark(s));
      case Element(name, children) =>
        if name != "pre" {
          AllHitsAreMarked(lower, needle, children);
        }
        var child := Element(name, if name == "pre" then children else MarkAll(lower, needle, children));
        CountAppend([child], rest);
        CountOne(child);
    }
  }

  lemma CountOne(node: Node)
    ensures CountMarks([node]) ==
      if node.Mark? then 1 else if node.Element? then CountMarks(node.children) else 0
  {
    assert [node][1..] == [];
  }

  lemma StripGap(text: string, cursor: nat, i: nat, length: nat, tail: seq<Node>)
    requires cursor <= i
    ensures Strip(Gap(text, cursor, i) + ([Hit(text, i, length)] + tail))
         == Join(Text(Slice(text, cursor, i + length)), Strip(tail))
  {
    var hit := Hit(text, i, length);
    StripIsPlain(tail);
    assert ([hit] + tail)[1..] == tail;
    if i > cursor {
      var head := Slice(text, cursor, i);
      assert ([Text(head)] + ([hit] + tail))[1..] == [hit] + tail;
      JoinTwice(head, hit.data, Strip(tail));
      assert Slice(text, cursor, i + length) == head + hit.data;
    } else {
      assert Gap(text, cursor, i) + ([hit] + tail) == [hit] + tail;
    }
  }

  lemma StripHit(text: string, cursor: nat, i: nat, length: nat, pieces: seq<Node>, rest: seq<Node>)
    requires cursor <= i
    requires Strip(pieces + rest) == Join(Text(Tail(text, i + length)), Strip(rest))
    ensures Strip(Gap(text, cursor, i) + [Hit(text, i, length)] + pieces + rest)
         == Join(Text(Tail(text, cursor)), Strip(rest))
  {
    var hit := Hit(text, i, length);
    var gap := Gap(text, cursor, i);
    assert gap + [hit] + pieces + rest == gap + ([hit] + (pieces + rest));
    StripGap(text, cursor, i, length, pieces + rest);
    StripIsPlain(rest);
    JoinTwice(Slice(text, cursor, i + length), Tail(text, i + length), Strip(rest));
    TailSplits(text, cursor, i + length);
  }

  lemma StripLast(text: string, cursor: nat, rest: seq<Node>)
    ensures Strip(Last(text, cursor) + rest) == Join(Text(Tail(text, cursor)), Strip(rest))
  {
    if cursor < |text| {
      assert ([Text(text[cursor..])] + rest)[1..] == rest;
    } else {
      assert [] + rest == rest;
    }
  }

  // Underneath the marks, the pieces are the text node they replaced.
  lemma {:induction false} StripPieces(text: string, lower: string, needle: string, cursor: nat, rest: seq<Node>)
    requires needle != ""
    ensures Strip(Pieces(text, lower, needle, cursor) + rest) == Join(Text(Tail(text, cursor)), Strip(rest))
    decreases |lower| - cursor
  {
    var i := IndexFrom(lower, needle, cursor);
    if i < 0 {
      StripLast(text, cursor, rest);
      assert Pieces(text, lower, needle, cursor) == Last(text, cursor);
    } else {
      var more := Pieces(text, lower, needle, i + |needle|);
      StripPieces(text, lower, needle, i + |needle|, rest);
      StripHit(text, cursor, i, |needle|, more, rest);
      assert Pieces(text, lower, needle, cursor) == Gap(text, cursor, i) + [Hit(text, i, |needle|)] + more;
    }
  }

  lemma {:induction false} StripMarkAll(lower: string -> string, needle: string, nodes: seq<Node>)
    requires needle != ""
    ensures Strip(MarkAll(lower, needle, nodes)) == Strip(nodes)
  {
    if nodes != [] {
      var rest := MarkAll(lower, needle, nodes[1..]);
      StripMarkAll(lower, needle, nodes[1..]);
      match nodes[0]
      case Text(s) =>
        if IndexFrom(lower(s), needle, 0) < 0 {
          assert ([Text(s)] + rest)[1..] == rest;
        } else {
          StripPieces(s, lower(s), needle, 0, rest);
          assert Tail(s, 0) == s;
        }
      case Mark(s) => assert ([Mark(s)] + rest)[1..] == rest;
      case Element(name, children) =>
        if name != "pre" {
          StripMarkAll(lower, needle, children);
        }
        var child := Element(name, if name == "pre" then children else MarkAll(lower, needle, children));
        assert ([child] + rest)[1..] == rest;
    }
  }

  // Marking a node leaves it alone, or leaves a direct mark in its place.
  lemma ReplacementMarks(text: string, lower: string, needle: string)
    requires needle != "" && IndexFrom(lower, needle, 0) >= 0
    ensures DirectMark(Replacement(text, lower, needle))
    ensures forall k | 0 <= k < |Replacement(text, lower, needle)| :: !Replacement(text, lower, needle)[k].Element?
  {
    PiecesHaveNoElement(text, lower, needle, 0);
    var i := IndexFrom(lower, needle, 0);
    assert Pieces(text, lower, needle, 0)[|Gap(text, 0, i)|] == Hit(text, i, |needle|);
  }

  lemma {:induction false} PiecesHaveNoElement(text: string, lower: string, needle: string, cursor: nat)
    requires needle != ""
    ensures forall k | 0 <= k < |Pieces(text, lower, needle, cursor)| ::
              !Pieces(text, lower, needle, cursor)[k].Element?
    decreases |lower| - cursor
  {
    var i := IndexFrom(lower, needle, cursor);
    if i >= 0 {
      PiecesHaveNoElement(text, lower, needle, i + |needle|);
    }
  }

  predicate ChildrenTidy(nodes: seq<Node>) {
    forall k | 0 <= k < |nodes| && nodes[k].Element? :: Tidy(nodes[k].children)
  }

  predicate SameShape(a: seq<Node>, b: seq<Node>) {
    |a| == |b| && forall k | 0 <= k < |a| ::
      a[k] == b[k] || (a[k].Element? && b[k].Element?)
  }

  lemma {:induction false} PlainByShape(a: seq<Node>, b: seq<Node>)
    requires SameShape(a, b) && Plain(b)
    ensures Plain(a)
  {
    if a != [] {
      assert forall k | 0 <= k < |a[1..]| :: a[1..][k] == a[k + 1] && b[1..][k] == b[k + 1];
      PlainByShape(a[1..], b[1..]);
    }
  }

  lemma DirectMarkAppend(a: seq<Node>, b: seq<Node>)
    ensures DirectMark(a + b) <==> DirectMark(a) || DirectMark(b)
    ensures ChildrenTidy(a) && ChildrenTidy(b) ==> ChildrenTidy(a + b)
  {
    var c := a + b;
    if DirectMark(a) {
      var k :| 0 <= k < |a| && a[k].Mark?;
      assert c[k].Mark?;
    }
    if DirectMark(b) {
      var k :| 0 <= k < |b| && b[k].Mark?;
      assert c[|a| + k].Mark?;
    }
  }

  // Marking keeps the tree tidy: siblings without a mark of their own are as they were.
  lemma {:induction false} MarkAllShape(lower: string -> string, needle: string, nodes: seq<Node>)
    requires needle != "" && ChildrenTidy(nodes)
    ensures ChildrenTidy(MarkAll(lower, needle, nodes))
    ensures DirectMark(MarkAll(lower, needle, nodes)) || SameShape(MarkAll(lower, needle, nodes), nodes)
    decreases nodes, 0
  {
    if nodes != [] {
      forall k | 0 <= k < |nodes[1..]| && nodes[1..][k].Element?
        ensures Tidy(nodes[1..][k].children)
      {
        assert nodes[1..][k] == nodes[k + 1];
      }
      MarkAllShape(lower, needle, nodes[1..]);
      var rest := MarkAll(lower, needle, nodes[1..]);
      var first := MarkAll(lower, needle, nodes)[..|MarkAll(lower, needle, nodes)| - |rest|];
      match nodes[0]
      case Text(s) =>
        assert first == Replacement(s, lower(s), needle);
        if IndexFrom(lower(s), needle, 0) >= 0 {
          ReplacementMarks(s, lower(s), needle);
        }
      case Mark(s) =>
        assert first == [Mark(s)];
        assert first[0].Mark?;
      case Element(name, children) =>
        if name != "pre" {
          MarkAllTidy(lower, needle, children);
        }
        assert first == [Element(name, if name == "pre" then children else MarkAll(lower, needle, children))];
      DirectMarkAppend(first, rest);
      assert MarkAll(lower, needle, nodes) == first + rest;
    }
  }

  lemma {:induction false} MarkAllTidy(lower: string -> string, needle: string, nodes: seq<Node>)
    requires needle != "" && Tidy(nodes)
    ensures Tidy(MarkAll(lower, needle, nodes))
    decreases nodes, 1
  {
    MarkAllShape(lower, needle, nodes);
    var marked := MarkAll(lower, needle, nodes);
    if !DirectMark(marked) {
      assert forall k | 0 <= k < |nodes| :: !marked[k].Mark?;
      PlainByShape(marked, nodes);
    }
  }

  // --- Clearing ------------------------------------------------------------

  // Whether the first mark below these siblings, in document order, is one of them.
  predicate DirectFirst(nodes: seq<Node>) {
    nodes != [] &&
    (nodes[0].Mark? || (!(nodes[0].Element? && HasMark(nodes[0].children)) && DirectFirst(nodes[1..])))
  }

  function Unwrapped(nodes: seq<Node>): seq<Node> {
    if nodes == [] then []
    else if nodes[0].Mark? then [Text(nodes[0].data)] + nodes[1..]
    else [nodes[0]] + Unwrapped(nodes[1..])
  }

  // The first mark becomes a text node, and its parent is normalised.
  function UnwrapFirst(nodes: seq<Node>): seq<Node>
    requires HasMark(nodes)
    decreases nodes, 1
  {
    if DirectFirst(nodes) then Normalize(Unwrapped(nodes)) else Descend(nodes)
  }

  function Descend(nodes: seq<Node>): seq<Node>
    requires HasMark(nodes) && !DirectFirst(nodes)
    decreases nodes, 0
  {
    if nodes[0].Element? && HasMark(nodes[0].children) then
      [Element(nodes[0].name, UnwrapFirst(nodes[0].children))] + nodes[1..]
    else
      [nodes[0]] + Descend(nodes[1..])
  }

  lemma {:induction false} UnwrappedStrip(nodes: seq<Node>)
    ensures Strip(Unwrapped(nodes)) == Strip(nodes)
    ensures DirectFirst(nodes) ==> CountMarks(Unwrapped(nodes)) + 1 == CountMarks(nodes)
  {
    if nodes != [] {
      UnwrappedStrip(nodes[1..]);
      assert Unwrapped(nodes)[1..] == if nodes[0].Mark? then nodes[1..] else Unwrapped(nodes[1..]);
    }
  }

  lemma {:induction false} NormalizeKeepsMarks(nodes: seq<Node>)
    ensures CountMarks(Normalize(nodes)) == CountMarks(nodes)
  {
    if nodes != [] {
      var rest := Normalize(nodes[1..]);
      NormalizeKeepsMarks(nodes[1..]);
      if nodes[0].Element? {
        NormalizeKeepsMarks(nodes[0].children);
      }
      if nodes[0].Text? {
        if nodes[0].data != "" && rest != [] && rest[0].Text? {
          assert Normalize(nodes)[1..] == rest[1..];
        } else if nodes[0].data != "" {
          assert Normalize(nodes)[1..] == rest;
        }
      } else {
        assert Normalize(nodes)[1..] == rest;
      }
    }
  }

  // Unwrapping one mark leaves what is underneath, and one mark fewer.
  lemma {:induction false} UnwrapFirstStrip(nodes: seq<Node>)
    requires HasMark(nodes)
    ensures Strip(UnwrapFirst(nodes)) == Strip(nodes)
    ensures CountMarks(UnwrapFirst(nodes)) + 1 == CountMarks(nodes)
    decreases nodes, 1
  {
    if DirectFirst(nodes) {
      StripNormalize(Unwrapped(nodes));
      UnwrappedStrip(nodes);
      NormalizeKeepsMarks(Unwrapped(nodes));
    } else {
      DescendStrip(nodes);
    }
  }

  lemma {:induction false} DescendStrip(nodes: seq<Node>)
    requires HasMark(nodes) && !DirectFirst(nodes)
    ensures Strip(Descend(nodes)) == Strip(nodes)
    ensures CountMarks(Descend(nodes)) + 1 == CountMarks(nodes)
    decreases nodes, 0
  {
    if nodes[0].Element? && HasMark(nodes[0].children) {
      UnwrapFirstStrip(nodes[0].children);
      assert Descend(nodes)[1..] == nodes[1..];
    } else {
      DescendStrip(nodes[1..]);
      assert Descend(nodes)[1..] == Descend(nodes[1..]);
    }
  }

  lemma {:induction false} UnwrapFirstTidy(nodes: seq<Node>)
    requires HasMark(nodes) && Tidy(nodes)
    ensures Tidy(UnwrapFirst(nodes))
    decreases nodes, 2
  {
    if DirectFirst(nodes) {
      NormalizeIsNormal(Unwrapped(nodes));
      NormalIsTidy(Normalize(Unwrapped(nodes)));
    } else {
      DescendTidy(nodes);
      var after := Descend(nodes);
      if !DirectMark(after) {
        assert forall k | 0 <= k < |nodes| :: !after[k].Mark?;
        PlainByShape(after, nodes);
      }
    }
  }

  lemma {:induction false} DescendTidy(nodes: seq<Node>)
    requires HasMark(nodes) && !DirectFirst(nodes) && ChildrenTidy(nodes)
    ensures ChildrenTidy(Descend(nodes)) && SameShape(Descend(nodes), nodes)
    decreases nodes, 1
  {
    if nodes[0].Element? && HasMark(nodes[0].children) {
      UnwrapFirstTidy(nodes[0].children);
    } else {
      forall k | 0 <= k < |nodes[1..]| && nodes[1..][k].Element?
        ensures Tidy(nodes[1..][k].children)
      {
        assert nodes[1..][k] == nodes[k + 1];
      }
      DescendTidy(nodes[1..]);
    }
  }

  // Mark after mark, until none is left.
  method ClearFindMarks(marked: seq<Node>) returns (nodes: seq<Node>)
    requires Tidy(marked)
    ensures !HasMark(nodes) && nodes == Strip(marked)
  {
    nodes := marked;
    while HasMark(nodes)
      invariant Tidy(nodes) && Strip(nodes) == Strip(marked)
      decreases CountMarks(nodes)
    {
      UnwrapFirstStrip(nodes);
      UnwrapFirstTidy(nodes);
      nodes := UnwrapFirst(nodes);
    }
    StripOfTidy(nodes);
  }

  // Marking a whole transcript and clearing the marks restores its text nodes,
  // whatever the needle and whatever lower-casing does.
  lemma ClearingRestores(lower: string -> string, needle: string, nodes: seq<Node>)
    requires needle != "" && Normal(nodes) && !HasMark(nodes)
    ensures Tidy(MarkAll(lower, needle, nodes))
    ensures Strip(MarkAll(lower, needle, nodes)) == nodes
  {
    NormalIsTidy(nodes);
    MarkAllTidy(lower, needle, nodes);
    StripMarkAll(lower, needle, nodes);
    StripOfTidy(nodes);
  }

  // Marking changes where the text is cut into nodes, never the text.
  lemma {:induction false} MarkAllKeepsContent(lower: string -> string, needle: string, nodes: seq<Node>)
    requires needle != ""
    ensures Content(MarkAll(lower, needle, nodes)) == Content(nodes)
  {
    if nodes != [] {
      var rest := MarkAll(lower, needle, nodes[1..]);
      MarkAllKeepsContent(lower, needle, nodes[1..]);
      assert [nodes[0]] + nodes[1..] == nodes;
      ContentAppend([nodes[0]], nodes[1..]);
      match nodes[0]
      case Text(s) =>
        MarkedTextKeepsContent(s, lower(s), needle, rest);
      case Mark(s) =>
        ContentAppend([Mark(s)], rest);
      case Element(name, children) =>
        if name != "pre" {
          MarkAllKeepsContent(lower, needle, children);
        }
        MarkedElementKeepsContent(lower, needle, nodes[0], rest);
    }
  }

  lemma MarkedTextKeepsContent(s: string, lower: string, needle: string, rest: seq<Node>)
    requires needle != ""
    ensures Content(Replacement(s, lower, needle) + rest) == Content([Text(s)]) + Content(rest)
  {
    ReplacementIsLossless(s, lower, needle);
    ContentAppend(Replacement(s, lower, needle), rest);
    ContentOne(Text(s), []);
    assert [Text(s)] + [] == [Text(s)];
  }

  lemma MarkedElementKeepsContent(lower: string -> string, needle: string, node: Node, rest: seq<Node>)
    requires needle != "" && node.Element?
    requires node.name != "pre" ==> Content(MarkAll(lower, needle, node.children)) == Content(node.children)
    ensures var child := Element(
        node.name, if node.name == "pre" then node.children else MarkAll(lower, needle, node.children));
      Content([child] + rest) == Content([node]) + Content(rest)
  {
    var child := Element(
      node.name, if node.name == "pre" then node.children else MarkAll(lower, needle, node.children));
    ContentAppend([child], rest);
    ElementContent(child);
    ElementContent(node);
  }

  lemma ElementContent(node: Node)
    requires node.Element?
    ensures Content([node]) == Content(node.children)
  {
    assert TextNodes([node]) == NodeTexts(node) + [];
    assert NodeTexts(node) + [] == NodeTexts(node);
  }
}

// A saved transcript selection: captured as two text offsets, restored into
// whatever text nodes hold the same text later.
module HistorySelection {
  import opened Options
  import opened TextTree
  import FindMarks

  // A place inside the k-th text node.
  datatype Place = Place(node: nat, offset: nat)

  function StartOf(texts: seq<string>, node: nat): nat
    requires node <= |texts|
  {
    |Concat(texts[..node])|
  }

  predicate Inside(texts: seq<string>, p: Place) {
    p.node < |texts| && p.offset <= |texts[p.node]|
  }

  // The length of the text before a place: what a range's string measures.
  function Capture(texts: seq<string>, p: Place): nat
    requires Inside(texts, p)
  {
    StartOf(texts, p.node) + p.offset
  }

  lemma {:induction false} StartOfNext(texts: seq<string>, node: nat)
    requires node < |texts|
    ensures StartOf(texts, node + 1) == StartOf(texts, node) + |texts[node]|
  {
    assert texts[..node + 1] == texts[..node] + [texts[node]];
    ConcatAppend(texts[..node], [texts[node]]);
    assert Concat([texts[node]]) == texts[node] + Concat([texts[node]][1..]);
  }

  // A captured offset counts the text before the place: the whole nodes before
  // it and its own node's text up to it. The next character is the one there.
  lemma CapturedIsTextBefore(texts: seq<string>, p: Place)
    requires Inside(texts, p)
    ensures Capture(texts, p) <= |Concat(texts)|
    ensures Concat(texts)[..Capture(texts, p)] == Concat(texts[..p.node]) + texts[p.node][..p.offset]
    ensures p.offset < |texts[p.node]| ==>
      Capture(texts, p) < |Concat(texts)| && Concat(texts)[Capture(texts, p)] == texts[p.node][p.offset]
  {
    var before, text, after := texts[..p.node], texts[p.node], texts[p.node + 1..];
    assert texts == before + ([text] + after);
    ConcatAppend(before, [text] + after);
    ConcatAppend([text], after);
    assert Concat([text]) == text + Concat([text][1..]);
    assert Concat(texts) == Concat(before) + (text + Concat(after));
  }

  lemma {:induction false} StartsGrow(texts: seq<string>, a: nat, b: nat)
    requires a <= b <= |texts|
    ensures StartOf(texts, a) <= StartOf(texts, b)
    decreases b - a
  {
    if a < b {
      StartOfNext(texts, a);
      StartsGrow(texts, a + 1, b);
    }
  }

  // The first text node that reaches the offset, counting both its ends.
  predicate FirstReaching(texts: seq<string>, at: nat, p: Place) {
    && Inside(texts, p)
    && Capture(texts, p) == at
    && forall k | 0 <= k < p.node :: at > StartOf(texts, k) + |texts[k]|
  }

  // Walk the text nodes with a running offset and stop at the first that reaches `at`.
  method FindPosition(texts: seq<string>, at: nat) returns (found: Option<Place>)
    ensures found.Some? ==> FirstReaching(texts, at, found.value)
    ensures found.Some? <==> texts != [] && at <= |Concat(texts)|
  {
    var offset := 0;
    for k := 0 to |texts|
      invariant offset == StartOf(texts, k)
      invariant forall j | 0 <= j < k :: at > StartOf(texts, j) + |texts[j]|
      invariant k > 0 ==> at > offset
    {
      StartOfNext(texts, k);
      StartsGrow(texts, k + 1, |texts|);
      assert texts[..|texts|] == texts;
      if offset <= at && at <= offset + |texts[k]| {
        return Some(Place(k, at - offset));
      }
      offset := offset + |texts[k]|;
    }
    assert texts[..|texts|] == texts;
    found := None;
  }

  lemma PlacesAreOrdered(texts: seq<string>, a: nat, p: Place, b: nat, q: Place)
    requires a <= b && FirstReaching(texts, a, p) && FirstReaching(texts, b, q)
    ensures p.node < q.node || (p.node == q.node && p.offset <= q.offset)
  {
    assert b == StartOf(texts, q.node) + q.offset && q.offset <= |texts[q.node]|;
  }

  // What is saved with a message: the two ends of the selection.
  datatype Saved = Saved(start: nat, end: nat)

  // Both ends, found in the text as it is cut now; nothing if the message has no text node.
  method RestoreSelection(texts: seq<string>, saved: Saved) returns (range: Option<(Place, Place)>)
    requires saved.start <= saved.end
    ensures range.Some? <==> texts != [] && saved.end <= |Concat(texts)|
    ensures range.Some? ==>
      var (start, end) := range.value;
      && Inside(texts, start) && Capture(texts, start) == saved.start
      && Inside(texts, end) && Capture(texts, end) == saved.end
      && (start.node < end.node || (start.node == end.node && start.offset <= end.offset))
  {
    var start := FindPosition(texts, saved.start);
    var end := FindPosition(texts, saved.end);
    if start.None? || end.None? {
      return None;
    }
    PlacesAreOrdered(texts, saved.start, start.value, saved.end, end.value);
    range := Some((start.value, end.value));
  }

  lemma {:induction false} CaptureWithinText(texts: seq<string>, p: Place)
    requires Inside(texts, p)
    ensures Capture(texts, p) <= |Concat(texts)|
  {
    StartOfNext(texts, p.node);
    StartsGrow(texts, p.node + 1, |texts|);
    assert texts[..|texts|] == texts;
  }

  // A place exists for every captured offset, and there is only one the walk can find.
  lemma {:induction false} PlaceExists(texts: seq<string>, at: nat, from: nat) returns (p: Place)
    requires from < |texts| && StartOf(texts, from) <= at <= |Concat(texts)|
    requires forall k | 0 <= k < from :: at > StartOf(texts, k) + |texts[k]|
    ensures FirstReaching(texts, at, p)
    decreases |texts| - from
  {
    StartOfNext(texts, from);
    if at <= StartOf(texts, from) + |texts[from]| {
      p := Place(from, at - StartOf(texts, from));
    } else {
      assert texts[..|texts|] == texts;
      p := PlaceExists(texts, at, from + 1);
    }
  }

  // A selection captured in one cutting of a text and restored in another
  // runs between the same two offsets, in order, each end inside its node.
  lemma SelectionSurvivesResplitting(before: seq<string>, after: seq<string>, start: Place, end: Place)
    returns (newStart: Place, newEnd: Place)
    requires Concat(before) == Concat(after) && after != []
    requires Inside(before, start) && Inside(before, end)
    requires Capture(before, start) <= Capture(before, end)
    ensures FirstReaching(after, Capture(before, start), newStart)
    ensures FirstReaching(after, Capture(before, end), newEnd)
    ensures newStart.node < newEnd.node || (newStart.node == newEnd.node && newStart.offset <= newEnd.offset)
  {
    CaptureWithinText(before, start);
    CaptureWithinText(before, end);
    assert after[..0] == [];
    newStart := PlaceExists(after, Capture(before, start), 0);
    newEnd := PlaceExists(after, Capture(before, end), 0);
    PlacesAreOrdered(after, Capture(before, start), newStart, Capture(before, end), newEnd);
  }

  // In particular across find marks: marking the transcript between capture
  // and restore moves the nodes but not the selection.
  lemma SelectionSurvivesMarking(
    lower: string -> string, needle: string, nodes: seq<Node>, start: Place, end: Place)
    returns (newStart: Place, newEnd: Place)
    requires needle != ""
    requires var before, after := TextNodes(nodes), TextNodes(FindMarks.MarkAll(lower, needle, nodes));
      && Inside(before, start) && Inside(before, end)
      && Capture(before, start) <= Capture(before, end) && after != []
    ensures var before, after := TextNodes(nodes), TextNodes(FindMarks.MarkAll(lower, needle, nodes));
      && FirstReaching(after, Capture(before, start), newStart)
      && FirstReaching(after, Capture(before, end), newEnd)
  {
    FindMarks.MarkAllKeepsContent(lower, needle, nodes);
    newStart, newEnd := SelectionSurvivesResplitting(
      TextNodes(nodes), TextNodes(FindMarks.MarkAll(lower, needle, nodes)), start, end);
  }
}

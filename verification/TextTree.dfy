// The part of a document tree that find marks and selections see: text nodes,
// the marks wrapped around hits, and the elements that hold them.
module TextTree {

  datatype Node =
    | Text(data: string)
    | Mark(data: string)
    | Element(name: string, children: seq<Node>)

  function Concat(texts: seq<string>): string {
    if texts == [] then "" else texts[0] + Concat(texts[1..])
  }

  lemma {:induction false} ConcatAppend(a: seq<string>, b: seq<string>)
    ensures Concat(a + b) == Concat(a) + Concat(b)
  {
    if a == [] {
      assert a + b == b;
    } else {
      assert (a + b)[1..] == a[1..] + b;
      ConcatAppend(a[1..], b);
    }
  }

  // The text nodes below these siblings, in document order; an empty mark holds none.
  function TextNodes(nodes: seq<Node>): seq<string> {
    if nodes == [] then [] else NodeTexts(nodes[0]) + TextNodes(nodes[1..])
  }

  function NodeTexts(node: Node): seq<string> {
    match node
    case Text(s) => [s]
    case Mark(s) => if s == "" then [] else [s]
    case Element(_, children) => TextNodes(children)
  }

  function Content(nodes: seq<Node>): string {
    Concat(TextNodes(nodes))
  }

  lemma {:induction false} TextNodesAppend(a: seq<Node>, b: seq<Node>)
    ensures TextNodes(a + b) == TextNodes(a) + TextNodes(b)
  {
    if a == [] {
      assert a + b == b;
    } else {
      assert (a + b)[1..] == a[1..] + b;
      TextNodesAppend(a[1..], b);
      assert NodeTexts(a[0]) + (TextNodes(a[1..]) + TextNodes(b)) == TextNodes(a) + TextNodes(b);
    }
  }

  lemma ContentAppend(a: seq<Node>, b: seq<Node>)
    ensures Content(a + b) == Content(a) + Content(b)
  {
    TextNodesAppend(a, b);
    ConcatAppend(TextNodes(a), TextNodes(b));
  }

  // --- Normalisation -------------------------------------------------------

  // Put a node before normalised siblings: empty text vanishes, adjacent texts join.
  function Join(node: Node, rest: seq<Node>): seq<Node> {
    if node == Text("") then rest
    else if node.Text? && rest != [] && rest[0].Text? then [Text(node.data + rest[0].data)] + rest[1..]
    else [node] + rest
  }

  // Node.normalize(), on siblings and everything below them.
  function Normalize(nodes: seq<Node>): seq<Node> {
    if nodes == [] then []
    else
      var first := nodes[0];
      Join(if first.Element? then Element(first.name, Normalize(first.children)) else first,
           Normalize(nodes[1..]))
  }

  // The same with every mark read as the text it wraps: what the tree is
  // underneath its marks.
  function Strip(nodes: seq<Node>): seq<Node> {
    if nodes == [] then []
    else
      Join(match nodes[0]
           case Text(s) => Text(s)
           case Mark(s) => Text(s)
           case Element(name, children) => Element(name, Strip(children)),
           Strip(nodes[1..]))
  }

  predicate HasMark(nodes: seq<Node>) {
    nodes != [] &&
    (nodes[0].Mark? || (nodes[0].Element? && HasMark(nodes[0].children)) || HasMark(nodes[1..]))
  }

  function CountMarks(nodes: seq<Node>): nat {
    if nodes == [] then 0
    else
      (match nodes[0]
       case Text(_) => 0
       case Mark(_) => 1
       case Element(_, children) => CountMarks(children)) + CountMarks(nodes[1..])
  }

  predicate DirectMark(nodes: seq<Node>) {
    exists k | 0 <= k < |nodes| :: nodes[k].Mark?
  }

  // No empty text and no two adjacent texts among these siblings.
  predicate Plain(nodes: seq<Node>) {
    nodes == [] ||
    (&& nodes[0] != Text("")
     && (|nodes| > 1 ==> !(nodes[0].Text? && nodes[1].Text?))
     && Plain(nodes[1..]))
  }

  // Plain here and in every element below.
  predicate Normal(nodes: seq<Node>) {
    Plain(nodes) && forall k | 0 <= k < |nodes| && nodes[k].Element? :: Normal(nodes[k].children)
  }

  // Normal, except where marks split the siblings.
  predicate Tidy(nodes: seq<Node>) {
    && (DirectMark(nodes) || Plain(nodes))
    && forall k | 0 <= k < |nodes| && nodes[k].Element? :: Tidy(nodes[k].children)
  }

  lemma JoinPlain(node: Node, rest: seq<Node>)
    requires Plain(rest)
    ensures Plain(Join(node, rest))
  {
  }

  lemma {:induction false} NormalizeIsNormal(nodes: seq<Node>)
    ensures Normal(Normalize(nodes))
  {
    if nodes != [] {
      NormalizeIsNormal(nodes[1..]);
      if nodes[0].Element? {
        NormalizeIsNormal(nodes[0].children);
      }
      var first := if nodes[0].Element? then Element(nodes[0].name, Normalize(nodes[0].children)) else nodes[0];
      JoinPlain(first, Normalize(nodes[1..]));
      JoinNormal(first, Normalize(nodes[1..]));
    }
  }

  lemma JoinNormal(node: Node, rest: seq<Node>)
    requires Normal(rest) && (node.Element? ==> Normal(node.children))
    ensures Normal(Join(node, rest))
  {
    JoinPlain(node, rest);
    var joined := Join(node, rest);
    forall k | 0 <= k < |joined| && joined[k].Element?
      ensures Normal(joined[k].children)
    {
      if joined[k] != node {
        assert joined[k] in rest;
      }
    }
  }

  lemma {:induction false} NormalIsTidy(nodes: seq<Node>)
    requires Normal(nodes)
    ensures Tidy(nodes)
  {
    forall k | 0 <= k < |nodes| && nodes[k].Element?
      ensures Tidy(nodes[k].children)
    {
      NormalIsTidy(nodes[k].children);
    }
  }

  lemma JoinText(a: string, c: string, tail: seq<Node>)
    requires a != ""
    ensures Join(Text(a), [Text(c)] + tail) == [Text(a + c)] + tail
  {
    assert ([Text(c)] + tail)[1..] == tail;
  }

  // Joining two texts before the same siblings joins them with each other.
  lemma JoinTwice(a: string, b: string, rest: seq<Node>)
    requires Plain(rest)
    ensures Join(Text(a), Join(Text(b), rest)) == Join(Text(a + b), rest)
  {
    if a == "" {
      assert a + b == b;
    } else if b == "" {
      assert a + b == a;
    } else if rest != [] && rest[0].Text? {
      var c := rest[0].data;
      assert (a + b) + c == a + (b + c);
      JoinText(a, b + c, rest[1..]);
    } else {
      JoinText(a, b, rest);
    }
  }

  lemma {:induction false} StripIsPlain(nodes: seq<Node>)
    ensures Plain(Strip(nodes))
  {
    if nodes != [] {
      StripIsPlain(nodes[1..]);
      JoinPlain(match nodes[0]
                case Text(s) => Text(s)
                case Mark(s) => Text(s)
                case Element(name, children) => Element(name, Strip(children)),
                Strip(nodes[1..]));
    }
  }

  // Normalising changes nothing underneath the marks.
  lemma {:induction false} StripNormalize(nodes: seq<Node>)
    ensures Strip(Normalize(nodes)) == Strip(nodes)
  {
    if nodes != [] {
      var rest := Normalize(nodes[1..]);
      StripNormalize(nodes[1..]);
      if nodes[0].Element? {
        StripNormalize(nodes[0].children);
        assert Normalize(nodes)[1..] == rest;
      } else if nodes[0].Text? {
        StripJoinText(nodes[0].data, rest);
      } else {
        assert Normalize(nodes)[1..] == rest;
      }
    }
  }

  lemma StripJoinText(s: string, rest: seq<Node>)
    ensures Strip(Join(Text(s), rest)) == Join(Text(s), Strip(rest))
  {
    StripIsPlain(rest);
    if s != "" {
      if rest != [] && rest[0].Text? {
        StripIsPlain(rest[1..]);
        JoinTwice(s, rest[0].data, Strip(rest[1..]));
        assert ([Text(s + rest[0].data)] + rest[1..])[1..] == rest[1..];
      } else {
        assert ([Text(s)] + rest)[1..] == rest;
      }
    }
  }

  // A tree with no marks and nothing to normalise is what it is underneath.
  lemma {:induction false} StripOfTidy(nodes: seq<Node>)
    requires Tidy(nodes) && !HasMark(nodes)
    ensures Strip(nodes) == nodes
    decreases nodes, 1
  {
    NoDirectMark(nodes);
    StripOfPlain(nodes);
  }

  lemma {:induction false} NoDirectMark(nodes: seq<Node>)
    requires !HasMark(nodes)
    ensures !DirectMark(nodes)
    ensures forall k | 0 <= k < |nodes| && nodes[k].Element? :: !HasMark(nodes[k].children)
  {
    if nodes != [] {
      NoDirectMark(nodes[1..]);
      assert forall k | 1 <= k < |nodes| :: nodes[k] == nodes[1..][k - 1];
    }
  }

  lemma {:induction false} StripOfPlain(nodes: seq<Node>)
    requires Plain(nodes) && !HasMark(nodes)
    requires forall k | 0 <= k < |nodes| && nodes[k].Element? :: Tidy(nodes[k].children)
    ensures Strip(nodes) == nodes
    decreases nodes, 0
  {
    if nodes != [] {
      forall k | 0 <= k < |nodes[1..]| && nodes[1..][k].Element?
        ensures Tidy(nodes[1..][k].children)
      {
        assert nodes[1..][k] == nodes[k + 1];
      }
      StripOfPlain(nodes[1..]);
      if nodes[0].Element? {
        StripOfTidy(nodes[0].children);
      }
      assert [nodes[0]] + nodes[1..] == nodes;
    }
  }
}

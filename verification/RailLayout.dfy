// How a flex container lays its children out: by CSS `order`, and by document
// position where orders are equal.
module RailLayout {

  datatype Box<T> = Box(item: T, order: int)

  function Insert<T>(b: Box<T>, sorted: seq<Box<T>>): seq<Box<T>> {
    if sorted == [] || b.order <= sorted[0].order then [b] + sorted
    else [sorted[0]] + Insert(b, sorted[1..])
  }

  // A stable sort by order.
  function Layout<T>(boxes: seq<Box<T>>): seq<Box<T>> {
    if boxes == [] then [] else Insert(boxes[0], Layout(boxes[1..]))
  }

  function At<T>(boxes: seq<Box<T>>, order: int): seq<Box<T>> {
    if boxes == [] then []
    else (if boxes[0].order == order then [boxes[0]] else []) + At(boxes[1..], order)
  }

  // The boxes of each order below `limit`, order by order, in document position.
  function Below<T>(boxes: seq<Box<T>>, limit: nat): seq<Box<T>> {
    if limit == 0 then [] else Below(boxes, limit - 1) + At(boxes, limit - 1)
  }

  lemma {:induction false} InsertBefore<T>(b: Box<T>, a: seq<Box<T>>, c: seq<Box<T>>)
    requires forall k | 0 <= k < |a| :: a[k].order < b.order
    ensures Insert(b, a + c) == a + Insert(b, c)
  {
    if a == [] {
      assert a + c == c;
    } else {
      assert (a + c)[1..] == a[1..] + c;
      InsertBefore(b, a[1..], c);
      assert [a[0]] + (a[1..] + Insert(b, c)) == a + Insert(b, c);
    }
  }

  lemma {:induction false} AtOrders<T>(boxes: seq<Box<T>>, order: int)
    ensures forall k | 0 <= k < |At(boxes, order)| :: At(boxes, order)[k].order == order
  {
    if boxes != [] {
      AtOrders(boxes[1..], order);
    }
  }

  lemma {:induction false} BelowOrders<T>(boxes: seq<Box<T>>, limit: nat)
    ensures forall k | 0 <= k < |Below(boxes, limit)| :: Below(boxes, limit)[k].order < limit
  {
    if limit > 0 {
      BelowOrders(boxes, limit - 1);
      AtOrders(boxes, limit - 1);
    }
  }

  lemma AtFront<T>(b: Box<T>, rest: seq<Box<T>>, order: int)
    ensures At([b] + rest, order) == (if b.order == order then [b] else []) + At(rest, order)
  {
    assert ([b] + rest)[1..] == rest;
  }

  lemma {:induction false} AtAppend<T>(a: seq<Box<T>>, b: seq<Box<T>>, order: int)
    ensures At(a + b, order) == At(a, order) + At(b, order)
  {
    if a == [] {
      assert a + b == b;
    } else {
      AtAppend(a[1..], b, order);
      AtAppendFront(a[0], a[1..], b, order);
      assert [a[0]] + a[1..] == a;
    }
  }

  lemma AtAppendFront<T>(first: Box<T>, a: seq<Box<T>>, b: seq<Box<T>>, order: int)
    requires At(a + b, order) == At(a, order) + At(b, order)
    ensures At(([first] + a) + b, order) == At([first] + a, order) + At(b, order)
  {
    AtFront(first, a, order);
    AtFront(first, a + b, order);
    assert ([first] + a) + b == [first] + (a + b);
  }

  lemma InsertFront<T>(b: Box<T>, rest: seq<Box<T>>)
    requires forall k | 0 <= k < |rest| :: b.order <= rest[k].order
    ensures Insert(b, rest) == [b] + rest
  {
  }

  lemma {:induction false} InsertBelow<T>(b: Box<T>, rest: seq<Box<T>>, limit: nat)
    requires 0 <= b.order < limit
    ensures Insert(b, Below(rest, limit)) == Below([b] + rest, limit)
  {
    AtFront(b, rest, limit - 1);
    AtOrders(rest, limit - 1);
    if b.order == limit - 1 {
      InsertAtTop(b, rest, limit - 1);
    } else {
      InsertBelow(b, rest, limit - 1);
      InsertLeft(b, Below(rest, limit - 1), At(rest, limit - 1));
      assert [] + At(rest, limit - 1) == At(rest, limit - 1);
    }
  }

  lemma InsertAtTop<T>(b: Box<T>, rest: seq<Box<T>>, top: nat)
    requires b.order == top
    ensures Insert(b, Below(rest, top) + At(rest, top)) == Below([b] + rest, top) + ([b] + At(rest, top))
  {
    BelowOrders(rest, top);
    AtOrders(rest, top);
    InsertBefore(b, Below(rest, top), At(rest, top));
    InsertFront(b, At(rest, top));
    BelowUnaffected(b, rest, top);
  }

  lemma {:induction false} BelowUnaffected<T>(b: Box<T>, rest: seq<Box<T>>, limit: nat)
    requires limit <= b.order
    ensures Below([b] + rest, limit) == Below(rest, limit)
  {
    if limit > 0 {
      BelowUnaffected(b, rest, limit - 1);
      assert ([b] + rest)[1..] == rest;
    }
  }

  lemma {:induction false} InsertLeft<T>(b: Box<T>, a: seq<Box<T>>, c: seq<Box<T>>)
    requires forall k | 0 <= k < |c| :: b.order < c[k].order
    ensures Insert(b, a + c) == Insert(b, a) + c
  {
    if a == [] {
      assert a + c == c;
      InsertFront(b, c);
    } else if b.order <= a[0].order {
      assert [b] + (a + c) == [b] + a + c;
    } else {
      assert (a + c)[1..] == a[1..] + c;
      InsertLeft(b, a[1..], c);
    }
  }

  // The layout is its orders one after the other.
  lemma {:induction false} LayoutByOrder<T>(boxes: seq<Box<T>>, limit: nat)
    requires forall k | 0 <= k < |boxes| :: 0 <= boxes[k].order < limit
    ensures Layout(boxes) == Below(boxes, limit)
  {
    if boxes == [] {
      BelowNone(boxes, limit);
    } else {
      LayoutByOrder(boxes[1..], limit);
      InsertBelow(boxes[0], boxes[1..], limit);
      assert [boxes[0]] + boxes[1..] == boxes;
    }
  }

  lemma {:induction false} BelowNone<T>(boxes: seq<Box<T>>, limit: nat)
    requires boxes == []
    ensures Below(boxes, limit) == []
  {
    if limit > 0 {
      BelowNone(boxes, limit - 1);
    }
  }

  // --- Sorted --------------------------------------------------------------

  predicate Sorted<T>(boxes: seq<Box<T>>) {
    forall j, k | 0 <= j < k < |boxes| :: boxes[j].order <= boxes[k].order
  }

  lemma SortedFirst<T>(first: Box<T>, rest: seq<Box<T>>)
    requires Sorted(rest) && forall k | 0 <= k < |rest| :: first.order <= rest[k].order
    ensures Sorted([first] + rest)
  {
    var all := [first] + rest;
    forall j, k | 0 <= j < k < |all|
      ensures all[j].order <= all[k].order
    {
      assert all[k] == rest[k - 1];
      if j > 0 {
        assert all[j] == rest[j - 1];
      }
    }
  }

  lemma SortedRest<T>(sorted: seq<Box<T>>)
    requires Sorted(sorted) && sorted != []
    ensures Sorted(sorted[1..]) && forall b | b in sorted[1..] :: sorted[0].order <= b.order
  {
    var rest := sorted[1..];
    assert forall k | 0 <= k < |rest| :: rest[k] == sorted[k + 1];
  }

  lemma {:induction false} InsertMember<T>(b: Box<T>, sorted: seq<Box<T>>, k: nat)
    requires k < |Insert(b, sorted)|
    ensures Insert(b, sorted)[k] == b || Insert(b, sorted)[k] in sorted
  {
    if sorted != [] && b.order > sorted[0].order && k > 0 {
      InsertMember(b, sorted[1..], k - 1);
    }
  }

  lemma {:induction false} InsertMembers<T>(b: Box<T>, sorted: seq<Box<T>>)
    ensures forall x :: x in Insert(b, sorted) <==> x == b || x in sorted
  {
    if sorted != [] && b.order > sorted[0].order {
      InsertMembers(b, sorted[1..]);
      assert sorted == [sorted[0]] + sorted[1..];
    }
  }

  lemma {:induction false} InsertSorted<T>(b: Box<T>, sorted: seq<Box<T>>)
    requires Sorted(sorted)
    ensures Sorted(Insert(b, sorted))
  {
    if sorted != [] {
      SortedRest(sorted);
      if b.order <= sorted[0].order {
        assert [sorted[0]] + sorted[1..] == sorted;
        SortedFirst(b, sorted);
      } else {
        InsertSorted(b, sorted[1..]);
        forall k | 0 <= k < |Insert(b, sorted[1..])|
          ensures sorted[0].order <= Insert(b, sorted[1..])[k].order
        {
          InsertMember(b, sorted[1..], k);
        }
        SortedFirst(sorted[0], Insert(b, sorted[1..]));
      }
    }
  }

  // The layout is sorted, and holds the same boxes.
  lemma {:induction false} LayoutIsSorted<T>(boxes: seq<Box<T>>)
    ensures Sorted(Layout(boxes))
    ensures forall b :: b in Layout(boxes) <==> b in boxes
  {
    if boxes != [] {
      LayoutIsSorted(boxes[1..]);
      InsertSorted(boxes[0], Layout(boxes[1..]));
      InsertMembers(boxes[0], Layout(boxes[1..]));
      assert boxes == [boxes[0]] + boxes[1..];
    }
  }
}

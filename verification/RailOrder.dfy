// The order of the rail's groups and what their headers say, told from the
// conversations alone.
module RailOrder {
  import opened RailLayout
  import opened RailGroups

  // How urgent a row is, the most urgent first, and the name of its group.
  function Rank(e: Entry): nat {
    if e.waiting then 0 else if e.running then 1 else if e.failed then 2 else if e.unread then 3 else 4
  }

  function StatusName(e: Entry): string {
    if e.waiting then "waiting" else if e.running then "running" else if e.failed then "failed"
    else if e.unread then "unread" else "done"
  }

  // Keys stand in the order in which this list names them.
  predicate InTurn(order: seq<string>, keys: seq<string>) {
    forall j, k | 0 <= j < k < |keys| ::
      keys[j] in order && keys[k] in order && Position(order, keys[j]) < Position(order, keys[k])
  }

  lemma {:induction false} PresentMembers(order: seq<string>, keys: seq<string>)
    ensures forall key :: key in Present(order, keys) <==> key in order && key in keys
  {
    if order != [] {
      PresentMembers(order[1..], keys);
      assert order == [order[0]] + order[1..];
    }
  }

  lemma LaterPositions(order: seq<string>)
    requires order != [] && NoRepeats(order)
    ensures NoRepeats(order[1..]) && Position(order, order[0]) == 0
    ensures forall key | key in order[1..] ::
      key in order && key != order[0] && Position(order, key) == 1 + Position(order[1..], key)
  {
    var rest := order[1..];
    assert forall j, k | 0 <= j < k < |rest| :: rest[j] == order[j + 1] && rest[k] == order[k + 1];
    forall key | key in rest
      ensures key in order && key != order[0] && Position(order, key) == 1 + Position(rest, key)
    {
      var k :| 0 <= k < |rest| && rest[k] == key;
      assert order[k + 1] == key;
    }
  }

  lemma InTurnMore(order: seq<string>, later: seq<string>, first: bool)
    requires order != [] && NoRepeats(order) && InTurn(order[1..], later)
    requires forall k | 0 <= k < |later| :: later[k] in order[1..]
    ensures InTurn(order, (if first then [order[0]] else []) + later)
  {
    LaterPositions(order);
    var all := (if first then [order[0]] else []) + later;
    var n := if first then 1 else 0;
    forall j, k | 0 <= j < k < |all|
      ensures all[j] in order && all[k] in order && Position(order, all[j]) < Position(order, all[k])
    {
      assert all[k] == later[k - n];
      if j >= n {
        assert all[j] == later[j - n];
      }
    }
  }

  lemma {:induction false} PresentInTurn(order: seq<string>, keys: seq<string>)
    requires NoRepeats(order)
    ensures InTurn(order, Present(order, keys))
  {
    if order != [] {
      var later := Present(order[1..], keys);
      LaterPositions(order);
      PresentInTurn(order[1..], keys);
      PresentMembers(order[1..], keys);
      forall k | 0 <= k < |later|
        ensures later[k] in order[1..]
      {
        assert later[k] in later;
      }
      InTurnMore(order, later, order[0] in keys);
    }
  }

  lemma StatusPositions()
    ensures NoRepeats(STATUS_ORDER) && |STATUS_ORDER| == 5
    ensures STATUS_ORDER[0] == "waiting" && STATUS_ORDER[1] == "running" && STATUS_ORDER[2] == "failed"
         && STATUS_ORDER[3] == "unread" && STATUS_ORDER[4] == "done"
  {
    assert "failed"[0] == 'f' && "waiting"[0] == 'w' && "running"[0] == 'r' && "unread"[0] == 'u' && "done"[0] == 'd';
  }

  lemma RankIsPosition(e: Entry)
    ensures StatusName(e) in STATUS_ORDER && Position(STATUS_ORDER, StatusName(e)) == Rank(e)
    ensures KeyOf(ByStatus, e) == StatusName(e)
  {
    StatusGroupIsMostUrgent(e);
    StatusPositions();
    assert STATUS_ORDER[Rank(e)] == StatusName(e);
    PositionUnique(STATUS_ORDER, Rank(e));
  }

  lemma {:induction false} ItemAt(boxes: seq<Box<Item>>, k: nat)
    requires k < |boxes|
    ensures |Items(boxes)| == |boxes| && Items(boxes)[k] == boxes[k].item
  {
    ItemsKeepLength(boxes);
    if k > 0 {
      ItemAt(boxes[1..], k - 1);
    }
  }

  predicate IsHeader(item: Item, key: string) {
    item.Header? && item.key == key
  }

  lemma {:induction false} NoHeaderAmongRows(
    rows: seq<string>, inView: set<string>, orders: map<string, int>, hidden: set<string>)
    ensures forall b | b in ShownRows(rows, inView, orders, hidden) :: b.item.Row?
  {
    if rows != [] {
      NoHeaderAmongRows(rows[..|rows| - 1], inView, orders, hidden);
    }
  }

  lemma {:induction false} HeaderBoxesMembers(
    grouping: Grouping, visible: seq<Entry>, collapsed: set<string>, keys: seq<string>)
    ensures forall b | b in HeaderBoxes(grouping, visible, collapsed, keys) ::
      exists g | 0 <= g < |keys| :: b == Box(HeaderOf(grouping, visible, collapsed, keys[g]), 2 * g)
    ensures forall g | 0 <= g < |keys| ::
      Box(HeaderOf(grouping, visible, collapsed, keys[g]), 2 * g) in HeaderBoxes(grouping, visible, collapsed, keys)
  {
    if keys != [] {
      var n := |keys| - 1;
      HeaderBoxesMembers(grouping, visible, collapsed, keys[..n]);
      var last := Box(HeaderOf(grouping, visible, collapsed, keys[n]), 2 * n);
      assert forall g | 0 <= g < n :: keys[..n][g] == keys[g];
      forall b | b in HeaderBoxes(grouping, visible, collapsed, keys)
        ensures exists g | 0 <= g < |keys| :: b == Box(HeaderOf(grouping, visible, collapsed, keys[g]), 2 * g)
      {
        if b != last {
          var g :| 0 <= g < n && b == Box(HeaderOf(grouping, visible, collapsed, keys[..n][g]), 2 * g);
          assert keys[g] == keys[..n][g];
        }
      }
    }
  }

  // A header box of the g-th group.
  predicate StandsFor(b: Box<Item>, visible: seq<Entry>, collapsed: set<string>, g: nat) {
    var keys := GroupKeys(ByStatus, visible);
    g < |keys| && b == Box(HeaderOf(ByStatus, visible, collapsed, keys[g]), 2 * g)
  }

  lemma OneOfThree(a: seq<Box<Item>>, b: Box<Item>, c: seq<Box<Item>>, x: Box<Item>)
    requires x in a + [b] + c
    ensures x in a || x == b || x in c
  {
  }

  // A header in the painted list, and the group it stands for.
  lemma PaintedHeader(
    rows: seq<string>, existing: set<string>, entries: seq<Entry>, inView: set<string>,
    collapsed: set<string>, orders: map<string, int>, hidden: set<string>, b: Box<Item>)
    requires b in Painted(rows, existing, entries, inView, collapsed, orders, hidden) && b.item.Header?
    ensures exists g: nat :: StandsFor(b, General(entries, inView), collapsed, g)
  {
    var visible := General(entries, inView);
    var children := Keep(Arrange(rows, existing, entries), Moved(entries));
    var headers := HeaderBoxes(ByStatus, visible, collapsed, GroupKeys(ByStatus, visible));
    NoHeaderAmongRows(children, inView, orders, hidden);
    OneOfThree(ShownRows(children, inView, orders, hidden), Box(SettledSection, SETTLED_ORDER), headers, b);
    var keys := GroupKeys(ByStatus, visible);
    HeaderBoxesMembers(ByStatus, visible, collapsed, keys);
    assert b in headers;
    var g :| 0 <= g < |keys| && b == Box(HeaderOf(ByStatus, visible, collapsed, keys[g]), 2 * g);
    assert StandsFor(b, visible, collapsed, g);
  }

  // Keys in turn stand as their positions do.
  lemma InTurnOrders(order: seq<string>, keys: seq<string>, g: nat, h: nat)
    requires InTurn(order, keys) && g < |keys| && h < |keys|
    requires keys[g] in order && keys[h] in order && Position(order, keys[g]) < Position(order, keys[h])
    ensures g < h
  {
  }

  lemma HeadersSorted(
    rows: seq<string>, existing: set<string>, entries: seq<Entry>, inView: set<string>,
    collapsed: set<string>, orders: map<string, int>, hidden: set<string>, e: Entry, f: Entry,
    a: Box<Item>, b: Box<Item>)
    requires Rank(e) < Rank(f)
    requires a in Painted(rows, existing, entries, inView, collapsed, orders, hidden)
    requires b in Painted(rows, existing, entries, inView, collapsed, orders, hidden)
    requires a.item.Header? && a.item.key == StatusName(e) && b.item.Header? && b.item.key == StatusName(f)
    ensures a.order < b.order
  {
    var visible := General(entries, inView);
    var keys := GroupKeys(ByStatus, visible);
    PaintedHeader(rows, existing, entries, inView, collapsed, orders, hidden, a);
    PaintedHeader(rows, existing, entries, inView, collapsed, orders, hidden, b);
    var g: nat :| StandsFor(a, visible, collapsed, g);
    var h: nat :| StandsFor(b, visible, collapsed, h);
    RankIsPosition(e);
    RankIsPosition(f);
    StatusPositions();
    PresentInTurn(STATUS_ORDER, Appearing(ByStatus, visible));
    InTurnOrders(STATUS_ORDER, keys, g, h);
  }

  lemma HeaderIsPainted(
    rows: seq<string>, existing: set<string>, entries: seq<Entry>, inView: set<string>,
    collapsed: set<string>, orders: map<string, int>, hidden: set<string>, e: Entry)
    requires e in entries && e.project == "" && e.id in inView
    ensures exists b | b in Painted(rows, existing, entries, inView, collapsed, orders, hidden) ::
      IsHeader(b.item, StatusName(e))
  {
    var visible := General(entries, inView);
    var keys := GroupKeys(ByStatus, visible);
    GeneralMembers(entries, inView);
    GroupKeysAreThePresentOnes(ByStatus, visible);
    RankIsPosition(e);
    assert KeyOf(ByStatus, e) in keys;
    var g :| 0 <= g < |keys| && keys[g] == StatusName(e);
    HeaderBoxesMembers(ByStatus, visible, collapsed, keys);
    var b := Box(HeaderOf(ByStatus, visible, collapsed, keys[g]), 2 * g);
    assert b in HeaderBoxes(ByStatus, visible, collapsed, keys);
    assert b in Painted(rows, existing, entries, inView, collapsed, orders, hidden);
  }

  predicate Precedes(boxes: seq<Box<Item>>, first: string, second: string) {
    forall a, b | a in boxes && b in boxes && IsHeader(a.item, first) && IsHeader(b.item, second) :: a.order < b.order
  }

  // Headers of lower order are laid out first.
  lemma LaidInOrder(boxes: seq<Box<Item>>, first: string, second: string)
    requires Precedes(boxes, first, second)
    ensures var rail := Items(Layout(boxes));
      forall i, j | 0 <= i < |rail| && 0 <= j < |rail| && IsHeader(rail[i], first) && IsHeader(rail[j], second) :: i < j
  {
    var laid := Layout(boxes);
    LayoutIsSorted(boxes);
    ItemsKeepLength(laid);
    forall i, j | 0 <= i < |laid| && 0 <= j < |laid|
        && IsHeader(Items(laid)[i], first) && IsHeader(Items(laid)[j], second)
      ensures i < j
    {
      ItemAt(laid, i);
      ItemAt(laid, j);
      assert laid[i] in boxes && laid[j] in boxes;
    }
  }

  lemma IsLaid(boxes: seq<Box<Item>>, key: string)
    requires exists b | b in boxes :: IsHeader(b.item, key)
    ensures exists i | 0 <= i < |Items(Layout(boxes))| :: IsHeader(Items(Layout(boxes))[i], key)
  {
    var laid := Layout(boxes);
    LayoutIsSorted(boxes);
    var b :| b in boxes && IsHeader(b.item, key);
    var i :| 0 <= i < |laid| && laid[i] == b;
    ItemAt(laid, i);
  }

  // For two general chats in view, one more urgent than the other, the rail has
  // the header of each one's group, and the more urgent one's comes first:
  // waiting, running, failed, unread, done.
  lemma MoreUrgentGroupComesFirst(
    rows: seq<string>, existing: set<string>, entries: seq<Entry>, inView: set<string>,
    collapsed: set<string>, orders: map<string, int>, hidden: set<string>, e: Entry, f: Entry)
    requires e in entries && e.project == "" && e.id in inView
    requires f in entries && f.project == "" && f.id in inView
    requires Rank(e) < Rank(f)
    ensures var rail := Items(Layout(Painted(rows, existing, entries, inView, collapsed, orders, hidden)));
      && (exists i | 0 <= i < |rail| :: IsHeader(rail[i], StatusName(e)))
      && (exists j | 0 <= j < |rail| :: IsHeader(rail[j], StatusName(f)))
      && forall i, j | 0 <= i < |rail| && 0 <= j < |rail|
                       && IsHeader(rail[i], StatusName(e)) && IsHeader(rail[j], StatusName(f)) :: i < j
  {
    var boxes := Painted(rows, existing, entries, inView, collapsed, orders, hidden);
    HeaderIsPainted(rows, existing, entries, inView, collapsed, orders, hidden, e);
    HeaderIsPainted(rows, existing, entries, inView, collapsed, orders, hidden, f);
    UrgentPrecedes(rows, existing, entries, inView, collapsed, orders, hidden, e, f);
    LaidOnce(boxes, StatusName(e), StatusName(f));
  }

  lemma UrgentPrecedes(
    rows: seq<string>, existing: set<string>, entries: seq<Entry>, inView: set<string>,
    collapsed: set<string>, orders: map<string, int>, hidden: set<string>, e: Entry, f: Entry)
    requires Rank(e) < Rank(f)
    ensures Precedes(
      Painted(rows, existing, entries, inView, collapsed, orders, hidden), StatusName(e), StatusName(f))
  {
    var boxes := Painted(rows, existing, entries, inView, collapsed, orders, hidden);
    forall a, b | a in boxes && b in boxes && IsHeader(a.item, StatusName(e)) && IsHeader(b.item, StatusName(f))
      ensures a.order < b.order
    {
      HeadersSorted(rows, existing, entries, inView, collapsed, orders, hidden, e, f, a, b);
    }
  }

  lemma LaidOnce(boxes: seq<Box<Item>>, first: string, second: string)
    requires Precedes(boxes, first, second)
    requires (exists b | b in boxes :: IsHeader(b.item, first)) && exists b | b in boxes :: IsHeader(b.item, second)
    ensures var rail := Items(Layout(boxes));
      && (exists i | 0 <= i < |rail| :: IsHeader(rail[i], first))
      && (exists j | 0 <= j < |rail| :: IsHeader(rail[j], second))
      && forall i, j | 0 <= i < |rail| && 0 <= j < |rail| && IsHeader(rail[i], first) && IsHeader(rail[j], second) ::
           i < j
  {
    LaidInOrder(boxes, first, second);
    IsLaid(boxes, first);
    IsLaid(boxes, second);
  }

  function Sharing(visible: seq<Entry>, key: string): set<Entry> {
    set e | e in visible && KeyOf(ByStatus, e) == key
  }

  lemma SharingMore(init: seq<Entry>, last: Entry, key: string, shares: bool)
    requires shares == (KeyOf(ByStatus, last) == key) && last !in init
    ensures Sharing(init + [last], key) == if shares then Sharing(init, key) + {last} else Sharing(init, key)
    ensures last !in Sharing(init, key)
  {
  }

  lemma {:induction false} BucketCounts(visible: seq<Entry>, key: string)
    requires Distinct(visible)
    ensures |Bucket(ByStatus, visible, key)| == |Sharing(visible, key)|
  {
    if visible != [] {
      LastIsDistinct(visible);
      var init := visible[..|visible| - 1];
      var last := visible[|visible| - 1];
      BucketCounts(init, key);
      SharingMore(init, last, key, KeyOf(ByStatus, last) == key);
    }
  }

  // The general chats in view of one status.
  function Chats(entries: seq<Entry>, inView: set<string>, status: string): set<Entry> {
    set e | e in entries && e.project == "" && e.id in inView && StatusName(e) == status
  }

  // Every header names a group with its number of general chats in view, and
  // shows it as expanded unless it was collapsed.
  lemma HeadersCountTheirGroups(
    rows: seq<string>, existing: set<string>, entries: seq<Entry>, inView: set<string>,
    collapsed: set<string>, orders: map<string, int>, hidden: set<string>, i: nat)
    requires Distinct(entries)
    requires var rail := Items(Layout(Painted(rows, existing, entries, inView, collapsed, orders, hidden)));
      i < |rail| && rail[i].Header?
    ensures var header := Items(Layout(Painted(rows, existing, entries, inView, collapsed, orders, hidden)))[i];
      var chats := Chats(entries, inView, header.key);
      header.count == |chats| && chats != {} && (header.expanded <==> header.key !in collapsed)
  {
    var boxes := Painted(rows, existing, entries, inView, collapsed, orders, hidden);
    var laid := Layout(boxes);
    var visible := General(entries, inView);
    var keys := GroupKeys(ByStatus, visible);
    ItemsKeepLength(laid);
    LayoutIsSorted(boxes);
    ItemAt(laid, i);
    assert laid[i] in laid;
    PaintedHeader(rows, existing, entries, inView, collapsed, orders, hidden, laid[i]);
    var g: nat :| StandsFor(laid[i], visible, collapsed, g);
    GroupIsItsChats(entries, inView, keys[g]);
    GroupKeysAreThePresentOnes(ByStatus, visible);
    assert keys[g] in keys;
    SomeChatHas(entries, inView, keys[g]);
  }

  lemma GroupIsItsChats(entries: seq<Entry>, inView: set<string>, key: string)
    requires Distinct(entries)
    ensures |Bucket(ByStatus, General(entries, inView), key)| == |Chats(entries, inView, key)|
  {
    var visible := General(entries, inView);
    GeneralStaysDistinct(entries, inView);
    GeneralMembers(entries, inView);
    BucketCounts(visible, key);
    forall e: Entry
      ensures e in Sharing(visible, key) <==> e in Chats(entries, inView, key)
    {
      RankIsPosition(e);
    }
    assert Sharing(visible, key) == Chats(entries, inView, key);
  }

  lemma SomeChatHas(entries: seq<Entry>, inView: set<string>, key: string)
    requires exists e :: e in General(entries, inView) && KeyOf(ByStatus, e) == key
    ensures Chats(entries, inView, key) != {}
  {
    GeneralMembers(entries, inView);
    var e :| e in General(entries, inView) && KeyOf(ByStatus, e) == key;
    RankIsPosition(e);
    assert e in Chats(entries, inView, key);
  }

  // --- Grouped by project --------------------------------------------------

  lemma {:induction false} AppearingGrows(grouping: Grouping, visible: seq<Entry>, n: nat)
    requires n <= |visible|
    ensures Appearing(grouping, visible[..n]) <= Appearing(grouping, visible)
  {
    if n < |visible| {
      var init := visible[..|visible| - 1];
      AppearingGrows(grouping, init, n);
      assert init[..n] == visible[..n];
    } else {
      assert visible[..n] == visible;
    }
  }

  lemma PositionBeyond(keys: seq<string>, n: nat, p: string, q: string)
    requires n <= |keys| && p in keys[..n] && q in keys && q !in keys[..n] && NoRepeats(keys)
    ensures p in keys && Position(keys, p) < n <= Position(keys, q)
  {
    var i :| 0 <= i < n && keys[..n][i] == p;
    assert keys[i] == p;
    PositionUnique(keys, i);
  }

  // Grouped by project, the groups are the projects of the rows, and a project
  // whose first row comes later has its group later.
  lemma ProjectsComeInOrder(visible: seq<Entry>, i: nat, j: nat)
    requires i < j < |visible| && forall k | 0 <= k < j :: visible[k].project != visible[j].project
    ensures var keys := GroupKeys(ByProject, visible);
      && (forall key :: key in keys <==> exists e :: e in visible && e.project == key)
      && visible[i].project in keys && visible[j].project in keys
      && Position(keys, visible[i].project) < Position(keys, visible[j].project)
  {
    var keys := GroupKeys(ByProject, visible);
    var early := visible[..j];
    GroupKeysAreThePresentOnes(ByProject, visible);
    assert forall e :: KeyOf(ByProject, e) == e.project;
    AppearingGrows(ByProject, visible, j);
    AppearingKeys(ByProject, early);
    var first := Appearing(ByProject, early);
    assert keys[..|first|] == first;
    assert visible[i] == early[i] && visible[i] in early && visible[j] in visible;
    PositionBeyond(keys, |first|, visible[i].project, visible[j].project);
  }
}

// The conversation rail: rows arranged in recency order, grouped by setting
// CSS order values on them and appending header buttons.
module RailGroups {
  import opened RailLayout

  // A conversation as the inbox lists it; `project` is empty for a general chat.
  datatype Entry = Entry(
    id: string, project: string,
    waiting: bool, running: bool, failed: bool, unread: bool, done: bool, localDraft: bool)

  datatype Grouping = ByStatus | ByProject

  const STATUS_ORDER: seq<string> := ["waiting", "running", "failed", "unread", "done"]

  // --- Arranging rows ------------------------------------------------------

  // Every row of the list, and the settled section after them.
  function Without(rows: seq<string>, id: string): seq<string> {
    if rows == [] then []
    else if rows[0] == id then Without(rows[1..], id)
    else [rows[0]] + Without(rows[1..], id)
  }

  // insertBefore the settled section, entry by entry, of the rows that exist.
  function Arrange(rows: seq<string>, existing: set<string>, entries: seq<Entry>): seq<string> {
    if entries == [] then rows
    else
      var last := entries[|entries| - 1];
      var before := Arrange(rows, existing, entries[..|entries| - 1]);
      if last.id in existing then Without(before, last.id) + [last.id] else before
  }

  // Rows of a project leave for that project's own section.
  function Keep(rows: seq<string>, moved: set<string>): seq<string> {
    if rows == [] then []
    else (if rows[0] in moved then [] else [rows[0]]) + Keep(rows[1..], moved)
  }

  function IdsOf(entries: seq<Entry>): set<string> {
    set e | e in entries :: e.id
  }

  function RowsOf(entries: seq<Entry>, existing: set<string>): seq<string> {
    if entries == [] then []
    else
      RowsOf(entries[..|entries| - 1], existing) +
      if entries[|entries| - 1].id in existing then [entries[|entries| - 1].id] else []
  }

  predicate Distinct(entries: seq<Entry>) {
    forall j, k | 0 <= j < k < |entries| :: entries[j].id != entries[k].id
  }

  lemma {:induction false} WithoutAppend(a: seq<string>, b: seq<string>, id: string)
    ensures Without(a + b, id) == Without(a, id) + Without(b, id)
  {
    if a == [] {
      assert a + b == b;
    } else {
      assert (a + b)[1..] == a[1..] + b;
      WithoutAppend(a[1..], b, id);
    }
  }

  lemma {:induction false} WithoutAbsent(rows: seq<string>, id: string)
    requires id !in rows
    ensures Without(rows, id) == rows
  {
    if rows != [] {
      assert rows[0] in rows && id !in rows[1..];
      WithoutAbsent(rows[1..], id);
      assert [rows[0]] + rows[1..] == rows;
    }
  }

  lemma {:induction false} WithoutIsKeep(rows: seq<string>, moved: set<string>, id: string)
    ensures Without(Keep(rows, moved), id) == Keep(rows, moved + {id})
  {
    if rows != [] {
      var tail := Keep(rows[1..], moved);
      WithoutIsKeep(rows[1..], moved, id);
      assert [] + tail == tail && ([rows[0]] + tail)[1..] == tail;
    }
  }

  lemma {:induction false} RowsOfMembers(entries: seq<Entry>, existing: set<string>)
    ensures forall id | id in RowsOf(entries, existing) :: id in IdsOf(entries) && id in existing
  {
    if entries != [] {
      var init := entries[..|entries| - 1];
      RowsOfMembers(init, existing);
      assert IdsOf(init) <= IdsOf(entries) by {
        assert forall e | e in init :: e in entries;
      }
      assert entries[|entries| - 1] in entries;
    }
  }

  // One more row goes behind those already arranged.
  lemma ArrangeOneMore(rows: seq<string>, moved: set<string>, listed: seq<string>, id: string)
    requires id !in listed
    ensures Without(Keep(rows, moved) + listed, id) + [id] == Keep(rows, moved + {id}) + (listed + [id])
  {
    WithoutAppend(Keep(rows, moved), listed, id);
    WithoutAbsent(listed, id);
    WithoutIsKeep(rows, moved, id);
  }

  lemma LastListed(init: seq<Entry>, last: Entry, existing: set<string>)
    requires forall e | e in init :: e.id != last.id
    ensures last.id !in RowsOf(init, existing)
    ensures IdsOf(init + [last]) * existing == (IdsOf(init) * existing) + ({last.id} * existing)
    ensures RowsOf(init + [last], existing)
         == if last.id in existing then RowsOf(init, existing) + [last.id] else RowsOf(init, existing)
  {
    RowsOfMembers(init, existing);
    assert (init + [last])[..|init|] == init;
    assert RowsOf(init, existing) + [] == RowsOf(init, existing);
    assert IdsOf(init + [last]) == IdsOf(init) + {last.id};
  }

  // After arranging, the listed rows stand last, in recency order.
  lemma {:induction false} ArrangedInRecencyOrder(rows: seq<string>, existing: set<string>, entries: seq<Entry>)
    requires Distinct(entries)
    ensures Arrange(rows, existing, entries)
         == Keep(rows, IdsOf(entries) * existing) + RowsOf(entries, existing)
  {
    if entries == [] {
      assert IdsOf(entries) * existing == {};
      KeepNone(rows);
      assert rows + [] == rows;
    } else {
      var init := entries[..|entries| - 1];
      var last := entries[|entries| - 1];
      ArrangedInRecencyOrder(rows, existing, init);
      assert entries == init + [last];
      LastListed(init, last, existing);
      if last.id in existing {
        assert {last.id} * existing == {last.id};
        ArrangeOneMore(rows, IdsOf(init) * existing, RowsOf(init, existing), last.id);
      } else {
        assert {last.id} * existing == {};
        assert IdsOf(init) * existing + {} == IdsOf(init) * existing;
      }
    }
  }

  lemma {:induction false} KeepNone(rows: seq<string>)
    ensures Keep(rows, {}) == rows
  {
    if rows != [] {
      KeepNone(rows[1..]);
      assert [rows[0]] + rows[1..] == rows;
    }
  }

  // --- Groups --------------------------------------------------------------

  // The states a row carries, in the order that decides its group.
  function InboxStates(e: Entry): seq<string> {
    (if e.waiting then ["waiting"] else []) + (if e.running then ["running"] else []) +
    (if e.failed then ["failed"] else []) + (if e.unread then ["unread"] else []) +
    (if e.done then ["done"] else []) + (if e.localDraft then ["local_draft"] else [])
  }

  function FirstStatus(states: seq<string>): string {
    if states == [] then "done"
    else if states[0] in STATUS_ORDER then states[0]
    else FirstStatus(states[1..])
  }

  function KeyOf(grouping: Grouping, e: Entry): string {
    if grouping == ByProject then e.project else FirstStatus(InboxStates(e))
  }

  // Bucket keys as the map holds them: in order of first appearance.
  function Appearing(grouping: Grouping, visible: seq<Entry>): seq<string> {
    if visible == [] then []
    else
      var before := Appearing(grouping, visible[..|visible| - 1]);
      var key := KeyOf(grouping, visible[|visible| - 1]);
      if key in before then before else before + [key]
  }

  function Present(order: seq<string>, keys: seq<string>): seq<string> {
    if order == [] then []
    else (if order[0] in keys then [order[0]] else []) + Present(order[1..], keys)
  }

  function GroupKeys(grouping: Grouping, visible: seq<Entry>): seq<string> {
    var keys := Appearing(grouping, visible);
    if grouping == ByStatus then Present(STATUS_ORDER, keys) else keys
  }

  function Bucket(grouping: Grouping, visible: seq<Entry>, key: string): seq<Entry> {
    if visible == [] then []
    else
      Bucket(grouping, visible[..|visible| - 1], key) +
      if KeyOf(grouping, visible[|visible| - 1]) == key then [visible[|visible| - 1]] else []
  }

  predicate NoRepeats(keys: seq<string>) {
    forall j, k | 0 <= j < k < |keys| :: keys[j] != keys[k]
  }

  function Position(keys: seq<string>, key: string): (i: nat)
    requires key in keys
    ensures i < |keys| && keys[i] == key
  {
    if keys[0] == key then 0 else 1 + Position(keys[1..], key)
  }

  lemma {:induction false} StatusKeyKnown(states: seq<string>)
    ensures FirstStatus(states) in STATUS_ORDER
  {
    if states != [] && states[0] !in STATUS_ORDER {
      StatusKeyKnown(states[1..]);
    }
    assert STATUS_ORDER[4] == "done";
  }

  // A row lands in the group of the most urgent state it carries; a row that
  // carries none, or only a local draft, is in the last.
  lemma StatusGroupIsMostUrgent(e: Entry)
    ensures KeyOf(ByStatus, e) ==
      if e.waiting then "waiting" else if e.running then "running" else if e.failed then "failed"
      else if e.unread then "unread" else "done"
  {
    var states := InboxStates(e);
    assert STATUS_ORDER[0] == "waiting" && STATUS_ORDER[1] == "running" && STATUS_ORDER[2] == "failed"
        && STATUS_ORDER[3] == "unread" && STATUS_ORDER[4] == "done";
    assert |"local_draft"| == 11 && forall k | 0 <= k < |STATUS_ORDER| :: |STATUS_ORDER[k]| < 8;
    assert "local_draft" !in STATUS_ORDER;
    if e.waiting {
      assert states[0] == "waiting";
    } else if e.running {
      assert states[0] == "running";
    } else if e.failed {
      assert states[0] == "failed";
    } else if e.unread {
      assert states[0] == "unread";
    } else if e.done {
      assert states[0] == "done";
    } else {
      assert states == if e.localDraft then ["local_draft"] else [];
      assert e.localDraft ==> states[0] == "local_draft" && states[1..] == [];
      assert FirstStatus([]) == "done";
    }
  }

  lemma {:induction false} AppearingKeys(grouping: Grouping, visible: seq<Entry>)
    ensures NoRepeats(Appearing(grouping, visible))
    ensures forall e | e in visible :: KeyOf(grouping, e) in Appearing(grouping, visible)
    ensures forall key | key in Appearing(grouping, visible) :: exists e :: e in visible && KeyOf(grouping, e) == key
  {
    if visible != [] {
      var init := visible[..|visible| - 1];
      var last := visible[|visible| - 1];
      AppearingKeys(grouping, init);
      assert visible == init + [last];
      forall key | key in Appearing(grouping, visible)
        ensures exists e :: e in visible && KeyOf(grouping, e) == key
      {
        if key in Appearing(grouping, init) {
          var e :| e in init && KeyOf(grouping, e) == key;
          assert e in visible;
        } else {
          assert last in visible && KeyOf(grouping, last) == key;
        }
      }
    }
  }

  lemma {:induction false} PresentKeys(order: seq<string>, keys: seq<string>)
    requires NoRepeats(order)
    ensures NoRepeats(Present(order, keys))
    ensures forall key :: key in Present(order, keys) <==> key in order && key in keys
  {
    if order != [] {
      assert forall j, k | 0 <= j < k < |order[1..]| :: order[1..][j] == order[j + 1] && order[1..][k] == order[k + 1];
      PresentKeys(order[1..], keys);
      assert order == [order[0]] + order[1..];
      assert order[0] !in order[1..];
    }
  }

  // The groups drawn: each key once, exactly those some visible row has.
  lemma GroupKeysAreThePresentOnes(grouping: Grouping, visible: seq<Entry>)
    ensures NoRepeats(GroupKeys(grouping, visible))
    ensures forall key :: key in GroupKeys(grouping, visible)
                          <==> exists e :: e in visible && KeyOf(grouping, e) == key
  {
    AppearingKeys(grouping, visible);
    if grouping == ByStatus {
      PresentKeys(STATUS_ORDER, Appearing(grouping, visible));
      forall e | e in visible
        ensures KeyOf(grouping, e) in STATUS_ORDER
      {
        StatusKeyKnown(InboxStates(e));
      }
    }
  }

  lemma AtMostFiveStatusGroups(visible: seq<Entry>)
    ensures |GroupKeys(ByStatus, visible)| <= 5
  {
    PresentShorter(STATUS_ORDER, Appearing(ByStatus, visible));
  }

  lemma {:induction false} PresentShorter(order: seq<string>, keys: seq<string>)
    ensures |Present(order, keys)| <= |order|
  {
    if order != [] {
      PresentShorter(order[1..], keys);
    }
  }

  // --- What is drawn -------------------------------------------------------

  datatype Item =
    | Header(key: string, count: nat, expanded: bool)
    | Row(id: string)
    | SettledSection

  const SETTLED_ORDER := 999

  function HeaderOf(grouping: Grouping, visible: seq<Entry>, collapsed: set<string>, key: string): Item {
    Header(key, |Bucket(grouping, visible, key)|, key !in collapsed)
  }

  // Headers take the even slots, in group order.
  function HeaderBoxes(grouping: Grouping, visible: seq<Entry>, collapsed: set<string>, keys: seq<string>)
    : seq<Box<Item>>
  {
    if keys == [] then []
    else
      HeaderBoxes(grouping, visible, collapsed, keys[..|keys| - 1]) +
      [Box(HeaderOf(grouping, visible, collapsed, keys[|keys| - 1]), 2 * (|keys| - 1))]
  }

  // Rows take the odd slot after their header; a collapsed group's rows are hidden.
  function SlotOf(keys: seq<string>, key: string): int {
    if key in keys then 2 * Position(keys, key) + 1 else 0
  }

  function RowBox(grouping: Grouping, e: Entry, collapsed: set<string>, keys: seq<string>): seq<Box<Item>> {
    var key := KeyOf(grouping, e);
    if key in collapsed then [] else [Box(Row(e.id), SlotOf(keys, key))]
  }

  function RowBoxes(grouping: Grouping, rows: seq<Entry>, collapsed: set<string>, keys: seq<string>)
    : seq<Box<Item>>
  {
    if rows == [] then []
    else
      RowBoxes(grouping, rows[..|rows| - 1], collapsed, keys) +
      RowBox(grouping, rows[|rows| - 1], collapsed, keys)
  }

  // The shown children of the list in document order: the rows that exist,
  // the settled section, and the headers appended behind it.
  function Shown(
    grouping: Grouping, visible: seq<Entry>, rows: seq<Entry>, collapsed: set<string>, keys: seq<string>)
    : seq<Box<Item>>
  {
    RowBoxes(grouping, rows, collapsed, keys) + [Box(SettledSection, SETTLED_ORDER)] +
    HeaderBoxes(grouping, visible, collapsed, keys)
  }

  function Items(boxes: seq<Box<Item>>): seq<Item> {
    if boxes == [] then [] else [boxes[0].item] + Items(boxes[1..])
  }

  // What the reader should see: group after group, header first, then its rows
  // in recency order.
  function GroupItem(grouping: Grouping, e: Entry, collapsed: set<string>, key: string): seq<Item> {
    if KeyOf(grouping, e) == key && key !in collapsed then [Row(e.id)] else []
  }

  function GroupItems(grouping: Grouping, rows: seq<Entry>, collapsed: set<string>, key: string): seq<Item> {
    if rows == [] then []
    else
      GroupItems(grouping, rows[..|rows| - 1], collapsed, key) +
      GroupItem(grouping, rows[|rows| - 1], collapsed, key)
  }

  // One group as it should read.
  datatype Section = Section(header: Item, rows: seq<Item>)

  function SectionOf(
    grouping: Grouping, visible: seq<Entry>, rows: seq<Entry>, collapsed: set<string>, key: string): Section
  {
    Section(HeaderOf(grouping, visible, collapsed, key), GroupItems(grouping, rows, collapsed, key))
  }

  function SectionsOf(
    grouping: Grouping, visible: seq<Entry>, rows: seq<Entry>, collapsed: set<string>, keys: seq<string>): seq<Section>
  {
    if keys == [] then []
    else
      SectionsOf(grouping, visible, rows, collapsed, keys[..|keys| - 1]) +
      [SectionOf(grouping, visible, rows, collapsed, keys[|keys| - 1])]
  }

  function Flatten(sections: seq<Section>): seq<Item> {
    if sections == [] then []
    else
      Flatten(sections[..|sections| - 1]) + [sections[|sections| - 1].header] + sections[|sections| - 1].rows
  }

  // The groups present, in group order.
  function Sections(grouping: Grouping, visible: seq<Entry>, rows: seq<Entry>, collapsed: set<string>): seq<Item> {
    Flatten(SectionsOf(grouping, visible, rows, collapsed, GroupKeys(grouping, visible)))
  }

  lemma {:induction false} ItemsAppend(a: seq<Box<Item>>, b: seq<Box<Item>>)
    ensures Items(a + b) == Items(a) + Items(b)
  {
    if a == [] {
      assert a + b == b;
    } else {
      assert (a + b)[1..] == a[1..] + b;
      ItemsAppend(a[1..], b);
    }
  }

  lemma {:induction false} PositionUnique(keys: seq<string>, g: nat)
    requires NoRepeats(keys) && g < |keys|
    ensures Position(keys, keys[g]) == g
  {
    assert keys[Position(keys, keys[g])] == keys[g];
  }

  lemma AtOne(b: Box<Item>, order: int)
    ensures At([b], order) == if b.order == order then [b] else []
  {
    assert [b][1..] == [];
  }

  lemma RowAtSlot(grouping: Grouping, e: Entry, collapsed: set<string>, keys: seq<string>, order: nat)
    requires NoRepeats(keys) && KeyOf(grouping, e) in keys
    ensures Items(At(RowBox(grouping, e, collapsed, keys), order))
         == if order % 2 == 1 && order / 2 < |keys| then GroupItem(grouping, e, collapsed, keys[order / 2]) else []
  {
    var box := Box(Row(e.id), SlotOf(keys, KeyOf(grouping, e)));
    AtOne(box, order);
    assert [box][1..] == [];
    if order % 2 == 1 && order / 2 < |keys| {
      PositionUnique(keys, order / 2);
    }
  }

  // The rows of one odd slot are one group's rows, in recency order.
  lemma {:induction false} RowsAtSlot(
    grouping: Grouping, rows: seq<Entry>, collapsed: set<string>, keys: seq<string>, order: nat)
    requires NoRepeats(keys) && forall e | e in rows :: KeyOf(grouping, e) in keys
    ensures Items(At(RowBoxes(grouping, rows, collapsed, keys), order))
         == if order % 2 == 1 && order / 2 < |keys| then GroupItems(grouping, rows, collapsed, keys[order / 2]) else []
  {
    if rows != [] {
      var init := rows[..|rows| - 1];
      var last := rows[|rows| - 1];
      assert last in rows && forall e | e in init :: e in rows;
      RowsAtSlot(grouping, init, collapsed, keys, order);
      RowAtSlot(grouping, last, collapsed, keys, order);
      var before := RowBoxes(grouping, init, collapsed, keys);
      var box := RowBox(grouping, last, collapsed, keys);
      AtAppend(before, box, order);
      ItemsAppend(At(before, order), At(box, order));
    }
  }

  lemma {:induction false} HeadersAtSlot(
    grouping: Grouping, visible: seq<Entry>, collapsed: set<string>, keys: seq<string>, order: nat)
    ensures At(HeaderBoxes(grouping, visible, collapsed, keys), order)
         == if order % 2 == 0 && order / 2 < |keys|
            then [Box(HeaderOf(grouping, visible, collapsed, keys[order / 2]), order)] else []
  {
    if keys != [] {
      var init := keys[..|keys| - 1];
      HeadersAtSlot(grouping, visible, collapsed, init, order);
      var box := Box(HeaderOf(grouping, visible, collapsed, keys[|keys| - 1]), 2 * (|keys| - 1));
      AtAppend(HeaderBoxes(grouping, visible, collapsed, init), [box], order);
      AtOne(box, order);
    }
  }

  // The groups fit before the settled section, and every row has one.
  predicate Grouped(grouping: Grouping, rows: seq<Entry>, keys: seq<string>) {
    && 2 * |keys| < SETTLED_ORDER
    && NoRepeats(keys)
    && forall e | e in rows :: KeyOf(grouping, e) in keys
  }

  // What each slot holds.
  function SlotItems(
    grouping: Grouping, visible: seq<Entry>, rows: seq<Entry>, collapsed: set<string>, keys: seq<string>, order: nat)
    : seq<Item>
  {
    if order == SETTLED_ORDER then [SettledSection]
    else if order / 2 >= |keys| then []
    else if order % 2 == 0 then [HeaderOf(grouping, visible, collapsed, keys[order / 2])]
    else GroupItems(grouping, rows, collapsed, keys[order / 2])
  }

  lemma ItemsOfParts(a: seq<Box<Item>>, b: Box<Item>, c: seq<Box<Item>>, order: nat)
    ensures Items(At(a + [b] + c, order))
         == Items(At(a, order)) + (if b.order == order then [b.item] else []) + Items(At(c, order))
  {
    AtAppend(a + [b], c, order);
    AtAppend(a, [b], order);
    AtOne(b, order);
    ItemsAppend(At(a, order) + At([b], order), At(c, order));
    ItemsAppend(At(a, order), At([b], order));
    assert [b][1..] == [];
  }

  lemma ShownAtSlot(
    grouping: Grouping, visible: seq<Entry>, rows: seq<Entry>, collapsed: set<string>, keys: seq<string>, order: nat)
    requires Grouped(grouping, rows, keys)
    ensures Items(At(Shown(grouping, visible, rows, collapsed, keys), order))
         == SlotItems(grouping, visible, rows, collapsed, keys, order)
  {
    var rowBoxes := RowBoxes(grouping, rows, collapsed, keys);
    var headers := HeaderBoxes(grouping, visible, collapsed, keys);
    ItemsOfParts(rowBoxes, Box(SettledSection, SETTLED_ORDER), headers, order);
    RowsAtSlot(grouping, rows, collapsed, keys, order);
    HeadersAtSlot(grouping, visible, collapsed, keys, order);
    ItemsOfOne(At(headers, order));
    SlotParts(grouping, visible, rows, collapsed, keys, order,
              Items(At(rowBoxes, order)), Items(At(headers, order)));
  }

  lemma SlotParts(
    grouping: Grouping, visible: seq<Entry>, rows: seq<Entry>, collapsed: set<string>, keys: seq<string>, order: nat,
    inRows: seq<Item>, inHeaders: seq<Item>)
    requires 2 * |keys| < SETTLED_ORDER
    requires inRows ==
      if order % 2 == 1 && order / 2 < |keys| then GroupItems(grouping, rows, collapsed, keys[order / 2]) else []
    requires inHeaders ==
      if order % 2 == 0 && order / 2 < |keys| then [HeaderOf(grouping, visible, collapsed, keys[order / 2])] else []
    ensures inRows + (if SETTLED_ORDER == order then [SettledSection] else []) + inHeaders
         == SlotItems(grouping, visible, rows, collapsed, keys, order)
  {
  }

  lemma ItemsOfOne(found: seq<Box<Item>>)
    ensures found == [] ==> Items(found) == []
    ensures |found| == 1 ==> Items(found) == [found[0].item]
  {
  }

  lemma BelowNext(boxes: seq<Box<Item>>, order: nat)
    ensures Items(Below(boxes, order + 1)) == Items(Below(boxes, order)) + Items(At(boxes, order))
  {
    ItemsAppend(Below(boxes, order), At(boxes, order));
  }

  // A group's header in its slot, and its rows in the next.
  predicate Fills(boxes: seq<Box<Item>>, slot: nat, section: Section) {
    Items(At(boxes, slot)) == [section.header] && Items(At(boxes, slot + 1)) == section.rows
  }

  predicate Vacant(boxes: seq<Box<Item>>, order: nat) {
    Items(At(boxes, order)) == []
  }

  // The two slots of one group.
  lemma GroupSlots(boxes: seq<Box<Item>>, slot: nat, section: Section, before: seq<Item>)
    requires Items(Below(boxes, slot)) == before && Fills(boxes, slot, section)
    ensures Items(Below(boxes, slot + 2)) == before + [section.header] + section.rows
  {
    BelowNext(boxes, slot);
    BelowNext(boxes, slot + 1);
  }

  predicate FillsFrom(boxes: seq<Box<Item>>, sections: seq<Section>) {
    sections == [] ||
    (FillsFrom(boxes, sections[..|sections| - 1])
     && Fills(boxes, 2 * (|sections| - 1), sections[|sections| - 1]))
  }

  lemma {:induction false} SlotsAreSections(boxes: seq<Box<Item>>, sections: seq<Section>, slot: nat)
    requires FillsFrom(boxes, sections) && slot == 2 * |sections|
    ensures Items(Below(boxes, slot)) == Flatten(sections)
  {
    if sections != [] {
      var init := sections[..|sections| - 1];
      var last := sections[|sections| - 1];
      var before := slot - 2;
      assert before == 2 * |init|;
      assert FillsFrom(boxes, init) && Fills(boxes, before, last);
      SlotsAreSections(boxes, init, before);
      GroupSlots(boxes, before, last, Flatten(init));
    }
  }

  lemma {:induction false} VacantUntil(boxes: seq<Box<Item>>, start: nat, limit: nat)
    requires start <= limit && forall order: nat | start <= order < limit :: Vacant(boxes, order)
    ensures Items(Below(boxes, limit)) == Items(Below(boxes, start))
    decreases limit
  {
    if start < limit {
      VacantUntil(boxes, start, limit - 1);
      BelowNext(boxes, limit - 1);
      assert Vacant(boxes, limit - 1);
    }
  }

  lemma {:induction false} RowOrders(grouping: Grouping, rows: seq<Entry>, collapsed: set<string>, keys: seq<string>)
    requires 2 * |keys| < SETTLED_ORDER
    ensures forall k | 0 <= k < |RowBoxes(grouping, rows, collapsed, keys)| ::
              0 <= RowBoxes(grouping, rows, collapsed, keys)[k].order < SETTLED_ORDER + 1
  {
    if rows != [] {
      RowOrders(grouping, rows[..|rows| - 1], collapsed, keys);
    }
  }

  lemma {:induction false} HeaderOrders(
    grouping: Grouping, visible: seq<Entry>, collapsed: set<string>, keys: seq<string>)
    requires 2 * |keys| < SETTLED_ORDER
    ensures forall k | 0 <= k < |HeaderBoxes(grouping, visible, collapsed, keys)| ::
              0 <= HeaderBoxes(grouping, visible, collapsed, keys)[k].order < SETTLED_ORDER + 1
  {
    if keys != [] {
      HeaderOrders(grouping, visible, collapsed, keys[..|keys| - 1]);
    }
  }

  lemma FillsOneMore(boxes: seq<Box<Item>>, before: seq<Section>, last: Section)
    requires FillsFrom(boxes, before) && Fills(boxes, 2 * |before|, last)
    ensures FillsFrom(boxes, before + [last])
  {
    assert (before + [last])[..|before|] == before;
  }

  lemma {:induction false} ShownFillsSlots(
    boxes: seq<Box<Item>>,
    grouping: Grouping, visible: seq<Entry>, rows: seq<Entry>, collapsed: set<string>, keys: seq<string>)
    requires forall k | 0 <= k < |keys| ::
      Fills(boxes, 2 * k, SectionOf(grouping, visible, rows, collapsed, keys[k]))
    ensures |SectionsOf(grouping, visible, rows, collapsed, keys)| == |keys|
    ensures FillsFrom(boxes, SectionsOf(grouping, visible, rows, collapsed, keys))
  {
    if keys != [] {
      var n := |keys| - 1;
      ShownFillsSlots(boxes, grouping, visible, rows, collapsed, keys[..n]);
      var last := SectionOf(grouping, visible, rows, collapsed, keys[n]);
      assert Fills(boxes, 2 * n, last);
      FillsOneMore(boxes, SectionsOf(grouping, visible, rows, collapsed, keys[..n]), last);
    }
  }

  // A slot holds what its group puts there.
  predicate SlotHolds(
    boxes: seq<Box<Item>>,
    grouping: Grouping, visible: seq<Entry>, rows: seq<Entry>, collapsed: set<string>, keys: seq<string>, order: nat)
  {
    Items(At(boxes, order)) == SlotItems(grouping, visible, rows, collapsed, keys, order)
  }

  lemma ShownHolds(
    boxes: seq<Box<Item>>,
    grouping: Grouping, visible: seq<Entry>, rows: seq<Entry>, collapsed: set<string>, keys: seq<string>, order: nat)
    requires Grouped(grouping, rows, keys) && boxes == Shown(grouping, visible, rows, collapsed, keys)
    ensures SlotHolds(boxes, grouping, visible, rows, collapsed, keys, order)
  {
    ShownAtSlot(grouping, visible, rows, collapsed, keys, order);
  }

  lemma HeaderSlot(
    boxes: seq<Box<Item>>,
    grouping: Grouping, visible: seq<Entry>, rows: seq<Entry>, collapsed: set<string>, keys: seq<string>,
    g: nat, slot: nat)
    requires slot == 2 * g && slot < SETTLED_ORDER && g < |keys|
    requires SlotHolds(boxes, grouping, visible, rows, collapsed, keys, slot)
    ensures Items(At(boxes, slot)) == [HeaderOf(grouping, visible, collapsed, keys[g])]
  {
    assert slot / 2 == g && slot % 2 == 0;
  }

  lemma RowsSlot(
    boxes: seq<Box<Item>>,
    grouping: Grouping, visible: seq<Entry>, rows: seq<Entry>, collapsed: set<string>, keys: seq<string>,
    g: nat, slot: nat)
    requires slot == 2 * g + 1 && slot < SETTLED_ORDER && g < |keys|
    requires SlotHolds(boxes, grouping, visible, rows, collapsed, keys, slot)
    ensures Items(At(boxes, slot)) == GroupItems(grouping, rows, collapsed, keys[g])
  {
    assert slot / 2 == g && slot % 2 == 1;
  }

  lemma ShownFillsOne(
    boxes: seq<Box<Item>>,
    grouping: Grouping, visible: seq<Entry>, rows: seq<Entry>, collapsed: set<string>, keys: seq<string>,
    g: nat, slot: nat, next: nat)
    requires Grouped(grouping, rows, keys) && boxes == Shown(grouping, visible, rows, collapsed, keys)
    requires slot == 2 * g && next == slot + 1 && next < SETTLED_ORDER && g < |keys|
    ensures Fills(boxes, slot, SectionOf(grouping, visible, rows, collapsed, keys[g]))
  {
    ShownHolds(boxes, grouping, visible, rows, collapsed, keys, slot);
    ShownHolds(boxes, grouping, visible, rows, collapsed, keys, next);
    HeaderSlot(boxes, grouping, visible, rows, collapsed, keys, g, slot);
    RowsSlot(boxes, grouping, visible, rows, collapsed, keys, g, next);
  }

  lemma LayoutFromSlots(
    boxes: seq<Box<Item>>,
    grouping: Grouping, visible: seq<Entry>, rows: seq<Entry>, collapsed: set<string>, keys: seq<string>)
    requires 2 * |keys| < SETTLED_ORDER
    requires forall k | 0 <= k < |boxes| :: 0 <= boxes[k].order < SETTLED_ORDER + 1
    requires forall k | 0 <= k < |keys| ::
      Fills(boxes, 2 * k, SectionOf(grouping, visible, rows, collapsed, keys[k]))
    requires forall order: nat | 2 * |keys| <= order < SETTLED_ORDER :: Vacant(boxes, order)
    requires Items(At(boxes, SETTLED_ORDER)) == [SettledSection]
    ensures Items(Layout(boxes))
         == Flatten(SectionsOf(grouping, visible, rows, collapsed, keys)) + [SettledSection]
  {
    LayoutByOrder(boxes, SETTLED_ORDER + 1);
    ShownFillsSlots(boxes, grouping, visible, rows, collapsed, keys);
    SlotsAreSections(boxes, SectionsOf(grouping, visible, rows, collapsed, keys), 2 * |keys|);
    VacantUntil(boxes, 2 * |keys|, SETTLED_ORDER);
    BelowNext(boxes, SETTLED_ORDER);
  }

  lemma LayoutShown(
    grouping: Grouping, visible: seq<Entry>, rows: seq<Entry>, collapsed: set<string>, keys: seq<string>)
    requires Grouped(grouping, rows, keys)
    ensures Items(Layout(Shown(grouping, visible, rows, collapsed, keys)))
         == Flatten(SectionsOf(grouping, visible, rows, collapsed, keys)) + [SettledSection]
  {
    RowOrders(grouping, rows, collapsed, keys);
    HeaderOrders(grouping, visible, collapsed, keys);
    var boxes := Shown(grouping, visible, rows, collapsed, keys);
    forall k | 0 <= k < |keys|
      ensures Fills(boxes, 2 * k, SectionOf(grouping, visible, rows, collapsed, keys[k]))
    {
      ShownFillsOne(boxes, grouping, visible, rows, collapsed, keys, k, 2 * k, 2 * k + 1);
    }
    forall order: nat | 2 * |keys| <= order <= SETTLED_ORDER
      ensures order < SETTLED_ORDER ==> Vacant(Shown(grouping, visible, rows, collapsed, keys), order)
      ensures order == SETTLED_ORDER ==>
        Items(At(Shown(grouping, visible, rows, collapsed, keys), order)) == [SettledSection]
    {
      ShownAtSlot(grouping, visible, rows, collapsed, keys, order);
    }
    LayoutFromSlots(Shown(grouping, visible, rows, collapsed, keys), grouping, visible, rows, collapsed, keys);
  }

  // Grouped by status, laid out by order and document position, the rail is the
  // stable grouping of its rows: each non-empty group in turn, its header
  // first and its rows in recency order, then the settled section.
  lemma GroupedRailIsStableGrouping(visible: seq<Entry>, rows: seq<Entry>, collapsed: set<string>)
    requires forall e | e in rows :: e in visible
    ensures Items(Layout(Shown(ByStatus, visible, rows, collapsed, GroupKeys(ByStatus, visible))))
         == Sections(ByStatus, visible, rows, collapsed) + [SettledSection]
  {
    GroupKeysAreThePresentOnes(ByStatus, visible);
    AtMostFiveStatusGroups(visible);
    LayoutShown(ByStatus, visible, rows, collapsed, GroupKeys(ByStatus, visible));
  }

  // --- The rail as it is painted -------------------------------------------

  // The visible general chats: not of a project, and in view.
  function General(entries: seq<Entry>, inView: set<string>): seq<Entry> {
    if entries == [] then []
    else
      var last := entries[|entries| - 1];
      General(entries[..|entries| - 1], inView) + if last.project == "" && last.id in inView then [last] else []
  }

  function WithRows(entries: seq<Entry>, existing: set<string>): seq<Entry> {
    if entries == [] then []
    else
      WithRows(entries[..|entries| - 1], existing) +
      if entries[|entries| - 1].id in existing then [entries[|entries| - 1]] else []
  }

  // The project that has no section of its own.
  const LOCAL := "_local"

  // The ids of the rows that leave the list for a project section.
  function Moved(entries: seq<Entry>): set<string> {
    set e | e in entries && e.project != "" && e.project != LOCAL :: e.id
  }

  // The rows in view that stay in the list although they belong to a project.
  function Strays(entries: seq<Entry>, inView: set<string>, existing: set<string>): seq<Entry> {
    if entries == [] then []
    else
      var last := entries[|entries| - 1];
      Strays(entries[..|entries| - 1], inView, existing) +
      if last.project == LOCAL && last.id in inView && last.id in existing then [last] else []
  }

  // The shown row children of the list, with the order each was given.
  function ShownRows(rows: seq<string>, inView: set<string>, orders: map<string, int>, hidden: set<string>)
    : seq<Box<Item>>
  {
    if rows == [] then []
    else
      var id := rows[|rows| - 1];
      ShownRows(rows[..|rows| - 1], inView, orders, hidden) +
      if id in inView && id !in hidden then [Box(Row(id), if id in orders then orders[id] else 0)] else []
  }

  predicate Ordered(
    grouping: Grouping, visible: seq<Entry>, existing: set<string>, keys: seq<string>, orders: map<string, int>)
  {
    && orders.Keys == (set e | e in visible && e.id in existing && KeyOf(grouping, e) in keys :: e.id)
    && forall e | e in visible && e.id in existing && KeyOf(grouping, e) in keys ::
         orders[e.id] == SlotOf(keys, KeyOf(grouping, e))
  }

  function Collapsed(
    grouping: Grouping, visible: seq<Entry>, existing: set<string>, collapsed: set<string>): set<string>
  {
    set e | e in visible && e.id in existing && KeyOf(grouping, e) in collapsed :: e.id
  }

  lemma {:induction false} BucketMembers(grouping: Grouping, visible: seq<Entry>, key: string)
    ensures forall e :: e in Bucket(grouping, visible, key) <==> e in visible && KeyOf(grouping, e) == key
    ensures key !in Appearing(grouping, visible) ==> Bucket(grouping, visible, key) == []
  {
    if visible != [] {
      var init := visible[..|visible| - 1];
      assert visible == init + [visible[|visible| - 1]];
      BucketMembers(grouping, init, key);
    }
  }

  predicate SameId(visible: seq<Entry>) {
    forall e, f | e in visible && f in visible && e.id == f.id :: e == f
  }

  // One group's rows take the slot after its header; a collapsed group's rows fold away.
  method PlaceRows(bucket: seq<Entry>, existing: set<string>, folds: bool, slot: int)
    returns (placed: map<string, int>, folded: set<string>)
    ensures placed.Keys == set e | e in bucket && e.id in existing :: e.id
    ensures forall id | id in placed :: placed[id] == slot
    ensures folded == if folds then placed.Keys else {}
  {
    placed, folded := map[], {};
    for n := 0 to |bucket|
      invariant placed.Keys == set e | e in bucket[..n] && e.id in existing :: e.id
      invariant forall id | id in placed :: placed[id] == slot
      invariant folded == if folds then placed.Keys else {}
    {
      var e := bucket[n];
      assert bucket[..n + 1] == bucket[..n] + [e];
      if e.id in existing {
        placed := placed[e.id := slot];
        if folds {
          folded := folded + {e.id};
        }
      }
    }
    assert bucket[..|bucket|] == bucket;
  }

  lemma {:induction false} PositionInPrefix(keys: seq<string>, n: nat, key: string)
    requires NoRepeats(keys) && n <= |keys| && key in keys[..n]
    ensures SlotOf(keys[..n], key) == SlotOf(keys, key)
  {
    PositionUnique(keys, Position(keys[..n], key));
  }

  lemma SlotInPrefix(keys: seq<string>, g: nat, key: string)
    requires NoRepeats(keys) && g < |keys| && key in keys[..g + 1]
    ensures SlotOf(keys[..g + 1], key) == if key == keys[g] then 2 * g + 1 else SlotOf(keys[..g], key)
    ensures key != keys[g] ==> key in keys[..g]
  {
    assert keys[..g + 1] == keys[..g] + [keys[g]];
    PositionInPrefix(keys, g + 1, key);
    if key == keys[g] {
      PositionUnique(keys, g);
    } else {
      PositionInPrefix(keys, g, key);
    }
  }

  function IdsWithKey(grouping: Grouping, visible: seq<Entry>, existing: set<string>, key: string): set<string> {
    set e | e in visible && e.id in existing && KeyOf(grouping, e) == key :: e.id
  }

  lemma PlacedOne(
    grouping: Grouping, visible: seq<Entry>, existing: set<string>, keys: seq<string>, g: nat,
    orders: map<string, int>, placed: map<string, int>, e: Entry)
    requires NoRepeats(keys) && g < |keys| && SameId(visible)
    requires Ordered(grouping, visible, existing, keys[..g], orders)
    requires placed.Keys == IdsWithKey(grouping, visible, existing, keys[g])
    requires forall id | id in placed :: placed[id] == 2 * g + 1
    requires e in visible && e.id in existing && KeyOf(grouping, e) in keys[..g + 1]
    ensures e.id in orders + placed && (orders + placed)[e.id] == SlotOf(keys[..g + 1], KeyOf(grouping, e))
  {
    SlotInPrefix(keys, g, KeyOf(grouping, e));
    assert e.id in placed <==> KeyOf(grouping, e) == keys[g];
  }

  lemma KeyedMore(
    grouping: Grouping, visible: seq<Entry>, existing: set<string>, keys: seq<string>, g: nat)
    requires g < |keys|
    ensures (set e | e in visible && e.id in existing && KeyOf(grouping, e) in keys[..g + 1] :: e.id)
         == (set e | e in visible && e.id in existing && KeyOf(grouping, e) in keys[..g] :: e.id)
            + IdsWithKey(grouping, visible, existing, keys[g])
  {
    assert keys[..g + 1] == keys[..g] + [keys[g]];
  }

  lemma PlacedInOrder(
    grouping: Grouping, visible: seq<Entry>, existing: set<string>, keys: seq<string>, g: nat,
    orders: map<string, int>, placed: map<string, int>)
    requires NoRepeats(keys) && g < |keys| && SameId(visible)
    requires Ordered(grouping, visible, existing, keys[..g], orders)
    requires placed.Keys == IdsWithKey(grouping, visible, existing, keys[g])
    requires forall id | id in placed :: placed[id] == 2 * g + 1
    ensures Ordered(grouping, visible, existing, keys[..g + 1], orders + placed)
  {
    KeyedMore(grouping, visible, existing, keys, g);
    assert (orders + placed).Keys == orders.Keys + placed.Keys;
    forall e | e in visible && e.id in existing && KeyOf(grouping, e) in keys[..g + 1]
      ensures e.id in orders + placed && (orders + placed)[e.id] == SlotOf(keys[..g + 1], KeyOf(grouping, e))
    {
      PlacedOne(grouping, visible, existing, keys, g, orders, placed, e);
    }
  }

  // The rows folded away by the groups handled so far.
  function Folded(
    grouping: Grouping, visible: seq<Entry>, existing: set<string>, collapsed: set<string>, keys: seq<string>)
    : set<string>
  {
    set e | e in visible && e.id in existing && KeyOf(grouping, e) in collapsed && KeyOf(grouping, e) in keys :: e.id
  }

  lemma FoldedMore(
    grouping: Grouping, visible: seq<Entry>, existing: set<string>, collapsed: set<string>, keys: seq<string>, g: nat)
    requires g < |keys|
    ensures Folded(grouping, visible, existing, collapsed, keys[..g + 1])
         == Folded(grouping, visible, existing, collapsed, keys[..g])
            + if keys[g] in collapsed then IdsWithKey(grouping, visible, existing, keys[g]) else {}
  {
    assert keys[..g + 1] == keys[..g] + [keys[g]];
  }

  // What the groups handled so far have drawn.
  predicate Drawn(
    grouping: Grouping, visible: seq<Entry>, existing: set<string>, collapsed: set<string>, keys: seq<string>,
    headers: seq<Box<Item>>, orders: map<string, int>, hidden: set<string>)
  {
    && headers == HeaderBoxes(grouping, visible, collapsed, keys)
    && Ordered(grouping, visible, existing, keys, orders)
    && hidden == Folded(grouping, visible, existing, collapsed, keys)
  }

  lemma HeaderMore(grouping: Grouping, visible: seq<Entry>, collapsed: set<string>, keys: seq<string>, g: nat)
    requires g < |keys|
    ensures HeaderBoxes(grouping, visible, collapsed, keys[..g + 1])
         == HeaderBoxes(grouping, visible, collapsed, keys[..g])
            + [Box(HeaderOf(grouping, visible, collapsed, keys[g]), 2 * g)]
  {
    assert keys[..g + 1][..g] == keys[..g];
  }

  lemma DrawnMore(
    grouping: Grouping, visible: seq<Entry>, existing: set<string>, collapsed: set<string>, keys: seq<string>, g: nat,
    headers: seq<Box<Item>>, orders: map<string, int>, hidden: set<string>,
    placed: map<string, int>, folded: set<string>)
    requires NoRepeats(keys) && g < |keys| && SameId(visible)
    requires Drawn(grouping, visible, existing, collapsed, keys[..g], headers, orders, hidden)
    requires placed.Keys == IdsWithKey(grouping, visible, existing, keys[g])
    requires forall id | id in placed :: placed[id] == 2 * g + 1
    requires folded == if keys[g] in collapsed then placed.Keys else {}
    ensures Drawn(grouping, visible, existing, collapsed, keys[..g + 1],
                  headers + [Box(HeaderOf(grouping, visible, collapsed, keys[g]), 2 * g)],
                  orders + placed, hidden + folded)
  {
    HeaderMore(grouping, visible, collapsed, keys, g);
    PlacedInOrder(grouping, visible, existing, keys, g, orders, placed);
    FoldedMore(grouping, visible, existing, collapsed, keys, g);
  }

  lemma NothingDrawn(grouping: Grouping, visible: seq<Entry>, existing: set<string>, collapsed: set<string>)
    ensures Drawn(grouping, visible, existing, collapsed, [], [], map[], {})
  {
  }

  lemma AllFolded(
    grouping: Grouping, visible: seq<Entry>, existing: set<string>, collapsed: set<string>, keys: seq<string>)
    requires forall e | e in visible :: KeyOf(grouping, e) in keys
    ensures Folded(grouping, visible, existing, collapsed, keys) == Collapsed(grouping, visible, existing, collapsed)
  {
  }

  // One group: its header, then its rows.
  method RenderGroup(
    grouping: Grouping, ghost visible: seq<Entry>, existing: set<string>, collapsed: set<string>,
    keys: seq<string>, g: nat, bucket: seq<Entry>)
    returns (header: Box<Item>, placed: map<string, int>, folded: set<string>)
    requires g < |keys| && bucket == Bucket(grouping, visible, keys[g])
    ensures header == Box(HeaderOf(grouping, visible, collapsed, keys[g]), 2 * g)
    ensures placed.Keys == IdsWithKey(grouping, visible, existing, keys[g])
    ensures forall id | id in placed :: placed[id] == 2 * g + 1
    ensures folded == if keys[g] in collapsed then placed.Keys else {}
  {
    var slot := 2 * g;
    header := Box(Header(keys[g], |bucket|, keys[g] !in collapsed), slot);
    slot := slot + 1;
    placed, folded := PlaceRows(bucket, existing, keys[g] in collapsed, slot);
    BucketIds(grouping, visible, existing, keys[g]);
  }

  // Building the buckets, then handing out slots: what the rail's script does.
  method RenderInboxGroups(
    grouping: Grouping, visible: seq<Entry>, existing: set<string>, collapsed: set<string>)
    returns (headers: seq<Box<Item>>, orders: map<string, int>, hidden: set<string>)
    requires Distinct(visible)
    ensures headers == HeaderBoxes(grouping, visible, collapsed, GroupKeys(grouping, visible))
    ensures Ordered(grouping, visible, existing, GroupKeys(grouping, visible), orders)
    ensures hidden == Collapsed(grouping, visible, existing, collapsed)
  {
    var buckets, keys := GroupVisible(grouping, visible);
    headers, orders, hidden := HandOutSlots(grouping, visible, existing, collapsed, keys, buckets);
    AllFolded(grouping, visible, existing, collapsed, keys);
  }

  method GroupVisible(grouping: Grouping, visible: seq<Entry>)
    returns (buckets: map<string, seq<Entry>>, keys: seq<string>)
    ensures keys == GroupKeys(grouping, visible) && NoRepeats(keys)
    ensures forall e | e in visible :: KeyOf(grouping, e) in keys
    ensures forall key | key in keys :: key in buckets && buckets[key] == Bucket(grouping, visible, key)
  {
    var appeared;
    buckets, appeared := FillBuckets(grouping, visible);
    keys := if grouping == ByStatus then Present(STATUS_ORDER, appeared) else appeared;
    KeysHaveBuckets(grouping, visible, keys);
  }

  method HandOutSlots(
    grouping: Grouping, ghost visible: seq<Entry>, existing: set<string>, collapsed: set<string>,
    keys: seq<string>, buckets: map<string, seq<Entry>>)
    returns (headers: seq<Box<Item>>, orders: map<string, int>, hidden: set<string>)
    requires NoRepeats(keys) && SameId(visible)
    requires forall key | key in keys :: key in buckets && buckets[key] == Bucket(grouping, visible, key)
    ensures Drawn(grouping, visible, existing, collapsed, keys, headers, orders, hidden)
  {
    headers, orders, hidden := [], map[], {};
    NothingDrawn(grouping, visible, existing, collapsed);
    for g := 0 to |keys|
      invariant Drawn(grouping, visible, existing, collapsed, keys[..g], headers, orders, hidden)
    {
      var header, placed, folded := RenderGroup(grouping, visible, existing, collapsed, keys, g, buckets[keys[g]]);
      DrawnMore(grouping, visible, existing, collapsed, keys, g, headers, orders, hidden, placed, folded);
      headers, orders, hidden := headers + [header], orders + placed, hidden + folded;
    }
    assert keys[..|keys|] == keys;
  }

  lemma BucketIds(grouping: Grouping, visible: seq<Entry>, existing: set<string>, key: string)
    ensures (set e | e in Bucket(grouping, visible, key) && e.id in existing :: e.id)
         == IdsWithKey(grouping, visible, existing, key)
  {
    BucketMembers(grouping, visible, key);
  }

  lemma KeysHaveBuckets(grouping: Grouping, visible: seq<Entry>, keys: seq<string>)
    requires keys == GroupKeys(grouping, visible)
    ensures NoRepeats(keys)
    ensures forall key | key in keys :: key in Appearing(grouping, visible)
    ensures forall e | e in visible :: KeyOf(grouping, e) in keys
  {
    GroupKeysAreThePresentOnes(grouping, visible);
    AppearingKeys(grouping, visible);
  }

  ghost predicate Filled(
    grouping: Grouping, visible: seq<Entry>, buckets: map<string, seq<Entry>>, appeared: seq<string>)
  {
    && appeared == Appearing(grouping, visible)
    && (forall key :: key in buckets <==> key in appeared)
    && forall key | key in buckets :: buckets[key] == Bucket(grouping, visible, key)
  }

  function Added(buckets: map<string, seq<Entry>>, key: string, e: Entry): map<string, seq<Entry>> {
    buckets[key := (if key in buckets then buckets[key] else []) + [e]]
  }

  lemma BucketMore(grouping: Grouping, init: seq<Entry>, e: Entry, key: string)
    ensures Bucket(grouping, init + [e], key)
         == if KeyOf(grouping, e) == key then Bucket(grouping, init, key) + [e] else Bucket(grouping, init, key)
    ensures Appearing(grouping, init + [e])
         == if KeyOf(grouping, e) in Appearing(grouping, init) then Appearing(grouping, init)
            else Appearing(grouping, init) + [KeyOf(grouping, e)]
  {
    assert (init + [e])[..|init|] == init;
    assert Bucket(grouping, init, key) + [] == Bucket(grouping, init, key);
  }

  lemma FilledMore(
    grouping: Grouping, init: seq<Entry>, e: Entry, buckets: map<string, seq<Entry>>, appeared: seq<string>)
    requires Filled(grouping, init, buckets, appeared)
    ensures var key := KeyOf(grouping, e);
      Filled(grouping, init + [e], Added(buckets, key, e), if key in buckets then appeared else appeared + [key])
  {
    var key := KeyOf(grouping, e);
    var after := Added(buckets, key, e);
    BucketMembers(grouping, init, key);
    BucketMore(grouping, init, e, key);
    forall k | k in after
      ensures after[k] == Bucket(grouping, init + [e], k)
    {
      BucketMore(grouping, init, e, k);
    }
  }

  // Into its bucket, which is made at the first row that needs it.
  method Put(buckets: map<string, seq<Entry>>, appeared: seq<string>, key: string, e: Entry)
    returns (more: map<string, seq<Entry>>, keys: seq<string>)
    ensures more == Added(buckets, key, e)
    ensures keys == if key in buckets then appeared else appeared + [key]
  {
    more, keys := buckets, appeared;
    if key !in more {
      more := more[key := []];
      keys := keys + [key];
    }
    more := more[key := more[key] + [e]];
  }

  // The Map of the rail's script: buckets by key, keys in order of first appearance.
  method FillBuckets(grouping: Grouping, visible: seq<Entry>)
    returns (buckets: map<string, seq<Entry>>, appeared: seq<string>)
    ensures Filled(grouping, visible, buckets, appeared)
  {
    buckets, appeared := map[], [];
    for n := 0 to |visible|
      invariant Filled(grouping, visible[..n], buckets, appeared)
    {
      assert visible[..n + 1] == visible[..n] + [visible[n]];
      FilledMore(grouping, visible[..n], visible[n], buckets, appeared);
      buckets, appeared := Put(buckets, appeared, KeyOf(grouping, visible[n]), visible[n]);
    }
    assert visible[..|visible|] == visible;
  }

  // --- From the painted list to the reading order --------------------------

  lemma {:induction false} KeepAppend(a: seq<string>, b: seq<string>, moved: set<string>)
    ensures Keep(a + b, moved) == Keep(a, moved) + Keep(b, moved)
  {
    if a == [] {
      assert a + b == b;
    } else {
      assert (a + b)[1..] == a[1..] + b;
      KeepAppend(a[1..], b, moved);
    }
  }

  lemma {:induction false} KeepMembers(rows: seq<string>, moved: set<string>)
    ensures forall id | id in Keep(rows, moved) :: id in rows && id !in moved
  {
    if rows != [] {
      KeepMembers(rows[1..], moved);
    }
  }

  lemma {:induction false} ShownAppend(
    a: seq<string>, b: seq<string>, inView: set<string>, orders: map<string, int>, hidden: set<string>)
    ensures ShownRows(a + b, inView, orders, hidden)
         == ShownRows(a, inView, orders, hidden) + ShownRows(b, inView, orders, hidden)
  {
    if b == [] {
      assert a + b == a;
    } else {
      assert (a + b)[..|a + b| - 1] == a + b[..|b| - 1];
      ShownAppend(a, b[..|b| - 1], inView, orders, hidden);
    }
  }

  lemma {:induction false} NoneShown(
    rows: seq<string>, inView: set<string>, orders: map<string, int>, hidden: set<string>)
    requires forall id | id in rows :: id !in inView
    ensures ShownRows(rows, inView, orders, hidden) == []
  {
    if rows != [] {
      assert rows[|rows| - 1] in rows && forall id | id in rows[..|rows| - 1] :: id in rows;
      NoneShown(rows[..|rows| - 1], inView, orders, hidden);
    }
  }

  // The row of one entry, as the list shows it and as the groups count it.
  predicate Agrees(
    e: Entry, existing: set<string>, moved: set<string>, inView: set<string>,
    orders: map<string, int>, hidden: set<string>, collapsed: set<string>, keys: seq<string>)
  {
    && (e.id in moved <==> e.project != "" && e.project != LOCAL)
    && (e.project == LOCAL ==> e.id !in hidden)
    && (e.project == "" && e.id in inView && e.id in existing ==>
         && (e.id in hidden <==> KeyOf(ByStatus, e) in collapsed)
         && e.id in orders && orders[e.id] == SlotOf(keys, KeyOf(ByStatus, e)))
  }

  function OwnRow(e: Entry, inView: set<string>, existing: set<string>): seq<Entry> {
    if e.project == "" && e.id in inView && e.id in existing then [e] else []
  }

  lemma LastEntryWithRow(entries: seq<Entry>, inView: set<string>, existing: set<string>)
    requires entries != []
    ensures var init := entries[..|entries| - 1];
      WithRows(General(entries, inView), existing)
      == WithRows(General(init, inView), existing) + OwnRow(entries[|entries| - 1], inView, existing)
  {
    var last := entries[|entries| - 1];
    var before := General(entries[..|entries| - 1], inView);
    if last.project == "" && last.id in inView {
      assert General(entries, inView) == before + [last];
      assert (before + [last])[..|before|] == before;
    } else {
      assert before + [] == before;
      assert WithRows(before, existing) + [] == WithRows(before, existing);
    }
  }

  // The box of one entry's row, if the list shows it: a row of the local project
  // has no order, or one left from an earlier grouping.
  function ListBox(
    e: Entry, inView: set<string>, existing: set<string>, orders: map<string, int>,
    collapsed: set<string>, keys: seq<string>): seq<Box<Item>>
  {
    if e.id !in inView || e.id !in existing then []
    else if e.project == "" then RowBox(ByStatus, e, collapsed, keys)
    else if e.project == LOCAL then [Box(Row(e.id), if e.id in orders then orders[e.id] else 0)]
    else []
  }

  function ListBoxes(
    entries: seq<Entry>, inView: set<string>, existing: set<string>, orders: map<string, int>,
    collapsed: set<string>, keys: seq<string>): seq<Box<Item>>
  {
    if entries == [] then []
    else
      ListBoxes(entries[..|entries| - 1], inView, existing, orders, collapsed, keys) +
      ListBox(entries[|entries| - 1], inView, existing, orders, collapsed, keys)
  }

  lemma OneRowShown(
    e: Entry, row: seq<string>, existing: set<string>, moved: set<string>, inView: set<string>,
    orders: map<string, int>, hidden: set<string>, collapsed: set<string>, keys: seq<string>)
    requires Agrees(e, existing, moved, inView, orders, hidden, collapsed, keys)
    requires row == if e.id in existing then [e.id] else []
    ensures ShownRows(Keep(row, moved), inView, orders, hidden)
         == ListBox(e, inView, existing, orders, collapsed, keys)
  {
    if e.id in existing {
      assert row[1..] == [];
      if e.id !in moved {
        assert Keep(row, moved) == [e.id] && [e.id][..0] == [];
      }
    }
  }

  lemma OwnRowBox(e: Entry, own: seq<Entry>, before: seq<Entry>, collapsed: set<string>, keys: seq<string>)
    requires own == [e] || own == []
    ensures RowBoxes(ByStatus, before + own, collapsed, keys)
         == RowBoxes(ByStatus, before, collapsed, keys)
            + if own == [] then [] else RowBox(ByStatus, e, collapsed, keys)
  {
    if own == [] {
      assert before + own == before;
    } else {
      assert (before + [e])[..|before|] == before;
    }
  }

  lemma {:induction false} ListedRowsShown(
    entries: seq<Entry>, existing: set<string>, moved: set<string>, inView: set<string>,
    orders: map<string, int>, hidden: set<string>, collapsed: set<string>, keys: seq<string>)
    requires forall e | e in entries :: Agrees(e, existing, moved, inView, orders, hidden, collapsed, keys)
    ensures ShownRows(Keep(RowsOf(entries, existing), moved), inView, orders, hidden)
         == ListBoxes(entries, inView, existing, orders, collapsed, keys)
  {
    if entries != [] {
      var init := entries[..|entries| - 1];
      var last := entries[|entries| - 1];
      assert last in entries && forall e | e in init :: e in entries;
      ListedRowsShown(init, existing, moved, inView, orders, hidden, collapsed, keys);
      var row := if last.id in existing then [last.id] else [];
      KeepAppend(RowsOf(init, existing), row, moved);
      ShownAppend(Keep(RowsOf(init, existing), moved), Keep(row, moved), inView, orders, hidden);
      OneRowShown(last, row, existing, moved, inView, orders, hidden, collapsed, keys);
    }
  }

  // The list's boxes are those of the general chats, and one for each stray.
  lemma {:induction false} ListBoxesAreRows(
    entries: seq<Entry>, inView: set<string>, existing: set<string>, orders: map<string, int>,
    collapsed: set<string>, keys: seq<string>)
    ensures var boxes := ListBoxes(entries, inView, existing, orders, collapsed, keys);
      var rows := RowBoxes(ByStatus, WithRows(General(entries, inView), existing), collapsed, keys);
      && |boxes| == |rows| + |Strays(entries, inView, existing)|
      && (Strays(entries, inView, existing) == [] ==> boxes == rows)
  {
    if entries != [] {
      var init := entries[..|entries| - 1];
      var last := entries[|entries| - 1];
      ListBoxesAreRows(init, inView, existing, orders, collapsed, keys);
      LastEntryWithRow(entries, inView, existing);
      OwnRowBox(last, OwnRow(last, inView, existing), WithRows(General(init, inView), existing), collapsed, keys);
    }
  }

  lemma {:induction false} StraysMembers(entries: seq<Entry>, inView: set<string>, existing: set<string>)
    ensures Strays(entries, inView, existing) == []
       <==> forall e | e in entries && e.project == LOCAL && e.id in inView :: e.id !in existing
  {
    if entries != [] {
      var init := entries[..|entries| - 1];
      var last := entries[|entries| - 1];
      StraysMembers(init, inView, existing);
      assert entries == init + [last];
    }
  }

  lemma {:induction false} GeneralMembers(entries: seq<Entry>, inView: set<string>)
    ensures forall e :: e in General(entries, inView) <==> e in entries && e.project == "" && e.id in inView
  {
    if entries != [] {
      assert entries == entries[..|entries| - 1] + [entries[|entries| - 1]];
      GeneralMembers(entries[..|entries| - 1], inView);
    }
  }

  lemma {:induction false} WithRowsMembers(entries: seq<Entry>, existing: set<string>)
    ensures forall e :: e in WithRows(entries, existing) <==> e in entries && e.id in existing
  {
    if entries != [] {
      assert entries == entries[..|entries| - 1] + [entries[|entries| - 1]];
      WithRowsMembers(entries[..|entries| - 1], existing);
    }
  }

  // The list's row children, shown, are the visible chats that stay and have a
  // row, in recency order; rows not listed stay hidden.
  lemma ChildrenShown(
    rows: seq<string>, existing: set<string>, entries: seq<Entry>, inView: set<string>,
    collapsed: set<string>, orders: map<string, int>, hidden: set<string>, keys: seq<string>)
    requires Distinct(entries) && inView <= IdsOf(entries)
    requires forall id | id in rows :: id in existing
    requires forall e | e in entries ::
      Agrees(e, existing, Moved(entries), inView, orders, hidden, collapsed, keys)
    ensures ShownRows(Keep(Arrange(rows, existing, entries), Moved(entries)), inView, orders, hidden)
         == ListBoxes(entries, inView, existing, orders, collapsed, keys)
  {
    var moved := Moved(entries);
    var unlisted := Keep(rows, IdsOf(entries) * existing);
    ArrangedInRecencyOrder(rows, existing, entries);
    KeepAppend(unlisted, RowsOf(entries, existing), moved);
    KeepMembers(rows, IdsOf(entries) * existing);
    KeepMembers(unlisted, moved);
    NoneShown(Keep(unlisted, moved), inView, orders, hidden);
    ShownAppend(Keep(unlisted, moved), Keep(RowsOf(entries, existing), moved), inView, orders, hidden);
    ListedRowsShown(entries, existing, moved, inView, orders, hidden, collapsed, keys);
  }

  // Every general chat in view that has a row has the order of its group, and is
  // hidden exactly when that is collapsed; other rows may have any order.
  predicate Slotted(
    visible: seq<Entry>, existing: set<string>, keys: seq<string>, orders: map<string, int>)
  {
    forall e | e in visible && e.id in existing && KeyOf(ByStatus, e) in keys ::
      e.id in orders && orders[e.id] == SlotOf(keys, KeyOf(ByStatus, e))
  }

  // What the list shows, in document order: its rows, the settled section, and
  // the headers behind it.
  function Painted(
    rows: seq<string>, existing: set<string>, entries: seq<Entry>, inView: set<string>,
    collapsed: set<string>, orders: map<string, int>, hidden: set<string>): seq<Box<Item>>
  {
    var visible := General(entries, inView);
    ShownRows(Keep(Arrange(rows, existing, entries), Moved(entries)), inView, orders, hidden)
    + [Box(SettledSection, SETTLED_ORDER)]
    + HeaderBoxes(ByStatus, visible, collapsed, GroupKeys(ByStatus, visible))
  }

  lemma {:induction false} LayoutKeepsLength<T>(boxes: seq<Box<T>>)
    ensures |Layout(boxes)| == |boxes|
  {
    if boxes != [] {
      LayoutKeepsLength(boxes[1..]);
      InsertAddsOne(boxes[0], Layout(boxes[1..]));
    }
  }

  lemma {:induction false} InsertAddsOne<T>(b: Box<T>, sorted: seq<Box<T>>)
    ensures |Insert(b, sorted)| == 1 + |sorted|
  {
    if sorted != [] && b.order > sorted[0].order {
      InsertAddsOne(b, sorted[1..]);
    }
  }

  lemma {:induction false} ItemsKeepLength(boxes: seq<Box<Item>>)
    ensures |Items(boxes)| == |boxes|
  {
    if boxes != [] {
      ItemsKeepLength(boxes[1..]);
    }
  }

  // From server rows and inbox entries to the screen: arranged, moved, ordered,
  // folded and laid out, the rail reads as the stable grouping of its visible
  // general chats, and the settled section last, if and only if no row in view
  // belongs to the local project: such a row stays in the list and in no group.
  lemma PaintedRailIsStableGroupingIff(
    rows: seq<string>, existing: set<string>, entries: seq<Entry>, inView: set<string>,
    collapsed: set<string>, orders: map<string, int>, hidden: set<string>)
    requires Distinct(entries) && inView <= IdsOf(entries)
    requires forall id | id in rows :: id in existing
    requires var visible := General(entries, inView);
      && Slotted(visible, existing, GroupKeys(ByStatus, visible), orders)
      && hidden == Collapsed(ByStatus, visible, existing, collapsed)
    ensures var visible := General(entries, inView);
      Items(Layout(Painted(rows, existing, entries, inView, collapsed, orders, hidden)))
        == Sections(ByStatus, visible, WithRows(visible, existing), collapsed) + [SettledSection]
      <==> forall e | e in entries && e.project == LOCAL && e.id in inView :: e.id !in existing
  {
    var visible := General(entries, inView);
    var keys := GroupKeys(ByStatus, visible);
    var general := WithRows(visible, existing);
    EntriesAgree(existing, entries, inView, collapsed, orders, hidden);
    ChildrenShown(rows, existing, entries, inView, collapsed, orders, hidden, keys);
    WithRowsMembers(visible, existing);
    GroupedRailIsStableGrouping(visible, general, collapsed);
    ListBoxesAreRows(entries, inView, existing, orders, collapsed, keys);
    StraysMembers(entries, inView, existing);
    RailLength(Shown(ByStatus, visible, general, collapsed, keys));
    RailLength(Painted(rows, existing, entries, inView, collapsed, orders, hidden));
  }

  lemma RailLength(boxes: seq<Box<Item>>)
    ensures |Items(Layout(boxes))| == |boxes|
  {
    LayoutKeepsLength(boxes);
    ItemsKeepLength(Layout(boxes));
  }

  lemma EntriesAgree(
    existing: set<string>, entries: seq<Entry>, inView: set<string>,
    collapsed: set<string>, orders: map<string, int>, hidden: set<string>)
    requires Distinct(entries)
    requires var visible := General(entries, inView);
      && Slotted(visible, existing, GroupKeys(ByStatus, visible), orders)
      && hidden == Collapsed(ByStatus, visible, existing, collapsed)
    ensures forall e | e in entries ::
      Agrees(e, existing, Moved(entries), inView, orders, hidden, collapsed,
             GroupKeys(ByStatus, General(entries, inView)))
  {
    var visible := General(entries, inView);
    GeneralMembers(entries, inView);
    GroupKeysAreThePresentOnes(ByStatus, visible);
    assert SameId(entries);
    forall e | e in entries
      ensures Agrees(e, existing, Moved(entries), inView, orders, hidden, collapsed, GroupKeys(ByStatus, visible))
    {
      if e.project == "" && e.id in inView && e.id in existing {
        assert e in visible;
      }
    }
  }

  // --- Each row once -------------------------------------------------------

  function Count(items: seq<Item>, item: Item): nat {
    multiset(items)[item]
  }

  lemma CountAppend(a: seq<Item>, b: seq<Item>, item: Item)
    ensures Count(a + b, item) == Count(a, item) + Count(b, item)
  {
  }

  lemma GroupItemHolds(grouping: Grouping, f: Entry, collapsed: set<string>, key: string, id: string)
    ensures Count(GroupItem(grouping, f, collapsed, key), Row(id))
         == if f.id == id && KeyOf(grouping, f) == key && key !in collapsed then 1 else 0
  {
  }

  lemma GroupHoldsMore(
    grouping: Grouping, init: seq<Entry>, last: Entry, collapsed: set<string>, key: string, id: string)
    ensures Count(GroupItems(grouping, init + [last], collapsed, key), Row(id))
         == Count(GroupItems(grouping, init, collapsed, key), Row(id))
            + if last.id == id && KeyOf(grouping, last) == key && key !in collapsed then 1 else 0
  {
    assert (init + [last])[..|init|] == init;
    GroupItemHolds(grouping, last, collapsed, key, id);
    CountAppend(GroupItems(grouping, init, collapsed, key), GroupItem(grouping, last, collapsed, key), Row(id));
  }

  lemma {:induction false} GroupHoldsNone(
    grouping: Grouping, rows: seq<Entry>, collapsed: set<string>, key: string, id: string)
    requires forall f | f in rows :: f.id != id
    ensures Count(GroupItems(grouping, rows, collapsed, key), Row(id)) == 0
  {
    if rows != [] {
      var init := rows[..|rows| - 1];
      var last := rows[|rows| - 1];
      assert rows == init + [last] && last in rows && forall f | f in init :: f in rows;
      GroupHoldsNone(grouping, init, collapsed, key, id);
      GroupHoldsMore(grouping, init, last, collapsed, key, id);
    }
  }

  lemma LastIsDistinct(rows: seq<Entry>)
    requires rows != [] && Distinct(rows)
    ensures var init := rows[..|rows| - 1];
      && Distinct(init) && rows == init + [rows[|rows| - 1]]
      && forall f | f in init :: f.id != rows[|rows| - 1].id
  {
  }

  // One more row: itself once if it is the entry, and the others as before.
  lemma HeldOnceMore(
    grouping: Grouping, init: seq<Entry>, last: Entry, collapsed: set<string>, key: string, e: Entry, own: string)
    requires (forall f | f in init :: f.id != last.id) && own == KeyOf(grouping, e)
    requires e in init ==>
      Count(GroupItems(grouping, init, collapsed, key), Row(e.id)) == if own == key && key !in collapsed then 1 else 0
    requires e in init + [last]
    ensures Count(GroupItems(grouping, init + [last], collapsed, key), Row(e.id))
         == if own == key && key !in collapsed then 1 else 0
  {
    GroupHoldsMore(grouping, init, last, collapsed, key, e.id);
    if e !in init {
      GroupHoldsNone(grouping, init, collapsed, key, e.id);
    }
  }

  lemma {:induction false} GroupHoldsOnce(
    grouping: Grouping, rows: seq<Entry>, collapsed: set<string>, key: string, e: Entry, own: string)
    requires Distinct(rows) && e in rows && own == KeyOf(grouping, e)
    ensures Count(GroupItems(grouping, rows, collapsed, key), Row(e.id))
         == if own == key && key !in collapsed then 1 else 0
  {
    LastIsDistinct(rows);
    var init := rows[..|rows| - 1];
    if e in init {
      GroupHoldsOnce(grouping, init, collapsed, key, e, own);
    }
    HeldOnceMore(grouping, init, rows[|rows| - 1], collapsed, key, e, own);
  }

  lemma FlattenMore(before: seq<Section>, section: Section, id: string)
    requires section.header.Header?
    ensures Count(Flatten(before + [section]), Row(id))
         == Count(Flatten(before), Row(id)) + Count(section.rows, Row(id))
  {
    assert (before + [section])[..|before|] == before;
    CountAppend(Flatten(before) + [section.header], section.rows, Row(id));
    CountAppend(Flatten(before), [section.header], Row(id));
    assert Count([section.header], Row(id)) == 0;
  }

  lemma {:induction false} SectionsHoldOnce(
    grouping: Grouping, visible: seq<Entry>, rows: seq<Entry>, collapsed: set<string>, keys: seq<string>,
    e: Entry, key: string)
    requires Distinct(rows) && e in rows && NoRepeats(keys) && key == KeyOf(grouping, e)
    ensures Count(Flatten(SectionsOf(grouping, visible, rows, collapsed, keys)), Row(e.id))
         == if key in keys && key !in collapsed then 1 else 0
  {
    if keys != [] {
      var init := keys[..|keys| - 1];
      var last := keys[|keys| - 1];
      SectionsHoldOnce(grouping, visible, rows, collapsed, init, e, key);
      GroupHoldsOnce(grouping, rows, collapsed, last, e, key);
      FlattenMore(SectionsOf(grouping, visible, rows, collapsed, init),
                  SectionOf(grouping, visible, rows, collapsed, last), e.id);
      LastKey(keys, key);
    }
  }

  lemma LastKey(keys: seq<string>, key: string)
    requires keys != [] && NoRepeats(keys)
    ensures var init := keys[..|keys| - 1];
      && NoRepeats(init)
      && (key in keys <==> key in init || key == keys[|keys| - 1])
      && !(key in init && key == keys[|keys| - 1])
  {
    assert keys == keys[..|keys| - 1] + [keys[|keys| - 1]];
  }

  lemma DistinctMore(before: seq<Entry>, last: Entry)
    requires Distinct(before) && forall f | f in before :: f.id != last.id
    ensures Distinct(before + [last])
  {
  }

  lemma {:induction false} GeneralStaysDistinct(entries: seq<Entry>, inView: set<string>)
    requires Distinct(entries)
    ensures Distinct(General(entries, inView))
  {
    if entries != [] {
      LastIsDistinct(entries);
      var init := entries[..|entries| - 1];
      GeneralStaysDistinct(init, inView);
      GeneralMembers(init, inView);
      DistinctMore(General(init, inView), entries[|entries| - 1]);
      assert General(init, inView) + [] == General(init, inView);
    }
  }

  lemma {:induction false} WithRowsStaysDistinct(entries: seq<Entry>, existing: set<string>)
    requires Distinct(entries)
    ensures Distinct(WithRows(entries, existing))
  {
    if entries != [] {
      LastIsDistinct(entries);
      var init := entries[..|entries| - 1];
      WithRowsStaysDistinct(init, existing);
      WithRowsMembers(init, existing);
      DistinctMore(WithRows(init, existing), entries[|entries| - 1]);
      assert WithRows(init, existing) + [] == WithRows(init, existing);
    }
  }

  // Every general chat in view that has a row is read exactly once, or not at
  // all if its group is collapsed.
  lemma EachRowIsReadOnce(
    entries: seq<Entry>, inView: set<string>, existing: set<string>, collapsed: set<string>, e: Entry)
    requires Distinct(entries) && e in entries && e.project == "" && e.id in inView && e.id in existing
    ensures var visible := General(entries, inView);
      Count(Sections(ByStatus, visible, WithRows(visible, existing), collapsed), Row(e.id))
      == if KeyOf(ByStatus, e) in collapsed then 0 else 1
  {
    var visible := General(entries, inView);
    var keys := GroupKeys(ByStatus, visible);
    GeneralMembers(entries, inView);
    WithRowsMembers(visible, existing);
    GeneralStaysDistinct(entries, inView);
    WithRowsStaysDistinct(visible, existing);
    GroupKeysAreThePresentOnes(ByStatus, visible);
    assert KeyOf(ByStatus, e) in keys;
    SectionsHoldOnce(
      ByStatus, visible, WithRows(visible, existing), collapsed, keys, e, KeyOf(ByStatus, e));
  }
}

// Reading a snapshot: its values, and the relationships between its rows.
module ImportSource {
  import opened Options
  import opened SqliteImport

  // A snapshot, with what its integrity, shape and stability checks say.
  datatype Snapshot = Snapshot(
    sound: bool, columns: map<string, seq<Column>>, raw: map<string, seq<seq<Value>>>)

  predicate WellShaped(m: Manifest, snapshot: Snapshot) {
    && "kg_facts" in m.order
    && forall name | name in m.order ::
         && name in snapshot.columns && name in snapshot.raw && DistinctNames(snapshot.columns[name])
         && forall values | values in snapshot.raw[name] :: |values| == |snapshot.columns[name]|
  }

  // The rows are those of the snapshot, table by table and in order.
  predicate ReadFrom(name: string, snapshot: Snapshot, rows: Source)
    requires name in snapshot.columns && name in snapshot.raw
    requires forall values | values in snapshot.raw[name] :: |values| == |snapshot.columns[name]|
  {
    && name in rows && |rows[name]| == |snapshot.raw[name]|
    && forall k | 0 <= k < |snapshot.raw[name]| ::
         Holds(rows[name][k], snapshot.columns[name], snapshot.raw[name][k])
  }

  predicate AnyUnstorable(name: string, snapshot: Snapshot)
    requires name in snapshot.columns && name in snapshot.raw
    requires forall values | values in snapshot.raw[name] :: |values| == |snapshot.columns[name]|
  {
    exists values | values in snapshot.raw[name] :: !StorableRow(snapshot.columns[name], values)
  }

  // --- The relationships, row by row ---------------------------------------

  // The value a row holds in a column, or null if there is no such column.
  function Cell(columns: seq<Column>, values: seq<Value>, name: string): Value
    requires |values| == |columns|
  {
    if columns == [] then Null
    else if columns[0].name == name then values[0]
    else Cell(columns[1..], values[1..], name)
  }

  function RowsRead(m: Manifest, snapshot: Snapshot, table: string): seq<seq<Value>>
    requires WellShaped(m, snapshot)
  {
    if table in m.order then snapshot.raw[table] else []
  }

  function Key(m: Manifest, snapshot: Snapshot, table: string, values: seq<Value>, column: string): Value
    requires WellShaped(m, snapshot) && values in RowsRead(m, snapshot, table)
  {
    Cell(snapshot.columns[table], values, column)
  }

  // A key that is the id of some row; a null one is none.
  predicate IsIdOf(m: Manifest, snapshot: Snapshot, table: string, key: Value)
    requires WellShaped(m, snapshot)
  {
    key != Null
    && exists parent | parent in RowsRead(m, snapshot, table) :: Key(m, snapshot, table, parent, "id") == key
  }

  // Every row that has a key has a parent.
  predicate ParentsExist(m: Manifest, snapshot: Snapshot, child: string, column: string, parent: string)
    requires WellShaped(m, snapshot)
  {
    forall values | values in RowsRead(m, snapshot, child) ::
      var key := Key(m, snapshot, child, values, column);
      key == Null || IsIdOf(m, snapshot, parent, key)
  }

  // Every row has a key, and a parent.
  predicate ParentsRequired(m: Manifest, snapshot: Snapshot, child: string, column: string, parent: string)
    requires WellShaped(m, snapshot)
  {
    forall values | values in RowsRead(m, snapshot, child) ::
      IsIdOf(m, snapshot, parent, Key(m, snapshot, child, values, column))
  }

  // No row refers to one that is not there.
  predicate NoOrphans(m: Manifest, snapshot: Snapshot)
    requires WellShaped(m, snapshot)
  {
    && ParentsExist(m, snapshot, "goals", "parent_goal_id", "goals")
    && ParentsExist(m, snapshot, "tasks", "goal_id", "goals")
    && ParentsExist(m, snapshot, "tasks", "workflow_run_id", "workflow_runs")
    && ParentsRequired(m, snapshot, "workflow_step_executions", "workflow_run_id", "workflow_runs")
    && ParentsRequired(m, snapshot, "task_events", "task_id", "tasks")
    && ParentsExist(m, snapshot, "turns", "task_id", "tasks")
  }

  lemma {:induction false} CellIsField(payload: Row, columns: seq<Column>, values: seq<Value>, name: string)
    requires |values| == |columns|
    requires forall j | 0 <= j < |columns| :: columns[j].name in payload && payload[columns[j].name] == values[j]
    ensures (exists j :: 0 <= j < |columns| && columns[j].name == name)
      ==> name in payload && Cell(columns, values, name) == payload[name]
    ensures (forall j | 0 <= j < |columns| :: columns[j].name != name) ==> Cell(columns, values, name) == Null
  {
    if columns != [] && columns[0].name != name {
      var more, rest := columns[1..], values[1..];
      assert forall j | 0 <= j < |more| :: more[j] == columns[j + 1] && rest[j] == values[j + 1];
      CellIsField(payload, more, rest, name);
      if j :| 0 <= j < |columns| && columns[j].name == name {
        assert more[j - 1].name == name;
      }
    }
  }

  lemma CellOfHeld(payload: Row, columns: seq<Column>, values: seq<Value>, name: string)
    requires |values| == |columns| && Holds(payload, columns, values)
    ensures Field(payload, name) == Cell(columns, values, name)
  {
    CellIsField(payload, columns, values, name);
    if name in payload {
      var c :| c in columns && c.name == name;
      var j :| 0 <= j < |columns| && columns[j] == c;
    } else {
      forall j | 0 <= j < |columns|
        ensures columns[j].name != name
      {
        assert columns[j].name in payload;
      }
    }
  }

  predicate AllRead(m: Manifest, snapshot: Snapshot, rows: Source)
    requires WellShaped(m, snapshot)
  {
    rows.Keys == (set name | name in m.order) && forall name | name in m.order :: ReadFrom(name, snapshot, rows)
  }

  // A payload and the row it was read from say the same in every column.
  ghost predicate Reads(row: Row, columns: seq<Column>, values: seq<Value>) {
    |values| == |columns| && forall name: string :: Field(row, name) == Cell(columns, values, name)
  }

  // The rows of a table as held and as read, one for one.
  ghost predicate Paired(held: seq<Row>, columns: seq<Column>, raw: seq<seq<Value>>) {
    |held| == |raw| && forall k | 0 <= k < |raw| :: Reads(held[k], columns, raw[k])
  }

  lemma TableIsRead(columns: seq<Column>, raw: seq<seq<Value>>, held: seq<Row>)
    requires |held| == |raw|
    requires forall k | 0 <= k < |raw| :: |raw[k]| == |columns| && Holds(held[k], columns, raw[k])
    ensures Paired(held, columns, raw)
  {
    forall k | 0 <= k < |raw|
      ensures Reads(held[k], columns, raw[k])
    {
      forall name: string
        ensures Field(held[k], name) == Cell(columns, raw[k], name)
      {
        CellOfHeld(held[k], columns, raw[k], name);
      }
    }
  }

  function ColumnsOf(m: Manifest, snapshot: Snapshot, table: string): seq<Column>
    requires WellShaped(m, snapshot)
  {
    if table in m.order then snapshot.columns[table] else []
  }

  function HeldIn(rows: Source, table: string): seq<Row> {
    if table in rows then rows[table] else []
  }

  lemma TableIsPaired(m: Manifest, snapshot: Snapshot, rows: Source, table: string)
    requires WellShaped(m, snapshot) && AllRead(m, snapshot, rows)
    ensures Paired(HeldIn(rows, table), ColumnsOf(m, snapshot, table), RowsRead(m, snapshot, table))
    ensures RowsIn(Bags(rows), table) == multiset(HeldIn(rows, table))
  {
    if table in m.order {
      assert ReadFrom(table, snapshot, rows);
      forall k | 0 <= k < |snapshot.raw[table]|
        ensures |snapshot.raw[table][k]| == |snapshot.columns[table]|
      {
        assert snapshot.raw[table][k] in snapshot.raw[table];
      }
      TableIsRead(snapshot.columns[table], snapshot.raw[table], rows[table]);
    }
  }

  // Some row holds this value in this column.
  predicate Occurs(held: seq<Row>, column: string, value: Value) {
    exists k | 0 <= k < |held| :: Field(held[k], column) == value
  }

  predicate OccursRead(columns: seq<Column>, raw: seq<seq<Value>>, column: string, value: Value)
    requires forall k | 0 <= k < |raw| :: |raw[k]| == |columns|
  {
    exists k | 0 <= k < |raw| :: Cell(columns, raw[k], column) == value
  }

  lemma OccurrencesMatch(held: seq<Row>, columns: seq<Column>, raw: seq<seq<Value>>, column: string, value: Value)
    requires Paired(held, columns, raw) && forall k | 0 <= k < |raw| :: |raw[k]| == |columns|
    ensures Occurs(held, column, value) <==> OccursRead(columns, raw, column, value)
  {
    if Occurs(held, column, value) {
      var k :| 0 <= k < |held| && Field(held[k], column) == value;
      assert Reads(held[k], columns, raw[k]);
      assert Cell(columns, raw[k], column) == value;
    }
    if OccursRead(columns, raw, column, value) {
      var k :| 0 <= k < |raw| && Cell(columns, raw[k], column) == value;
      assert Reads(held[k], columns, raw[k]);
      assert Field(held[k], column) == value;
    }
  }

  lemma ParentOccurs(rows: Source, link: Link, row: Row, key: Value)
    requires key == Field(row, link.column)
    requires RowsIn(Bags(rows), link.parent) == multiset(HeldIn(rows, link.parent))
    ensures HasParent(Bags(rows), link, row) <==> key != Null && Occurs(HeldIn(rows, link.parent), "id", key)
  {
    var held := HeldIn(rows, link.parent);
    if Occurs(held, "id", key) {
      var k :| 0 <= k < |held| && Field(held[k], "id") == key;
      assert held[k] in RowsIn(Bags(rows), link.parent);
    }
    if HasParent(Bags(rows), link, row) {
      var parent :| parent in RowsIn(Bags(rows), link.parent) && Field(parent, "id") == key;
      var k :| 0 <= k < |held| && held[k] == parent;
      assert Occurs(held, "id", key);
    }
  }

  lemma RawWidths(m: Manifest, snapshot: Snapshot, table: string)
    requires WellShaped(m, snapshot)
    ensures var raw := RowsRead(m, snapshot, table);
      forall k | 0 <= k < |raw| :: |raw[k]| == |ColumnsOf(m, snapshot, table)|
  {
    var raw := RowsRead(m, snapshot, table);
    forall k | 0 <= k < |raw|
      ensures |raw[k]| == |ColumnsOf(m, snapshot, table)|
    {
      assert raw[k] in raw;
    }
  }

  lemma IdOccurs(m: Manifest, snapshot: Snapshot, table: string, key: Value)
    requires WellShaped(m, snapshot)
    requires var raw := RowsRead(m, snapshot, table);
      forall k | 0 <= k < |raw| :: |raw[k]| == |ColumnsOf(m, snapshot, table)|
    ensures IsIdOf(m, snapshot, table, key)
      <==> key != Null && OccursRead(ColumnsOf(m, snapshot, table), RowsRead(m, snapshot, table), "id", key)
  {
    var raw, columns := RowsRead(m, snapshot, table), ColumnsOf(m, snapshot, table);
    if IsIdOf(m, snapshot, table, key) {
      var values :| values in raw && Key(m, snapshot, table, values, "id") == key;
      var k :| 0 <= k < |raw| && raw[k] == values;
      assert Cell(columns, raw[k], "id") == key;
    }
    if key != Null && OccursRead(columns, raw, "id", key) {
      var k :| 0 <= k < |raw| && Cell(columns, raw[k], "id") == key;
      assert raw[k] in raw && Key(m, snapshot, table, raw[k], "id") == key;
    }
  }

  lemma SameIds(m: Manifest, snapshot: Snapshot, rows: Source, link: Link, row: Row, key: Value)
    requires WellShaped(m, snapshot) && AllRead(m, snapshot, rows) && key == Field(row, link.column)
    ensures HasParent(Bags(rows), link, row) <==> IsIdOf(m, snapshot, link.parent, key)
  {
    TableIsPaired(m, snapshot, rows, link.parent);
    RawWidths(m, snapshot, link.parent);
    OccurrencesMatch(HeldIn(rows, link.parent), ColumnsOf(m, snapshot, link.parent),
                     RowsRead(m, snapshot, link.parent), "id", key);
    ParentOccurs(rows, link, row, key);
    IdOccurs(m, snapshot, link.parent, key);
  }

  // What one relationship asks of the rows as read.
  predicate LinkKept(m: Manifest, snapshot: Snapshot, link: Link)
    requires WellShaped(m, snapshot)
  {
    if link.optional then ParentsExist(m, snapshot, link.child, link.column, link.parent)
    else ParentsRequired(m, snapshot, link.child, link.column, link.parent)
  }

  // What one relationship asks of a key.
  predicate KeyKept(m: Manifest, snapshot: Snapshot, link: Link, key: Value)
    requires WellShaped(m, snapshot)
  {
    (link.optional && key == Null) || IsIdOf(m, snapshot, link.parent, key)
  }

  lemma UnbrokenRows(m: Manifest, snapshot: Snapshot, rows: Source, link: Link)
    requires WellShaped(m, snapshot) && AllRead(m, snapshot, rows)
    ensures var held := HeldIn(rows, link.child);
      !Broken(Bags(rows), link)
      <==> forall k | 0 <= k < |held| :: KeyKept(m, snapshot, link, Field(held[k], link.column))
  {
    var held := HeldIn(rows, link.child);
    TableIsPaired(m, snapshot, rows, link.child);
    forall k | 0 <= k < |held|
      ensures held[k] in RowsIn(Bags(rows), link.child)
      ensures HasParent(Bags(rows), link, held[k]) <==> IsIdOf(m, snapshot, link.parent, Field(held[k], link.column))
    {
      SameIds(m, snapshot, rows, link, held[k], Field(held[k], link.column));
    }
    if Broken(Bags(rows), link) {
      var row :| row in RowsIn(Bags(rows), link.child)
        && (link.optional ==> Field(row, link.column) != Null) && !HasParent(Bags(rows), link, row);
      var k :| 0 <= k < |held| && held[k] == row;
      assert !KeyKept(m, snapshot, link, Field(held[k], link.column));
    }
  }

  lemma KeptRows(m: Manifest, snapshot: Snapshot, link: Link)
    requires WellShaped(m, snapshot)
    requires var raw := RowsRead(m, snapshot, link.child);
      forall k | 0 <= k < |raw| :: |raw[k]| == |ColumnsOf(m, snapshot, link.child)|
    ensures var raw := RowsRead(m, snapshot, link.child);
      LinkKept(m, snapshot, link) <==> forall k | 0 <= k < |raw| ::
        KeyKept(m, snapshot, link, Cell(ColumnsOf(m, snapshot, link.child), raw[k], link.column))
  {
    var raw, columns := RowsRead(m, snapshot, link.child), ColumnsOf(m, snapshot, link.child);
    forall k | 0 <= k < |raw|
      ensures raw[k] in raw
      ensures Key(m, snapshot, link.child, raw[k], link.column) == Cell(columns, raw[k], link.column)
    {
    }
    if forall k | 0 <= k < |raw| :: KeyKept(m, snapshot, link, Cell(columns, raw[k], link.column)) {
      forall values | values in raw
        ensures KeyKept(m, snapshot, link, Key(m, snapshot, link.child, values, link.column))
      {
        var k :| 0 <= k < |raw| && raw[k] == values;
      }
    }
  }

  lemma UnbrokenIff(m: Manifest, snapshot: Snapshot, rows: Source, link: Link)
    requires WellShaped(m, snapshot) && AllRead(m, snapshot, rows)
    ensures !Broken(Bags(rows), link) <==> LinkKept(m, snapshot, link)
  {
    var held, raw := HeldIn(rows, link.child), RowsRead(m, snapshot, link.child);
    var columns := ColumnsOf(m, snapshot, link.child);
    TableIsPaired(m, snapshot, rows, link.child);
    RawWidths(m, snapshot, link.child);
    UnbrokenRows(m, snapshot, rows, link);
    KeptRows(m, snapshot, link);
    forall k | 0 <= k < |held|
      ensures Field(held[k], link.column) == Cell(columns, raw[k], link.column)
    {
      assert Reads(held[k], columns, raw[k]);
    }
  }

  lemma GoalLinks(m: Manifest, snapshot: Snapshot)
    requires WellShaped(m, snapshot)
    ensures LinkKept(m, snapshot, GOAL_OF_GOAL) == ParentsExist(m, snapshot, "goals", "parent_goal_id", "goals")
    ensures LinkKept(m, snapshot, GOAL_OF_TASK) == ParentsExist(m, snapshot, "tasks", "goal_id", "goals")
  {
  }

  lemma RunLinks(m: Manifest, snapshot: Snapshot)
    requires WellShaped(m, snapshot)
    ensures LinkKept(m, snapshot, RUN_OF_TASK)
         == ParentsExist(m, snapshot, "tasks", "workflow_run_id", "workflow_runs")
    ensures LinkKept(m, snapshot, RUN_OF_STEP)
         == ParentsRequired(m, snapshot, "workflow_step_executions", "workflow_run_id", "workflow_runs")
  {
  }

  lemma TaskLinks(m: Manifest, snapshot: Snapshot)
    requires WellShaped(m, snapshot)
    ensures LinkKept(m, snapshot, TASK_OF_EVENT) == ParentsRequired(m, snapshot, "task_events", "task_id", "tasks")
    ensures LinkKept(m, snapshot, TASK_OF_TURN) == ParentsExist(m, snapshot, "turns", "task_id", "tasks")
  {
  }

  lemma EachLink(tables: Tables)
    ensures LinksHold(tables) <==>
      && !Broken(tables, GOAL_OF_GOAL) && !Broken(tables, GOAL_OF_TASK) && !Broken(tables, RUN_OF_TASK)
      && !Broken(tables, RUN_OF_STEP) && !Broken(tables, TASK_OF_EVENT) && !Broken(tables, TASK_OF_TURN)
  {
    assert LINKS[0] in LINKS && LINKS[1] in LINKS && LINKS[2] in LINKS
        && LINKS[3] in LINKS && LINKS[4] in LINKS && LINKS[5] in LINKS;
  }

  // The relationship checks reject exactly the snapshots with an orphan row.
  lemma LinksHoldIffNoOrphans(m: Manifest, snapshot: Snapshot, rows: Source)
    requires WellShaped(m, snapshot) && AllRead(m, snapshot, rows)
    ensures LinksHold(Bags(rows)) <==> NoOrphans(m, snapshot)
  {
    GoalLinks(m, snapshot);
    RunLinks(m, snapshot);
    TaskLinks(m, snapshot);
    EachLink(Bags(rows));
    UnbrokenIff(m, snapshot, rows, GOAL_OF_GOAL);
    UnbrokenIff(m, snapshot, rows, GOAL_OF_TASK);
    UnbrokenIff(m, snapshot, rows, RUN_OF_TASK);
    UnbrokenIff(m, snapshot, rows, RUN_OF_STEP);
    UnbrokenIff(m, snapshot, rows, TASK_OF_EVENT);
    UnbrokenIff(m, snapshot, rows, TASK_OF_TURN);
  }

  // Every table in manifest order, or the refusal of the first value that does not fit.
  method ReadTables(m: Manifest, snapshot: Snapshot) returns (result: Result<Source>)
    requires WellShaped(m, snapshot)
    ensures result.Ok? ==> AllRead(m, snapshot, result.value)
    ensures result.Refused? <==> exists name | name in m.order :: AnyUnstorable(name, snapshot)
    ensures result.Refused? ==> result.category == "source-values"
  {
    var rows: Source := map[];
    for k := 0 to |m.order|
      invariant rows.Keys == set name | name in m.order[..k]
      invariant forall name | name in m.order[..k] :: ReadFrom(name, snapshot, rows) && !AnyUnstorable(name, snapshot)
    {
      var name := m.order[k];
      assert name in m.order && m.order[..k + 1] == m.order[..k] + [name];
      var table := ReadTable(snapshot.columns[name], snapshot.raw[name]);
      if table.Refused? {
        assert AnyUnstorable(name, snapshot);
        return Refused(table.category);
      }
      assert !AnyUnstorable(name, snapshot);
      rows := rows[name := table.value];
    }
    assert m.order[..|m.order|] == m.order;
    return Ok(rows);
  }

  // The source as read, or the first reason against it: a snapshot that is not
  // sound, a value that does not fit, an orphan row.
  method ReadSource(m: Manifest, snapshot: Snapshot) returns (result: Result<Source>)
    requires WellShaped(m, snapshot)
    ensures result.Ok? ==> AllRead(m, snapshot, result.value) && LinksHold(Bags(result.value))
    ensures result.Ok? <==>
      && snapshot.sound && (forall name | name in m.order :: !AnyUnstorable(name, snapshot))
      && NoOrphans(m, snapshot)
    ensures result == Refused("source-values")
      <==> snapshot.sound && exists name | name in m.order :: AnyUnstorable(name, snapshot)
    ensures result == Refused("source-integrity") <==>
      && snapshot.sound && (forall name | name in m.order :: !AnyUnstorable(name, snapshot))
      && !NoOrphans(m, snapshot)
    ensures result == Refused("source-shape") <==> !snapshot.sound
  {
    if !snapshot.sound {
      return Refused("source-shape");
    }
    var tables := ReadTables(m, snapshot);
    if tables.Refused? {
      return tables;
    }
    LinksHoldIffNoOrphans(m, snapshot, tables.value);
    if !LinksHold(Bags(tables.value)) {
      return Refused("source-integrity");
    }
    return tables;
  }
}

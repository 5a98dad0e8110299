// The import of a stopped SQLite snapshot into an empty PostgreSQL schema: one
// script that stages, inserts, verifies and commits, run by a database that may
// refuse any statement and may change rows behind any write.
module SqliteImport {
  import opened Options

  datatype Value = Null | Text(text: string) | Integer(n: int) | Unsupported

  type Row = map<string, Value>

  datatype Result<T> = Ok(value: T) | Refused(category: string)

  datatype Column = Column(name: string, kind: string)

  // --- Reading the source --------------------------------------------------

  // What a column may hold: the declared kind or null, and no text with NUL.
  predicate Storable(column: Column, value: Value) {
    && (value != Null && column.kind == "TEXT" ==> value.Text?)
    && (value != Null && column.kind == "INTEGER" ==> value.Integer?)
    && (value.Text? ==> '\0' !in value.text)
  }

  // Kind by kind: null fits anywhere, text without NUL where no integer is asked
  // for, an integer where no text is, and anything else only in other columns.
  lemma ValuesThatFit(column: Column, value: Value)
    ensures Storable(column, value) <==>
      || value.Null?
      || (value.Text? && column.kind != "INTEGER" && forall c | c in value.text :: c != '\0')
      || (value.Integer? && column.kind != "TEXT")
      || (value.Unsupported? && column.kind != "TEXT" && column.kind != "INTEGER")
  {
    assert "TEXT" != "INTEGER";
  }

  predicate StorableRow(columns: seq<Column>, values: seq<Value>)
    requires |values| == |columns|
  {
    forall j | 0 <= j < |columns| :: Storable(columns[j], values[j])
  }

  predicate DistinctNames(columns: seq<Column>) {
    forall i, j | 0 <= i < j < |columns| :: columns[i].name != columns[j].name
  }

  // A payload holds exactly the columns, each with the value read for it.
  predicate Holds(payload: Row, columns: seq<Column>, values: seq<Value>)
    requires |values| == |columns|
  {
    && payload.Keys == (set c | c in columns :: c.name)
    && forall j | 0 <= j < |columns| :: columns[j].name in payload && payload[columns[j].name] == values[j]
  }

  method ReadRow(columns: seq<Column>, values: seq<Value>) returns (result: Result<Row>)
    requires |values| == |columns| && DistinctNames(columns)
    ensures result.Ok? <==> StorableRow(columns, values)
    ensures result.Ok? ==> Holds(result.value, columns, values)
    ensures result.Refused? ==> result.category == "source-values"
  {
    var payload: Row := map[];
    for j := 0 to |columns|
      invariant StorableRow(columns[..j], values[..j]) && Holds(payload, columns[..j], values[..j])
    {
      if !Storable(columns[j], values[j]) {
        return Refused("source-values");
      }
      assert columns[..j + 1] == columns[..j] + [columns[j]];
      payload := payload[columns[j].name := values[j]];
    }
    assert columns[..|columns|] == columns && values[..|columns|] == values;
    return Ok(payload);
  }

  method ReadTable(columns: seq<Column>, raw: seq<seq<Value>>) returns (result: Result<seq<Row>>)
    requires DistinctNames(columns) && forall values | values in raw :: |values| == |columns|
    ensures result.Ok? <==> forall values | values in raw :: StorableRow(columns, values)
    ensures result.Ok? ==> |result.value| == |raw|
    ensures result.Ok? ==> forall k | 0 <= k < |raw| :: Holds(result.value[k], columns, raw[k])
    ensures result.Refused? ==> result.category == "source-values"
  {
    var rows: seq<Row> := [];
    for k := 0 to |raw|
      invariant |rows| == k
      invariant forall i | 0 <= i < k :: StorableRow(columns, raw[i]) && Holds(rows[i], columns, raw[i])
    {
      var row := ReadRow(columns, raw[k]);
      if row.Refused? {
        assert raw[k] in raw && !StorableRow(columns, raw[k]);
        return Refused(row.category);
      }
      rows := rows + [row.value];
    }
    return Ok(rows);
  }

  // --- Tables and the relationships between them ---------------------------

  type Tables = map<string, multiset<Row>>

  function RowsIn(tables: Tables, name: string): multiset<Row> {
    if name in tables then tables[name] else multiset{}
  }

  type Source = map<string, seq<Row>>

  function Bag(rows: Source, name: string): multiset<Row> {
    if name in rows then multiset(rows[name]) else multiset{}
  }

  function Bags(rows: Source): Tables {
    map name | name in rows :: multiset(rows[name])
  }

  datatype Link = Link(child: string, column: string, parent: string, optional: bool)

  const GOAL_OF_GOAL := Link("goals", "parent_goal_id", "goals", true)
  const GOAL_OF_TASK := Link("tasks", "goal_id", "goals", true)
  const RUN_OF_TASK := Link("tasks", "workflow_run_id", "workflow_runs", true)
  const RUN_OF_STEP := Link("workflow_step_executions", "workflow_run_id", "workflow_runs", false)
  const TASK_OF_EVENT := Link("task_events", "task_id", "tasks", false)
  const TASK_OF_TURN := Link("turns", "task_id", "tasks", true)

  const LINKS: seq<Link> := [GOAL_OF_GOAL, GOAL_OF_TASK, RUN_OF_TASK, RUN_OF_STEP, TASK_OF_EVENT, TASK_OF_TURN]

  function Field(row: Row, column: string): Value {
    if column in row then row[column] else Null
  }

  // A null refers to nothing, not even to a row whose id is null.
  predicate HasParent(tables: Tables, link: Link, row: Row) {
    var key := Field(row, link.column);
    key != Null && exists parent | parent in RowsIn(tables, link.parent) :: Field(parent, "id") == key
  }

  predicate Broken(tables: Tables, link: Link) {
    exists row | row in RowsIn(tables, link.child) ::
      (link.optional ==> Field(row, link.column) != Null) && !HasParent(tables, link, row)
  }

  predicate LinksHold(tables: Tables) {
    forall link | link in LINKS :: !Broken(tables, link)
  }

  // --- The script ----------------------------------------------------------

  datatype Staged = Staged(table: string, ordinal: nat, payload: Row)

  datatype Condition = ServerVersion | NotOwned | TablesLocked | SchemaCurrent | OptionalTablesEmpty

  datatype Statement =
    | Begin
    | Require(condition: Condition)
    | RequireEmpty(table: string)
    | Stage(lines: seq<Staged>)
    | Insert(table: string)
    | Raise(category: string)
    | AlterFirstTask
    | CheckCount(table: string, count: nat)
    | CheckBag(table: string)
    | CheckLinks
    | Restart(n: int)
    | Commit

  datatype Fault = NoFault | AfterWrites | Verification

  // The pinned manifest: the tables copied, in order, and the target's others.
  datatype Manifest = Manifest(order: seq<string>, others: seq<string>)

  const MAX_ID: int := 9223372036854775807

  function LinesOf(name: string, rows: seq<Row>): seq<Staged> {
    if rows == [] then []
    else LinesOf(name, rows[..|rows| - 1]) + [Staged(name, |rows| - 1, rows[|rows| - 1])]
  }

  function PayloadLines(rows: Source, order: seq<string>): seq<Staged>
    requires forall name | name in order :: name in rows
  {
    if order == [] then []
    else
      var name := order[|order| - 1];
      PayloadLines(rows, order[..|order| - 1]) + LinesOf(name, rows[name])
  }

  function Empties(names: seq<string>): seq<Statement> {
    if names == [] then [] else Empties(names[..|names| - 1]) + [RequireEmpty(names[|names| - 1])]
  }

  function Inserts(names: seq<string>): seq<Statement> {
    if names == [] then [] else Inserts(names[..|names| - 1]) + [Insert(names[|names| - 1])]
  }

  function Faults(fault: Fault): seq<Statement> {
    match fault
    case NoFault => []
    case AfterWrites => [Raise("fault")]
    case Verification => [AlterFirstTask]
  }

  function Checks(rows: Source, order: seq<string>): seq<Statement>
    requires forall name | name in order :: name in rows
  {
    if order == [] then []
    else
      var name := order[|order| - 1];
      Checks(rows, order[..|order| - 1]) + [CheckCount(name, |rows[name]|), CheckBag(name)]
  }

  const OPENING: seq<Statement> :=
    [Begin, Require(ServerVersion), Require(NotOwned), Require(TablesLocked), Require(SchemaCurrent)]

  // The largest id, or nothing above zero to advance past.
  function LargestId(rows: seq<Row>): int {
    if rows == [] then 0
    else
      var id := IdOf(rows[|rows| - 1]);
      if |rows| == 1 then id
      else
        var before := LargestId(rows[..|rows| - 1]);
        if before < id then id else before
  }

  function IdOf(row: Row): int {
    match Field(row, "id") case Integer(n) => n case _ => 0
  }

  // What the manifest pins: facts are copied, and their ids are integers.
  predicate Pinned(m: Manifest, rows: Source) {
    && (forall name | name in m.order :: name in rows)
    && "kg_facts" in m.order
    && forall row | row in rows["kg_facts"] :: Field(row, "id").Integer?
  }

  function Writes(m: Manifest, rows: Source, fault: Fault): seq<Statement>
    requires Pinned(m, rows)
  {
    OPENING + Empties(m.order + m.others) + [Require(OptionalTablesEmpty)]
    + [Stage(PayloadLines(rows, m.order))] + Inserts(m.order) + Faults(fault)
  }

  function Closing(rows: Source): seq<Statement>
    requires "kg_facts" in rows
  {
    [CheckLinks, Restart(LargestId(rows["kg_facts"]) + 1), Commit]
  }

  function Script(m: Manifest, rows: Source, fault: Fault): seq<Statement>
    requires Pinned(m, rows)
  {
    Writes(m, rows, fault) + Checks(rows, m.order) + Closing(rows)
  }

  // Each row of a table is one line, under its place in the table.
  lemma {:induction false} LineAt(name: string, rows: seq<Row>, k: nat)
    requires k < |rows|
    ensures |LinesOf(name, rows)| == |rows| && LinesOf(name, rows)[k] == Staged(name, k, rows[k])
  {
    if |rows| > 1 {
      LineAt(name, rows[..|rows| - 1], if k < |rows| - 1 then k else 0);
    } else {
      assert LinesOf(name, rows[..|rows| - 1]) == [];
    }
  }

  method BuildLines(rows: Source, order: seq<string>) returns (lines: seq<Staged>)
    requires forall name | name in order :: name in rows
    ensures lines == PayloadLines(rows, order)
  {
    lines := [];
    for k := 0 to |order|
      invariant lines == PayloadLines(rows, order[..k])
    {
      var table := rows[order[k]];
      for ordinal := 0 to |table|
        invariant lines == PayloadLines(rows, order[..k]) + LinesOf(order[k], table[..ordinal])
      {
        assert table[..ordinal + 1][..ordinal] == table[..ordinal];
        lines := lines + [Staged(order[k], ordinal, table[ordinal])];
      }
      assert table[..|table|] == table && order[..k + 1][..k] == order[..k];
    }
    assert order[..|order|] == order;
  }

  method BuildWrites(m: Manifest, rows: Source, fault: Fault) returns (lines: seq<Statement>)
    requires Pinned(m, rows)
    ensures lines == Writes(m, rows, fault)
  {
    lines := OPENING;
    var checked := m.order + m.others;
    for k := 0 to |checked|
      invariant lines == OPENING + Empties(checked[..k])
    {
      assert checked[..k + 1][..k] == checked[..k];
      lines := lines + [RequireEmpty(checked[k])];
    }
    assert checked[..|checked|] == checked;
    var payload := BuildLines(rows, m.order);
    lines := lines + [Require(OptionalTablesEmpty)] + [Stage(payload)];
    ghost var before := lines;
    for k := 0 to |m.order|
      invariant lines == before + Inserts(m.order[..k])
    {
      assert m.order[..k + 1][..k] == m.order[..k];
      lines := lines + [Insert(m.order[k])];
    }
    assert m.order[..|m.order|] == m.order;
    if fault == AfterWrites {
      lines := lines + [Raise("fault")];
    }
    if fault == Verification {
      lines := lines + [AlterFirstTask];
    }
  }

  method BuildScript(m: Manifest, rows: Source, fault: Fault) returns (result: Result<seq<Statement>>)
    requires Pinned(m, rows)
    ensures result.Refused? <==> LargestId(rows["kg_facts"]) >= MAX_ID
    ensures result.Ok? ==> result.value == Script(m, rows, fault)
    ensures result.Refused? ==> result.category == "source-values"
  {
    var lines := BuildWrites(m, rows, fault);
    for k := 0 to |m.order|
      invariant lines == Writes(m, rows, fault) + Checks(rows, m.order[..k])
    {
      assert m.order[..k + 1][..k] == m.order[..k];
      lines := lines + [CheckCount(m.order[k], |rows[m.order[k]]|), CheckBag(m.order[k])];
    }
    assert m.order[..|m.order|] == m.order;
    var next := LargestId(rows["kg_facts"]) + 1;
    if next > MAX_ID {
      return Refused("source-values");
    }
    return Ok(lines + [CheckLinks, Restart(next), Commit]);
  }
}

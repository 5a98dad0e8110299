// When an import succeeds, and the whole command from snapshot to report.
module ImportRuns {
  import opened Options
  import opened SqliteImport
  import opened ImportTransaction
  import opened ImportSource

  // --- Relationships -------------------------------------------------------

  predicate LinksAmong(order: seq<string>) {
    forall link | link in LINKS :: link.child in order && link.parent in order
  }

  lemma SameRowsSameParents(a: Tables, b: Tables, link: Link, row: Row)
    requires RowsIn(a, link.parent) == RowsIn(b, link.parent)
    ensures HasParent(a, link, row) == HasParent(b, link, row)
  {
    assert forall parent :: parent in RowsIn(a, link.parent) <==> parent in RowsIn(b, link.parent);
  }

  lemma SameRowsSameBreaks(a: Tables, b: Tables, link: Link)
    requires RowsIn(a, link.parent) == RowsIn(b, link.parent) && RowsIn(a, link.child) == RowsIn(b, link.child)
    ensures Broken(a, link) == Broken(b, link)
  {
    forall row | row in RowsIn(a, link.child)
      ensures HasParent(a, link, row) == HasParent(b, link, row)
    {
      SameRowsSameParents(a, b, link, row);
    }
  }

  // The checks made on the source decide the same checks made on the target:
  // once the tables are as read, the target's cannot fire.
  lemma SourceChecksDecideTargetChecks(rows: Source, order: seq<string>, tables: Tables)
    requires LinksAmong(order)
    requires forall name | name in order :: RowsIn(tables, name) == Bag(rows, name)
    ensures LinksHold(tables) <==> LinksHold(Bags(rows))
  {
    forall link | link in LINKS
      ensures Broken(tables, link) == Broken(Bags(rows), link)
    {
      assert RowsIn(Bags(rows), link.child) == Bag(rows, link.child);
      assert RowsIn(Bags(rows), link.parent) == Bag(rows, link.parent);
      SameRowsSameBreaks(tables, Bags(rows), link);
    }
  }

  // --- An obliging server --------------------------------------------------

  ghost predicate Obliging(server: Server) {
    && NeverFails(server)
    && (forall k: nat :: server(k).holds)
    && forall k: nat, tables: Tables :: server(k).left(tables) == tables
  }

  predicate Vacant(db: Db, names: seq<string>) {
    forall name | name in names :: RowsIn(db.tables, name) == multiset{}
  }

  // Checking that tables are empty passes only if they are, and changes nothing.
  lemma {:induction false} EmptiesAsk(names: seq<string>, server: Server, s: Session)
    ensures var out := RunAll(Empties(names), server, s);
      && SameState(s, out.session)
      && (out.refused == None ==> Vacant(s.working, names))
      && (NeverFails(server) && Vacant(s.working, names) ==> out.refused == None)
  {
    if names != [] {
      var init := names[..|names| - 1];
      var last := names[|names| - 1];
      assert names == init + [last];
      EmptiesAsk(init, server, s);
      RunAppend(Empties(init), [RequireEmpty(last)], server, s);
      RunOne(RequireEmpty(last), server, RunAll(Empties(init), server, s).session);
    }
  }

  lemma {:induction false} RequiresAsk(script: seq<Statement>, server: Server, s: Session)
    requires forall st | st in script :: st.Require?
    ensures SameState(s, RunAll(script, server, s).session)
    ensures Obliging(server) ==> RunAll(script, server, s).refused == None
  {
    if script != [] {
      assert script[0] in script && forall st | st in script[1..] :: st in script;
      if Exec(script[0], server(s.clock), s).Ok? {
        RequiresAsk(script[1..], server, s.(clock := s.clock + 1));
      }
    }
  }

  lemma OpeningAsks(server: Server, s: Session)
    requires s.working == s.committed
    ensures SameState(s, RunAll(OPENING, server, s).session)
    ensures Obliging(server) ==> RunAll(OPENING, server, s).refused == None
  {
    assert OPENING == [Begin] + OPENING[1..];
    RunCons(Begin, OPENING[1..], server, s);
    RequiresAsk(OPENING[1..], server, s.(clock := s.clock + 1));
  }

  // What comes before staging passes only on a vacant target.
  lemma BeforeAsks(m: Manifest, server: Server, db: Db)
    ensures var out := RunAll(Before(m), server, Start(db));
      && SameState(Start(db), out.session)
      && (out.refused == None ==> Vacant(db, m.order + m.others))
      && (Obliging(server) && Vacant(db, m.order + m.others) ==> out.refused == None)
  {
    var s := Start(db);
    var empties := Empties(m.order + m.others);
    RunAppend(OPENING + empties, [Require(OptionalTablesEmpty)], server, s);
    RunAppend(OPENING, empties, server, s);
    OpeningAsks(server, s);
    var opening := RunAll(OPENING, server, s).session;
    EmptiesAsk(m.order + m.others, server, opening);
    RunOne(Require(OptionalTablesEmpty), server, RunAll(empties, server, opening).session);
  }

  // What a table gains by the inserts: its staged rows, if it is inserted.
  ghost predicate Gained(s: Session, t: Session, names: seq<string>) {
    forall name :: RowsIn(t.working.tables, name)
      == RowsIn(s.working.tables, name) + if name in names then StagedBag(s.staged, name) else multiset{}
  }

  lemma InsertGains(s: Session, t: Session, init: seq<string>, last: string)
    requires Gained(s, t, init) && last !in init && t.staged == s.staged
    ensures Gained(s, t.(working := t.working.(tables := Inserted(t, last))), init + [last])
  {
  }

  // What an obliging server holds after inserting some tables.
  lemma {:induction false} InsertsFill(names: seq<string>, server: Server, s: Session)
    requires Obliging(server) && NoRepeats(names)
    ensures var out := RunAll(Inserts(names), server, s);
      && out.refused == None && out.session.committed == s.committed && out.session.staged == s.staged
      && Gained(s, out.session, names)
  {
    if names != [] {
      var init := names[..|names| - 1];
      var last := names[|names| - 1];
      assert names == init + [last];
      InsertsFill(init, server, s);
      var filled := RunAll(Inserts(init), server, s).session;
      RunAppend(Inserts(init), [Insert(last)], server, s);
      RunOne(Insert(last), server, filled);
      assert server(filled.clock).left(Inserted(filled, last)) == Inserted(filled, last);
      InsertGains(s, filled, init, last);
    }
  }

  // After inserting into vacant tables, each holds what was read.
  lemma FilledIsVerified(rows: Source, order: seq<string>, s: Session, t: Session)
    requires (forall name | name in order :: name in rows) && NoRepeats(order)
    requires Vacant(s.working, order) && s.staged == PayloadLines(rows, order)
    requires Gained(s, t, order) && t.staged == s.staged
    ensures Verified(rows, order, t)
    ensures forall name | name in order :: RowsIn(t.working.tables, name) == Bag(rows, name)
  {
    forall name | name in order
      ensures Matches(name, |rows[name]|, t) && RowsIn(t.working.tables, name) == Bag(rows, name)
    {
      EveryRowIsStaged(rows, order, name);
    }
  }

  // An obliging server gets as far as staging, with nothing changed.
  lemma StagingIsReached(m: Manifest, lines: seq<Staged>, server: Server, db: Db)
    requires Obliging(server) && Vacant(db, m.order + m.others)
    ensures var out := RunAll(Before(m) + [Stage(lines)], server, Start(db));
      && out.refused == None && out.session.committed == db
      && out.session.working == db && out.session.staged == lines
  {
    RunAppend(Before(m), [Stage(lines)], server, Start(db));
    BeforeAsks(m, server, db);
    RunOne(Stage(lines), server, RunAll(Before(m), server, Start(db)).session);
  }

  lemma WritesFill(m: Manifest, rows: Source, server: Server, db: Db)
    requires Pinned(m, rows) && NoRepeats(m.order) && Obliging(server) && Vacant(db, m.order + m.others)
    ensures var out := RunAll(Writes(m, rows, NoFault), server, Start(db));
      out.refused == None && Verified(rows, m.order, out.session)
      && forall name | name in m.order :: RowsIn(out.session.working.tables, name) == Bag(rows, name)
  {
    var lines := PayloadLines(rows, m.order);
    assert Writes(m, rows, NoFault) == Before(m) + [Stage(lines)] + Inserts(m.order);
    RunAppend(Before(m) + [Stage(lines)], Inserts(m.order), server, Start(db));
    StagingIsReached(m, lines, server, db);
    var staged := RunAll(Before(m) + [Stage(lines)], server, Start(db)).session;
    InsertsFill(m.order, server, staged);
    assert Vacant(staged.working, m.order) by {
      assert forall name | name in m.order :: name in m.order + m.others;
    }
    FilledIsVerified(rows, m.order, staged, RunAll(Inserts(m.order), server, staged).session);
  }

  // On a vacant target and an obliging server the import commits if and only if
  // the source's relationships hold and its largest fact id can be advanced to a
  // legal identity.
  lemma CleanImportCommitsIff(m: Manifest, rows: Source, server: Server, db: Db)
    requires Pinned(m, rows) && NoRepeats(m.order) && LinksAmong(m.order)
    requires Obliging(server) && Vacant(db, m.order + m.others)
    ensures RunAll(Script(m, rows, NoFault), server, Start(db)).refused == None
      <==> LinksHold(Bags(rows)) && 0 <= LargestId(rows["kg_facts"]) < MAX_ID
  {
    var s := Start(db);
    var writes, checks := Writes(m, rows, NoFault), Checks(rows, m.order);
    RunAppend(writes + checks, Closing(rows), server, s);
    RunAppend(writes, checks, server, s);
    WritesFill(m, rows, server, db);
    var written := RunAll(writes, server, s).session;
    ChecksVerify(rows, m.order, server, written);
    var checked := RunAll(checks, server, written).session;
    ClosingCommits(rows, server, checked);
    SourceChecksDecideTargetChecks(rows, m.order, checked.working.tables);
  }

  // A target that holds any row to begin with is refused, whatever the server does.
  lemma OccupiedTargetIsRefused(m: Manifest, rows: Source, fault: Fault, server: Server, db: Db)
    requires Pinned(m, rows) && !Vacant(db, m.order + m.others)
    ensures var out := RunAll(Script(m, rows, fault), server, Start(db));
      out.refused.Some? && out.session.committed == db
  {
    var s := Start(db);
    var after := [Stage(PayloadLines(rows, m.order))] + Inserts(m.order) + Faults(fault)
               + Checks(rows, m.order) + Closing(rows);
    assert Script(m, rows, fault) == Before(m) + after;
    RunAppend(Before(m), after, server, s);
    BeforeAsks(m, server, db);
    ImportIsAllOrNothing(m, rows, fault, server, db);
  }

  // So an import that copied anything is never repeated or added to.
  lemma SecondImportIsRefused(
    m: Manifest, rows: Source, again: Source, fault: Fault, server: Server, later: Server, db: Db)
    requires Pinned(m, rows) && Pinned(m, again) && exists name | name in m.order :: rows[name] != []
    requires RunAll(Script(m, rows, NoFault), server, Start(db)).refused == None
    ensures var done := RunAll(Script(m, rows, NoFault), server, Start(db)).session.committed;
      var out := RunAll(Script(m, again, fault), later, Start(done));
      out.refused.Some? && out.session.committed == done
  {
    var done := RunAll(Script(m, rows, NoFault), server, Start(db)).session.committed;
    ImportIsAllOrNothing(m, rows, NoFault, server, db);
    var name :| name in m.order && rows[name] != [];
    assert name in m.order + m.others && rows[name][0] in RowsIn(done.tables, name);
    OccupiedTargetIsRefused(m, again, fault, later, done);
  }

  // --- What the server can object to ---------------------------------------

  // The server answers the n-th statement, and what it asks for holds.
  predicate Grants(server: Server, n: nat) {
    !server(n).fails && server(n).holds
  }

  predicate Denies(server: Server, n: nat) {
    !server(n).fails && !server(n).holds
  }

  lemma {:induction false} FirstUnmetRefuses(script: seq<Statement>, server: Server, s: Session, k: nat)
    requires k < |script| && forall st | st in script :: st.Require?
    requires (forall n: nat | s.clock <= n < s.clock + k :: Grants(server, n)) && Denies(server, s.clock + k)
    ensures RunAll(script, server, s).refused == Some(Category(script[k].condition))
  {
    assert script[0] in script && forall st | st in script[1..] :: st in script;
    if k > 0 {
      assert Grants(server, s.clock);
      FirstUnmetRefuses(script[1..], server, s.(clock := s.clock + 1), k - 1);
    }
  }

  function Later(m: Manifest, rows: Source, fault: Fault): seq<Statement>
    requires Pinned(m, rows)
  {
    Empties(m.order + m.others) + [Require(OptionalTablesEmpty)]
    + [Stage(PayloadLines(rows, m.order))] + Inserts(m.order) + Faults(fault)
    + Checks(rows, m.order) + Closing(rows)
  }

  lemma ScriptOpens(m: Manifest, rows: Source, fault: Fault)
    requires Pinned(m, rows)
    ensures Script(m, rows, fault) == OPENING + Later(m, rows, fault)
  {
  }

  lemma OpeningDenied(server: Server, s: Session, k: nat)
    requires k < 4 && s.clock == 0 && !server(0).fails
    requires (forall n: nat | 1 <= n <= k :: Grants(server, n)) && Denies(server, k + 1)
    ensures RunAll(OPENING, server, s).refused == Some(
      if k == 0 then "target-version" else if k == 1 then "target-active"
      else if k == 2 then "target-busy" else "target-schema")
  {
    assert OPENING == [Begin] + OPENING[1..];
    RunCons(Begin, OPENING[1..], server, s);
    FirstUnmetRefuses(OPENING[1..], server, s.(clock := 1, working := s.committed), k);
  }

  // Before anything else the import asks, in this order, for a server new enough,
  // that no DartClaw runs on it, that its tables can be locked, and that its
  // schema is current; the first that does not hold refuses it, unchanged.
  lemma UnmetConditionIsRefused(m: Manifest, rows: Source, fault: Fault, server: Server, db: Db, k: nat)
    requires Pinned(m, rows) && k < 4 && !server(0).fails
    requires (forall n: nat | 1 <= n <= k :: Grants(server, n)) && Denies(server, k + 1)
    ensures var out := RunAll(Script(m, rows, fault), server, Start(db));
      && out.session.committed == db
      && out.refused == Some(
           if k == 0 then "target-version" else if k == 1 then "target-active"
           else if k == 2 then "target-busy" else "target-schema")
  {
    ScriptOpens(m, rows, fault);
    RunAppend(OPENING, Later(m, rows, fault), server, Start(db));
    OpeningDenied(server, Start(db), k);
    ImportIsAllOrNothing(m, rows, fault, server, db);
  }

  // The fault that raises after the writes always rolls them back.
  lemma FaultAfterWritesNeverCommits(m: Manifest, rows: Source, server: Server, db: Db)
    requires Pinned(m, rows)
    ensures var out := RunAll(Script(m, rows, AfterWrites), server, Start(db));
      out.refused.Some? && out.session.committed == db
  {
    var s := Start(db);
    var before := Before(m) + [Stage(PayloadLines(rows, m.order))] + Inserts(m.order);
    var after := Checks(rows, m.order) + Closing(rows);
    assert Script(m, rows, AfterWrites) == before + ([Raise("fault")] + after);
    RunAppend(before, [Raise("fault")] + after, server, s);
    RunCons(Raise("fault"), after, server, RunAll(before, server, s).session);
    ImportIsAllOrNothing(m, rows, AfterWrites, server, db);
  }

  // --- The command ---------------------------------------------------------

  // A fact's id is an integer that leaves room above it, and some id, if there is
  // any, is not negative.
  predicate FactIdsFit(m: Manifest, snapshot: Snapshot)
    requires WellShaped(m, snapshot)
  {
    var raw := RowsRead(m, snapshot, "kg_facts");
    && (forall values | values in raw ::
         var id := Key(m, snapshot, "kg_facts", values, "id"); id.Integer? && id.n < MAX_ID)
    && (raw == [] || exists values | values in raw ::
         var id := Key(m, snapshot, "kg_facts", values, "id"); id.Integer? && id.n >= 0)
  }

  predicate AllIntegers(rows: seq<Row>) {
    forall row | row in rows :: Field(row, "id").Integer?
  }

  predicate IdsFit(ids: seq<Value>) {
    && (forall k | 0 <= k < |ids| :: ids[k].Integer? && ids[k].n < MAX_ID)
    && (ids == [] || exists k | 0 <= k < |ids| :: ids[k].Integer? && ids[k].n >= 0)
  }

  lemma HeldIdsFit(held: seq<Row>, ids: seq<Value>)
    requires |held| == |ids| && forall k | 0 <= k < |ids| :: Field(held[k], "id") == ids[k]
    ensures IdsFit(ids) <==> AllIntegers(held) && 0 <= LargestId(held) < MAX_ID
  {
    LargestIsLargest(held);
    forall k | 0 <= k < |held|
      ensures held[k] in held && Field(held[k], "id") == ids[k]
      ensures ids[k].Integer? ==> IdOf(held[k]) == ids[k].n
    {
    }
    if held != [] {
      var row :| row in held && IdOf(row) == LargestId(held);
      var k :| 0 <= k < |held| && held[k] == row;
    }
  }

  lemma RawIdsFit(m: Manifest, snapshot: Snapshot, raw: seq<seq<Value>>, ids: seq<Value>)
    requires WellShaped(m, snapshot) && raw == RowsRead(m, snapshot, "kg_facts") && |raw| == |ids|
    requires forall k | 0 <= k < |raw| :: raw[k] in raw && Key(m, snapshot, "kg_facts", raw[k], "id") == ids[k]
    ensures IdsFit(ids) <==> FactIdsFit(m, snapshot)
  {
    if IdsFit(ids) {
      forall values | values in raw
        ensures var id := Key(m, snapshot, "kg_facts", values, "id"); id.Integer? && id.n < MAX_ID
      {
        var k :| 0 <= k < |raw| && raw[k] == values;
      }
      if ids != [] {
        var k :| 0 <= k < |ids| && ids[k].Integer? && ids[k].n >= 0;
        assert raw[k] in raw;
      }
    }
    if FactIdsFit(m, snapshot) && raw != [] {
      var values :| values in raw
        && var id := Key(m, snapshot, "kg_facts", values, "id"); id.Integer? && id.n >= 0;
      var k :| 0 <= k < |raw| && raw[k] == values;
      assert ids[k].Integer? && ids[k].n >= 0;
    }
  }

  function IdsOf(held: seq<Row>): (ids: seq<Value>)
    ensures |ids| == |held| && forall k | 0 <= k < |held| :: ids[k] == Field(held[k], "id")
  {
    if held == [] then [] else [Field(held[0], "id")] + IdsOf(held[1..])
  }

  lemma PairedIds(m: Manifest, snapshot: Snapshot, held: seq<Row>, raw: seq<seq<Value>>)
    requires WellShaped(m, snapshot) && raw == RowsRead(m, snapshot, "kg_facts")
    requires Paired(held, snapshot.columns["kg_facts"], raw)
    ensures forall k | 0 <= k < |raw| ::
      raw[k] in raw && Key(m, snapshot, "kg_facts", raw[k], "id") == Field(held[k], "id")
  {
    forall k | 0 <= k < |raw|
      ensures raw[k] in raw && Key(m, snapshot, "kg_facts", raw[k], "id") == Field(held[k], "id")
    {
      assert Reads(held[k], snapshot.columns["kg_facts"], raw[k]);
    }
  }

  lemma FactIdsRead(m: Manifest, snapshot: Snapshot, rows: Source)
    requires WellShaped(m, snapshot) && AllRead(m, snapshot, rows)
    ensures FactIdsFit(m, snapshot)
      <==> AllIntegers(rows["kg_facts"]) && 0 <= LargestId(rows["kg_facts"]) < MAX_ID
  {
    var held, raw := rows["kg_facts"], RowsRead(m, snapshot, "kg_facts");
    TableIsPaired(m, snapshot, rows, "kg_facts");
    PairedIds(m, snapshot, held, raw);
    HeldIdsFit(held, IdsOf(held));
    RawIdsFit(m, snapshot, raw, IdsOf(held));
  }

  // A committed import could restart the identity.
  lemma IdentityIsLegal(m: Manifest, rows: Source, fault: Fault, server: Server, db: Db)
    requires Pinned(m, rows)
    ensures RunAll(Script(m, rows, fault), server, Start(db)).refused == None
      ==> 0 <= LargestId(rows["kg_facts"]) < MAX_ID
  {
    var s := Start(db);
    RunAppend(Writes(m, rows, fault) + Checks(rows, m.order), Closing(rows), server, s);
    ClosingCommits(rows, server, RunAll(Writes(m, rows, fault) + Checks(rows, m.order), server, s).session);
  }

  // What the source must be for an import to go through.
  predicate Importable(m: Manifest, snapshot: Snapshot)
    requires WellShaped(m, snapshot)
  {
    && snapshot.sound && (forall name | name in m.order :: !AnyUnstorable(name, snapshot))
    && NoOrphans(m, snapshot) && FactIdsFit(m, snapshot)
  }

  // Nothing on the other side against it either.
  ghost predicate Unopposed(m: Manifest, fault: Fault, server: Server, answered: bool, target: Db) {
    && Obliging(server) && answered && fault == NoFault && Vacant(target, m.order + m.others)
    && NoRepeats(m.order) && LinksAmong(m.order)
  }

  // From rows to report: the script, if it can be written, and its run.
  method ImportRows(m: Manifest, rows: Source, fault: Fault, server: Server, answered: bool, target: Db)
    returns (report: Result<Source>, final: Db)
    requires "kg_facts" in m.order && forall name | name in m.order :: name in rows
    ensures report.Ok? ==>
      report.value == rows && Exact(m, rows, final)
      && AllIntegers(rows["kg_facts"]) && 0 <= LargestId(rows["kg_facts"]) < MAX_ID
    ensures report.Refused? && answered ==> final == target
    ensures final == target || Exact(m, rows, final)
    ensures
      (Unopposed(m, fault, server, answered, target) && LinksHold(Bags(rows))
       && AllIntegers(rows["kg_facts"]) && 0 <= LargestId(rows["kg_facts"]) < MAX_ID)
      ==> report.Ok?
  {
    if !AllIntegers(rows["kg_facts"]) {
      return Refused("uncaught"), target;
    }
    var script := BuildScript(m, rows, fault);
    if script.Refused? {
      return Refused(script.category), target;
    }
    var out := RunAll(script.value, server, Start(target));
    ImportIsAllOrNothing(m, rows, fault, server, target);
    IdentityIsLegal(m, rows, fault, server, target);
    if Unopposed(m, fault, server, answered, target) {
      CleanImportCommitsIff(m, rows, server, target);
    }
    final := out.session.committed;
    report := match out.refused
      case Some(category) => Refused(category)
      case None => if answered then Ok(rows) else Refused("target-import");
  }

  // The whole command. `answered` is false if the connection drops after the
  // script's last statement has taken effect. It succeeds only on a source that
  // can be imported, and on every such source if nothing on the other side is
  // against it.
  method Import(m: Manifest, snapshot: Snapshot, fault: Fault, server: Server, answered: bool, target: Db)
    returns (report: Result<Source>, final: Db)
    requires WellShaped(m, snapshot)
    ensures report.Ok? ==> AllRead(m, snapshot, report.value) && Exact(m, report.value, final)
    ensures report.Refused? && answered ==> final == target
    ensures final == target || exists rows: Source :: AllRead(m, snapshot, rows) && Exact(m, rows, final)
    ensures report.Ok? ==> Importable(m, snapshot)
    ensures Unopposed(m, fault, server, answered, target) ==> (report.Ok? <==> Importable(m, snapshot))
  {
    var source := ReadSource(m, snapshot);
    if source.Refused? {
      return source, target;
    }
    FactIdsRead(m, snapshot, source.value);
    report, final := ImportRows(m, source.value, fault, server, answered, target);
  }
}

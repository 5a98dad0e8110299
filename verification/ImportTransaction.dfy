// Running the import script: every statement may be refused, and every write
// may leave more or less than it was asked to.
module ImportTransaction {
  import opened Options
  import opened SqliteImport

  // A database: its rows, and the next identity of the facts table.
  datatype Db = Db(tables: Tables, next: int)

  datatype Session = Session(committed: Db, working: Db, staged: seq<Staged>, clock: nat)

  // What the server does with one statement: whether it fails, whether the
  // condition asked about holds, and what becomes of the rows after a write.
  datatype Turn = Turn(fails: bool, holds: bool, left: Tables -> Tables)

  type Server = nat -> Turn

  function StagedBag(lines: seq<Staged>, table: string): multiset<Row> {
    if lines == [] then multiset{}
    else
      var last := lines[|lines| - 1];
      StagedBag(lines[..|lines| - 1], table) + if last.table == table then multiset{last.payload} else multiset{}
  }

  function Category(condition: Condition): string {
    match condition
    case ServerVersion => "target-version"
    case NotOwned => "target-active"
    case TablesLocked => "target-busy"
    case SchemaCurrent => "target-schema"
    case OptionalTablesEmpty => "target-populated"
  }

  // EXCEPT ALL, both ways.
  predicate SameBag(a: multiset<Row>, b: multiset<Row>) {
    a - b == multiset{} && b - a == multiset{}
  }

  function Inserted(s: Session, table: string): Tables {
    s.working.tables[table := RowsIn(s.working.tables, table) + StagedBag(s.staged, table)]
  }

  function Exec(statement: Statement, turn: Turn, s: Session): Result<Session> {
    var t := s.(clock := s.clock + 1);
    var tables := s.working.tables;
    if turn.fails then Refused("target-import")
    else
      match statement
      case Begin => Ok(t.(working := s.committed))
      case Require(condition) => if turn.holds then Ok(t) else Refused(Category(condition))
      case RequireEmpty(table) =>
        if RowsIn(tables, table) == multiset{} then Ok(t) else Refused("target-populated")
      case Stage(lines) => Ok(t.(staged := lines))
      case Insert(table) => Ok(t.(working := s.working.(tables := turn.left(Inserted(s, table)))))
      case Raise(category) => Refused(category)
      case AlterFirstTask => Ok(t.(working := s.working.(tables := turn.left(tables))))
      case CheckCount(table, count) => if |RowsIn(tables, table)| == count then Ok(t) else Refused("verification")
      case CheckBag(table) =>
        if SameBag(RowsIn(tables, table), StagedBag(s.staged, table)) then Ok(t) else Refused("verification")
      case CheckLinks => if LinksHold(tables) then Ok(t) else Refused("verification")
      case Restart(n) =>
        if 1 <= n <= MAX_ID then Ok(t.(working := s.working.(next := n))) else Refused("target-import")
      case Commit => Ok(t.(committed := s.working, staged := []))
  }

  // The first refused statement ends the run; what is not committed is lost.
  datatype Outcome = Outcome(session: Session, refused: Option<string>)

  function RunAll(script: seq<Statement>, server: Server, s: Session): Outcome {
    if script == [] then Outcome(s, None)
    else
      match Exec(script[0], server(s.clock), s)
      case Refused(category) => Outcome(s, Some(category))
      case Ok(t) => RunAll(script[1..], server, t)
  }

  function Start(db: Db): Session {
    Session(db, db, [], 0)
  }

  lemma {:induction false} RunAppend(a: seq<Statement>, b: seq<Statement>, server: Server, s: Session)
    ensures var first := RunAll(a, server, s);
      RunAll(a + b, server, s) == if first.refused.Some? then first else RunAll(b, server, first.session)
  {
    if a == [] {
      assert a + b == b;
    } else {
      assert (a + b)[1..] == a[1..] + b;
      match Exec(a[0], server(s.clock), s)
      case Refused(_) =>
      case Ok(t) => RunAppend(a[1..], b, server, t);
    }
  }

  lemma RunCons(first: Statement, rest: seq<Statement>, server: Server, s: Session)
    ensures var result := Exec(first, server(s.clock), s);
      RunAll([first] + rest, server, s) ==
        if result.Refused? then Outcome(s, Some(result.category)) else RunAll(rest, server, result.value)
  {
    assert ([first] + rest)[1..] == rest;
  }

  lemma RunOne(only: Statement, server: Server, s: Session)
    ensures var result := Exec(only, server(s.clock), s);
      RunAll([only], server, s) ==
        if result.Refused? then Outcome(s, Some(result.category)) else Outcome(result.value, None)
  {
    RunCons(only, [], server, s);
    assert [only] + [] == [only];
  }

  lemma {:induction false} OnlyCommitCommits(script: seq<Statement>, server: Server, s: Session)
    requires Commit !in script
    ensures RunAll(script, server, s).session.committed == s.committed
  {
    if script != [] {
      assert script[0] in script && forall st | st in script[1..] :: st in script;
      match Exec(script[0], server(s.clock), s)
      case Refused(_) =>
      case Ok(t) => OnlyCommitCommits(script[1..], server, t);
    }
  }

  predicate LeavesStaged(statement: Statement) {
    !statement.Stage? && !statement.Commit?
  }

  lemma {:induction false} StagedRemains(script: seq<Statement>, server: Server, s: Session)
    requires forall st | st in script :: LeavesStaged(st)
    ensures RunAll(script, server, s).session.staged == s.staged
  {
    if script != [] {
      assert LeavesStaged(script[0]) && forall st | st in script[1..] :: st in script;
      match Exec(script[0], server(s.clock), s)
      case Refused(_) =>
      case Ok(t) => StagedRemains(script[1..], server, t);
    }
  }

  // --- What is staged ------------------------------------------------------

  lemma {:induction false} StagedAppend(a: seq<Staged>, b: seq<Staged>, table: string)
    ensures StagedBag(a + b, table) == StagedBag(a, table) + StagedBag(b, table)
  {
    if b == [] {
      assert a + b == a;
    } else {
      assert (a + b)[..|a + b| - 1] == a + b[..|b| - 1];
      StagedAppend(a, b[..|b| - 1], table);
    }
  }

  lemma {:induction false} LinesBag(name: string, rows: seq<Row>, table: string)
    ensures StagedBag(LinesOf(name, rows), table) == if name == table then multiset(rows) else multiset{}
  {
    if rows != [] {
      LinesBag(name, rows[..|rows| - 1], table);
      assert rows == rows[..|rows| - 1] + [rows[|rows| - 1]];
    }
  }

  predicate NoRepeats(names: seq<string>) {
    names == [] || (names[|names| - 1] !in names[..|names| - 1] && NoRepeats(names[..|names| - 1]))
  }

  // Everything read for a table is staged under its name, and nothing else is
  // if no table is listed twice.
  lemma {:induction false} EveryRowIsStaged(rows: Source, order: seq<string>, table: string)
    requires forall name | name in order :: name in rows
    ensures table in order ==> Bag(rows, table) <= StagedBag(PayloadLines(rows, order), table)
    ensures table !in order ==> StagedBag(PayloadLines(rows, order), table) == multiset{}
    ensures NoRepeats(order) && table in order ==> StagedBag(PayloadLines(rows, order), table) == Bag(rows, table)
  {
    if order != [] {
      var init := order[..|order| - 1];
      var name := order[|order| - 1];
      assert order == init + [name];
      EveryRowIsStaged(rows, init, table);
      StagedAppend(PayloadLines(rows, init), LinesOf(name, rows[name]), table);
      LinesBag(name, rows[name], table);
    }
  }

  // --- The checks ----------------------------------------------------------

  lemma BagsEqual(a: multiset<Row>, b: multiset<Row>)
    ensures SameBag(a, b) <==> a == b
  {
    if SameBag(a, b) {
      forall r
        ensures a[r] == b[r]
      {
        assert (a - b)[r] == 0 && (b - a)[r] == 0;
      }
    }
  }

  ghost predicate NeverFails(server: Server) {
    forall k: nat :: !server(k).fails
  }

  predicate Verified(rows: Source, order: seq<string>, s: Session)
    requires forall name | name in order :: name in rows
  {
    forall name | name in order :: Matches(name, |rows[name]|, s)
  }

  lemma VerifiedMore(rows: Source, init: seq<string>, name: string, s: Session)
    requires name in rows && forall n | n in init :: n in rows
    ensures Verified(rows, init + [name], s) <==> Verified(rows, init, s) && Matches(name, |rows[name]|, s)
  {
    assert name in init + [name];
  }

  // A session that differs only in how many statements it has run.
  predicate SameState(s: Session, t: Session) {
    t.committed == s.committed && t.working == s.working && t.staged == s.staged
  }

  predicate Matches(name: string, count: nat, s: Session) {
    |RowsIn(s.working.tables, name)| == count && RowsIn(s.working.tables, name) == StagedBag(s.staged, name)
  }

  lemma OneTableChecked(name: string, count: nat, server: Server, s: Session)
    ensures var out := RunAll([CheckCount(name, count)] + [CheckBag(name)], server, s);
      && SameState(s, out.session)
      && (out.refused == None ==> Matches(name, count, s))
      && (Matches(name, count, s) && !server(s.clock).fails && !server(s.clock + 1).fails ==> out.refused == None)
  {
    BagsEqual(RowsIn(s.working.tables, name), StagedBag(s.staged, name));
    RunCons(CheckCount(name, count), [CheckBag(name)], server, s);
    RunOne(CheckBag(name), server, s.(clock := s.clock + 1));
  }

  // Passing the checks changes nothing and means every table is as staged.
  lemma {:induction false} ChecksVerify(rows: Source, order: seq<string>, server: Server, s: Session)
    requires forall name | name in order :: name in rows
    ensures var out := RunAll(Checks(rows, order), server, s);
      && SameState(s, out.session)
      && (out.refused == None ==> Verified(rows, order, s))
      && (Verified(rows, order, s) && NeverFails(server) ==> out.refused == None)
  {
    if order != [] {
      var init := order[..|order| - 1];
      var name := order[|order| - 1];
      assert order == init + [name];
      ChecksVerify(rows, init, server, s);
      var pair := [CheckCount(name, |rows[name]|)] + [CheckBag(name)];
      assert Checks(rows, order) == Checks(rows, init) + pair;
      RunAppend(Checks(rows, init), pair, server, s);
      var checked := RunAll(Checks(rows, init), server, s).session;
      OneTableChecked(name, |rows[name]|, server, checked);
      VerifiedMore(rows, init, name, s);
      assert Matches(name, |rows[name]|, checked) <==> Matches(name, |rows[name]|, s);
    }
  }

  lemma SmallerBagOfSameSize(a: multiset<Row>, b: multiset<Row>)
    requires a <= b && |a| == |b|
    ensures a == b
  {
    assert b == a + (b - a);
    assert |b - a| == 0;
  }

  // Counted and compared with the staged rows, a table is what was read.
  lemma VerifiedIsExact(rows: Source, order: seq<string>, s: Session)
    requires forall name | name in order :: name in rows
    requires Verified(rows, order, s) && s.staged == PayloadLines(rows, order)
    ensures forall name | name in order :: RowsIn(s.working.tables, name) == Bag(rows, name)
  {
    forall name | name in order
      ensures RowsIn(s.working.tables, name) == Bag(rows, name)
    {
      assert Matches(name, |rows[name]|, s);
      EveryRowIsStaged(rows, order, name);
      SmallerBagOfSameSize(Bag(rows, name), StagedBag(s.staged, name));
    }
  }

  // --- The restarted identity ----------------------------------------------

  lemma {:induction false} LargestIsLargest(rows: seq<Row>)
    ensures forall row | row in rows :: IdOf(row) <= LargestId(rows)
    ensures rows != [] ==> exists row | row in rows :: IdOf(row) == LargestId(rows)
  {
    if rows != [] {
      var init := rows[..|rows| - 1];
      var last := rows[|rows| - 1];
      assert rows == init + [last];
      LargestIsLargest(init);
      assert last in rows;
      if |rows| > 1 && IdOf(last) <= LargestId(init) {
        var row :| row in init && IdOf(row) == LargestId(init);
        assert row in rows;
      }
    }
  }

  // --- All or nothing ------------------------------------------------------

  predicate Exact(m: Manifest, rows: Source, db: Db)
  {
    && (forall name | name in m.order :: RowsIn(db.tables, name) == Bag(rows, name))
    && LinksHold(db.tables)
    && 1 <= db.next <= MAX_ID
    && forall row | row in RowsIn(db.tables, "kg_facts") :: IdOf(row) < db.next
  }

  lemma RestartAndCommit(next: int, server: Server, s: Session)
    ensures var out := RunAll([Restart(next)] + [Commit], server, s);
      if out.refused.Some? then out.session.committed == s.committed
      else out.session.committed == Db(s.working.tables, next) && 1 <= next <= MAX_ID
    ensures NeverFails(server) && 1 <= next <= MAX_ID ==> RunAll([Restart(next)] + [Commit], server, s).refused == None
  {
    RunCons(Restart(next), [Commit], server, s);
    RunOne(Commit, server, s.(clock := s.clock + 1, working := s.working.(next := next)));
  }

  lemma ClosingCommits(rows: Source, server: Server, s: Session)
    requires "kg_facts" in rows
    ensures var out := RunAll(Closing(rows), server, s);
      if out.refused.Some? then out.session.committed == s.committed
      else
        && out.session.committed == Db(s.working.tables, LargestId(rows["kg_facts"]) + 1)
        && LinksHold(s.working.tables) && 1 <= out.session.committed.next <= MAX_ID
    ensures NeverFails(server) && LinksHold(s.working.tables) && 0 <= LargestId(rows["kg_facts"]) < MAX_ID
      ==> RunAll(Closing(rows), server, s).refused == None
  {
    var next := LargestId(rows["kg_facts"]) + 1;
    assert Closing(rows) == [CheckLinks] + ([Restart(next)] + [Commit]);
    RunCons(CheckLinks, [Restart(next)] + [Commit], server, s);
    RestartAndCommit(next, server, s.(clock := s.clock + 1));
  }

  lemma {:induction false} EmptiesLeaveStaged(names: seq<string>)
    ensures forall st | st in Empties(names) :: LeavesStaged(st)
  {
    if names != [] {
      EmptiesLeaveStaged(names[..|names| - 1]);
    }
  }

  lemma {:induction false} InsertsLeaveStaged(names: seq<string>)
    ensures forall st | st in Inserts(names) :: LeavesStaged(st)
  {
    if names != [] {
      InsertsLeaveStaged(names[..|names| - 1]);
    }
  }

  function Before(m: Manifest): seq<Statement> {
    OPENING + Empties(m.order + m.others) + [Require(OptionalTablesEmpty)]
  }

  lemma BeforeLeavesStaged(m: Manifest)
    ensures forall st | st in Before(m) :: LeavesStaged(st)
  {
    EmptiesLeaveStaged(m.order + m.others);
    assert forall st | st in OPENING :: LeavesStaged(st);
  }

  // After the writes, whatever the server did, the staged rows are those read.
  lemma WritesStage(m: Manifest, rows: Source, fault: Fault, server: Server, s: Session)
    requires Pinned(m, rows)
    ensures var out := RunAll(Writes(m, rows, fault), server, s);
      && out.session.committed == s.committed
      && (out.refused == None ==> out.session.staged == PayloadLines(rows, m.order))
  {
    var staging := [Stage(PayloadLines(rows, m.order))];
    var writing := Inserts(m.order) + Faults(fault);
    BeforeLeavesStaged(m);
    InsertsLeaveStaged(m.order);
    assert Writes(m, rows, fault) == Before(m) + staging + writing;
    OnlyCommitCommits(Writes(m, rows, fault), server, s);
    RunAppend(Before(m) + staging, writing, server, s);
    RunAppend(Before(m), staging, server, s);
    var first := RunAll(Before(m), server, s);
    RunOne(Stage(PayloadLines(rows, m.order)), server, first.session);
    var second := RunAll(staging, server, first.session);
    StagedRemains(writing, server, second.session);
  }

  // Every run leaves the target as it was, or commits it with each copied table
  // equal as a bag to what was read, whatever the server did to rows between
  // insert and verification; the identity then restarts past every fact.
  lemma ImportIsAllOrNothing(m: Manifest, rows: Source, fault: Fault, server: Server, db: Db)
    requires Pinned(m, rows)
    ensures var out := RunAll(Script(m, rows, fault), server, Start(db));
      if out.refused.Some? then out.session.committed == db else Exact(m, rows, out.session.committed)
  {
    var s := Start(db);
    var writes, checks := Writes(m, rows, fault), Checks(rows, m.order);
    RunAppend(writes + checks, Closing(rows), server, s);
    RunAppend(writes, checks, server, s);
    WritesStage(m, rows, fault, server, s);
    var written := RunAll(writes, server, s);
    if written.refused == None {
      ChecksVerify(rows, m.order, server, written.session);
      var checked := RunAll(checks, server, written.session);
      if checked.refused == None {
        VerifiedIsExact(rows, m.order, written.session);
        ClosingCommits(rows, server, checked.session);
        LargestIsLargest(rows["kg_facts"]);
      }
    }
  }
}

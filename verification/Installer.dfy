// The Windows installer: verify an archive in a working directory, move the
// previous install aside, move the new one in, and put the old one back if that
// fails. Any step may fail, and something else may appear at the target.
module Installer {
  import opened Options

  type Path = seq<string>

  datatype Entry = File(text: string) | Folder

  // What lies at each path.
  type Disk = Path -> Option<Entry>

  // The install root, where the old one goes meanwhile, and the working directory.
  datatype Places = Places(target: Path, backup: Path, working: Path)

  predicate Apart(p: Path, q: Path) {
    !(p <= q) && !(q <= p)
  }

  predicate WellPlaced(at: Places) {
    Apart(at.target, at.backup) && Apart(at.target, at.working) && Apart(at.backup, at.working)
  }

  function Stage(at: Places): Path {
    at.working + ["stage"]
  }

  // --- Disk operations -----------------------------------------------------

  function Moved(disk: Disk, source: Path, destination: Path): Disk {
    (q: Path) =>
      if destination <= q then disk(source + q[|destination|..])
      else if source <= q then None
      else disk(q)
  }

  // Removal may leave some entries behind.
  function Pruned(disk: Disk, root: Path, kept: set<Path>): Disk {
    (q: Path) => if root <= q && q !in kept then None else disk(q)
  }

  // A tree written at a root, whatever was there before.
  function Written(disk: Disk, root: Path, tree: Disk): Disk {
    (q: Path) => if root <= q then tree(q[|root|..]) else disk(q)
  }

  // Two places, on two disks, hold the same tree.
  ghost predicate SameTree(a: Disk, p: Path, b: Disk, q: Path) {
    forall r: Path :: a(p + r) == b(q + r)
  }

  predicate Outside(q: Path, at: Places) {
    !(at.target <= q) && !(at.backup <= q) && !(at.working <= q)
  }

  ghost predicate RestUntouched(a: Disk, b: Disk, at: Places) {
    forall q: Path | Outside(q, at) :: a(q) == b(q)
  }

  lemma ApartBelow(p: Path, q: Path, r: Path)
    requires Apart(p, q)
    ensures !(q <= p + r)
  {
  }

  // A move carries the whole tree.
  lemma MoveCarriesTree(disk: Disk, source: Path, destination: Path)
    ensures SameTree(disk, source, Moved(disk, source, destination), destination)
  {
    forall r: Path
      ensures disk(source + r) == Moved(disk, source, destination)(destination + r)
    {
      assert destination <= destination + r && (destination + r)[|destination|..] == r;
    }
  }

  lemma MoveSparesTree(disk: Disk, source: Path, destination: Path, other: Path)
    requires Apart(other, source) && Apart(other, destination)
    ensures SameTree(disk, other, Moved(disk, source, destination), other)
  {
    forall r: Path
      ensures disk(other + r) == Moved(disk, source, destination)(other + r)
    {
      ApartBelow(other, source, r);
      ApartBelow(other, destination, r);
    }
  }

  lemma PruneSparesTree(disk: Disk, root: Path, kept: set<Path>, other: Path)
    requires Apart(other, root)
    ensures SameTree(disk, other, Pruned(disk, root, kept), other)
  {
    forall r: Path
      ensures disk(other + r) == Pruned(disk, root, kept)(other + r)
    {
      ApartBelow(other, root, r);
    }
  }

  lemma WriteSparesTree(disk: Disk, root: Path, tree: Disk, other: Path)
    requires Apart(other, root)
    ensures SameTree(disk, other, Written(disk, root, tree), other)
  {
    forall r: Path
      ensures disk(other + r) == Written(disk, root, tree)(other + r)
    {
      ApartBelow(other, root, r);
    }
  }

  lemma SameTreeTwice(a: Disk, p: Path, b: Disk, q: Path, c: Disk, r: Path)
    requires SameTree(a, p, b, q) && SameTree(b, q, c, r)
    ensures SameTree(a, p, c, r)
  {
    forall s: Path
      ensures a(p + s) == c(r + s)
    {
      assert a(p + s) == b(q + s);
    }
  }

  // --- The installation ----------------------------------------------------

  // Everything the machine decides: what the download leaves in the working
  // directory, whether every check passes, which moves fail, what else appears
  // at the target, and what removals leave behind.
  datatype Fate = Fate(
    download: Disk, checked: bool,
    asideFails: bool, stranger: Option<Disk>, activateFails: bool, restoreFails: bool,
    backupKept: set<Path>, pathFails: bool, workingKept: set<Path>)

  datatype Report =
    | CheckFailed
    | NotADirectory
    | ActivationFailed
    | RollbackFailed
    | PathUpdateFailed
    | Installed

  // A directory move needs its source, and refuses a destination that exists.
  predicate CanMove(disk: Disk, source: Path, destination: Path, fails: bool) {
    !fails && disk(source) != None && disk(destination) == None
  }

  predicate StrangerAppears(fate: Fate) {
    fate.stranger.Some? && fate.stranger.value([]) != None
  }

  // Where the previous tree and the new one are to be found.
  ghost predicate OldAt(start: Disk, disk: Disk, at: Places, place: Path) {
    SameTree(start, at.target, disk, place)
  }

  ghost predicate NewAt(disk: Disk, fate: Fate, place: Path) {
    SameTree(fate.download, ["stage"], disk, place)
  }

  // What holds at every moment: a previous install is whole, at the target or
  // in the backup, until the new one is at the target; and nothing changes
  // outside the three places.
  ghost predicate Guarded(start: Disk, disk: Disk, at: Places, fate: Fate) {
    && RestUntouched(start, disk, at)
    && (start(at.target) != None ==>
         OldAt(start, disk, at, at.target) || OldAt(start, disk, at, at.backup) || NewAt(disk, fate, at.target))
  }

  ghost predicate AllGuarded(start: Disk, trace: seq<Disk>, at: Places, fate: Fate) {
    forall k | 0 <= k < |trace| :: Guarded(start, trace[k], at, fate)
  }

  lemma StageIsApart(at: Places)
    requires WellPlaced(at)
    ensures Apart(at.target, Stage(at)) && Apart(at.backup, Stage(at))
  {
    assert Stage(at)[..|at.working|] == at.working;
  }

  lemma BelowStage(at: Places, q: Path)
    requires Stage(at) <= q
    ensures at.working <= q
  {
    assert q[..|Stage(at)|] == Stage(at);
  }

  predicate OneOf(p: Path, at: Places) {
    p == at.target || p == at.backup || p == Stage(at)
  }

  lemma MoveSparesRest(start: Disk, disk: Disk, at: Places, source: Path, destination: Path)
    requires WellPlaced(at) && OneOf(source, at) && OneOf(destination, at) && RestUntouched(start, disk, at)
    ensures RestUntouched(start, Moved(disk, source, destination), at)
  {
    forall q: Path | Outside(q, at)
      ensures start(q) == Moved(disk, source, destination)(q)
    {
      if Stage(at) <= q {
        BelowStage(at, q);
      }
      assert !(source <= q) && !(destination <= q);
    }
  }

  // The previous tree moves aside; the new one waits.
  lemma AsideKeeps(start: Disk, disk: Disk, at: Places, fate: Fate)
    requires WellPlaced(at) && RestUntouched(start, disk, at)
    requires OldAt(start, disk, at, at.target) && NewAt(disk, fate, Stage(at))
    ensures var after := Moved(disk, at.target, at.backup);
      RestUntouched(start, after, at) && OldAt(start, after, at, at.backup) && NewAt(after, fate, Stage(at))
  {
    var after := Moved(disk, at.target, at.backup);
    StageIsApart(at);
    MoveSparesRest(start, disk, at, at.target, at.backup);
    MoveCarriesTree(disk, at.target, at.backup);
    SameTreeTwice(start, at.target, disk, at.target, after, at.backup);
    MoveSparesTree(disk, at.target, at.backup, Stage(at));
    SameTreeTwice(fate.download, ["stage"], disk, Stage(at), after, Stage(at));
  }

  // Something else appears at the vacated target.
  lemma StrangerKeeps(start: Disk, disk: Disk, at: Places, fate: Fate, stranger: Disk)
    requires WellPlaced(at) && RestUntouched(start, disk, at)
    ensures var after := Written(disk, at.target, stranger);
      && RestUntouched(start, after, at)
      && (OldAt(start, disk, at, at.backup) ==> OldAt(start, after, at, at.backup))
      && (NewAt(disk, fate, Stage(at)) ==> NewAt(after, fate, Stage(at)))
  {
    var after := Written(disk, at.target, stranger);
    StageIsApart(at);
    if OldAt(start, disk, at, at.backup) {
      WriteSparesTree(disk, at.target, stranger, at.backup);
      SameTreeTwice(start, at.target, disk, at.backup, after, at.backup);
    }
    if NewAt(disk, fate, Stage(at)) {
      WriteSparesTree(disk, at.target, stranger, Stage(at));
      SameTreeTwice(fate.download, ["stage"], disk, Stage(at), after, Stage(at));
    }
  }

  lemma ActivationKeeps(start: Disk, disk: Disk, at: Places, fate: Fate)
    requires WellPlaced(at) && RestUntouched(start, disk, at) && NewAt(disk, fate, Stage(at))
    ensures var after := Moved(disk, Stage(at), at.target);
      && RestUntouched(start, after, at) && NewAt(after, fate, at.target)
      && (OldAt(start, disk, at, at.backup) ==> OldAt(start, after, at, at.backup))
  {
    var after := Moved(disk, Stage(at), at.target);
    StageIsApart(at);
    if OldAt(start, disk, at, at.backup) {
      MoveSparesTree(disk, Stage(at), at.target, at.backup);
      SameTreeTwice(start, at.target, disk, at.backup, after, at.backup);
    }
    MoveSparesRest(start, disk, at, Stage(at), at.target);
    MoveCarriesTree(disk, Stage(at), at.target);
    SameTreeTwice(fate.download, ["stage"], disk, Stage(at), after, at.target);
  }

  lemma RestoreKeeps(start: Disk, disk: Disk, at: Places)
    requires WellPlaced(at) && RestUntouched(start, disk, at) && OldAt(start, disk, at, at.backup)
    ensures var after := Moved(disk, at.backup, at.target);
      RestUntouched(start, after, at) && OldAt(start, after, at, at.target)
  {
    var after := Moved(disk, at.backup, at.target);
    MoveSparesRest(start, disk, at, at.backup, at.target);
    MoveCarriesTree(disk, at.backup, at.target);
    SameTreeTwice(start, at.target, disk, at.backup, after, at.target);
  }

  lemma PruneSparesRest(start: Disk, disk: Disk, at: Places, root: Path, kept: set<Path>)
    requires RestUntouched(start, disk, at) && (root == at.backup || root == at.working)
    ensures RestUntouched(start, Pruned(disk, root, kept), at)
  {
  }

  lemma PruneKeepsOld(start: Disk, disk: Disk, at: Places, root: Path, kept: set<Path>, place: Path)
    requires Apart(place, root) && OldAt(start, disk, at, place)
    ensures OldAt(start, Pruned(disk, root, kept), at, place)
  {
    PruneSparesTree(disk, root, kept, place);
    SameTreeTwice(start, at.target, disk, place, Pruned(disk, root, kept), place);
  }

  lemma PruneKeepsNew(disk: Disk, fate: Fate, root: Path, kept: set<Path>, place: Path)
    requires Apart(place, root) && NewAt(disk, fate, place)
    ensures NewAt(Pruned(disk, root, kept), fate, place)
  {
    PruneSparesTree(disk, root, kept, place);
    SameTreeTwice(fate.download, ["stage"], disk, place, Pruned(disk, root, kept), place);
  }

  // --- Moving the install --------------------------------------------------

  ghost predicate Waiting(start: Disk, disk: Disk, at: Places, fate: Fate, place: Path) {
    && RestUntouched(start, disk, at)
    && NewAt(disk, fate, Stage(at))
    && (start(at.target) != None ==> OldAt(start, disk, at, place))
  }

  lemma RootOf(a: Disk, p: Path, b: Disk, q: Path)
    requires SameTree(a, p, b, q)
    ensures a(p) == b(q)
  {
    assert p + [] == p && q + [] == q;
  }

  // An existing target moves aside.
  method MoveAside(ghost start: Disk, prepared: Disk, at: Places, fate: Fate)
    returns (disk: Disk, failed: bool, backupCreated: bool)
    requires WellPlaced(at) && Waiting(start, prepared, at, fate, at.target) && prepared(at.target) == start(at.target)
    ensures backupCreated <==> prepared(at.target) != None && !failed
    ensures failed <==> prepared(at.target) != None && (fate.asideFails || prepared(at.backup) != None)
    ensures Waiting(start, disk, at, fate, if backupCreated then at.backup else at.target)
    ensures !backupCreated ==> disk == prepared
    ensures !failed ==> disk(at.target) == None
  {
    disk, backupCreated, failed := prepared, false, false;
    if disk(at.target) != None {
      if CanMove(disk, at.target, at.backup, fate.asideFails) {
        AsideKeeps(start, disk, at, fate);
        disk, backupCreated := Moved(disk, at.target, at.backup), true;
      } else {
        failed := true;
      }
    }
  }

  // The vacated target is taken by a stranger, or by the new tree.
  method MoveIn(ghost start: Disk, vacated: Disk, at: Places, fate: Fate)
    returns (disk: Disk, failed: bool, ghost trace: seq<Disk>)
    requires WellPlaced(at) && Waiting(start, vacated, at, fate, at.backup) && vacated(at.target) == None
    ensures failed <==> StrangerAppears(fate) || fate.activateFails || fate.download(["stage"]) == None
    ensures AllGuarded(start, trace, at, fate) && Guarded(start, disk, at, fate)
    ensures !failed ==> NewAt(disk, fate, at.target)
    ensures failed ==> (disk(at.target) != None <==> StrangerAppears(fate))
    ensures start(at.target) != None ==> OldAt(start, disk, at, at.backup)
    ensures RestUntouched(start, disk, at) && SameTree(vacated, at.backup, disk, at.backup)
  {
    disk, failed, trace := vacated, false, [];
    StageIsApart(at);
    if StrangerAppears(fate) {
      WriteSparesTree(disk, at.target, fate.stranger.value, at.backup);
      StrangerKeeps(start, disk, at, fate, fate.stranger.value);
      disk := Written(disk, at.target, fate.stranger.value);
      trace := [disk];
      assert at.target[|at.target|..] == [];
    }
    RootOf(fate.download, ["stage"], disk, Stage(at));
    if CanMove(disk, Stage(at), at.target, fate.activateFails) {
      ActivationKeeps(start, disk, at, fate);
      MoveSparesTree(disk, Stage(at), at.target, at.backup);
      SameTreeTwice(vacated, at.backup, disk, at.backup, Moved(disk, Stage(at), at.target), at.backup);
      disk := Moved(disk, Stage(at), at.target);
      trace := trace + [disk];
    } else {
      failed := true;
    }
  }

  datatype Outcome = Activated | Failed | FailedTwice

  // The old tree goes back if the target is free.
  method Restore(ghost start: Disk, left: Disk, at: Places, fate: Fate, backupCreated: bool)
    returns (disk: Disk, outcome: Outcome, remains: bool)
    requires WellPlaced(at) && Guarded(start, left, at, fate)
    requires backupCreated ==> start(at.target) != None && OldAt(start, left, at, at.backup)
    ensures Guarded(start, disk, at, fate)
    ensures outcome == FailedTwice <==> backupCreated && left(at.target) == None && fate.restoreFails
    ensures outcome != FailedTwice ==> outcome == Failed
    ensures remains <==> backupCreated && (left(at.target) != None || fate.restoreFails)
    ensures remains ==> disk == left
    ensures backupCreated && !remains ==> OldAt(start, disk, at, at.target)
    ensures !backupCreated ==> disk == left
  {
    disk, outcome, remains := left, Failed, backupCreated;
    if backupCreated && disk(at.target) == None {
      RootOf(start, at.target, disk, at.backup);
      if CanMove(disk, at.backup, at.target, fate.restoreFails) {
        RestoreKeeps(start, disk, at);
        disk, remains := Moved(disk, at.backup, at.target), false;
      } else {
        outcome := FailedTwice;
      }
    }
  }

  // How an installation that got as far as moving ends.
  ghost predicate EndsAs(start: Disk, disk: Disk, at: Places, fate: Fate, outcome: Outcome, backupCreated: bool) {
    match outcome
    case Activated =>
      NewAt(disk, fate, at.target) && (backupCreated <==> start(at.target) != None)
    case Failed =>
      && (backupCreated <==> start(at.target) != None && !fate.asideFails && StrangerAppears(fate))
      && (start(at.target) != None ==> OldAt(start, disk, at, if backupCreated then at.backup else at.target))
    case FailedTwice =>
      start(at.target) != None && fate.restoreFails && OldAt(start, disk, at, at.backup)
  }

  // Aside, in, and back if need be.
  method Activate(ghost start: Disk, prepared: Disk, at: Places, fate: Fate)
    returns (disk: Disk, outcome: Outcome, backupCreated: bool, ghost trace: seq<Disk>)
    requires WellPlaced(at) && Waiting(start, prepared, at, fate, at.target)
    requires prepared(at.target) == start(at.target) && prepared(at.backup) == None
    ensures AllGuarded(start, trace, at, fate) && Guarded(start, disk, at, fate)
    ensures EndsAs(start, disk, at, fate, outcome, backupCreated)
    ensures outcome == Activated && !backupCreated ==> SameTree(prepared, at.backup, disk, at.backup)
    ensures outcome == Activated <==>
      && (start(at.target) != None ==> !fate.asideFails)
      && !StrangerAppears(fate) && !fate.activateFails && fate.download(["stage"]) != None
    ensures outcome == FailedTwice <==>
      && start(at.target) != None && !fate.asideFails && !StrangerAppears(fate)
      && (fate.activateFails || fate.download(["stage"]) == None) && fate.restoreFails
  {
    var failed;
    disk, failed, backupCreated := MoveAside(start, prepared, at, fate);
    trace := [disk];
    if !failed {
      ghost var more;
      disk, failed, more := MoveIn(start, disk, at, fate);
      trace := trace + more;
    }
    outcome := Activated;
    if failed {
      disk, outcome, backupCreated := Restore(start, disk, at, fate, backupCreated);
      trace := trace + [disk];
    }
  }

  // --- The whole installer -------------------------------------------------

  ghost predicate Fresh(start: Disk, at: Places) {
    && WellPlaced(at)
    && (forall r: Path :: start(at.backup + r) == None)
    && (forall r: Path :: start(at.working + r) == None)
  }

  function IsFile(entry: Option<Entry>): bool {
    entry.Some? && entry.value.File?
  }

  // What is on the disk when the installer has ended.
  ghost predicate FinallyAs(start: Disk, disk: Disk, at: Places, fate: Fate, report: Report) {
    match report
    case CheckFailed => SameTree(start, at.target, disk, at.target)
    case NotADirectory => SameTree(start, at.target, disk, at.target)
    case Installed => NewAt(disk, fate, at.target)
    case PathUpdateFailed => NewAt(disk, fate, at.target)
    case RollbackFailed => OldAt(start, disk, at, at.backup)
    case ActivationFailed =>
      start(at.target) != None ==>
        OldAt(start, disk, at, if fate.asideFails || !StrangerAppears(fate) then at.target else at.backup)
  }

  lemma PrepareKeeps(start: Disk, at: Places, fate: Fate)
    requires WellPlaced(at)
    ensures var disk := Written(start, at.working, fate.download);
      && RestUntouched(start, disk, at) && OldAt(start, disk, at, at.target) && NewAt(disk, fate, Stage(at))
      && disk(at.target) == start(at.target) && disk(at.backup) == start(at.backup)
      && SameTree(start, at.backup, disk, at.backup)
  {
    var disk := Written(start, at.working, fate.download);
    WriteSparesTree(start, at.working, fate.download, at.target);
    WriteSparesTree(start, at.working, fate.download, at.backup);
    forall r: Path
      ensures fate.download(["stage"] + r) == disk(Stage(at) + r)
    {
      assert Stage(at) + r == at.working + (["stage"] + r);
      assert (at.working + (["stage"] + r))[|at.working|..] == ["stage"] + r;
    }
  }

  lemma CleanupKeeps(start: Disk, disk: Disk, at: Places, fate: Fate, report: Report)
    requires WellPlaced(at) && Guarded(start, disk, at, fate) && FinallyAs(start, disk, at, fate, report)
    ensures var after := Pruned(disk, at.working, fate.workingKept);
      Guarded(start, after, at, fate) && FinallyAs(start, after, at, fate, report)
  {
    PruneSparesRest(start, disk, at, at.working, fate.workingKept);
    if OldAt(start, disk, at, at.target) {
      PruneKeepsOld(start, disk, at, at.working, fate.workingKept, at.target);
    }
    if OldAt(start, disk, at, at.backup) {
      PruneKeepsOld(start, disk, at, at.working, fate.workingKept, at.backup);
    }
    if NewAt(disk, fate, at.target) {
      PruneKeepsNew(disk, fate, at.working, fate.workingKept, at.target);
    }
  }

  // A place holds nothing but entries that could not be removed.
  ghost predicate OnlyLeft(disk: Disk, place: Path, kept: set<Path>) {
    forall r: Path :: disk(place + r) != None ==> place + r in kept
  }

  lemma NothingLeft(start: Disk, prepared: Disk, disk: Disk, at: Places, kept: set<Path>)
    requires Fresh(start, at) && SameTree(start, at.backup, prepared, at.backup)
    requires SameTree(prepared, at.backup, disk, at.backup)
    ensures OnlyLeft(disk, at.backup, kept)
  {
    forall r: Path
      ensures disk(at.backup + r) == None
    {
      assert start(at.backup + r) == prepared(at.backup + r) == disk(at.backup + r);
    }
  }

  lemma CleanupLeaves(disk: Disk, at: Places, kept: set<Path>, left: set<Path>)
    requires WellPlaced(at) && OnlyLeft(disk, at.backup, left)
    ensures OnlyLeft(Pruned(disk, at.working, kept), at.backup, left)
  {
    forall r: Path
      ensures Pruned(disk, at.working, kept)(at.backup + r) == disk(at.backup + r)
    {
      ApartBelow(at.backup, at.working, r);
    }
  }

  lemma DropBackupKeeps(start: Disk, disk: Disk, at: Places, fate: Fate)
    requires WellPlaced(at) && RestUntouched(start, disk, at) && NewAt(disk, fate, at.target)
    ensures var after := Pruned(disk, at.backup, fate.backupKept);
      Guarded(start, after, at, fate) && NewAt(after, fate, at.target)
  {
    PruneSparesRest(start, disk, at, at.backup, fate.backupKept);
    PruneKeepsNew(disk, fate, at.backup, fate.backupKept, at.target);
  }

  // At every moment the previous install is whole at the target or the backup
  // until the new one is at the target, and nothing else on the disk changes.
  // Failed checks leave the target as it was. A failed activation ends with the
  // old install at the target, unless the way back failed or something else took
  // the target: then it is in the backup. Cleaning up removes neither.
  method Install(start: Disk, at: Places, fate: Fate)
    returns (disk: Disk, report: Report, ghost trace: seq<Disk>)
    requires Fresh(start, at)
    ensures AllGuarded(start, trace, at, fate) && |trace| > 0 && trace[|trace| - 1] == disk
    ensures FinallyAs(start, disk, at, fate, report)
    ensures report == CheckFailed <==> !fate.checked
    ensures report == NotADirectory <==> fate.checked && exists text :: start(at.target) == Some(File(text))
    ensures report == Installed || report == PathUpdateFailed <==>
      && fate.checked && !IsFile(start(at.target))
      && (start(at.target) != None ==> !fate.asideFails)
      && !StrangerAppears(fate) && !fate.activateFails && fate.download(["stage"]) != None
    ensures report == PathUpdateFailed ==> fate.pathFails
    ensures report == Installed ==> !fate.pathFails
    ensures report == Installed || report == PathUpdateFailed ==>
      OnlyLeft(disk, at.backup, fate.backupKept)
    ensures report == RollbackFailed <==>
      && fate.checked && start(at.target) != None && !IsFile(start(at.target))
      && !fate.asideFails && !StrangerAppears(fate)
      && (fate.activateFails || fate.download(["stage"]) == None) && fate.restoreFails
    ensures OnlyLeft(disk, at.working, fate.workingKept)
  {
    disk := Written(start, at.working, fate.download);
    trace := [disk];
    PrepareKeeps(start, at, fate);
    assert at.backup + [] == at.backup;
    if !fate.checked {
      report := CheckFailed;
    } else if IsFile(disk(at.target)) {
      report := NotADirectory;
    } else {
      var outcome, backupCreated;
      ghost var more;
      ghost var prepared := disk;
      disk, outcome, backupCreated, more := Activate(start, disk, at, fate);
      trace := trace + more;
      match outcome
      case FailedTwice => report := RollbackFailed;
      case Failed => report := ActivationFailed;
      case Activated =>
        if backupCreated {
          DropBackupKeeps(start, disk, at, fate);
          disk := Pruned(disk, at.backup, fate.backupKept);
          trace := trace + [disk];
        } else {
          NothingLeft(start, prepared, disk, at, fate.backupKept);
        }
        CleanupLeaves(disk, at, fate.workingKept, fate.backupKept);
        report := if fate.pathFails then PathUpdateFailed else Installed;
    }
    CleanupKeeps(start, disk, at, fate, report);
    disk := Pruned(disk, at.working, fate.workingKept);
    trace := trace + [disk];
  }
}

/**
 Swapping a backup into place: the three targets are renamed away, the backup is
 installed and verified, and on failure the renamed originals are put back. Every
 file operation may fail, and a failed one may leave anything behind.
 */
module StagedRestore {
  import opened Bytes

  datatype Target = Database | Keystore | Objects

  const TARGETS: seq<Target> := [Database, Keystore, Objects]

  /** The target itself, its copy with the suffix `.pre-restore`, and the database's two sidecars. */
  datatype Place = Live(target: Target) | Staged(target: Target) | Wal | Shm

  datatype Node = File(data: bytes) | Folder(files: map<bytes, bytes>)

  type Disk = map<Place, Node>

  datatype Outcome = Done | Failed(left: Option<Node>)

  /** How each operation turns out. */
  datatype Faults = Faults(
    clear: Target -> Outcome,
    stage: Target -> bool,
    sidecar: Place -> bool,
    install: Target -> Outcome,
    check: bool,
    wipe: Target -> Outcome,
    back: Target -> bool)

  function Get(disk: Disk, place: Place): Option<Node> {
    if place in disk then Some(disk[place]) else None
  }

  function Put(disk: Disk, place: Place, node: Option<Node>): Disk {
    if node.Some? then disk[place := node.value] else disk - {place}
  }

  function After(outcome: Outcome, done: Option<Node>): Option<Node> {
    if outcome.Done? then done else outcome.left
  }

  // ----- staging ------------------------------------------------------------

  datatype Staging = Staging(disk: Disk, renamed: seq<Target>, ok: bool)

  /** One target: a stale copy is cleared and the target is renamed to it. */
  function StageOne(f: Faults, s: Staging, t: Target): Staging {
    if !s.ok || Live(t) !in s.disk then s
    else if Staged(t) in s.disk && f.clear(t).Failed? then
      s.(disk := Put(s.disk, Staged(t), f.clear(t).left), ok := false)
    else
      var cleared := s.disk - {Staged(t)};
      if !f.stage(t) then s.(disk := cleared, ok := false)
      else Staging((cleared - {Live(t)})[Staged(t) := s.disk[Live(t)]], s.renamed + [t], true)
  }

  /** The loop returns at the first failure, before anything is rolled back. */
  function StageAll(f: Faults, disk: Disk, targets: seq<Target>): Staging {
    if targets == [] then Staging(disk, [], true)
    else StageOne(f, StageAll(f, disk, targets[..|targets| - 1]), targets[|targets| - 1])
  }

  /** Failing to remove a sidecar is ignored. */
  function RemoveSidecars(f: Faults, disk: Disk): Disk {
    var first := if f.sidecar(Wal) then disk - {Wal} else disk;
    if f.sidecar(Shm) then first - {Shm} else first
  }

  // ----- installing ---------------------------------------------------------

  datatype Installing = Installing(disk: Disk, ok: bool)

  function InstallOne(f: Faults, backup: Target -> Node, s: Installing, t: Target): Installing {
    if !s.ok then s
    else Installing(Put(s.disk, Live(t), After(f.install(t), Some(backup(t)))), f.install(t).Done?)
  }

  function InstallAll(f: Faults, backup: Target -> Node, disk: Disk, targets: seq<Target>): Installing {
    if targets == [] then Installing(disk, true)
    else InstallOne(f, backup, InstallAll(f, backup, disk, targets[..|targets| - 1]), targets[|targets| - 1])
  }

  // ----- rolling back -------------------------------------------------------

  /** Both operations are tried, and a failure of either is only logged. */
  function RollbackOne(f: Faults, disk: Disk, t: Target): Disk {
    var wiped := if Live(t) in disk then Put(disk, Live(t), After(f.wipe(t), None)) else disk;
    if f.back(t) && Staged(t) in wiped then (wiped - {Staged(t)})[Live(t) := wiped[Staged(t)]] else wiped
  }

  function Rollback(f: Faults, disk: Disk, renamed: seq<Target>): Disk {
    if renamed == [] then disk
    else RollbackOne(f, Rollback(f, disk, renamed[..|renamed| - 1]), renamed[|renamed| - 1])
  }

  // ----- the whole swap -----------------------------------------------------

  datatype Result = Restored | RolledBack | NotStaged

  function SwapIn(f: Faults, backup: Target -> Node, disk: Disk): (Disk, Result) {
    var staging := StageAll(f, disk, TARGETS);
    if !staging.ok then (staging.disk, NotStaged)
    else
      var installing := InstallAll(f, backup, RemoveSidecars(f, staging.disk), TARGETS);
      if installing.ok && f.check then (installing.disk, Restored)
      else (Rollback(f, installing.disk, staging.renamed), RolledBack)
  }

  // ----- what staging does --------------------------------------------------

  ghost predicate Unique(targets: seq<Target>) {
    forall i, j :: 0 <= i < j < |targets| ==> targets[i] != targets[j]
  }

  /** A renamed target's original is at its staged name and nowhere else; the others are untouched. */
  ghost predicate Moved(disk: Disk, s: Staging, t: Target) {
    if t in s.renamed then
      Live(t) in disk && Live(t) !in s.disk && Get(s.disk, Staged(t)) == Get(disk, Live(t))
    else
      Get(s.disk, Live(t)) == Get(disk, Live(t)) && (s.ok ==> Get(s.disk, Staged(t)) == Get(disk, Staged(t)))
  }

  lemma {:induction false} StageRenames(f: Faults, disk: Disk, targets: seq<Target>)
    requires Unique(targets)
    ensures var renamed := StageAll(f, disk, targets).renamed;
            Unique(renamed) && forall t: Target :: t in renamed ==> t in targets
  {
    if targets != [] {
      var front, last := targets[..|targets| - 1], targets[|targets| - 1];
      StageRenames(f, disk, front);
      assert last !in StageAll(f, disk, front).renamed;
      forall t: Target | t in StageAll(f, disk, targets).renamed ensures t in targets {
        assert t in front || t == last;
      }
    }
  }

  lemma StageOther(f: Faults, s: Staging, u: Target, t: Target)
    requires t != u
    ensures var r := StageOne(f, s, u);
            Get(r.disk, Live(t)) == Get(s.disk, Live(t)) && Get(r.disk, Staged(t)) == Get(s.disk, Staged(t))
            && (t in r.renamed <==> t in s.renamed) && (r.ok ==> s.ok)
  {
  }

  lemma StageSame(f: Faults, s: Staging, t: Target)
    requires t !in s.renamed
    ensures var r := StageOne(f, s, t);
            Moved(s.disk, r, t) && (r.ok ==> s.ok) && (s.ok && r.ok && Live(t) in s.disk ==> t in r.renamed)
  {
  }

  lemma {:induction false} StageEffect(f: Faults, disk: Disk, targets: seq<Target>, t: Target)
    requires Unique(targets)
    ensures var s := StageAll(f, disk, targets);
            Moved(disk, s, t)
            && (s.ok && t in targets && Live(t) in disk ==> t in s.renamed)
            && (t !in targets ==> Get(s.disk, Staged(t)) == Get(disk, Staged(t)))
  {
    if targets != [] {
      var front, last := targets[..|targets| - 1], targets[|targets| - 1];
      StageEffect(f, disk, front, t);
      StageRenames(f, disk, front);
      if t == last {
        StageSame(f, StageAll(f, disk, front), t);
      } else {
        StageOther(f, StageAll(f, disk, front), last, t);
      }
    }
  }

  lemma {:induction false} StageKeepsSidecars(f: Faults, disk: Disk, targets: seq<Target>)
    ensures var s := StageAll(f, disk, targets);
            Get(s.disk, Wal) == Get(disk, Wal) && Get(s.disk, Shm) == Get(disk, Shm)
  {
    if targets != [] {
      StageKeepsSidecars(f, disk, targets[..|targets| - 1]);
    }
  }

  lemma TargetsUnique()
    ensures Unique(TARGETS) && forall t: Target :: t in TARGETS
  {
    forall t: Target ensures t in TARGETS {
      match t
      case Database => assert TARGETS[0] == t;
      case Keystore => assert TARGETS[1] == t;
      case Objects => assert TARGETS[2] == t;
    }
  }

  // ----- what installing does -----------------------------------------------

  lemma {:induction false} InstallEffect(
    f: Faults, backup: Target -> Node, disk: Disk, targets: seq<Target>, t: Target)
    requires Unique(targets)
    ensures var s := InstallAll(f, backup, disk, targets);
            (forall u: Target :: Get(s.disk, Staged(u)) == Get(disk, Staged(u)))
            && Get(s.disk, Wal) == Get(disk, Wal) && Get(s.disk, Shm) == Get(disk, Shm)
            && (s.ok && t in targets ==> Get(s.disk, Live(t)) == Some(backup(t)))
            && (t !in targets ==> Get(s.disk, Live(t)) == Get(disk, Live(t)))
  {
    if targets != [] {
      var front, last := targets[..|targets| - 1], targets[|targets| - 1];
      InstallEffect(f, backup, disk, front, t);
    }
  }

  // ----- what rolling back does ---------------------------------------------

  /** When its own operations succeed, rolling back puts every staged copy back and touches nothing else. */
  ghost predicate RollbackWorks(f: Faults) {
    forall t: Target {:trigger f.wipe(t)} {:trigger f.back(t)} :: f.wipe(t).Done? && f.back(t)
  }

  lemma {:induction false} RollbackEffect(f: Faults, disk: Disk, renamed: seq<Target>, t: Target)
    requires Unique(renamed) && RollbackWorks(f)
    requires forall u: Target :: u in renamed ==> Staged(u) in disk
    ensures var r := Rollback(f, disk, renamed);
            (if t in renamed then Get(r, Live(t)) == Get(disk, Staged(t)) && Staged(t) !in r
             else Get(r, Live(t)) == Get(disk, Live(t)) && Get(r, Staged(t)) == Get(disk, Staged(t)))
            && Get(r, Wal) == Get(disk, Wal) && Get(r, Shm) == Get(disk, Shm)
  {
    if renamed != [] {
      var front, last := renamed[..|renamed| - 1], renamed[|renamed| - 1];
      RollbackEffect(f, disk, front, t);
      RollbackEffect(f, disk, front, last);
      assert last in renamed && last !in front;
    }
  }

  /** Whatever fails, a staged original is afterwards at its live or still at its staged name. */
  lemma {:induction false} RollbackKeeps(f: Faults, disk: Disk, renamed: seq<Target>, t: Target)
    requires Unique(renamed) && Staged(t) in disk
    ensures var r := Rollback(f, disk, renamed);
            Get(r, Staged(t)) == Get(disk, Staged(t))
            || (t in renamed && Get(r, Live(t)) == Get(disk, Staged(t)))
    decreases |renamed|
  {
    if renamed != [] {
      RollbackKeeps(f, disk, renamed[..|renamed| - 1], t);
    }
  }

  // ----- the promises -------------------------------------------------------

  /** On success every target holds the backup, and every original is under its staged name. */
  lemma SuccessInstalls(f: Faults, backup: Target -> Node, disk: Disk, t: Target)
    requires SwapIn(f, backup, disk).1 == Restored
    ensures var after := SwapIn(f, backup, disk).0;
            Get(after, Live(t)) == Some(backup(t))
            && Get(after, Staged(t)) == (if Live(t) in disk then Get(disk, Live(t)) else Get(disk, Staged(t)))
  {
    TargetsUnique();
    StageEffect(f, disk, TARGETS, t);
    InstallEffect(f, backup, RemoveSidecars(f, StageAll(f, disk, TARGETS).disk), TARGETS, t);
  }

  /** The renamed originals are still staged when the install is over. */
  lemma StagedStay(f: Faults, backup: Target -> Node, disk: Disk)
    ensures var staging := StageAll(f, disk, TARGETS);
            var installing := InstallAll(f, backup, RemoveSidecars(f, staging.disk), TARGETS);
            Unique(staging.renamed) && forall u: Target :: u in staging.renamed ==> Staged(u) in installing.disk
  {
    TargetsUnique();
    StageRenames(f, disk, TARGETS);
    var staging := StageAll(f, disk, TARGETS);
    forall u: Target | u in staging.renamed
      ensures Staged(u) in InstallAll(f, backup, RemoveSidecars(f, staging.disk), TARGETS).disk
    {
      StageEffect(f, disk, TARGETS, u);
      InstallEffect(f, backup, RemoveSidecars(f, staging.disk), TARGETS, u);
    }
  }

  /** After a failed install or check, a rollback that works restores every target that existed. */
  lemma FailureRestores(f: Faults, backup: Target -> Node, disk: Disk, t: Target)
    requires SwapIn(f, backup, disk).1 == RolledBack && RollbackWorks(f)
    ensures var after := SwapIn(f, backup, disk).0;
            if Live(t) in disk then Get(after, Live(t)) == Get(disk, Live(t)) && Staged(t) !in after
            else Get(after, Live(t)) == Leftover(f, backup, t) && Get(after, Staged(t)) == Get(disk, Staged(t))
  {
    TargetsUnique();
    var staging := StageAll(f, disk, TARGETS);
    var bare := RemoveSidecars(f, staging.disk);
    var installing := InstallAll(f, backup, bare, TARGETS);
    StagedStay(f, backup, disk);
    StageEffect(f, disk, TARGETS, t);
    InstallEffect(f, backup, bare, TARGETS, t);
    RollbackEffect(f, installing.disk, staging.renamed, t);
    if Live(t) !in disk {
      assert Live(t) !in bare;
      InstallLeaves(f, backup, bare, t);
    }
  }

  /** Whether installing gets as far as `t`. */
  predicate Reached(f: Faults, t: Target) {
    match t
    case Database => true
    case Keystore => f.install(Database).Done?
    case Objects => f.install(Database).Done? && f.install(Keystore).Done?
  }

  /** What installing leaves where nothing was. */
  function Leftover(f: Faults, backup: Target -> Node, t: Target): Option<Node> {
    if Reached(f, t) then After(f.install(t), Some(backup(t))) else None
  }

  lemma InstallUnrolled(f: Faults, backup: Target -> Node, disk: Disk)
    ensures var s1 := InstallOne(f, backup, Installing(disk, true), Database);
            InstallAll(f, backup, disk, TARGETS) == InstallOne(f, backup, InstallOne(f, backup, s1, Keystore), Objects)
  {
    assert [Database][..0] == [] && [Database, Keystore][..1] == [Database] && TARGETS[..2] == [Database, Keystore];
    assert InstallAll(f, backup, disk, []) == Installing(disk, true);
    assert InstallAll(f, backup, disk, [Database]) == InstallOne(f, backup, Installing(disk, true), Database);
  }

  lemma InstallLeaves(f: Faults, backup: Target -> Node, disk: Disk, t: Target)
    requires Live(t) !in disk
    ensures Get(InstallAll(f, backup, disk, TARGETS).disk, Live(t)) == Leftover(f, backup, t)
  {
    InstallUnrolled(f, backup, disk);
  }

  /** With these faults a rollback that worked left the live targets as they were, if it came to a rollback. */
  ghost predicate RollbackComplete(f: Faults, backup: Target -> Node, disk: Disk) {
    SwapIn(f, backup, disk).1 == RolledBack && RollbackWorks(f) ==> LiveKept(disk, SwapIn(f, backup, disk).0)
  }

  ghost predicate LiveKept(before: Disk, after: Disk) {
    forall t: Target :: Get(after, Live(t)) == Get(before, Live(t))
  }

  /** All three targets are as before exactly when installing failed cleanly, or was not tried, at each missing one. */
  lemma FailureRestoresAll(f: Faults, backup: Target -> Node, disk: Disk)
    requires SwapIn(f, backup, disk).1 == RolledBack && RollbackWorks(f)
    ensures LiveKept(disk, SwapIn(f, backup, disk).0)
            <==> forall t: Target :: Live(t) !in disk && Reached(f, t) ==> f.install(t) == Failed(None)
  {
    var after := SwapIn(f, backup, disk).0;
    forall t: Target
      ensures Get(after, Live(t)) == Get(disk, Live(t))
              <==> (Live(t) !in disk && Reached(f, t) ==> f.install(t) == Failed(None))
    {
      FailureRestores(f, backup, disk, t);
    }
  }

  /** Everything works but the check. */
  function CheckFails(): Faults {
    Faults(t => Done, t => true, p => true, t => Done, false, t => Done, t => true)
  }

  /** An instance: a target that did not exist keeps the backup's content although the swap was rolled back. */
  lemma RollbackLeavesInstalled(backup: Target -> Node, disk: Disk, t: Target)
    requires Live(t) !in disk
    ensures var (after, result) := SwapIn(CheckFails(), backup, disk);
            result == RolledBack && RollbackWorks(CheckFails()) && Get(after, Live(t)) == Some(backup(t))
  {
    StagingStops(CheckFails(), disk);
    FailureRestores(CheckFails(), backup, disk, t);
  }

  /** A working rollback restores all three targets whatever fails exactly when all three existed. */
  lemma RollbackSafeExactly(backup: Target -> Node, disk: Disk)
    ensures (forall f: Faults :: RollbackComplete(f, backup, disk)) <==> forall t: Target :: Live(t) in disk
  {
    if forall t: Target :: Live(t) in disk {
      forall f: Faults ensures RollbackComplete(f, backup, disk) {
        if SwapIn(f, backup, disk).1 == RolledBack && RollbackWorks(f) {
          FailureRestoresAll(f, backup, disk);
        }
      }
    } else {
      var t: Target :| Live(t) !in disk;
      RollbackLeavesInstalled(backup, disk, t);
      assert !RollbackComplete(CheckFails(), backup, disk);
    }
  }

  /** Sidecars that were removed do not come back. */
  lemma SidecarsGone(f: Faults, backup: Target -> Node, disk: Disk)
    requires SwapIn(f, backup, disk).1 == RolledBack && RollbackWorks(f)
    ensures var after := SwapIn(f, backup, disk).0;
            Get(after, Wal) == (if f.sidecar(Wal) then None else Get(disk, Wal))
            && Get(after, Shm) == (if f.sidecar(Shm) then None else Get(disk, Shm))
  {
    TargetsUnique();
    var staging := StageAll(f, disk, TARGETS);
    var bare := RemoveSidecars(f, staging.disk);
    var installing := InstallAll(f, backup, bare, TARGETS);
    StagedStay(f, backup, disk);
    StageKeepsSidecars(f, disk, TARGETS);
    InstallEffect(f, backup, bare, TARGETS, Database);
    RollbackEffect(f, installing.disk, staging.renamed, Database);
  }

  // ----- failures while staging ---------------------------------------------

  /** The target exists and cannot be renamed away. */
  predicate Stuck(f: Faults, disk: Disk, t: Target) {
    Live(t) in disk && ((Staged(t) in disk && f.clear(t).Failed?) || !f.stage(t))
  }

  /** The first target that exists. */
  function Leader(disk: Disk): Option<Target> {
    if Live(Database) in disk then Some(Database)
    else if Live(Keystore) in disk then Some(Keystore)
    else if Live(Objects) in disk then Some(Objects)
    else None
  }

  lemma StageUnrolled(f: Faults, disk: Disk)
    ensures StageAll(f, disk, TARGETS)
            == StageOne(f, StageOne(f, StageOne(f, Staging(disk, [], true), Database), Keystore), Objects)
  {
    assert [Database][..0] == [] && [Database, Keystore][..1] == [Database] && TARGETS[..2] == [Database, Keystore];
    assert StageAll(f, disk, []) == Staging(disk, [], true);
    assert StageAll(f, disk, [Database]) == StageOne(f, Staging(disk, [], true), Database);
  }

  /** What one step does to the list of renamed targets and to the outcome. */
  lemma StageVerdict(f: Faults, s: Staging, t: Target)
    ensures var r := StageOne(f, s, t);
            (r.ok <==> s.ok && !Stuck(f, s.disk, t))
            && r.renamed == if s.ok && Live(t) in s.disk && !Stuck(f, s.disk, t) then s.renamed + [t] else s.renamed
  {
  }

  /** Staging fails exactly when some target is stuck, with nothing renamed exactly when the first one is. */
  lemma StagingStops(f: Faults, disk: Disk)
    ensures var s := StageAll(f, disk, TARGETS);
            (s.ok <==> forall t: Target :: !Stuck(f, disk, t))
            && (!s.ok ==> Leader(disk).Some? && (s.renamed == [] <==> Stuck(f, disk, Leader(disk).value)))
  {
    var s0 := Staging(disk, [], true);
    var s1 := StageOne(f, s0, Database);
    var s2 := StageOne(f, s1, Keystore);
    StageUnrolled(f, disk);
    StageVerdict(f, s0, Database);
    StageVerdict(f, s1, Keystore);
    StageVerdict(f, s2, Objects);
    StageOther(f, s0, Database, Keystore);
    StageOther(f, s0, Database, Objects);
    StageOther(f, s1, Keystore, Objects);
    assert Stuck(f, s1.disk, Keystore) <==> Stuck(f, disk, Keystore);
    assert Stuck(f, s2.disk, Objects) <==> Stuck(f, disk, Objects);
    forall t: Target | Stuck(f, disk, t)
      ensures Stuck(f, disk, Database) || Stuck(f, disk, Keystore) || Stuck(f, disk, Objects)
    {
      match t
      case Database =>
      case Keystore =>
      case Objects =>
    }
  }

  /** A failure while staging leaves the live targets as before exactly when the first one that exists is stuck. */
  lemma StagingFailure(f: Faults, backup: Target -> Node, disk: Disk)
    requires SwapIn(f, backup, disk).1 == NotStaged
    ensures Leader(disk).Some?
    ensures LiveKept(disk, SwapIn(f, backup, disk).0) <==> Stuck(f, disk, Leader(disk).value)
  {
    TargetsUnique();
    StagingStops(f, disk);
    var s := StageAll(f, disk, TARGETS);
    forall t: Target ensures Moved(disk, s, t) {
      StageEffect(f, disk, TARGETS, t);
    }
    if s.renamed != [] {
      assert Moved(disk, s, s.renamed[0]);
    } else {
      forall t: Target ensures Get(s.disk, Live(t)) == Get(disk, Live(t)) {
        assert Moved(disk, s, t);
      }
    }
  }

  ghost predicate StagingComplete(f: Faults, backup: Target -> Node, disk: Disk) {
    SwapIn(f, backup, disk).1 == NotStaged ==> LiveKept(disk, SwapIn(f, backup, disk).0)
  }

  ghost predicate AtMostOneLive(disk: Disk) {
    forall t: Target, u: Target :: Live(t) in disk && Live(u) in disk ==> t == u
  }

  /** Only `first` can be renamed. */
  function OnlyRenames(first: Target): Faults {
    Faults(t => Done, t => t == first, p => true, t => Done, true, t => Done, t => true)
  }

  /** An instance: with two targets the second cannot be renamed after the first was, and the first stays away. */
  lemma StagingCanStrand(backup: Target -> Node, disk: Disk, t: Target)
    requires Leader(disk).Some? && t != Leader(disk).value && Live(t) in disk
    ensures var first := Leader(disk).value;
            var (after, result) := SwapIn(OnlyRenames(first), backup, disk);
            result == NotStaged && Live(first) in disk && Live(first) !in after
            && Get(after, Staged(first)) == Get(disk, Live(first))
  {
    var first := Leader(disk).value;
    var f := OnlyRenames(first);
    TargetsUnique();
    assert Stuck(f, disk, t);
    StagingStops(f, disk);
    StageRenames(f, disk, TARGETS);
    StageEffect(f, disk, TARGETS, first);
    var s := StageAll(f, disk, TARGETS);
    StageEffect(f, disk, TARGETS, s.renamed[0]);
    OnlyFirstRenamed(disk, first);
  }

  lemma OnlyFirstRenamed(disk: Disk, first: Target)
    ensures forall u: Target :: u in StageAll(OnlyRenames(first), disk, TARGETS).renamed ==> u == first
  {
    var f := OnlyRenames(first);
    var s0 := Staging(disk, [], true);
    var s1 := StageOne(f, s0, Database);
    var s2 := StageOne(f, s1, Keystore);
    StageUnrolled(f, disk);
    StageVerdict(f, s0, Database);
    StageVerdict(f, s1, Keystore);
    StageVerdict(f, s2, Objects);
  }

  /** A failure while staging leaves the live targets as before, whatever fails, exactly when at most one exists. */
  lemma StagingSafeExactly(backup: Target -> Node, disk: Disk)
    ensures (forall f: Faults :: StagingComplete(f, backup, disk)) <==> AtMostOneLive(disk)
  {
    if AtMostOneLive(disk) {
      forall f: Faults ensures StagingComplete(f, backup, disk) {
        if SwapIn(f, backup, disk).1 == NotStaged {
          StagingStops(f, disk);
          StagingFailure(f, backup, disk);
        }
      }
    } else {
      var t: Target, u: Target :| Live(t) in disk && Live(u) in disk && t != u;
      var first := Leader(disk).value;
      var other := if t != first then t else u;
      StagingCanStrand(backup, disk, other);
      assert !LiveKept(disk, SwapIn(OnlyRenames(first), backup, disk).0);
      assert !StagingComplete(OnlyRenames(first), backup, disk);
    }
  }

  // ----- originals over one swap and the next -------------------------------

  /** `node` is at the target's live or at its staged name. */
  predicate Kept(disk: Disk, t: Target, node: Node) {
    Get(disk, Live(t)) == Some(node) || Get(disk, Staged(t)) == Some(node)
  }

  /** Whatever fails and wherever, no original is lost: it is at its live or at its staged name. */
  lemma OriginalNeverLost(f: Faults, backup: Target -> Node, disk: Disk, t: Target)
    requires Live(t) in disk
    ensures Kept(SwapIn(f, backup, disk).0, t, disk[Live(t)])
  {
    TargetsUnique();
    StageEffect(f, disk, TARGETS, t);
    StageRenames(f, disk, TARGETS);
    var staging := StageAll(f, disk, TARGETS);
    if staging.ok {
      var bare := RemoveSidecars(f, staging.disk);
      InstallEffect(f, backup, bare, TARGETS, t);
      RollbackKeeps(f, InstallAll(f, backup, bare, TARGETS).disk, staging.renamed, t);
    }
  }

  /** Nor is a staged copy of a target that does not exist. */
  lemma StagedCopyKept(f: Faults, backup: Target -> Node, disk: Disk, t: Target)
    requires Live(t) !in disk
    ensures Get(SwapIn(f, backup, disk).0, Staged(t)) == Get(disk, Staged(t))
  {
    TargetsUnique();
    StageAbsent(f, disk, TARGETS, t);
    StageRenames(f, disk, TARGETS);
    var staging := StageAll(f, disk, TARGETS);
    if staging.ok {
      var bare := RemoveSidecars(f, staging.disk);
      InstallEffect(f, backup, bare, TARGETS, t);
      RollbackOthers(f, InstallAll(f, backup, bare, TARGETS).disk, staging.renamed, t);
    }
  }

  lemma {:induction false} StageAbsent(f: Faults, disk: Disk, targets: seq<Target>, t: Target)
    requires Live(t) !in disk
    ensures var s := StageAll(f, disk, targets);
            Live(t) !in s.disk && t !in s.renamed && Get(s.disk, Staged(t)) == Get(disk, Staged(t))
  {
    if targets != [] {
      StageAbsent(f, disk, targets[..|targets| - 1], t);
    }
  }

  lemma {:induction false} RollbackOthers(f: Faults, disk: Disk, renamed: seq<Target>, t: Target)
    requires t !in renamed
    ensures Get(Rollback(f, disk, renamed), Staged(t)) == Get(disk, Staged(t))
  {
    if renamed != [] {
      RollbackOthers(f, disk, renamed[..|renamed| - 1], t);
    }
  }

  /** Nothing can be installed, and everything is rolled back. */
  function InstallFails(): Faults {
    Faults(t => Done, t => true, p => true, t => Failed(None), true, t => Done, t => true)
  }

  /** A copy survives every swap exactly when it is live, or staged beside no live one. */
  lemma CopySurvivesExactly(backup: Target -> Node, disk: Disk, t: Target, node: Node)
    ensures (forall f: Faults :: Kept(SwapIn(f, backup, disk).0, t, node))
            <==> Get(disk, Live(t)) == Some(node) || (Get(disk, Staged(t)) == Some(node) && Live(t) !in disk)
  {
    if Get(disk, Live(t)) == Some(node) {
      forall f: Faults ensures Kept(SwapIn(f, backup, disk).0, t, node) {
        OriginalNeverLost(f, backup, disk, t);
      }
    } else if Get(disk, Staged(t)) == Some(node) && Live(t) !in disk {
      forall f: Faults ensures Kept(SwapIn(f, backup, disk).0, t, node) {
        StagedCopyKept(f, backup, disk, t);
      }
    } else {
      StagingStops(InstallFails(), disk);
      var bare := RemoveSidecars(InstallFails(), StageAll(InstallFails(), disk, TARGETS).disk);
      InstallUnrolled(InstallFails(), backup, bare);
      FailureRestores(InstallFails(), backup, disk, t);
      assert !Kept(SwapIn(InstallFails(), backup, disk).0, t, node);
    }
  }

  /**
   Two swaps. Between them only the live names change, as when a daemon starts on what the first one left.
   The original survives every second swap exactly when it is live again, or staged with nothing live.
   */
  lemma OriginalSurvivesTwoSwaps(
    f: Faults, backup: Target -> Node, disk: Disk, t: Target, between: Disk, next: Target -> Node)
    requires Live(t) in disk && Get(between, Staged(t)) == Get(SwapIn(f, backup, disk).0, Staged(t))
    ensures (forall g: Faults :: Kept(SwapIn(g, next, between).0, t, disk[Live(t)]))
            <==> Get(between, Live(t)) == Get(disk, Live(t))
                 || (Live(t) !in between && Get(SwapIn(f, backup, disk).0, Staged(t)) == Get(disk, Live(t)))
  {
    CopySurvivesExactly(next, between, t, disk[Live(t)]);
  }

  // ----- the disk changed in place ------------------------------------------

  class RestoreDisk {
    var files: Disk

    constructor (disk: Disk)
      ensures files == disk
    {
      files := disk;
    }

    method Stage(f: Faults) returns (renamed: seq<Target>, ok: bool)
      modifies this
      ensures Staging(files, renamed, ok) == StageAll(f, old(files), TARGETS)
    {
      renamed, ok := [], true;
      var i := 0;
      while i < |TARGETS| && ok
        invariant i <= |TARGETS|
        invariant Staging(files, renamed, ok) == StageAll(f, old(files), TARGETS[..i])
      {
        var t := TARGETS[i];
        ghost var s := Staging(files, renamed, ok);
        assert TARGETS[..i + 1][..i] == TARGETS[..i];
        if Live(t) in files {
          if Staged(t) in files && f.clear(t).Failed? {
            files := Put(files, Staged(t), f.clear(t).left);
            ok := false;
          } else {
            files := files - {Staged(t)};
            if f.stage(t) {
              files := (files - {Live(t)})[Staged(t) := files[Live(t)]];
              renamed := renamed + [t];
            } else {
              ok := false;
            }
          }
        }
        assert Staging(files, renamed, ok) == StageOne(f, s, t);
        i := i + 1;
      }
      if ok {
        assert TARGETS[..i] == TARGETS;
      } else {
        StageStops(f, old(files), TARGETS, i);
      }
    }

    method Install(f: Faults, backup: Target -> Node) returns (ok: bool)
      modifies this
      ensures Installing(files, ok) == InstallAll(f, backup, old(files), TARGETS)
    {
      ok := true;
      var i := 0;
      while i < |TARGETS| && ok
        invariant i <= |TARGETS|
        invariant Installing(files, ok) == InstallAll(f, backup, old(files), TARGETS[..i])
      {
        var t := TARGETS[i];
        assert TARGETS[..i + 1][..i] == TARGETS[..i];
        files := Put(files, Live(t), After(f.install(t), Some(backup(t))));
        ok := f.install(t).Done?;
        i := i + 1;
      }
      if ok {
        assert TARGETS[..i] == TARGETS;
      } else {
        InstallStops(f, backup, old(files), TARGETS, i);
      }
    }

    method RollBack(f: Faults, renamed: seq<Target>)
      modifies this
      ensures files == Rollback(f, old(files), renamed)
    {
      var i := 0;
      while i < |renamed|
        invariant i <= |renamed| && files == Rollback(f, old(files), renamed[..i])
      {
        var t := renamed[i];
        assert renamed[..i + 1][..i] == renamed[..i];
        if Live(t) in files {
          files := Put(files, Live(t), After(f.wipe(t), None));
        }
        if f.back(t) && Staged(t) in files {
          files := (files - {Staged(t)})[Live(t) := files[Staged(t)]];
        }
        i := i + 1;
      }
      assert renamed[..i] == renamed;
    }

    method Swap(f: Faults, backup: Target -> Node) returns (result: Result)
      modifies this
      ensures (files, result) == SwapIn(f, backup, old(files))
    {
      var renamed, staged := Stage(f);
      if !staged {
        return NotStaged;
      }
      files := RemoveSidecars(f, files);
      var installed := Install(f, backup);
      if installed && f.check {
        return Restored;
      }
      RollBack(f, renamed);
      return RolledBack;
    }
  }

  /** Once staging has failed, the later targets are left alone. */
  lemma {:induction false} StageStops(f: Faults, disk: Disk, targets: seq<Target>, i: nat)
    requires i <= |targets| && !StageAll(f, disk, targets[..i]).ok
    ensures StageAll(f, disk, targets) == StageAll(f, disk, targets[..i])
    decreases |targets|
  {
    if i < |targets| {
      var front := targets[..|targets| - 1];
      assert front[..i] == targets[..i];
      StageStops(f, disk, front, i);
    } else {
      assert targets[..i] == targets;
    }
  }

  lemma {:induction false} InstallStops(
    f: Faults, backup: Target -> Node, disk: Disk, targets: seq<Target>, i: nat)
    requires i <= |targets| && !InstallAll(f, backup, disk, targets[..i]).ok
    ensures InstallAll(f, backup, disk, targets) == InstallAll(f, backup, disk, targets[..i])
    decreases |targets|
  {
    if i < |targets| {
      var front := targets[..|targets| - 1];
      assert front[..i] == targets[..i];
      InstallStops(f, backup, disk, front, i);
    } else {
      assert targets[..i] == targets;
    }
  }
}

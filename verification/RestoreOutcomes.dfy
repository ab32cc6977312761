/** The whole swap, place by place: what is where afterwards, whatever fails. */
module RestoreOutcomes {
  import opened Bytes
  import opened StagedRestore

  /** What is at the live and at the staged name of a target. */
  datatype Pair = Pair(live: Option<Node>, staged: Option<Node>)

  function PairOf(disk: Disk, t: Target): Pair {
    Pair(Get(disk, Live(t)), Get(disk, Staged(t)))
  }

  predicate Earlier(u: Target, t: Target) {
    (u.Database? && !t.Database?) || (u.Keystore? && t.Objects?)
  }

  /** Staging comes to `t`: no earlier target is stuck. */
  predicate Tried(f: Faults, disk: Disk, t: Target) {
    forall u: Target :: Earlier(u, t) ==> !Stuck(f, disk, u)
  }

  predicate AnyStuck(f: Faults, disk: Disk) {
    exists u: Target :: Stuck(f, disk, u)
  }

  // ----- staging ------------------------------------------------------------

  /** One target: its stale copy makes room, or not, and the target is moved, or not. */
  function Renamed(f: Faults, p: Pair, t: Target): Pair {
    if p.live.None? then p
    else if p.staged.Some? && f.clear(t).Failed? then p.(staged := f.clear(t).left)
    else if f.stage(t) then Pair(None, p.live)
    else p.(staged := None)
  }

  function StagedPair(f: Faults, disk: Disk, t: Target): Pair {
    if Tried(f, disk, t) then Renamed(f, PairOf(disk, t), t) else PairOf(disk, t)
  }

  lemma StageOnePair(f: Faults, s: Staging, u: Target, t: Target)
    ensures PairOf(StageOne(f, s, u).disk, t)
            == if u == t && s.ok then Renamed(f, PairOf(s.disk, t), t) else PairOf(s.disk, t)
  {
    if u != t {
      StageOther(f, s, u, t);
    }
  }

  lemma StuckByPair(f: Faults, a: Disk, b: Disk, t: Target)
    requires PairOf(a, t) == PairOf(b, t)
    ensures Stuck(f, a, t) <==> Stuck(f, b, t)
  {
    assert Live(t) in a <==> Live(t) in b;
    assert Staged(t) in a <==> Staged(t) in b;
  }

  lemma TriedSpelled(f: Faults, disk: Disk)
    ensures Tried(f, disk, Database)
    ensures Tried(f, disk, Keystore) <==> !Stuck(f, disk, Database)
    ensures Tried(f, disk, Objects) <==> !Stuck(f, disk, Database) && !Stuck(f, disk, Keystore)
    ensures AnyStuck(f, disk) <==> Stuck(f, disk, Database) || Stuck(f, disk, Keystore) || Stuck(f, disk, Objects)
  {
    assert Earlier(Database, Keystore) && Earlier(Database, Objects) && Earlier(Keystore, Objects);
    forall u: Target | Stuck(f, disk, u)
      ensures Stuck(f, disk, Database) || Stuck(f, disk, Keystore) || Stuck(f, disk, Objects)
    {
      match u
      case Database =>
      case Keystore =>
      case Objects =>
    }
  }

  /** After staging every pair is as it should be, and staging failed exactly if something was stuck. */
  lemma StageExactly(f: Faults, disk: Disk, t: Target)
    ensures var s := StageAll(f, disk, TARGETS);
            PairOf(s.disk, t) == StagedPair(f, disk, t) && (s.ok <==> !AnyStuck(f, disk))
            && (s.ok ==> (t in s.renamed <==> Live(t) in disk))
  {
    var s0 := Staging(disk, [], true);
    var s1 := StageOne(f, s0, Database);
    var s2 := StageOne(f, s1, Keystore);
    StageUnrolled(f, disk);
    TriedSpelled(f, disk);
    StageVerdict(f, s0, Database);
    StageVerdict(f, s1, Keystore);
    StageVerdict(f, s2, Objects);
    StageOnePair(f, s0, Database, Keystore);
    StageOnePair(f, s0, Database, Objects);
    StageOnePair(f, s1, Keystore, Objects);
    StuckByPair(f, disk, s1.disk, Keystore);
    StuckByPair(f, disk, s2.disk, Objects);
    StageOnePair(f, s0, Database, t);
    StageOnePair(f, s1, Keystore, t);
    StageOnePair(f, s2, Objects, t);
    TargetsUnique();
    StageEffect(f, disk, TARGETS, t);
  }

  // ----- installing ---------------------------------------------------------

  predicate AllInstalled(f: Faults) {
    f.install(Database).Done? && f.install(Keystore).Done? && f.install(Objects).Done?
  }

  function InstalledPair(f: Faults, backup: Target -> Node, p: Pair, t: Target): Pair {
    if !Reached(f, t) then p
    else p.(live := if f.install(t).Done? then Some(backup(t)) else f.install(t).left)
  }

  lemma InstallOnePair(f: Faults, backup: Target -> Node, s: Installing, u: Target, t: Target)
    ensures var r := InstallOne(f, backup, s, u);
            (r.ok <==> s.ok && f.install(u).Done?)
            && PairOf(r.disk, t)
               == if u == t && s.ok
                  then PairOf(s.disk, t).(live := if f.install(t).Done? then Some(backup(t)) else f.install(t).left)
                  else PairOf(s.disk, t)
  {
  }

  lemma InstallExactly(f: Faults, backup: Target -> Node, disk: Disk, t: Target)
    ensures var s := InstallAll(f, backup, disk, TARGETS);
            PairOf(s.disk, t) == InstalledPair(f, backup, PairOf(disk, t), t) && (s.ok <==> AllInstalled(f))
  {
    var s0 := Installing(disk, true);
    var s1 := InstallOne(f, backup, s0, Database);
    var s2 := InstallOne(f, backup, s1, Keystore);
    InstallUnrolled(f, backup, disk);
    InstallOnePair(f, backup, s0, Database, t);
    InstallOnePair(f, backup, s1, Keystore, t);
    InstallOnePair(f, backup, s2, Objects, t);
  }

  // ----- rolling back -------------------------------------------------------

  /** What was put in is wiped, as far as that goes, and the staged copy moved back, if that succeeds. */
  function BackPair(f: Faults, p: Pair, t: Target): Pair {
    var wiped := if p.live.None? || f.wipe(t).Done? then None else f.wipe(t).left;
    if f.back(t) && p.staged.Some? then Pair(p.staged, None) else Pair(wiped, p.staged)
  }

  lemma RollbackOnePair(f: Faults, disk: Disk, u: Target, t: Target)
    ensures PairOf(RollbackOne(f, disk, u), t)
            == if u == t then BackPair(f, PairOf(disk, t), t) else PairOf(disk, t)
  {
  }

  lemma {:induction false} RollbackExactly(f: Faults, disk: Disk, renamed: seq<Target>, t: Target)
    requires Unique(renamed)
    ensures PairOf(Rollback(f, disk, renamed), t)
            == if t in renamed then BackPair(f, PairOf(disk, t), t) else PairOf(disk, t)
    decreases |renamed|
  {
    if renamed != [] {
      var front, last := renamed[..|renamed| - 1], renamed[|renamed| - 1];
      RollbackExactly(f, disk, front, t);
      RollbackOnePair(f, Rollback(f, disk, front), last, t);
      assert renamed == front + [last] && last !in front;
    }
  }

  // ----- the whole swap -----------------------------------------------------

  function Verdict(f: Faults, disk: Disk): Result {
    if AnyStuck(f, disk) then NotStaged else if AllInstalled(f) && f.check then Restored else RolledBack
  }

  /** What the swap leaves of a target; one that did not exist is not rolled back. */
  function Left(f: Faults, backup: Target -> Node, disk: Disk, t: Target): Pair {
    if AnyStuck(f, disk) then StagedPair(f, disk, t)
    else
      var installed := InstalledPair(f, backup, StagedPair(f, disk, t), t);
      if (AllInstalled(f) && f.check) || Live(t) !in disk then installed else BackPair(f, installed, t)
  }

  lemma SidecarPairs(f: Faults, disk: Disk, t: Target)
    ensures PairOf(RemoveSidecars(f, disk), t) == PairOf(disk, t)
  {
  }

  /** For all faults, any disk and every target: the outcome and what is at both of its names are exactly these. */
  lemma SwapExactly(f: Faults, backup: Target -> Node, disk: Disk, t: Target)
    ensures SwapIn(f, backup, disk).1 == Verdict(f, disk)
    ensures PairOf(SwapIn(f, backup, disk).0, t) == Left(f, backup, disk, t)
  {
    var staging := StageAll(f, disk, TARGETS);
    StageExactly(f, disk, t);
    if staging.ok {
      var bare := RemoveSidecars(f, staging.disk);
      SidecarPairs(f, staging.disk, t);
      InstallExactly(f, backup, bare, t);
      TargetsUnique();
      StageRenames(f, disk, TARGETS);
      RollbackExactly(f, InstallAll(f, backup, bare, TARGETS).disk, staging.renamed, t);
    }
  }
}

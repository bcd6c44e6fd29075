/**
  The operations on one owned verifier checkout.  Git's answers are arbitrary.
  `log` records every durable step, so a crash during any method leaves the disk
  of a prefix of `log`; each step is proved permitted from any starting disk.
 */
module VerifierWorktree {
  import opened Wrappers
  import opened WorktreeDisk
  import opened WorktreeSafety
  import opened WorktreeConvergence
  import opened WorktreeRecovery

  /** Directories that are neither administrations nor retained evidence are the same. */
  ghost predicate SameWork(x: map<Path, Node>, y: map<Path, Node>) {
    forall p: Path | !p.Admin? && !p.Kept? :: (p in x) == (p in y) && (p in x ==> x[p] == y[p])
  }

  /** The directory of a pending move is at exactly one place and still belongs to this checkout. */
  predicate Owned(fs: map<Path, Node>, m: Move) {
    ExactlyOne(fs, m) && fs[Place(fs, m)].gitdir == Some(Checkout)
  }

  predicate StaleFinishable(fs: map<Path, Node>, m: Move) {
    m.source.Admin? && m.target.Kept? && m.target.slot == StaleSlot && Owned(fs, m)
  }

  predicate RenameFinishable(fs: map<Path, Node>, m: Move) {
    && m.source.Admin? && m.target == CANONICAL && Owned(fs, m)
    && (PointsAt(fs, m.source) || PointsAt(fs, m.target))
  }

  predicate ArchiveFinishable(fs: map<Path, Node>, a: WorktreeDisk.Archive) {
    a.admin.Admin? && forall i | 0 <= i < |ArchiveMoves(a)| :: ExactlyOne(fs, ArchiveMoves(a)[i])
  }

  /** On a safe disk whatever is pending can be finished. */
  lemma SafeIsFinishable(d: Disk)
    ensures Safe(d) && d.journal.rename.Some? ==> RenameFinishable(d.fs, d.journal.rename.value)
    ensures Safe(d) && d.journal.stale.Some? ==> StaleFinishable(d.fs, d.journal.stale.value)
  {
  }

  /** The three steps of a stale retention that can be finished. */
  lemma StaleSteps(d: Disk, m: Move)
    requires d.journal.stale == Some(m) && StaleFinishable(d.fs, m)
    ensures m.source in d.fs ==>
      Allowed(MoveDir(m.source, m.target), d) && Apply(MoveDir(m.source, m.target), d).journal == d.journal
    ensures
      var save := SaveManifest(m.target.root);
      && Allowed(save, AfterMove(d, m)) && AfterMove(d, m).journal == d.journal
      && var e := Apply(save, AfterMove(d, m));
         && e.journal == d.journal && e.fs == AfterMove(d, m).fs
         && Allowed(EndStale, e) && Apply(EndStale, e) == e.(journal := e.journal.(stale := None))
         && e.fs.Keys == d.fs.Keys - {m.source} + {m.target} && SameWork(e.fs, d.fs)
         && (forall p | p in e.fs && p.Admin? :: p in d.fs && e.fs[p] == d.fs[p])
         && e.fs[m.target] == d.fs[Place(d.fs, m)]
  {
  }

  /** The three steps of a rename that can be finished. */
  lemma RenameSteps(d: Disk, m: Move)
    requires d.journal.rename == Some(m) && RenameFinishable(d.fs, m)
    ensures m.source in d.fs ==>
      Allowed(MoveDir(m.source, m.target), d) && Apply(MoveDir(m.source, m.target), d).journal == d.journal
    ensures
      var point := Point(Checkout, m.target);
      && Allowed(point, AfterMove(d, m)) && AfterMove(d, m).journal == d.journal
      && var e := Apply(point, AfterMove(d, m));
         && e.journal == d.journal && Registered(e.fs, CANONICAL) && PointsAt(e.fs, CANONICAL)
         && Checkout in d.fs && e.fs[Checkout].id == d.fs[Checkout].id
         && e.fs[CANONICAL].id == d.fs[Place(d.fs, m)].id
         && Allowed(EndRename, e) && Apply(EndRename, e) == e.(journal := e.journal.(rename := None))
  {
  }

  /** The two steps of an allocation. */
  lemma AllocationSteps(d: Disk, l: nat, admin: Path)
    requires Idle(d.journal) && d.journal.lease.None? && Registered(d.fs, admin) && PointsAt(d.fs, admin)
    requires Lease(l) !in d.fs
    ensures Allowed(BeginLease(l, admin), d)
    ensures
      var e := Apply(BeginLease(l, admin), d);
      && e == d.(journal := d.journal.(lease := Some(l), admin := Some(admin), phase := Some(Building)))
      && Allowed(MakeLease(l), e)
      && var made := Apply(MakeLease(l), e);
         && made.journal == e.journal && Lease(l) in made.fs
         && Registered(made.fs, admin) && PointsAt(made.fs, admin)
  {
  }

  /** A registration for this checkout that names another repository, or is locked. */
  predicate Misregistered(n: Node) {
    n.commondir.None? || n.commondir.value.Elsewhere? || n.locked
  }

  /** A superseded canonical registration beside the one in use. */
  predicate Superseded(fs: map<Path, Node>, managed: bool, recorded: Option<Path>) {
    && managed && recorded == Some(CANONICAL) && Registered(fs, CANONICAL)
    && Checkout in fs && fs[Checkout].git.Some? && fs[Checkout].git.value != CANONICAL
    && Registered(fs, fs[Checkout].git.value)
    && forall p | p in fs && Registered(fs, p) :: p == CANONICAL || p == fs[Checkout].git.value
  }

  /** No single administration can be told to be this checkout's. */
  predicate Unregistrable(fs: map<Path, Node>, managed: bool, recorded: Option<Path>) {
    || (exists p :: p in fs && Registered(fs, p) && Misregistered(fs[p]))
    || (&& (exists p, q :: p in fs && q in fs && Registered(fs, p) && Registered(fs, q) && p != q)
        && !Superseded(fs, managed, recorded))
  }

  /** The administration that recovery takes for this checkout's. */
  ghost predicate OwnerOf(fs: map<Path, Node>, managed: bool, recorded: Option<Path>, admin: Path) {
    SoleOwner(fs, admin) || (Superseded(fs, managed, recorded) && PointsAt(fs, admin))
  }

  /** The checkout points at the administration that is its own. */
  ghost predicate Located(fs: map<Path, Node>, managed: bool, recorded: Option<Path>) {
    && !Unregistrable(fs, managed, recorded)
    && exists a: Path :: OwnerOf(fs, managed, recorded, a) && PointsAt(fs, a)
  }

  /** And it has, or can be given, the canonical name. */
  ghost predicate Acceptable(fs: map<Path, Node>, managed: bool, recorded: Option<Path>) {
    && Located(fs, managed, recorded)
    && (managed && !PointsAt(fs, CANONICAL) ==> CANONICAL !in fs || Superseded(fs, managed, recorded))
  }

  /** A missing checkout can be added: its registration is unambiguous and the canonical name free, or its own. */
  ghost predicate Addable(fs: map<Path, Node>, managed: bool, recorded: Option<Path>) {
    !Unregistrable(fs, managed, recorded) && (managed ==> CANONICAL !in fs || Registered(fs, CANONICAL))
  }

  /** Recovery of the recorded lease is refused: no owner, or one that it does not match. */
  ghost predicate Unrecoverable(d: Disk, managed: bool, git: Git) {
    || Unregistrable(d.fs, managed, d.journal.admin)
    || forall a: Path | OwnerOf(d.fs, managed, d.journal.admin, a) :: !Recoverable(d, a, git)
  }

  /** The disk that recovery of a lease with this owner leaves. */
  ghost predicate Recovered(before: Disk, admin: Path, git: Git, after: Disk)
    requires Recoverable(before, admin, git)
  {
    if Drops(before.journal, git) then after == Dropped(before, admin)
    else
      Safe(before) ==>
        exists root: nat :: Archived(Attempted(before, git), root, admin, before.journal.lease, after)
  }

  /** The checkout is there and no lease is out. */
  predicate Undisturbed(d: Disk) {
    d.journal.lease.None? && Checkout in d.fs
  }

  ghost predicate Resumable(d: Disk) {
    Safe(d) || Idle(d.journal)
  }

  /** The disk once its pending intent, if any, is finished. */
  ghost function Resumed(d: Disk): Disk
    requires Resumable(d)
  {
    if Idle(d.journal) then d else Settled(d)
  }

  /** The later disk is the earlier one with this unit retained under `root`, and nothing else changed. */
  ghost predicate Archived(before: Disk, root: nat, admin: Path, lease: Option<nat>, after: Disk) {
    && Allowed(BeginArchive(root, admin, lease), before) && Safe(Apply(BeginArchive(root, admin, lease), before))
    && after == Settled(Apply(BeginArchive(root, admin, lease), before))
  }

  /** What recovery leaves is the goal that every interrupted recovery converges to. */
  lemma RecoveredIsGoal(before: Disk, admin: Path, git: Git, after: Disk)
    requires Safe(before) && Idle(before.journal) && Registered(before.fs, admin)
    requires Recoverable(before, admin, git) && Recovered(before, admin, git, after)
    ensures exists root: nat :: Resumes(before, admin, git, root) && after == Goal(before, admin, git, root)
  {
    hide Safe, Settled;
    if Drops(before.journal, git) {
      assert Resumes(before, admin, git, 0) && after == Goal(before, admin, git, 0);
    } else {
      var root: nat :| Archived(Attempted(before, git), root, admin, before.journal.lease, after);
      assert FreshRoot(before, root);
      assert Resumes(before, admin, git, root) && after == Goal(before, admin, git, root);
    }
  }

  /** The unit is retained under `root`, directory by directory, and its pointers name each other there. */
  ghost predicate Retained(
    before: map<Path, Node>, root: nat, admin: Path, lease: Option<nat>, after: map<Path, Node>)
  {
    var checkout, shared, private := Kept(root, CheckoutSlot), Kept(root, AdminSlot), Kept(root, LeaseSlot);
    && Checkout in before && checkout in after && after[checkout].id == before[Checkout].id
    && after[checkout].git == Some(if lease.Some? then private else shared)
    && admin in before && shared in after && after[shared].id == before[admin].id
    && after[shared].gitdir == Some(checkout) && after[shared].commondir == Some(Absolute)
    && (lease.Some? ==>
          && Lease(lease.value) in before && private in after
          && after[private].id == before[Lease(lease.value)].id && after[private].gitdir == Some(checkout)
          && after[private].origin == before[Lease(lease.value)].origin)
    && Checkout !in after && (forall l | lease == Some(l) :: Lease(l) !in after)
  }

  lemma ArchivedIsRetained(before: Disk, root: nat, admin: Path, lease: Option<nat>, after: Disk)
    requires Archived(before, root, admin, lease, after)
    ensures Retained(before.fs, root, admin, lease, after.fs) && after.made == before.made
  {
    var begun := Apply(BeginArchive(root, admin, lease), before);
    var a := begun.journal.archive.value;
    assert Kept(root, CheckoutSlot) in Targets(a) && Kept(root, AdminSlot) in Targets(a);
    assert lease.Some? ==> Kept(root, LeaseSlot) in Targets(a);
    assert Place(begun.fs, Move(Checkout, Kept(root, CheckoutSlot))) == Checkout;
  }

  /**
    The checkout has been replaced: the old one and its administration are retained together, and
    the one in its place is a directory that did not exist before.
   */
  ghost predicate Replaced(before: map<Path, Node>, after: map<Path, Node>) {
    && Checkout in before && before[Checkout].git.Some? && before[Checkout].git.value in before
    && Checkout in after && (forall p | p in before :: before[p].id != after[Checkout].id)
    && exists root: nat ::
      && Kept(root, CheckoutSlot) in after && after[Kept(root, CheckoutSlot)].id == before[Checkout].id
      && Kept(root, AdminSlot) in after
      && after[Kept(root, AdminSlot)].id == before[before[Checkout].git.value].id
  }

  lemma NotingIsAllowed(d: Disk, admin: Path)
    ensures Allowed(NoteAdmin(admin), d)
    ensures Apply(NoteAdmin(admin), d) == d.(journal := d.journal.(admin := Some(admin)))
  {
  }

  lemma ReplacementIsNew(d: Disk, located: Disk, admin: Path, archived: Disk, steps: seq<Step>, e: Disk)
    requires Safe(d) && Undisturbed(d) && d.fs[Checkout].git.Some? && d.fs[Checkout].git.value in d.fs
    requires d.made <= located.made && Checkout in located.fs && located.fs[Checkout].id == d.fs[Checkout].id
    requires admin in located.fs && located.fs[admin].id == d.fs[d.fs[Checkout].git.value].id
    requires exists root: nat ::
      Archived(located, root, admin, None, archived) && Retained(located.fs, root, admin, None, archived.fs)
    requires Legal(steps, archived) && Exec(steps, archived) == e && Checkout in e.fs
    ensures Replaced(d.fs, e.fs)
  {
    hide Legal, Exec, Archived;
    var root: nat :|
      Archived(located, root, admin, None, archived) && Retained(located.fs, root, admin, None, archived.fs);
    ArchivedIsRetained(located, root, admin, None, archived);
    KeptStays(steps, archived, Kept(root, CheckoutSlot));
    KeptStays(steps, archived, Kept(root, AdminSlot));
    CheckoutIsNew(steps, archived);
  }

  lemma StartIsSafe(d: Disk)
    requires Allowed(StartRestore, d)
    ensures Safe(d) ==> Safe(Apply(StartRestore, d))
  {
    if Safe(d) {
      StepKeepsSafe(StartRestore, d);
    }
  }

  /** The checkout points at its administration again, and this is journalled. */
  function LinkedBack(d: Disk, admin: Path): Disk
    requires Checkout in d.fs
  {
    d.(fs := d.fs[Checkout := d.fs[Checkout].(git := Some(admin))], journal := d.journal.(restore := Some(Linked)))
  }

  /** Once linked back, the lease is dropped unless Git objects, with the same result. */
  lemma LinkedAgain(d: Disk, e: Disk, admin: Path, git: Git, managed: bool)
    requires d.journal.lease.Some? && Checkout in d.fs && SoleOwner(d.fs, admin) && !Misregistered(d.fs[admin])
    requires !Unfinished(d.journal)
    requires e == LinkedBack(d, admin)
    ensures SoleOwner(e.fs, admin) && Unfinished(e.journal)
    ensures Unrecoverable(e, managed, git) <==> !git.quiet
    ensures Dropped(e, admin) == Dropped(d, admin)
  {
    assert forall a: Path :: Registered(e.fs, a) <==> Registered(d.fs, a);
    assert Dropped(e, admin).fs == Dropped(d, admin).fs;
    assert !Unregistrable(e.fs, managed, e.journal.admin);
    assert OwnerOf(e.fs, managed, e.journal.admin, admin);
    assert forall a: Path | OwnerOf(e.fs, managed, e.journal.admin, a) :: a == admin;
    assert Recoverable(e, admin, git) <==> git.quiet;
  }

  lemma IdleIsSettled(d: Disk)
    ensures Safe(d) && Idle(d.journal) ==> Settled(d) == d
  {
  }

  lemma {:induction false} Bound(used: set<nat>) returns (n: nat)
    ensures forall u | u in used :: u < n
  {
    n := 0;
    if used != {} {
      var x :| x in used;
      n := Bound(used - {x});
      assert forall u | u in used :: u == x || u in used - {x};
      n := if x < n then n else x + 1;
    }
  }

  /** A directory that was never used can be made. */
  lemma UnusedRoot(d: Disk)
    ensures exists root: nat :: FreshRoot(d, root)
  {
    var used := set p | p in d.fs && p.Kept? :: p.root;
    var n := Bound(used);
    assert forall p | p in d.fs && p.Kept? :: p.root in used;
    assert FreshRoot(d, n);
  }

  lemma UnusedAdmin(d: Disk)
    ensures exists name: nat :: Admin(name) !in d.fs
  {
    var used := set p | p in d.fs && p.Admin? :: p.name;
    var n := Bound(used);
    assert forall p | p in d.fs && p.Admin? :: p.name in used;
    assert Admin(n) !in d.fs;
  }

  lemma UnusedLease(d: Disk)
    ensures exists l: nat :: Lease(l) !in d.fs
  {
    var used := set p | p in d.fs && p.Lease? :: p.lease;
    var n := Bound(used);
    assert forall p | p in d.fs && p.Lease? :: p.lease in used;
    assert Lease(n) !in d.fs;
  }

  class Workspace {
    const managed: bool
    var disk: Disk
    var state: Journal          // the copy in memory, lost by a crash
    ghost const start: Disk
    ghost var log: seq<Step>

    ghost predicate Traced()
      reads this
    {
      Legal(log, start) && disk == Exec(log, start)
    }

    ghost predicate Valid()
      reads this
    {
      Traced() && state == disk.journal
    }

    constructor (managed: bool, disk: Disk)
      ensures Valid() && log == [] && start == disk && this.disk == disk && this.managed == managed
    {
      this.managed, this.disk, this.state, this.start, this.log := managed, disk, disk.journal, disk, [];
    }

    /** Whatever methods have run: the disk that a crash after any step leaves is safe and converges. */
    lemma EveryCrashRecovers(k: nat)
      requires Valid() && Safe(start) && k <= |log|
      ensures Legal(log[..k], start) && Safe(Exec(log[..k], start))
      ensures var left := Exec(log[..k], start); Legal(Script(left), left) && Exec(Script(left), left) == Settled(left)
    {
      hide Legal, Exec, Safe, Script, Settled;
      RunsAreSafe(log, start, k);
      ScriptSettles(Exec(log[..k], start));
    }

    /** The steps since an earlier moment lead from its disk to this one. */
    lemma StepsSince(base: seq<Step>, before: Disk) returns (steps: seq<Step>)
      requires Valid() && Legal(base, start) && Exec(base, start) == before && base <= log
      ensures Legal(steps, before) && Exec(steps, before) == disk
      ensures Safe(before) ==> Safe(disk)
      ensures before.made <= disk.made
    {
      hide Legal, Exec, Safe;
      steps := log[|base|..];
      assert log == base + steps;
      LegalRest(base, steps, start);
      MadeGrows(steps, before);
      if Safe(before) {
        RunsAreSafe(steps, before, |steps|);
        assert steps[..|steps|] == steps;
      }
    }

    /** One durable change to the file system. */
    method Do(s: Step)
      requires Valid() && Allowed(s, disk) && Apply(s, disk).journal == disk.journal
      modifies this`disk, this`log
      ensures Valid() && disk == Apply(s, old(disk)) && log == old(log) + [s]
    {
      LegalSnoc(log, s, start);
      disk := Apply(s, disk);
      log := log + [s];
    }

    /** Publish the journal in memory; the change must be the named one. */
    method Persist(ghost s: Step)
      requires Traced() && Allowed(s, disk) && Apply(s, disk) == disk.(journal := state)
      modifies this`disk, this`log
      ensures Valid() && disk == Apply(s, old(disk)) && log == old(log) + [s]
    {
      LegalSnoc(log, s, start);
      disk := disk.(journal := state);
      log := log + [s];
    }

    method FinishStale() returns (r: Outcome)
      requires Valid()
      modifies this`disk, this`state, this`log
      ensures Valid() && old(log) <= log
      ensures r.Done? ==> disk.journal == old(disk.journal).(stale := None) && SameWork(disk.fs, old(disk.fs))
      ensures r.Done? && old(state.stale.Some?) ==>
        disk.fs.Keys == old(disk.fs.Keys) - {old(state.stale.value.source)} + {old(state.stale.value.target)}
        && (forall p | p in disk.fs && p.Admin? :: p in old(disk.fs) && disk.fs[p] == old(disk.fs)[p])
        && Owned(old(disk.fs), old(state.stale.value))
        && disk.fs[old(state.stale.value).target] == old(disk.fs)[Place(old(disk.fs), old(state.stale.value))]
      ensures old(state.stale.None?) ==> r.Done? && log == old(log) && disk == old(disk) && state == old(state)
      ensures old(state.stale.Some?) ==> (r.Done? <==> StaleFinishable(old(disk.fs), old(state.stale.value)))
      ensures old(Safe(disk) && state.stale.Some?) ==>
        r.Done? && log == old(log) + StaleScript(old(disk), old(state.stale.value))
    {
      hide Legal, Exec, Allowed, Apply, Safe;
      SafeIsFinishable(disk);
      if state.stale.None? {
        return Done;
      }
      var m := state.stale.value;
      ghost var before := disk;
      if !m.source.Admin? || !m.target.Kept? || m.target.slot != StaleSlot {
        return Refused;
      }
      if m.source in disk.fs && m.target in disk.fs {
        return Refused;
      }
      var actual := if m.source in disk.fs then m.source else m.target;
      if actual !in disk.fs || disk.fs[actual].gitdir != Some(Checkout) {
        return Refused;
      }
      StaleSteps(disk, m);
      if m.source in disk.fs {
        Do(MoveDir(m.source, m.target));
      }
      assert disk == AfterMove(before, m);
      Do(SaveManifest(m.target.root));
      state := state.(stale := None);
      Persist(EndStale);
      assert MoveScript([m], before.fs) == if m.source in before.fs then [MoveDir(m.source, m.target)] else [] by {
        assert [m][..0] == [];
      }
      return Done;
    }

    method FinishRename() returns (r: Outcome)
      requires Valid()
      modifies this`disk, this`state, this`log
      ensures Valid() && old(log) <= log
      ensures r.Done? ==> disk.journal == old(disk.journal).(rename := None)
      ensures r.Done? && old(state.rename.Some?) ==>
        Registered(disk.fs, CANONICAL) && PointsAt(disk.fs, CANONICAL)
      ensures old(state.rename.None?) ==> r.Done? && log == old(log) && disk == old(disk) && state == old(state)
      ensures old(state.rename.Some?) ==> (r.Done? <==> RenameFinishable(old(disk.fs), old(state.rename.value)))
      ensures r.Done? && old(state.rename.Some?) ==>
        && Checkout in old(disk.fs) && Checkout in disk.fs && disk.fs[Checkout].id == old(disk.fs)[Checkout].id
        && Owned(old(disk.fs), old(state.rename.value)) && CANONICAL in disk.fs
        && disk.fs[CANONICAL].id == old(disk.fs)[Place(old(disk.fs), old(state.rename.value))].id
      ensures old(Safe(disk) && state.rename.Some?) ==>
        r.Done? && log == old(log) + RenameScript(old(disk), old(state.rename.value))
    {
      hide Legal, Exec, Allowed, Apply, Safe;
      SafeIsFinishable(disk);
      if state.rename.None? {
        return Done;
      }
      var m := state.rename.value;
      ghost var before := disk;
      if !m.source.Admin? || m.target != CANONICAL {
        return Refused;
      }
      if m.source in disk.fs && m.target in disk.fs {
        return Refused;
      }
      var owner := if m.source in disk.fs then m.source else m.target;
      if owner !in disk.fs || disk.fs[owner].gitdir != Some(Checkout) {
        return Refused;
      }
      if Checkout !in disk.fs || (disk.fs[Checkout].git != Some(m.source) && disk.fs[Checkout].git != Some(m.target)) {
        return Refused;
      }
      RenameSteps(disk, m);
      if m.source in disk.fs {
        Do(MoveDir(m.source, m.target));
      }
      assert disk == AfterMove(before, m);
      Do(Point(Checkout, m.target));
      state := state.(rename := None);
      Persist(EndRename);
      assert MoveScript([m], before.fs) == if m.source in before.fs then [MoveDir(m.source, m.target)] else [] by {
        assert [m][..0] == [];
      }
      return Done;
    }

    method FinishArchive() returns (r: Outcome)
      requires Valid()
      modifies this`disk, this`state, this`log
      ensures Valid() && old(log) <= log
      ensures r.Done? && old(state.archive.Some?) ==>
        disk.journal == old(disk.journal).(archive := None, lease := None, restore := None)
        && Checkout !in disk.fs
        && (old(state.archive.value).lease.Some? ==> Lease(old(state.archive.value).lease.value) !in disk.fs)
      ensures old(state.archive.None?) ==> r.Done? && log == old(log) && disk == old(disk) && state == old(state)
      ensures old(state.archive.Some?) ==> (r.Done? <==> ArchiveFinishable(old(disk.fs), old(state.archive.value)))
      ensures old(Safe(disk) && state.archive.Some?) ==>
        r.Done? && log == old(log) + ArchiveScript(old(disk), old(state.archive.value))
    {
      hide Legal, Exec;
      if state.archive.None? {
        return Done;
      }
      var a := state.archive.value;
      if !a.admin.Admin? {
        return Refused;
      }
      r := MoveUnit(a);
      if r.Refused? {
        return;
      }
      RewriteBacklinks(a);
      Label(a);
      state := state.(archive := None, lease := None, restore := None);
      Persist(EndArchive);
      assert log == old(log) + ArchiveScript(old(disk), a);
    }

    /** Move every directory of the unit that is still at its source. */
    method MoveUnit(a: Archive) returns (r: Outcome)
      requires Valid() && state.archive == Some(a) && a.admin.Admin?
      modifies this`disk, this`log
      ensures Valid() && old(log) <= log
      ensures r.Done? ==> AllMoved(disk.fs, a) && log == old(log) + MoveScript(ArchiveMoves(a), old(disk).fs)
      ensures r.Done? <==> ArchiveFinishable(old(disk.fs), a)
    {
      hide Legal, Exec, Allowed, Apply;
      var moves := ArchiveMoves(a);
      var i := 0;
      assert moves[..0] == [];
      while i < |moves|
        invariant 0 <= i <= |moves| && Valid()
        invariant MovedSoFar(a, old(disk).fs, disk.fs, i)
        invariant forall k | 0 <= k < i :: ExactlyOne(old(disk).fs, moves[k])
        invariant log == old(log) + MoveScript(moves[..i], old(disk).fs)
      {
        var m := moves[i];
        assert moves[..i + 1][..i] == moves[..i];
        if (m.source in disk.fs) == (m.target in disk.fs) {
          assert !ExactlyOne(old(disk).fs, m);
          return Refused;   // a collision, or neither source nor destination
        }
        NextMove(old(disk), disk, a, i);
        if m.source in disk.fs {
          Do(MoveDir(m.source, m.target));
        }
        i := i + 1;
      }
      assert moves[..|moves|] == moves;
      assert Moved(disk.fs, moves[0]) && Moved(disk.fs, moves[1]);
      assert a.lease.Some? ==> Moved(disk.fs, moves[2]);
      return Done;
    }

    /** Make the retained administration and lease name the retained checkout. */
    method RewriteBacklinks(a: Archive)
      requires Valid() && state.archive == Some(a) && AllMoved(disk.fs, a)
      modifies this`disk, this`log
      ensures Valid() && AllMoved(disk.fs, a) && log == old(log) + Rewrites(a)[..|Rewrites(a)| - 3]
    {
      hide Legal, Exec;
      var admin, kept := Kept(a.root, AdminSlot), Kept(a.root, CheckoutSlot);
      Do(SetBacklink(admin, kept));
      assert AllMoved(disk.fs, a);
      Do(SetCommon(admin));
      assert AllMoved(disk.fs, a);
      if a.lease.Some? {
        Do(SetBacklink(Kept(a.root, LeaseSlot), kept));
      }
    }

    /** Make the retained checkout name its administration, then describe the unit. */
    method Label(a: Archive)
      requires Valid() && state.archive == Some(a) && AllMoved(disk.fs, a)
      modifies this`disk, this`log
      ensures Valid() && AllMoved(disk.fs, a) && log == old(log) + Rewrites(a)[|Rewrites(a)| - 3..]
    {
      hide Legal, Exec;
      Do(Point(Kept(a.root, CheckoutSlot), KeptAdmin(a)));
      Do(SaveManifest(a.root));
      Do(WriteReadme(a.root));
    }

    /** Finish whatever intent an interrupted operation left pending. */
    method FinishPending() returns (r: Outcome)
      requires Valid()
      modifies this`disk, this`state, this`log
      ensures Valid() && old(log) <= log
      ensures r.Done? ==> Idle(disk.journal)
      ensures r.Done? && disk.journal.lease.Some? ==>
        disk.journal == old(disk.journal).(stale := None, rename := None)
      ensures old(Safe(disk)) ==> r.Done? && log == old(log) + Script(old(disk)) && disk == Settled(old(disk))
      ensures old(Idle(state)) ==> r.Done? && log == old(log) && disk == old(disk)
    {
      ghost var before := disk;
      r := FinishArchive();
      if r.Refused? {
        return;
      }
      if Safe(before) && before.journal.archive.Some? {
        ArchiveFinished(before, old(log));
      }
      r := FinishStale();
      if r.Refused? {
        return;
      }
      r := FinishRename();
      if Safe(before) {
        assert log == old(log) + Script(before);
        Replay(old(log), Script(before), before);
      }
    }

    lemma ArchiveFinished(before: Disk, base: seq<Step>)
      requires Valid() && Safe(before) && before.journal.archive.Some?
      requires Legal(base, start) && Exec(base, start) == before && log == base + Script(before)
      ensures Idle(disk.journal)
    {
      Replay(base, Script(before), before);
    }

    lemma Replay(base: seq<Step>, script: seq<Step>, before: Disk)
      requires Valid() && Safe(before) && Legal(base, start) && Exec(base, start) == before
      requires script == Script(before) && log == base + script
      ensures disk == Settled(before) && Idle(disk.journal)
    {
      ScriptSettles(before);
      LegalConcat(base, script, start);
    }

    /** Move a registration that is proven to be an old one into retention. */
    method RetainStale(admin: Path)
      requires Valid() && Idle(state) && Registered(disk.fs, admin) && !PointsAt(disk.fs, admin)
      modifies this`disk, this`state, this`log
      ensures Valid() && old(log) <= log
      ensures disk.journal == old(disk.journal) && SameWork(disk.fs, old(disk.fs))
      ensures forall a: Path | a.Admin? ::
        (a in disk.fs <==> a in old(disk.fs) && a != admin) && (a in disk.fs ==> disk.fs[a] == old(disk.fs)[a])
      ensures exists root: nat ::
        && Kept(root, StaleSlot) !in old(disk.fs) && Kept(root, StaleSlot) in disk.fs
        && disk.fs[Kept(root, StaleSlot)] == old(disk.fs)[admin]
    {
      hide Legal, Exec;
      UnusedRoot(disk);
      var root: nat :| FreshRoot(disk, root);
      state := state.(stale := Some(Move(admin, Kept(root, StaleSlot))));
      Persist(BeginStale(admin, root));
      var r := FinishStale();
    }

    /** Find the unique administration whose backlink names this checkout. */
    method Registration() returns (r: Outcome, admin: Option<Path>)
      requires Valid() && Idle(state)
      modifies this`disk, this`state, this`log
      ensures Valid() && old(log) <= log && disk.journal == old(disk.journal) && SameWork(disk.fs, old(disk.fs))
      ensures r.Refused? <==> Unregistrable(old(disk.fs), managed, old(state.admin))
      ensures r.Done? ==> forall a: Path :: Registered(disk.fs, a) <==> admin == Some(a)
      ensures r.Done? && admin.Some? ==> admin.value in disk.fs && !Misregistered(disk.fs[admin.value])
      ensures r.Done? ==> forall a: Path | a in old(disk.fs) && Registered(old(disk.fs), a) ::
        old(disk.fs)[a].commondir in {Some(Relative), Some(Absolute)} && !old(disk.fs)[a].locked
      ensures r.Refused? ==> forall a: Path | a in old(disk.fs) && SoleOwner(old(disk.fs), a) ::
        old(disk.fs)[a].commondir in {None, Some(Elsewhere)} || old(disk.fs)[a].locked
      ensures r.Done? ==> forall a: Path | Registered(disk.fs, a) ::
        Registered(old(disk.fs), a) && disk.fs[a] == old(disk.fs)[a]
      ensures r.Done? ==> forall a: Path | Registered(old(disk.fs), a) && PointsAt(old(disk.fs), a) :: admin == Some(a)
      ensures r.Done? ==>
        (CANONICAL in disk.fs <==> CANONICAL in old(disk.fs) && !Superseded(old(disk.fs), managed, old(state.admin)))
      ensures disk == old(disk) || Superseded(old(disk.fs), managed, old(state.admin))
      ensures r.Done? ==> forall a: Path :: OwnerOf(old(disk.fs), managed, old(state.admin), a) <==> admin == Some(a)
    {
      hide Legal, Exec;
      var matches := set p | p in disk.fs && Registered(disk.fs, p);
      assert forall p: Path :: Registered(disk.fs, p) <==> p in matches;
      if exists p :: p in matches && Misregistered(disk.fs[p]) {
        return Refused, None;
      }
      if matches == {} {
        return Done, None;
      }
      var one :| one in matches;
      if matches == {one} {
        return Done, Some(one);
      }
      var other :| other in matches && other != one;
      // Two registrations are resolvable only when the canonical one is the
      // administration this lifecycle last recorded and the checkout has left.
      if Checkout !in disk.fs || disk.fs[Checkout].git.None? {
        return Refused, None;
      }
      var current := disk.fs[Checkout].git.value;
      if !managed || current !in matches || current == CANONICAL || matches != {CANONICAL, current}
         || state.admin != Some(CANONICAL) {
        return Refused, None;
      }
      assert Superseded(disk.fs, managed, state.admin);
      RetainStale(CANONICAL);
      return Done, Some(current);
    }

    /** Give owned metadata its canonical name. */
    method Normalize(admin: Path) returns (r: Outcome, named: Path)
      requires Valid() && Idle(state) && Registered(disk.fs, admin) && PointsAt(disk.fs, admin)
      modifies this`disk, this`state, this`log
      ensures Valid() && old(log) <= log && disk.journal == old(disk.journal)
      ensures r.Refused? <==> managed && admin != CANONICAL && CANONICAL in old(disk.fs)
      ensures r.Refused? ==> disk == old(disk)
      ensures r.Done? ==> Registered(disk.fs, named) && PointsAt(disk.fs, named)
      ensures r.Done? ==> named == if managed then CANONICAL else admin
      ensures Checkout in disk.fs && disk.fs[Checkout].id == old(disk.fs)[Checkout].id
      ensures r.Done? ==> disk.fs[named].id == old(disk.fs)[admin].id
    {
      hide Legal, Exec;
      if !managed || admin == CANONICAL {
        return Done, admin;
      }
      if CANONICAL in disk.fs {
        return Refused, admin;
      }
      state := state.(rename := Some(Move(admin, CANONICAL)));
      Persist(BeginRename(admin));
      r := FinishRename();
      named := CANONICAL;
    }

    /** Record the retention of the whole unit, then carry it out. */
    method Archive(admin: Path, lease: Option<nat>)
      requires Valid() && Idle(state) && Registered(disk.fs, admin) && Checkout in disk.fs && lease == state.lease
      requires lease.Some? ==> Lease(lease.value) in disk.fs
      modifies this`disk, this`state, this`log
      ensures Valid() && old(log) <= log
      ensures Idle(disk.journal) && disk.journal.lease.None? && Checkout !in disk.fs
      ensures lease.Some? ==> Lease(lease.value) !in disk.fs
      ensures old(Safe(disk)) ==> exists root: nat ::
        Archived(old(disk), root, admin, lease, disk) && Retained(old(disk.fs), root, admin, lease, disk.fs)
    {
      hide Legal, Exec;
      UnusedRoot(disk);
      var root: nat :| FreshRoot(disk, root);
      state := state.(archive := Some(WorktreeDisk.Archive(root, admin, lease)));
      Persist(BeginArchive(root, admin, lease));
      ghost var begun, base := disk, log;
      var r := FinishArchive();
      if Safe(old(disk)) {
        StepKeepsSafe(BeginArchive(root, admin, lease), old(disk));
        Replay(base, Script(begun), begun);
        assert Archived(old(disk), root, admin, lease, disk);
        ArchivedIsRetained(old(disk), root, admin, lease, disk);
      }
    }

    /** Delete the journalled lease and forget it. */
    method DropLease(l: nat)
      requires Valid() && MayDelete(disk, l)
      modifies this`disk, this`state, this`log
      ensures Valid() && old(log) <= log
      ensures disk == old(disk).(
        fs := old(disk.fs) - {Lease(l)},
        journal := if old(state.phase) == Some(Building) then old(disk.journal).(lease := None, phase := None)
                   else old(disk.journal).(lease := None, restore := None))
    {
      hide Legal, Exec;
      if Lease(l) in disk.fs {
        Do(Erode(l));   // a recursive deletion can stop halfway
        Do(RemoveLease(l));
      }
      assert disk.fs == old(disk.fs) - {Lease(l)};
      state := if state.phase == Some(Building) then state.(lease := None, phase := None)
               else state.(lease := None, restore := None);
      Persist(EndLease);
    }

    /** Restore a recorded clean lease, or preserve a damaged one as a unit. */
    method Recover(git: Git) returns (r: Outcome)
      requires Valid()
      modifies this`disk, this`state, this`log
      ensures Valid() && old(log) <= log
      ensures r.Done? ==> Idle(disk.journal) && disk.journal.lease.None?
      ensures Resumable(old(disk)) && Resumed(old(disk)).journal.lease.None? ==> r.Done? && disk == Resumed(old(disk))
      ensures Resumable(old(disk)) && Resumed(old(disk)).journal.lease.Some? ==>
        var before := Resumed(old(disk));
        && (r.Refused? <==> Unrecoverable(before, managed, git))
        && (r.Done? ==> (Checkout in disk.fs <==> Drops(before.journal, git)))
        && (r.Done? ==> Lease(before.journal.lease.value) !in disk.fs)
        && (r.Done? ==> forall a: Path | SoleOwner(before.fs, a) ::
              Recoverable(before, a, git) && Recovered(before, a, git, disk))
    {
      hide Legal, Exec, Safe, Script, Settled, Unrecoverable, Recovered, SoleOwner, Recoverable, Drops;
      IdleIsSettled(disk);
      r := FinishPending();
      if r.Done? && state.lease.Some? {
        r := RecoverLease(git);
      }
    }

    method RecoverLease(git: Git) returns (r: Outcome)
      requires Valid() && Idle(state) && state.lease.Some?
      modifies this`disk, this`state, this`log
      ensures Valid() && old(log) <= log
      ensures r.Done? ==> Idle(disk.journal) && disk.journal.lease.None?
      ensures r.Refused? <==> Unrecoverable(old(disk), managed, git)
      ensures r.Done? ==> (Checkout in disk.fs <==> Drops(old(state), git)) && Lease(old(state.lease).value) !in disk.fs
      ensures r.Done? ==> forall a: Path | SoleOwner(old(disk.fs), a) ::
        Recoverable(old(disk), a, git) && Recovered(old(disk), a, git, disk)
      decreases if state.restore == Some(Linked) then 0 else 1
    {
      hide Legal, Exec, Safe, Script, Settled;
      ghost var before := disk;
      var l := state.lease.value;
      var found;
      r, found := Registration();
      if r.Refused? || found.None? {
        return Refused;
      }
      var admin := found.value;
      assert Recoverable(disk, admin, git) == Recoverable(before, admin, git);
      if Unfinished(state) {
        if !PointsAt(disk.fs, admin) || (state.phase != Some(Building) && !git.quiet) {
          return Refused;
        }
        DropLease(l);
        assert OwnerOf(before.fs, managed, before.journal.admin, admin) && Recoverable(before, admin, git);
        assert SoleOwner(before.fs, admin) ==> disk.fs == Dropped(before, admin).fs;
        return Done;
      }
      ghost var registered := disk;
      r := Restore(l, admin, git);
      if r.Done? && state.lease.Some? {
        LinkedAgain(registered, disk, admin, git, managed);
        r := RecoverLease(git);   // the same checked deletion as after a restart
      }
    }

    /** Point a clean checkout back at its shared administration; archive a damaged one. */
    method Restore(l: nat, admin: Path, git: Git) returns (r: Outcome)
      requires Valid() && Idle(state) && state.lease == Some(l) && Registered(disk.fs, admin) && !Unfinished(state)
      modifies this`disk, this`state, this`log
      ensures Valid() && old(log) <= log
      ensures r.Refused? <==>
        || Lease(l) !in old(disk.fs) || old(disk.fs)[Lease(l)].origin != Some(admin)
        || old(disk.fs)[Lease(l)].gitdir != Some(Checkout) || old(disk.fs)[Lease(l)].commondir != Some(Absolute)
        || !(PointsAt(old(disk.fs), admin) || PointsAt(old(disk.fs), Lease(l)))
      ensures r.Refused? ==> disk == old(disk)
      ensures r.Done? ==> Idle(disk.journal)
      ensures r.Done? ==>
        if git.clean && git.restored then Checkout in old(disk.fs) && disk == LinkedBack(old(disk), admin)
        else
          && disk.journal.lease.None? && Checkout !in disk.fs && Lease(l) !in disk.fs
          && (Safe(old(disk)) ==> exists root: nat ::
                && Archived(Attempted(old(disk), git), root, admin, Some(l), disk)
                && Retained(old(disk.fs), root, admin, Some(l), disk.fs))
    {
      hide Legal, Exec, Safe;
      if !LeaseMatches(disk.fs, l, admin) || Checkout !in disk.fs
         || (!PointsAt(disk.fs, admin) && !PointsAt(disk.fs, Lease(l))) {
        return Refused;
      }
      if !git.clean {
        Archive(admin, Some(l));
        assert Attempted(old(disk), git) == old(disk);
        return Done;
      }
      StartIsSafe(disk);
      state := state.(restore := Some(CheckingOut));
      Persist(StartRestore);
      if !git.restored {
        assert disk == Attempted(old(disk), git);
        Archive(admin, Some(l));
        return Done;
      }
      Do(Point(Checkout, admin));
      state := state.(restore := Some(Linked));
      Persist(MarkLinked);
      return Done;
    }

    /**
      Establish a registered, canonical and resolvable checkout; `git` and `again` are the answers
      for it and for its replacement.
     */
    method Ensure(replaced: bool, git: Git, again: Git) returns (r: Outcome)
      requires Valid()
      modifies this`disk, this`state, this`log
      ensures Valid() && old(log) <= log
      ensures r.Done? ==>
        && Idle(disk.journal) && disk.journal.lease.None? && disk.journal.admin.Some?
        && Registered(disk.fs, disk.journal.admin.value) && PointsAt(disk.fs, disk.journal.admin.value)
        && (managed ==> disk.journal.admin == Some(CANONICAL))
      ensures replaced && git.damaged ==> r.Refused?
      ensures !git.damaged && !git.settled ==> r.Refused?
      ensures Resumable(old(disk)) && Undisturbed(Resumed(old(disk))) && !git.damaged && git.settled ==>
        var before := Resumed(old(disk));
        (r.Done? <==> Acceptable(before.fs, managed, before.journal.admin))
      ensures
        (&& Resumable(old(disk)) && Resumed(old(disk)).journal.lease.None? && Checkout !in Resumed(old(disk)).fs
         && !git.damaged && git.settled) ==>
        var before := Resumed(old(disk));
        (r.Done? <==> Addable(before.fs, managed, before.journal.admin) && git.added.Whole?)
      ensures r.Done? && git.damaged ==> !again.damaged && again.settled
      ensures r.Done? && git.damaged && Safe(old(disk)) && Undisturbed(Resumed(old(disk))) ==>
        Replaced(Resumed(old(disk)).fs, disk.fs)
      ensures r.Done? && !git.damaged && Resumable(old(disk)) && Undisturbed(Resumed(old(disk))) ==>
        disk.fs[Checkout].id == Resumed(old(disk)).fs[Checkout].id
      decreases if replaced then 0 else 1
    {
      hide Legal, Exec, Safe, Script, Settled, Located, Superseded, Addable, Allowed, Apply;
      hide Unrecoverable, Recovered, Recoverable, SoleOwner, Drops, Replaced, Archived, Retained;
      r := Recover(git);
      if r.Refused? {
        return;
      }
      ghost var recovered, base := disk, log;
      ghost var _ := StepsSince(old(log), old(disk));
      var admin;
      r, admin := Locate(git);
      if r.Refused? {
        return;
      }
      r, admin := Normalize(admin);
      if r.Refused? {
        return;
      }
      if git.damaged {
        if replaced {
          return Refused;
        }
        ghost var located := disk;
        ghost var _ := StepsSince(base, recovered);
        Archive(admin, None);
        ghost var archived, since := disk, log;
        r := Ensure(true, again, again);
        if r.Done? && Safe(recovered) && Undisturbed(recovered) {
          ghost var steps := StepsSince(since, archived);
          ReplacementIsNew(recovered, located, admin, archived, steps, disk);
        }
        return;
      }
      if !git.settled {
        return Refused;
      }
      state := state.(admin := Some(admin));
      NotingIsAllowed(disk, admin);
      Persist(NoteAdmin(admin));
    }

    /** The administration that the checkout is registered with and points at; a missing checkout is added. */
    method Locate(git: Git) returns (r: Outcome, admin: Path)
      requires Valid() && Idle(state) && state.lease.None?
      modifies this`disk, this`state, this`log
      ensures Valid() && old(log) <= log
      ensures r.Done? ==> disk.journal == old(disk.journal)
      ensures r.Done? ==> Registered(disk.fs, admin) && PointsAt(disk.fs, admin)
      ensures r.Done? && Checkout in old(disk.fs) ==>
        && disk.fs[Checkout] == old(disk.fs)[Checkout]
        && admin in old(disk.fs) && disk.fs[admin] == old(disk.fs)[admin]
        && (CANONICAL in disk.fs <==> CANONICAL in old(disk.fs) && !Superseded(old(disk.fs), managed, old(state.admin)))
      ensures Checkout in old(disk.fs) ==> (r.Done? <==> Located(old(disk.fs), managed, old(state.admin)))
      ensures Checkout !in old(disk.fs) ==>
        && (r.Done? <==> Addable(old(disk.fs), managed, old(state.admin)) && git.added.Whole?)
        && (r.Done? && managed ==> CANONICAL in disk.fs ==> admin == CANONICAL)
    {
      hide Legal, Exec;
      var found;
      r, found := Registration();
      admin := CANONICAL;
      if r.Refused? {
        return;
      }
      if found.Some? && Checkout in disk.fs {
        if !PointsAt(disk.fs, found.value) {
          return Refused, admin;   // an orphaned private or corrupt pointer
        }
        return Done, found.value;
      }
      if found.Some? {
        ghost var before := disk.fs;
        var orphan := found.value;
        RetainStale(orphan);
        assert forall a: Path :: Registered(disk.fs, a) ==> Registered(before, a) && a != orphan;
      }
      if Checkout in disk.fs || (managed && CANONICAL in disk.fs) {
        return Refused, admin;
      }
      r, admin := WorktreeAdd(git);
    }

    /** git worktree add: the administration appears before the checkout does. */
    method WorktreeAdd(git: Git) returns (r: Outcome, admin: Path)
      requires Valid() && Idle(state) && state.lease.None? && Checkout !in disk.fs
      requires forall a :: !Registered(disk.fs, a)
      modifies this`disk, this`state, this`log
      ensures Valid() && old(log) <= log && disk.journal == old(disk.journal)
      ensures r.Done? <==> git.added.Whole?
      ensures r.Done? ==> Registered(disk.fs, admin) && PointsAt(disk.fs, admin)
      ensures r.Done? ==> disk.fs.Keys == old(disk.fs).Keys + {admin, Checkout}
      ensures git.added.Nothing? ==> disk == old(disk)
      ensures git.added.AdminOnly? ==>
        admin !in old(disk.fs) && Registered(disk.fs, admin) && disk.fs - {admin} == old(disk.fs)
    {
      hide Legal, Exec;
      admin := CANONICAL;
      if git.added.Nothing? {
        return Refused, admin;
      }
      UnusedAdmin(disk);
      var name: nat :| Admin(name) !in disk.fs;
      admin := Admin(name);
      Do(AddAdmin(admin));
      if git.added.AdminOnly? {
        return Refused, admin;
      }
      Do(AddCheckout(admin));
      forall a: Path | Registered(disk.fs, a)
        ensures a == admin
      {
        assert !Registered(old(disk.fs), a);
      }
      var found;
      r, found := Registration();
    }

    /** Journal a new private lease before its directory exists. */
    method Allocate() returns (r: Outcome)
      requires Valid() && Idle(state)
      modifies this`disk, this`state, this`log
      ensures Valid() && old(log) <= log
      ensures r.Done? ==>
        && old(state.lease.None?) && state.lease.Some? && state.phase == Some(Building)
        && Lease(state.lease.value) in disk.fs && Lease(state.lease.value) !in old(disk.fs)
        && state.admin.Some? && PointsAt(disk.fs, state.admin.value) && Registered(disk.fs, state.admin.value)
      ensures r.Refused? ==>
        || old(state.lease.Some?) || Unregistrable(old(disk.fs), managed, old(state.admin))
        || forall a: Path | Registered(old(disk.fs), a) :: !PointsAt(old(disk.fs), a)
      ensures r.Refused? ==> disk.journal == old(disk.journal)
    {
      hide Legal, Exec;
      if state.lease.Some? {
        return Refused;
      }
      var found;
      r, found := Registration();
      if r.Refused? || found.None? || !PointsAt(disk.fs, found.value) {
        return Refused;
      }
      hide Unregistrable, OwnerOf, SameWork, Allowed, Apply;
      UnusedLease(disk);
      var l: nat :| Lease(l) !in disk.fs;
      AllocationSteps(disk, l, found.value);
      state := state.(lease := Some(l), admin := found, phase := Some(Building));
      Persist(BeginLease(l, found.value));
      Do(MakeLease(l));
    }

    /** Mark a filled lease ready before the outside pointer swap. */
    method Register(l: nat) returns (r: Outcome)
      requires Valid() && Idle(state)
      modifies this`disk, this`state, this`log
      ensures Valid() && old(log) <= log
      ensures r.Done? ==>
        && old(state.lease) == state.lease == Some(l)
        && old(state.phase) == Some(Building) && state.phase == Some(Ready)
        && state.admin.Some? && PointsAt(disk.fs, state.admin.value) && LeaseMatches(disk.fs, l, state.admin.value)
      ensures r.Refused? ==>
        || old(state.lease) != Some(l) || old(state.phase) != Some(Building)
        || Unregistrable(old(disk.fs), managed, old(state.admin))
        || forall a: Path | Registered(old(disk.fs), a) ::
          !PointsAt(old(disk.fs), a) || !LeaseMatches(old(disk.fs), l, a)
      ensures r.Refused? ==> disk.journal == old(disk.journal)
    {
      hide Legal, Exec;
      var found;
      r, found := Registration();
      if r.Refused? || found.None? || !PointsAt(disk.fs, found.value) {
        return Refused;
      }
      if !LeaseMatches(disk.fs, l, found.value) || state.lease != Some(l) || state.phase != Some(Building) {
        return Refused;
      }
      state := state.(admin := found, phase := Some(Ready));
      Persist(MarkReady(l, found.value));
    }
  }
}

/**
  Convergence of the restartable moves.  `Settled` says, without reference to
  any order of steps, what the disk must become once the pending intent is
  finished; `Script` is what the code does next.  Interrupting the script after
  any step, any number of times, never changes the settled disk.
 */
module WorktreeConvergence {
  import opened Wrappers
  import opened WorktreeDisk
  import opened WorktreeSafety

  predicate Pending(d: Disk) {
    !Idle(d.journal)
  }

  // ----- What the finished disk must be -----

  function StaleSettled(d: Disk, m: Move): Disk
    requires StaleSound(d, m)
  {
    d.(fs := (d.fs - {m.source})[m.target := d.fs[Place(d.fs, m)]],
       manifests := d.manifests[m.target.root := d.journal],
       journal := d.journal.(stale := None))
  }

  function RenameSettled(d: Disk, m: Move): Disk
    requires RenameSound(d, m)
  {
    d.(fs := (d.fs - {m.source})[CANONICAL := d.fs[Place(d.fs, m)]]
               [Checkout := d.fs[Checkout].(git := Some(CANONICAL))],
       journal := d.journal.(rename := None))
  }

  /** The retained form of each directory: only its pointers differ. */
  function KeptNode(d: Disk, a: Archive, slot: Slot): Node
    requires ArchiveSound(d, a) && slot != StaleSlot && (slot == LeaseSlot ==> a.lease.Some?)
  {
    match slot
    case CheckoutSlot =>
      d.fs[Place(d.fs, Move(Checkout, Kept(a.root, CheckoutSlot)))].(git := Some(KeptAdmin(a)))
    case AdminSlot =>
      d.fs[Place(d.fs, Move(a.admin, Kept(a.root, AdminSlot)))].(
        gitdir := Some(Kept(a.root, CheckoutSlot)), commondir := Some(Absolute))
    case LeaseSlot =>
      d.fs[Place(d.fs, Move(Lease(a.lease.value), Kept(a.root, LeaseSlot)))].(
        gitdir := Some(Kept(a.root, CheckoutSlot)))
  }

  function Sources(a: Archive): set<Path> {
    {Checkout, a.admin} + if a.lease.Some? then {Lease(a.lease.value)} else {}
  }

  function Targets(a: Archive): set<Path> {
    {Kept(a.root, CheckoutSlot), Kept(a.root, AdminSlot)} + if a.lease.Some? then {Kept(a.root, LeaseSlot)} else {}
  }

  function ArchivedTree(d: Disk, a: Archive): map<Path, Node>
    requires ArchiveSound(d, a)
  {
    map p | p in (d.fs.Keys - Sources(a)) + Targets(a) ::
      if p in Targets(a) then KeptNode(d, a, p.slot) else d.fs[p]
  }

  function ArchiveSettled(d: Disk, a: Archive): Disk
    requires ArchiveSound(d, a)
  {
    d.(fs := ArchivedTree(d, a),
       manifests := d.manifests[a.root := d.journal],
       readmes := d.readmes + {a.root},
       journal := d.journal.(archive := None, lease := None, restore := None))
  }

  function Settled(d: Disk): Disk
    requires Safe(d)
  {
    var j := d.journal;
    if j.archive.Some? then ArchiveSettled(d, j.archive.value)
    else if j.stale.Some? then StaleSettled(d, j.stale.value)
    else if j.rename.Some? then RenameSettled(d, j.rename.value)
    else d
  }

  // ----- What the code does next -----

  /** The moves still to be made: those whose source is still in place. */
  function MoveScript(moves: seq<Move>, fs: map<Path, Node>): seq<Step> {
    if moves == [] then []
    else MoveScript(moves[..|moves| - 1], fs) +
         var m := moves[|moves| - 1];
         if m.source in fs then [MoveDir(m.source, m.target)] else []
  }

  function Rewrites(a: Archive): seq<Step> {
    [SetBacklink(Kept(a.root, AdminSlot), Kept(a.root, CheckoutSlot)), SetCommon(Kept(a.root, AdminSlot))]
    + (if a.lease.Some? then [SetBacklink(Kept(a.root, LeaseSlot), Kept(a.root, CheckoutSlot))] else [])
    + [Point(Kept(a.root, CheckoutSlot), KeptAdmin(a)), SaveManifest(a.root), WriteReadme(a.root)]
  }

  function ArchiveScript(d: Disk, a: Archive): seq<Step> {
    MoveScript(ArchiveMoves(a), d.fs) + Rewrites(a) + [EndArchive]
  }

  function StaleScript(d: Disk, m: Move): seq<Step>
    requires m.target.Kept?
  {
    MoveScript([m], d.fs) + [SaveManifest(m.target.root), EndStale]
  }

  function RenameScript(d: Disk, m: Move): seq<Step> {
    MoveScript([m], d.fs) + [Point(Checkout, m.target), EndRename]
  }

  function Script(d: Disk): seq<Step>
    requires Safe(d)
  {
    var j := d.journal;
    if j.archive.Some? then ArchiveScript(d, j.archive.value)
    else if j.stale.Some? then StaleScript(d, j.stale.value)
    else if j.rename.Some? then RenameScript(d, j.rename.value)
    else []
  }

  /** The steps that a pending intent permits before its closing step. */
  predicate Working(s: Step) {
    s.MoveDir? || s.SaveManifest? || s.Point? || s.SetBacklink? || s.SetCommon? || s.WriteReadme?
  }

  lemma StaleWork(s: Step, d: Disk, m: Move)
    requires Safe(d) && d.journal.stale == Some(m) && Working(s) && Allowed(s, d)
    requires Safe(Apply(s, d)) && Apply(s, d).journal == d.journal
    ensures StaleSettled(Apply(s, d), m) == StaleSettled(d, m)
  {
    assert StaleSettled(Apply(s, d), m).fs == StaleSettled(d, m).fs;
  }

  lemma RenameWork(s: Step, d: Disk, m: Move)
    requires Safe(d) && d.journal.rename == Some(m) && Working(s) && Allowed(s, d)
    requires Safe(Apply(s, d)) && Apply(s, d).journal == d.journal
    ensures RenameSettled(Apply(s, d), m) == RenameSettled(d, m)
  {
    assert RenameSettled(Apply(s, d), m).fs == RenameSettled(d, m).fs;
  }

  lemma ArchiveNodes(s: Step, d: Disk, a: Archive, slot: Slot)
    requires ArchiveSound(d, a) && d.journal.archive == Some(a) && AtMostOneIntent(d.journal)
    requires Working(s) && Allowed(s, d) && ArchiveSound(Apply(s, d), a)
    requires slot != StaleSlot && (slot == LeaseSlot ==> a.lease.Some?)
    ensures KeptNode(Apply(s, d), a, slot) == KeptNode(d, a, slot)
  {
  }

  lemma ArchiveOthers(s: Step, d: Disk, a: Archive, p: Path)
    requires ArchiveSound(d, a) && d.journal.archive == Some(a) && AtMostOneIntent(d.journal)
    requires Working(s) && Allowed(s, d) && p !in Sources(a) && p !in Targets(a)
    ensures (p in d.fs) == (p in Apply(s, d).fs) && (p in d.fs ==> Apply(s, d).fs[p] == d.fs[p])
  {
  }

  lemma ArchiveWork(s: Step, d: Disk, a: Archive)
    requires ArchiveSound(d, a) && AtMostOneIntent(d.journal) && d.journal.archive == Some(a)
    requires Working(s) && Allowed(s, d) && ArchiveSound(Apply(s, d), a) && Apply(s, d).journal == d.journal
    ensures ArchiveSettled(Apply(s, d), a) == ArchiveSettled(d, a)
  {
    ArchiveTree(s, d, a);
    ArchiveLabels(s, d, a);
  }

  lemma ArchiveLabels(s: Step, d: Disk, a: Archive)
    requires AtMostOneIntent(d.journal) && d.journal.archive == Some(a) && Working(s) && Allowed(s, d)
    ensures var d' := Apply(s, d);
      && d'.manifests[a.root := d.journal] == d.manifests[a.root := d.journal]
      && d'.readmes + {a.root} == d.readmes + {a.root} && d'.made == d.made
  {
  }

  lemma ArchiveTree(s: Step, d: Disk, a: Archive)
    requires ArchiveSound(d, a) && AtMostOneIntent(d.journal) && d.journal.archive == Some(a)
    requires Working(s) && Allowed(s, d) && ArchiveSound(Apply(s, d), a)
    ensures ArchivedTree(Apply(s, d), a) == ArchivedTree(d, a)
  {
    hide Allowed, Apply, ArchiveSound, KeptNode;
    var d' := Apply(s, d);
    forall p
      ensures p in ArchivedTree(d', a) <==> p in ArchivedTree(d, a)
      ensures p in ArchivedTree(d, a) ==> ArchivedTree(d', a)[p] == ArchivedTree(d, a)[p]
    {
      if p in Targets(a) {
        ArchiveNodes(s, d, a, p.slot);
      } else if p !in Sources(a) {
        ArchiveOthers(s, d, a, p);
      }
    }
    assert ArchivedTree(d', a) == ArchivedTree(d, a);
  }

  lemma WorkKeepsJournal(s: Step, d: Disk)
    requires Working(s) && Allowed(s, d)
    ensures Apply(s, d).journal == d.journal
  {
  }

  /** Nothing done on behalf of a pending intent changes where it will settle. */
  lemma WorkKeepsSettled(s: Step, d: Disk)
    requires Safe(d) && Pending(d) && Working(s) && Allowed(s, d)
    ensures Safe(Apply(s, d)) && Apply(s, d).journal == d.journal
    ensures Settled(Apply(s, d)) == Settled(d)
  {
    hide Allowed, Apply;
    StepKeepsSafe(s, d);
    WorkKeepsJournal(s, d);
    if d.journal.archive.Some? {
      ArchiveWork(s, d, d.journal.archive.value);
    } else if d.journal.stale.Some? {
      StaleWork(s, d, d.journal.stale.value);
    } else {
      RenameWork(s, d, d.journal.rename.value);
    }
  }

  predicate AllWorking(log: seq<Step>) {
    forall i | 0 <= i < |log| :: Working(log[i])
  }

  lemma {:induction false} WorkRun(log: seq<Step>, d: Disk)
    requires Safe(d) && Pending(d) && Legal(log, d) && AllWorking(log)
    ensures Safe(Exec(log, d)) && Exec(log, d).journal == d.journal && Settled(Exec(log, d)) == Settled(d)
    decreases |log|
  {
    hide Legal, Exec, Allowed, Apply, Safe, Settled;
    if log == [] {
      LegalNil(d);
    } else {
      LegalFront(log, d);
      WorkRun(log[..|log| - 1], d);
      WorkKeepsSettled(log[|log| - 1], Exec(log[..|log| - 1], d));
    }
  }

  // ----- The script of each intent is permitted and reaches the settled disk -----

  /** The first `n` directories of the list have moved and the others are where they were. */
  predicate MovedSoFar(a: Archive, fs0: map<Path, Node>, fs: map<Path, Node>, n: nat) {
    forall i | 0 <= i < |ArchiveMoves(a)| ::
      var m := ArchiveMoves(a)[i];
      if i < n then Moved(fs, m)
      else (m.source in fs) == (m.source in fs0) && (m.target in fs) == (m.target in fs0)
  }

  lemma NextMove(d: Disk, e: Disk, a: Archive, n: nat)
    requires a.admin.Admin? && n < |ArchiveMoves(a)| && ExactlyOne(d.fs, ArchiveMoves(a)[n])
    requires MovedSoFar(a, d.fs, e.fs, n) && e.journal.archive == Some(a)
    ensures var m := ArchiveMoves(a)[n];
      if m.source in d.fs
      then Allowed(MoveDir(m.source, m.target), e) && Apply(MoveDir(m.source, m.target), e).journal == e.journal
           && MovedSoFar(a, d.fs, Apply(MoveDir(m.source, m.target), e).fs, n + 1)
      else MovedSoFar(a, d.fs, e.fs, n + 1)
  {
  }

  lemma SoundMoves(d: Disk, a: Archive)
    requires ArchiveSound(d, a)
    ensures a.admin.Admin? && forall i | 0 <= i < |ArchiveMoves(a)| :: ExactlyOne(d.fs, ArchiveMoves(a)[i])
  {
  }

  lemma {:induction false} MovesRun(d: Disk, a: Archive, n: nat)
    requires ArchiveSound(d, a) && d.journal.archive == Some(a) && n <= |ArchiveMoves(a)|
    ensures var steps := MoveScript(ArchiveMoves(a)[..n], d.fs);
      && Legal(steps, d) && AllWorking(steps) && Exec(steps, d).journal == d.journal
      && MovedSoFar(a, d.fs, Exec(steps, d).fs, n)
  {
    hide Legal, Exec, Allowed, Apply, ExactlyOne;
    var moves := ArchiveMoves(a);
    if n == 0 {
      LegalNil(d);
    } else {
      MovesRun(d, a, n - 1);
      SoundMoves(d, a);
      assert moves[..n][..n - 1] == moves[..n - 1];
      var steps, m := MoveScript(moves[..n - 1], d.fs), moves[n - 1];
      NextMove(d, Exec(steps, d), a, n - 1);
      if m.source in d.fs {
        LegalSnoc(steps, MoveDir(m.source, m.target), d);
      } else {
        assert steps + [] == steps;
      }
    }
  }

  lemma AllMovesRun(d: Disk, a: Archive)
    requires ArchiveSound(d, a) && d.journal.archive == Some(a)
    ensures var steps := MoveScript(ArchiveMoves(a), d.fs);
      Legal(steps, d) && AllWorking(steps) && Exec(steps, d).journal == d.journal && AllMoved(Exec(steps, d).fs, a)
  {
    hide Allowed, Apply, ExactlyOne, Legal, Exec;
    var moves := ArchiveMoves(a);
    MovesRun(d, a, |moves|);
    assert moves[..|moves|] == moves;
    var fs := Exec(MoveScript(moves, d.fs), d).fs;
    assert Moved(fs, moves[0]) && Moved(fs, moves[1]);
    assert a.lease.Some? ==> Moved(fs, moves[2]);
  }

  /** The first three rewrites, applied to a disk whose directories have all moved. */
  lemma BacklinksRun(d: Disk, a: Archive)
    requires d.journal.archive == Some(a) && AllMoved(d.fs, a)
    ensures var log := Rewrites(a)[..|Rewrites(a)| - 3];
      && Legal(log, d) && AllWorking(log) && Exec(log, d).journal == d.journal
      && BacklinksDone(Exec(log, d), a)
  {
    hide Legal, Exec;
    var admin, kept := Kept(a.root, AdminSlot), Kept(a.root, CheckoutSlot);
    LegalOne(SetBacklink(admin, kept), d);
    var s1 := [SetBacklink(admin, kept)];
    LegalSnoc(s1, SetCommon(admin), d);
    var s2 := s1 + [SetCommon(admin)];
    if a.lease.Some? {
      LegalSnoc(s2, SetBacklink(Kept(a.root, LeaseSlot), kept), d);
      assert Rewrites(a)[..|Rewrites(a)| - 3] == s2 + [SetBacklink(Kept(a.root, LeaseSlot), kept)];
    } else {
      assert Rewrites(a)[..|Rewrites(a)| - 3] == s2;
    }
  }

  predicate BacklinksDone(d: Disk, a: Archive) {
    && AllMoved(d.fs, a)
    && d.fs[Kept(a.root, AdminSlot)].gitdir == Some(Kept(a.root, CheckoutSlot))
    && d.fs[Kept(a.root, AdminSlot)].commondir == Some(Absolute)
    && (a.lease.Some? ==> d.fs[Kept(a.root, LeaseSlot)].gitdir == Some(Kept(a.root, CheckoutSlot)))
  }

  /** Every pointer of the retained unit already has its final value. */
  predicate Relocated(d: Disk, a: Archive) {
    && BacklinksDone(d, a)
    && d.fs[Kept(a.root, CheckoutSlot)].git == Some(KeptAdmin(a))
    && a.root in d.manifests && d.manifests[a.root] == d.journal && a.root in d.readmes
  }

  lemma LabelsRun(d: Disk, a: Archive)
    requires d.journal.archive == Some(a) && BacklinksDone(d, a)
    ensures var log := [Point(Kept(a.root, CheckoutSlot), KeptAdmin(a)), SaveManifest(a.root), WriteReadme(a.root)];
      Legal(log, d) && AllWorking(log) && Exec(log, d).journal == d.journal && Relocated(Exec(log, d), a)
  {
    hide Legal, Exec;
    var point := Point(Kept(a.root, CheckoutSlot), KeptAdmin(a));
    LegalOne(point, d);
    LegalSnoc([point], SaveManifest(a.root), d);
    LegalSnoc([point] + [SaveManifest(a.root)], WriteReadme(a.root), d);
    assert [point] + [SaveManifest(a.root)] + [WriteReadme(a.root)]
        == [point, SaveManifest(a.root), WriteReadme(a.root)];
    assert BacklinksDone(Apply(point, d), a);
  }

  lemma RewritesRun(d: Disk, a: Archive)
    requires d.journal.archive == Some(a) && AllMoved(d.fs, a)
    ensures Legal(Rewrites(a), d) && AllWorking(Rewrites(a))
    ensures Exec(Rewrites(a), d).journal == d.journal && Relocated(Exec(Rewrites(a), d), a)
  {
    hide Allowed, Apply, Legal, Exec, Relocated, BacklinksDone;
    var links := Rewrites(a)[..|Rewrites(a)| - 3];
    var labels := [Point(Kept(a.root, CheckoutSlot), KeptAdmin(a)), SaveManifest(a.root), WriteReadme(a.root)];
    BacklinksRun(d, a);
    LabelsRun(Exec(links, d), a);
    LegalConcat(links, labels, d);
    assert links + labels == Rewrites(a);
  }

  lemma ClosedIsSettled(d: Disk, a: Archive)
    requires Safe(d) && d.journal.archive == Some(a) && Relocated(d, a)
    ensures Allowed(EndArchive, d) && Apply(EndArchive, d) == Settled(d)
  {
    forall p
      ensures p in ArchivedTree(d, a) <==> p in d.fs
      ensures p in d.fs ==> ArchivedTree(d, a)[p] == d.fs[p]
    {
    }
    assert ArchivedTree(d, a) == d.fs;
    assert d.manifests[a.root := d.journal] == d.manifests;
    assert d.readmes + {a.root} == d.readmes;
  }

  lemma ArchiveScriptRuns(d: Disk, a: Archive)
    requires Safe(d) && d.journal.archive == Some(a)
    ensures var work := MoveScript(ArchiveMoves(a), d.fs) + Rewrites(a);
      && ArchiveScript(d, a) == work + [EndArchive] && Legal(work, d) && AllWorking(work)
      && Allowed(EndArchive, Exec(work, d)) && Apply(EndArchive, Exec(work, d)) == Settled(d)
  {
    hide Allowed, Apply, Legal, Exec, Relocated, Settled;
    AllMovesRun(d, a);
    var moves := MoveScript(ArchiveMoves(a), d.fs);
    RewritesRun(Exec(moves, d), a);
    LegalConcat(moves, Rewrites(a), d);
    WorkRun(moves + Rewrites(a), d);
    ClosedIsSettled(Exec(moves + Rewrites(a), d), a);
  }

  lemma StaleScriptRuns(d: Disk, m: Move)
    requires Safe(d) && d.journal.stale == Some(m)
    ensures var work := MoveScript([m], d.fs) + [SaveManifest(m.target.root)];
      && StaleScript(d, m) == work + [EndStale] && Legal(work, d) && AllWorking(work)
      && Allowed(EndStale, Exec(work, d)) && Apply(EndStale, Exec(work, d)) == Settled(d)
  {
    hide Allowed, Apply, Legal, Exec, Settled;
    StaleLabelled(d, m);
    SingleMove(d, m);
    var move := MoveScript([m], d.fs);
    LegalSnoc(move, SaveManifest(m.target.root), d);
    WorkRun(move + [SaveManifest(m.target.root)], d);
    StaleClosed(Exec(move + [SaveManifest(m.target.root)], d), m);
  }

  lemma StaleLabelled(d: Disk, m: Move)
    requires Safe(d) && d.journal.stale == Some(m)
    ensures m.target.Kept? && ExactlyOne(d.fs, m)
    ensures m.source in d.fs ==> Allowed(MoveDir(m.source, m.target), d)
    ensures Allowed(SaveManifest(m.target.root), AfterMove(d, m))
    ensures var e := Apply(SaveManifest(m.target.root), AfterMove(d, m));
      Moved(e.fs, m) && m.target.root in e.manifests && e.manifests[m.target.root] == e.journal
  {
  }

  lemma StaleClosed(d: Disk, m: Move)
    requires Safe(d) && d.journal.stale == Some(m) && Moved(d.fs, m)
    requires m.target.Kept? && m.target.root in d.manifests && d.manifests[m.target.root] == d.journal
    ensures Allowed(EndStale, d) && Apply(EndStale, d) == Settled(d)
  {
    assert StaleSettled(d, m).fs == d.fs;
    assert d.manifests[m.target.root := d.journal] == d.manifests;
  }

  lemma RenameClosed(d: Disk, m: Move)
    requires Safe(d) && d.journal.rename == Some(m) && Moved(d.fs, m) && PointsAt(d.fs, m.target)
    ensures Allowed(EndRename, d) && Apply(EndRename, d) == Settled(d)
  {
    assert RenameSettled(d, m).fs == d.fs;
  }

  lemma RenamePointed(d: Disk, m: Move)
    requires Safe(d) && d.journal.rename == Some(m)
    ensures m.source in d.fs ==> Allowed(MoveDir(m.source, m.target), d)
    ensures Allowed(Point(Checkout, m.target), AfterMove(d, m))
    ensures var e := Apply(Point(Checkout, m.target), AfterMove(d, m));
      Moved(e.fs, m) && PointsAt(e.fs, m.target)
  {
  }

  lemma RenameScriptRuns(d: Disk, m: Move)
    requires Safe(d) && d.journal.rename == Some(m)
    ensures var work := MoveScript([m], d.fs) + [Point(Checkout, m.target)];
      && RenameScript(d, m) == work + [EndRename] && Legal(work, d) && AllWorking(work)
      && Allowed(EndRename, Exec(work, d)) && Apply(EndRename, Exec(work, d)) == Settled(d)
  {
    hide Allowed, Apply, Legal, Exec, Settled;
    RenamePointed(d, m);
    SingleMove(d, m);
    var move := MoveScript([m], d.fs);
    LegalSnoc(move, Point(Checkout, m.target), d);
    WorkRun(move + [Point(Checkout, m.target)], d);
    RenameClosed(Exec(move + [Point(Checkout, m.target)], d), m);
  }

  lemma SingleMove(d: Disk, m: Move)
    requires ExactlyOne(d.fs, m) && (m.source in d.fs ==> Allowed(MoveDir(m.source, m.target), d))
    ensures var move := MoveScript([m], d.fs);
      && move == (if m.source in d.fs then [MoveDir(m.source, m.target)] else [])
      && Legal(move, d) && Exec(move, d) == AfterMove(d, m)
  {
    assert [m][..0] == [];
    if m.source in d.fs {
      LegalOne(MoveDir(m.source, m.target), d);
    }
  }

  function AfterMove(d: Disk, m: Move): Disk
    requires m.source in d.fs ==> Allowed(MoveDir(m.source, m.target), d)
  {
    if m.source in d.fs then Apply(MoveDir(m.source, m.target), d) else d
  }

  /** The whole script is permitted, does no more than its intent, and settles the disk. */
  lemma ScriptSettles(d: Disk)
    requires Safe(d)
    ensures Legal(Script(d), d) && Exec(Script(d), d) == Settled(d)
    ensures !Pending(Settled(d)) && Safe(Settled(d))
    ensures Pending(d) ==> Script(d) != [] && AllWorking(Script(d)[..|Script(d)| - 1])
  {
    hide Allowed, Apply;
    var j := d.journal;
    if Pending(d) {
      var work, end := [], EndRename;
      if j.archive.Some? {
        ArchiveScriptRuns(d, j.archive.value);
        work, end := MoveScript(ArchiveMoves(j.archive.value), d.fs) + Rewrites(j.archive.value), EndArchive;
      } else if j.stale.Some? {
        StaleScriptRuns(d, j.stale.value);
        work, end := MoveScript([j.stale.value], d.fs) + [SaveManifest(j.stale.value.target.root)], EndStale;
      } else {
        RenameScriptRuns(d, j.rename.value);
        work := MoveScript([j.rename.value], d.fs) + [Point(Checkout, j.rename.value.target)];
      }
      LegalSnoc(work, end, d);
      assert Script(d)[..|Script(d)| - 1] == work;
      WorkRun(work, d);
      StepKeepsSafe(end, Exec(work, d));
    }
  }

  // ----- Crashes -----

  /** The disk left when the finishing code is stopped after `k` durable steps. */
  ghost function Crash(d: Disk, k: nat): (r: Disk)
    requires Safe(d)
    ensures Safe(r) && Settled(r) == Settled(d)
  {
    var n := if k < |Script(d)| then k else |Script(d)|;
    CrashPoint(d, n);
    Exec(Script(d)[..n], d)
  }

  lemma CrashPoint(d: Disk, n: nat)
    requires Safe(d) && n <= |Script(d)|
    ensures var done := Script(d)[..n];
      Legal(done, d) && Safe(Exec(done, d)) && Settled(Exec(done, d)) == Settled(d)
  {
    hide Allowed, Apply, Safe;
    ScriptSettles(d);
    LegalPrefix(Script(d), n, d);
    if n == |Script(d)| {
      assert Script(d)[..n] == Script(d);
    } else {
      assert Script(d)[..n] == Script(d)[..|Script(d)| - 1][..n];
      WorkRun(Script(d)[..n], d);
    }
  }

  /** The disk after one interrupted attempt per element. */
  ghost function Crashes(d: Disk, stops: seq<nat>): (r: Disk)
    requires Safe(d)
    ensures Safe(r) && Settled(r) == Settled(d)
    decreases |stops|
  {
    if stops == [] then d else Crashes(Crash(d, stops[0]), stops[1..])
  }

  /**
    Stop the finishing code after any step, any number of times: the next
    uninterrupted attempt is not refused and leaves exactly the disk that an
    uninterrupted first attempt would have left.
   */
  lemma CrashConvergence(d: Disk, stops: seq<nat>)
    requires Safe(d)
    ensures var c := Crashes(d, stops);
      && Legal(Script(c), c) && Legal(Script(d), d)
      && Exec(Script(c), c) == Exec(Script(d), d) == Settled(d)
      && Idle(Settled(d).journal)
  {
    hide Allowed, Apply, Legal, Exec;
    ScriptSettles(d);
    ScriptSettles(Crashes(d, stops));
  }

  // ----- Evidence -----

  predicate SameButPointers(x: Node, y: Node) {
    x.id == y.id && x.origin == y.origin && x.locked == y.locked
  }

  /**
    The checkout, the administration and the lease (if any) each exist at exactly
    one of source and retention target, nothing but their pointer files differs,
    and no other directory differs at all.
   */
  ghost predicate Conserves(d: Disk, c: Disk, a: Archive) {
    && (forall m | m in ArchiveMoves(a) ::
          && ExactlyOne(d.fs, m) && ExactlyOne(c.fs, m)
          && SameButPointers(c.fs[Place(c.fs, m)], d.fs[Place(d.fs, m)]))
    && (forall p | p !in Sources(a) && p !in Targets(a) ::
          (p in c.fs) == (p in d.fs) && (p in d.fs ==> c.fs[p] == d.fs[p]))
  }

  lemma SoundConserves(d: Disk, a: Archive)
    requires ArchiveSound(d, a)
    ensures Conserves(d, d, a)
  {
    forall m | m in ArchiveMoves(a) ensures ExactlyOne(d.fs, m) {
    }
  }

  lemma MoveConserved(s: Step, d: Disk, a: Archive, m: Move)
    requires d.journal.archive == Some(a) && Working(s) && Allowed(s, d) && m in ArchiveMoves(a)
    requires ArchiveSound(d, a) && ArchiveSound(Apply(s, d), a) && AtMostOneIntent(d.journal)
    ensures ExactlyOne(d.fs, m) && ExactlyOne(Apply(s, d).fs, m)
    ensures var c := Apply(s, d); SameButPointers(c.fs[Place(c.fs, m)], d.fs[Place(d.fs, m)])
  {
  }

  lemma StepConserves(s: Step, d: Disk, a: Archive)
    requires Safe(d) && d.journal.archive == Some(a) && Working(s) && Allowed(s, d)
    ensures Conserves(d, Apply(s, d), a)
  {
    StepKeepsSafe(s, d);
    var c := Apply(s, d);
    forall m | m in ArchiveMoves(a)
      ensures ExactlyOne(d.fs, m) && ExactlyOne(c.fs, m)
      ensures SameButPointers(c.fs[Place(c.fs, m)], d.fs[Place(d.fs, m)])
    {
      MoveConserved(s, d, a, m);
    }
    forall p | p !in Sources(a) && p !in Targets(a)
      ensures (p in c.fs) == (p in d.fs) && (p in d.fs ==> c.fs[p] == d.fs[p])
    {
      ArchiveOthers(s, d, a, p);
    }
  }

  lemma ConservesTransitive(d: Disk, c: Disk, e: Disk, a: Archive)
    requires Conserves(d, c, a) && Conserves(c, e, a)
    ensures Conserves(d, e, a)
  {
  }

  lemma {:induction false} RunConserves(log: seq<Step>, d: Disk, a: Archive)
    requires Safe(d) && d.journal.archive == Some(a) && Legal(log, d) && AllWorking(log)
    ensures Conserves(d, Exec(log, d), a)
    decreases |log|
  {
    hide Legal, Exec, Allowed, Apply, Conserves, ArchiveSound, Settled;
    if log == [] {
      LegalNil(d);
      SoundConserves(d, a);
    } else {
      var front := log[..|log| - 1];
      LegalFront(log, d);
      RunConserves(front, d, a);
      WorkRun(front, d);
      StepConserves(log[|log| - 1], Exec(front, d), a);
      ConservesTransitive(d, Exec(front, d), Exec(log, d), a);
    }
  }

  lemma CrashConserves(d: Disk, a: Archive, k: nat)
    requires Safe(d) && d.journal.archive == Some(a)
    ensures var c := Crash(d, k); Conserves(d, c, a) && (c.journal == d.journal || Idle(c.journal))
  {
    hide Legal, Exec, Allowed, Apply, Conserves, ArchiveSound, Settled;
    ScriptSettles(d);
    var script := Script(d);
    var work := script[..|script| - 1];
    LegalFront(script, d);
    if k < |script| {
      LegalPrefix(script, k, d);
      assert script[..k] == work[..k];
      RunConserves(script[..k], d, a);
      WorkRun(script[..k], d);
    } else {
      RunConserves(work, d, a);
      assert script[..|script|] == script;
      EndKeepsTree(d, a, Exec(work, d));
    }
  }

  lemma EndKeepsTree(d: Disk, a: Archive, e: Disk)
    requires Allowed(EndArchive, e) && Conserves(d, e, a)
    ensures Conserves(d, Apply(EndArchive, e), a)
  {
  }

  /** Evidence is conserved at every disk that any number of crashes can leave. */
  lemma {:induction false} EvidenceConserved(d: Disk, a: Archive, stops: seq<nat>)
    requires Safe(d) && d.journal.archive == Some(a)
    ensures Conserves(d, Crashes(d, stops), a)
    decreases |stops|
  {
    hide Crash, Settled, Conserves;
    if stops == [] {
      SoundConserves(d, a);
    } else {
      var c := Crash(d, stops[0]);
      CrashConserves(d, a, stops[0]);
      if c.journal == d.journal {
        EvidenceConserved(c, a, stops[1..]);
        ConservesTransitive(d, c, Crashes(d, stops), a);
      } else {
        IdleStays(c, stops[1..]);
      }
    }
  }

  lemma {:induction false} IdleStays(d: Disk, stops: seq<nat>)
    requires Safe(d) && Idle(d.journal)
    ensures Crashes(d, stops) == d
    decreases |stops|
  {
    if stops != [] {
      assert Crash(d, stops[0]) == d;
      IdleStays(d, stops[1..]);
    }
  }
}

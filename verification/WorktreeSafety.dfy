/** What every run of durable steps keeps, wherever crashes fall. */
module WorktreeSafety {
  import opened Wrappers
  import opened WorktreeDisk

  predicate ExactlyOne(fs: map<Path, Node>, m: Move) {
    (m.source in fs) != (m.target in fs)
  }

  /** Where a moved directory currently is. */
  function Place(fs: map<Path, Node>, m: Move): Path {
    if m.source in fs then m.source else m.target
  }

  predicate AtMostOneIntent(j: Journal) {
    && (j.stale.Some? ==> j.rename.None? && j.archive.None?)
    && (j.rename.Some? ==> j.archive.None?)
  }

  predicate StaleSound(d: Disk, m: Move) {
    && m.source.Admin? && m.target.Kept? && m.target.slot == StaleSlot
    && ExactlyOne(d.fs, m) && d.fs[Place(d.fs, m)].gitdir == Some(Checkout)
    && !PointsAt(d.fs, m.source)
  }

  predicate RenameSound(d: Disk, m: Move) {
    && m.source.Admin? && m.source != CANONICAL && m.target == CANONICAL
    && ExactlyOne(d.fs, m) && d.fs[Place(d.fs, m)].gitdir == Some(Checkout)
    && (PointsAt(d.fs, m.source) || PointsAt(d.fs, m.target))
  }

  predicate ArchiveSound(d: Disk, a: Archive) {
    && a.admin.Admin?
    && ExactlyOne(d.fs, Move(Checkout, Kept(a.root, CheckoutSlot)))
    && ExactlyOne(d.fs, Move(a.admin, Kept(a.root, AdminSlot)))
    && (a.lease.Some? ==> ExactlyOne(d.fs, Move(Lease(a.lease.value), Kept(a.root, LeaseSlot))))
    && a.lease == d.journal.lease
  }

  /** No two directories share an identity, so each is in exactly one place. */
  predicate UniqueIds(d: Disk) {
    Unique(d.fs, d.made)
  }

  predicate Unique(fs: map<Path, Node>, made: nat) {
    && (forall p | p in fs :: fs[p].id < made)
    && (forall p, q | p in fs && q in fs && fs[p].id == fs[q].id :: p == q)
  }

  /**
    Outside a pending archive, a pointer that names a lease names one that is
    journalled as ready and still exists, and a pointer that names a shared
    administration does not dangle, except across the rename that is moving it.
   */
  predicate PointerSound(d: Disk) {
    Checkout in d.fs && d.fs[Checkout].git.Some? && d.journal.archive.None? ==>
      var to := d.fs[Checkout].git.value;
      && (to.Lease? ==>
            && d.journal.lease == Some(to.lease) && d.journal.phase == Some(Ready)
            && d.journal.restore != Some(Linked) && to in d.fs)
      && (to.Admin? ==> to in d.fs || d.journal.rename.Some?)
  }

  predicate Safe(d: Disk) {
    && AtMostOneIntent(d.journal)
    && (d.journal.stale.Some? ==> StaleSound(d, d.journal.stale.value))
    && (d.journal.rename.Some? ==> RenameSound(d, d.journal.rename.value))
    && (d.journal.archive.Some? ==> ArchiveSound(d, d.journal.archive.value))
    && UniqueIds(d)
    && PointerSound(d)
  }

  // ----- Each kind of step keeps the disk safe -----

  lemma UniqueChanges(fs: map<Path, Node>, made: nat, p: Path, n: Node)
    requires Unique(fs, made)
    ensures Unique(fs - {p}, made)
    ensures n.id == made ==> Unique(fs[p := n], made + 1)
    ensures p in fs && n.id == fs[p].id ==> Unique(fs[p := n], made)
  {
  }

  lemma UniqueMoves(fs: map<Path, Node>, made: nat, from: Path, to: Path)
    requires Unique(fs, made) && from in fs && to !in fs
    ensures Unique((fs - {from})[to := fs[from]], made)
  {
    var fs' := (fs - {from})[to := fs[from]];
    forall p, q | p in fs' && q in fs' && fs'[p].id == fs'[q].id ensures p == q {
      var p0, q0 := if p == to then from else p, if q == to then from else q;
      assert fs[p0].id == fs[q0].id;
    }
  }

  lemma StepKeepsIds(s: Step, d: Disk)
    requires UniqueIds(d) && Allowed(s, d)
    ensures UniqueIds(Apply(s, d))
  {
    hide Unique;
    if s.MoveDir? {
      UniqueMoves(d.fs, d.made, s.from, s.to);
    } else if s.RemoveLease? {
      UniqueChanges(d.fs, d.made, Lease(s.lease), d.fs[Lease(s.lease)]);
    } else {
      var p := Touched(s);
      if p.Some? {
        UniqueChanges(d.fs, d.made, p.value, Apply(s, d).fs[p.value]);
      }
    }
  }

  /** The directory that a step makes or rewrites in place. */
  function Touched(s: Step): Option<Path> {
    match s
    case Point(dir, _) => Some(dir)
    case SetBacklink(dir, _) => Some(dir)
    case SetCommon(dir) => Some(dir)
    case MakeLease(lease) => Some(Lease(lease))
    case Erode(lease) => Some(Lease(lease))
    case FillLease(lease, _) => Some(Lease(lease))
    case AddAdmin(admin) => Some(admin)
    case AddCheckout(_) => Some(Checkout)
    case Swap(_) => Some(Checkout)
    case _ => None
  }

  lemma IntentStep(s: Step, d: Disk)
    requires Safe(d) && Allowed(s, d)
    requires s.BeginStale? || s.EndStale? || s.BeginRename? || s.EndRename? || s.BeginArchive? || s.EndArchive?
    ensures Safe(Apply(s, d))
  {
    StepKeepsIds(s, d);
    hide UniqueIds;
  }

  lemma LeaseStep(s: Step, d: Disk)
    requires Safe(d) && Allowed(s, d)
    requires s.BeginLease? || s.MarkReady? || s.NoteAdmin?
    ensures Safe(Apply(s, d))
  {
    StepKeepsIds(s, d);
    hide UniqueIds;
  }

  lemma RestoreStep(s: Step, d: Disk)
    requires Safe(d) && Allowed(s, d) && (s.StartRestore? || s.MarkLinked? || s.EndLease?)
    ensures Safe(Apply(s, d))
  {
    StepKeepsIds(s, d);
    hide UniqueIds;
  }

  lemma LabelStep(s: Step, d: Disk)
    requires Safe(d) && Allowed(s, d) && (s.SaveManifest? || s.WriteReadme?)
    ensures Safe(Apply(s, d))
  {
    StepKeepsIds(s, d);
    hide UniqueIds;
  }

  lemma MoveStep(s: Step, d: Disk)
    requires Safe(d) && Allowed(s, d) && s.MoveDir?
    ensures Safe(Apply(s, d))
  {
    StepKeepsIds(s, d);
    MoveKeepsPointer(s, d);
    assert Apply(s, d).journal == d.journal;
    if d.journal.archive.Some? {
      MoveKeepsArchive(s, d);
    } else {
      MoveKeepsPlace(s, d);
    }
    hide UniqueIds, PointerSound, Allowed, Apply, StaleSound, RenameSound, ArchiveSound;
  }

  lemma MoveKeepsArchive(s: Step, d: Disk)
    requires AtMostOneIntent(d.journal) && Allowed(s, d) && s.MoveDir?
    requires d.journal.archive.Some? && ArchiveSound(d, d.journal.archive.value)
    ensures ArchiveSound(Apply(s, d), d.journal.archive.value)
  {
  }

  lemma MoveKeepsPlace(s: Step, d: Disk)
    requires AtMostOneIntent(d.journal) && Allowed(s, d) && s.MoveDir? && d.journal.archive.None?
    requires d.journal.stale.Some? ==> StaleSound(d, d.journal.stale.value)
    requires d.journal.rename.Some? ==> RenameSound(d, d.journal.rename.value)
    ensures d.journal.stale.Some? ==> StaleSound(Apply(s, d), d.journal.stale.value)
    ensures d.journal.rename.Some? ==> RenameSound(Apply(s, d), d.journal.rename.value)
  {
  }

  lemma MoveKeepsPointer(s: Step, d: Disk)
    requires Safe(d) && Allowed(s, d) && s.MoveDir?
    ensures PointerSound(Apply(s, d))
  {
    hide UniqueIds;
  }

  lemma PointStep(s: Step, d: Disk)
    requires Safe(d) && Allowed(s, d) && s.Point?
    ensures Safe(Apply(s, d))
  {
    StepKeepsIds(s, d);
    hide UniqueIds;
  }

  lemma BacklinkStep(s: Step, d: Disk)
    requires Safe(d) && Allowed(s, d) && (s.SetBacklink? || s.SetCommon?)
    ensures Safe(Apply(s, d))
  {
    StepKeepsIds(s, d);
    hide UniqueIds;
  }

  lemma ContentStep(s: Step, d: Disk)
    requires Safe(d) && Allowed(s, d) && (s.Erode? || s.FillLease? || s.Swap?)
    ensures Safe(Apply(s, d))
  {
    StepKeepsIds(s, d);
    hide UniqueIds;
  }

  lemma LeaseDirectoryStep(s: Step, d: Disk)
    requires Safe(d) && Allowed(s, d) && (s.MakeLease? || s.RemoveLease?)
    ensures Safe(Apply(s, d))
  {
    StepKeepsIds(s, d);
    hide UniqueIds;
  }

  lemma AddStep(s: Step, d: Disk)
    requires Safe(d) && Allowed(s, d) && (s.AddAdmin? || s.AddCheckout?)
    ensures Safe(Apply(s, d))
  {
    StepKeepsIds(s, d);
    hide UniqueIds;
  }

  lemma StepKeepsSafe(s: Step, d: Disk)
    requires Safe(d) && Allowed(s, d)
    ensures Safe(Apply(s, d))
  {
    hide Safe, Allowed, Apply;
    if s.BeginStale? || s.EndStale? || s.BeginRename? || s.EndRename? || s.BeginArchive? || s.EndArchive? {
      IntentStep(s, d);
    } else if s.BeginLease? || s.MarkReady? || s.NoteAdmin? {
      LeaseStep(s, d);
    } else if s.StartRestore? || s.MarkLinked? || s.EndLease? {
      RestoreStep(s, d);
    } else if s.SaveManifest? || s.WriteReadme? {
      LabelStep(s, d);
    } else if s.MoveDir? {
      MoveStep(s, d);
    } else if s.Point? {
      PointStep(s, d);
    } else if s.SetBacklink? || s.SetCommon? {
      BacklinkStep(s, d);
    } else if s.Erode? || s.FillLease? || s.Swap? {
      ContentStep(s, d);
    } else if s.MakeLease? || s.RemoveLease? {
      LeaseDirectoryStep(s, d);
    } else {
      AddStep(s, d);
    }
  }

  /**
    Before the first use there is no checkout, no lease and an idle journal; whatever other
    directories the repository has, the run theorems apply from there.
   */
  lemma FirstUseIsSafe(d: Disk)
    requires Checkout !in d.fs && Idle(d.journal) && d.journal.lease.None? && UniqueIds(d)
    ensures Safe(d)
  {
  }

  /** In particular the disk of a repository without any of these directories. */
  lemma EmptyDiskIsSafe()
    ensures Safe(Disk(map[], Journal(None, None, None, None, None, None, None), map[], {}, 0))
  {
    FirstUseIsSafe(Disk(map[], Journal(None, None, None, None, None, None, None), map[], {}, 0));
  }

  /**
    A lease may be journalled on a safe disk exactly if no archive is pending: finishing an archive
    forgets the recorded lease, so one that was allocated meanwhile would be lost.
   */
  lemma LeaseNeedsNoArchive(d: Disk, l: nat)
    requires Safe(d) && d.journal.lease.None?
    ensures Safe(d.(journal := d.journal.(lease := Some(l), phase := Some(Building)))) <==> d.journal.archive.None?
  {
    hide UniqueIds;
    assert UniqueIds(d.(journal := d.journal.(lease := Some(l), phase := Some(Building)))) by {
      SameTreeSameIds(d, d.(journal := d.journal.(lease := Some(l), phase := Some(Building))));
    }
  }

  lemma SameTreeSameIds(d: Disk, e: Disk)
    requires UniqueIds(d) && e.fs == d.fs && e.made == d.made
    ensures UniqueIds(e)
  {
  }

  /** Every disk of a run is safe, and so is the disk that any crash leaves. */
  lemma {:induction false} RunsAreSafe(log: seq<Step>, start: Disk, k: nat)
    requires Safe(start) && Legal(log, start) && k <= |log|
    ensures Legal(log[..k], start) && Safe(Exec(log[..k], start))
  {
    hide Safe, Allowed, Apply;
    LegalPrefix(log, k, start);
    if k > 0 {
      RunsAreSafe(log, start, k - 1);
      assert log[..k][..k - 1] == log[..k - 1];
      StepKeepsSafe(log[k - 1], Exec(log[..k - 1], start));
    }
  }

  predicate Present(d: Disk, id: nat) {
    exists p :: p in d.fs && d.fs[p].id == id
  }

  /** The step of the log at `k` deletes this directory, and is entitled to. */
  predicate LostAt(log: seq<Step>, start: Disk, k: nat, id: nat) {
    && k < |log| && log[k].RemoveLease? && Legal(log[..k], start)
    && LostHere(Exec(log[..k], start), log[k].lease, id)
  }

  predicate LostHere(d: Disk, l: nat, id: nat) {
    && Lease(l) in d.fs && d.fs[Lease(l)].id == id && d.journal.lease == Some(l)
    && Checkout in d.fs && d.fs[Checkout].git.Some? && d.fs[Checkout].git.value.Admin?
    && Registered(d.fs, d.fs[Checkout].git.value)
  }

  /**
    The only directory a run can lose is a lease, and it is lost only while the
    journal names that lease and the checkout points at the shared administration
    registered for it.
   */
  lemma {:induction false} OnlyOwnedLeasesAreLost(log: seq<Step>, start: Disk, id: nat)
    requires Legal(log, start) && Present(start, id)
    ensures Present(Exec(log, start), id) || exists k :: LostAt(log, start, k, id)
  {
    hide Allowed, Apply;
    if |log| > 0 {
      var last := |log| - 1;
      OnlyOwnedLeasesAreLost(log[..last], start, id);
      if Present(Exec(log[..last], start), id) {
        if !Present(Exec(log, start), id) {
          LossIsOwned(log[last], Exec(log[..last], start), id);
          assert LostAt(log, start, last, id);
        }
      } else {
        var k: nat :| LostAt(log[..last], start, k, id);
        assert log[..last][..k] == log[..k];
        assert LostAt(log, start, k, id);
      }
    }
  }

  lemma DirectoryKept(s: Step, d: Disk, p: Path) returns (q: Path)
    requires Allowed(s, d) && p in d.fs && !(s.RemoveLease? && p == Lease(s.lease))
    ensures q in Apply(s, d).fs && Apply(s, d).fs[q].id == d.fs[p].id
  {
    q := if s.MoveDir? && p == s.from then s.to else p;
  }

  lemma LossIsOwned(s: Step, d: Disk, id: nat)
    requires Allowed(s, d) && Present(d, id) && !Present(Apply(s, d), id)
    ensures s.RemoveLease? && LostHere(d, s.lease, id)
  {
    var p :| p in d.fs && d.fs[p].id == id;
    if !(s.RemoveLease? && p == Lease(s.lease)) {
      var q := DirectoryKept(s, d, p);
      assert false;
    }
  }

  lemma KeptStaysStep(s: Step, d: Disk, p: Path)
    requires Allowed(s, d) && p.Kept? && p in d.fs
    ensures p in Apply(s, d).fs && Apply(s, d).fs[p].id == d.fs[p].id
  {
  }

  /** What has been retained stays where it is, whatever happens later. */
  lemma {:induction false} KeptStays(log: seq<Step>, d: Disk, p: Path)
    requires Legal(log, d) && p.Kept? && p in d.fs
    ensures p in Exec(log, d).fs && Exec(log, d).fs[p].id == d.fs[p].id
    decreases |log|
  {
    hide Allowed, Apply, Legal, Exec;
    if log == [] {
      LegalNil(d);
    } else {
      LegalFront(log, d);
      KeptStays(log[..|log| - 1], d, p);
      KeptStaysStep(log[|log| - 1], Exec(log[..|log| - 1], d), p);
    }
  }

  lemma CheckoutIsNewStep(s: Step, d: Disk)
    requires Allowed(s, d)
    ensures var e := Apply(s, d);
      && d.made <= e.made
      && (Checkout in e.fs ==>
            (Checkout in d.fs && e.fs[Checkout].id == d.fs[Checkout].id) || e.fs[Checkout].id == d.made)
  {
  }

  /** Once the checkout is gone, any later one is a new directory. */
  lemma {:induction false} CheckoutIsNew(log: seq<Step>, d: Disk)
    requires Legal(log, d) && Checkout !in d.fs
    ensures var e := Exec(log, d); d.made <= e.made && (Checkout in e.fs ==> d.made <= e.fs[Checkout].id)
    decreases |log|
  {
    hide Allowed, Apply, Legal, Exec;
    if log == [] {
      LegalNil(d);
    } else {
      LegalFront(log, d);
      CheckoutIsNew(log[..|log| - 1], d);
      CheckoutIsNewStep(log[|log| - 1], Exec(log[..|log| - 1], d));
    }
  }

  lemma {:induction false} MadeGrows(log: seq<Step>, d: Disk)
    requires Legal(log, d)
    ensures d.made <= Exec(log, d).made
    decreases |log|
  {
    hide Allowed, Apply, Legal, Exec;
    if log == [] {
      LegalNil(d);
    } else {
      LegalFront(log, d);
      MadeGrows(log[..|log| - 1], d);
      CheckoutIsNewStep(log[|log| - 1], Exec(log[..|log| - 1], d));
    }
  }
}

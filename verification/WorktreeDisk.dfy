/**
  The durable world of one verifier checkout: the directories that hold the
  checkout, its Git administrations, private leases and retained evidence, and
  the journal that records unfinished moves.  A directory's `id` stands for
  everything in it apart from the pointer files listed in `Node`.
 */
module WorktreeDisk {
  import opened Wrappers

  datatype Slot = CheckoutSlot | AdminSlot | LeaseSlot | StaleSlot

  datatype Path =
    | Checkout                          // the verifier worktree
    | Admin(name: nat)                  // <common>/worktrees/<name>
    | Lease(lease: nat)                 // <common>/storyhook/merge-watch-objects.<lease>
    | Kept(root: nat, slot: Slot)       // <common>/storyhook/verification-recovery-<root>/<slot>
    | Foreign(other: nat)               // another checkout of the same repository

  const CANONICAL := Admin(0)           // <common>/worktrees/verification-worktree

  datatype CommonDir = Relative | Absolute | Elsewhere

  datatype Node = Node(
    id: nat,
    git: Option<Path>,                  // `.git`: the administration in use
    gitdir: Option<Path>,               // `gitdir`: the checkout an administration belongs to
    commondir: Option<CommonDir>,       // `commondir`
    origin: Option<Path>,               // `original-gitlink` of a lease
    locked: bool)                       // `locked` of an administration

  datatype Phase = Building | Ready
  datatype Restore = CheckingOut | Linked
  datatype Move = Move(source: Path, target: Path)
  datatype Archive = Archive(root: nat, admin: Path, lease: Option<nat>)

  datatype Journal = Journal(
    stale: Option<Move>,
    rename: Option<Move>,
    archive: Option<Archive>,
    lease: Option<nat>,
    phase: Option<Phase>,
    restore: Option<Restore>,
    admin: Option<Path>)

  datatype Disk = Disk(
    fs: map<Path, Node>,
    journal: Journal,
    manifests: map<nat, Journal>,       // manifest.json of each recovery root
    readmes: set<nat>,                  // recovery roots that hold README.md
    made: nat)                          // directories created so far

  /** One atomic durable change.  A crash may fall between any two of these. */
  datatype Step =
    // verifier-worktree.py
    | BeginStale(source: Path, root: nat)
    | MoveDir(from: Path, to: Path)
    | SaveManifest(root: nat)
    | EndStale
    | BeginRename(source: Path)
    | Point(dir: Path, to: Path)
    | EndRename
    | BeginArchive(root: nat, admin: Path, unit: Option<nat>)
    | SetBacklink(dir: Path, to: Path)
    | SetCommon(dir: Path)
    | WriteReadme(root: nat)
    | EndArchive
    | BeginLease(lease: nat, admin: Path)
    | MakeLease(lease: nat)
    | MarkReady(lease: nat, admin: Path)
    | StartRestore
    | MarkLinked
    | Erode(lease: nat)                 // part of a recursive deletion
    | RemoveLease(lease: nat)           // its last part
    | EndLease
    | NoteAdmin(admin: Path)
    // git worktree add, and the shell that fills and activates a lease
    | AddAdmin(admin: Path)
    | AddCheckout(admin: Path)
    | FillLease(lease: nat, admin: Path)
    | Swap(lease: nat)

  predicate Idle(j: Journal) {
    j.stale.None? && j.rename.None? && j.archive.None?
  }

  predicate Registered(fs: map<Path, Node>, a: Path) {
    a.Admin? && a in fs && fs[a].gitdir == Some(Checkout)
  }

  /** The checkout's forward pointer names this shared administration. */
  predicate PointsAt(fs: map<Path, Node>, a: Path) {
    Checkout in fs && fs[Checkout].git == Some(a)
  }

  predicate FreshRoot(d: Disk, root: nat) {
    && Kept(root, CheckoutSlot) !in d.fs && Kept(root, AdminSlot) !in d.fs
    && Kept(root, LeaseSlot) !in d.fs && Kept(root, StaleSlot) !in d.fs
  }

  predicate LeaseMatches(fs: map<Path, Node>, l: nat, a: Path) {
    && Lease(l) in fs && fs[Lease(l)].origin == Some(a)
    && fs[Lease(l)].gitdir == Some(Checkout) && fs[Lease(l)].commondir == Some(Absolute)
  }

  /** The retention moves of an archive, in the order they are made. */
  function ArchiveMoves(a: Archive): (moves: seq<Move>) {
    [Move(Checkout, Kept(a.root, CheckoutSlot)), Move(a.admin, Kept(a.root, AdminSlot))]
    + if a.lease.Some? then [Move(Lease(a.lease.value), Kept(a.root, LeaseSlot))] else []
  }

  predicate Moved(fs: map<Path, Node>, m: Move) {
    m.source !in fs && m.target in fs
  }

  predicate AllMoved(fs: map<Path, Node>, a: Archive) {
    && Moved(fs, Move(Checkout, Kept(a.root, CheckoutSlot)))
    && Moved(fs, Move(a.admin, Kept(a.root, AdminSlot)))
    && (a.lease.Some? ==> Moved(fs, Move(Lease(a.lease.value), Kept(a.root, LeaseSlot))))
  }

  /** The administration that a retained checkout finally points at. */
  function KeptAdmin(a: Archive): Path {
    if a.lease.Some? then Kept(a.root, LeaseSlot) else Kept(a.root, AdminSlot)
  }

  /** A recursive deletion of this lease may be started or resumed. */
  predicate MayDelete(d: Disk, l: nat) {
    && Idle(d.journal) && d.journal.lease == Some(l)
    && Checkout in d.fs && d.fs[Checkout].git.Some? && Registered(d.fs, d.fs[Checkout].git.value)
    && (d.journal.phase == Some(Building) || d.journal.restore == Some(Linked))
  }

  /** The condition under which each durable step is permitted. */
  predicate Allowed(s: Step, d: Disk) {
    var fs, j := d.fs, d.journal;
    match s
    case BeginStale(source, root) =>
      Idle(j) && Registered(fs, source) && !PointsAt(fs, source) && FreshRoot(d, root)
    case MoveDir(from, to) =>
      && from in fs && to !in fs
      && (|| (j.stale == Some(Move(from, to)) && Registered(fs, from) && to.Kept?)
          || (j.rename == Some(Move(from, to)) && Registered(fs, from) && to == CANONICAL
              && (PointsAt(fs, from) || PointsAt(fs, to)))
          || (j.archive.Some? && j.archive.value.admin.Admin? && Move(from, to) in ArchiveMoves(j.archive.value)))
    case SaveManifest(root) =>
      || (j.archive.Some? && root == j.archive.value.root)
      || (j.stale.Some? && j.stale.value.target == Kept(root, StaleSlot))
    case EndStale => j.stale.Some? && j.stale.value.source.Admin? && Moved(fs, j.stale.value)
    case BeginRename(source) =>
      Idle(j) && Registered(fs, source) && source != CANONICAL && CANONICAL !in fs && PointsAt(fs, source)
    case Point(dir, to) =>
      && dir in fs
      && (|| (dir == Checkout && to == CANONICAL && j.rename.Some? && Moved(fs, j.rename.value)
              && j.rename.value.target == to && Registered(fs, to))
          || (dir == Checkout && Idle(j) && j.lease.Some? && j.restore == Some(CheckingOut) && Registered(fs, to))
          || (j.archive.Some? && AllMoved(fs, j.archive.value)
              && dir == Kept(j.archive.value.root, CheckoutSlot) && to == KeptAdmin(j.archive.value)))
    case EndRename => j.rename.Some? && Moved(fs, j.rename.value) && PointsAt(fs, j.rename.value.target)
    case BeginArchive(root, admin, lease) =>
      && Idle(j) && Registered(fs, admin) && Checkout in fs && FreshRoot(d, root) && lease == j.lease
      && (lease.Some? ==> Lease(lease.value) in fs)
    case SetBacklink(dir, to) =>
      && dir in fs && j.archive.Some? && AllMoved(fs, j.archive.value)
      && to == Kept(j.archive.value.root, CheckoutSlot)
      && (dir == Kept(j.archive.value.root, AdminSlot)
          || (j.archive.value.lease.Some? && dir == Kept(j.archive.value.root, LeaseSlot)))
    case SetCommon(dir) =>
      && dir in fs && j.archive.Some? && AllMoved(fs, j.archive.value)
      && dir == Kept(j.archive.value.root, AdminSlot)
    case WriteReadme(root) => j.archive.Some? && root == j.archive.value.root
    case EndArchive => j.archive.Some? && AllMoved(fs, j.archive.value)
    case BeginLease(lease, admin) =>
      Idle(j) && j.lease.None? && Registered(fs, admin) && PointsAt(fs, admin) && Lease(lease) !in fs
    case MakeLease(lease) =>
      Idle(j) && j.lease == Some(lease) && j.phase == Some(Building) && Lease(lease) !in fs
    case MarkReady(lease, admin) =>
      && Idle(j) && j.lease == Some(lease) && j.phase == Some(Building)
      && Registered(fs, admin) && PointsAt(fs, admin) && LeaseMatches(fs, lease, admin)
    case StartRestore => Idle(j) && j.lease.Some? && j.phase != Some(Building) && j.restore != Some(Linked)
    case MarkLinked =>
      && Idle(j) && j.lease.Some? && j.restore == Some(CheckingOut)
      && Checkout in fs && fs[Checkout].git.Some? && Registered(fs, fs[Checkout].git.value)
    case Erode(lease) => MayDelete(d, lease) && Lease(lease) in fs
    case RemoveLease(lease) => MayDelete(d, lease) && Lease(lease) in fs
    case EndLease => j.lease.Some? && MayDelete(d, j.lease.value) && Lease(j.lease.value) !in fs
    case NoteAdmin(admin) => true
    case AddAdmin(admin) => Idle(j) && j.lease.None? && admin.Admin? && admin !in fs && Checkout !in fs
    case AddCheckout(admin) => Idle(j) && j.lease.None? && Registered(fs, admin) && Checkout !in fs
    case FillLease(lease, admin) =>
      Idle(j) && j.lease == Some(lease) && j.phase == Some(Building) && Lease(lease) in fs
    case Swap(lease) =>
      && Idle(j) && j.lease == Some(lease) && j.phase == Some(Ready) && j.restore.None?
      && Lease(lease) in fs && Checkout in fs
  }

  /** The effect of each durable step. */
  function Apply(s: Step, d: Disk): Disk
    requires Allowed(s, d)
  {
    var fs, j := d.fs, d.journal;
    match s
    case BeginStale(source, root) => d.(journal := j.(stale := Some(Move(source, Kept(root, StaleSlot)))))
    case MoveDir(from, to) => d.(fs := (fs - {from})[to := fs[from]])
    case SaveManifest(root) => d.(manifests := d.manifests[root := j])
    case EndStale => d.(journal := j.(stale := None))
    case BeginRename(source) => d.(journal := j.(rename := Some(Move(source, CANONICAL))))
    case Point(dir, to) => d.(fs := fs[dir := fs[dir].(git := Some(to))])
    case EndRename => d.(journal := j.(rename := None))
    case BeginArchive(root, admin, lease) => d.(journal := j.(archive := Some(Archive(root, admin, lease))))
    case SetBacklink(dir, to) => d.(fs := fs[dir := fs[dir].(gitdir := Some(to))])
    case SetCommon(dir) => d.(fs := fs[dir := fs[dir].(commondir := Some(Absolute))])
    case WriteReadme(root) => d.(readmes := d.readmes + {root})
    case EndArchive => d.(journal := j.(archive := None, lease := None, restore := None))
    case BeginLease(lease, admin) =>
      d.(journal := j.(lease := Some(lease), admin := Some(admin), phase := Some(Building)))
    case MakeLease(lease) =>
      d.(fs := fs[Lease(lease) := Node(d.made, None, None, None, None, false)], made := d.made + 1)
    case MarkReady(lease, admin) => d.(journal := j.(admin := Some(admin), phase := Some(Ready)))
    case StartRestore => d.(journal := j.(restore := Some(CheckingOut)))
    case MarkLinked => d.(journal := j.(restore := Some(Linked)))
    case Erode(lease) => d.(fs := fs[Lease(lease) := Node(fs[Lease(lease)].id, None, None, None, None, false)])
    case RemoveLease(lease) => d.(fs := fs - {Lease(lease)})
    case EndLease =>
      d.(journal := if j.phase == Some(Building) then j.(lease := None, phase := None)
                    else j.(lease := None, restore := None))
    case NoteAdmin(admin) => d.(journal := j.(admin := Some(admin)))
    case AddAdmin(admin) =>
      d.(fs := fs[admin := Node(d.made, None, Some(Checkout), Some(Relative), None, false)], made := d.made + 1)
    case AddCheckout(admin) =>
      d.(fs := fs[Checkout := Node(d.made, Some(admin), None, None, None, false)], made := d.made + 1)
    case FillLease(lease, admin) =>
      d.(fs := fs[Lease(lease) := fs[Lease(lease)].(origin := Some(admin), gitdir := Some(Checkout),
                                                    commondir := Some(Absolute))])
    case Swap(lease) => d.(fs := fs[Checkout := fs[Checkout].(git := Some(Lease(lease)))])
  }

  /** Every step of the log is permitted where it happens. */
  predicate Legal(log: seq<Step>, d: Disk)
    decreases |log|, 0
  {
    log == [] || (Legal(log[..|log| - 1], d) && Allowed(log[|log| - 1], Exec(log[..|log| - 1], d)))
  }

  /** The disk after a log of durable steps; a crash leaves the disk of a prefix. */
  function Exec(log: seq<Step>, d: Disk): Disk
    requires Legal(log, d)
    decreases |log|, 1
  {
    if log == [] then d else Apply(log[|log| - 1], Exec(log[..|log| - 1], d))
  }

  // The proofs about runs below and in the other modules use only these four facts.

  lemma LegalNil(d: Disk)
    ensures Legal([], d) && Exec([], d) == d
  {
  }

  lemma LegalSnoc(log: seq<Step>, s: Step, d: Disk)
    requires Legal(log, d) && Allowed(s, Exec(log, d))
    ensures Legal(log + [s], d) && Exec(log + [s], d) == Apply(s, Exec(log, d))
  {
    hide Allowed, Apply;
    assert (log + [s])[..|log + [s]| - 1] == log;
  }

  lemma LegalOne(s: Step, d: Disk)
    requires Allowed(s, d)
    ensures Legal([s], d) && Exec([s], d) == Apply(s, d)
  {
    hide Allowed, Apply;
    assert [s][..0] == [];
  }

  lemma LegalFront(log: seq<Step>, d: Disk)
    requires Legal(log, d) && log != []
    ensures var last := |log| - 1;
      && Legal(log[..last], d) && Allowed(log[last], Exec(log[..last], d))
      && Exec(log, d) == Apply(log[last], Exec(log[..last], d))
  {
    hide Allowed, Apply;
  }

  lemma {:induction false} LegalPrefix(log: seq<Step>, k: nat, d: Disk)
    requires Legal(log, d) && k <= |log|
    ensures Legal(log[..k], d)
  {
    hide Legal, Exec, Allowed, Apply;
    if k < |log| {
      LegalFront(log, d);
      LegalPrefix(log[..|log| - 1], k, d);
      assert log[..|log| - 1][..k] == log[..k];
    } else {
      assert log[..k] == log;
    }
  }

  lemma {:induction false} LegalConcat(a: seq<Step>, b: seq<Step>, d: Disk)
    requires Legal(a, d) && Legal(b, Exec(a, d))
    ensures Legal(a + b, d) && Exec(a + b, d) == Exec(b, Exec(a, d))
    decreases |b|
  {
    hide Legal, Exec, Allowed, Apply;
    if b == [] {
      LegalNil(Exec(a, d));
      assert a + b == a;
    } else {
      var front, last := b[..|b| - 1], b[|b| - 1];
      LegalFront(b, Exec(a, d));
      LegalConcat(a, front, d);
      LegalSnoc(a + front, last, d);
      assert a + b == (a + front) + [last];
    }
  }

  /** What follows a prefix of a run is a run from where the prefix ended. */
  lemma {:induction false} LegalRest(a: seq<Step>, b: seq<Step>, d: Disk)
    requires Legal(a + b, d)
    ensures Legal(a, d) && Legal(b, Exec(a, d)) && Exec(a + b, d) == Exec(b, Exec(a, d))
    decreases |b|
  {
    hide Legal, Exec, Allowed, Apply;
    if b == [] {
      assert a + b == a;
      LegalNil(Exec(a, d));
    } else {
      var front, last := b[..|b| - 1], b[|b| - 1];
      LegalFront(a + b, d);
      assert (a + b)[..|a + b| - 1] == a + front;
      LegalRest(a, front, d);
      LegalSnoc(front, last, Exec(a, d));
      assert b == front + [last];
    }
  }
}

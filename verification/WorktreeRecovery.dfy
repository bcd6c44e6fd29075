/**
  Convergence of lease recovery.  `Goal` says what the disk must become once a recorded lease has
  been recovered, for given answers of Git; `Remaining` is what the code does next.  Stopping it
  after any step, any number of times, and starting again with the same answers reaches the goal.
 */
module WorktreeRecovery {
  import opened Wrappers
  import opened WorktreeDisk
  import opened WorktreeSafety
  import opened WorktreeConvergence

  /** What Git answers during one operation. */
  datatype Git = Git(
    quiet: bool,      // both diffs of a linked checkout
    clean: bool,      // both diffs through the lease
    restored: bool,   // the checkout of the base
    added: Added,     // the new worktree
    damaged: bool,    // unreadable objects, or an unfinished operation
    settled: bool)    // the object walk, the common directory and the startup cleaning

  /** How far `git worktree add` came. */
  datatype Added = Nothing | AdminOnly | Whole

  /** A lease that was never activated, or whose checkout has already been linked back. */
  predicate Unfinished(j: Journal) {
    j.phase == Some(Building) || j.restore == Some(Linked)
  }

  /** This administration, and no other, is registered for the checkout. */
  ghost predicate SoleOwner(fs: map<Path, Node>, admin: Path) {
    Registered(fs, admin) && forall a: Path | Registered(fs, a) :: a == admin
  }

  /** The lease is dropped; any other is archived with its checkout. */
  predicate Drops(j: Journal, git: Git) {
    Unfinished(j) || (git.clean && git.restored)
  }

  /** Recovery of the recorded lease is not refused. */
  predicate Recoverable(d: Disk, admin: Path, git: Git) {
    && d.journal.lease.Some?
    && var l := d.journal.lease.value;
    if Unfinished(d.journal) then PointsAt(d.fs, admin) && (d.journal.phase == Some(Building) || git.quiet)
    else
      && LeaseMatches(d.fs, l, admin) && (PointsAt(d.fs, admin) || PointsAt(d.fs, Lease(l)))
      && (git.clean && git.restored ==> git.quiet)
  }

  // ----- What the recovered disk must be -----

  /** The checkout is linked to its administration, and the lease is gone and forgotten. */
  function Dropped(d: Disk, admin: Path): Disk
    requires d.journal.lease.Some? && Checkout in d.fs
  {
    var j := d.journal;
    d.(fs := (d.fs - {Lease(j.lease.value)})[Checkout := d.fs[Checkout].(git := Some(admin))],
       journal := if j.phase == Some(Building) then j.(lease := None, phase := None)
                  else j.(lease := None, restore := None))
  }

  /** The disk on which the retention of a lease that cannot be restored begins. */
  function Attempted(d: Disk, git: Git): Disk {
    if git.clean then d.(journal := d.journal.(restore := Some(CheckingOut))) else d
  }

  function RecoveryGoal(d: Disk, admin: Path, git: Git, root: nat): Disk
    requires Safe(d) && Idle(d.journal) && Recoverable(d, admin, git) && Registered(d.fs, admin)
    requires Drops(d.journal, git) || FreshRoot(d, root)
  {
    if Drops(d.journal, git) then Dropped(d, admin)
    else
      var begun := Attempted(d, git);
      AttemptIsSafe(d, git, root, admin);
      Settled(Apply(BeginArchive(root, admin, d.journal.lease), begun))
  }

  lemma AttemptIsSafe(d: Disk, git: Git, root: nat, admin: Path)
    requires Safe(d) && Idle(d.journal) && Recoverable(d, admin, git) && !Unfinished(d.journal)
    requires Registered(d.fs, admin) && FreshRoot(d, root)
    ensures var begun := Attempted(d, git);
      && Safe(begun) && Allowed(BeginArchive(root, admin, d.journal.lease), begun)
      && Safe(Apply(BeginArchive(root, admin, d.journal.lease), begun))
  {
    var begun := Attempted(d, git);
    assert Allowed(StartRestore, d);
    StepKeepsSafe(StartRestore, d);
    assert git.clean ==> begun == Apply(StartRestore, d);
    assert Allowed(BeginArchive(root, admin, d.journal.lease), begun);
    hide Safe, Allowed, Apply;
    StepKeepsSafe(BeginArchive(root, admin, d.journal.lease), begun);
  }

  // ----- What the code does next -----

  function Deletion(d: Disk, l: nat): seq<Step> {
    (if Lease(l) in d.fs then [Erode(l), RemoveLease(l)] else []) + [EndLease]
  }

  function Linking(admin: Path): seq<Step> {
    [StartRestore, Point(Checkout, admin), MarkLinked]
  }

  // ----- Deletion -----

  predicate Deletable(d: Disk, admin: Path) {
    && Safe(d) && Idle(d.journal) && d.journal.lease.Some? && Unfinished(d.journal)
    && PointsAt(d.fs, admin) && Registered(d.fs, admin)
  }

  lemma ErodeStep(d: Disk, admin: Path, l: nat)
    requires Deletable(d, admin) && d.journal.lease == Some(l) && Lease(l) in d.fs
    ensures Allowed(Erode(l), d)
    ensures var e := Apply(Erode(l), d);
      Deletable(e, admin) && Dropped(e, admin) == Dropped(d, admin) && Lease(l) in e.fs && e.journal == d.journal
  {
    assert Allowed(Erode(l), d);
    StepKeepsSafe(Erode(l), d);
    hide Safe;
    var e := Apply(Erode(l), d);
    assert Dropped(e, admin).fs == Dropped(d, admin).fs;
  }

  lemma RemoveStep(d: Disk, admin: Path, l: nat)
    requires Deletable(d, admin) && d.journal.lease == Some(l) && Lease(l) in d.fs
    ensures Allowed(RemoveLease(l), d)
    ensures var e := Apply(RemoveLease(l), d);
      Deletable(e, admin) && Dropped(e, admin) == Dropped(d, admin) && Lease(l) !in e.fs && e.journal == d.journal
  {
    assert Allowed(RemoveLease(l), d);
    StepKeepsSafe(RemoveLease(l), d);
    hide Safe;
    var e := Apply(RemoveLease(l), d);
    assert Dropped(e, admin).fs == Dropped(d, admin).fs;
  }

  lemma EndStep(d: Disk, admin: Path, l: nat)
    requires Deletable(d, admin) && d.journal.lease == Some(l) && Lease(l) !in d.fs
    ensures Allowed(EndLease, d) && Apply(EndLease, d) == Dropped(d, admin) && Safe(Dropped(d, admin))
  {
    assert Allowed(EndLease, d);
    StepKeepsSafe(EndLease, d);
    hide Safe;
    assert Dropped(d, admin).fs == d.fs;
  }

  /** Every disk that an interrupted deletion leaves can be deleted further, to the same end. */
  lemma DeletionRuns(d: Disk, admin: Path, k: nat)
    requires Deletable(d, admin) && k <= |Deletion(d, d.journal.lease.value)|
    ensures var l := d.journal.lease.value;
      && Legal(Deletion(d, l)[..k], d)
      && var c := Exec(Deletion(d, l)[..k], d);
         if k == |Deletion(d, l)| then c == Dropped(d, admin) && Safe(c)
         else Deletable(c, admin) && Dropped(c, admin) == Dropped(d, admin) && c.journal == d.journal
  {
    hide Legal, Exec, Allowed, Apply, Deletable, Dropped;
    LeaseIsOut(d, admin);
    var l := d.journal.lease.value;
    LegalNil(d);
    if Lease(l) in d.fs {
      ErodeStep(d, admin, l);
      LegalOne(Erode(l), d);
      var e1 := Apply(Erode(l), d);
      RemoveStep(e1, admin, l);
      LegalSnoc([Erode(l)], RemoveLease(l), d);
      var e2 := Apply(RemoveLease(l), e1);
      EndStep(e2, admin, l);
      LegalSnoc([Erode(l)] + [RemoveLease(l)], EndLease, d);
      var script := Deletion(d, l);
      assert script[..0] == [] && script[..1] == [Erode(l)] && script[..2] == [Erode(l)] + [RemoveLease(l)];
      assert script[..3] == [Erode(l)] + [RemoveLease(l)] + [EndLease];
    } else {
      EndStep(d, admin, l);
      LegalOne(EndLease, d);
      assert Deletion(d, l)[..0] == [] && Deletion(d, l)[..1] == [EndLease];
    }
  }

  lemma LeaseIsOut(d: Disk, admin: Path)
    requires Deletable(d, admin)
    ensures d.journal.lease.Some?
  {
  }

  // ----- Linking back -----

  predicate Linkable(d: Disk, admin: Path, git: Git) {
    && Safe(d) && Idle(d.journal) && Registered(d.fs, admin)
    && Recoverable(d, admin, git) && !Unfinished(d.journal)
  }

  /** Starting to restore changes nothing that recovery looks at. */
  lemma StartStep(d: Disk, admin: Path, git: Git)
    requires Linkable(d, admin, git)
    ensures Allowed(StartRestore, d)
    ensures var e := Apply(StartRestore, d);
      && Linkable(e, admin, git) && e.fs == d.fs && e.journal.restore == Some(CheckingOut)
      && Dropped(e, admin) == Dropped(d, admin) && Attempted(e, git.(clean := true)) == e
      && (git.clean ==> Attempted(d, git) == e) && e.journal.lease == d.journal.lease
  {
    assert Allowed(StartRestore, d);
    StepKeepsSafe(StartRestore, d);
    hide Safe;
  }

  lemma PointBack(d: Disk, admin: Path, git: Git)
    requires Linkable(d, admin, git) && d.journal.restore == Some(CheckingOut)
    ensures Allowed(Point(Checkout, admin), d)
    ensures var e := Apply(Point(Checkout, admin), d);
      && Linkable(e, admin, git) && e.journal == d.journal && PointsAt(e.fs, admin)
      && Dropped(e, admin) == Dropped(d, admin)
  {
    assert Allowed(Point(Checkout, admin), d);
    StepKeepsSafe(Point(Checkout, admin), d);
    hide Safe;
    var e := Apply(Point(Checkout, admin), d);
    assert Dropped(e, admin).fs == Dropped(d, admin).fs;
  }

  lemma LinkStep(d: Disk, admin: Path, git: Git)
    requires Linkable(d, admin, git) && d.journal.restore == Some(CheckingOut) && PointsAt(d.fs, admin)
    ensures Allowed(MarkLinked, d)
    ensures var e := Apply(MarkLinked, d);
      && Deletable(e, admin) && e.fs == d.fs && e.journal == d.journal.(restore := Some(Linked))
      && Dropped(e, admin) == Dropped(d, admin)
  {
    assert Allowed(MarkLinked, d);
    StepKeepsSafe(MarkLinked, d);
    hide Safe;
  }

  // ----- The whole recovery -----

  /** Recovery from this disk, or the retention it has begun, is not refused. */
  predicate Resumes(d: Disk, admin: Path, git: Git, root: nat) {
    && Safe(d)
    && if Pending(d) then d.journal.archive.Some?
       else d.journal.lease.Some? ==>
         && Recoverable(d, admin, git) && Registered(d.fs, admin)
         && (Drops(d.journal, git) || FreshRoot(d, root))
  }

  function Goal(d: Disk, admin: Path, git: Git, root: nat): Disk
    requires Resumes(d, admin, git, root)
  {
    if Pending(d) then Settled(d)
    else if d.journal.lease.None? then d
    else RecoveryGoal(d, admin, git, root)
  }

  function Remaining(d: Disk, admin: Path, git: Git, root: nat): seq<Step>
    requires Resumes(d, admin, git, root)
  {
    var j := d.journal;
    if Pending(d) then Script(d)
    else if j.lease.None? then []
    else if Unfinished(j) then Deletion(d, j.lease.value)
    else if git.clean && git.restored then Linking(admin) + Deletion(d, j.lease.value)
    else
      (if git.clean then [StartRestore] else []) + [BeginArchive(root, admin, j.lease)]
      + ArchiveScript(Attempted(d, git), Archive(root, admin, j.lease))
  }

  /** A disk that a stopped recovery leaves: it resumes, towards the same goal. */
  ghost predicate Continues(c: Disk, d: Disk, admin: Path, git: Git, root: nat)
    requires Resumes(d, admin, git, root)
  {
    Resumes(c, admin, git, root) && Goal(c, admin, git, root) == Goal(d, admin, git, root)
  }

  lemma DropContinues(c: Disk, d: Disk, admin: Path, git: Git, root: nat)
    requires Resumes(d, admin, git, root) && !Pending(d) && d.journal.lease.Some? && Drops(d.journal, git)
    requires
      || (c == Dropped(d, admin) && Safe(c))
      || (Deletable(c, admin) && Dropped(c, admin) == Dropped(d, admin)
          && (c.journal == d.journal || git.quiet))
      || (Linkable(c, admin, git) && git.clean && git.restored && Dropped(c, admin) == Dropped(d, admin))
    ensures Continues(c, d, admin, git, root)
  {
    hide Safe, Settled;
  }

  /** Stopped while it deletes an unfinished lease. */
  lemma DeletionContinues(d: Disk, admin: Path, git: Git, root: nat, k: nat)
    requires Resumes(d, admin, git, root) && !Pending(d) && d.journal.lease.Some? && Unfinished(d.journal)
    requires k <= |Remaining(d, admin, git, root)|
    ensures var steps := Remaining(d, admin, git, root);
      && Legal(steps[..k], d) && Continues(Exec(steps[..k], d), d, admin, git, root)
      && (k == |steps| ==> Exec(steps[..k], d) == Goal(d, admin, git, root))
  {
    assert Deletable(d, admin);
    hide Legal, Exec, Safe, Deletable, Dropped;
    DeletionRuns(d, admin, k);
    DropContinues(Exec(Deletion(d, d.journal.lease.value)[..k], d), d, admin, git, root);
  }

  /** The disks between a clean lease and its linked checkout. */
  lemma LinkingRuns(d: Disk, admin: Path, git: Git, k: nat)
    requires Linkable(d, admin, git) && k <= 3
    ensures Legal(Linking(admin)[..k], d)
    ensures var c := Exec(Linking(admin)[..k], d);
      && (if k < 3 then Linkable(c, admin, git)
          else Deletable(c, admin) && c.journal.lease == d.journal.lease)
      && Checkout in d.fs && d.journal.lease.Some? && Checkout in c.fs && c.journal.lease.Some?
      && Dropped(c, admin) == Dropped(d, admin)
      && (Lease(d.journal.lease.value) in c.fs <==> Lease(d.journal.lease.value) in d.fs)
  {
    HasCheckout(d, admin, git);
    StartStep(d, admin, git);
    LegalNil(d);
    LegalOne(StartRestore, d);
    var e1 := Apply(StartRestore, d);
    PointBack(e1, admin, git);
    LegalSnoc([StartRestore], Point(Checkout, admin), d);
    var e2 := Apply(Point(Checkout, admin), e1);
    LinkStep(e2, admin, git);
    LegalSnoc([StartRestore] + [Point(Checkout, admin)], MarkLinked, d);
    hide Legal, Exec, Safe, Linkable, Deletable, Allowed, Dropped;
    var all := Linking(admin);
    assert all[..0] == [] && all[..1] == [StartRestore] && all[..2] == [StartRestore] + [Point(Checkout, admin)];
    assert all[..3] == [StartRestore] + [Point(Checkout, admin)] + [MarkLinked];
  }

  lemma HasCheckout(d: Disk, admin: Path, git: Git)
    requires Linkable(d, admin, git)
    ensures Checkout in d.fs && d.journal.lease.Some? && Lease(d.journal.lease.value) in d.fs
  {
  }

  /** Stopped while it links a clean lease back and deletes it. */
  lemma LinkingContinues(d: Disk, admin: Path, git: Git, root: nat, k: nat)
    requires Resumes(d, admin, git, root) && !Pending(d) && d.journal.lease.Some?
    requires !Unfinished(d.journal) && git.clean && git.restored
    requires k <= |Remaining(d, admin, git, root)|
    ensures var steps := Remaining(d, admin, git, root);
      && Legal(steps[..k], d) && Continues(Exec(steps[..k], d), d, admin, git, root)
      && (k == |steps| ==> Exec(steps[..k], d) == Goal(d, admin, git, root))
  {
    hide *;
    LinkingSteps(d, admin, git, root);
    var l, link := d.journal.lease.value, Linking(admin);
    var deletion := Deletion(d, l);
    if k <= 3 {
      LinkingRuns(d, admin, git, k);
      assert (link + deletion)[..k] == link[..k];
      DropContinues(Exec(link[..k], d), d, admin, git, root);
    } else {
      LinkingRuns(d, admin, git, 3);
      assert link[..3] == link;
      DeletionFollows(d, link, admin, git, root, k - 3);
      assert (link + deletion)[..k] == link + deletion[..k - 3];
    }
  }

  lemma LinkingSteps(d: Disk, admin: Path, git: Git, root: nat)
    requires Resumes(d, admin, git, root) && !Pending(d) && d.journal.lease.Some?
    requires !Unfinished(d.journal) && git.clean && git.restored
    ensures Linkable(d, admin, git) && git.quiet && Drops(d.journal, git) && |Linking(admin)| == 3
    ensures |Deletion(d, d.journal.lease.value)| >= 1 && Checkout in d.fs
    ensures Remaining(d, admin, git, root) == Linking(admin) + Deletion(d, d.journal.lease.value)
    ensures Goal(d, admin, git, root) == Dropped(d, admin)
  {
    hide Safe;
  }

  lemma DeletionFollows(d: Disk, link: seq<Step>, admin: Path, git: Git, root: nat, n: nat)
    requires Resumes(d, admin, git, root) && !Pending(d) && d.journal.lease.Some? && Drops(d.journal, git) && git.quiet
    requires Legal(link, d) && Checkout in d.fs && Goal(d, admin, git, root) == Dropped(d, admin)
    requires var c := Exec(link, d);
      && Deletable(c, admin) && c.journal.lease == d.journal.lease && Checkout in c.fs
      && Dropped(c, admin) == Dropped(d, admin)
      && (Lease(d.journal.lease.value) in c.fs <==> Lease(d.journal.lease.value) in d.fs)
    requires n <= |Deletion(d, d.journal.lease.value)|
    ensures var deletion := Deletion(d, d.journal.lease.value);
      && Legal(link + deletion[..n], d)
      && Continues(Exec(link + deletion[..n], d), d, admin, git, root)
      && (n == |deletion| ==> Exec(link + deletion[..n], d) == Goal(d, admin, git, root))
  {
    var linked, deletion := Exec(link, d), Deletion(d, d.journal.lease.value);
    assert Deletion(linked, d.journal.lease.value) == deletion;
    hide *;
    DeletionRuns(linked, admin, n);
    LegalConcat(link, deletion[..n], d);
    DropContinues(Exec(link + deletion[..n], d), d, admin, git, root);
  }

  /** Stopped while it finishes a retention. */
  lemma ArchiveStops(b: Disk, n: nat)
    requires Safe(b) && b.journal.archive.Some? && n <= |Script(b)|
    ensures var c := Script(b)[..n];
      && Legal(c, b) && Safe(Exec(c, b)) && Settled(Exec(c, b)) == Settled(b)
      && (if n < |Script(b)| then Exec(c, b).journal == b.journal else Exec(c, b) == Settled(b))
    ensures Idle(Settled(b).journal) && Settled(b).journal.lease.None?
  {
    hide Allowed, Apply, Legal, Exec, Safe, Settled, Script, ArchiveMoves;
    SettledForgets(b);
    CrashPoint(b, n);
    ScriptSettles(b);
    if n < |Script(b)| {
      assert Script(b)[..n] == Script(b)[..|Script(b)| - 1][..n];
      WorkRun(Script(b)[..n], b);
    } else {
      assert Script(b)[..n] == Script(b);
    }
  }

  lemma SettledForgets(b: Disk)
    requires Safe(b) && b.journal.archive.Some?
    ensures Pending(b) && Idle(Settled(b).journal) && Settled(b).journal.lease.None?
  {
    hide ArchivedTree;
  }

  lemma ArchiveContinues(b: Disk, admin: Path, git: Git, root: nat, n: nat)
    requires Safe(b) && b.journal.archive.Some? && n <= |Script(b)|
    ensures Legal(Script(b)[..n], b) && Resumes(b, admin, git, root)
    ensures var c := Exec(Script(b)[..n], b);
      && Continues(c, b, admin, git, root)
      && (n == |Script(b)| ==> c == Goal(b, admin, git, root))
  {
    ArchiveStops(b, n);
    SettledForgets(b);
    hide Legal, Exec, Safe, Settled, Script;
  }

  /** The disk on which the retention of the unit has been journalled. */
  function Begun(d: Disk, admin: Path, git: Git, root: nat): Disk
    requires Linkable(d, admin, git) && FreshRoot(d, root)
  {
    AttemptIsSafe(d, git, root, admin);
    Apply(BeginArchive(root, admin, d.journal.lease), Attempted(d, git))
  }

  lemma RetentionState(d: Disk, admin: Path, git: Git, root: nat)
    requires Linkable(d, admin, git) && FreshRoot(d, root) && !Drops(d.journal, git)
    ensures Resumes(d, admin, git, root)
    ensures var b := Begun(d, admin, git, root);
      && Safe(b) && b.journal.archive.Some? && Goal(d, admin, git, root) == Settled(b)
      && Script(b) == ArchiveScript(Attempted(d, git), Archive(root, admin, d.journal.lease))
  {
    AttemptIsSafe(d, git, root, admin);
    hide Legal, Exec, Safe, Settled;
  }

  lemma AttemptContinues(d: Disk, admin: Path, git: Git, root: nat)
    requires Linkable(d, admin, git) && FreshRoot(d, root) && !Drops(d.journal, git)
    ensures Resumes(d, admin, git, root) && Continues(Attempted(d, git), d, admin, git, root)
  {
    StartStep(d, admin, git);
    hide Safe, Settled;
    assert git.clean ==> git.(clean := true) == git;
  }

  lemma BeginsRetention(d: Disk, admin: Path, git: Git, root: nat)
    requires Linkable(d, admin, git) && FreshRoot(d, root) && !Drops(d.journal, git)
    ensures var first := if git.clean then [StartRestore] else [];
      && Legal(first, d) && Exec(first, d) == Attempted(d, git)
      && Legal(first + [BeginArchive(root, admin, d.journal.lease)], d)
      && Exec(first + [BeginArchive(root, admin, d.journal.lease)], d) == Begun(d, admin, git, root)
  {
    assert !Unfinished(d.journal);
    hide Legal, Exec, Safe, Settled, Allowed, Apply;
    AttemptIsSafe(d, git, root, admin);
    StartStep(d, admin, git);
    var first := if git.clean then [StartRestore] else [];
    if git.clean {
      LegalOne(StartRestore, d);
    } else {
      LegalNil(d);
    }
    LegalSnoc(first, BeginArchive(root, admin, d.journal.lease), d);
  }

  /** Stopped on the way to a retention. */
  lemma RetentionContinues(d: Disk, admin: Path, git: Git, root: nat, k: nat)
    requires Resumes(d, admin, git, root) && !Pending(d) && d.journal.lease.Some? && !Drops(d.journal, git)
    requires k <= |Remaining(d, admin, git, root)|
    ensures var steps := Remaining(d, admin, git, root);
      && Legal(steps[..k], d) && Continues(Exec(steps[..k], d), d, admin, git, root)
      && (k == |steps| ==> Exec(steps[..k], d) == Goal(d, admin, git, root))
  {
    hide *;
    RetentionSteps(d, admin, git, root);
    RetentionState(d, admin, git, root);
    AttemptContinues(d, admin, git, root);
    BeginsRetention(d, admin, git, root);
    var first := if git.clean then [StartRestore] else [];
    var begin := first + [BeginArchive(root, admin, d.journal.lease)];
    var b := Begun(d, admin, git, root);
    var steps := Remaining(d, admin, git, root);
    if k < |begin| {
      LegalNil(d);
      ContinuesItself(d, admin, git, root);
      assert steps[..k] == if k == 0 then [] else first;
    } else {
      RetentionResumes(d, begin, b, admin, git, root, k - |begin|);
      assert steps[..k] == begin + Script(b)[..k - |begin|];
    }
  }

  lemma RetentionResumes(d: Disk, begin: seq<Step>, b: Disk, admin: Path, git: Git, root: nat, n: nat)
    requires Resumes(d, admin, git, root) && Legal(begin, d) && Exec(begin, d) == b
    requires Safe(b) && b.journal.archive.Some? && Goal(d, admin, git, root) == Settled(b) && n <= |Script(b)|
    ensures var c := begin + Script(b)[..n];
      && Legal(c, d) && Continues(Exec(c, d), d, admin, git, root)
      && (n == |Script(b)| ==> Exec(c, d) == Goal(d, admin, git, root))
  {
    hide *;
    ArchiveContinues(b, admin, git, root, n);
    LegalConcat(begin, Script(b)[..n], d);
    ContinuesVia(Exec(Script(b)[..n], b), b, d, admin, git, root);
  }

  lemma RetentionSteps(d: Disk, admin: Path, git: Git, root: nat)
    requires Resumes(d, admin, git, root) && !Pending(d) && d.journal.lease.Some? && !Drops(d.journal, git)
    ensures Linkable(d, admin, git) && FreshRoot(d, root)
    ensures Remaining(d, admin, git, root) ==
      (if git.clean then [StartRestore] else []) + [BeginArchive(root, admin, d.journal.lease)]
      + ArchiveScript(Attempted(d, git), Archive(root, admin, d.journal.lease))
  {
    hide Safe, ArchiveScript;
  }

  lemma ContinuesItself(d: Disk, admin: Path, git: Git, root: nat)
    requires Resumes(d, admin, git, root)
    ensures Continues(d, d, admin, git, root)
  {
  }

  lemma ContinuesVia(c: Disk, b: Disk, d: Disk, admin: Path, git: Git, root: nat)
    requires Resumes(d, admin, git, root) && Resumes(b, admin, git, root) && Continues(c, b, admin, git, root)
    requires Safe(b) && b.journal.archive.Some? && Goal(d, admin, git, root) == Settled(b)
    ensures Continues(c, d, admin, git, root) && Goal(b, admin, git, root) == Settled(b)
  {
    SettledForgets(b);
    hide Safe, Settled;
  }

  /** Stopped anywhere, recovery can be resumed and keeps its goal; unstopped, it reaches it. */
  lemma RecoveryContinues(d: Disk, admin: Path, git: Git, root: nat, k: nat)
    requires Resumes(d, admin, git, root) && k <= |Remaining(d, admin, git, root)|
    ensures var steps := Remaining(d, admin, git, root);
      && Legal(steps[..k], d) && Continues(Exec(steps[..k], d), d, admin, git, root)
      && (k == |steps| ==> Exec(steps[..k], d) == Goal(d, admin, git, root))
  {
    if Pending(d) {
      ArchiveContinues(d, admin, git, root, k);
    } else if d.journal.lease.None? {
      LegalNil(d);
      assert Remaining(d, admin, git, root)[..k] == [];
    } else if Unfinished(d.journal) {
      DeletionContinues(d, admin, git, root, k);
    } else if git.clean && git.restored {
      LinkingContinues(d, admin, git, root, k);
    } else {
      RetentionContinues(d, admin, git, root, k);
    }
    hide Legal, Exec, Safe, Settled, Script, Goal, Continues;
  }

  /** The disk left when recovery is stopped after so many steps, once per element. */
  ghost function Stopped(d: Disk, admin: Path, git: Git, root: nat, stops: seq<nat>): (c: Disk)
    requires Resumes(d, admin, git, root)
    ensures Continues(c, d, admin, git, root)
    decreases |stops|
  {
    if stops == [] then d
    else
      var steps := Remaining(d, admin, git, root);
      var n := if stops[0] < |steps| then stops[0] else |steps|;
      RecoveryContinues(d, admin, git, root, n);
      Stopped(Exec(steps[..n], d), admin, git, root, stops[1..])
  }

  /**
    Stop recovery after any step of restoring, linking, deleting or archiving, any number of times,
    and start it again with the same answers of Git: it is not refused, and the last attempt leaves
    exactly the disk that an uninterrupted first attempt would have left.
   */
  lemma RecoveryConverges(d: Disk, admin: Path, git: Git, root: nat, stops: seq<nat>)
    requires Resumes(d, admin, git, root)
    ensures var c := Stopped(d, admin, git, root, stops);
      && Legal(Remaining(c, admin, git, root), c) && Legal(Remaining(d, admin, git, root), d)
      && Exec(Remaining(c, admin, git, root), c) == Exec(Remaining(d, admin, git, root), d) == Goal(d, admin, git, root)
  {
    hide Legal, Exec, Goal, Resumes, Remaining;
    var c := Stopped(d, admin, git, root, stops);
    RecoveryContinues(d, admin, git, root, |Remaining(d, admin, git, root)|);
    RecoveryContinues(c, admin, git, root, |Remaining(c, admin, git, root)|);
    assert forall s: seq<Step> :: s[..|s|] == s;
  }

  /** The goal has no intent and no lease left, and deletion or retention is all that happened. */
  lemma GoalIsRecovered(d: Disk, admin: Path, git: Git, root: nat)
    requires Resumes(d, admin, git, root)
    ensures var g := Goal(d, admin, git, root); Safe(g) && Idle(g.journal) && g.journal.lease.None?
  {
    var steps := Remaining(d, admin, git, root);
    if Pending(d) {
      SettledForgets(d);
    } else if d.journal.lease.Some? && !Drops(d.journal, git) {
      AttemptIsSafe(d, git, root, admin);
      SettledForgets(Apply(BeginArchive(root, admin, d.journal.lease), Attempted(d, git)));
    }
    hide Legal, Exec, Settled, Script, Remaining, Safe, Allowed, Apply;
    RecoveryContinues(d, admin, git, root, |steps|);
    ContinuesIsSafe(Exec(steps[..|steps|], d), d, admin, git, root);
  }

  lemma ContinuesIsSafe(c: Disk, d: Disk, admin: Path, git: Git, root: nat)
    requires Resumes(d, admin, git, root) && Continues(c, d, admin, git, root)
    ensures Safe(c)
  {
  }
}

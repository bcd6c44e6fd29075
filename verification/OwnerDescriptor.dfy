/**
  The descriptor of the workspace lock.  A process that starts a gate normally still has the one it
  inherited; then admission is always exclusive.  Without it, admission can fail to be.
 */
module OwnerDescriptor {
  import opened Wrappers
  import opened OwnerProtocol
  import opened OwnerSafety
  import opened OwnerActivity
  import opened OwnerRuns

  /** Every process that starts a gate still has the lock descriptor that it inherited. */
  ghost predicate KeepsDescriptor(log: seq<Step>, st: State)
    requires Legal(log, st)
  {
    forall k | 0 <= k < |log| && log[k].EnterGate? :: HasLock(StateAt(log, st, k), log[k].p)
  }

  predicate HasLock(st: State, p: nat) {
    p in st.procs && st.procs[p].lock
  }

  predicate BeforeFork(r: Role) {
    r.Runner? && (r.run.Locked? || r.run.CheckSession? || r.run.CheckGate? || r.run.Admitted?)
  }

  predicate SoleHolder(st: State, p: nat) {
    forall q | q in st.procs && q != p :: !st.procs[q].lock
  }

  /** The copy of the record that an invocation is checking. */
  function Checked(r: Role): Option<Record> {
    match r
    case Runner(CheckSession(prev)) => Some(prev)
    case Runner(CheckGate(prev)) => Some(prev)
    case _ => None
  }

  /** Gate processes hold the lock, so an invocation that has just taken it is alone with the record. */
  predicate Held(st: State) {
    && (forall q | q in st.procs && OfGate(st.procs[q].role) :: st.procs[q].lock)
    && (forall p | p in st.procs && BeforeFork(st.procs[p].role) :: SoleHolder(st, p))
    && (forall p | p in st.procs && Checked(st.procs[p].role).Some? :: st.record == Checked(st.procs[p].role))
  }

  predicate OfGate(r: Role) {
    r.Gater? || r.Blocked?
  }

  /** A gate process was one before, has just entered the gate, or was forked by a supervisor. */
  lemma GateRolesHaveSources(s: Step, st: State, q: nat)
    requires Allowed(s, st) && q in Apply(s, st).procs && OfGate(Apply(s, st).procs[q].role)
    ensures
      var lock := Apply(s, st).procs[q].lock;
      || (q in st.procs && OfGate(st.procs[q].role) && lock == st.procs[q].lock)
      || (s == EnterGate(q) && q in st.procs && lock == st.procs[q].lock)
      || ((s.Fork? || s.ForkGate?) && s.p in st.procs && lock == st.procs[s.p].lock
          && (Critical(st.procs[s.p].role) || st.procs[s.p].role.Gater?))
  {
    hide NoMembers, WellFormed, Fresh;
  }

  lemma HeldLocks(s: Step, st: State)
    requires OneOwner(st) && Held(st) && Allowed(s, st) && (s.EnterGate? ==> HasLock(st, s.p))
    ensures forall q | q in Apply(s, st).procs && OfGate(Apply(s, st).procs[q].role) :: Apply(s, st).procs[q].lock
  {
    forall q | q in Apply(s, st).procs && OfGate(Apply(s, st).procs[q].role) ensures Apply(s, st).procs[q].lock {
      GateRolesHaveSources(s, st, q);
    }
    hide Allowed, Apply, SoleHolder, BeforeFork, Checked;
  }

  /** A lock descriptor is kept, taken while free, or inherited. */
  predicate FromHolder(s: Step, st: State, q: nat) {
    || (q in st.procs && st.procs[q].lock)
    || (s == Lock(q) && forall x | x in st.procs :: !st.procs[x].lock)
    || ((s.Fork? || s.ForkGate? || s.Spawn?) && HasLock(st, s.p))
  }

  lemma LocksHaveSources(s: Step, st: State)
    requires Allowed(s, st)
    ensures forall q | q in Apply(s, st).procs && Apply(s, st).procs[q].lock :: FromHolder(s, st, q)
  {
  }

  lemma EarlyRunnersHaveSources(s: Step, st: State, p: nat)
    requires Allowed(s, st) && p in Apply(s, st).procs && BeforeFork(Apply(s, st).procs[p].role)
    ensures p in st.procs && (s == Lock(p) || BeforeFork(st.procs[p].role))
    ensures s.Fork? || s.ForkGate? || s.Spawn? ==> s.p != p
  {
  }

  lemma HeldAlone(s: Step, st: State, p: nat)
    requires OneOwner(st) && Held(st) && Allowed(s, st)
    requires p in Apply(s, st).procs && BeforeFork(Apply(s, st).procs[p].role)
    ensures SoleHolder(Apply(s, st), p)
  {
    LocksHaveSources(s, st);
    EarlyRunnersHaveSources(s, st, p);
    var now := Apply(s, st);
    assert s == Lock(p) ==> forall x | x in st.procs :: !st.procs[x].lock;
    assert BeforeFork(st.procs[p].role) ==> SoleHolder(st, p) && st.procs[p].lock;
    hide Allowed, Apply, Checked, Held, BeforeFork, OneOwner;
  }

  /** Only a gate supervisor, or an invocation past its fork, writes the record. */
  predicate Writer(r: Role) {
    r.Gater? || (r.Runner? && (r.run.Forked? || r.run.Completing?))
  }

  lemma RecordHasWriter(s: Step, st: State)
    requires Allowed(s, st)
    ensures Apply(s, st).record == st.record || (!s.Reboot? && s.p in st.procs && Writer(st.procs[s.p].role))
  {
  }

  lemma CheckedHasSource(s: Step, st: State, p: nat)
    requires Allowed(s, st) && p in Apply(s, st).procs && Checked(Apply(s, st).procs[p].role).Some?
    ensures p in st.procs && BeforeFork(st.procs[p].role)
    ensures
      var now := Checked(Apply(s, st).procs[p].role);
      (Apply(s, st).record == st.record && now == st.record) || now == Checked(st.procs[p].role)
  {
  }

  lemma HeldRecord(s: Step, st: State, p: nat)
    requires OneOwner(st) && Held(st) && Allowed(s, st)
    requires p in Apply(s, st).procs && Checked(Apply(s, st).procs[p].role).Some?
    ensures Apply(s, st).record == Checked(Apply(s, st).procs[p].role)
  {
    RecordHasWriter(s, st);
    CheckedHasSource(s, st, p);
    hide Allowed, Apply;
    assert SoleHolder(st, p);
  }

  lemma StepKeepsHeld(s: Step, st: State)
    requires OneOwner(st) && Held(st) && Allowed(s, st) && (s.EnterGate? ==> HasLock(st, s.p))
    ensures Held(Apply(s, st))
    ensures s.CensusGate? ==> GateQuiet(st)
  {
    HeldLocks(s, st);
    if s.CensusGate? {
      CensusIsFresh(s, st);
    }
    var now := Apply(s, st);
    hide Allowed, Apply, OneOwner, SoleHolder, BeforeFork, Checked, GateQuiet;
    forall p | p in now.procs && BeforeFork(now.procs[p].role) ensures SoleHolder(now, p) {
      HeldAlone(s, st, p);
    }
    forall p | p in now.procs && Checked(now.procs[p].role).Some? ensures now.record == Checked(now.procs[p].role) {
      HeldRecord(s, st, p);
    }
  }

  /** The record cannot have changed since it was read, so the census was of the gate it names. */
  lemma CensusIsFresh(s: Step, st: State)
    requires Held(st) && Allowed(s, st) && s.CensusGate?
    ensures GateQuiet(st)
  {
    assert Checked(st.procs[s.p].role).Some?;
  }

  lemma {:induction false} RunsKeepHeld(log: seq<Step>, st: State, k: nat)
    requires Initial(st) && Legal(log, st) && KeepsDescriptor(log, st) && k <= |log|
    ensures Accounted(StateAt(log, st, k)) && Held(StateAt(log, st, k))
  {
    hide Allowed, Apply, Inv, Held, GateQuiet, HasLock;
    if k == 0 {
      assert log[..0] == [];
      NobodyHolds(st);
    } else {
      hide Accounted;
      RunsKeepHeld(log, st, k - 1);
      RunsKeepInv(log, st, k - 1);
      StateSteps(log, st, k - 1);
      RecordHas(StateAt(log, st, k - 1));
      StepKeepsHeld(log[k - 1], StateAt(log, st, k - 1));
      StepKeepsAccounted(log[k - 1], StateAt(log, st, k - 1));
    }
  }

  lemma NobodyHolds(st: State)
    requires st.procs == map[]
    ensures Held(st)
  {
  }

  /** Every other process is an invocation that has not taken the lock, or has returned. */
  predicate OnlyIdleInvocations(st: State, p: nat) {
    forall q | q in st.procs && q != p :: st.procs[q].role == Runner(Opening) || st.procs[q].role == Runner(Returned)
  }

  lemma HolderIsAlone(st: State, p: nat)
    requires Inv(st) && Accounted(st) && Held(st) && At(st, p, Runner(Admitted))
    ensures OnlyIdleInvocations(st, p)
  {
    AdmittedIsAlone(st, p);
    RecordHas(st);
    assert SoleHolder(st, p);
    forall q | q in st.procs && q != p
      ensures st.procs[q].role == Runner(Opening) || st.procs[q].role == Runner(Returned)
    {
      assert !st.procs[q].lock && !Active(st.procs[q].role);
      assert !Critical(st.procs[q].role);
    }
    hide RunFacts, GateFacts;
  }

  /**
    With the descriptor, over every interleaving, death and reboot: whenever `run` admits a
    lifecycle, no process of any earlier lifecycle or gate is left, executing or waiting to; at
    most one invocation is past the lock; and whatever is active is named by the record.
   */
  lemma ExclusiveLifecycle(log: seq<Step>, st: State, k: nat, p: nat)
    requires Initial(st) && Legal(log, st) && KeepsDescriptor(log, st) && k <= |log|
    ensures Exclusive(log, st)
    ensures var now := StateAt(log, st, k);
      && (At(now, p, Runner(Admitted)) ==> OnlyIdleInvocations(now, p))
      && OneOwner(now) && ActiveIsRecorded(now)
  {
    hide Inv, Held, OneOwner, ActiveIsRecorded, OnlyIdleInvocations, NoneActive, Allowed, Apply;
    forall i, q: nat | 0 <= i <= |log| && At(StateAt(log, st, i), q, Runner(Admitted))
      ensures NoneActive(StateAt(log, st, i))
    {
      RunsKeepHeld(log, st, i);
      AdmittedIsAlone(StateAt(log, st, i), q);
    }
    RunsKeepHeld(log, st, k);
    RunsKeepInv(log, st, k);
    RecordHas(StateAt(log, st, k));
    assert ActiveIsRecorded(StateAt(log, st, k));
    if At(StateAt(log, st, k), p, Runner(Admitted)) {
      HolderIsAlone(StateAt(log, st, k), p);
    }
  }

  // ----- The descriptor matters -----

  const FIRST := Record(0, Some(2), false, false, None, None)
  const MARKED := FIRST.(gateStarted := true)
  const GATED := MARKED.(gateSession := Some(4))
  const ORPHAN := Proc(2, Worker, false)
  const CHECKING := Proc(3, Runner(CheckSession(FIRST)), true)

  function Gate(pc: GatePc): Proc {
    Proc(2, Gater(pc), false)
  }

  // A lifecycle outlives its supervisor after its leader closed the lock
  // descriptor (S9); the next invocation takes the lock and reads the record
  // (S12); the leader runs a gate and dies (S19); both censuses then pass.
  const EMPTY := State(0, map[], None)
  const S1 := State(0, map[1 := Proc(1, Runner(Opening), false)], None)
  const S2 := State(0, map[1 := Proc(1, Runner(Locked), true)], None)
  const S3 := State(0, map[1 := Proc(1, Runner(Admitted), true)], None)
  const S4 := State(0, map[1 := Proc(1, Runner(Forked(2)), true), 2 := Proc(2, Blocked(false), true)], None)
  const S5 := State(0, map[1 := Proc(1, Runner(Recorded(2)), true), 2 := Proc(2, Blocked(false), true)], Some(FIRST))
  const S6 := State(0, map[1 := Proc(1, Runner(Watching(2)), true), 2 := Proc(2, Blocked(true), true)], Some(FIRST))
  const S7 := State(0, map[1 := Proc(1, Runner(Watching(2)), true), 2 := Proc(2, Worker, true)], Some(FIRST))
  const S8 := State(0, map[1 := Proc(1, Runner(Watching(2)), true), 2 := ORPHAN], Some(FIRST))
  const S9 := State(0, map[2 := ORPHAN], Some(FIRST))
  const S10 := State(0, map[2 := ORPHAN, 3 := Proc(3, Runner(Opening), false)], Some(FIRST))
  const S11 := State(0, map[2 := ORPHAN, 3 := Proc(3, Runner(Locked), true)], Some(FIRST))
  const S12 := State(0, map[2 := ORPHAN, 3 := CHECKING], Some(FIRST))
  const S13 := State(0, map[2 := Gate(GateRead(FIRST)), 3 := CHECKING], Some(FIRST))
  const S14 := State(0, map[2 := Gate(GateMarked(MARKED)), 3 := CHECKING], Some(MARKED))
  const WAITING := Proc(4, Blocked(false), false)
  const S15 := State(0, map[2 := Gate(GateForked(MARKED, 4)), 3 := CHECKING, 4 := WAITING], Some(MARKED))
  const S16 := State(0, map[2 := Gate(GateRecorded(4)), 3 := CHECKING, 4 := WAITING], Some(GATED))
  const S17 := State(0, map[2 := Gate(GateWatching(4)), 3 := CHECKING, 4 := Proc(4, Blocked(true), false)], Some(GATED))
  const S18 := State(0, map[2 := Gate(GateWatching(4)), 3 := CHECKING, 4 := Proc(4, Worker, false)], Some(GATED))
  const S19 := State(0, map[3 := CHECKING, 4 := Proc(4, Worker, false)], Some(GATED))
  const S20 := State(0, map[3 := Proc(3, Runner(CheckGate(FIRST)), true), 4 := Proc(4, Worker, false)], Some(GATED))
  const S21 := State(0, map[3 := Proc(3, Runner(Admitted), true), 4 := Proc(4, Worker, false)], Some(GATED))

  const LAUNCH: seq<Step> := [Enter(1, 1), Lock(1), ReadPrevious(1), Fork(1, 2), SaveSession(1)]
  const ORPHANING: seq<Step> := [Release(1, true), Start(2), DropLock(2), Die(1)]
  const READING: seq<Step> := [Enter(3, 3), Lock(3), ReadPrevious(3), EnterGate(2)]
  const GATING: seq<Step> := [MarkGate(2), ForkGate(2, 4), SaveGate(2), ReleaseGate(2, true)]
  const ADMISSION: seq<Step> := [Start(4), Die(2), CensusSession(3), CensusGate(3)]

  predicate Moves(s: Step, st: State, st': State) {
    Allowed(s, st) && Apply(s, st) == st'
  }

  lemma {:induction false} PathIsLegal(steps: seq<Step>, states: seq<State>)
    requires |states| == |steps| + 1 && forall i | 0 <= i < |steps| :: Moves(steps[i], states[i], states[i + 1])
    ensures Legal(steps, states[0]) && After(steps, states[0]) == states[|steps|]
    decreases |steps|
  {
    hide Allowed, Apply;
    if steps != [] {
      var n := |steps| - 1;
      PathIsLegal(steps[..n], states[..n + 1]);
      assert Moves(steps[n], states[n], states[n + 1]);
    }
  }

  lemma {:induction false} LegalConcat(x: seq<Step>, y: seq<Step>, st: State)
    requires Legal(x, st) && Legal(y, After(x, st))
    ensures Legal(x + y, st) && After(x + y, st) == After(y, After(x, st))
    decreases |y|
  {
    hide Allowed, Apply;
    if y == [] {
      assert x + y == x;
    } else {
      LegalConcat(x, y[..|y| - 1], st);
      assert (x + y)[..|x + y| - 1] == x + y[..|y| - 1];
    }
  }

  lemma Launched1()
    ensures Moves(Enter(1, 1), EMPTY, S1)
    ensures Moves(Lock(1), S1, S2)
  {
  }

  lemma Launched2()
    ensures Moves(ReadPrevious(1), S2, S3)
    ensures Moves(Fork(1, 2), S3, S4)
    ensures Moves(SaveSession(1), S4, S5)
  {
  }

  lemma Launched()
    ensures Legal(LAUNCH, EMPTY) && After(LAUNCH, EMPTY) == S5
  {
    hide Moves;
    Launched1();
    Launched2();
    PathIsLegal(LAUNCH, [EMPTY, S1, S2, S3, S4, S5]);
  }

  lemma Orphaned1()
    ensures Moves(Release(1, true), S5, S6)
    ensures Moves(Start(2), S6, S7)
  {
  }

  lemma Orphaned2()
    ensures Moves(DropLock(2), S7, S8)
    ensures Moves(Die(1), S8, S9)
  {
  }

  lemma Orphaned()
    ensures Legal(ORPHANING, S5) && After(ORPHANING, S5) == S9
  {
    hide Moves;
    Orphaned1();
    Orphaned2();
    PathIsLegal(ORPHANING, [S5, S6, S7, S8, S9]);
  }

  lemma RecordRead1()
    ensures Moves(Enter(3, 3), S9, S10)
    ensures Moves(Lock(3), S10, S11)
  {
  }

  lemma RecordRead2()
    ensures Moves(ReadPrevious(3), S11, S12)
    ensures Moves(EnterGate(2), S12, S13)
  {
  }

  lemma RecordRead()
    ensures Legal(READING, S9) && After(READING, S9) == S13
  {
    hide Moves;
    RecordRead1();
    RecordRead2();
    PathIsLegal(READING, [S9, S10, S11, S12, S13]);
  }

  lemma GateReleased1()
    ensures Moves(MarkGate(2), S13, S14)
    ensures Moves(ForkGate(2, 4), S14, S15)
  {
  }

  lemma GateReleased2()
    ensures Moves(SaveGate(2), S15, S16)
    ensures Moves(ReleaseGate(2, true), S16, S17)
  {
  }

  lemma GateReleased()
    ensures Legal(GATING, S13) && After(GATING, S13) == S17
  {
    hide Moves;
    GateReleased1();
    GateReleased2();
    PathIsLegal(GATING, [S13, S14, S15, S16, S17]);
  }

  lemma SlippedPast1()
    ensures Moves(Start(4), S17, S18)
    ensures Moves(Die(2), S18, S19)
  {
  }

  lemma SlippedPast2()
    ensures Moves(CensusSession(3), S19, S20)
    ensures Moves(CensusGate(3), S20, S21)
  {
  }

  lemma SlippedPast()
    ensures Legal(ADMISSION, S17) && After(ADMISSION, S17) == S21
  {
    hide Moves;
    SlippedPast1();
    SlippedPast2();
    PathIsLegal(ADMISSION, [S17, S18, S19, S20, S21]);
  }

  /**
    Without the descriptor the guarantee can fail: `run` reads the record once and counts
    afterwards, so a gate started in between by a process that no longer holds the lock escapes
    both checks.
   */
  lemma DescriptorIsNeeded()
    ensures var race := LAUNCH + ORPHANING + READING + GATING + ADMISSION;
      && Initial(EMPTY) && Legal(race, EMPTY) && !Exclusive(race, EMPTY)
      && At(After(race, EMPTY), 3, Runner(Admitted)) && At(After(race, EMPTY), 4, Worker)
  {
    hide Legal, After;
    Launched();
    Orphaned();
    LegalConcat(LAUNCH, ORPHANING, EMPTY);
    RecordRead();
    LegalConcat(LAUNCH + ORPHANING, READING, EMPTY);
    GateReleased();
    LegalConcat(LAUNCH + ORPHANING + READING, GATING, EMPTY);
    SlippedPast();
    LegalConcat(LAUNCH + ORPHANING + READING + GATING, ADMISSION, EMPTY);
    var race := LAUNCH + ORPHANING + READING + GATING + ADMISSION;
    StateAtEnd(race, EMPTY);
    assert At(S21, 3, Runner(Admitted)) && At(S21, 4, Worker) && !NoneActive(S21);
  }
}

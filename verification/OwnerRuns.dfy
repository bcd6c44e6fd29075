/** Whole runs of the ownership protocol: when admission is exclusive, and what precedes execution. */
module OwnerRuns {
  import opened Wrappers
  import opened OwnerProtocol
  import opened OwnerSafety
  import opened OwnerActivity

  predicate Legal(log: seq<Step>, st: State)
    decreases |log|, 0
  {
    log == [] || (Legal(log[..|log| - 1], st) && Allowed(log[|log| - 1], After(log[..|log| - 1], st)))
  }

  function After(log: seq<Step>, st: State): State
    requires Legal(log, st)
    decreases |log|, 1
  {
    if log == [] then st else Apply(log[|log| - 1], After(log[..|log| - 1], st))
  }

  lemma LegalFront(log: seq<Step>, st: State)
    requires Legal(log, st) && log != []
    ensures var last := |log| - 1;
      && Legal(log[..last], st) && Allowed(log[last], After(log[..last], st))
      && After(log, st) == Apply(log[last], After(log[..last], st))
  {
    hide Allowed, Apply;
  }

  lemma {:induction false} LegalPrefix(log: seq<Step>, st: State, k: nat)
    requires Legal(log, st) && k <= |log|
    ensures Legal(log[..k], st)
    decreases |log|
  {
    hide Allowed, Apply;
    if k < |log| {
      LegalPrefix(log[..|log| - 1], st, k);
      assert log[..|log| - 1][..k] == log[..k];
    } else {
      assert log[..k] == log;
    }
  }

  /** The state after the first `k` steps. */
  ghost function StateAt(log: seq<Step>, st: State, k: nat): State
    requires Legal(log, st) && k <= |log|
  {
    LegalPrefix(log, st, k);
    After(log[..k], st)
  }

  lemma StateSteps(log: seq<Step>, st: State, k: nat)
    requires Legal(log, st) && k < |log|
    ensures Allowed(log[k], StateAt(log, st, k))
    ensures StateAt(log, st, k + 1) == Apply(log[k], StateAt(log, st, k))
  {
    LegalPrefix(log, st, k);
    LegalPrefix(log, st, k + 1);
    LegalFront(log[..k + 1], st);
    assert log[..k + 1][..k] == log[..k];
    hide Allowed, Apply;
  }

  /** No process yet; any record that an earlier boot could have left. */
  predicate Initial(st: State) {
    st.procs == map[] && GateSound(st.record)
  }

  // ----- Exclusive admission -----

  /**
    Whenever an invocation has been admitted and has not yet forked, nothing of an earlier
    lifecycle or gate executes or is released to.
   */
  ghost predicate Exclusive(log: seq<Step>, st: State)
    requires Legal(log, st)
  {
    forall k, p: nat | 0 <= k <= |log| && At(StateAt(log, st, k), p, Runner(Admitted)) ::
      NoneActive(StateAt(log, st, k))
  }

  /**
    Whenever an invocation passes its gate census, the gate session that the record names by then
    is quiet: the record on disk, not the copy that the invocation read before its censuses.
   */
  ghost predicate AdmitsQuietly(log: seq<Step>, st: State)
    requires Legal(log, st)
  {
    forall k | 0 <= k < |log| && log[k].CensusGate? :: GateQuiet(StateAt(log, st, k))
  }

  lemma {:induction false} RunsKeepInv(log: seq<Step>, st: State, k: nat)
    requires Initial(st) && Legal(log, st) && k <= |log|
    ensures Inv(StateAt(log, st, k))
  {
    hide Allowed, Apply, Inv;
    if k == 0 {
      assert log[..0] == [];
      NobodyIsSound(st);
    } else {
      RunsKeepInv(log, st, k - 1);
      StateSteps(log, st, k - 1);
      StepKeepsInv(log[k - 1], StateAt(log, st, k - 1));
    }
  }

  lemma {:induction false} RunsStayAccounted(log: seq<Step>, st: State, k: nat)
    requires Initial(st) && Legal(log, st) && AdmitsQuietly(log, st) && k <= |log|
    ensures Accounted(StateAt(log, st, k))
  {
    hide Allowed, Apply, GateQuiet, Inv;
    if k == 0 {
      assert log[..0] == [];
    } else {
      hide Accounted;
      RunsStayAccounted(log, st, k - 1);
      RunsKeepInv(log, st, k - 1);
      StateSteps(log, st, k - 1);
      StepKeepsAccounted(log[k - 1], StateAt(log, st, k - 1));
    }
  }

  lemma AdmittedIsAlone(st: State, p: nat)
    requires Accounted(st) && At(st, p, Runner(Admitted))
    ensures NoneActive(st)
  {
    assert Early(st.procs[p].role);
  }

  /** An admission changes nobody else. */
  lemma AdmissionShows(s: Step, st: State)
    requires Allowed(s, st) && s.CensusGate?
    ensures At(Apply(s, st), s.p, Runner(Admitted))
    ensures NoneActive(Apply(s, st)) ==> GateQuiet(st)
  {
    if NoneActive(Apply(s, st)) {
      forall q | q in st.procs ensures !Active(st.procs[q].role) {
        assert !Active(Apply(s, st).procs[q].role);
      }
    }
  }

  /**
    The exact condition, over every interleaving, death and reboot: admission is exclusive in a
    run if and only if the gate named on disk was quiet at each passed gate census.
   */
  lemma ExclusiveIffGateQuiet(log: seq<Step>, st: State)
    requires Initial(st) && Legal(log, st)
    ensures Exclusive(log, st) <==> AdmitsQuietly(log, st)
  {
    hide Allowed, Apply, GateQuiet, Accounted, NoneActive, At;
    if AdmitsQuietly(log, st) {
      forall k, p: nat | 0 <= k <= |log| && At(StateAt(log, st, k), p, Runner(Admitted))
        ensures NoneActive(StateAt(log, st, k))
      {
        RunsStayAccounted(log, st, k);
        AdmittedIsAlone(StateAt(log, st, k), p);
      }
    }
    if Exclusive(log, st) {
      forall k | 0 <= k < |log| && log[k].CensusGate? ensures GateQuiet(StateAt(log, st, k)) {
        StateSteps(log, st, k);
        AdmissionShows(log[k], StateAt(log, st, k));
      }
    }
  }

  /** What else every such run keeps: one invocation past the lock, and whatever is active is recorded. */
  lemma OneRecordedLifecycle(log: seq<Step>, st: State, k: nat)
    requires Initial(st) && Legal(log, st) && Exclusive(log, st) && k <= |log|
    ensures OneOwner(StateAt(log, st, k)) && ActiveIsRecorded(StateAt(log, st, k))
  {
    hide Inv, OneOwner, ActiveIsRecorded, Exclusive, AdmitsQuietly;
    ExclusiveIffGateQuiet(log, st);
    RunsKeepInv(log, st, k);
    RecordHas(StateAt(log, st, k));
    RunsStayAccounted(log, st, k);
  }

  /** Each passed gate census also finds nobody in the gate session of the record read again. */
  ghost predicate ReadsAgain(log: seq<Step>, st: State)
    requires Legal(log, st)
  {
    forall k | 0 <= k < |log| && log[k].CensusGate? :: RereadIsEmpty(StateAt(log, st, k))
  }

  predicate RereadIsEmpty(st: State) {
    st.record.Some? && st.record.value.gateSession.Some? ==> NoMembers(st, st.record.value.gateSession.value)
  }

  /** Reading the record again before the gate census is enough, with or without the descriptor. */
  lemma ReadingAgainSuffices(log: seq<Step>, st: State)
    requires Initial(st) && Legal(log, st) && ReadsAgain(log, st)
    ensures Exclusive(log, st)
  {
    forall k | 0 <= k < |log| && log[k].CensusGate? ensures GateQuiet(StateAt(log, st, k)) {
      assert RereadIsEmpty(StateAt(log, st, k));
    }
    ExclusiveIffGateQuiet(log, st);
  }

  /** The record has not changed since the invocation read it. */
  ghost predicate RecordStands(log: seq<Step>, st: State)
    requires Legal(log, st)
  {
    forall k | 0 <= k < |log| && log[k].CensusGate? :: Unchanged(log[k].p, StateAt(log, st, k))
  }

  predicate Unchanged(p: nat, st: State) {
    RunnerAt(st, p) && st.procs[p].role.run.CheckGate? && st.record == Some(st.procs[p].role.run.prev)
  }

  lemma UnchangedRecordSuffices(log: seq<Step>, st: State)
    requires Initial(st) && Legal(log, st) && RecordStands(log, st)
    ensures Exclusive(log, st)
  {
    forall k | 0 <= k < |log| && log[k].CensusGate? ensures RereadIsEmpty(StateAt(log, st, k)) {
      StateSteps(log, st, k);
      assert Unchanged(log[k].p, StateAt(log, st, k));
    }
    ReadingAgainSuffices(log, st);
  }

  // ----- Identity before execution -----

  predicate Saves(s: Step) {
    s.SaveSession? || s.SaveGate?
  }

  /** Step `i` made a record of this boot that names `p`, and `p` has lived ever since. */
  ghost predicate SavedAt(log: seq<Step>, st: State, i: nat, p: nat)
    requires Legal(log, st)
  {
    && i < |log| && Saves(log[i]) && Names(StateAt(log, st, i + 1), p)
    && StateAt(log, st, i + 1).boot == StateAt(log, st, |log|).boot
    && forall j | i < j <= |log| :: p in StateAt(log, st, j).procs
  }

  ghost predicate Durable(log: seq<Step>, st: State, p: nat)
    requires Legal(log, st)
  {
    exists i: nat :: SavedAt(log, st, i, p)
  }

  /** The child that a supervisor has recorded and not yet released. */
  function Announced(r: Role): Option<nat> {
    match r
    case Runner(Recorded(c)) => Some(c)
    case Gater(GateRecorded(c)) => Some(c)
    case _ => None
  }

  /** The copy of the record that a gate supervisor will write. */
  function Copy(r: Role): Option<Record> {
    match r
    case Gater(GateRead(copy)) => Some(copy)
    case Gater(GateMarked(copy)) => Some(copy)
    case Gater(GateForked(copy, _)) => Some(copy)
    case _ => None
  }

  ghost predicate Announces(log: seq<Step>, st: State)
    requires Legal(log, st)
  {
    var now := After(log, st);
    && (forall q | q in now.procs && now.procs[q].role == Blocked(true) :: Durable(log, st, q))
    && (forall q | q in now.procs && Announced(now.procs[q].role).Some? ::
          var c := Announced(now.procs[q].role).value; c in now.procs ==> Durable(log, st, c))
    && (forall q | q in now.procs && Copy(now.procs[q].role).Some? ::
          Copy(now.procs[q].role).value.boot == now.boot)
  }

  lemma StateOfFront(log: seq<Step>, st: State, k: nat)
    requires Legal(log, st) && log != [] && k < |log|
    ensures Legal(log[..|log| - 1], st) && StateAt(log[..|log| - 1], st, k) == StateAt(log, st, k)
  {
    LegalFront(log, st);
    assert log[..|log| - 1][..k] == log[..k];
    hide Allowed, Apply;
  }

  lemma StateAtEnd(log: seq<Step>, st: State)
    requires Legal(log, st)
    ensures StateAt(log, st, |log|) == After(log, st)
  {
    assert log[..|log|] == log;
    hide Allowed, Apply;
  }

  lemma DurableStays(log: seq<Step>, st: State, p: nat)
    requires Legal(log, st) && log != [] && Legal(log[..|log| - 1], st) && Durable(log[..|log| - 1], st, p)
    requires p in After(log, st).procs && After(log, st).boot == After(log[..|log| - 1], st).boot
    ensures Durable(log, st, p)
  {
    hide Allowed, Apply, Names;
    var front := log[..|log| - 1];
    var i: nat :| SavedAt(front, st, i, p);
    StateAtEnd(log, st);
    StateAtEnd(front, st);
    StateOfFront(log, st, i + 1);
    forall j | i < j <= |log| ensures p in StateAt(log, st, j).procs {
      if j < |log| {
        StateOfFront(log, st, j);
      }
    }
    assert SavedAt(log, st, i, p);
  }

  lemma DurableNow(log: seq<Step>, st: State, p: nat)
    requires Legal(log, st) && log != [] && Saves(log[|log| - 1])
    requires Names(After(log, st), p) && p in After(log, st).procs
    ensures Durable(log, st, p)
  {
    hide Allowed, Apply, Names;
    StateAtEnd(log, st);
    assert SavedAt(log, st, |log| - 1, p);
  }

  /** How one step can make a process released, announced, or the holder of a copy. */
  lemma StepAnnounces(s: Step, st: State)
    requires Allowed(s, st)
    ensures
      var now := Apply(s, st);
      && (now.boot == st.boot || now.procs == map[])
      && (forall q | q in now.procs && now.procs[q].role == Blocked(true) ::
            || (q in st.procs && st.procs[q].role == Blocked(true))
            || (q in st.procs && s.p in st.procs && Announced(st.procs[s.p].role) == Some(q)))
  {
    hide WellFormed, NoMembers, Fresh;
  }

  lemma StepKeepsCopies(s: Step, st: State)
    requires Allowed(s, st)
    requires forall q | q in st.procs && Copy(st.procs[q].role).Some? :: Copy(st.procs[q].role).value.boot == st.boot
    ensures
      var now := Apply(s, st);
      forall q | q in now.procs && Copy(now.procs[q].role).Some? :: Copy(now.procs[q].role).value.boot == now.boot
  {
  }

  lemma StepKeepsAnnounced(s: Step, st: State, q: nat)
    requires Allowed(s, st) && q in Apply(s, st).procs && Announced(Apply(s, st).procs[q].role).Some?
    requires forall x | x in st.procs && Copy(st.procs[x].role).Some? :: Copy(st.procs[x].role).value.boot == st.boot
    ensures
      var now, c := Apply(s, st), Announced(Apply(s, st).procs[q].role).value;
      || (Saves(s) && Names(now, c))
      || (q in st.procs && Announced(st.procs[q].role) == Some(c) && (c in now.procs ==> c in st.procs))
  {
    hide WellFormed;
    AnnouncedIsPinned(st, q);
  }

  lemma AnnouncedIsPinned(st: State, q: nat)
    ensures q in st.procs && Announced(st.procs[q].role).Some? ==>
      Pinned(st.procs[q].role) == Announced(st.procs[q].role)
  {
  }

  lemma {:induction false} RunsAnnounce(log: seq<Step>, st: State)
    requires Initial(st) && Legal(log, st)
    ensures Announces(log, st)
    decreases |log|
  {
    hide Allowed, Apply, Names, Durable, Announced, Copy;
    if log != [] {
      var front, s := log[..|log| - 1], log[|log| - 1];
      LegalFront(log, st);
      RunsAnnounce(front, st);
      var before, now := After(front, st), After(log, st);
      StepAnnounces(s, before);
      StepKeepsCopies(s, before);
      forall q | q in now.procs && now.procs[q].role == Blocked(true) ensures Durable(log, st, q) {
        DurableStays(log, st, q);
      }
      forall q | q in now.procs && Announced(now.procs[q].role).Some? && Announced(now.procs[q].role).value in now.procs
        ensures Durable(log, st, Announced(now.procs[q].role).value)
      {
        StepKeepsAnnounced(s, before, q);
        if Saves(s) && Names(now, Announced(now.procs[q].role).value) {
          DurableNow(log, st, Announced(now.procs[q].role).value);
        } else {
          DurableStays(log, st, Announced(now.procs[q].role).value);
        }
      }
    }
  }

  /**
    In every run, whoever dies and whatever was admitted: a command starts only after a record of
    this boot that names its session was made durable, while that same process was waiting.
   */
  lemma IdentityPrecedesExecution(log: seq<Step>, st: State, k: nat)
    requires Initial(st) && Legal(log, st) && k < |log| && log[k].Start?
    ensures Legal(log[..k], st) && Durable(log[..k], st, log[k].p)
  {
    hide Durable, Apply, Legal, After;
    LegalPrefix(log, st, k);
    StateSteps(log, st, k);
    RunsAnnounce(log[..k], st);
  }

  /** Where admission is exclusive the record still names the session when the command starts. */
  lemma StartedIsNamed(log: seq<Step>, st: State, k: nat)
    requires Initial(st) && Legal(log, st) && Exclusive(log, st) && k < |log| && log[k].Start?
    ensures Names(StateAt(log, st, k), log[k].p)
  {
    hide Exclusive;
    OneRecordedLifecycle(log, st, k);
    StateSteps(log, st, k);
    ExclusiveIffGateQuiet(log, st);
    RunsKeepInv(log, st, k);
    assert BlockedLeads(StateAt(log, st, k));
  }
}

/**
  Which processes may be executing.  As long as each lifecycle was admitted while the gate that the
  record then named was quiet, whatever is active is named by the record.
 */
module OwnerActivity {
  import opened Wrappers
  import opened OwnerProtocol
  import opened OwnerSafety

  predicate ActiveIsRecorded(st: State) {
    forall q | q in st.procs && Active(st.procs[q].role) :: Names(st, st.procs[q].session)
  }

  /** An admitted invocation that has not yet released its child. */
  predicate Early(r: Role) {
    r.Runner? && (r.run.Admitted? || r.run.Forked? || r.run.Recorded?)
  }

  predicate EarlyAlone(st: State) {
    forall p | p in st.procs && Early(st.procs[p].role) :: NoneActive(st)
  }

  predicate Accounted(st: State) {
    ActiveIsRecorded(st) && EarlyAlone(st)
  }

  /** Nothing runs, or is about to, in the gate session that the record on disk names. */
  predicate GateQuiet(st: State) {
    st.record.Some? && st.record.value.gateSession.Some? ==> NoneActiveIn(st, st.record.value.gateSession.value)
  }

  // ----- Where activity comes from -----

  /** Active before, started by an active member of its session, or released by the supervisor that recorded it. */
  predicate FromActive(s: Step, st: State, q: nat, x: Proc) {
    || (q in st.procs && Active(st.procs[q].role) && x.session == st.procs[q].session)
    || (s.Spawn? && s.p in st.procs && Executing(st.procs[s.p].role) && x.session == st.procs[s.p].session)
    || (s.Release? && At(st, s.p, Runner(Recorded(q))) && q in st.procs && x.session == st.procs[q].session
        && st.procs[q].role.Blocked?)
    || (s.ReleaseGate? && At(st, s.p, Gater(GateRecorded(q))) && q in st.procs && x.session == st.procs[q].session
        && st.procs[q].role.Blocked?)
  }

  lemma ActivityHasSources(s: Step, st: State, q: nat)
    requires Allowed(s, st) && q in Apply(s, st).procs && Active(Apply(s, st).procs[q].role)
    ensures FromActive(s, st, q, Apply(s, st).procs[q])
  {
    hide NoMembers, WellFormed;
  }

  lemma SourceIsNamed(s: Step, st: State, q: nat, x: Proc)
    requires Inv(st) && ActiveIsRecorded(st) && FromActive(s, st, q, x)
    ensures Names(st, x.session)
  {
    assert BlockedLeads(st);
    if s.Spawn? && s.p in st.procs && Executing(st.procs[s.p].role) && x.session == st.procs[s.p].session {
      assert Active(st.procs[s.p].role);
    } else if s.Release? && At(st, s.p, Runner(Recorded(q))) {
      RunnerHas(st, s.p);
      assert OwnsRecord(st, q);
      assert Names(st, q);
    } else if s.ReleaseGate? && At(st, s.p, Gater(GateRecorded(q))) {
      GaterHas(st, s.p);
      assert GateRuns(st, q);
      assert Names(st, q);
    }
  }

  // ----- Naming -----

  /** Naming more sessions, or dropping one without members, leaves no active process unnamed. */
  lemma RenameRecorded(st: State, st': State)
    requires ActiveIsRecorded(st) && st'.boot == st.boot && st'.record.Some? && st'.record.value.boot == st.boot
    requires st.record.Some? && st'.record.value.session == st.record.value.session
    requires var gone := st.record.value.gateSession;
      gone.Some? && st'.record.value.gateSession != gone ==> NoMembers(st, gone.value)
    requires forall q | q in st'.procs ::
      && q in st.procs && st'.procs[q].session == st.procs[q].session
      && (Active(st'.procs[q].role) ==> Active(st.procs[q].role))
    ensures ActiveIsRecorded(st')
  {
    hide Active;
  }

  lemma GateWriteRecorded(s: Step, st: State)
    requires Inv(st) && ActiveIsRecorded(st) && Allowed(s, st)
    requires s.MarkGate? || s.SaveGate? || s.NoteExit? || s.SaveClear?
    ensures ActiveIsRecorded(Apply(s, st))
  {
    hide Inv, GateFacts, Apply, OneOwner, OneGate, ActiveIsRecorded;
    GaterHas(st, s.p);
    GateWriteFacts(s, st);
    hide Allowed;
    RenameRecorded(st, Apply(s, st));
  }

  lemma FinalRecorded(s: Step, st: State)
    requires Inv(st) && ActiveIsRecorded(st) && Allowed(s, st) && s.SaveFinal?
    ensures ActiveIsRecorded(Apply(s, st))
  {
    RunnerHas(st, s.p);
    var c := st.procs[s.p].role.run.child;
    assert OwnsRecord(st, c) && NoMembers(st, c) && st.record == Some(st.procs[s.p].role.run.copy);
    hide Inv, RunFacts, OneOwner, OneGate;
  }

  lemma SessionRecorded(s: Step, st: State)
    requires EarlyAlone(st) && Allowed(s, st) && s.SaveSession?
    ensures ActiveIsRecorded(Apply(s, st))
  {
    assert Early(st.procs[s.p].role) && NoneActive(st);
  }

  lemma UnwrittenRecorded(s: Step, st: State)
    requires Inv(st) && ActiveIsRecorded(st) && Allowed(s, st)
    requires Apply(s, st).record == st.record && Apply(s, st).boot == st.boot
    ensures ActiveIsRecorded(Apply(s, st))
  {
    var now := Apply(s, st);
    hide Allowed, Apply, Inv;
    forall q | q in now.procs && Active(now.procs[q].role) ensures Names(now, now.procs[q].session) {
      ActivityHasSources(s, st, q);
      SourceIsNamed(s, st, q, now.procs[q]);
    }
  }

  lemma StepWrites(s: Step, st: State)
    requires Allowed(s, st)
    ensures
      || (Apply(s, st).record == st.record && Apply(s, st).boot == st.boot)
      || s.SaveSession? || s.SaveFinal? || s.MarkGate? || s.SaveGate? || s.NoteExit? || s.SaveClear? || s.Reboot?
  {
    hide NoMembers, WellFormed, Fresh;
  }

  lemma StepKeepsRecorded(s: Step, st: State)
    requires Inv(st) && Accounted(st) && Allowed(s, st)
    ensures ActiveIsRecorded(Apply(s, st))
  {
    StepWrites(s, st);
    if s.SaveSession? {
      SessionRecorded(s, st);
    } else if s.SaveFinal? {
      FinalRecorded(s, st);
    } else if s.MarkGate? || s.SaveGate? || s.NoteExit? || s.SaveClear? {
      GateWriteRecorded(s, st);
    } else if s.Reboot? {
      assert Apply(s, st).procs == map[];
    } else {
      UnwrittenRecorded(s, st);
    }
    hide Inv, Allowed, Apply, Active;
  }

  // ----- An admitted invocation is alone -----

  /** With both named sessions quiet, nobody is active. */
  lemma BothQuiet(st: State, prev: Record)
    requires ActiveIsRecorded(st) && RunFacts(st, CheckGate(prev)) && GateQuiet(st)
    ensures NoneActive(st)
  {
  }

  /** Nobody is active when the record names no session of this boot. */
  lemma NothingNamed(st: State)
    requires ActiveIsRecorded(st) && (st.record.Some? ==> st.record.value.boot != st.boot)
    ensures NoneActive(st)
  {
  }

  lemma EarlyHasSources(s: Step, st: State, p: nat)
    requires Allowed(s, st) && p in Apply(s, st).procs && Early(Apply(s, st).procs[p].role)
    ensures p in st.procs && !(s.Release? && s.p == p)
    ensures
      || Early(st.procs[p].role)
      || s == CensusGate(p)
      || (s == ReadPrevious(p) && (st.record.Some? ==> st.record.value.boot != st.boot))
  {
    hide NoMembers, WellFormed, Fresh;
  }

  lemma EarlyStaysAlone(s: Step, st: State, p: nat)
    requires Inv(st) && Accounted(st) && Allowed(s, st) && (s.CensusGate? ==> GateQuiet(st))
    requires p in Apply(s, st).procs && Early(Apply(s, st).procs[p].role)
    ensures NoneActive(Apply(s, st))
  {
    EarlyHasSources(s, st, p);
    if s == CensusGate(p) {
      RunnerHas(st, p);
      BothQuiet(st, st.procs[p].role.run.prev);
    } else if s == ReadPrevious(p) && !Early(st.procs[p].role) {
      NothingNamed(st);
    }
    assert NoneActive(st) && OneOwner(st);
    var now := Apply(s, st);
    hide Apply, Inv, RunFacts, GateFacts, Accounted;
    forall q | q in now.procs ensures !Active(now.procs[q].role) {
      if Active(now.procs[q].role) {
        ActivityHasSources(s, st, q);
      }
    }
  }

  /** The one step that needs more than the invariant is an admission. */
  lemma StepKeepsAccounted(s: Step, st: State)
    requires Inv(st) && Accounted(st) && Allowed(s, st) && (s.CensusGate? ==> GateQuiet(st))
    ensures Accounted(Apply(s, st))
  {
    StepKeepsRecorded(s, st);
    var now := Apply(s, st);
    hide Allowed, Apply, Inv, ActiveIsRecorded, NoneActive, GateQuiet;
    forall p | p in now.procs && Early(now.procs[p].role) ensures NoneActive(now) {
      EarlyStaysAlone(s, st, p);
    }
  }
}

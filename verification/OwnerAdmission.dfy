/** When `run` admits a lifecycle, and what must have happened before it returns a status. */
module OwnerAdmission {
  import opened Wrappers
  import opened OwnerProtocol
  import opened OwnerSafety
  import opened OwnerActivity
  import opened OwnerRuns
  import opened OwnerDescriptor

  // ----- The decision -----

  /**
    The record on disk lets a lifecycle in: it is complete, and if it is of this boot, its two
    sessions are empty and a gate that it says was started is known to have exited.
   */
  predicate Admissible(st: State) {
    st.record.Some? ==>
      var r := st.record.value;
      && (r.session.None? ==> r.completed)
      && (r.gateExit.Some? ==> r.gateStarted && r.gateSession.Some?)
      && (r.boot == st.boot ==>
            && (r.session.Some? ==> NoMembers(st, r.session.value))
            && (r.gateSession.Some? ==> NoMembers(st, r.gateSession.value))
            && (r.gateStarted ==> r.gateExit.Some?))
  }

  function Checks(st: State, p: nat): seq<Step> {
    if st.record.Some? && st.record.value.boot == st.boot then [ReadPrevious(p), CensusSession(p), CensusGate(p)]
    else [ReadPrevious(p)]
  }

  lemma LegalMore(front: seq<Step>, s: Step, st: State)
    ensures Legal(front + [s], st) <==> Legal(front, st) && Allowed(s, After(front, st))
    ensures Legal(front + [s], st) ==> After(front + [s], st) == Apply(s, After(front, st))
  {
    hide Allowed, Apply;
    assert (front + [s])[..|front|] == front;
  }

  lemma LegalAlone(s: Step, st: State)
    ensures Legal([s], st) <==> Allowed(s, st)
    ensures Legal([s], st) ==> After([s], st) == Apply(s, st)
  {
    LegalMore([], s, st);
    hide Allowed, Apply;
    assert [] + [s] == [s];
  }

  lemma LegalThree(a: Step, b: Step, c: Step, st: State)
    ensures Legal([a, b, c], st) <==>
      Allowed(a, st) && Allowed(b, Apply(a, st)) && Allowed(c, Apply(b, Apply(a, st)))
    ensures Legal([a, b, c], st) ==> After([a, b, c], st) == Apply(c, Apply(b, Apply(a, st)))
  {
    hide *;
    LegalAlone(a, st);
    LegalMore([a], b, st);
    LegalMore([a] + [b], c, st);
    assert [a] + [b] + [c] == [a, b, c];
  }

  /** An undisturbed invocation that holds the lock is admitted exactly if the record lets it in. */
  lemma AdmittedIffAdmissible(st: State, p: nat)
    requires At(st, p, Runner(Locked))
    ensures Legal(Checks(st, p), st) <==> Admissible(st)
    ensures Admissible(st) ==> After(Checks(st, p), st) == SetRole(st, p, Runner(Admitted))
  {
    if st.record.Some? && st.record.value.boot == st.boot {
      LegalThree(ReadPrevious(p), CensusSession(p), CensusGate(p), st);
      var prev := st.record.value;
      if WellFormed(prev) {
        var checking := SetRole(st, p, Runner(CheckSession(prev)));
        SameCensus(st, p, CheckSession(prev));
        SameCensus(st, p, CheckGate(prev));
        assert SetRole(checking, p, Runner(CheckGate(prev))).procs == SetRole(st, p, Runner(CheckGate(prev))).procs;
        assert SetRole(SetRole(st, p, Runner(CheckGate(prev))), p, Runner(Admitted)).procs
            == SetRole(st, p, Runner(Admitted)).procs;
      }
    } else {
      LegalAlone(ReadPrevious(p), st);
    }
  }

  lemma SameCensus(st: State, p: nat, pc: RunPc)
    requires p in st.procs
    ensures forall sid :: NoMembers(SetRole(st, p, Runner(pc)), sid) <==> NoMembers(st, sid)
  {
    var st' := SetRole(st, p, Runner(pc));
    forall sid ensures NoMembers(st', sid) <==> NoMembers(st, sid) {
      assert forall q | q in st.procs :: st'.procs[q].session == st.procs[q].session;
    }
  }

  // ----- An interrupted gate -----

  predicate Interrupted(r: Record) {
    r.gateStarted && r.gateExit.None?
  }

  predicate InterruptedNow(st: State) {
    st.record.Some? && st.record.value.boot == st.boot && Interrupted(st.record.value)
  }

  /** No step that settles a started gate: a noted exit, a cleared record, a newer lifecycle, a reboot. */
  predicate Unresolved(log: seq<Step>, m: nat, n: nat)
    requires n <= |log|
  {
    forall i | m < i < n :: !log[i].NoteExit? && !log[i].SaveClear? && !log[i].SaveSession? && !log[i].Reboot?
  }

  lemma MarkInterrupts(s: Step, st: State)
    requires Inv(st) && Allowed(s, st) && s.MarkGate?
    ensures InterruptedNow(Apply(s, st))
  {
    GaterHas(st, s.p);
    hide Inv, OneOwner, OneGate;
  }

  lemma MarkStandsStep(s: Step, st: State)
    requires Inv(st) && InterruptedNow(st) && Allowed(s, st)
    requires !s.NoteExit? && !s.SaveClear? && !s.SaveSession? && !s.Reboot?
    ensures InterruptedNow(Apply(s, st))
  {
    StepWrites(s, st);
    if s.MarkGate? || s.SaveGate? {
      GateMarkStands(s, st);
    } else if s.SaveFinal? {
      FinalMarkStands(s, st);
    }
    hide Inv, Allowed, Apply;
  }

  lemma GateMarkStands(s: Step, st: State)
    requires Inv(st) && InterruptedNow(st) && Allowed(s, st) && (s.MarkGate? || s.SaveGate?)
    ensures InterruptedNow(Apply(s, st))
  {
    GaterHas(st, s.p);
    hide Inv, OneOwner, OneGate;
  }

  lemma FinalMarkStands(s: Step, st: State)
    requires Inv(st) && InterruptedNow(st) && Allowed(s, st) && s.SaveFinal?
    ensures InterruptedNow(Apply(s, st))
  {
    RunnerHas(st, s.p);
    hide Inv, OneOwner, OneGate;
  }

  lemma {:induction false} MarkStands(log: seq<Step>, st: State, m: nat, n: nat)
    requires Initial(st) && Legal(log, st) && m < n <= |log| && log[m].MarkGate? && Unresolved(log, m, n)
    ensures InterruptedNow(StateAt(log, st, n))
  {
    hide Allowed, Apply, Inv, InterruptedNow;
    RunsKeepInv(log, st, n - 1);
    StateSteps(log, st, n - 1);
    if n == m + 1 {
      MarkInterrupts(log[m], StateAt(log, st, m));
    } else {
      MarkStands(log, st, m, n - 1);
      MarkStandsStep(log[n - 1], StateAt(log, st, n - 1));
    }
  }

  /** The invocation is checking this copy of the record. */
  predicate Checking(st: State, p: nat, prev: Record) {
    p in st.procs && Checked(st.procs[p].role) == Some(prev)
  }

  lemma MarkLeavesChecking(s: Step, st: State, p: nat, prev: Record)
    requires Allowed(s, st) && s.MarkGate? && Checking(Apply(s, st), p, prev)
    ensures Checking(st, p, prev)
  {
  }

  lemma FreshReadIsInterrupted(s: Step, st: State, p: nat, prev: Record)
    requires Allowed(s, st) && Checking(Apply(s, st), p, prev) && InterruptedNow(st) && !Interrupted(prev)
    ensures Checking(st, p, prev)
  {
    CheckedHasSource(s, st, p);
    hide Allowed, Apply;
  }

  /** Whoever checks an innocent copy while a gate is interrupted read it before the gate started. */
  lemma {:induction false} CheckedSince(log: seq<Step>, st: State, m: nat, n: nat, p: nat, prev: Record)
    requires Initial(st) && Legal(log, st) && m < n <= |log| && log[m].MarkGate? && Unresolved(log, m, n)
    requires Checking(StateAt(log, st, n), p, prev) && !Interrupted(prev)
    ensures forall j | m <= j <= n :: Checking(StateAt(log, st, j), p, prev)
  {
    hide Allowed, Apply, Checking, InterruptedNow, Interrupted;
    StateSteps(log, st, n - 1);
    if n == m + 1 {
      MarkLeavesChecking(log[m], StateAt(log, st, m), p, prev);
    } else {
      MarkStands(log, st, m, n - 1);
      FreshReadIsInterrupted(log[n - 1], StateAt(log, st, n - 1), p, prev);
      CheckedSince(log, st, m, n - 1, p, prev);
    }
  }

  lemma AdmissionHasSource(s: Step, st: State, p: nat)
    requires Allowed(s, st) && At(Apply(s, st), p, Runner(Admitted))
    ensures
      || At(st, p, Runner(Admitted))
      || (s == CensusGate(p) && exists prev :: Checking(st, p, prev) && !Interrupted(prev))
      || (s == ReadPrevious(p) && !InterruptedNow(st))
  {
    if s == CensusGate(p) {
      assert Checking(st, p, st.procs[p].role.run.prev);
    }
    hide NoMembers, WellFormed, Fresh;
  }

  lemma GaterMeetsNoAdmitted(s: Step, st: State, p: nat)
    requires Inv(st) && Allowed(s, st) && s.MarkGate?
    ensures !At(Apply(s, st), p, Runner(Admitted))
  {
    GaterHas(st, s.p);
    if At(st, p, Runner(Admitted)) {
      RunnerHas(st, p);
      GaterExcludes(st, s.p, Admitted);
    }
    hide Inv, OneOwner, OneGate;
  }

  ghost predicate CheckingThrough(log: seq<Step>, st: State, m: nat, k: nat, p: nat, prev: Record)
    requires Legal(log, st) && k <= |log|
  {
    forall j | m <= j <= k :: Checking(StateAt(log, st, j), p, prev)
  }

  /** The invocation at `p` read before step `m`, passed its gate census at `k`, and is admitted since. */
  ghost predicate ReadBefore(log: seq<Step>, st: State, m: nat, k: nat, n: nat, p: nat)
    requires Legal(log, st)
  {
    && m < k < n <= |log| && log[k] == CensusGate(p)
    && (exists prev :: CheckingThrough(log, st, m, k, p, prev))
    && (forall j | k < j <= n :: At(StateAt(log, st, j), p, Runner(Admitted)))
  }

  /**
    While a gate of this boot is interrupted - started, and neither its exit noted nor its record
    settled since - the only invocation that can be admitted is one that read the record before.
   */
  lemma {:induction false} InterruptedGateBlocks(log: seq<Step>, st: State, m: nat, n: nat, p: nat)
    requires Initial(st) && Legal(log, st) && m < n <= |log| && log[m].MarkGate? && Unresolved(log, m, n)
    requires At(StateAt(log, st, n), p, Runner(Admitted))
    ensures exists k: nat :: ReadBefore(log, st, m, k, n, p)
  {
    hide Allowed, Apply, Inv, Checking, InterruptedNow, Interrupted, At;
    StateSteps(log, st, n - 1);
    RunsKeepInv(log, st, n - 1);
    if n == m + 1 {
      GaterMeetsNoAdmitted(log[m], StateAt(log, st, m), p);
      assert false;
    } else {
      MarkStands(log, st, m, n - 1);
      AdmissionHasSource(log[n - 1], StateAt(log, st, n - 1), p);
      if At(StateAt(log, st, n - 1), p, Runner(Admitted)) {
        InterruptedGateBlocks(log, st, m, n - 1, p);
        var k: nat :| ReadBefore(log, st, m, k, n - 1, p);
        assert ReadBefore(log, st, m, k, n, p);
      } else {
        var prev :| Checking(StateAt(log, st, n - 1), p, prev) && !Interrupted(prev);
        CheckedSince(log, st, m, n - 1, p, prev);
        assert CheckingThrough(log, st, m, n - 1, p, prev);
        assert ReadBefore(log, st, m, n - 1, n, p);
      }
    }
  }

  lemma ReaderIsNeither(log: seq<Step>, st: State, r: nat, p: nat, prev: Record)
    requires Legal(log, st) && r < |log| && log[r] == ReadPrevious(p)
    ensures !Checking(StateAt(log, st, r), p, prev) && !At(StateAt(log, st, r), p, Runner(Admitted))
  {
    StateSteps(log, st, r);
  }

  /** Whoever reads the record after the gate started is not admitted until that is resolved. */
  lemma ReaderIsRefused(log: seq<Step>, st: State, m: nat, r: nat, n: nat, p: nat)
    requires Initial(st) && Legal(log, st) && m < r < n <= |log|
    requires log[m].MarkGate? && Unresolved(log, m, n) && log[r] == ReadPrevious(p)
    ensures !At(StateAt(log, st, n), p, Runner(Admitted))
  {
    hide Allowed, Apply, Checking, At;
    if At(StateAt(log, st, n), p, Runner(Admitted)) {
      InterruptedGateBlocks(log, st, m, n, p);
      var k: nat :| ReadBefore(log, st, m, k, n, p);
      var prev :| CheckingThrough(log, st, m, k, p, prev);
      ReaderIsNeither(log, st, r, p, prev);
    }
  }

  // ----- A status -----

  /** At step `i` the leader `c` had exited, and the record named this gate session. */
  ghost predicate ExitSeen(log: seq<Step>, st: State, i: nat, p: nat, c: nat, gate: Option<nat>)
    requires Legal(log, st)
  {
    && i < |log| && log[i] == ReadGate(p) && c !in StateAt(log, st, i).procs
    && StateAt(log, st, i).record.Some? && StateAt(log, st, i).record.value.gateSession == gate
  }

  lemma CountingHasSource(s: Step, st: State, p: nat, c: nat, gate: Option<nat>)
    requires Allowed(s, st) && At(Apply(s, st), p, Runner(Counting(c, gate)))
    ensures
      || At(st, p, Runner(Counting(c, gate)))
      || (s == ReadGate(p) && c !in st.procs && st.record.Some? && st.record.value.gateSession == gate)
  {
    hide NoMembers, WellFormed, Fresh;
  }

  lemma CountedHasSource(s: Step, st: State, p: nat, c: nat, gate: Option<nat>)
    requires Allowed(s, st) && At(Apply(s, st), p, Runner(CountingGate(c, gate)))
    ensures
      || At(st, p, Runner(CountingGate(c, gate)))
      || (s == CountOwn(p) && NoMembers(st, c) && At(st, p, Runner(Counting(c, gate))))
  {
    hide WellFormed, Fresh;
  }

  lemma {:induction false} CountingSawExit(log: seq<Step>, st: State, n: nat, p: nat, c: nat, gate: Option<nat>)
    requires Initial(st) && Legal(log, st) && n <= |log| && At(StateAt(log, st, n), p, Runner(Counting(c, gate)))
    ensures exists i: nat :: i < n && ExitSeen(log, st, i, p, c, gate)
  {
    hide Allowed, Apply;
    assert log[..0] == [];
    if n > 0 {
      StateSteps(log, st, n - 1);
      CountingHasSource(log[n - 1], StateAt(log, st, n - 1), p, c, gate);
      if At(StateAt(log, st, n - 1), p, Runner(Counting(c, gate))) {
        CountingSawExit(log, st, n - 1, p, c, gate);
      } else {
        assert ExitSeen(log, st, n - 1, p, c, gate);
      }
    }
  }

  /** After the exit was seen, the leader's own session was found empty. */
  ghost predicate OwnEmpty(log: seq<Step>, st: State, i: nat, j: nat, p: nat, c: nat, gate: Option<nat>)
    requires Legal(log, st)
  {
    i < j < |log| && ExitSeen(log, st, i, p, c, gate) && log[j] == CountOwn(p) && NoMembers(StateAt(log, st, j), c)
  }

  lemma {:induction false} CountedSawBoth(log: seq<Step>, st: State, n: nat, p: nat, c: nat, gate: Option<nat>)
    requires Initial(st) && Legal(log, st) && n <= |log| && At(StateAt(log, st, n), p, Runner(CountingGate(c, gate)))
    ensures exists i: nat, j: nat :: j < n && OwnEmpty(log, st, i, j, p, c, gate)
  {
    hide Allowed, Apply, ExitSeen;
    assert log[..0] == [];
    if n > 0 {
      StateSteps(log, st, n - 1);
      CountedHasSource(log[n - 1], StateAt(log, st, n - 1), p, c, gate);
      if At(StateAt(log, st, n - 1), p, Runner(CountingGate(c, gate))) {
        CountedSawBoth(log, st, n - 1, p, c, gate);
      } else {
        CountingSawExit(log, st, n - 1, p, c, gate);
        var i: nat :| i < n - 1 && ExitSeen(log, st, i, p, c, gate);
        assert OwnEmpty(log, st, i, n - 1, p, c, gate);
      }
    }
  }

  /**
    `run` finishes with a status only after its leader had exited, then its session was found
    empty, and then the gate session that the record had named at the exit was found empty.
   */
  lemma StatusFollowsCensuses(log: seq<Step>, st: State, k: nat)
    requires Initial(st) && Legal(log, st) && k < |log| && log[k].CountGate?
    ensures exists c: nat, gate: Option<nat>, i: nat, j: nat ::
      && j < k && OwnEmpty(log, st, i, j, log[k].p, c, gate)
      && At(StateAt(log, st, k + 1), log[k].p, Runner(Finished(c)))
      && (gate.Some? ==> NoMembers(StateAt(log, st, k), gate.value))
  {
    StateSteps(log, st, k);
    var p := log[k].p;
    var pc := StateAt(log, st, k).procs[p].role.run;
    hide OwnEmpty;
    CountedSawBoth(log, st, k, p, pc.child, pc.gate);
    var i: nat, j: nat :| j < k && OwnEmpty(log, st, i, j, p, pc.child, pc.gate);
  }

  // ----- What the next invocation finds -----

  /** A lifecycle that completed without a gate left lets the next one in at once. */
  lemma CompletedLetsNextIn(s: Step, st: State)
    requires Inv(st) && Allowed(s, st) && s.SaveFinal? && st.record.Some?
    ensures !st.record.value.gateStarted && st.record.value.gateExit.None? ==> Admissible(Apply(s, st))
  {
    RunnerHas(st, s.p);
    RecordHas(st);
    hide Inv, OneOwner, OneGate;
  }

  /** A settled gate leaves the record as it was before the gate started. */
  lemma ClearedGateIsForgotten(s: Step, st: State)
    requires Inv(st) && Allowed(s, st) && s.SaveClear?
    ensures
      var now := Apply(s, st);
      && st.record.Some? && now.record.Some? && !Interrupted(now.record.value)
      && now.record.value == st.record.value.(gateStarted := false, gateSession := None, gateExit := None)
      && (forall sid | st.record.value.gateSession == Some(sid) :: NoMembers(st, sid))
  {
    GaterHas(st, s.p);
    hide Inv, OneOwner, OneGate;
  }

  lemma NotedHasSource(s: Step, st: State, p: nat, c: nat)
    requires Allowed(s, st) && At(Apply(s, st), p, Gater(GateNoted(c)))
    ensures
      || At(st, p, Gater(GateNoted(c)))
      || (s.NoteExit? && s.p == p && c !in st.procs && Apply(s, st).record.Some?
          && Apply(s, st).record.value.gateExit == Some(s.code))
  {
    hide NoMembers, WellFormed, Fresh;
  }

  /** A gate's exit is noted, durably, only once its leader has exited, and before its survivors are counted. */
  lemma {:induction false} GateExitIsNoted(log: seq<Step>, st: State, n: nat, p: nat, c: nat)
    requires Initial(st) && Legal(log, st) && n <= |log| && At(StateAt(log, st, n), p, Gater(GateNoted(c)))
    ensures exists i: nat ::
      && i < n && log[i].NoteExit? && log[i].p == p && c !in StateAt(log, st, i).procs
      && StateAt(log, st, i + 1).record.Some?
      && StateAt(log, st, i + 1).record.value.gateExit == Some(log[i].code)
  {
    hide Allowed, Apply;
    assert log[..0] == [];
    if n > 0 {
      StateSteps(log, st, n - 1);
      NotedHasSource(log[n - 1], StateAt(log, st, n - 1), p, c);
      if At(StateAt(log, st, n - 1), p, Gater(GateNoted(c))) {
        GateExitIsNoted(log, st, n - 1, p, c);
      }
    }
  }
}

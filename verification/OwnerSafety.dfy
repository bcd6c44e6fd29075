/** What every interleaving of the ownership protocol keeps, whatever was admitted. */
module OwnerSafety {
  import opened Wrappers
  import opened OwnerProtocol

  /** The record names this session on the current boot. */
  predicate Names(st: State, sid: nat) {
    && st.record.Some? && st.record.value.boot == st.boot
    && (st.record.value.session == Some(sid) || st.record.value.gateSession == Some(sid))
  }

  predicate Critical(r: Role) {
    r.Runner? && !r.run.Opening? && !r.run.Returned?
  }

  predicate OwnsRecord(st: State, child: nat) {
    st.record.Some? && st.record.value.boot == st.boot && st.record.value.session == Some(child)
  }

  /** Only the gate fields can have changed since this record was read. */
  predicate SameLifecycle(st: State, prev: Record) {
    && st.record.Some? && st.record.value.boot == st.boot
    && st.record.value.session == prev.session
  }

  predicate Waits(st: State, c: nat) {
    c in st.procs ==> st.procs[c].role == Blocked(false)
  }

  /** Nothing runs, or is about to, in the lifecycle session that the record names on this boot. */
  predicate LifecycleQuiet(st: State) {
    st.record.Some? && st.record.value.boot == st.boot && st.record.value.session.Some? ==>
      NoneActiveIn(st, st.record.value.session.value)
  }

  /** What a `run` invocation may rely on at each point. */
  predicate RunFacts(st: State, pc: RunPc) {
    match pc
    case Opening => true
    case Locked => true
    case CheckSession(prev) => SameLifecycle(st, prev)
    case CheckGate(prev) =>
      SameLifecycle(st, prev) && (prev.session.Some? ==> NoneActiveIn(st, prev.session.value))
    case Admitted => LifecycleQuiet(st)
    case Forked(c) => LifecycleQuiet(st) && NoneActiveIn(st, c) && Waits(st, c)
    case Recorded(c) => OwnsRecord(st, c) && LifecycleQuiet(st) && Waits(st, c)
    case Watching(c) => OwnsRecord(st, c)
    case Counting(c, _) => OwnsRecord(st, c)
    case CountingGate(c, _) => OwnsRecord(st, c) && NoMembers(st, c)
    case Finished(c) => OwnsRecord(st, c) && NoMembers(st, c)
    case Completing(c, copy) => OwnsRecord(st, c) && NoMembers(st, c) && st.record == Some(copy)
    case Returned => true
  }

  predicate GateRuns(st: State, child: nat) {
    st.record.Some? && st.record.value.gateStarted && st.record.value.gateSession == Some(child)
  }

  /** What a gate supervisor may rely on at each point. */
  predicate GateFacts(st: State, pc: GatePc) {
    match pc
    case GateRead(copy) => st.record == Some(copy) && !copy.gateStarted && copy.gateSession.None?
    case GateMarked(copy) => st.record == Some(copy) && copy.gateStarted && copy.gateSession.None?
    case GateForked(copy, c) =>
      st.record == Some(copy) && copy.gateStarted && copy.gateSession.None? && Waits(st, c)
    case GateRecorded(c) => GateRuns(st, c)
    case GateWatching(c) => GateRuns(st, c)
    case GateNoted(c) => GateRuns(st, c)
    case GateFinished(c) => GateRuns(st, c) && NoMembers(st, c)
    case GateClearing(copy, c) => GateRuns(st, c) && NoMembers(st, c) && st.record == Some(copy)
  }

  predicate BlockedLeads(st: State) {
    forall q | q in st.procs && st.procs[q].role.Blocked? :: st.procs[q].session == q
  }

  predicate OneOwner(st: State) {
    && (forall p | p in st.procs && Critical(st.procs[p].role) :: st.procs[p].lock)
    && (forall p, q | p in st.procs && q in st.procs && Critical(st.procs[p].role) && Critical(st.procs[q].role) ::
          p == q)
  }

  predicate OneGate(st: State) {
    && (forall p | p in st.procs && st.procs[p].role.Gater? :: OwnsRecord(st, st.procs[p].session))
    && (forall p, q | p in st.procs && q in st.procs && st.procs[p].role.Gater? && st.procs[q].role.Gater? :: p == q)
  }

  predicate GateSound(record: Option<Record>) {
    record.Some? && !record.value.gateStarted ==> record.value.gateSession.None?
  }

  predicate RunnersSound(st: State) {
    forall p | p in st.procs && st.procs[p].role.Runner? :: RunFacts(st, st.procs[p].role.run)
  }

  predicate GatersSound(st: State) {
    forall p | p in st.procs && st.procs[p].role.Gater? :: GateFacts(st, st.procs[p].role.gate)
  }

  predicate Inv(st: State) {
    && BlockedLeads(st) && OneOwner(st) && OneGate(st)
    && RunnersSound(st) && GatersSound(st) && GateSound(st.record)
  }

  // ----- One process changes, the others and the record do not -----

  /** The later state has the same record, and no process that is new, newly active or newly blocked. */
  predicate Calmer(st: State, st': State) {
    && st'.boot == st.boot && st'.record == st.record
    && (forall x | x in st'.procs ::
          && x in st.procs && st'.procs[x].session == st.procs[x].session
          && (Active(st'.procs[x].role) ==> Active(st.procs[x].role))
          && (st'.procs[x].role.Blocked? ==> st'.procs[x].role == st.procs[x].role)
          && (st.procs[x].role == Blocked(false) ==> st'.procs[x].role == Blocked(false)))
  }

  lemma RunFrame(st: State, st': State, pc: RunPc)
    requires Calmer(st, st') && RunFacts(st, pc)
    ensures RunFacts(st', pc)
  {
    hide Active;
  }

  lemma GateFrame(st: State, st': State, pc: GatePc)
    requires Calmer(st, st') && GateFacts(st, pc)
    ensures GateFacts(st', pc)
  {
    hide Active;
  }

  lemma CalmerLeads(st: State, st': State)
    requires Calmer(st, st') && BlockedLeads(st)
    ensures BlockedLeads(st')
  {
    hide Active;
  }

  /** A calmer state is as sound as the facts its processes had before. */
  lemma CalmerKeeps(st: State, st': State)
    requires Inv(st) && Calmer(st, st') && OneOwner(st') && OneGate(st')
    requires forall q | q in st'.procs && st'.procs[q].role.Runner? :: RunFacts(st, st'.procs[q].role.run)
    requires forall q | q in st'.procs && st'.procs[q].role.Gater? :: GateFacts(st, st'.procs[q].role.gate)
    ensures Inv(st')
  {
    assert st'.record == st.record;
    hide RunFacts, GateFacts, OneOwner, OneGate, BlockedLeads, Calmer;
    CalmerLeads(st, st');
    forall q | q in st'.procs && st'.procs[q].role.Runner? ensures RunFacts(st', st'.procs[q].role.run) {
      RunFrame(st, st', st'.procs[q].role.run);
    }
    forall q | q in st'.procs && st'.procs[q].role.Gater? ensures GateFacts(st', st'.procs[q].role.gate) {
      GateFrame(st, st', st'.procs[q].role.gate);
    }
  }

  function Put(st: State, p: nat, x: Proc): State {
    st.(procs := st.procs[p := x])
  }

  /** One process changes role without becoming active. */
  lemma PutKeeps(st: State, p: nat, x: Proc)
    requires Inv(st) && p in st.procs && x.session == st.procs[p].session
    requires Active(x.role) ==> Active(st.procs[p].role)
    requires !x.role.Blocked? && st.procs[p].role != Blocked(false)
    requires OneOwner(Put(st, p, x)) && OneGate(Put(st, p, x))
    requires x.role.Runner? ==> RunFacts(st, x.role.run)
    requires x.role.Gater? ==> GateFacts(st, x.role.gate)
    ensures Inv(Put(st, p, x))
  {
    hide RunFacts, GateFacts, OneOwner, OneGate, BlockedLeads;
    var st' := Put(st, p, x);
    assert Calmer(st, st');
    assert RunnersSound(st) && GatersSound(st);
    CalmerKeeps(st, st');
  }

  lemma PutKeepsOwner(st: State, p: nat, x: Proc)
    requires OneOwner(st) && p in st.procs
    requires Critical(x.role) ==>
      x.lock && (Critical(st.procs[p].role) || forall q | q in st.procs :: !st.procs[q].lock)
    ensures OneOwner(Put(st, p, x))
  {
  }

  lemma PutKeepsGate(st: State, p: nat, x: Proc)
    requires OneGate(st) && p in st.procs && x.session == st.procs[p].session
    requires x.role.Gater? && !st.procs[p].role.Gater? ==>
      OwnsRecord(st, x.session) && forall q | q in st.procs :: !st.procs[q].role.Gater?
    ensures OneGate(Put(st, p, x))
  {
  }

  /** What the invariant says of one process. */
  lemma RunnerHas(st: State, p: nat)
    requires Inv(st) && p in st.procs && st.procs[p].role.Runner?
    ensures RunFacts(st, st.procs[p].role.run) && OneOwner(st) && OneGate(st)
    ensures Critical(st.procs[p].role) ==> st.procs[p].lock
  {
  }

  lemma GaterHas(st: State, p: nat)
    requires Inv(st) && p in st.procs && st.procs[p].role.Gater?
    ensures GateFacts(st, st.procs[p].role.gate) && OneOwner(st) && OneGate(st)
    ensures OwnsRecord(st, st.procs[p].session)
  {
  }

  lemma RecordHas(st: State)
    requires Inv(st)
    ensures GateSound(st.record) && OneOwner(st) && OneGate(st)
  {
  }

  lemma LockStep(s: Step, st: State)
    requires Inv(st) && Allowed(s, st) && s.Lock?
    ensures Inv(Apply(s, st))
  {
    RunnerHas(st, s.p);
    hide Inv, RunFacts, OneOwner, OneGate;
    var x := st.procs[s.p].(role := Runner(Locked), lock := true);
    PutKeepsOwner(st, s.p, x);
    PutKeepsGate(st, s.p, x);
    LockedNeedsNothing(st);
    PutKeeps(st, s.p, x);
  }

  lemma LockedNeedsNothing(st: State)
    ensures RunFacts(st, Opening) && RunFacts(st, Locked) && RunFacts(st, Returned)
  {
  }

  /** A runner moves on inside its critical section, the record unchanged. */
  lemma RunnerMoves(st: State, p: nat, pc: RunPc)
    requires Inv(st) && p in st.procs && Critical(st.procs[p].role) && RunFacts(st, pc)
    ensures Inv(SetRole(st, p, Runner(pc)))
  {
    RunnerHas(st, p);
    hide Inv, RunFacts, OneOwner, OneGate;
    var x := st.procs[p].(role := Runner(pc));
    PutKeepsOwner(st, p, x);
    PutKeepsGate(st, p, x);
    PutKeeps(st, p, x);
  }

  lemma ReadPreviousStep(s: Step, st: State)
    requires Inv(st) && Allowed(s, st) && s.ReadPrevious?
    ensures Inv(Apply(s, st))
  {
    var pc := Apply(s, st).procs[s.p].role.run;
    assert RunFacts(st, pc);
    hide Inv, RunFacts;
    RunnerMoves(st, s.p, pc);
  }

  lemma CensusSessionStep(s: Step, st: State)
    requires Inv(st) && Allowed(s, st) && s.CensusSession?
    ensures Inv(Apply(s, st))
  {
    RunnerHas(st, s.p);
    assert RunFacts(st, CheckGate(st.procs[s.p].role.run.prev));
    hide Inv, RunFacts;
    RunnerMoves(st, s.p, CheckGate(st.procs[s.p].role.run.prev));
  }

  lemma CensusGateStep(s: Step, st: State)
    requires Inv(st) && Allowed(s, st) && s.CensusGate?
    ensures Inv(Apply(s, st))
  {
    RunnerHas(st, s.p);
    assert RunFacts(st, Admitted);
    hide Inv, RunFacts;
    RunnerMoves(st, s.p, Admitted);
  }

  lemma CountingStep(s: Step, st: State)
    requires Inv(st) && Allowed(s, st) && (s.ReadGate? || s.CountOwn? || s.CountGate? || s.ReadFinal?)
    ensures Inv(Apply(s, st))
  {
    hide Inv, OneOwner, OneGate;
    RunnerHas(st, s.p);
    var pc := Apply(s, st).procs[s.p].role.run;
    assert RunFacts(st, pc);
    hide RunFacts;
    RunnerMoves(st, s.p, pc);
  }

  lemma StartStep(s: Step, st: State)
    requires Inv(st) && Allowed(s, st) && s.Start?
    ensures Inv(Apply(s, st))
  {
    assert OneOwner(st) && OneGate(st);
    hide Inv, OneOwner, OneGate;
    var x := st.procs[s.p].(role := Worker);
    PutKeepsOwner(st, s.p, x);
    PutKeepsGate(st, s.p, x);
    PutKeeps(st, s.p, x);
  }

  lemma DropLockStep(s: Step, st: State)
    requires Inv(st) && Allowed(s, st) && s.DropLock?
    ensures Inv(Apply(s, st))
  {
    assert OneOwner(st) && OneGate(st);
    hide Inv, OneOwner, OneGate;
    var x := st.procs[s.p].(lock := false);
    PutKeepsOwner(st, s.p, x);
    PutKeepsGate(st, s.p, x);
    PutKeeps(st, s.p, x);
  }

  /** A gate supervisor moves on, the record unchanged. */
  lemma GaterMoves(st: State, p: nat, role: Role)
    requires Inv(st) && p in st.procs && Executing(st.procs[p].role) && Executing(role)
    requires role.Gater? ==> GateFacts(st, role.gate)
    requires role.Gater? && !st.procs[p].role.Gater? ==>
      OwnsRecord(st, st.procs[p].session) && forall q | q in st.procs :: !st.procs[q].role.Gater?
    ensures Inv(SetRole(st, p, role))
  {
    assert OneOwner(st) && OneGate(st);
    hide Inv, GateFacts, OneOwner, OneGate;
    var x := st.procs[p].(role := role);
    PutKeepsOwner(st, p, x);
    PutKeepsGate(st, p, x);
    PutKeeps(st, p, x);
  }

  lemma GaterStep(s: Step, st: State)
    requires Inv(st) && Allowed(s, st)
    requires s.EnterGate? || s.CountGateOwn? || s.ReadClear? || s.LeaveGate?
    ensures Inv(Apply(s, st))
  {
    hide Inv, OneOwner, OneGate;
    if !s.EnterGate? {
      GaterHas(st, s.p);
    }
    RecordHas(st);
    var role := Apply(s, st).procs[s.p].role;
    assert role.Gater? ==> GateFacts(st, role.gate);
    hide GateFacts;
    GaterMoves(st, s.p, role);
  }

  lemma FewerStep(s: Step, st: State)
    requires Inv(st) && Allowed(s, st) && (s.Die? || s.Reboot?)
    ensures Inv(Apply(s, st))
  {
    var st' := Apply(s, st);
    assert OneOwner(st') && OneGate(st');
    assert RunnersSound(st) && GatersSound(st);
    hide RunFacts, GateFacts, OneOwner, OneGate, BlockedLeads;
    if s.Die? {
      assert Calmer(st, st');
      CalmerKeeps(st, st');
    } else {
      NobodyIsSound(st');
    }
  }

  lemma NobodyIsSound(st: State)
    requires st.procs == map[] && GateSound(st.record)
    ensures Inv(st)
  {
  }

  // ----- A process is added -----

  /** A process that joins an occupied session, or starts one under a fresh identifier. */
  predicate Grows(st: State, x: nat, proc: Proc) {
    && Fresh(st, x) && (proc.session == x || !NoMembers(st, proc.session))
    && (proc.role.Blocked? ==> proc.session == x && !proc.role.go)
    && (Active(proc.role) ==> !NoneActiveIn(st, proc.session))
  }

  lemma RunGrows(st: State, x: nat, proc: Proc, role: Role)
    requires Grows(st, x, proc) && role.Runner? && Pinned(role) != Some(x) && RunFacts(st, role.run)
    ensures RunFacts(Put(st, x, proc), role.run)
  {
    GrowthIsQuiet(st, x, proc);
    hide Active, Grows;
    match role.run
    case Forked(c) => assert c != x;
    case Recorded(c) => assert c != x;
    case CountingGate(c, _) => assert c != x;
    case Finished(c) => assert c != x;
    case Completing(c, _) => assert c != x;
    case _ =>
  }

  lemma GrowthIsQuiet(st: State, x: nat, proc: Proc)
    requires Grows(st, x, proc)
    ensures LifecycleQuiet(st) ==> LifecycleQuiet(Put(st, x, proc))
    ensures forall sid | NoneActiveIn(st, sid) :: NoneActiveIn(Put(st, x, proc), sid)
    ensures forall sid | NoMembers(st, sid) && sid != x :: NoMembers(Put(st, x, proc), sid)
  {
    hide Active;
  }

  lemma GateGrows(st: State, x: nat, proc: Proc, role: Role)
    requires Grows(st, x, proc) && role.Gater? && Pinned(role) != Some(x) && GateFacts(st, role.gate)
    ensures GateFacts(Put(st, x, proc), role.gate)
  {
    GrowthIsQuiet(st, x, proc);
    hide Active, Grows;
  }

  lemma GrowthLeads(st: State, x: nat, proc: Proc)
    requires Grows(st, x, proc) && BlockedLeads(st)
    ensures BlockedLeads(Put(st, x, proc))
  {
  }

  lemma GrowthOwners(st: State, x: nat, proc: Proc)
    requires OneOwner(st) && OneGate(st) && x !in st.procs && !proc.role.Gater? && !Critical(proc.role)
    ensures OneOwner(Put(st, x, proc)) && OneGate(Put(st, x, proc))
  {
  }

  lemma GrowthKeeps(st: State, x: nat, proc: Proc)
    requires Inv(st) && Grows(st, x, proc) && !proc.role.Gater? && !Critical(proc.role)
    ensures Inv(Put(st, x, proc))
  {
    var st' := Put(st, x, proc);
    assert forall q | q in st.procs :: Pinned(st.procs[q].role) != Some(x);
    assert x !in st.procs;
    hide RunFacts, GateFacts, OneOwner, OneGate, BlockedLeads, Grows, Pinned;
    GrowthLeads(st, x, proc);
    GrowthOwners(st, x, proc);
    forall q | q in st'.procs && st'.procs[q].role.Runner? ensures RunFacts(st', st'.procs[q].role.run) {
      if q == x {
        LockedNeedsNothing(st');
      } else {
        RunGrows(st, x, proc, st.procs[q].role);
      }
    }
    forall q | q in st'.procs && st'.procs[q].role.Gater? ensures GateFacts(st', st'.procs[q].role.gate) {
      GateGrows(st, x, proc, st.procs[q].role);
    }
  }

  lemma EnterStep(s: Step, st: State)
    requires Inv(st) && Allowed(s, st) && s.Enter?
    ensures Inv(Apply(s, st))
  {
    hide Inv, Fresh, NoMembers;
    GrowthKeeps(st, s.p, Proc(s.sid, Runner(Opening), false));
  }

  lemma SpawnStep(s: Step, st: State)
    requires Inv(st) && Allowed(s, st) && s.Spawn?
    ensures Inv(Apply(s, st))
  {
    hide Inv, Fresh;
    GrowthKeeps(st, s.child, Proc(st.procs[s.p].session, Worker, s.keep));
  }

  lemma ForkStep(s: Step, st: State)
    requires Inv(st) && Allowed(s, st) && s.Fork?
    ensures Inv(Apply(s, st))
  {
    RunnerHas(st, s.p);
    var child := Proc(s.child, Blocked(false), st.procs[s.p].lock);
    assert Grows(st, s.child, child);
    assert s.p != s.child;
    GrowthIsQuiet(st, s.child, child);
    assert RunFacts(Put(st, s.child, child), Forked(s.child));
    hide Inv, RunFacts, Grows;
    GrowthKeeps(st, s.child, child);
    RunnerMoves(Put(st, s.child, child), s.p, Forked(s.child));
  }

  lemma ForkGateStep(s: Step, st: State)
    requires Inv(st) && Allowed(s, st) && s.ForkGate?
    ensures Inv(Apply(s, st))
  {
    GaterHas(st, s.p);
    var child := Proc(s.child, Blocked(false), st.procs[s.p].lock);
    assert Grows(st, s.child, child);
    assert s.p != s.child;
    assert GateFacts(Put(st, s.child, child), GateForked(st.procs[s.p].role.gate.copy, s.child));
    hide Inv, GateFacts, Grows;
    GrowthKeeps(st, s.child, child);
    GaterMoves(Put(st, s.child, child), s.p, Gater(GateForked(st.procs[s.p].role.gate.copy, s.child)));
  }

  // ----- A child is released -----

  /** While a gate supervisor lives, nobody is between its session census and its record. */
  lemma GaterExcludes(st: State, p: nat, pc: RunPc)
    requires p in st.procs && st.procs[p].role.Gater? && OwnsRecord(st, st.procs[p].session) && RunFacts(st, pc)
    ensures !pc.CheckGate? && !pc.Admitted? && !pc.Forked? && !pc.Recorded?
    ensures !pc.CountingGate? && !pc.Finished? && !pc.Completing?
  {
    assert Active(st.procs[p].role);
  }

  /** The child `c` waits no longer. */
  function Released(st: State, c: nat): State {
    if At(st, c, Blocked(false)) then Put(st, c, st.procs[c].(role := Blocked(true))) else st
  }

  lemma ReleaseOwners(st: State, c: nat)
    requires BlockedLeads(st) && OneOwner(st) && OneGate(st)
    ensures var st' := Released(st, c); BlockedLeads(st') && OneOwner(st') && OneGate(st')
  {
  }

  /** Facts that do not speak of activity or of this child survive its release. */
  lemma ReleaseKeepsRun(st: State, c: nat, pc: RunPc)
    requires RunFacts(st, pc) && !pc.CheckGate? && !pc.Admitted? && !pc.Forked? && !pc.Recorded?
    ensures RunFacts(Released(st, c), pc)
  {
  }

  lemma ReleaseKeepsGate(st: State, c: nat, pc: GatePc)
    requires GateFacts(st, pc) && !pc.GateForked?
    ensures GateFacts(Released(st, c), pc)
  {
  }

  lemma ReleaseStep(s: Step, st: State)
    requires Inv(st) && Allowed(s, st) && s.Release?
    ensures Inv(Apply(s, st))
  {
    hide Inv, OneOwner, OneGate;
    RunnerHas(st, s.p);
    var c := st.procs[s.p].role.run.child;
    assert RunFacts(st, Watching(c)) && LifecycleQuiet(st);
    QuietHasNoGater(st);
    hide RunFacts;
    RunnerMoves(st, s.p, Watching(c));
    if s.go {
      var mid := SetRole(st, s.p, Runner(Watching(c)));
      assert forall q | q in mid.procs :: !mid.procs[q].role.Gater?;
      ReleasedByRunner(mid, s.p, c);
      assert At(mid, c, Blocked(false)) == At(st, c, Blocked(false));
      assert Apply(s, st) == Released(mid, c);
    }
  }

  /** A gate supervisor belongs to the recorded lifecycle, so none exists while that is quiet. */
  lemma QuietHasNoGater(st: State)
    requires OneGate(st) && LifecycleQuiet(st)
    ensures forall q | q in st.procs :: !st.procs[q].role.Gater?
  {
    assert forall q | q in st.procs && st.procs[q].role.Gater? :: Active(st.procs[q].role);
  }

  lemma ReleasedByRunner(st: State, p: nat, c: nat)
    requires Inv(st) && At(st, p, Runner(Watching(c)))
    requires forall q | q in st.procs :: !st.procs[q].role.Gater?
    ensures Inv(Released(st, c))
  {
    RunnerHas(st, p);
    var st' := Released(st, c);
    ReleaseOwners(st, c);
    forall q | q in st'.procs && st'.procs[q].role.Runner? ensures RunFacts(st', st'.procs[q].role.run) {
      if q != p {
        assert !Critical(st.procs[q].role);
        LockedNeedsNothing(st');
      } else {
        ReleaseKeepsRun(st, c, Watching(c));
      }
    }
    hide OneOwner, OneGate, BlockedLeads, RunFacts, GateFacts;
  }

  lemma ReleaseGateStep(s: Step, st: State)
    requires Inv(st) && Allowed(s, st) && s.ReleaseGate?
    ensures Inv(Apply(s, st))
  {
    hide Inv, OneOwner, OneGate;
    GaterHas(st, s.p);
    var c := st.procs[s.p].role.gate.child;
    assert GateFacts(st, GateWatching(c));
    hide GateFacts;
    GaterMoves(st, s.p, Gater(GateWatching(c)));
    if s.go {
      var mid := SetRole(st, s.p, Gater(GateWatching(c)));
      ReleasedByGater(mid, s.p, c);
      assert At(mid, c, Blocked(false)) == At(st, c, Blocked(false));
      assert Apply(s, st) == Released(mid, c);
    }
  }

  lemma ReleasedByGater(st: State, p: nat, c: nat)
    requires Inv(st) && At(st, p, Gater(GateWatching(c)))
    ensures Inv(Released(st, c))
  {
    GaterHas(st, p);
    var st' := Released(st, c);
    ReleaseOwners(st, c);
    forall q | q in st'.procs && st'.procs[q].role.Runner? ensures RunFacts(st', st'.procs[q].role.run) {
      GaterExcludes(st, p, st.procs[q].role.run);
      ReleaseKeepsRun(st, c, st.procs[q].role.run);
    }
    forall q | q in st'.procs && st'.procs[q].role.Gater? ensures GateFacts(st', st'.procs[q].role.gate) {
      assert q == p;
      ReleaseKeepsGate(st, c, GateWatching(c));
    }
    hide OneOwner, OneGate, BlockedLeads, RunFacts, GateFacts;
  }

  // ----- The record changes -----

  /** Every other invocation is outside its critical section, so it relies on nothing. */
  lemma OthersRelyOnNothing(st: State, st': State, p: nat, q: nat)
    requires OneOwner(st) && p in st.procs && q in st.procs && q != p
    requires Critical(st.procs[p].role) && st.procs[q].role.Runner?
    ensures RunFacts(st', st.procs[q].role.run)
  {
    LockedNeedsNothing(st');
    hide RunFacts;
  }

  /** The one invocation past the lock rewrites the record while no gate is supervised. */
  lemma RunnerWrites(st: State, p: nat, x: Proc, record: Record)
    requires Inv(st) && p in st.procs && Critical(st.procs[p].role)
    requires x.session == st.procs[p].session && x.role.Runner? && (Critical(x.role) ==> x.lock)
    requires forall q | q in st.procs :: !st.procs[q].role.Gater?
    requires GateSound(Some(record))
    requires var st' := Put(st, p, x).(record := Some(record)); RunFacts(st', x.role.run)
    ensures Inv(Put(st, p, x).(record := Some(record)))
  {
    var st' := Put(st, p, x).(record := Some(record));
    assert OneOwner(st);
    WriterOwners(st, p, x, record);
    assert BlockedLeads(st');
    hide RunFacts, OneOwner, OneGate, BlockedLeads, GateFacts, Critical;
    forall q | q in st'.procs && st'.procs[q].role.Runner? ensures RunFacts(st', st'.procs[q].role.run) {
      if q != p {
        OthersRelyOnNothing(st, st', p, q);
      }
    }
  }

  lemma WriterOwners(st: State, p: nat, x: Proc, record: Record)
    requires OneOwner(st) && p in st.procs && Critical(st.procs[p].role) && (Critical(x.role) ==> x.lock)
    requires !x.role.Gater? && forall q | q in st.procs :: !st.procs[q].role.Gater?
    ensures var st' := Put(st, p, x).(record := Some(record)); OneOwner(st') && OneGate(st')
  {
  }

  lemma SaveSessionStep(s: Step, st: State)
    requires Inv(st) && Allowed(s, st) && s.SaveSession?
    ensures Inv(Apply(s, st))
  {
    RunnerHas(st, s.p);
    var c := st.procs[s.p].role.run.child;
    var x := st.procs[s.p].(role := Runner(Recorded(c)));
    var record := Record(st.boot, Some(c), false, false, None, None);
    assert LifecycleQuiet(st) && NoneActiveIn(st, c) && Waits(st, c);
    QuietHasNoGater(st);
    var st' := Put(st, s.p, x).(record := Some(record));
    assert NoneActiveIn(st', c) && Waits(st', c);
    assert RunFacts(st', Recorded(c));
    hide Inv, RunFacts;
    RunnerWrites(st, s.p, x, record);
  }

  lemma SaveFinalStep(s: Step, st: State)
    requires Inv(st) && Allowed(s, st) && s.SaveFinal?
    ensures Inv(Apply(s, st))
  {
    RunnerHas(st, s.p);
    var c, copy := st.procs[s.p].role.run.child, st.procs[s.p].role.run.copy;
    var x := st.procs[s.p].(role := Runner(Returned), lock := false);
    var record := copy.(session := None, completed := true);
    assert st.record == Some(copy) && NoMembers(st, c) && OwnsRecord(st, c);
    var st' := Put(st, s.p, x).(record := Some(record));
    EmptyHasNoGater(st, c);
    LockedNeedsNothing(st');
    assert GateSound(Some(record));
    hide Inv, RunFacts;
    RunnerWrites(st, s.p, x, record);
  }

  lemma EmptyHasNoGater(st: State, c: nat)
    requires OneGate(st) && OwnsRecord(st, c) && NoMembers(st, c)
    ensures forall q | q in st.procs :: !st.procs[q].role.Gater?
  {
  }

  /** The gate fields change; who owns the record does not. */
  lemma GateWriteKeepsRun(st: State, st': State, pc: RunPc)
    requires RunFacts(st, pc) && !pc.Completing? && st.record.Some? && st'.record.Some? && st'.boot == st.boot
    requires st'.record.value.boot == st.record.value.boot && st'.record.value.session == st.record.value.session
    requires forall q | q in st'.procs ::
      && q in st.procs && st'.procs[q].session == st.procs[q].session
      && (Active(st'.procs[q].role) ==> Active(st.procs[q].role))
      && (st.procs[q].role == Blocked(false) ==> st'.procs[q].role == Blocked(false))
    ensures RunFacts(st', pc)
  {
    hide Active;
  }

  lemma GateWriterOwners(st: State, p: nat, role: Role, record: Record)
    requires OneOwner(st) && OneGate(st) && BlockedLeads(st) && p in st.procs && st.procs[p].role.Gater?
    requires st.record.Some? && Executing(role)
    requires record.boot == st.record.value.boot && record.session == st.record.value.session
    ensures var st' := SetRole(st, p, role).(record := Some(record));
      OneOwner(st') && OneGate(st') && BlockedLeads(st')
    ensures forall q | q in st.procs && st.procs[q].role.Gater? :: q == p
  {
  }

  /** The one gate supervisor rewrites the gate fields of the record. */
  lemma GaterWrites(st: State, p: nat, role: Role, record: Record)
    requires Inv(st) && p in st.procs && st.procs[p].role.Gater? && st.record.Some? && Executing(role)
    requires record.boot == st.record.value.boot && record.session == st.record.value.session && GateSound(Some(record))
    requires var st' := SetRole(st, p, role).(record := Some(record));
      role.Gater? ==> GateFacts(st', role.gate)
    ensures Inv(SetRole(st, p, role).(record := Some(record)))
  {
    GaterHas(st, p);
    var st' := SetRole(st, p, role).(record := Some(record));
    GateWriterOwners(st, p, role, record);
    assert RunnersSound(st);
    hide RunFacts, GateFacts, OneOwner, OneGate, BlockedLeads;
    forall q | q in st'.procs && st'.procs[q].role.Runner? ensures RunFacts(st', st'.procs[q].role.run) {
      GaterExcludes(st, p, st.procs[q].role.run);
      GateWriteKeepsRun(st, st', st.procs[q].role.run);
    }
  }

  lemma GateRecordStep(s: Step, st: State)
    requires Inv(st) && Allowed(s, st) && (s.MarkGate? || s.SaveGate? || s.NoteExit? || s.SaveClear?)
    ensures Inv(Apply(s, st))
  {
    hide Inv, GateFacts, Apply, OneOwner, OneGate;
    GaterHas(st, s.p);
    RecordHas(st);
    GateWriteFacts(s, st);
    var st' := Apply(s, st);
    hide Allowed;
    GaterWrites(st, s.p, st'.procs[s.p].role, st'.record.value);
  }

  /** What each write of a gate supervisor does to the record and to itself. */
  lemma GateWriteFacts(s: Step, st: State)
    requires Allowed(s, st) && (s.MarkGate? || s.SaveGate? || s.NoteExit? || s.SaveClear?)
    requires GateFacts(st, st.procs[s.p].role.gate) && OwnsRecord(st, st.procs[s.p].session)
    ensures
      var st' := Apply(s, st);
      && s.p in st.procs && st.procs[s.p].role.Gater? && st'.record.Some? && s.p in st'.procs
      && st'.record.value.boot == st.boot && st'.record.value.session == st.record.value.session
      && st' == SetRole(st, s.p, st'.procs[s.p].role).(record := st'.record)
      && GateSound(st'.record) && Executing(st'.procs[s.p].role)
      && (st'.procs[s.p].role.Gater? ==> GateFacts(st', st'.procs[s.p].role.gate))
      && (st.record.value.gateSession.Some? && st'.record.value.gateSession != st.record.value.gateSession ==>
            NoMembers(st, st.record.value.gateSession.value))
  {
  }

  // ----- All steps -----

  /** Every step of every process keeps the invariant. */
  lemma StepKeepsInv(s: Step, st: State)
    requires Inv(st) && Allowed(s, st)
    ensures Inv(Apply(s, st))
  {
    hide Inv, Allowed, Apply;
    match s
    case Enter(_, _) => EnterStep(s, st);
    case Lock(_) => LockStep(s, st);
    case ReadPrevious(_) => ReadPreviousStep(s, st);
    case CensusSession(_) => CensusSessionStep(s, st);
    case CensusGate(_) => CensusGateStep(s, st);
    case Fork(_, _) => ForkStep(s, st);
    case SaveSession(_) => SaveSessionStep(s, st);
    case Release(_, _) => ReleaseStep(s, st);
    case ReadGate(_) => CountingStep(s, st);
    case CountOwn(_) => CountingStep(s, st);
    case CountGate(_) => CountingStep(s, st);
    case ReadFinal(_) => CountingStep(s, st);
    case SaveFinal(_) => SaveFinalStep(s, st);
    case Start(_) => StartStep(s, st);
    case Spawn(_, _, _) => SpawnStep(s, st);
    case DropLock(_) => DropLockStep(s, st);
    case EnterGate(_) => GaterStep(s, st);
    case MarkGate(_) => GateRecordStep(s, st);
    case ForkGate(_, _) => ForkGateStep(s, st);
    case SaveGate(_) => GateRecordStep(s, st);
    case ReleaseGate(_, _) => ReleaseGateStep(s, st);
    case NoteExit(_, _) => GateRecordStep(s, st);
    case CountGateOwn(_) => GaterStep(s, st);
    case ReadClear(_) => GaterStep(s, st);
    case SaveClear(_) => GateRecordStep(s, st);
    case LeaveGate(_) => GaterStep(s, st);
    case Die(_) => FewerStep(s, st);
    case Reboot => FewerStep(s, st);
  }
}

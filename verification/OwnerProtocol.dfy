/**
  The ownership protocol around verifier lifecycles: who may hold the workspace
  lock, what the durable owner record says, and which processes are executing.
  Any process may die between any two steps; a reboot removes them all.
 */
module OwnerProtocol {
  import opened Wrappers

  /** The durable `.owner` record, apart from its mapping and capability fields. */
  datatype Record = Record(
    boot: nat,
    session: Option<nat>,
    completed: bool,
    gateStarted: bool,
    gateSession: Option<nat>,
    gateExit: Option<nat>)

  /** Progress of one `run` invocation. */
  datatype RunPc =
    | Opening
    | Locked
    | CheckSession(prev: Record)
    | CheckGate(prev: Record)
    | Admitted
    | Forked(child: nat)
    | Recorded(child: nat)
    | Watching(child: nat)
    | Counting(child: nat, gate: Option<nat>)
    | CountingGate(child: nat, gate: Option<nat>)
    | Finished(child: nat)
    | Completing(child: nat, copy: Record)
    | Returned

  /** Progress of one `gate` invocation inside a lifecycle. */
  datatype GatePc =
    | GateRead(copy: Record)
    | GateMarked(copy: Record)
    | GateForked(copy: Record, child: nat)
    | GateRecorded(child: nat)
    | GateWatching(child: nat)
    | GateNoted(child: nat)
    | GateFinished(child: nat)
    | GateClearing(copy: Record, child: nat)

  datatype Role =
    | Runner(run: RunPc)
    | Blocked(go: bool)      // a forked child waiting for its launch byte
    | Worker                 // a process that executes a recorded command
    | Gater(gate: GatePc)    // a worker that is inside a gate call

  datatype Proc = Proc(session: nat, role: Role, lock: bool)

  datatype State = State(boot: nat, procs: map<nat, Proc>, record: Option<Record>)

  predicate Executing(r: Role) {
    r.Worker? || r.Gater?
  }

  /** An atomic census of a session. */
  predicate NoMembers(st: State, sid: nat) {
    forall p | p in st.procs :: st.procs[p].session != sid
  }

  /** Executing a recorded command, or released to do so. */
  predicate Active(r: Role) {
    Executing(r) || r == Blocked(true)
  }

  predicate NoneActiveIn(st: State, sid: nat) {
    forall p | p in st.procs && st.procs[p].session == sid :: !Active(st.procs[p].role)
  }

  predicate NoneActive(st: State) {
    forall p | p in st.procs :: !Active(st.procs[p].role)
  }

  /** The child whose exit this supervisor has not yet reaped. */
  function Pinned(r: Role): Option<nat> {
    match r
    case Runner(Forked(c)) => Some(c)
    case Runner(Recorded(c)) => Some(c)
    case Runner(Watching(c)) => Some(c)
    case Runner(Counting(c, _)) => Some(c)
    case Runner(CountingGate(c, _)) => Some(c)
    case Runner(Finished(c)) => Some(c)
    case Runner(Completing(c, _)) => Some(c)
    case Gater(GateForked(_, c)) => Some(c)
    case Gater(GateRecorded(c)) => Some(c)
    case Gater(GateWatching(c)) => Some(c)
    case Gater(GateNoted(c)) => Some(c)
    case Gater(GateFinished(c)) => Some(c)
    case Gater(GateClearing(_, c)) => Some(c)
    case _ => None
  }

  /** A process identifier the kernel may hand out: not live, not a live session, not a zombie. */
  predicate Fresh(st: State, p: nat) {
    && p !in st.procs && NoMembers(st, p)
    && (forall q | q in st.procs :: Pinned(st.procs[q].role) != Some(p))
  }

  /** What `run` demands of a previous record before it looks at processes. */
  predicate WellFormed(r: Record) {
    && (r.session.None? ==> r.completed)
    && (r.gateExit.Some? ==> r.gateStarted && r.gateSession.Some?)
  }

  datatype Step =
    | Enter(p: nat, sid: nat)
    | Lock(p: nat)
    | ReadPrevious(p: nat)
    | CensusSession(p: nat)
    | CensusGate(p: nat)
    | Fork(p: nat, child: nat)
    | SaveSession(p: nat)
    | Release(p: nat, go: bool)
    | ReadGate(p: nat)
    | CountOwn(p: nat)
    | CountGate(p: nat)
    | ReadFinal(p: nat)
    | SaveFinal(p: nat)
    | Start(p: nat)                       // the launch byte arrived: exec
    | Spawn(p: nat, child: nat, keep: bool)
    | DropLock(p: nat)
    | EnterGate(p: nat)
    | MarkGate(p: nat)
    | ForkGate(p: nat, child: nat)
    | SaveGate(p: nat)
    | ReleaseGate(p: nat, go: bool)
    | NoteExit(p: nat, code: nat)
    | CountGateOwn(p: nat)
    | ReadClear(p: nat)
    | SaveClear(p: nat)
    | LeaveGate(p: nat)                   // the gate call raised instead of returning a status
    | Die(p: nat)
    | Reboot

  predicate At(st: State, p: nat, role: Role) {
    p in st.procs && st.procs[p].role == role
  }

  predicate RunnerAt(st: State, p: nat) {
    p in st.procs && st.procs[p].role.Runner?
  }

  predicate GaterAt(st: State, p: nat) {
    p in st.procs && st.procs[p].role.Gater?
  }

  /** When each step can happen. */
  predicate Allowed(s: Step, st: State) {
    match s
    case Enter(p, sid) => Fresh(st, p) && (sid == p || !NoMembers(st, sid))
    case Lock(p) => At(st, p, Runner(Opening)) && forall q | q in st.procs :: !st.procs[q].lock
    case ReadPrevious(p) => At(st, p, Runner(Locked)) && (st.record.Some? ==> WellFormed(st.record.value))
    case CensusSession(p) =>
      && RunnerAt(st, p) && st.procs[p].role.run.CheckSession?
      && var prev := st.procs[p].role.run.prev; (prev.session.Some? ==> NoMembers(st, prev.session.value))
    case CensusGate(p) =>
      && RunnerAt(st, p) && st.procs[p].role.run.CheckGate?
      && var prev := st.procs[p].role.run.prev;
         && (prev.gateSession.Some? ==> NoMembers(st, prev.gateSession.value))
         && !(prev.gateStarted && prev.gateExit.None?)
    case Fork(p, child) => At(st, p, Runner(Admitted)) && Fresh(st, child)
    case SaveSession(p) => RunnerAt(st, p) && st.procs[p].role.run.Forked?
    case Release(p, go) => RunnerAt(st, p) && st.procs[p].role.run.Recorded?
    case ReadGate(p) => RunnerAt(st, p) && st.procs[p].role.run.Watching? && st.record.Some?
                        && st.procs[p].role.run.child !in st.procs
    case CountOwn(p) => RunnerAt(st, p) && st.procs[p].role.run.Counting? && NoMembers(st, st.procs[p].role.run.child)
    case CountGate(p) =>
      && RunnerAt(st, p) && st.procs[p].role.run.CountingGate?
      && var gate := st.procs[p].role.run.gate; (gate.Some? ==> NoMembers(st, gate.value))
    case ReadFinal(p) => RunnerAt(st, p) && st.procs[p].role.run.Finished? && st.record.Some?
    case SaveFinal(p) => RunnerAt(st, p) && st.procs[p].role.run.Completing?
    case Start(p) => At(st, p, Blocked(true))
    case Spawn(p, child, keep) =>
      p in st.procs && Executing(st.procs[p].role) && Fresh(st, child) && (keep ==> st.procs[p].lock)
    case DropLock(p) => At(st, p, Worker)
    case EnterGate(p) =>
      && At(st, p, Worker) && st.record.Some? && st.record.value.boot == st.boot
      && st.record.value.session == Some(st.procs[p].session)
      // the previous gate call of this lifecycle returned a status
      && !st.record.value.gateStarted && (forall q | q in st.procs :: !st.procs[q].role.Gater?)
    case MarkGate(p) => GaterAt(st, p) && st.procs[p].role.gate.GateRead?
    case ForkGate(p, child) => GaterAt(st, p) && st.procs[p].role.gate.GateMarked? && Fresh(st, child)
    case SaveGate(p) => GaterAt(st, p) && st.procs[p].role.gate.GateForked?
    case ReleaseGate(p, go) => GaterAt(st, p) && st.procs[p].role.gate.GateRecorded?
    case NoteExit(p, code) => GaterAt(st, p) && st.procs[p].role.gate.GateWatching? && st.record.Some?
                              && st.procs[p].role.gate.child !in st.procs
    case CountGateOwn(p) =>
      GaterAt(st, p) && st.procs[p].role.gate.GateNoted? && NoMembers(st, st.procs[p].role.gate.child)
    case ReadClear(p) => GaterAt(st, p) && st.procs[p].role.gate.GateFinished? && st.record.Some?
    case SaveClear(p) => GaterAt(st, p) && st.procs[p].role.gate.GateClearing?
    case LeaveGate(p) => GaterAt(st, p)
    case Die(p) => p in st.procs
    case Reboot => true
  }

  function SetRole(st: State, p: nat, role: Role): State
    requires p in st.procs
  {
    st.(procs := st.procs[p := st.procs[p].(role := role)])
  }

  function Apply(s: Step, st: State): State
    requires Allowed(s, st)
  {
    match s
    case Enter(p, sid) => st.(procs := st.procs[p := Proc(sid, Runner(Opening), false)])
    case Lock(p) => st.(procs := st.procs[p := st.procs[p].(role := Runner(Locked), lock := true)])
    case ReadPrevious(p) =>
      SetRole(st, p, Runner(if st.record.Some? && st.record.value.boot == st.boot
                            then CheckSession(st.record.value) else Admitted))
    case CensusSession(p) => SetRole(st, p, Runner(CheckGate(st.procs[p].role.run.prev)))
    case CensusGate(p) => SetRole(st, p, Runner(Admitted))
    case Fork(p, child) =>
      SetRole(st.(procs := st.procs[child := Proc(child, Blocked(false), st.procs[p].lock)]), p, Runner(Forked(child)))
    case SaveSession(p) =>
      var child := st.procs[p].role.run.child;
      SetRole(st, p, Runner(Recorded(child))).(record := Some(Record(st.boot, Some(child), false, false, None, None)))
    case Release(p, go) =>
      var child := st.procs[p].role.run.child;
      SetRole(if go && At(st, child, Blocked(false)) then SetRole(st, child, Blocked(true)) else st, p,
              Runner(Watching(child)))
    case ReadGate(p) => SetRole(st, p, Runner(Counting(st.procs[p].role.run.child, st.record.value.gateSession)))
    case CountOwn(p) => SetRole(st, p, Runner(CountingGate(st.procs[p].role.run.child, st.procs[p].role.run.gate)))
    case CountGate(p) => SetRole(st, p, Runner(Finished(st.procs[p].role.run.child)))
    case ReadFinal(p) => SetRole(st, p, Runner(Completing(st.procs[p].role.run.child, st.record.value)))
    case SaveFinal(p) =>
      st.(record := Some(st.procs[p].role.run.copy.(session := None, completed := true)),
          procs := st.procs[p := st.procs[p].(role := Runner(Returned), lock := false)])
    case Start(p) => SetRole(st, p, Worker)
    case Spawn(p, child, keep) => st.(procs := st.procs[child := Proc(st.procs[p].session, Worker, keep)])
    case DropLock(p) => st.(procs := st.procs[p := st.procs[p].(lock := false)])
    case EnterGate(p) => SetRole(st, p, Gater(GateRead(st.record.value)))
    case MarkGate(p) =>
      var marked := st.procs[p].role.gate.copy.(gateStarted := true, gateExit := None);
      SetRole(st, p, Gater(GateMarked(marked))).(record := Some(marked))
    case ForkGate(p, child) =>
      SetRole(st.(procs := st.procs[child := Proc(child, Blocked(false), st.procs[p].lock)]), p,
              Gater(GateForked(st.procs[p].role.gate.copy, child)))
    case SaveGate(p) =>
      var child := st.procs[p].role.gate.child;
      SetRole(st, p, Gater(GateRecorded(child))).(
        record := Some(st.procs[p].role.gate.copy.(gateSession := Some(child))))
    case ReleaseGate(p, go) =>
      var child := st.procs[p].role.gate.child;
      SetRole(if go && At(st, child, Blocked(false)) then SetRole(st, child, Blocked(true)) else st, p,
              Gater(GateWatching(child)))
    case NoteExit(p, code) =>
      SetRole(st, p, Gater(GateNoted(st.procs[p].role.gate.child))).(
        record := Some(st.record.value.(gateExit := Some(code))))
    case CountGateOwn(p) => SetRole(st, p, Gater(GateFinished(st.procs[p].role.gate.child)))
    case ReadClear(p) => SetRole(st, p, Gater(GateClearing(st.record.value, st.procs[p].role.gate.child)))
    case SaveClear(p) =>
      SetRole(st, p, Worker).(
        record := Some(st.procs[p].role.gate.copy.(gateStarted := false, gateSession := None, gateExit := None)))
    case LeaveGate(p) => SetRole(st, p, Worker)
    case Die(p) => st.(procs := st.procs - {p})
    case Reboot => State(st.boot + 1, map[], st.record)
  }
}

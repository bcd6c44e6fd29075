/** Durable custody of one build, and the leases under which builds and reclaim meet. */
module BuildProducts {
  import opened Wrappers

  datatype Phase = Reserved | Running | Draining | Finished

  /** The custody record; an execution is its identity. */
  datatype Row = Row(state: Phase, executions: seq<nat>)

  datatype Operation = Inspect | Attach(execution: nat) | Cancel | Settle(settled: nat) | Finish | Unknown

  datatype Reply = View(row: Row) | Changed(row: Row) | NotYet | Refusal

  const NEW_ROW := Row(Reserved, [])

  /** The effect of one operation; `quiet` is a free lifetime guard and an empty session. */
  function Respond(row: Row, op: Operation, quiet: bool): Reply {
    match op
    case Inspect => View(row)
    case Attach(e) =>
      if row.state != Reserved || row.executions != [] then Refusal else Changed(Row(Running, [e]))
    case Cancel => Changed(row.(state := Draining))
    case Settle(e) =>
      if |row.executions| != 1 || row.executions[0] != e || !quiet then Refusal else Changed(row.(executions := []))
    case Finish => if row.executions != [] then NotYet else Changed(row.(state := Finished))
    case Unknown => Refusal
  }

  /** A row that a supervisor can hold. */
  predicate Sound(row: Row) {
    && |row.executions| <= 1
    && (row.state == Finished || row.state == Reserved ==> row.executions == [])
  }

  class ProductCustody {
    var row: Row          // in memory
    var record: Row       // record.json
    var attached: nat     // executions ever attached

    ghost predicate Valid()
      reads this
    {
      && Sound(row) && Sound(record) && attached <= 1
      && (row.state == Reserved ==> attached == 0)
      && (row.executions != [] ==> attached == 1)
    }

    constructor ()
      ensures Valid() && row == record == NEW_ROW && attached == 0
    {
      row, record, attached := NEW_ROW, NEW_ROW, 0;
    }

    /** One operation; the row changes in memory before its record is published. */
    method Call(op: Operation, quiet: bool, written: bool) returns (reply: Reply)
      requires Valid()
      modifies this
      ensures Valid() && attached >= old(attached)
      ensures
        || reply == Respond(old(row), op, quiet)
        || (reply == Refusal && Respond(old(row), op, quiet).Changed? && !written)
      ensures row == if Respond(old(row), op, quiet).Changed? then Respond(old(row), op, quiet).row else old(row)
      ensures record == if reply.Changed? then row else old(record)
      ensures attached == old(attached) + if op.Attach? && Respond(old(row), op, quiet).Changed? then 1 else 0
    {
      reply := Refusal;
      match op {
        case Inspect => return View(row);
        case Attach(e) =>
          if row.state != Reserved || row.executions != [] {
            return;
          }
          row := row.(executions := [e]);
          row := row.(state := Running);
          attached := attached + 1;
        case Cancel => row := row.(state := Draining);
        case Settle(e) =>
          if |row.executions| != 1 || row.executions[0] != e || !quiet {
            return;
          }
          row := row.(executions := []);
        case Finish =>
          if row.executions != [] {
            return NotYet;
          }
          row := row.(state := Finished);
        case Unknown => return;
      }
      if written {
        record := row;
        reply := Changed(row);
      }
    }
  }

  /** What a whole sequence of operations makes of a fresh row. */
  function Rows(ops: seq<(Operation, bool)>): Row {
    if ops == [] then NEW_ROW
    else
      var (op, quiet) := ops[|ops| - 1];
      var before := Rows(ops[..|ops| - 1]);
      var reply := Respond(before, op, quiet);
      if reply.Changed? then reply.row else before
  }

  function Attachments(ops: seq<(Operation, bool)>): nat {
    if ops == [] then 0
    else
      var (op, quiet) := ops[|ops| - 1];
      Attachments(ops[..|ops| - 1]) +
      if op.Attach? && Respond(Rows(ops[..|ops| - 1]), op, quiet).Changed? then 1 else 0
  }

  /**
    Whatever is asked in whatever order, a custody attaches at most one execution
    in its life, and a finished custody has none.
   */
  lemma {:induction false} OneExecutionPerCustody(ops: seq<(Operation, bool)>)
    ensures Sound(Rows(ops)) && Attachments(ops) <= 1
    ensures Rows(ops).state == Reserved ==> Attachments(ops) == 0
    ensures Rows(ops).executions != [] ==> Attachments(ops) == 1
  {
    if ops != [] {
      OneExecutionPerCustody(ops[..|ops| - 1]);
    }
  }

  /** What each operation does to a row, and when it is refused. */
  lemma OperationsMean(row: Row, quiet: bool, e: nat)
    ensures Respond(row, Inspect, quiet) == View(row)
    // attaching
    ensures row.state == Reserved && row.executions == [] ==>
      && Respond(row, Attach(e), quiet).Changed?
      && Respond(row, Attach(e), quiet).row.state == Running && Respond(row, Attach(e), quiet).row.executions == [e]
    ensures row.state != Reserved || row.executions != [] ==> Respond(row, Attach(e), quiet) == Refusal
    // cancelling
    ensures Respond(row, Cancel, quiet).Changed?
    ensures Respond(row, Cancel, quiet).row == row.(state := Draining)
    // settling
    ensures row.executions == [e] && quiet ==>
      && Respond(row, Settle(e), quiet).Changed?
      && Respond(row, Settle(e), quiet).row.state == row.state && Respond(row, Settle(e), quiet).row.executions == []
    ensures row.executions != [e] || !quiet ==> Respond(row, Settle(e), quiet) == Refusal
    // finishing
    ensures row.executions == [] ==>
      && Respond(row, Finish, quiet).Changed?
      && Respond(row, Finish, quiet).row.state == Finished && Respond(row, Finish, quiet).row.executions == []
    ensures row.executions != [] ==> Respond(row, Finish, quiet) == NotYet
    ensures Respond(row, Unknown, quiet) == Refusal
  {
    if |row.executions| == 1 && row.executions[0] == e {
      assert row.executions == [e];
    }
  }

  lemma RowsGrow(ops: seq<(Operation, bool)>, op: Operation, quiet: bool)
    ensures
      var reply := Respond(Rows(ops), op, quiet);
      Rows(ops + [(op, quiet)]) == if reply.Changed? then reply.row else Rows(ops)
  {
    assert (ops + [(op, quiet)])[..|ops|] == ops;
  }

  /** After any operations, finishing finishes exactly if nothing is attached, and otherwise changes nothing. */
  lemma FinishFinishes(ops: seq<(Operation, bool)>, quiet: bool)
    ensures
      var before, after := Rows(ops), Rows(ops + [(Finish, quiet)]);
      if before.executions == [] then after.state == Finished && after.executions == [] else after == before
  {
    RowsGrow(ops, Finish, quiet);
    OperationsMean(Rows(ops), quiet, 0);
  }

  /** Whatever is asked, an attached execution stays until it is settled. */
  lemma {:induction false} AttachedUntilSettled(ops: seq<(Operation, bool)>, e: nat, more: seq<(Operation, bool)>)
    requires Rows(ops) == NEW_ROW && forall i | 0 <= i < |more| :: more[i] != (Settle(e), true)
    ensures Rows(ops + [(Attach(e), false)] + more).executions == [e]
    decreases |more|
  {
    var base := ops + [(Attach(e), false)];
    if more == [] {
      RowsGrow(ops, Attach(e), false);
      assert base + more == base;
    } else {
      var front, last := more[..|more| - 1], more[|more| - 1];
      AttachedUntilSettled(ops, e, front);
      RowsGrow(base + front, last.0, last.1);
      assert base + more == base + front + [(last.0, last.1)];
    }
  }

  /** And then the custody can finish. */
  lemma SettledCanFinish(ops: seq<(Operation, bool)>, e: nat, more: seq<(Operation, bool)>, quiet: bool)
    requires Rows(ops) == NEW_ROW && forall i | 0 <= i < |more| :: more[i] != (Settle(e), true)
    ensures Rows(ops + [(Attach(e), false)] + more + [(Settle(e), true)] + [(Finish, quiet)]) == Row(Finished, [])
  {
    var base := ops + [(Attach(e), false)] + more;
    AttachedUntilSettled(ops, e, more);
    RowsGrow(base, Settle(e), true);
    RowsGrow(base + [(Settle(e), true)], Finish, quiet);
  }

  // ----- Builds and reclaim attempts, interleaved -----

  /** Progress of a supervisor; a dead one never moves again. */
  datatype Stage = Leased | Made | Journalled | Ready | Closed | Dead

  /**
    One build: its supervisor, its custody in memory and on disk, and whether any
    process of its workload is alive (in its session or holding its guard).
   */
  datatype Build = Build(stage: Stage, made: bool, row: Row, disk: Option<Row>, live: bool)

  /** A reclaim attempt holds the lock while it reads the entries it has not yet seen. */
  datatype Reclaim = Checking(left: set<nat>) | Granted

  datatype World = World(
    builds: map<nat, Build>,            // every build directory ever made, with its owner
    shared: set<nat>,                   // builds whose lease descriptor is still open somewhere
    exclusive: Option<Reclaim>)

  datatype Event =
    | Lease(b: nat)
    | MakeDir(b: nat)
    | Create(b: nat)
    | Operate(b: nat, op: Operation, written: bool)
    | Go(b: nat)
    | Abort(b: nat)
    | WorkEnds(b: nat)
    | Close(b: nat)
    | Crash(b: nat)
    | DropLease(b: nat)
    | TryReclaim
    | CheckEntry(b: nat)
    | Grant
    | EndReclaim

  predicate Acting(w: World, b: nat, stage: Stage) {
    b in w.builds && w.builds[b].stage == stage
  }

  predicate Allowed(e: Event, w: World) {
    match e
    case Lease(b) => b !in w.builds && w.exclusive.None?
    case MakeDir(b) => Acting(w, b, Leased)
    case Create(b) => Acting(w, b, Made)
    case Operate(b, op, written) => Acting(w, b, Journalled)
    case Go(b) => Acting(w, b, Ready)
    case Abort(b) => Acting(w, b, Ready)
    case WorkEnds(b) => b in w.builds && w.builds[b].live
    case Close(b) => Acting(w, b, Journalled)
    case Crash(b) => b in w.builds && w.builds[b].stage != Closed && w.builds[b].stage != Dead
    case DropLease(b) => b in w.shared && (Acting(w, b, Closed) || Acting(w, b, Dead))
    case TryReclaim => w.shared == {} && w.exclusive.None?
    case CheckEntry(b) =>
      && w.exclusive.Some? && w.exclusive.value.Checking? && b in w.exclusive.value.left && b in w.builds
      && w.builds[b].disk == Some(Row(Finished, []))
    case Grant => w.exclusive == Some(Checking({}))
    case EndReclaim => w.exclusive.Some?
  }

  function Put(w: World, b: nat, x: Build): World {
    w.(builds := w.builds[b := x])
  }

  function Apply(e: Event, w: World): World
    requires Allowed(e, w)
  {
    match e
    case Lease(b) => Put(w, b, Build(Leased, false, NEW_ROW, None, false)).(shared := w.shared + {b})
    case MakeDir(b) => Put(w, b, w.builds[b].(stage := Made, made := true))
    case Create(b) => Put(w, b, w.builds[b].(stage := Journalled, disk := Some(NEW_ROW)))
    case Operate(b, op, written) =>
      var x := w.builds[b];
      var reply := Respond(x.row, op, !x.live);
      if !reply.Changed? then w
      else Put(w, b, x.(row := reply.row, disk := if written then Some(reply.row) else x.disk,
                        stage := if op.Attach? && written then Ready else Journalled))
    case Go(b) => Put(w, b, w.builds[b].(stage := Journalled, live := true))
    case Abort(b) => Put(w, b, w.builds[b].(stage := Journalled))
    case WorkEnds(b) => Put(w, b, w.builds[b].(live := false))
    case Close(b) => Put(w, b, w.builds[b].(stage := Closed))
    case Crash(b) => Put(w, b, w.builds[b].(stage := Dead))
    case DropLease(b) => w.(shared := w.shared - {b})
    case TryReclaim => w.(exclusive := Some(Checking(Entries(w))))
    case CheckEntry(b) => w.(exclusive := Some(Checking(w.exclusive.value.left - {b})))
    case Grant => w.(exclusive := Some(Granted))
    case EndReclaim => w.(exclusive := None)
  }

  /** The build directories that a reclaim attempt lists. */
  function Entries(w: World): set<nat> {
    set b | b in w.builds && w.builds[b].made
  }

  predicate SettledOnDisk(x: Build) {
    x.made ==> x.disk == Some(Row(Finished, []))
  }

  /** What holds of each build at all times. */
  predicate BuildSound(w: World, b: nat)
    requires b in w.builds
  {
    var x := w.builds[b];
    && Sound(x.row) && (x.disk.Some? ==> Sound(x.disk.value))
    && (x.stage != Closed && x.stage != Dead ==> b in w.shared)
    && (x.stage == Ready ==> x.row.executions != [] && x.disk == Some(x.row) && !x.live)
    && (x.live ==> x.made && x.row.executions != [] && x.disk.Some? && x.disk.value.executions != [])
    && (!x.made ==> x.disk.None?)
    && (x.stage == Made || x.stage == Journalled || x.stage == Ready ==> x.made)
    && (x.stage == Leased || x.stage == Made ==> !x.live && x.row == NEW_ROW)
  }

  predicate Inv(w: World) {
    && (forall b | b in w.builds :: BuildSound(w, b))
    && (w.exclusive.Some? ==> w.shared == {})
    && (w.exclusive.Some? && w.exclusive.value.Checking? ==>
          forall b | b in w.builds && b !in w.exclusive.value.left :: SettledOnDisk(w.builds[b]))
    && (w.exclusive == Some(Granted) ==> forall b | b in w.builds :: SettledOnDisk(w.builds[b]))
  }

  lemma StepKeepsInv(e: Event, w: World)
    requires Inv(w) && Allowed(e, w)
    ensures Inv(Apply(e, w))
  {
    var w' := Apply(e, w);
    forall b | b in w'.builds ensures BuildSound(w', b) {
      BuildStep(e, w, b);
    }
    ReclaimStep(e, w);
    hide BuildSound, Allowed, Apply, SettledOnDisk;
  }

  lemma BuildStep(e: Event, w: World, b: nat)
    requires Allowed(e, w) && b in Apply(e, w).builds && (b in w.builds ==> BuildSound(w, b))
    ensures BuildSound(Apply(e, w), b)
  {
  }

  /** What a reclaim attempt has checked stays settled while it holds the lock. */
  lemma ReclaimStep(e: Event, w: World)
    requires Inv(w) && Allowed(e, w)
    ensures
      var w' := Apply(e, w);
      && (w'.exclusive.Some? ==> w'.shared == {})
      && (w'.exclusive.Some? && w'.exclusive.value.Checking? ==>
            forall b | b in w'.builds && b !in w'.exclusive.value.left :: SettledOnDisk(w'.builds[b]))
      && (w'.exclusive == Some(Granted) ==> forall b | b in w'.builds :: SettledOnDisk(w'.builds[b]))
  {
    hide Respond;
    assert forall b | b in w.builds :: BuildSound(w, b);
  }

  predicate Legal(log: seq<Event>, w: World)
    decreases |log|, 0
  {
    log == [] || (Legal(log[..|log| - 1], w) && Allowed(log[|log| - 1], After(log[..|log| - 1], w)))
  }

  function After(log: seq<Event>, w: World): World
    requires Legal(log, w)
    decreases |log|, 1
  {
    if log == [] then w else Apply(log[|log| - 1], After(log[..|log| - 1], w))
  }

  const EMPTY := World(map[], {}, None)

  lemma {:induction false} RunsKeepInv(log: seq<Event>)
    requires Legal(log, EMPTY)
    ensures Inv(After(log, EMPTY))
    decreases |log|
  {
    hide Allowed, Apply;
    if log != [] {
      RunsKeepInv(log[..|log| - 1]);
      StepKeepsInv(log[|log| - 1], After(log[..|log| - 1], EMPTY));
    }
  }

  /**
    Over every interleaving of builds, crashes, failed writes and reclaim attempts:
    a reclaim is granted only when no lease is open, every custody directory ever
    made holds a finished record without executions, and no workload is alive.
   */
  lemma ReclaimSafety(log: seq<Event>)
    requires Legal(log, EMPTY)
    ensures var w := After(log, EMPTY);
      w.exclusive == Some(Granted) ==>
        && w.shared == {}
        && forall b | b in w.builds :: SettledOnDisk(w.builds[b]) && !w.builds[b].live
  {
    RunsKeepInv(log);
    var w := After(log, EMPTY);
    forall b | w.exclusive == Some(Granted) && b in w.builds ensures !w.builds[b].live {
      assert BuildSound(w, b) && SettledOnDisk(w.builds[b]);
    }
  }

  /** A build directory is never forgotten, so no crash can erase an unsettled owner. */
  lemma {:induction false} CustodyIsPermanent(log: seq<Event>, more: seq<Event>, b: nat)
    requires Legal(log, EMPTY) && Legal(more, After(log, EMPTY)) && b in After(log, EMPTY).builds
    ensures var x, y := After(log, EMPTY).builds, After(more, After(log, EMPTY)).builds;
      && b in y && (x[b].made ==> y[b].made)
      && (x[b].stage == Dead ==> y[b].stage == Dead && y[b].disk == x[b].disk)
    decreases |more|
  {
    if more != [] {
      CustodyIsPermanent(log, more[..|more| - 1], b);
    }
  }

  lemma {:induction false} LegalConcat(x: seq<Event>, y: seq<Event>, w: World)
    requires Legal(x, w) && Legal(y, After(x, w))
    ensures Legal(x + y, w) && After(x + y, w) == After(y, After(x, w))
    decreases |y|
  {
    hide Allowed, Apply;
    if y == [] {
      assert x + y == x;
    } else {
      LegalConcat(x, y[..|y| - 1], w);
      assert (x + y)[..|x + y| - 1] == x + y[..|y| - 1];
    }
  }

  /** A lost supervisor never becomes permission to reclaim, however long one waits. */
  lemma LostSupervisorBlocksReclaim(log: seq<Event>, more: seq<Event>, b: nat)
    requires Legal(log, EMPTY) && Legal(more, After(log, EMPTY)) && b in After(log, EMPTY).builds
    requires var x := After(log, EMPTY).builds[b]; x.stage == Dead && !SettledOnDisk(x)
    ensures After(more, After(log, EMPTY)).exclusive != Some(Granted)
  {
    CustodyIsPermanent(log, more, b);
    LegalConcat(log, more, EMPTY);
    ReclaimSafety(log + more);
  }

  // ----- Reclaim is possible -----

  lemma LegalMore(log: seq<Event>, e: Event, w: World)
    requires Legal(log, w) && Allowed(e, After(log, w))
    ensures Legal(log + [e], w) && After(log + [e], w) == Apply(e, After(log, w))
  {
    hide Allowed, Apply;
    assert (log + [e])[..|log + [e]| - 1] == log;
  }

  /** The entries that are left can be checked one after the other. */
  lemma {:induction false} EntriesCanBeChecked(w: World, left: set<nat>) returns (log: seq<Event>)
    requires w.exclusive == Some(Checking(left))
    requires forall b | b in left :: b in w.builds && w.builds[b].disk == Some(Row(Finished, []))
    ensures Legal(log, w) && After(log, w) == w.(exclusive := Some(Checking({})))
    decreases left
  {
    log := [];
    if left != {} {
      var b :| b in left;
      var next := Apply(CheckEntry(b), w);
      LegalMore([], CheckEntry(b), w);
      var rest := EntriesCanBeChecked(next, left - {b});
      assert [] + [CheckEntry(b)] == [CheckEntry(b)];
      LegalConcat([CheckEntry(b)], rest, w);
      log := [CheckEntry(b)] + rest;
    }
  }

  /** With no lease open and every custody settled, a reclaim is granted: nothing else stands in its way. */
  lemma ReclaimIsPossible(w: World) returns (log: seq<Event>)
    requires w.shared == {} && w.exclusive.None? && forall b | b in w.builds :: SettledOnDisk(w.builds[b])
    ensures Legal(log, w) && After(log, w) == w.(exclusive := Some(Granted))
  {
    LegalMore([], TryReclaim, w);
    assert [] + [TryReclaim] == [TryReclaim];
    var trying := Apply(TryReclaim, w);
    var checks := EntriesCanBeChecked(trying, Entries(w));
    LegalConcat([TryReclaim], checks, w);
    LegalMore([TryReclaim] + checks, Grant, w);
    log := [TryReclaim] + checks + [Grant];
  }

  /** And nothing less will do: an attempt during which no build moves is granted only then. */
  lemma ReclaimNeedsSettled(log: seq<Event>, attempt: seq<Event>)
    requires Legal(log, EMPTY) && After(log, EMPTY).exclusive.None?
    requires Legal(attempt, After(log, EMPTY)) && After(attempt, After(log, EMPTY)).exclusive == Some(Granted)
    requires forall i | 0 <= i < |attempt| ::
      attempt[i].TryReclaim? || attempt[i].CheckEntry? || attempt[i].Grant? || attempt[i].EndReclaim?
    ensures
      var w := After(log, EMPTY);
      w.shared == {} && forall b | b in w.builds :: SettledOnDisk(w.builds[b])
  {
    LegalConcat(log, attempt, EMPTY);
    ReclaimSafety(log + attempt);
    AttemptMovesNothing(attempt, After(log, EMPTY));
  }

  lemma {:induction false} AttemptMovesNothing(attempt: seq<Event>, w: World)
    requires Legal(attempt, w)
    requires forall i | 0 <= i < |attempt| ::
      attempt[i].TryReclaim? || attempt[i].CheckEntry? || attempt[i].Grant? || attempt[i].EndReclaim?
    ensures After(attempt, w).builds == w.builds && After(attempt, w).shared == w.shared
    decreases |attempt|
  {
    if attempt != [] {
      AttemptMovesNothing(attempt[..|attempt| - 1], w);
    }
  }

  /** A live supervisor whose workload has ended can settle, finish and give up its lease. */
  lemma BuildCanSettle(w: World, b: nat, e: nat) returns (log: seq<Event>)
    requires Inv(w) && Acting(w, b, Journalled) && w.builds[b].row.executions == [e] && !w.builds[b].live
    ensures Legal(log, w) && b in After(log, w).builds && b !in After(log, w).shared
    ensures After(log, w).builds[b].disk == Some(Row(Finished, [])) && After(log, w).builds[b].stage == Closed
  {
    SettlingSteps(w, b, e);
    hide Allowed, Apply, Inv, Legal, After;
    var settle, finish := Operate(b, Settle(e), true), Operate(b, Finish, true);
    LegalNil(w);
    LegalMore([], settle, w);
    LegalMore([] + [settle], finish, w);
    LegalMore([] + [settle] + [finish], Close(b), w);
    LegalMore([] + [settle] + [finish] + [Close(b)], DropLease(b), w);
    log := [] + [settle] + [finish] + [Close(b)] + [DropLease(b)];
  }

  lemma LegalNil(w: World)
    ensures Legal([], w) && After([], w) == w
  {
  }

  lemma SettlingSteps(w: World, b: nat, e: nat)
    requires Inv(w) && Acting(w, b, Journalled) && w.builds[b].row.executions == [e] && !w.builds[b].live
    ensures
      var settle, finish := Operate(b, Settle(e), true), Operate(b, Finish, true);
      && Allowed(settle, w) && Allowed(finish, Apply(settle, w)) && Allowed(Close(b), Apply(finish, Apply(settle, w)))
      && var closed := Apply(Close(b), Apply(finish, Apply(settle, w)));
         && Allowed(DropLease(b), closed)
         && var end := Apply(DropLease(b), closed);
            && b in end.builds && b !in end.shared
            && end.builds[b].disk == Some(Row(Finished, [])) && end.builds[b].stage == Closed
  {
    assert BuildSound(w, b);
    OperationsMean(w.builds[b].row, true, e);
    hide Inv;
  }

  /** A journalled build can attach its execution, durably, and only then does its workload live. */
  lemma BuildCanRun(w: World, b: nat, e: nat) returns (log: seq<Event>)
    requires Acting(w, b, Journalled) && w.builds[b].row == NEW_ROW
    ensures Legal(log, w) && b in After(log, w).builds && After(log, w).builds[b].live
    ensures After(log, w).builds[b].disk == Some(Row(Running, [e])) && After(log, w).builds[b].stage == Journalled
  {
    var attach := Operate(b, Attach(e), true);
    LegalNil(w);
    LegalMore([], attach, w);
    LegalMore([] + [attach], Go(b), w);
    log := [] + [attach] + [Go(b)];
  }
}

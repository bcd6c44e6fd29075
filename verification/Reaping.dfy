/**
  The supervising loop of one execution session: it observes the leader's exit,
  counts survivors, and escalates from a soft signal to SIGKILL.  Each `Pass`
  holds what the clock, the kernel and the record answered during one iteration;
  nothing is assumed about them except that the clock never goes backwards.
 */
module Reaping {
  import opened Wrappers

  datatype Pass = Pass(
    observedAt: real,          // the first clock reading of the pass
    withdrawn: bool,           // the host withdrew its admission
    withdrawnAt: real,
    cancelled: bool,           // a termination request has been latched
    cancelledAt: real,
    exit: Option<nat>,         // the leader's translated exit code, once it has exited
    gate: Option<nat>,         // the gate session that the record names
    members: map<nat, set<nat>>, // live members that a census of each session reports
    supervisor: Option<nat>,   // the recorded gate supervisor, if it is in the session
    leakAt: real,
    leakGate: Option<nat>,     // the gate session on record when a leak is noticed
    orphaned: bool,            // its supervisor is gone
    nowAt: real,               // compared with the deadline
    killGate: Option<nat>,     // the gate session on record when SIGKILL is sent
    killAt: real)              // read after SIGKILL was sent

  /** Who is supervised: a lifecycle, or a gate inside one. */
  datatype Charge = Charge(child: nat, gating: bool)

  datatype Event =
    | Exited(code: nat)
    | Counted(began: real, sessions: set<nat>, alive: set<nat>)
    // SIGTERM or the cancelling signal, to every member of these sessions and to these processes
    | Asked(at: real, sessions: set<nat>, pids: set<nat>)
    | Killed(at: real, sessions: set<nat>)   // SIGKILL to every member of these sessions

  datatype Verdict = Status(code: nat) | Unreapable(alive: set<nat>) | Watching

  predicate Ordered(p: Pass) {
    p.observedAt <= p.withdrawnAt <= p.cancelledAt <= p.leakAt <= p.nowAt <= p.killAt
  }

  predicate Monotonic(passes: seq<Pass>) {
    && (forall i | 0 <= i < |passes| :: Ordered(passes[i]))
    && (forall i, j | 0 <= i < j < |passes| :: passes[i].killAt <= passes[j].observedAt)
  }

  function SetOf(x: Option<nat>): set<nat> {
    if x.Some? then {x.value} else {}
  }

  /** A withdrawn admission stops the whole session. */
  function WithdrawalAsk(who: Charge, p: Pass): Event {
    Asked(p.withdrawnAt, {who.child}, {})
  }

  /** A cancelled gate is stopped whole; of a lifecycle only the leader and its gate supervisor are told. */
  function CancelAsk(who: Charge, p: Pass): Event {
    if who.gating then Asked(p.cancelledAt, {who.child}, {})
    else Asked(p.cancelledAt, {}, {who.child} + SetOf(p.supervisor))
  }

  /** A leak is stopped with its session, and with a gate that nobody supervises any more. */
  function LeakAsk(who: Charge, p: Pass): Event {
    Asked(p.leakAt, {who.child} + if !who.gating && p.orphaned then SetOf(p.leakGate) else {}, {})
  }

  function Kill(who: Charge, p: Pass): Event {
    Killed(p.killAt, {who.child} + if who.gating then {} else SetOf(p.killGate))
  }

  /** The sessions that the record read in this pass puts under supervision. */
  function Sessions(who: Charge, p: Pass): set<nat> {
    {who.child} + if who.gating then {} else SetOf(p.gate)
  }

  function Alive(sessions: set<nat>, p: Pass): set<nat> {
    set sid, pid | sid in sessions && sid in p.members && pid in p.members[sid] :: pid
  }

  // ----- Whom the signals reach, and who is counted -----

  /** SIGKILL reaches the session, and for a lifecycle also the gate then on record, and nobody else. */
  ghost predicate KillsAll(e: Event, who: Charge, p: Pass) {
    && e.Killed? && e.at == p.killAt
    && forall s :: s in e.sessions <==> s == who.child || (!who.gating && p.killGate == Some(s))
  }

  /** A withdrawn admission stops every member of the session. */
  ghost predicate AsksWithdrawn(e: Event, who: Charge, p: Pass) {
    && e.Asked? && e.at == p.withdrawnAt && e.pids == {} && forall s :: s in e.sessions <==> s == who.child
  }

  /** A cancelled gate is stopped with its whole session; a lifecycle through its leader and gate supervisor. */
  ghost predicate AsksCancelled(e: Event, who: Charge, p: Pass) {
    && e.Asked? && e.at == p.cancelledAt
    && (forall s :: s in e.sessions <==> who.gating && s == who.child)
    && (forall pid :: pid in e.pids <==> !who.gating && (pid == who.child || p.supervisor == Some(pid)))
  }

  /** A leak is stopped with its session, and with the gate on record if nobody supervises that. */
  ghost predicate AsksLeak(e: Event, who: Charge, p: Pass) {
    && e.Asked? && e.at == p.leakAt && e.pids == {}
    && forall s :: s in e.sessions <==> s == who.child || (!who.gating && p.orphaned && p.leakGate == Some(s))
  }

  /** The census was of the session, and for a lifecycle of the gate on record in that pass. */
  ghost predicate CountsAll(e: Event, who: Charge, p: Pass) {
    && e.Counted? && e.began == p.observedAt
    && forall s :: s in e.sessions <==> s == who.child || (!who.gating && p.gate == Some(s))
  }

  /** A live member of the charge, as this pass's census shows it. */
  ghost predicate Member(who: Charge, p: Pass, pid: nat) {
    || (who.child in p.members && pid in p.members[who.child])
    || (!who.gating && p.gate.Some? && p.gate.value in p.members && pid in p.members[p.gate.value])
  }

  /** By this pass the leader has exited, and nobody it put under supervision is left. */
  ghost predicate Quiet(who: Charge, passes: seq<Pass>, i: nat) {
    i < |passes| && (exists j :: 0 <= j <= i && passes[j].exit.Some?) && forall pid :: !Member(who, passes[i], pid)
  }

  lemma CensusIsMembers(who: Charge, p: Pass)
    ensures forall pid :: pid in Alive(Sessions(who, p), p) <==> Member(who, p, pid)
    ensures CountsAll(Counted(p.observedAt, Sessions(who, p), Alive(Sessions(who, p), p)), who, p)
  {
  }

  lemma SignalsReach(who: Charge, p: Pass)
    ensures KillsAll(Kill(who, p), who, p) && AsksWithdrawn(WithdrawalAsk(who, p), who, p)
    ensures AsksCancelled(CancelAsk(who, p), who, p) && AsksLeak(LeakAsk(who, p), who, p)
  {
  }

  /** SIGKILL follows a soft signal by at least the grace. */
  predicate Patient(trace: seq<Event>, grace: real) {
    forall i | 0 <= i < |trace| && trace[i].Killed? ::
      exists j :: 0 <= j < i && trace[j].Asked? && trace[j].at + grace <= trace[i].at
  }

  /** The leader was seen to exit with this code, and a later census of everyone found nobody. */
  ghost predicate Settled(trace: seq<Event>, code: nat, who: Charge, p: Pass) {
    && |trace| > 0 && CountsAll(trace[|trace| - 1], who, p) && trace[|trace| - 1].alive == {}
    && Exited(code) in trace[..|trace| - 1]
  }

  /** The leader's exit was first observed in one of the first `n` passes, with this code. */
  ghost predicate FirstExit(passes: seq<Pass>, n: nat, code: nat)
    requires n <= |passes|
  {
    exists i :: 0 <= i < n && passes[i].exit == Some(code) && forall j | 0 <= j < i :: passes[j].exit.None?
  }

  /** A census begun an eighth of the budget after the first SIGKILL still found members. */
  ghost predicate Survived(trace: seq<Event>, budget: real, alive: set<nat>) {
    exists i, j :: 0 <= i < j < |trace| && FirstKill(trace, i) && trace[j].Counted?
      && trace[j].alive == alive != {} && trace[i].at + budget / 8.0 <= trace[j].began
  }

  predicate FirstKill(trace: seq<Event>, i: nat) {
    i < |trace| && trace[i].Killed? && forall k | 0 <= k < i :: !trace[k].Killed?
  }

  predicate NoKill(trace: seq<Event>) {
    forall k | 0 <= k < |trace| :: !trace[k].Killed?
  }

  /** What the loop's variables say about the trace so far. */
  ghost predicate Ladder(
    trace: seq<Event>, code: Option<nat>, deadline: Option<real>, killedAt: Option<real>, grace: real)
  {
    && (code.Some? ==> Exited(code.value) in trace)
    && (deadline.Some? ==> exists j :: 0 <= j < |trace| && trace[j].Asked? && trace[j].at + grace == deadline.value)
    && (killedAt.Some? ==> exists i: nat :: FirstKill(trace, i) && trace[i].at == killedAt.value)
    && (killedAt.None? ==> NoKill(trace))
    && Patient(trace, grace)
  }

  lemma LadderGrows(trace: seq<Event>, e: Event, code: Option<nat>, deadline: Option<real>, killedAt: Option<real>,
                    grace: real)
    requires Ladder(trace, code, deadline, killedAt, grace) && !e.Killed?
    ensures Ladder(trace + [e], code, deadline, killedAt, grace)
    ensures e.Exited? ==> Ladder(trace + [e], Some(e.code), deadline, killedAt, grace)
    ensures e.Asked? ==> Ladder(trace + [e], code, Some(e.at + grace), killedAt, grace)
  {
    var t := trace + [e];
    if killedAt.Some? {
      var i: nat :| FirstKill(trace, i) && trace[i].at == killedAt.value;
      assert FirstKill(t, i);
    }
    if deadline.Some? {
      var j :| 0 <= j < |trace| && trace[j].Asked? && trace[j].at + grace == deadline.value;
      assert t[j] == trace[j];
    }
    forall i | 0 <= i < |t| && t[i].Killed?
      ensures exists j :: 0 <= j < i && t[j].Asked? && t[j].at + grace <= t[i].at
    {
      assert t[i] == trace[i];
      var j :| 0 <= j < i && trace[j].Asked? && trace[j].at + grace <= trace[i].at;
      assert t[j] == trace[j];
    }
    if e.Asked? {
      assert t[|trace|] == e;
    }
    assert code.Some? ==> Exited(code.value) in t;
    assert e in t;
  }

  lemma LadderKills(trace: seq<Event>, e: Event, code: Option<nat>, deadline: real, killedAt: Option<real>,
                    grace: real)
    requires Ladder(trace, code, Some(deadline), killedAt, grace) && e.Killed? && deadline <= e.at
    ensures Ladder(trace + [e], code, Some(deadline), if killedAt.Some? then killedAt else Some(e.at), grace)
  {
    var t := trace + [e];
    var asked :| 0 <= asked < |trace| && trace[asked].Asked? && trace[asked].at + grace == deadline;
    assert t[asked] == trace[asked];
    if killedAt.Some? {
      var i: nat :| FirstKill(trace, i) && trace[i].at == killedAt.value;
      assert FirstKill(t, i);
    } else {
      assert FirstKill(t, |trace|);
    }
    forall i | 0 <= i < |t| && t[i].Killed?
      ensures exists j :: 0 <= j < i && t[j].Asked? && t[j].at + grace <= t[i].at
    {
      if i < |trace| {
        assert t[i] == trace[i];
        var j :| 0 <= j < i && trace[j].Asked? && trace[j].at + grace <= trace[i].at;
        assert t[j] == trace[j];
      }
    }
    assert code.Some? ==> Exited(code.value) in t;
  }

  lemma KillCameFirst(early: seq<Event>, trace: seq<Event>, killedAt: real, budget: real)
    requires early < trace && trace[|early|].Counted? && trace[|early|].alive != {}
    requires exists i: nat :: FirstKill(early, i) && early[i].at == killedAt
    requires killedAt + budget / 8.0 <= trace[|early|].began
    ensures Survived(trace, budget, trace[|early|].alive)
  {
    var i: nat :| FirstKill(early, i) && early[i].at == killedAt;
    assert forall k | 0 <= k < |early| :: early[k] == trace[k];
    assert FirstKill(trace, i);
  }

  /** The variables of the loop. */
  datatype Watch = Watch(code: Option<nat>, deadline: Option<real>, killedAt: Option<real>, withdrawn: bool)

  ghost predicate Consistent(w: Watch, trace: seq<Event>, grace: real) {
    Ladder(trace, w.code, w.deadline, w.killedAt, grace) && (w.killedAt.Some? ==> w.deadline.Some?)
  }

  /** A soft signal is sent once, and it sets the deadline. */
  ghost predicate AskedOnce(w: Watch, trace: seq<Event>, grace: real) {
    forall j | 0 <= j < |trace| && trace[j].Asked? :: w.deadline == Some(trace[j].at + grace)
  }

  /** Every pass that ended past the deadline has killed. */
  ghost predicate KillsWhenDue(who: Charge, w: Watch, trace: seq<Event>, passes: seq<Pass>, n: nat)
    requires n <= |passes|
  {
    forall i | 0 <= i < n && w.deadline.Some? && w.deadline.value <= passes[i].nowAt :: Kill(who, passes[i]) in trace
  }

  /** No census so far has found anyone an eighth of the budget after the first SIGKILL. */
  ghost predicate NoneOutlived(w: Watch, trace: seq<Event>, budget: real) {
    forall j | 0 <= j < |trace| && trace[j].Counted? && trace[j].alive != {} && w.killedAt.Some? ::
      trace[j].began < w.killedAt.value + budget / 8.0
  }

  predicate CountedBy(trace: seq<Event>, at: real) {
    forall j | 0 <= j < |trace| && trace[j].Counted? :: trace[j].began <= at
  }

  /** The events added by a part of a pass: no census, and a soft signal only where none was sent. */
  ghost predicate Adds(w: Watch, trace: seq<Event>, w': Watch, trace': seq<Event>, grace: real) {
    && trace <= trace' && (w.deadline.Some? ==> w'.deadline == w.deadline)
    && (forall j | |trace| <= j < |trace'| ::
          && !trace'[j].Counted?
          && (trace'[j].Asked? ==> w.deadline.None? && w'.deadline == Some(trace'[j].at + grace)))
  }

  lemma AddsKeeps(w: Watch, trace: seq<Event>, w': Watch, trace': seq<Event>, grace: real, budget: real, at: real)
    requires Adds(w, trace, w', trace', grace) && AskedOnce(w, trace, grace) && CountedBy(trace, at)
    ensures AskedOnce(w', trace', grace) && CountedBy(trace', at)
    ensures NoneOutlived(w, trace, budget) && w'.killedAt == w.killedAt ==> NoneOutlived(w', trace', budget)
  {
    assert forall j | 0 <= j < |trace| :: trace'[j] == trace[j];
  }

  /** Notice a withdrawal, a cancellation or the leader's exit. */
  method Attend(who: Charge, w: Watch, p: Pass, trace: seq<Event>, grace: real) returns (w': Watch, trace': seq<Event>)
    requires Consistent(w, trace, grace) && Ordered(p)
    ensures Consistent(w', trace', grace) && Adds(w, trace, w', trace', grace)
    ensures forall j | |trace| <= j < |trace'| :: !trace'[j].Killed?
    ensures w'.killedAt == w.killedAt && w'.code == if w.code.Some? then w.code else p.exit
    ensures w'.deadline.None? <==> w.deadline.None? && !p.cancelled && (w.withdrawn || w.code.Some? || !p.withdrawn)
    ensures w.deadline.None? && w'.deadline.Some? ==> w'.deadline.value >= p.observedAt + grace
    ensures w'.withdrawn == (w.withdrawn || (w.code.None? && p.withdrawn))
    ensures trace' == trace
      + (if w.deadline.Some? then []
         else if !w.withdrawn && w.code.None? && p.withdrawn then [WithdrawalAsk(who, p)]
         else if p.cancelled then [CancelAsk(who, p)] else [])
      + (if w.code.None? && p.exit.Some? then [Exited(p.exit.value)] else [])
    ensures w.deadline.None? && !w.withdrawn && w.code.None? && p.withdrawn ==>
      |trace'| > |trace| && AsksWithdrawn(trace'[|trace|], who, p)
    ensures w.deadline.None? && (w.withdrawn || w.code.Some? || !p.withdrawn) && p.cancelled ==>
      |trace'| > |trace| && AsksCancelled(trace'[|trace|], who, p)
  {
    hide Ladder, KillsAll, AsksWithdrawn, AsksCancelled, AsksLeak;
    SignalsReach(who, p);
    w', trace' := w, trace;
    if !w.withdrawn && w.code.None? && p.withdrawn {
      w' := w'.(withdrawn := true);
      if w.deadline.None? {
        LadderGrows(trace', WithdrawalAsk(who, p), w'.code, w'.deadline, w'.killedAt, grace);
        w', trace' := w'.(deadline := Some(p.withdrawnAt + grace)), trace' + [WithdrawalAsk(who, p)];
      }
    }
    if p.cancelled && w'.deadline.None? {
      LadderGrows(trace', CancelAsk(who, p), w'.code, w'.deadline, w'.killedAt, grace);
      w', trace' := w'.(deadline := Some(p.cancelledAt + grace)), trace' + [CancelAsk(who, p)];
    }
    if w'.code.None? && p.exit.Some? {
      LadderGrows(trace', Exited(p.exit.value), w'.code, w'.deadline, w'.killedAt, grace);
      w', trace' := w'.(code := p.exit), trace' + [Exited(p.exit.value)];
    }
  }

  /** Ask survivors of an exited leader to stop; kill every survivor once the deadline has passed. */
  method Escalate(who: Charge, w: Watch, p: Pass, trace: seq<Event>, grace: real)
    returns (w': Watch, trace': seq<Event>)
    requires Consistent(w, trace, grace) && Ordered(p)
    ensures Consistent(w', trace', grace) && Adds(w, trace, w', trace', grace)
    ensures w'.code == w.code && w'.withdrawn == w.withdrawn
    ensures w'.killedAt == w.killedAt || (w.killedAt.None? && w'.killedAt == Some(p.killAt))
    ensures w'.deadline.Some? <==> w.deadline.Some? || w.code.Some?
    ensures w.deadline.None? && w'.deadline.Some? ==> w'.deadline.value >= p.observedAt + grace
    ensures trace' == trace
      + (if w.code.Some? && w.deadline.None? then [LeakAsk(who, p)] else [])
      + (if w'.deadline.Some? && w'.deadline.value <= p.nowAt then [Kill(who, p)] else [])
    ensures w.code.Some? && w.deadline.None? ==> |trace'| > |trace| && AsksLeak(trace'[|trace|], who, p)
    ensures w'.deadline.Some? && w'.deadline.value <= p.nowAt ==>
      |trace'| > |trace| && KillsAll(trace'[|trace'| - 1], who, p)
  {
    hide Ladder, KillsAll, AsksWithdrawn, AsksCancelled, AsksLeak;
    SignalsReach(who, p);
    w', trace' := w, trace;
    if w.code.Some? && w.deadline.None? {
      LadderGrows(trace', LeakAsk(who, p), w'.code, w'.deadline, w'.killedAt, grace);
      w', trace' := w'.(deadline := Some(p.leakAt + grace)), trace' + [LeakAsk(who, p)];
    }
    if w'.deadline.Some? && p.nowAt >= w'.deadline.value {
      LadderKills(trace', Kill(who, p), w'.code, w'.deadline.value, w'.killedAt, grace);
      trace' := trace' + [Kill(who, p)];
      if w'.killedAt.None? {
        w' := w'.(killedAt := Some(p.killAt));
      }
    }
  }

  /** What the loop has done after `n` passes. */
  ghost predicate Diligent(
    who: Charge, w: Watch, trace: seq<Event>, passes: seq<Pass>, n: nat, grace: real, budget: real)
    requires n <= |passes|
  {
    && Consistent(w, trace, grace)
    && AskedOnce(w, trace, grace) && KillsWhenDue(who, w, trace, passes, n) && NoneOutlived(w, trace, budget)
    && (if n == 0 then trace == [] else CountedBy(trace, passes[n - 1].observedAt))
    && (forall i | 0 <= i < n && (passes[i].cancelled || passes[i].exit.Some?) :: w.deadline.Some?)
  }

  /** An uneventful pass. */
  lemma IdlePass(
    who: Charge, w: Watch, trace: seq<Event>, w': Watch, trace': seq<Event>,
    passes: seq<Pass>, n: nat, grace: real, budget: real)
    requires n < |passes| && Monotonic(passes) && grace > 0.0 && budget > 0.0
    requires Diligent(who, w, trace, passes, n, grace, budget) && Consistent(w', trace', grace)
    requires Adds(w, trace, w', trace', grace) && w'.killedAt == w.killedAt && w'.deadline.None?
    requires !passes[n].cancelled && passes[n].exit.None?
    ensures Diligent(who, w', trace', passes, n + 1, grace, budget)
  {
    hide Consistent;
    Earlier(trace, passes, n);
    AddsKeeps(w, trace, w', trace', grace, budget, passes[n].observedAt);
  }

  lemma Earlier(trace: seq<Event>, passes: seq<Pass>, n: nat)
    requires n < |passes| && Monotonic(passes)
    requires if n == 0 then trace == [] else CountedBy(trace, passes[n - 1].observedAt)
    ensures CountedBy(trace, passes[n].observedAt)
  {
    if n > 0 {
      assert passes[n - 1].killAt <= passes[n].observedAt && Ordered(passes[n - 1]);
    }
  }

  /** A pass that counts and escalates. */
  lemma BusyPass(
    who: Charge, w: Watch, trace: seq<Event>, w1: Watch, trace1: seq<Event>, e: Event, w2: Watch, trace2: seq<Event>,
    passes: seq<Pass>, n: nat, grace: real, budget: real)
    requires n < |passes| && Monotonic(passes) && grace > 0.0 && budget > 0.0
    requires Diligent(who, w, trace, passes, n, grace, budget) && Consistent(w2, trace2, grace)
    requires Adds(w, trace, w1, trace1, grace) && Adds(w1, trace1 + [e], w2, trace2, grace)
    requires e.Counted? && e.began == passes[n].observedAt
    requires w1.killedAt == w.killedAt
    requires w2.killedAt == w1.killedAt || (w1.killedAt.None? && w2.killedAt == Some(passes[n].killAt))
    requires w.deadline.None? && w1.deadline.Some? ==> w1.deadline.value >= passes[n].observedAt + grace
    requires w1.deadline.None? && w2.deadline.Some? ==> w2.deadline.value >= passes[n].observedAt + grace
    requires w2.deadline.Some?
    requires w2.deadline.value <= passes[n].nowAt ==> Kill(who, passes[n]) in trace2
    requires e.alive != {} && w2.killedAt.Some? ==> e.began < w2.killedAt.value + budget / 8.0
    ensures Diligent(who, w2, trace2, passes, n + 1, grace, budget)
  {
    hide Consistent;
    var at := passes[n].observedAt;
    Earlier(trace, passes, n);
    AddsKeeps(w, trace, w1, trace1, grace, budget, at);
    CountKeeps(w1, trace1, e, grace, at);
    AddsKeeps(w1, trace1 + [e], w2, trace2, grace, budget, at);
    StillNone(w1, trace1, e, w2, trace2, passes[n], grace, budget);
    forall i | 0 <= i < n + 1 && w2.deadline.value <= passes[i].nowAt
      ensures Kill(who, passes[i]) in trace2
    {
      if i < n {
        assert Ordered(passes[i]) && passes[i].killAt <= passes[n].observedAt;
        assert w.deadline.Some? && w2.deadline == w.deadline;
        assert Kill(who, passes[i]) in trace;
        var j :| 0 <= j < |trace| && trace[j] == Kill(who, passes[i]);
        assert trace2[j] == trace[j];
      }
    }
  }

  lemma CountKeeps(w: Watch, trace: seq<Event>, e: Event, grace: real, at: real)
    requires e.Counted? && e.began <= at && AskedOnce(w, trace, grace) && CountedBy(trace, at)
    ensures AskedOnce(w, trace + [e], grace) && CountedBy(trace + [e], at)
  {
  }

  lemma StillNone(
    w1: Watch, trace1: seq<Event>, e: Event, w2: Watch, trace2: seq<Event>, p: Pass, grace: real, budget: real)
    requires Adds(w1, trace1 + [e], w2, trace2, grace) && CountedBy(trace1, p.observedAt) && Ordered(p) && budget > 0.0
    requires NoneOutlived(w1, trace1, budget) && e.Counted?
    requires w2.killedAt == w1.killedAt || (w1.killedAt.None? && w2.killedAt == Some(p.killAt))
    requires e.alive != {} && w2.killedAt.Some? ==> e.began < w2.killedAt.value + budget / 8.0
    ensures NoneOutlived(w2, trace2, budget)
  {
    forall j | 0 <= j < |trace2| && trace2[j].Counted? && trace2[j].alive != {} && w2.killedAt.Some?
      ensures trace2[j].began < w2.killedAt.value + budget / 8.0
    {
      assert j < |trace1 + [e]| ==> trace2[j] == (trace1 + [e])[j];
    }
  }

  ghost predicate AllAskedBy(who: Charge, trace: seq<Event>, passes: seq<Pass>, n: nat)
    requires n <= |passes|
  {
    forall j | 0 <= j < |trace| && trace[j].Asked? :: AskedBy(who, trace[j], passes, n)
  }

  /** The events that one pass can add, as far as soft signals are concerned. */
  predicate CalledFor(who: Charge, e: Event, p: Pass) {
    e.Asked? ==>
      || (e == WithdrawalAsk(who, p) && p.withdrawn)
      || (e == CancelAsk(who, p) && p.cancelled)
      || e == LeakAsk(who, p)
  }

  lemma AskedGrows(who: Charge, trace: seq<Event>, trace': seq<Event>, passes: seq<Pass>, n: nat)
    requires n < |passes| && AllAskedBy(who, trace, passes, n) && trace <= trace'
    requires forall j | |trace| <= j < |trace'| :: CalledFor(who, trace'[j], passes[n])
    ensures AllAskedBy(who, trace', passes, n + 1)
  {
    hide AsksWithdrawn, AsksCancelled, AsksLeak, KillsAll;
    SignalsReach(who, passes[n]);
    forall j | 0 <= j < |trace'| && trace'[j].Asked? ensures AskedBy(who, trace'[j], passes, n + 1) {
      if j < |trace| {
        assert trace'[j] == trace[j];
        var i :| 0 <= i < n &&
          (|| (passes[i].withdrawn && AsksWithdrawn(trace[j], who, passes[i]))
           || (passes[i].cancelled && AsksCancelled(trace[j], who, passes[i]))
           || AsksLeak(trace[j], who, passes[i]));
      } else {
        assert CalledFor(who, trace'[j], passes[n]);
      }
    }
  }

  /** What diligence means for the trace alone. */
  lemma DiligenceShows(
    who: Charge, w: Watch, trace: seq<Event>, passes: seq<Pass>, n: nat, grace: real, budget: real)
    requires n <= |passes| && Diligent(who, w, trace, passes, n, grace, budget) && AllAskedBy(who, trace, passes, n)
    ensures Prompt(who, trace, passes, n, grace) && forall alive :: !Survived(trace, budget, alive)
  {
    hide AsksWithdrawn, AsksCancelled, AsksLeak, KillsAll, AskedBy;
    forall i, j | 0 <= i < j < |trace| && FirstKill(trace, i) && trace[j].Counted? && trace[j].alive != {}
      ensures trace[j].began < trace[i].at + budget / 8.0
    {
      assert w.killedAt.Some?;
      var k: nat :| FirstKill(trace, k) && trace[k].at == w.killedAt.value;
      assert k == i;
    }
    forall i, j | 0 <= i < n && 0 <= j < |trace| && trace[j].Asked? && trace[j].at + grace <= passes[i].nowAt
      ensures exists k :: 0 <= k < |trace| && KillsAll(trace[k], who, passes[i])
    {
      SignalsReach(who, passes[i]);
      assert Kill(who, passes[i]) in trace;
    }
  }

  /** The soft signal is the one that some pass called for. */
  ghost predicate AskedBy(who: Charge, e: Event, passes: seq<Pass>, n: nat)
    requires n <= |passes|
  {
    exists i :: 0 <= i < n &&
      (|| (passes[i].withdrawn && AsksWithdrawn(e, who, passes[i]))
       || (passes[i].cancelled && AsksCancelled(e, who, passes[i]))
       || AsksLeak(e, who, passes[i]))
  }

  /**
    Whoever is cancelled, or has exited and left survivors, is asked to stop; and each of the
    first `n` passes that ended after a soft signal's grace sent SIGKILL to every session on record.
   */
  ghost predicate Prompt(who: Charge, trace: seq<Event>, passes: seq<Pass>, n: nat, grace: real)
    requires n <= |passes|
  {
    && (forall i | 0 <= i < n && (passes[i].cancelled || passes[i].exit.Some?) ::
          exists j :: 0 <= j < |trace| && trace[j].Asked?)
    && (forall j | 0 <= j < |trace| && trace[j].Asked? :: AskedBy(who, trace[j], passes, n))
    && (forall i, j | 0 <= i < n && 0 <= j < |trace| && trace[j].Asked? && trace[j].at + grace <= passes[i].nowAt ::
          exists k :: 0 <= k < |trace| && KillsAll(trace[k], who, passes[i]))
  }

  /**
    A status is returned only after the leader's exit and then an empty census of
    every session named by the record in that pass; a refusal only on members
    found by a census begun an eighth of the budget after the first SIGKILL; and
    SIGKILL is never sent before a soft signal has been given its grace.  The loop
    goes on only while neither verdict is due, and it escalates in every pass.
   */
  method Supervise(who: Charge, budget: real, passes: seq<Pass>)
    returns (verdict: Verdict, trace: seq<Event>, used: nat)
    requires budget > 0.0 && Monotonic(passes)
    ensures used <= |passes| && (verdict.Watching? ==> used == |passes|)
    ensures Patient(trace, budget / if who.gating then 4.0 else 2.0)
    ensures verdict.Status? ==>
      && used > 0 && Quiet(who, passes, used - 1) && FirstExit(passes, used, verdict.code)
      && Settled(trace, verdict.code, who, passes[used - 1])
    ensures verdict.Unreapable? ==>
      && used > 0 && Survived(trace, budget, verdict.alive)
      && forall pid :: pid in verdict.alive <==> Member(who, passes[used - 1], pid)
    ensures verdict.Watching? ==>
      && (forall i | 0 <= i < used :: !Quiet(who, passes, i))
      && (forall alive :: !Survived(trace, budget, alive))
      && Prompt(who, trace, passes, used, budget / if who.gating then 4.0 else 2.0)
  {
    hide Ladder, Patient, Alive, Survived, Consistent, Diligent, Prompt, Adds, Monotonic, AllAskedBy;
    hide WithdrawalAsk, CancelAsk, LeakAsk, Kill, AsksWithdrawn, AsksCancelled, AsksLeak, KillsAll;
    hide Member, CountsAll, Sessions, Quiet, FirstExit;
    var grace := budget / if who.gating then 4.0 else 2.0;
    var w := Watch(None, None, None, false);
    trace, used := [], 0;
    Begins(who, passes, grace, budget);
    while used < |passes|
      invariant used <= |passes| && Diligent(who, w, trace, passes, used, grace, budget)
      invariant AllAskedBy(who, trace, passes, used)
      invariant if w.code.Some? then FirstExit(passes, used, w.code.value)
                else forall i | 0 <= i < used :: passes[i].exit.None?
      invariant forall i | 0 <= i < used :: !Quiet(who, passes, i)
    {
      var p := passes[used];
      IsOrdered(passes, used);
      Steady(who, w, trace, passes, used, grace, budget);
      ghost var w0, trace0 := w, trace;
      w, trace := Attend(who, w, p, trace, grace);
      ExitFound(passes, used, w0.code, w.code);
      used := used + 1;
      if w.code.None? && w.deadline.None? {
        IdlePass(who, w0, trace0, w, trace, passes, used - 1, grace, budget);
        NotQuiet(who, passes, used - 1, {});
        AskedGrows(who, trace0, trace, passes, used - 1);
        continue;
      }
      var sessions := Sessions(who, p);
      var alive := Alive(sessions, p);
      CensusIsMembers(who, p);
      ghost var w1, early := w, trace;
      var e := Counted(p.observedAt, sessions, alive);
      Counts(w, trace, e, grace);
      trace := trace + [e];
      if w.code.Some? && alive == {} {
        assert trace[..|trace| - 1] == early;
        IsQuiet(who, passes, used - 1, w.code.value);
        return Status(w.code.value), trace, used;
      }
      NotQuiet(who, passes, used - 1, alive);
      w, trace := Escalate(who, w, p, trace, grace);
      if w.killedAt.Some? && alive != {} && p.observedAt >= w.killedAt.value + budget / 8.0 {
        Refuses(w1, early, w, trace, e, p, grace, budget);
        return Unreapable(alive), trace, used;
      }
      PassCallsFor(who, w0, trace0, w1, early, e, w, trace, p);
      AskedGrows(who, trace0, trace, passes, used - 1);
      BusyPass(who, w0, trace0, w1, early, e, w, trace, passes, used - 1, grace, budget);
    }
    Steady(who, w, trace, passes, used, grace, budget);
    DiligenceShows(who, w, trace, passes, used, grace, budget);
    verdict := Watching;
  }

  lemma NotQuiet(who: Charge, passes: seq<Pass>, n: nat, alive: set<nat>)
    requires n < |passes| && forall pid :: pid in alive ==> Member(who, passes[n], pid)
    requires alive != {} || forall i | 0 <= i <= n :: passes[i].exit.None?
    ensures !Quiet(who, passes, n)
  {
    if alive != {} {
      var pid :| pid in alive;
    }
  }

  lemma IsQuiet(who: Charge, passes: seq<Pass>, n: nat, code: nat)
    requires n < |passes| && FirstExit(passes, n + 1, code) && forall pid :: !Member(who, passes[n], pid)
    ensures Quiet(who, passes, n)
  {
  }

  lemma ExitFound(passes: seq<Pass>, n: nat, before: Option<nat>, now: Option<nat>)
    requires n < |passes| && now == if before.Some? then before else passes[n].exit
    requires if before.Some? then FirstExit(passes, n, before.value) else forall i | 0 <= i < n :: passes[i].exit.None?
    ensures if now.Some? then FirstExit(passes, n + 1, now.value) else forall i | 0 <= i < n + 1 :: passes[i].exit.None?
  {
  }

  lemma PassCallsFor(
    who: Charge, w: Watch, trace: seq<Event>, w1: Watch, trace1: seq<Event>, e: Event, w2: Watch, trace2: seq<Event>,
    p: Pass)
    requires e.Counted? && trace <= trace1 && trace1 + [e] <= trace2
    requires trace1 == trace
      + (if w.deadline.Some? then []
         else if !w.withdrawn && w.code.None? && p.withdrawn then [WithdrawalAsk(who, p)]
         else if p.cancelled then [CancelAsk(who, p)] else [])
      + (if w.code.None? && p.exit.Some? then [Exited(p.exit.value)] else [])
    requires trace2 == trace1 + [e]
      + (if w1.code.Some? && w1.deadline.None? then [LeakAsk(who, p)] else [])
      + (if w2.deadline.Some? && w2.deadline.value <= p.nowAt then [Kill(who, p)] else [])
    ensures trace <= trace2 && forall j | |trace| <= j < |trace2| :: CalledFor(who, trace2[j], p)
  {
    forall j | |trace| <= j < |trace2| ensures CalledFor(who, trace2[j], p) {
      if j < |trace1| {
        assert trace2[j] == trace1[j];
      }
    }
  }

  lemma Begins(who: Charge, passes: seq<Pass>, grace: real, budget: real)
    ensures Diligent(who, Watch(None, None, None, false), [], passes, 0, grace, budget)
    ensures AllAskedBy(who, [], passes, 0)
  {
  }

  lemma IsOrdered(passes: seq<Pass>, n: nat)
    requires Monotonic(passes) && n < |passes|
    ensures Ordered(passes[n])
  {
  }

  lemma Steady(who: Charge, w: Watch, trace: seq<Event>, passes: seq<Pass>, n: nat, grace: real, budget: real)
    requires n <= |passes| && Diligent(who, w, trace, passes, n, grace, budget)
    ensures Consistent(w, trace, grace) && Patient(trace, grace)
  {
  }

  lemma Counts(w: Watch, trace: seq<Event>, e: Event, grace: real)
    requires Consistent(w, trace, grace) && e.Counted?
    ensures Consistent(w, trace + [e], grace) && Patient(trace + [e], grace)
    ensures w.code.Some? ==> Exited(w.code.value) in trace
  {
    LadderGrows(trace, e, w.code, w.deadline, w.killedAt, grace);
  }

  lemma Refuses(
    w1: Watch, early: seq<Event>, w: Watch, trace: seq<Event>, e: Event, p: Pass, grace: real, budget: real)
    requires Consistent(w1, early, grace) && Consistent(w, trace, grace) && Adds(w1, early + [e], w, trace, grace)
    requires e.Counted? && e.began == p.observedAt && e.alive != {} && Ordered(p) && budget > 0.0
    requires w.killedAt == w1.killedAt || (w1.killedAt.None? && w.killedAt == Some(p.killAt))
    requires w.killedAt.Some? && p.observedAt >= w.killedAt.value + budget / 8.0
    ensures Survived(trace, budget, e.alive) && Patient(trace, grace)
  {
    assert w1.killedAt == w.killedAt;
    assert trace[|early|] == (early + [e])[|early|] == e;
    assert early <= early + [e] <= trace;
    KillCameFirst(early, trace, w.killedAt.value, budget);
  }
}

/**
  A pool that runs test binaries concurrently under a thread budget and publishes
  their captures in the given order.  Jobs are named by their index in that order.
 */
module TestPool {
  import opened Wrappers

  type Bytes = seq<bv8>

  const DEFAULT_THREAD_CAP := 4

  function Max(a: int, b: int): int {
    if a > b then a else b
  }

  function Min(a: int, b: int): int {
    if a < b then a else b
  }

  // ----- Thread shares -----

  /** What one libtest argument list asks for: the last cap given, and the arguments left. */
  datatype Caps = Caps(cap: int, kept: seq<string>)

  const OPTION := "--test-threads"

  /** The spelling `--test-threads=<n>`. */
  predicate Joined(arg: string) {
    |arg| > |OPTION| && arg[..|OPTION| + 1] == OPTION + "="
  }

  /** The list with a cap found so far; each further cap replaces it, and takes its value with it. */
  function CapsOf(args: seq<string>, number: string -> Option<int>, cap: int): Result<Caps, string>
    decreases |args|
  {
    if args == [] then Ok(Caps(cap, []))
    else if Joined(args[0]) then
      var n := number(args[0][|OPTION| + 1..]);
      if n.None? then Err("not a number") else CapsOf(args[1..], number, n.value)
    else if args[0] == OPTION && |args| > 1 then
      var n := number(args[1]);
      if n.None? then Err("not a number") else CapsOf(args[2..], number, n.value)
    else
      var rest := CapsOf(args[1..], number, cap);
      if rest.Err? then rest else Ok(rest.value.(kept := [args[0]] + rest.value.kept))
  }

  /** The text that an argument gives as cap, if it gives one. */
  function CapText(args: seq<string>, p: nat): Option<string>
    requires p < |args|
  {
    if Joined(args[p]) then Some(args[p][|OPTION| + 1..])
    else if args[p] == OPTION && p + 1 < |args| then Some(args[p + 1])
    else None
  }

  /** The positions at which an argument starts, from `p` on: a cap's separate value is not one. */
  function Starts(args: seq<string>, p: nat): (r: seq<nat>)
    requires p <= |args|
    ensures forall k | 0 <= k < |r| :: p <= r[k] < |args|
    decreases |args| - p
  {
    if p == |args| then []
    else [p] + Starts(args, p + if CapText(args, p).Some? && !Joined(args[p]) then 2 else 1)
  }

  /** The text of the last cap among these positions. */
  function LastCap(args: seq<string>, starts: seq<nat>): Option<string>
    requires forall k | 0 <= k < |starts| :: starts[k] < |args|
  {
    if starts == [] then None
    else
      var last := starts[|starts| - 1];
      if CapText(args, last).Some? then CapText(args, last) else LastCap(args, starts[..|starts| - 1])
  }

  /** The arguments at these positions that are no caps. */
  function Others(args: seq<string>, starts: seq<nat>): seq<string>
    requires forall k | 0 <= k < |starts| :: starts[k] < |args|
  {
    if starts == [] then []
    else (if CapText(args, starts[0]).Some? then [] else [args[starts[0]]]) + Others(args, starts[1..])
  }

  predicate CapsRead(args: seq<string>, starts: seq<nat>, number: string -> Option<int>)
    requires forall k | 0 <= k < |starts| :: starts[k] < |args|
  {
    forall p | p in starts && CapText(args, p).Some? :: number(CapText(args, p).value).Some?
  }

  lemma {:induction false} LastCapFront(args: seq<string>, first: nat, rest: seq<nat>)
    requires first < |args| && forall k | 0 <= k < |rest| :: rest[k] < |args|
    ensures LastCap(args, [first] + rest) ==
      if LastCap(args, rest).Some? then LastCap(args, rest) else CapText(args, first)
    decreases |rest|
  {
    var all := [first] + rest;
    if rest == [] {
      assert all[..0] == [];
    } else {
      LastCapFront(args, first, rest[..|rest| - 1]);
      assert all[..|all| - 1] == [first] + rest[..|rest| - 1];
    }
  }

  /**
    What an argument list means: it is refused exactly if some cap is no number; the cap is the one
    given last, and everything else is kept in order.
   */
  lemma {:induction false} CapsMean(args: seq<string>, number: string -> Option<int>, cap: int, p: nat)
    requires p <= |args|
    ensures
      var starts, r := Starts(args, p), CapsOf(args[p..], number, cap);
      && (r.Ok? <==> CapsRead(args, starts, number))
      && (r.Ok? ==>
          && r.value.kept == Others(args, starts)
          && r.value.cap == match LastCap(args, starts) case None => cap case Some(text) =>
               if number(text).Some? then number(text).value else cap)
      && (r.Ok? && LastCap(args, starts).Some? ==> number(LastCap(args, starts).value).Some?)
    decreases |args| - p
  {
    if p < |args| {
      CapsStep(args, number, cap, p);
      StartsStep(args, number, p);
      hide CapsOf, CapText, CapsRead, Others, LastCap, Starts, Joined;
      var text, next := CapText(args, p), NextStart(args, p);
      LastCapFront(args, p, Starts(args, next));
      if text.None? || number(text.value).Some? {
        CapsMean(args, number, if text.Some? then number(text.value).value else cap, next);
      }
    }
  }

  function NextStart(args: seq<string>, p: nat): (next: nat)
    requires p < |args|
    ensures p < next <= |args|
  {
    p + if CapText(args, p).Some? && !Joined(args[p]) then 2 else 1
  }

  lemma CapsStep(args: seq<string>, number: string -> Option<int>, cap: int, p: nat)
    requires p < |args|
    ensures
      var text, rest := CapText(args, p), args[NextStart(args, p)..];
      CapsOf(args[p..], number, cap) ==
        if text.None? then
          var r := CapsOf(rest, number, cap);
          if r.Err? then r else Ok(r.value.(kept := [args[p]] + r.value.kept))
        else if number(text.value).None? then Err("not a number")
        else CapsOf(rest, number, number(text.value).value)
  {
    var next := NextStart(args, p);
    assert args[p..][0] == args[p] && args[p..][next - p..] == args[next..];
    assert next == p + 2 ==> args[p..][1] == args[p + 1];
    hide Joined;
  }

  lemma StartsStep(args: seq<string>, number: string -> Option<int>, p: nat)
    requires p < |args|
    ensures
      var text, rest := CapText(args, p), Starts(args, NextStart(args, p));
      && Starts(args, p) == [p] + rest
      && Others(args, Starts(args, p)) == (if text.Some? then [] else [args[p]]) + Others(args, rest)
      && (CapsRead(args, Starts(args, p), number) <==>
            (text.Some? ==> number(text.value).Some?) && CapsRead(args, rest, number))
  {
    var rest := Starts(args, NextStart(args, p));
    assert Starts(args, p) == [p] + rest && Starts(args, p)[1..] == rest;
    hide CapText, Joined;
    assert forall q :: q in Starts(args, p) <==> q == p || q in rest;
  }

  method ThreadCap(args: seq<string>, budget: nat, number: string -> Option<int>) returns (r: Result<Caps, string>)
    requires budget >= 1
    ensures r.Ok? <==> CapsOf(args, number, DEFAULT_THREAD_CAP).Ok?
    ensures r.Ok? ==>
      && 1 <= r.value.cap <= budget
      && r.value.kept == CapsOf(args, number, DEFAULT_THREAD_CAP).value.kept
      && r.value.cap == Max(1, Min(CapsOf(args, number, DEFAULT_THREAD_CAP).value.cap, budget))
  {
    var cap, kept, index := DEFAULT_THREAD_CAP, [], 0;
    assert args[0..] == args;
    while index < |args|
      invariant 0 <= index <= |args|
      invariant
        var whole, rest := CapsOf(args, number, DEFAULT_THREAD_CAP), CapsOf(args[index..], number, cap);
        if rest.Err? then whole.Err?
        else whole.Ok? && whole.value.cap == rest.value.cap && whole.value.kept == kept + rest.value.kept
    {
      var arg := args[index];
      assert args[index..][1..] == args[index + 1..];
      if Joined(arg) {
        var n := number(arg[|OPTION| + 1..]);
        if n.None? {
          return Err("not a number");
        }
        cap := n.value;
      } else if arg == OPTION && index + 1 < |args| {
        assert args[index..][2..] == args[index + 2..];
        var n := number(args[index + 1]);
        if n.None? {
          return Err("not a number");
        }
        cap := n.value;
        index := index + 1;
      } else {
        ghost var before := kept;
        kept := kept + [arg];
        ghost var rest := CapsOf(args[index + 1..], number, cap);
        assert rest.Ok? ==> before + ([arg] + rest.value.kept) == kept + rest.value.kept;
      }
      index := index + 1;
    }
    return Ok(Caps(Max(1, Min(cap, budget)), kept));
  }

  /** A job's share: one thread per test, at least one, at most the cap. */
  function Share(cap: int, tests: nat): (threads: nat)
    ensures threads >= 1 && (cap >= 1 ==> threads <= cap)
    ensures 1 <= tests <= cap ==> threads == tests
    ensures 1 <= cap <= tests ==> threads == cap
  {
    Max(1, Min(cap, tests))
  }

  // ----- The order of admission -----

  /** Unrecorded jobs first, most tests first; then recorded ones, longest first. */
  datatype Rank = Rank(recorded: bool, size: real, index: nat)

  predicate Before(a: Rank, b: Rank) {
    if a.recorded != b.recorded then b.recorded
    else if a.size != b.size then a.size > b.size
    else a.index <= b.index
  }

  function RankOf(durations: map<nat, real>, tests: seq<nat>, j: nat): Rank
    requires j < |tests|
  {
    if j in durations then Rank(true, durations[j], j) else Rank(false, tests[j] as real, j)
  }

  predicate Distinct(order: seq<nat>) {
    forall i, j | 0 <= i < j < |order| :: order[i] != order[j]
  }

  /** Every job below `n` once. */
  ghost predicate IsPermutation(order: seq<nat>, n: nat) {
    Distinct(order) && |order| == n && forall j: nat :: j in order <==> j < n
  }

  predicate Ordered(order: seq<nat>, durations: map<nat, real>, tests: seq<nat>)
    requires forall i | 0 <= i < |order| :: order[i] < |tests|
  {
    forall i, j | 0 <= i < j < |order| ::
      Before(RankOf(durations, tests, order[i]), RankOf(durations, tests, order[j]))
  }

  function Insert(j: nat, order: seq<nat>, durations: map<nat, real>, tests: seq<nat>): (r: seq<nat>)
    requires j < |tests| && forall i | 0 <= i < |order| :: order[i] < |tests|
    ensures forall i | 0 <= i < |r| :: r[i] < |tests|
  {
    if order == [] then [j]
    else if Before(RankOf(durations, tests, j), RankOf(durations, tests, order[0])) then [j] + order
    else [order[0]] + Insert(j, order[1..], durations, tests)
  }

  lemma {:induction false} InsertAdds(j: nat, order: seq<nat>, durations: map<nat, real>, tests: seq<nat>)
    requires j < |tests| && (forall i | 0 <= i < |order| :: order[i] < |tests|) && j !in order && Distinct(order)
    ensures var r := Insert(j, order, durations, tests);
      Distinct(r) && |r| == |order| + 1 && forall x :: x in r <==> x == j || x in order
    decreases |order|
  {
    if order != [] {
      var rest := order[1..];
      InsertAdds(j, rest, durations, tests);
      assert forall x :: x in order <==> x == order[0] || x in rest;
      assert order[0] !in rest;
    }
  }

  lemma {:induction false} InsertOrders(j: nat, order: seq<nat>, durations: map<nat, real>, tests: seq<nat>)
    requires j < |tests| && (forall i | 0 <= i < |order| :: order[i] < |tests|) && j !in order && Distinct(order)
    requires Ordered(order, durations, tests)
    ensures Ordered(Insert(j, order, durations, tests), durations, tests)
    decreases |order|
  {
    if order != [] && !Before(RankOf(durations, tests, j), RankOf(durations, tests, order[0])) {
      var rest := order[1..];
      InsertOrders(j, rest, durations, tests);
      InsertAdds(j, rest, durations, tests);
      var r := Insert(j, rest, durations, tests);
      forall i | 0 <= i < |r|
        ensures Before(RankOf(durations, tests, order[0]), RankOf(durations, tests, r[i]))
      {
        assert r[i] == j || r[i] in rest;
        if r[i] != j {
          var k :| 0 <= k < |rest| && rest[k] == r[i];
          assert order[k + 1] == r[i];
        }
      }
    } else if order != [] {
      forall i | 0 <= i < |order|
        ensures Before(RankOf(durations, tests, j), RankOf(durations, tests, order[i]))
      {
        assert i == 0 || Before(RankOf(durations, tests, order[0]), RankOf(durations, tests, order[i]));
      }
    }
  }

  /** The jobs below `n`, sorted by rank. */
  function Schedule(n: nat, durations: map<nat, real>, tests: seq<nat>): (order: seq<nat>)
    requires n <= |tests|
    ensures forall i | 0 <= i < |order| :: order[i] < |tests|
  {
    if n == 0 then [] else Insert(n - 1, Schedule(n - 1, durations, tests), durations, tests)
  }

  /** The schedule admits every job exactly once, and no job before one of a better rank. */
  lemma {:induction false} ScheduleIsSorted(n: nat, durations: map<nat, real>, tests: seq<nat>)
    requires n <= |tests|
    ensures IsPermutation(Schedule(n, durations, tests), n) && Ordered(Schedule(n, durations, tests), durations, tests)
  {
    if n > 0 {
      var before := Schedule(n - 1, durations, tests);
      assert Schedule(n, durations, tests) == Insert(n - 1, before, durations, tests);
      hide *;
      ScheduleIsSorted(n - 1, durations, tests);
      LastIsNew(before, n - 1);
      InsertAdds(n - 1, before, durations, tests);
      InsertOrders(n - 1, before, durations, tests);
      PermutationGrows(before, Schedule(n, durations, tests), n);
    }
  }

  lemma LastIsNew(order: seq<nat>, n: nat)
    requires IsPermutation(order, n)
    ensures n !in order && Distinct(order)
  {
  }

  lemma PermutationGrows(before: seq<nat>, order: seq<nat>, n: nat)
    requires n > 0 && IsPermutation(before, n - 1) && Distinct(order) && |order| == |before| + 1
    requires forall x :: x in order <==> x == n - 1 || x in before
    ensures IsPermutation(order, n)
  {
  }

  /**
    What the order means, job by job: unrecorded jobs before recorded ones; unrecorded ones by
    falling number of tests, recorded ones by falling duration; equals as they were given.
   */
  lemma ScheduleMeans(n: nat, durations: map<nat, real>, tests: seq<nat>, i: nat, j: nat)
    requires n <= |tests| && i < j < |Schedule(n, durations, tests)|
    ensures
      var a, b := Schedule(n, durations, tests)[i], Schedule(n, durations, tests)[j];
      && (a in durations ==> b in durations)
      && (a !in durations && b !in durations ==> tests[a] >= tests[b] && (tests[a] == tests[b] ==> a < b))
      && (a in durations && b in durations ==>
            durations[a] >= durations[b] && (durations[a] == durations[b] ==> a < b))
  {
    ScheduleIsSorted(n, durations, tests);
    var order := Schedule(n, durations, tests);
    assert Before(RankOf(durations, tests, order[i]), RankOf(durations, tests, order[j]));
    assert order[i] != order[j];
    hide Schedule;
  }

  lemma HeadsAgree(a: seq<nat>, b: seq<nat>, durations: map<nat, real>, tests: seq<nat>)
    requires forall i | 0 <= i < |a| :: a[i] < |tests|
    requires forall i | 0 <= i < |b| :: b[i] < |tests|
    requires a != [] && b != [] && (forall x :: x in a <==> x in b)
    requires Ordered(a, durations, tests) && Ordered(b, durations, tests)
    ensures a[0] == b[0]
  {
    assert a[0] in b && b[0] in a;
    var i :| 0 <= i < |a| && a[i] == b[0];
    var k :| 0 <= k < |b| && b[k] == a[0];
  }

  /** Any two orders sorted by rank are the same order: the ranks leave no choice. */
  lemma {:induction false} SortedOrderIsUnique(a: seq<nat>, b: seq<nat>, durations: map<nat, real>, tests: seq<nat>)
    requires forall i | 0 <= i < |a| :: a[i] < |tests|
    requires forall i | 0 <= i < |b| :: b[i] < |tests|
    requires |a| == |b| && Distinct(a) && Distinct(b) && (forall x :: x in a <==> x in b)
    requires Ordered(a, durations, tests) && Ordered(b, durations, tests)
    ensures a == b
    decreases |a|
  {
    if a != [] {
      HeadsAgree(a, b, durations, tests);
      hide RankOf, Before;
      var x, y := a[1..], b[1..];
      assert forall z :: z in x <==> z in a && z != a[0];
      assert forall z :: z in y <==> z in b && z != b[0];
      SortedOrderIsUnique(x, y, durations, tests);
    }
  }

  // ----- The pool -----

  function Sum(threads: seq<nat>, jobs: seq<nat>): nat
    requires forall i | 0 <= i < |jobs| :: jobs[i] < |threads|
  {
    if jobs == [] then 0 else Sum(threads, jobs[..|jobs| - 1]) + threads[jobs[|jobs| - 1]]
  }

  /** The serial log of the first `n` jobs. */
  function Serial(captures: seq<Bytes>, n: nat): Bytes
    requires n <= |captures|
  {
    if n == 0 then [] else Serial(captures, n - 1) + captures[n - 1]
  }

  lemma {:induction false} SumRemoves(threads: seq<nat>, jobs: seq<nat>, i: nat)
    requires (forall k | 0 <= k < |jobs| :: jobs[k] < |threads|) && i < |jobs|
    ensures Sum(threads, jobs[..i] + jobs[i + 1..]) + threads[jobs[i]] == Sum(threads, jobs)
    decreases |jobs|
  {
    var last := |jobs| - 1;
    if i == last {
      assert jobs[..i] + jobs[i + 1..] == jobs[..last];
    } else {
      SumRemoves(threads, jobs[..last], i);
      var less := jobs[..i] + jobs[i + 1..];
      assert less[..|less| - 1] == jobs[..last][..i] + jobs[..last][i + 1..];
    }
  }

  /** A job has a status exactly when it was admitted, once, and no longer runs. */
  ghost predicate Tracked(n: nat, running: seq<nat>, admitted: seq<nat>, status: seq<Option<nat>>) {
    && |status| == n && Distinct(running) && Distinct(admitted)
    && (forall i | 0 <= i < |running| :: running[i] < n && running[i] in admitted)
    && (forall i | 0 <= i < |admitted| :: admitted[i] < n)
    && (forall j | 0 <= j < n :: status[j].Some? <==> j in admitted && j !in running)
  }

  lemma TrackedAdmits(n: nat, running: seq<nat>, admitted: seq<nat>, status: seq<Option<nat>>, j: nat)
    requires Tracked(n, running, admitted, status) && j < n && j !in admitted
    ensures Tracked(n, running + [j], admitted + [j], status)
  {
    assert j !in running;
  }

  lemma TrackedFinishes(n: nat, running: seq<nat>, admitted: seq<nat>, status: seq<Option<nat>>, i: nat, code: nat)
    requires Tracked(n, running, admitted, status) && i < |running|
    ensures var less := running[..i] + running[i + 1..];
      && (forall x :: x in less <==> x in running && x != running[i])
      && Tracked(n, less, admitted, status[running[i] := Some(code)])
  {
    var less := running[..i] + running[i + 1..];
    forall x ensures x in less <==> x in running && x != running[i] {
      if x in running && x != running[i] {
        var k :| 0 <= k < |running| && running[k] == x;
        assert less[if k < i then k else k - 1] == x;
      }
    }
    assert Distinct(less);
    forall k | 0 <= k < |less| ensures less[k] < n && less[k] in admitted {
      assert less[k] in running;
    }
  }

  /** What a poll of a finished job sees: its wait status, and whether it compiled anything. */
  datatype Exit = Exit(code: int, rebuilt: bool)

  /** A death by signal is 128 plus the signal; a job that recompiled does not pass. */
  function StatusOf(exit: Exit): (status: nat)
    ensures status == 0 <==> exit.code == 0 && !exit.rebuilt
    ensures exit.code < 0 ==> status + exit.code == 128
    ensures exit.code > 0 ==> status == exit.code
    ensures exit.code == 0 && exit.rebuilt ==> status == 101
  {
    if exit.code < 0 then 128 - exit.code
    else if exit.code == 0 && exit.rebuilt then 101 else exit.code
  }

  function Highest(statuses: seq<nat>): (h: nat)
    ensures forall i | 0 <= i < |statuses| :: statuses[i] <= h
    ensures h == 0 || h in statuses
  {
    if statuses == [] then 0 else Max(statuses[0], Highest(statuses[1..]))
  }

  function ExitStatus(statuses: seq<nat>): (r: nat)
    ensures r == 0 <==> forall i | 0 <= i < |statuses| :: statuses[i] == 0
    ensures r >= 125 <==> exists i :: 0 <= i < |statuses| && statuses[i] >= 125
    ensures r >= 125 ==> r in statuses && forall i | 0 <= i < |statuses| :: statuses[i] <= r
    ensures r == 0 || r == 101 || r >= 125
  {
    var h := Highest(statuses);
    if h >= 125 then h else if h > 0 then 101 else 0
  }

  /** One turn of the pool's loop: when a signal arrives, and which polls answer. */
  datatype Tick = Tick(signalAfter: Option<nat>, polls: map<nat, Exit>, signalled: bool)

  function PollsOf(ticks: seq<Tick>): (r: seq<map<nat, Exit>>)
    ensures |r| == |ticks| && forall t | 0 <= t < |ticks| :: r[t] == ticks[t].polls
  {
    seq(|ticks|, t requires 0 <= t < |ticks| => ticks[t].polls)
  }

  /** One of these polls answered for the job, with this status. */
  ghost predicate Answered(j: nat, code: nat, polls: seq<map<nat, Exit>>) {
    exists t :: 0 <= t < |polls| && j in polls[t] && code == StatusOf(polls[t][j])
  }

  /** No signal arrives. */
  predicate Undisturbed(ticks: seq<Tick>) {
    forall t | 0 <= t < |ticks| :: ticks[t].signalAfter.None? && !ticks[t].signalled
  }

  /** Every job's poll answers in every turn. */
  predicate AllAnswer(ticks: seq<Tick>, n: nat) {
    forall t, j: nat | 0 <= t < |ticks| && j < n :: j in ticks[t].polls
  }

  lemma AnsweredMore(j: nat, code: nat, polls: seq<map<nat, Exit>>, more: seq<map<nat, Exit>>)
    requires Answered(j, code, polls)
    ensures Answered(j, code, polls + more)
  {
    var t :| 0 <= t < |polls| && j in polls[t] && code == StatusOf(polls[t][j]);
    assert (polls + more)[t] == polls[t];
  }

  /** After a turn every status is an old one or comes from its polls. */
  lemma StatusesAnswered(before: seq<Option<nat>>, after: seq<Option<nat>>, ticks: seq<Tick>, t: nat)
    requires t < |ticks| && |before| == |after|
    requires forall j: nat | j < |before| && before[j].Some? :: Answered(j, before[j].value, PollsOf(ticks[..t]))
    requires forall j: nat | j < |after| ::
      after[j] == before[j] || (j in ticks[t].polls && after[j] == Some(StatusOf(ticks[t].polls[j])))
    ensures forall j: nat | j < |after| && after[j].Some? :: Answered(j, after[j].value, PollsOf(ticks[..t + 1]))
  {
    var polls := PollsOf(ticks[..t + 1]);
    assert polls == PollsOf(ticks[..t]) + [ticks[t].polls];
    forall j: nat | j < |after| && after[j].Some? ensures Answered(j, after[j].value, polls) {
      if after[j] == before[j] {
        AnsweredMore(j, before[j].value, PollsOf(ticks[..t]), [ticks[t].polls]);
      } else {
        assert polls[t] == ticks[t].polls;
      }
    }
  }

  lemma AnsweredLater(status: seq<Option<nat>>, ticks: seq<Tick>, t: nat, ending: seq<map<nat, Exit>>)
    requires t <= |ticks|
    requires forall j: nat | j < |status| && status[j].Some? :: Answered(j, status[j].value, PollsOf(ticks[..t]))
    ensures forall j: nat | j < |status| && status[j].Some? :: Answered(j, status[j].value, PollsOf(ticks) + ending)
  {
    assert PollsOf(ticks) + ending == PollsOf(ticks[..t]) + (PollsOf(ticks[t..]) + ending);
    forall j: nat | j < |status| && status[j].Some? ensures Answered(j, status[j].value, PollsOf(ticks) + ending) {
      AnsweredMore(j, status[j].value, PollsOf(ticks[..t]), PollsOf(ticks[t..]) + ending);
    }
  }

  lemma EndingAnswered(
    before: seq<Option<nat>>, after: seq<Option<nat>>, polls: seq<map<nat, Exit>>, t: nat, last: map<nat, Exit>)
    requires t < |polls| && polls[t] == last && |before| == |after|
    requires forall j: nat | j < |before| && before[j].Some? :: Answered(j, before[j].value, polls)
    requires forall j: nat | j < |after| :: after[j] == before[j] || (j in last && after[j] == Some(StatusOf(last[j])))
    ensures forall j: nat | j < |after| && after[j].Some? :: Answered(j, after[j].value, polls)
  {
  }

  class Pool {
    const budget: nat
    const threads: seq<nat>
    const captures: seq<Bytes>       // what each finished job's capture file holds
    ghost const base: Bytes          // the log before this run
    var running: seq<nat>
    var inFlight: nat
    var status: seq<Option<nat>>
    var flushed: nat
    var cancelled: bool
    var combined: Bytes
    ghost var admitted: seq<nat>     // every job admitted so far, in order

    ghost predicate Valid()
      reads this
    {
      && budget >= 1 && |captures| == |threads| == |status|
      && (forall j | 0 <= j < |threads| :: 1 <= threads[j] <= budget)
      && Tracked(|threads|, running, admitted, status)
      && inFlight == Sum(threads, running) && inFlight <= budget
      && flushed <= |threads| && (forall j | 0 <= j < flushed :: status[j].Some?)
      && combined == base + Serial(captures, flushed)
    }

    constructor (budget: nat, threads: seq<nat>, captures: seq<Bytes>, log: Bytes)
      requires budget >= 1 && |captures| == |threads| && forall j | 0 <= j < |threads| :: 1 <= threads[j] <= budget
      ensures Valid() && admitted == [] && !cancelled && combined == base == log
      ensures this.budget == budget && this.threads == threads && this.captures == captures
    {
      this.budget, this.threads, this.captures, this.base, this.combined := budget, threads, captures, log, log;
      running, inFlight, flushed, cancelled, admitted := [], 0, 0, false, [];
      status := seq(|threads|, _ => None);
    }

    method Admit(j: nat)
      requires Valid() && j < |threads| && j !in admitted && inFlight + threads[j] <= budget
      modifies this`running, this`inFlight, this`admitted
      ensures Valid() && admitted == old(admitted) + [j] && running == old(running) + [j]
      ensures inFlight == old(inFlight) + threads[j]
    {
      TrackedAdmits(|threads|, running, admitted, status, j);
      running := running + [j];
      assert running[..|running| - 1] == old(running);
      inFlight := inFlight + threads[j];
      admitted := admitted + [j];
    }

    /** Admit from the head of the queue while it fits; a signal may arrive between admissions. */
    method AdmitAll(pending: seq<nat>, signalAfter: Option<nat>) returns (rest: seq<nat>)
      requires Valid() && forall i | 0 <= i < |pending| :: pending[i] < |threads| && pending[i] !in admitted
      requires Distinct(pending)
      modifies this`running, this`inFlight, this`admitted, this`cancelled
      ensures Valid() && |rest| <= |pending| && rest == pending[|pending| - |rest|..]
      ensures admitted == old(admitted) + pending[..|pending| - |rest|]
      ensures running == old(running) + pending[..|pending| - |rest|]
      ensures !old(cancelled) && signalAfter.None? ==> !cancelled
      ensures !cancelled && rest != [] ==> running != [] && inFlight + threads[rest[0]] > budget
      ensures old(cancelled) ==> cancelled && rest == pending
    {
      hide Tracked, Serial;
      rest := pending;
      ghost var n := 0;
      var count := 0;
      while rest != [] && !cancelled
        invariant Valid() && 0 <= n <= |pending| && rest == pending[n..]
        invariant admitted == old(admitted) + pending[..n] && running == old(running) + pending[..n]
        invariant !old(cancelled) && signalAfter.None? ==> !cancelled
        invariant old(cancelled) ==> cancelled && n == 0
        decreases |rest|, !cancelled
      {
        if signalAfter == Some(count) {
          cancelled := true;
          break;
        }
        var j := rest[0];
        if running != [] && inFlight + threads[j] > budget {
          break;
        }
        assert j == pending[n] && j !in admitted;
        Admit(j);
        rest, n, count := rest[1..], n + 1, count + 1;
        assert pending[..n] == pending[..n - 1] + [j];
      }
    }

    /** Collect the running jobs whose poll answered. */
    method Reap(polls: map<nat, Exit>) returns (reaped: bool)
      requires Valid()
      modifies this`running, this`inFlight, this`status
      ensures Valid() && reaped == (exists j :: j in old(running) && j in polls)
      ensures forall j :: j in running <==> j in old(running) && j !in polls
      ensures forall j | 0 <= j < |status| ::
        status[j] == if j in old(running) && j in polls then Some(StatusOf(polls[j])) else old(status)[j]
    {
      hide Tracked, Sum, Serial, Distinct;
      reaped := false;
      var i := 0;
      ghost var done: set<nat> := {};
      while i < |running|
        invariant Valid() && 0 <= i <= |running|
        invariant forall k | 0 <= k < i :: running[k] !in polls
        invariant forall j :: j in done ==> j in old(running) && j in polls
        invariant forall j :: j in running <==> j in old(running) && j !in done
        invariant reaped == (done != {})
        invariant forall j | 0 <= j < |status| ::
          status[j] == if j in done then Some(StatusOf(polls[j])) else old(status)[j]
        decreases |running| - i
      {
        var j := running[i];
        if j in polls {
          Finish(i, StatusOf(polls[j]));
          done := done + {j};
          reaped := true;
        } else {
          i := i + 1;
        }
      }
    }

    /** One running job has finished with this status. */
    method Finish(i: nat, code: nat)
      requires Valid() && i < |running|
      modifies this`running, this`inFlight, this`status
      ensures Valid() && running == old(running)[..i] + old(running)[i + 1..]
      ensures status == old(status)[old(running)[i] := Some(code)]
      ensures forall x :: x in running <==> x in old(running) && x != old(running)[i]
    {
      var j := running[i];
      SumRemoves(threads, running, i);
      TrackedFinishes(|threads|, running, admitted, status, i, code);
      running := running[..i] + running[i + 1..];
      status := status[j := Some(code)];
      inFlight := inFlight - threads[j];
    }

    /** Publish finished captures in the given order, stopping at a gap. */
    method Flush()
      requires Valid()
      modifies this`flushed, this`combined
      ensures Valid() && flushed >= old(flushed)
      ensures flushed == |status| || status[flushed].None?
    {
      hide Tracked, Sum;
      while flushed < |status| && status[flushed].Some?
        invariant Valid() && flushed >= old(flushed)
      {
        combined := combined + captures[flushed];
        flushed := flushed + 1;
        assert base + (Serial(captures, flushed - 1) + captures[flushed - 1]) == combined;
      }
    }

    /**
      The pool over the turns observed so far.  `ticks` ends where observation ends, so the
      contract holds at every moment of a run; `ending` are the polls that follow a signal.
     */
    method Run(order: seq<nat>, ticks: seq<Tick>, ending: seq<map<nat, Exit>>) returns (finished: bool)
      requires Valid() && running == admitted == [] && flushed == 0 && !cancelled
      requires IsPermutation(order, |threads|)
      modifies this
      ensures Valid() && |admitted| <= |order| && admitted == order[..|admitted|]
      ensures flushed == |status| || status[flushed].None?
      ensures finished && !cancelled ==>
        && admitted == order && running == []
        && (forall j | 0 <= j < |status| :: status[j].Some?)
        && combined == base + Serial(captures, |captures|)
      ensures forall j: nat | j < |status| && status[j].Some? :: Answered(j, status[j].value, PollsOf(ticks) + ending)
      ensures !cancelled && ticks != [] ==> forall j | j in running :: j !in ticks[|ticks| - 1].polls
      ensures Undisturbed(ticks) && AllAnswer(ticks, |threads|) && |ticks| >= |order| ==> finished && !cancelled
    {
      hide Tracked, Sum, Serial, Answered, AllAnswer, Undisturbed;
      var pending, t := Turns(order, ticks);
      finished := (pending == [] && running == []) || cancelled;
      AnsweredLater(status, ticks, t, ending);
      if cancelled {
        var e := 0;
        while running != [] && e < |ending|
          invariant Valid() && Queue(order, pending) && cancelled
          invariant forall j: nat | j < |status| && status[j].Some? ::
            Answered(j, status[j].value, PollsOf(ticks) + ending)
          decreases |ending| - e
        {
          ghost var before := status;
          var _ := Reap(ending[e]);
          EndingAnswered(before, status, PollsOf(ticks) + ending, |ticks| + e, ending[e]);
          e := e + 1;
        }
        Flush();
      } else if finished {
        assert admitted == admitted + pending;
        AllTracked(order);
      }
    }

    /** The turns until everything has finished, a signal has arrived, or observation ends. */
    method Turns(order: seq<nat>, ticks: seq<Tick>) returns (pending: seq<nat>, t: nat)
      requires Valid() && running == admitted == [] && flushed == 0 && !cancelled
      requires IsPermutation(order, |threads|)
      modifies this
      ensures Valid() && Queue(order, pending) && t <= |ticks|
      ensures (pending == [] && running == []) || cancelled || t == |ticks|
      ensures flushed == |status| || status[flushed].None?
      ensures forall j: nat | j < |status| && status[j].Some? :: Answered(j, status[j].value, PollsOf(ticks[..t]))
      ensures t > 0 ==> forall j | j in running :: j !in ticks[t - 1].polls
      ensures Undisturbed(ticks) ==> !cancelled
      ensures AllAnswer(ticks, |threads|) ==> running == []
      ensures Undisturbed(ticks) && AllAnswer(ticks, |threads|) ==> pending == [] || |pending| + t <= |order|
    {
      hide Tracked, Sum, Serial, Answered, AllAnswer, IsPermutation;
      pending, t := order, 0;
      NothingTracked();
      while (pending != [] || running != []) && !cancelled && t < |ticks|
        invariant Valid() && Queue(order, pending) && t <= |ticks|
        invariant flushed == |status| || status[flushed].None?
        invariant forall j: nat | j < |status| && status[j].Some? :: Answered(j, status[j].value, PollsOf(ticks[..t]))
        invariant t > 0 ==> forall j | j in running :: j !in ticks[t - 1].polls
        invariant Undisturbed(ticks) ==> !cancelled
        invariant AllAnswer(ticks, |threads|) ==> running == []
        invariant Undisturbed(ticks) && AllAnswer(ticks, |threads|) ==> pending == [] || |pending| + t <= |order|
        decreases |ticks| - t
      {
        ghost var before := status;
        pending := Turn(order, pending, ticks[t]);
        StatusesAnswered(before, status, ticks, t);
        NobodyRuns(ticks, t);
        t := t + 1;
      }
    }

    /** What is admitted and what is pending are the two parts of the order. */
    ghost predicate Queue(order: seq<nat>, pending: seq<nat>)
      reads this
    {
      IsPermutation(order, |threads|) && admitted + pending == order
    }

    method Turn(order: seq<nat>, pending: seq<nat>, tick: Tick) returns (rest: seq<nat>)
      requires Valid() && Queue(order, pending)
      modifies this
      ensures Valid() && Queue(order, rest)
      ensures flushed == |status| || status[flushed].None?
      ensures |rest| <= |pending| && rest == pending[|pending| - |rest|..] && (old(cancelled) ==> rest == pending)
      ensures var started := pending[..|pending| - |rest|];
        && (forall j :: j in running <==> (j in old(running) || j in started) && j !in tick.polls)
        && (forall j | 0 <= j < |status| ::
              status[j] == if (j in old(running) || j in started) && j in tick.polls then Some(StatusOf(tick.polls[j]))
                           else old(status)[j])
      ensures tick.signalled ==> cancelled
      ensures !old(cancelled) && tick.signalAfter.None? && !tick.signalled ==> !cancelled
      ensures !old(cancelled) && tick.signalAfter.None? && pending != [] && old(running) == [] ==> |rest| < |pending|
    {
      hide Tracked, Sum, Serial;
      forall i | 0 <= i < |pending| ensures pending[i] < |threads| && pending[i] !in admitted {
        assert order[|admitted| + i] == pending[i] && pending[i] in order;
        assert forall k | 0 <= k < |admitted| :: admitted[k] == order[k];
      }
      assert Distinct(pending) by {
        forall i, j | 0 <= i < j < |pending| ensures pending[i] != pending[j] {
          assert order[|admitted| + i] == pending[i] && order[|admitted| + j] == pending[j];
        }
      }
      rest := AdmitAll(pending, tick.signalAfter);
      assert admitted + rest == order;
      assert forall j :: j in running <==> j in old(running) || j in pending[..|pending| - |rest|];
      var _ := Reap(tick.polls);
      Flush();
      if tick.signalled {
        cancelled := true;
      }
    }

    lemma NobodyRuns(ticks: seq<Tick>, t: nat)
      requires Valid() && t < |ticks| && forall j | j in running :: j !in ticks[t].polls
      ensures AllAnswer(ticks, |threads|) ==> running == []
    {
      assert |running| > 0 ==> running[0] in running && running[0] < |threads|;
    }

    lemma NothingTracked()
      requires Valid() && admitted == []
      ensures forall j | 0 <= j < |status| :: status[j].None?
    {
    }

    lemma AllTracked(order: seq<nat>)
      requires Valid() && running == [] && admitted == order && IsPermutation(order, |threads|)
      ensures forall j | 0 <= j < |status| :: status[j].Some?
    {
    }
  }
}

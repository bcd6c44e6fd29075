/**
  The lifecycle of one story, audited from its events: transitions, time spent in each state,
  verification generations, completions and reopenings.
 */
module LifecycleAudit {
  import opened Wrappers

  type State = string
  /** A parsed timestamp in seconds; malformed evidence is unknown. */
  type Stamp = Option<real>

  const VERIFYING: State := "verifying"
  const DONE: State := "done"

  datatype Kind = Created | StateChanged | ClosedAndArchived | Unrelated
  datatype Event = Event(kind: Kind, at: Stamp, state: State)

  datatype Transition = Transition(state: State, at: Stamp)
  datatype Generation = Generation(started: Stamp, ended: Option<Stamp>, residence: Option<real>)

  datatype Report = Report(
    transitions: seq<Transition>,
    durations: map<State, Option<real>>,
    generations: seq<Generation>,
    completions: seq<Stamp>,
    reopenings: nat,
    cycle: Option<real>)

  /** Observed seconds, never negative and never invented. */
  function Elapsed(start: Stamp, end: Stamp): (r: Option<real>)
    ensures r.Some? ==> r.value >= 0.0 && start.Some? && end == Some(start.value + r.value)
    ensures r.None? ==> start.None? || end.None? || end.value < start.value
  {
    if start.Some? && end.Some? && end.value >= start.value then Some(end.value - start.value) else None
  }

  /** An unknown part makes the whole unknown. */
  function Plus(a: Option<real>, b: Option<real>): Option<real> {
    if a.Some? && b.Some? then Some(a.value + b.value) else None
  }

  // ----- The history and what it implies -----

  function StateAfter(h: seq<Transition>): Option<State> {
    if h == [] then None else Some(h[|h| - 1].state)
  }

  /** A repeated state is no transition, except that a resubmission opens a new generation. */
  predicate Moves(state: Option<State>, e: Event) {
    !e.kind.Unrelated? && (state != Some(e.state) || (e.kind.StateChanged? && state == Some(VERIFYING)))
  }

  function History(events: seq<Event>): seq<Transition> {
    if events == [] then []
    else
      var h, e := History(events[..|events| - 1]), events[|events| - 1];
      if Moves(StateAfter(h), e) then h + [Transition(e.state, e.at)] else h
  }

  /** Two successive transitions are to the same state only in a resubmission. */
  ghost predicate Proper(h: seq<Transition>) {
    forall k | 0 < k < |h| :: h[k - 1].state == h[k].state ==> h[k].state == VERIFYING
  }

  lemma {:induction false} HistoryIsProper(events: seq<Event>)
    ensures Proper(History(events))
    decreases |events|
  {
    if events != [] {
      HistoryIsProper(events[..|events| - 1]);
    }
  }

  // ----- Which events are transitions, from the events alone -----

  predicate IsStateEvent(e: Event) {
    e.kind.Created? || e.kind.StateChanged? || e.kind.ClosedAndArchived?
  }

  /** Event `j` is the last before `i` that names a state. */
  predicate LastBefore(events: seq<Event>, j: int, i: nat)
    requires i <= |events|
  {
    0 <= j < i && IsStateEvent(events[j]) && forall k | j < k < i :: !IsStateEvent(events[k])
  }

  /**
    An event is a transition if it names a state and is the first to do so, or names another one
    than the last event that did, or changes the state while that is verification.
   */
  ghost predicate IsTransition(events: seq<Event>, i: nat)
    requires i < |events|
  {
    && IsStateEvent(events[i])
    && forall j | LastBefore(events, j, i) ::
      || events[j].state != events[i].state
      || (events[i].kind.StateChanged? && events[j].state == VERIFYING)
  }

  /** The transitions among the first `n` events, in order. */
  ghost function Transitions(events: seq<Event>, n: nat): seq<Transition>
    requires n <= |events|
  {
    if n == 0 then []
    else Transitions(events, n - 1) +
         if IsTransition(events, n - 1) then [Transition(events[n - 1].state, events[n - 1].at)] else []
  }

  /** The state after a prefix is that of its last event that names one. */
  lemma {:induction false} StateIsLastNamed(events: seq<Event>, n: nat)
    requires n <= |events|
    ensures StateAfter(History(events[..n])).None? ==> forall k | 0 <= k < n :: !IsStateEvent(events[k])
    ensures StateAfter(History(events[..n])).Some? ==>
      exists j :: LastBefore(events, j, n) && StateAfter(History(events[..n])) == Some(events[j].state)
  {
    if n > 0 {
      StateIsLastNamed(events, n - 1);
      assert events[..n][..n - 1] == events[..n - 1];
      var e := events[n - 1];
      if IsStateEvent(e) {
        assert LastBefore(events, n - 1, n);
        assert StateAfter(History(events[..n])) == Some(e.state);
      } else if StateAfter(History(events[..n - 1])).Some? {
        var j :| LastBefore(events, j, n - 1) && StateAfter(History(events[..n - 1])) == Some(events[j].state);
        assert LastBefore(events, j, n);
      }
    }
  }

  lemma LastBeforeIsUnique(events: seq<Event>, i: nat)
    requires i <= |events|
    ensures forall j, k | LastBefore(events, j, i) && LastBefore(events, k, i) :: j == k
  {
  }

  lemma MovesIffTransition(events: seq<Event>, i: nat)
    requires i < |events|
    ensures Moves(StateAfter(History(events[..i])), events[i]) <==> IsTransition(events, i)
  {
    hide History;
    StateIsLastNamed(events, i);
    LastBeforeIsUnique(events, i);
    if StateAfter(History(events[..i])).Some? {
      var j :| LastBefore(events, j, i) && StateAfter(History(events[..i])) == Some(events[j].state);
      assert forall k | LastBefore(events, k, i) :: k == j;
    }
  }

  /** The history holds exactly the transitions, each with its state and time. */
  lemma {:induction false} HistoryIsTransitions(events: seq<Event>, n: nat)
    requires n <= |events|
    ensures History(events[..n]) == Transitions(events, n)
  {
    if n > 0 {
      HistoryIsTransitions(events, n - 1);
      assert events[..n][..n - 1] == events[..n - 1] && events[..n][n - 1] == events[n - 1];
      MovesIffTransition(events, n - 1);
    }
  }

  /** How long transition `k` lasted. */
  function Residence(h: seq<Transition>, k: nat): Option<real>
    requires k + 1 < |h|
  {
    Elapsed(h[k].at, h[k + 1].at)
  }

  /** The time in state `s` over the first `n` completed residences. */
  function Spent(h: seq<Transition>, s: State, n: nat): Option<real>
    requires n == 0 || n < |h|
  {
    if n == 0 then Some(0.0)
    else Plus(Spent(h, s, n - 1), if h[n - 1].state == s then Residence(h, n - 1) else Some(0.0))
  }

  function GenerationAt(h: seq<Transition>, k: nat): Generation
    requires k < |h|
  {
    if k + 1 < |h| then Generation(h[k].at, Some(h[k + 1].at), Residence(h, k)) else Generation(h[k].at, None, None)
  }

  /** One generation for each entry into verification among the first `n` transitions. */
  function Generations(h: seq<Transition>, n: nat): seq<Generation>
    requires n <= |h|
  {
    if n == 0 then []
    else Generations(h, n - 1) + (if h[n - 1].state == VERIFYING then [GenerationAt(h, n - 1)] else [])
  }

  predicate Enters(h: seq<Transition>, k: nat)
    requires k < |h|
  {
    h[k].state == DONE && (k == 0 || h[k - 1].state != DONE)
  }

  predicate Leaves(h: seq<Transition>, k: nat)
    requires k < |h|
  {
    k > 0 && h[k - 1].state == DONE && h[k].state != DONE
  }

  function Completions(h: seq<Transition>, n: nat): seq<Stamp>
    requires n <= |h|
  {
    if n == 0 then [] else Completions(h, n - 1) + (if Enters(h, n - 1) then [h[n - 1].at] else [])
  }

  function Reopenings(h: seq<Transition>, n: nat): nat
    requires n <= |h|
  {
    if n == 0 then 0 else Reopenings(h, n - 1) + (if Leaves(h, n - 1) then 1 else 0)
  }

  /** The recorded durations: the states that were left, each with its time. */
  ghost predicate Accounts(d: map<State, Option<real>>, h: seq<Transition>) {
    && (forall s :: s in d <==> exists k :: 0 <= k < |h| - 1 && h[k].state == s)
    && (forall s | s in d :: d[s] == Spent(h, s, |h| - 1))
  }

  ghost predicate Reports(r: Report, h: seq<Transition>) {
    && r.transitions == h && Accounts(r.durations, h)
    && r.generations == Generations(h, |h|)
    && r.completions == Completions(h, |h|) && r.reopenings == Reopenings(h, |h|)
  }

  // ----- Growing a history by one transition -----

  lemma {:induction false} Stable(h: seq<Transition>, t: Transition, s: State, n: nat)
    requires n <= |h|
    ensures (n == 0 || n < |h|) ==> Spent(h + [t], s, n) == Spent(h, s, n)
    ensures Completions(h + [t], n) == Completions(h, n) && Reopenings(h + [t], n) == Reopenings(h, n)
    ensures n < |h| ==> Generations(h + [t], n) == Generations(h, n)
  {
    if n > 0 {
      Stable(h, t, s, n - 1);
    }
  }

  lemma AccountsGrow(d: map<State, Option<real>>, h: seq<Transition>, t: Transition)
    requires h != [] && Accounts(d, h)
    ensures
      var s := h[|h| - 1].state;
      var seconds := Elapsed(h[|h| - 1].at, t.at);
      Accounts(d[s := Plus(if s in d then d[s] else Some(0.0), seconds)], h + [t])
  {
    var all, last := h + [t], |h| - 1;
    var s := h[last].state;
    var more := d[s := Plus(if s in d then d[s] else Some(0.0), Elapsed(h[last].at, t.at))];
    forall x
      ensures x in more <==> exists k :: 0 <= k < |all| - 1 && all[k].state == x
      ensures x in more ==> more[x] == Spent(all, x, |h|)
    {
      AccountGrows(d, h, t, x);
    }
  }

  lemma AccountGrows(d: map<State, Option<real>>, h: seq<Transition>, t: Transition, x: State)
    requires h != [] && Accounts(d, h)
    ensures
      var all, s := h + [t], h[|h| - 1].state;
      var before := if x in d then d[x] else Some(0.0);
      && ((x in d || x == s) <==> exists k :: 0 <= k < |all| - 1 && all[k].state == x)
      && (x in d || x == s ==>
        Spent(all, x, |h|) == if x == s then Plus(before, Elapsed(h[|h| - 1].at, t.at)) else before)
  {
    var all, last := h + [t], |h| - 1;
    Stable(h, t, x, last);
    if x !in d {
      NeverSpent(h, x, last);
    } else {
      var k :| 0 <= k < last && h[k].state == x;
      assert all[k].state == x;
    }
    assert all[last] == h[last] && all[|h|] == t;
    assert forall k | 0 <= k < last :: all[k] == h[k];
  }

  lemma {:induction false} NeverSpent(h: seq<Transition>, s: State, n: nat)
    requires (n == 0 || n < |h|) && forall k | 0 <= k < n :: h[k].state != s
    ensures Spent(h, s, n) == Some(0.0)
  {
    if n > 0 {
      NeverSpent(h, s, n - 1);
    }
  }

  /** Leaving verification closes the open generation and changes no other. */
  lemma GenerationsGrow(h: seq<Transition>, t: Transition)
    ensures
      var all, g := h + [t], Generations(h, |h|);
      var closed :=
        if h != [] && h[|h| - 1].state == VERIFYING then
          g[..|g| - 1] + [Generation(h[|h| - 1].at, Some(t.at), Elapsed(h[|h| - 1].at, t.at))]
        else g;
      && (h != [] && h[|h| - 1].state == VERIFYING ==> |g| > 0 && g[|g| - 1].started == h[|h| - 1].at)
      && Generations(all, |all|) == closed + (if t.state == VERIFYING then [Generation(t.at, None, None)] else [])
  {
    var all := h + [t];
    if h != [] {
      Stable(h, t, DONE, |h| - 1);
      var old_ := Generations(h, |h| - 1);
      assert Generations(all, |h| - 1) == old_;
      assert h[|h| - 1].state == VERIFYING ==> Generations(h, |h|)[..|old_|] == old_;
    }
  }

  lemma CountsGrow(h: seq<Transition>, t: Transition)
    ensures
      var all, s := h + [t], StateAfter(h);
      && Completions(all, |all|) ==
        Completions(h, |h|) + (if t.state == DONE && s != Some(DONE) then [t.at] else [])
      && Reopenings(all, |all|) == Reopenings(h, |h|) + (if s == Some(DONE) && t.state != DONE then 1 else 0)
  {
    Stable(h, t, DONE, |h|);
  }

  lemma NoAccountsYet(t: Transition)
    ensures Accounts(map[], [t])
  {
  }

  // ----- The audit -----

  /** Account for the state that ends at `at`. */
  method Leave(durations: map<State, Option<real>>, generations: seq<Generation>, h: seq<Transition>, t: Transition)
    returns (d: map<State, Option<real>>, g: seq<Generation>)
    requires Accounts(durations, h) && generations == Generations(h, |h|)
    requires h == [] ==> durations == map[]
    ensures Accounts(d, h + [t])
    ensures Generations(h + [t], |h| + 1) == g + (if t.state == VERIFYING then [Generation(t.at, None, None)] else [])
  {
    d, g := durations, generations;
    GenerationsGrow(h, t);
    NoAccountsYet(t);
    if h != [] {
      AccountsGrow(durations, h, t);
      hide *;
      var state, seconds := h[|h| - 1].state, Elapsed(h[|h| - 1].at, t.at);
      d := d[state := Plus(if state in d then d[state] else Some(0.0), seconds)];
      if state == VERIFYING {
        g := g[..|g| - 1] + [g[|g| - 1].(ended := Some(t.at), residence := seconds)];
      }
    }
  }

  /** Take one transition. */
  method Enter(r: Report, t: Transition) returns (n: Report)
    requires Reports(r, r.transitions) && r.cycle == None
    requires r.transitions == [] ==> r.durations == map[]
    ensures Reports(n, r.transitions + [t]) && n.cycle == None
  {
    var h, state := r.transitions, StateAfter(r.transitions);
    CountsGrow(h, t);
    hide Accounts, Generations, Completions, Reopenings;
    var durations, generations := Leave(r.durations, r.generations, h, t);
    var completions, reopenings := r.completions, r.reopenings;
    if t.state == DONE && state != Some(DONE) {
      completions := completions + [t.at];
    }
    if state == Some(DONE) && t.state != DONE {
      reopenings := reopenings + 1;
    }
    if t.state == VERIFYING {
      generations := generations + [Generation(t.at, None, None)];
    }
    n := Report(h + [t], durations, generations, completions, reopenings, None);
  }

  /** Fold the events of one story. */
  method Audit(events: seq<Event>) returns (r: Report)
    ensures Reports(r, History(events)) && r.transitions == Transitions(events, |events|)
    ensures r.completions != [] ==> r.transitions != []
    ensures r.cycle ==
      if r.completions == [] then None
      else Elapsed(r.transitions[0].at, r.completions[|r.completions| - 1])
  {
    r := Report([], map[], [], [], 0, None);
    for i := 0 to |events|
      invariant Reports(r, History(events[..i])) && r.cycle == None
      invariant r.transitions == [] ==> r.durations == map[]
    {
      var e := events[i];
      assert events[..i + 1][..i] == events[..i];
      if Moves(StateAfter(r.transitions), e) {
        r := Enter(r, Transition(e.state, e.at));
      }
    }
    assert events[..|events|] == events;
    HistoryIsTransitions(events, |events|);
    if r.completions != [] {
      r := r.(cycle := Elapsed(r.transitions[0].at, r.completions[|r.completions| - 1]));
    }
  }

  // ----- Time and completion accounting -----

  /** Every timestamp is valid and none goes back. */
  ghost predicate Timely(h: seq<Transition>) {
    && (forall k | 0 <= k < |h| :: h[k].at.Some?)
    && (forall k | 0 < k < |h| :: h[k - 1].at.value <= h[k].at.value)
  }

  function Seconds(v: Option<real>): real {
    if v.Some? then v.value else 0.0
  }

  /** The total over all recorded states. */
  ghost function Total(d: map<State, Option<real>>): real {
    if d == map[] then 0.0
    else
      var s :| s in d;
      Seconds(d[s]) + Total(d - {s})
  }

  lemma {:induction false} TotalWithout(d: map<State, Option<real>>, s: State)
    requires s in d
    ensures Total(d) == Seconds(d[s]) + Total(d - {s})
    decreases d
  {
    var first: State :| first in d && Total(d) == Seconds(d[first]) + Total(d - {first});
    if first != s {
      TotalWithout(d - {first}, s);
      TotalWithout(d - {s}, first);
      assert d - {first} - {s} == d - {s} - {first};
    }
  }

  /** The time of the first `n` residences, whatever the state. */
  function Whole(h: seq<Transition>, n: nat): real
    requires n == 0 || n < |h|
  {
    if n == 0 then 0.0 else Whole(h, n - 1) + Seconds(Residence(h, n - 1))
  }

  lemma {:induction false} WholeTelescopes(h: seq<Transition>, n: nat)
    requires Timely(h) && n < |h|
    ensures h[0].at.value <= h[n].at.value && Whole(h, n) == h[n].at.value - h[0].at.value
  {
    if n > 0 {
      WholeTelescopes(h, n - 1);
    }
  }

  lemma {:induction false} SpentIsKnown(h: seq<Transition>, s: State, n: nat)
    requires Timely(h) && n < |h|
    ensures Spent(h, s, n).Some?
  {
    if n > 0 {
      SpentIsKnown(h, s, n - 1);
    }
  }

  function SpentMap(h: seq<Transition>, n: nat): map<State, Option<real>>
    requires n == 0 || n < |h|
  {
    map s | s in (set k | 0 <= k < n :: h[k].state) :: Spent(h, s, n)
  }

  lemma SpentMapDiffers(h: seq<Transition>, n: nat)
    requires 0 < n < |h|
    ensures
      var s, before, after := h[n - 1].state, SpentMap(h, n - 1), SpentMap(h, n);
      s in after && after - {s} == before - {s}
  {
    var s, before, after := h[n - 1].state, SpentMap(h, n - 1), SpentMap(h, n);
    assert after.Keys == before.Keys + {s};
    forall x | x in before && x != s ensures after[x] == before[x] {
      assert Spent(h, x, n) == Plus(Spent(h, x, n - 1), Some(0.0));
    }
  }

  lemma SpentMapAdds(h: seq<Transition>, n: nat)
    requires Timely(h) && 0 < n < |h|
    ensures
      var s, before, after := h[n - 1].state, SpentMap(h, n - 1), SpentMap(h, n);
      && s in after
      && Seconds(after[s]) == (if s in before then Seconds(before[s]) else 0.0) + Seconds(Residence(h, n - 1))
  {
    var s, before := h[n - 1].state, SpentMap(h, n - 1);
    SpentIsKnown(h, s, n - 1);
    if s !in before {
      NeverSpent(h, s, n - 1);
    }
  }

  /** One more residence adds its seconds to the total, whether its state is new or not. */
  lemma SpentMapStep(h: seq<Transition>, n: nat)
    requires Timely(h) && 0 < n < |h|
    ensures Total(SpentMap(h, n)) == Total(SpentMap(h, n - 1)) + Seconds(Residence(h, n - 1))
  {
    hide *;
    var s, before, after := h[n - 1].state, SpentMap(h, n - 1), SpentMap(h, n);
    SpentMapDiffers(h, n);
    SpentMapAdds(h, n);
    TotalWithout(after, s);
    if s in before {
      TotalWithout(before, s);
    } else {
      assert before - {s} == before;
    }
  }

  lemma {:induction false} TotalIsWhole(h: seq<Transition>, n: nat)
    requires Timely(h) && n < |h|
    ensures Total(SpentMap(h, n)) == Whole(h, n)
  {
    if n > 0 {
      TotalIsWhole(h, n - 1);
      SpentMapStep(h, n);
    }
  }

  /** The time in all states is the time from the first transition to the last. */
  lemma TimeIsConserved(d: map<State, Option<real>>, h: seq<Transition>)
    requires h != [] && Timely(h) && Accounts(d, h)
    ensures forall s | s in d :: d[s].Some?
    ensures Total(d) == h[|h| - 1].at.value - h[0].at.value
  {
    var n := |h| - 1;
    forall s | s in d ensures d[s].Some? {
      SpentIsKnown(h, s, n);
    }
    assert d == SpentMap(h, n);
    TotalIsWhole(h, n);
    WholeTelescopes(h, n);
  }

  /** A state's time is unknown exactly when some stay in it was: timing is never invented. */
  lemma {:induction false} UnknownStaysUnknown(h: seq<Transition>, s: State, n: nat)
    requires n == 0 || n < |h|
    ensures Spent(h, s, n).None? <==> exists k: nat :: k < n && h[k].state == s && Residence(h, k).None?
  {
    if n > 0 {
      UnknownStaysUnknown(h, s, n - 1);
      assert h[n - 1].state == s && Residence(h, n - 1).None? ==> Spent(h, s, n).None?;
    }
  }

  /** The residences of the generations that have ended, unknown if one of them is. */
  function Closed(generations: seq<Generation>): Option<real> {
    if generations == [] then Some(0.0)
    else
      var last := generations[|generations| - 1];
      Plus(Closed(generations[..|generations| - 1]), if last.ended.Some? then last.residence else Some(0.0))
  }

  lemma ClosedGrows(front: seq<Generation>, g: Generation)
    ensures Closed(front + [g]) == Plus(Closed(front), if g.ended.Some? then g.residence else Some(0.0))
  {
    assert (front + [g])[..|front|] == front;
  }

  lemma {:induction false} GenerationsHoldSpent(h: seq<Transition>, n: nat)
    requires n < |h|
    ensures Closed(Generations(h, n)) == Spent(h, VERIFYING, n)
  {
    if n > 0 {
      GenerationsHoldSpent(h, n - 1);
      ClosedGrows(Generations(h, n - 1), GenerationAt(h, n - 1));
      assert h[n - 1].state != VERIFYING ==> Generations(h, n) == Generations(h, n - 1);
    }
  }

  /** Time in verification is the time of its closed generations, with or without valid stamps. */
  lemma VerifyingIsItsGenerations(h: seq<Transition>)
    requires h != []
    ensures Closed(Generations(h, |h|)) == Spent(h, VERIFYING, |h| - 1)
  {
    var n := |h| - 1;
    GenerationsHoldSpent(h, n);
    ClosedGrows(Generations(h, n), GenerationAt(h, n));
    assert h[n].state != VERIFYING ==> Generations(h, n + 1) == Generations(h, n);
  }

  /** Completions exceed reopenings by one while the story is done, and by none otherwise. */
  lemma {:induction false} CompletionsBalance(h: seq<Transition>, n: nat)
    requires n <= |h|
    ensures |Completions(h, n)| == Reopenings(h, n) + if n > 0 && h[n - 1].state == DONE then 1 else 0
  {
    if n > 0 {
      CompletionsBalance(h, n - 1);
    }
  }

  /** What an audit of a story with timely evidence reports. */
  lemma AuditAccounts(r: Report, events: seq<Event>)
    requires Reports(r, History(events)) && History(events) != []
    ensures
      var h := History(events);
      && |r.completions| == r.reopenings + (if StateAfter(h) == Some(DONE) then 1 else 0)
      && Closed(r.generations) == (if VERIFYING in r.durations then r.durations[VERIFYING] else Some(0.0))
      && (Timely(h) ==> Total(r.durations) == h[|h| - 1].at.value - h[0].at.value)
      && (Timely(h) && StateAfter(h) == Some(DONE) ==>
        && r.completions != []
        && Elapsed(h[0].at, r.completions[|r.completions| - 1]) == Some(Total(r.durations)))
  {
    var h := History(events);
    CompletionsBalance(h, |h|);
    VerifyingIsItsGenerations(h);
    if VERIFYING !in r.durations {
      NeverSpent(h, VERIFYING, |h| - 1);
    }
    HistoryIsProper(events);
    if Timely(h) {
      TimeIsConserved(r.durations, h);
      WholeTelescopes(h, |h| - 1);
    }
  }
}

/**
  Waves order the tasks of a plan: every task of a wave is blocked by every task of the
  wave named just before it.
 */
module Waves {
  import opened Wrappers

  /** The wave of each story, if it is a task of one. */
  type Phases = seq<Option<nat>>

  // ----- The blocked-by graph -----

  /** `a` is the named wave just before `b`. */
  predicate Adjacent(named: set<nat>, a: nat, b: nat) {
    a < b && a in named && b in named && forall w | w in named :: w <= a || b <= w
  }

  predicate InWave(phases: Phases, i: nat, w: nat) {
    i < |phases| && phases[i] == Some(w)
  }

  /** Story `c` is blocked by story `p`. */
  predicate Edge(named: set<nat>, phases: Phases, c: nat, p: nat) {
    && c < |phases| && p < |phases| && phases[c].Some? && phases[p].Some?
    && Adjacent(named, phases[p].value, phases[c].value)
  }

  predicate Path(named: set<nat>, phases: Phases, path: seq<nat>) {
    path != [] && forall k | 0 <= k < |path| - 1 :: Edge(named, phases, path[k], path[k + 1])
  }

  ghost predicate Reaches(named: set<nat>, phases: Phases, c: nat, d: nat) {
    exists path :: Connects(named, phases, path, c, d)
  }

  predicate Connects(named: set<nat>, phases: Phases, path: seq<nat>, c: nat, d: nat) {
    |path| >= 2 && Path(named, phases, path) && path[0] == c && path[|path| - 1] == d
  }

  /** A story depends only on stories of strictly earlier waves. */
  lemma {:induction false} PathsDescend(named: set<nat>, phases: Phases, path: seq<nat>, c: nat, d: nat)
    requires Connects(named, phases, path, c, d)
    ensures c < |phases| && d < |phases| && phases[c].Some? && phases[d].Some? && phases[d].value < phases[c].value
    decreases |path|
  {
    assert Edge(named, phases, path[0], path[1]);
    if |path| > 2 {
      TailConnects(named, phases, path, c, d);
      PathsDescend(named, phases, path[1..], path[1], d);
    }
  }

  lemma TailConnects(named: set<nat>, phases: Phases, path: seq<nat>, c: nat, d: nat)
    requires Connects(named, phases, path, c, d) && |path| > 2
    ensures Connects(named, phases, path[1..], path[1], d)
  {
    var rest := path[1..];
    forall k | 0 <= k < |rest| - 1
      ensures Edge(named, phases, rest[k], rest[k + 1])
    {
      assert Edge(named, phases, path[k + 1], path[k + 2]);
    }
  }

  /** No story waits for itself, and no task waits for another of its own wave. */
  lemma WavesAreAcyclic(named: set<nat>, phases: Phases, c: nat, d: nat)
    requires c < |phases| && d < |phases| && phases[c] == phases[d]
    ensures !Reaches(named, phases, c, d)
  {
    forall path
      ensures !Connects(named, phases, path, c, d)
    {
      if Connects(named, phases, path, c, d) {
        PathsDescend(named, phases, path, c, d);
      }
    }
  }

  lemma {:induction false} PredecessorExists(named: set<nat>, a: nat, b: nat)
    requires a in named && b in named && a < b
    ensures exists p: nat :: a <= p && Adjacent(named, p, b)
    decreases b - a
  {
    if !Adjacent(named, a, b) {
      var w :| w in named && a < w < b;
      PredecessorExists(named, w, b);
    }
  }

  /** Every wave named strictly between `a` and `b` has a task. */
  ghost predicate NoGap(named: set<nat>, phases: Phases, a: nat, b: nat) {
    forall w | w in named && a < w < b :: exists i: nat :: InWave(phases, i, w)
  }

  /** A chain of dependencies passes through every wave in between. */
  lemma {:induction false} PathsVisit(
    named: set<nat>, phases: Phases, path: seq<nat>, c: nat, d: nat, a: nat, b: nat, w: nat)
    requires Connects(named, phases, path, c, d) && InWave(phases, c, b) && InWave(phases, d, a)
    requires w in named && a < w < b
    ensures exists i: nat :: InWave(phases, i, w)
    decreases |path|
  {
    assert Edge(named, phases, path[0], path[1]);
    if phases[path[1]].value == w {
      assert InWave(phases, path[1], w);
    } else {
      TailConnects(named, phases, path, c, d);
      PathsVisit(named, phases, path[1..], path[1], d, a, phases[path[1]].value, w);
    }
  }

  lemma {:induction false} ChainExists(named: set<nat>, phases: Phases, c: nat, d: nat, a: nat, b: nat)
    requires InWave(phases, c, b) && InWave(phases, d, a)
    requires a in named && b in named && a < b && NoGap(named, phases, a, b)
    ensures Reaches(named, phases, c, d)
    decreases b
  {
    PredecessorExists(named, a, b);
    var p: nat :| a <= p && Adjacent(named, p, b);
    if p == a {
      assert Connects(named, phases, [c, d], c, d);
    } else {
      var e: nat :| InWave(phases, e, p);
      ChainExists(named, phases, e, d, a, p);
      var path :| Connects(named, phases, path, e, d);
      assert Edge(named, phases, c, e);
      assert Connects(named, phases, [c] + path, c, d);
    }
  }

  /**
    A task of a later wave waits for a task of an earlier one exactly when no wave named
    between them is empty: an empty wave cuts the chain.
   */
  lemma LaterWaitsForEarlier(named: set<nat>, phases: Phases, c: nat, d: nat, a: nat, b: nat)
    requires InWave(phases, c, b) && InWave(phases, d, a) && a in named && b in named && a < b
    ensures Reaches(named, phases, c, d) <==> NoGap(named, phases, a, b)
  {
    if NoGap(named, phases, a, b) {
      ChainExists(named, phases, c, d, a, b);
    }
    forall path, w | Connects(named, phases, path, c, d) && w in named && a < w < b
      ensures exists i: nat :: InWave(phases, i, w)
    {
      PathsVisit(named, phases, path, c, d, a, b, w);
    }
  }

  // ----- Adding the edges -----

  ghost predicate Ascending(s: seq<nat>) {
    forall j, k | 0 <= j < k < |s| :: s[j] < s[k]
  }

  /** The tasks of each named wave, in story order. */
  ghost predicate Grouped(tasks: map<nat, seq<nat>>, phases: Phases) {
    && (forall w | w in tasks :: Ascending(tasks[w]) && forall i :: i in tasks[w] <==> InWave(phases, i, w))
    && (forall i | 0 <= i < |phases| :: phases[i].Some? ==> phases[i].value in tasks)
  }

  lemma LeastExists(keys: set<nat>)
    requires keys != {}
    ensures exists m :: m in keys && forall k | k in keys :: m <= k
  {
    var some :| some in keys;
    if exists k :: k in keys && k < some {
      LeastFrom(keys, some);
    }
  }

  lemma {:induction false} LeastFrom(keys: set<nat>, some: nat)
    requires some in keys
    ensures exists m :: m in keys && forall k | k in keys :: m <= k
    decreases some
  {
    if k :| k in keys && k < some {
      LeastFrom(keys, k);
    }
  }

  method SortedKeys(keys: set<nat>) returns (sorted: seq<nat>)
    ensures Ascending(sorted) && forall k :: k in sorted <==> k in keys
  {
    sorted := [];
    var left := keys;
    while left != {}
      invariant Ascending(sorted) && left <= keys
      invariant forall k :: k in sorted <==> k in keys && k !in left
      invariant forall j, k | 0 <= j < |sorted| && k in left :: sorted[j] < k
      decreases left
    {
      LeastExists(left);
      var m :| m in left && forall k | k in left :: m <= k;
      sorted, left := sorted + [m], left - {m};
    }
  }

  /** What blocks a story of this phase, once the first `k` waves are linked. */
  ghost function Blockers(waves: seq<nat>, tasks: map<nat, seq<nat>>, phase: Option<nat>, k: nat): seq<nat>
    requires k <= |waves| && forall m | 0 <= m < |waves| :: waves[m] in tasks
  {
    if exists m :: Linked(waves, phase, k, m) then
      var m :| Linked(waves, phase, k, m); tasks[waves[m - 1]]
    else []
  }

  /** The phase is wave `m` of the order, and not its first. */
  predicate Linked(waves: seq<nat>, phase: Option<nat>, k: nat, m: int) {
    phase.Some? && 0 < m < k <= |waves| && waves[m] == phase.value
  }

  lemma LinkedOnce(waves: seq<nat>, tasks: map<nat, seq<nat>>, phase: Option<nat>, k: nat, m: nat)
    requires k <= |waves| && (forall m | 0 <= m < |waves| :: waves[m] in tasks) && Ascending(waves)
    requires Linked(waves, phase, k, m)
    ensures Blockers(waves, tasks, phase, k) == tasks[waves[m - 1]]
  {
  }

  /** Linking wave `k` gives its tasks their blockers and leaves every other story alone. */
  lemma NextWave(waves: seq<nat>, tasks: map<nat, seq<nat>>, phases: Phases, k: nat)
    requires 0 < k < |waves| && (forall m | 0 <= m < |waves| :: waves[m] in tasks) && Ascending(waves)
    requires Grouped(tasks, phases)
    ensures forall c | 0 <= c < |phases| ::
      if c in tasks[waves[k]] then
        && Blockers(waves, tasks, phases[c], k) == []
        && Blockers(waves, tasks, phases[c], k + 1) == tasks[waves[k - 1]]
      else Blockers(waves, tasks, phases[c], k + 1) == Blockers(waves, tasks, phases[c], k)
  {
    var next := k + 1;
    forall c | 0 <= c < |phases|
      ensures if c in tasks[waves[k]] then
          && Blockers(waves, tasks, phases[c], k) == []
          && Blockers(waves, tasks, phases[c], k + 1) == tasks[waves[k - 1]]
        else Blockers(waves, tasks, phases[c], k + 1) == Blockers(waves, tasks, phases[c], k)
    {
      if c in tasks[waves[k]] {
        LinkedOnce(waves, tasks, phases[c], k + 1, k);
        assert forall m | 0 < m < k :: waves[m] < waves[k];
      } else if m: nat :| Linked(waves, phases[c], next, m) {
        assert InWave(phases, c, waves[m]) && m != k;
        LinkedOnce(waves, tasks, phases[c], k + 1, m);
        LinkedOnce(waves, tasks, phases[c], k, m);
      } else {
        forall m | 0 < m < k
          ensures !Linked(waves, phases[c], k, m)
        {
          assert !Linked(waves, phases[c], next, m);
        }
      }
    }
  }

  lemma NothingLinkedYet(waves: seq<nat>, tasks: map<nat, seq<nat>>, phase: Option<nat>, k: nat)
    requires k <= 1 && k <= |waves| && forall m | 0 <= m < |waves| :: waves[m] in tasks
    ensures Blockers(waves, tasks, phase, k) == []
  {
  }

  lemma GroupFacts(tasks: map<nat, seq<nat>>, phases: Phases, w: nat)
    requires Grouped(tasks, phases) && w in tasks
    ensures Ascending(tasks[w]) && forall j | 0 <= j < |tasks[w]| :: tasks[w][j] < |phases|
  {
    assert forall j | 0 <= j < |tasks[w]| :: tasks[w][j] in tasks[w];
  }

  lemma SuccessiveIsAdjacent(waves: seq<nat>, named: set<nat>, m: nat)
    requires Ascending(waves) && (forall k :: k in waves <==> k in named) && 0 < m < |waves|
    ensures Adjacent(named, waves[m - 1], waves[m])
  {
    assert waves[m - 1] in waves && waves[m] in waves;
    forall w | w in named
      ensures w <= waves[m - 1] || waves[m] <= w
    {
      var k :| 0 <= k < |waves| && waves[k] == w;
    }
  }

  lemma AdjacentIsUnique(named: set<nat>, a: nat, x: nat, b: nat)
    requires Adjacent(named, a, b) && Adjacent(named, x, b)
    ensures a == x
  {
  }

  lemma BlockersAreEdges(waves: seq<nat>, tasks: map<nat, seq<nat>>, phases: Phases, c: nat)
    requires Ascending(waves) && (forall k :: k in waves <==> k in tasks.Keys) && Grouped(tasks, phases)
    requires (forall m | 0 <= m < |waves| :: waves[m] in tasks) && c < |phases|
    ensures var all := Blockers(waves, tasks, phases[c], |waves|);
      Ascending(all) && forall p :: p in all <==> Edge(tasks.Keys, phases, c, p)
  {
    if m: nat :| Linked(waves, phases[c], |waves|, m) {
      LinkedOnce(waves, tasks, phases[c], |waves|, m);
      SuccessiveIsAdjacent(waves, tasks.Keys, m);
      forall p: nat | Edge(tasks.Keys, phases, c, p)
        ensures InWave(phases, p, waves[m - 1])
      {
        AdjacentIsUnique(tasks.Keys, waves[m - 1], phases[p].value, waves[m]);
      }
    } else {
      forall p: nat
        ensures !Edge(tasks.Keys, phases, c, p)
      {
        if Edge(tasks.Keys, phases, c, p) {
          assert phases[c].value in waves && phases[p].value in waves;
          var m: nat, k: nat :|
            m < |waves| && k < |waves| && waves[m] == phases[c].value && waves[k] == phases[p].value;
          assert k < m && Linked(waves, phases[c], |waves|, m);
        }
      }
    }
  }

  /** Append every earlier task to one later task's blockers. */
  method BlockBy(blocked: seq<seq<nat>>, c: nat, earlier: seq<nat>) returns (r: seq<seq<nat>>)
    requires c < |blocked|
    ensures r == blocked[c := blocked[c] + earlier]
  {
    r := blocked;
    for j := 0 to |earlier|
      invariant |r| == |blocked| && r[c] == blocked[c] + earlier[..j]
      invariant forall i | 0 <= i < |r| && i != c :: r[i] == blocked[i]
    {
      r := r[c := r[c] + [earlier[j]]];
      assert earlier[..j + 1] == earlier[..j] + [earlier[j]];
    }
    assert earlier[..|earlier|] == earlier;
  }

  /** Block every task of one wave by every task of the one before. */
  method LinkWaves(blocked: seq<seq<nat>>, later: seq<nat>, earlier: seq<nat>) returns (r: seq<seq<nat>>)
    requires Ascending(later) && forall j | 0 <= j < |later| :: later[j] < |blocked| && blocked[later[j]] == []
    ensures |r| == |blocked|
    ensures forall c | 0 <= c < |r| :: r[c] == if c in later then earlier else blocked[c]
  {
    r := blocked;
    for j := 0 to |later|
      invariant |r| == |blocked|
      invariant forall c | 0 <= c < |r| :: r[c] == if c in later[..j] then earlier else blocked[c]
    {
      assert later[j] !in later[..j];
      r := BlockBy(r, later[j], earlier);
      assert later[..j + 1] == later[..j] + [later[j]];
    }
  }

  /** Link each wave to the one named just before it. */
  method AddEdges(tasks: map<nat, seq<nat>>, phases: Phases) returns (blocked: seq<seq<nat>>)
    requires Grouped(tasks, phases)
    ensures |blocked| == |phases|
    ensures forall c | 0 <= c < |blocked| ::
      Ascending(blocked[c]) && forall p :: p in blocked[c] <==> Edge(tasks.Keys, phases, c, p)
  {
    hide Grouped, Blockers, Adjacent, Edge;
    var waves := SortedKeys(tasks.Keys);
    assert forall m | 0 <= m < |waves| :: waves[m] in waves;
    blocked := seq(|phases|, _ => []);
    var k := 1;
    forall c | 0 <= c < |phases|
      ensures blocked[c] == Blockers(waves, tasks, phases[c], if k <= |waves| then k else 0)
    {
      NothingLinkedYet(waves, tasks, phases[c], if k <= |waves| then k else 0);
    }
    while k < |waves|
      invariant 1 <= k && (k <= |waves| || waves == []) && |blocked| == |phases|
      invariant forall c | 0 <= c < |phases| ::
        blocked[c] == Blockers(waves, tasks, phases[c], if k <= |waves| then k else 0)
    {
      var later, earlier := tasks[waves[k]], tasks[waves[k - 1]];
      GroupFacts(tasks, phases, waves[k]);
      NextWave(waves, tasks, phases, k);
      assert forall j | 0 <= j < |later| :: later[j] in later;
      blocked := LinkWaves(blocked, later, earlier);
      k := k + 1;
    }
    assert forall c | 0 <= c < |phases| :: blocked[c] == Blockers(waves, tasks, phases[c], |waves|);
    forall c | 0 <= c < |blocked|
      ensures Ascending(blocked[c]) && forall p :: p in blocked[c] <==> Edge(tasks.Keys, phases, c, p)
    {
      BlockersAreEdges(waves, tasks, phases, c);
    }
  }
}

/**
  How a Markdown plan becomes a hierarchy.  A story is made by a heading or by an unchecked
  box; two stacks of open entries pick each story's parent, and this module proves that
  they pick the enclosing item.
 */
module Nesting {
  import opened Wrappers

  type Level = n: nat | 1 <= n <= 3 witness 1

  datatype Kind = Head(level: Level) | Task(indent: nat)

  // ----- The hierarchy, without stacks -----

  /**
    The story at `p` is the parent of the one at `i`.
    A heading belongs to the last heading one level up, if no heading above its own level came
    since.  A box belongs to the nearest earlier item that is a heading or a shallower box:
    whatever lies between is a box at least as deep.
   */
  ghost predicate Encloses(items: seq<Kind>, p: nat, i: nat)
    requires i < |items|
  {
    p < i &&
    match items[i]
    case Head(l) =>
      && items[p].Head? && items[p].level + 1 == l
      && forall q | p < q < i :: items[q].Head? ==> items[q].level >= l
    case Task(n) =>
      && (items[p].Task? ==> items[p].indent < n)
      && forall q | p < q < i :: items[q].Task? && items[q].indent >= n
  }

  ghost predicate IsParent(items: seq<Kind>, i: nat, parent: Option<nat>)
    requires i < |items|
  {
    forall p: nat :: parent == Some(p) <==> Encloses(items, p, i)
  }

  lemma EnclosingIsUnique(items: seq<Kind>, p: nat, i: nat)
    requires i < |items| && Encloses(items, p, i)
    ensures IsParent(items, i, Some(p))
  {
    forall q: nat | Encloses(items, q, i)
      ensures q == p
    {
    }
  }

  /** Appending a story moves no earlier parent. */
  lemma ParentsAreStable(items: seq<Kind>, more: seq<Kind>, i: nat, parent: Option<nat>)
    requires i < |items| && IsParent(items, i, parent)
    ensures IsParent(items + more, i, parent)
  {
    var all := items + more;
    assert all[..|items|] == items;
    forall p: nat
      ensures Encloses(all, p, i) <==> Encloses(items, p, i)
    {
      assert forall q | 0 <= q <= i :: all[q] == items[q];
    }
  }

  /** Following parents from any story ends at a root: the hierarchy is a forest. */
  ghost predicate Forest(parents: seq<Option<nat>>) {
    forall i | 0 <= i < |parents| :: parents[i].Some? ==> parents[i].value < i
  }

  /** The chain of ancestors of a story, nearest first. */
  function Ancestors(parents: seq<Option<nat>>, i: nat): (chain: seq<nat>)
    requires Forest(parents) && i < |parents|
    ensures forall k | 0 <= k < |chain| :: chain[k] < i
    ensures chain != [] ==> parents[chain[|chain| - 1]].None?
    ensures chain == [] <==> parents[i].None?
  {
    if parents[i].None? then [] else [parents[i].value] + Ancestors(parents, parents[i].value)
  }

  // ----- Stacks -----

  /** An open entry: a heading's level or a box's indentation, and the story. */
  datatype Entry = Entry(rank: nat, index: nat)

  /** What an item means to one stack. */
  datatype Mark = Skip | Reset | Rank(rank: nat)

  function HeadMark(kind: Kind): Mark {
    match kind case Head(l) => Rank(l) case Task(_) => Skip
  }

  function BoxMark(kind: Kind): Mark {
    match kind case Head(_) => Reset case Task(n) => Rank(n)
  }

  /** Drop open entries from the top while they are not below `n`. */
  function Cut(stack: seq<Entry>, n: nat): (r: seq<Entry>)
    ensures |r| <= |stack| && r == stack[..|r|]
    ensures r != [] ==> r[|r| - 1].rank < n
    ensures forall k | |r| <= k < |stack| :: stack[k].rank >= n
  {
    if stack == [] || stack[|stack| - 1].rank < n then stack else Cut(stack[..|stack| - 1], n)
  }

  function Stack(items: seq<Kind>, mark: Kind -> Mark): (r: seq<Entry>) {
    if items == [] then []
    else
      var last := |items| - 1;
      var below := Stack(items[..last], mark);
      match mark(items[last])
      case Skip => below
      case Reset => []
      case Rank(n) => Cut(below, n) + [Entry(n, last)]
  }

  function Headings(items: seq<Kind>): seq<Entry> {
    Stack(items, HeadMark)
  }

  function Boxes(items: seq<Kind>): seq<Entry> {
    Stack(items, BoxMark)
  }

  ghost predicate Ascending(stack: seq<Entry>) {
    forall j, k | 0 <= j < k < |stack| :: stack[j].rank < stack[k].rank
  }

  lemma {:induction false} CutOfAscending(stack: seq<Entry>, n: nat)
    requires Ascending(stack)
    ensures Ascending(Cut(stack, n))
    ensures forall k | 0 <= k < |Cut(stack, n)| :: stack[k].rank < n
  {
    var cut := Cut(stack, n);
    forall k | 0 <= k < |cut|
      ensures stack[k].rank < n
    {
      assert stack[k].rank <= stack[|cut| - 1].rank;
    }
  }

  lemma {:induction false} StackAscends(items: seq<Kind>, mark: Kind -> Mark)
    ensures Ascending(Stack(items, mark))
    decreases |items|
  {
    if items != [] {
      var last := |items| - 1;
      StackAscends(items[..last], mark);
      if mark(items[last]).Rank? {
        CutOfAscending(Stack(items[..last], mark), mark(items[last]).rank);
      }
    }
  }

  lemma {:induction false} CutTwice(stack: seq<Entry>, m: nat, n: nat)
    requires n <= m
    ensures Cut(Cut(stack, m), n) == Cut(stack, n)
    decreases |stack|
  {
    if stack != [] && stack[|stack| - 1].rank >= m {
      CutTwice(stack[..|stack| - 1], m, n);
    }
  }

  /** From `lo` on, nothing resets the stack and nothing ranks below `n`. */
  ghost predicate Clear(items: seq<Kind>, mark: Kind -> Mark, lo: nat, n: nat) {
    forall q | lo <= q < |items| :: !mark(items[q]).Reset? && (mark(items[q]).Rank? ==> mark(items[q]).rank >= n)
  }

  /** The top of a cut stack is the nearest item below `n`; an empty one means there is none. */
  ghost predicate Nearest(items: seq<Kind>, mark: Kind -> Mark, n: nat, cut: seq<Entry>) {
    if cut == [] then exists lo: nat :: Opens(items, mark, lo) && Clear(items, mark, lo, n)
    else
      var top := cut[|cut| - 1];
      && top.index < |items| && mark(items[top.index]) == Rank(top.rank)
      && top.rank < n && Clear(items, mark, top.index + 1, n)
  }

  /** The stack was last emptied just before `lo`. */
  ghost predicate Opens(items: seq<Kind>, mark: Kind -> Mark, lo: nat) {
    lo <= |items| && (lo == 0 || mark(items[lo - 1]).Reset?)
  }

  /**
    The heart of both stacks: what is left on top after cutting at `n` is the nearest earlier
    item that ranks below `n`, with no reset since.
   */
  lemma {:induction false} TopIsNearest(items: seq<Kind>, mark: Kind -> Mark, n: nat)
    ensures Nearest(items, mark, n, Cut(Stack(items, mark), n))
    decreases |items|
  {
    if items == [] {
      assert Opens(items, mark, 0) && Clear(items, mark, 0, n);
    } else {
      var last := |items| - 1;
      var below := Stack(items[..last], mark);
      TopIsNearest(items[..last], mark, n);
      match mark(items[last]) {
        case Reset =>
          assert Opens(items, mark, |items|) && Clear(items, mark, |items|, n);
        case Skip =>
          Extend(items, mark, n, Cut(below, n));
        case Rank(r) =>
          PushedTop(items, mark, n, below, r);
      }
    }
  }

  lemma PushedTop(items: seq<Kind>, mark: Kind -> Mark, n: nat, below: seq<Entry>, r: nat)
    requires items != [] && mark(items[|items| - 1]) == Rank(r)
    requires Nearest(items[..|items| - 1], mark, n, Cut(below, n))
    ensures Nearest(items, mark, n, Cut(Cut(below, r) + [Entry(r, |items| - 1)], n))
  {
    var all := Cut(below, r) + [Entry(r, |items| - 1)];
    if r >= n {
      assert all[..|all| - 1] == Cut(below, r);
      CutTwice(below, r, n);
      Extend(items, mark, n, Cut(below, n));
    } else {
      assert Clear(items, mark, |items|, n);
    }
  }

  lemma Extend(items: seq<Kind>, mark: Kind -> Mark, n: nat, cut: seq<Entry>)
    requires items != [] && Nearest(items[..|items| - 1], mark, n, cut)
    requires var m := mark(items[|items| - 1]); m.Skip? || (m.Rank? && m.rank >= n)
    ensures Nearest(items, mark, n, cut)
  {
    var front := items[..|items| - 1];
    var lo: nat :| lo <= |front| && Clear(front, mark, lo, n)
      && if cut == [] then Opens(front, mark, lo) else lo == cut[|cut| - 1].index + 1;
    assert Clear(items, mark, lo, n) by {
      forall q | lo <= q < |items|
        ensures !mark(items[q]).Reset? && (mark(items[q]).Rank? ==> mark(items[q]).rank >= n)
      {
        assert q < |front| ==> front[q] == items[q];
      }
    }
    assert cut == [] ==> Opens(items, mark, lo);
  }

  // ----- What the stacks answer -----

  /** The last open heading of this level, searched from the top. */
  function Find(stack: seq<Entry>, level: nat): (r: Option<nat>)
    ensures r.None? ==> forall k | 0 <= k < |stack| :: stack[k].rank != level
    ensures r.Some? ==> exists k :: 0 <= k < |stack| && stack[k] == Entry(level, r.value)
  {
    if stack == [] then None
    else if stack[|stack| - 1].rank == level then Some(stack[|stack| - 1].index)
    else Find(stack[..|stack| - 1], level)
  }

  /** The parent chosen for the next story. */
  function Choose(headings: seq<Entry>, boxes: seq<Entry>, kind: Kind): Option<nat> {
    match kind
    case Head(l) => Find(headings, l - 1)
    case Task(n) =>
      var cut := Cut(boxes, n);
      if cut != [] then Some(cut[|cut| - 1].index)
      else if headings != [] then Some(headings[|headings| - 1].index)
      else None
  }

  lemma HeadChoice(items: seq<Kind>, l: Level)
    ensures IsParent(items + [Head(l)], |items|, Find(Headings(items), l - 1))
  {
    var all, found := items + [Head(l)], Find(Headings(items), l - 1);
    assert forall q | 0 <= q < |items| :: all[q] == items[q];
    if found.Some? {
      OpenHeadingIsNearest(items, l, found.value);
      EnclosingIsUnique(all, found.value, |items|);
    } else {
      forall p: nat | p < |items| && items[p].Head? && items[p].level + 1 == l
        ensures !Encloses(all, p, |items|)
      {
        if forall q | p < q < |items| :: items[q].Head? ==> items[q].level >= l {
          NearestHeadingIsOpen(items, l, p);
          assert false;
        }
      }
    }
  }

  /** An open heading one level up has no higher one after it. */
  lemma OpenHeadingIsNearest(items: seq<Kind>, l: Level, p: nat)
    requires exists k :: 0 <= k < |Headings(items)| && Headings(items)[k] == Entry(l - 1, p)
    ensures p < |items| && items[p].Head? && items[p].level + 1 == l
    ensures forall q | p < q < |items| :: items[q].Head? ==> items[q].level >= l
  {
    var stack, cut := Headings(items), Cut(Headings(items), l);
    TopIsNearest(items, HeadMark, l);
    StackAscends(items, HeadMark);
    CutOfAscending(stack, l);
    var k :| 0 <= k < |stack| && stack[k] == Entry(l - 1, p);
    assert k == |cut| - 1;
    forall q | p < q < |items| && items[q].Head?
      ensures items[q].level >= l
    {
      assert HeadMark(items[q]).Rank?;
    }
  }

  /** The nearest heading above level `l` is still open. */
  lemma NearestHeadingIsOpen(items: seq<Kind>, l: nat, p: nat)
    requires p < |items| && items[p].Head? && items[p].level < l
    requires forall q | p < q < |items| :: items[q].Head? ==> items[q].level >= l
    ensures exists k :: 0 <= k < |Headings(items)| && Headings(items)[k] == Entry(items[p].level, p)
  {
    TopIsNearest(items, HeadMark, l);
    assert HeadMark(items[p]).Rank?;
    var cut := Cut(Headings(items), l);
    assert !exists lo: nat :: Opens(items, HeadMark, lo) && Clear(items, HeadMark, lo, l);
    var top := cut[|cut| - 1];
    assert HeadMark(items[top.index]).Rank?;
    assert Headings(items)[|cut| - 1] == top;
  }

  lemma LatestHeading(items: seq<Kind>)
    ensures var stack := Headings(items);
      if stack == [] then forall q | 0 <= q < |items| :: items[q].Task?
      else
        var p := stack[|stack| - 1].index;
        p < |items| && items[p].Head? && forall q | p < q < |items| :: items[q].Task?
  {
    TopIsNearest(items, HeadMark, 4);
    var stack := Headings(items);
    forall q | 0 <= q < |items| && items[q].Head?
      ensures HeadMark(items[q]).Rank? && HeadMark(items[q]).rank < 4
    {
    }
    assert Cut(stack, 4) == stack by {
      HeadRanks(items);
    }
  }

  lemma {:induction false} HeadRanks(items: seq<Kind>)
    ensures forall k | 0 <= k < |Headings(items)| :: 1 <= Headings(items)[k].rank < 4
    decreases |items|
  {
    if items != [] {
      var below := Headings(items[..|items| - 1]);
      HeadRanks(items[..|items| - 1]);
      assert items[|items| - 1].Head? ==>
        forall k | 0 <= k < |Cut(below, items[|items| - 1].level)| ::
          Cut(below, items[|items| - 1].level)[k] == below[k];
    }
  }

  lemma TaskChoice(items: seq<Kind>, n: nat)
    ensures IsParent(items + [Task(n)], |items|, Choose(Headings(items), Boxes(items), Task(n)))
  {
    var all, cut := items + [Task(n)], Cut(Boxes(items), n);
    assert forall q | 0 <= q < |items| :: all[q] == items[q];
    TopIsNearest(items, BoxMark, n);
    LatestHeading(items);
    if cut != [] {
      var p := cut[|cut| - 1].index;
      assert BoxMark(items[p]).Rank?;
      Between(items, p + 1, n);
      EnclosingIsUnique(all, p, |items|);
    } else {
      var lo: nat :| Opens(items, BoxMark, lo) && Clear(items, BoxMark, lo, n);
      Between(items, lo, n);
      if Headings(items) != [] {
        var p := Headings(items)[|Headings(items)| - 1].index;
        assert lo == p + 1 by {
          assert lo > 0 ==> items[lo - 1].Head?;
          assert p < lo;
        }
        EnclosingIsUnique(all, p, |items|);
      } else {
        assert lo == 0;
        forall p: nat
          ensures !Encloses(all, p, |items|)
        {
          assert p < |items| ==> items[p].Task? && items[p].indent >= n;
        }
      }
    }
  }

  lemma Between(items: seq<Kind>, lo: nat, n: nat)
    requires Clear(items, BoxMark, lo, n)
    ensures forall q | lo <= q < |items| :: items[q].Task? && items[q].indent >= n
  {
    forall q | lo <= q < |items|
      ensures items[q].Task? && items[q].indent >= n
    {
      assert !BoxMark(items[q]).Reset?;
    }
  }

  /** The two stacks pick the enclosing item, whatever came before. */
  lemma ChoiceIsParent(items: seq<Kind>, kind: Kind)
    ensures IsParent(items + [kind], |items|, Choose(Headings(items), Boxes(items), kind))
  {
    match kind
    case Head(l) => HeadChoice(items, l);
    case Task(n) => TaskChoice(items, n);
  }

  /** Keeping only the higher levels is the same as cutting an ascending stack. */
  function Retain(stack: seq<Entry>, n: nat): seq<Entry> {
    if stack == [] then []
    else
      var front := Retain(stack[..|stack| - 1], n);
      if stack[|stack| - 1].rank < n then front + [stack[|stack| - 1]] else front
  }

  lemma {:induction false} RetainIsCut(stack: seq<Entry>, n: nat)
    requires Ascending(stack)
    ensures Retain(stack, n) == Cut(stack, n)
    decreases |stack|
  {
    if stack != [] {
      var front := stack[..|stack| - 1];
      RetainIsCut(front, n);
      if stack[|stack| - 1].rank < n {
        assert Cut(front, n) == front;
      }
    }
  }

  /** A top-level heading has no parent and closes every heading. */
  lemma TopLevel(items: seq<Kind>)
    ensures Find(Headings(items), 0) == None && Retain(Headings(items), 1) == []
  {
    HeadRanks(items);
    StackAscends(items, HeadMark);
    RetainIsCut(Headings(items), 1);
  }
}

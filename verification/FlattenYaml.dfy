/**
  Flattening nested YAML stories into the import list, where each story names its parent by
  index.  Nothing is lost: the forest can be rebuilt from the list.
 */
module FlattenYaml {
  import opened Wrappers

  datatype Fields = Fields(
    title: string,
    priority: Option<string>,
    complexity: Option<string>,
    labels: Option<seq<string>>,
    description: Option<string>)

  /** A story with a list of children, possibly empty, or without one. */
  datatype YamlStory = Nested(fields: Fields, children: seq<YamlStory>) | Bare(fields: Fields)

  datatype ImportStory = ImportStory(fields: Fields, childOf: Option<nat>)

  /** The preorder list of a forest whose first story gets index `offset`. */
  function Flat(forest: seq<YamlStory>, parent: Option<nat>, offset: nat): seq<ImportStory>
    decreases forest
  {
    if forest == [] then []
    else
      var below := FlatChildren(forest[0], offset);
      [ImportStory(forest[0].fields, parent)] + below + Flat(forest[1..], parent, offset + 1 + |below|)
  }

  function FlatChildren(story: YamlStory, index: nat): seq<ImportStory>
    decreases story
  {
    if story.Nested? then Flat(story.children, Some(index), index + 1) else []
  }

  class ImportList {
    var stories: seq<ImportStory>

    constructor ()
      ensures stories == []
    {
      stories := [];
    }

    method Flatten(forest: seq<YamlStory>, parent: Option<nat>)
      modifies this
      ensures stories == old(stories) + Flat(forest, parent, |old(stories)|)
      decreases forest
    {
      hide *;
      ghost var goal := old(stories) + Flat(forest, parent, |old(stories)|);
      assert forest[0..] == forest;
      for i := 0 to |forest|
        invariant stories + Flat(forest[i..], parent, |stories|) == goal
      {
        var story, index := forest[i], |stories|;
        Advance(stories, forest, i, parent);
        FlatChildrenStep(story, index);
        stories := stories + [ImportStory(story.fields, parent)];
        if story.Nested? {
          Flatten(story.children, Some(index));
        }
      }
      FlatStep(forest, |forest|, parent, |stories|);
    }
  }

  /** A story and its children move from what is left to the list. */
  lemma Advance(stories: seq<ImportStory>, forest: seq<YamlStory>, i: nat, parent: Option<nat>)
    requires i < |forest|
    ensures
      var below := FlatChildren(forest[i], |stories|);
      var more := stories + [ImportStory(forest[i].fields, parent)] + below;
      && stories + Flat(forest[i..], parent, |stories|) == more + Flat(forest[i + 1..], parent, |more|)
      && (below == [] ==> more == stories + [ImportStory(forest[i].fields, parent)])
  {
    FlatStep(forest, i, parent, |stories|);
    hide *;
    var first, below := [ImportStory(forest[i].fields, parent)], FlatChildren(forest[i], |stories|);
    Regroup(stories, first, below);
    Regroup(stories, first + below, Flat(forest[i + 1..], parent, |stories| + 1 + |below|));
  }

  lemma FlatStep(forest: seq<YamlStory>, i: nat, parent: Option<nat>, offset: nat)
    requires i <= |forest|
    ensures Flat(forest[i..], parent, offset) ==
      if i == |forest| then []
      else
        var below := FlatChildren(forest[i], offset);
        [ImportStory(forest[i].fields, parent)] + below + Flat(forest[i + 1..], parent, offset + 1 + |below|)
  {
    assert i < |forest| ==> forest[i..][1..] == forest[i + 1..];
  }

  lemma FlatChildrenStep(story: YamlStory, index: nat)
    ensures FlatChildren(story, index) == if story.Nested? then Flat(story.children, Some(index), index + 1) else []
  {
  }

  // ----- Rebuilding -----

  function Node(fields: Fields, children: seq<YamlStory>): YamlStory {
    if children == [] then Bare(fields) else Nested(fields, children)
  }

  /** The stories from index `i` on that name this parent, each with its own children. */
  function Rebuild(list: seq<ImportStory>, parent: Option<nat>, i: nat): seq<YamlStory>
    requires i <= |list|
    decreases |list| - i
  {
    if i == |list| then []
    else if list[i].childOf == parent then
      [Node(list[i].fields, Rebuild(list, Some(i), i + 1))] + Rebuild(list, parent, i + 1)
    else Rebuild(list, parent, i + 1)
  }

  /** A story without children says so in one way. */
  function Normal(story: YamlStory): YamlStory
    decreases story
  {
    Node(story.fields, if story.Nested? then NormalForest(story.children) else [])
  }

  function NormalForest(forest: seq<YamlStory>): (r: seq<YamlStory>)
    ensures |r| == |forest|
    decreases forest
  {
    if forest == [] then [] else [Normal(forest[0])] + NormalForest(forest[1..])
  }

  /** No story carries an empty list of children. */
  predicate Canonical(forest: seq<YamlStory>)
    decreases forest
  {
    forest == [] || (CanonicalStory(forest[0]) && Canonical(forest[1..]))
  }

  predicate CanonicalStory(story: YamlStory)
    decreases story
  {
    story.Nested? ==> story.children != [] && Canonical(story.children)
  }

  lemma {:induction false} NormalIsFixed(forest: seq<YamlStory>)
    ensures NormalForest(forest) == forest <==> Canonical(forest)
    decreases forest
  {
    if forest != [] {
      var story := forest[0];
      if story.Nested? {
        NormalIsFixed(story.children);
      }
      NormalIsFixed(forest[1..]);
      assert forest == [story] + forest[1..];
      assert NormalForest(forest)[0] == Normal(story) && NormalForest(forest)[1..] == NormalForest(forest[1..]);
      assert Normal(story) == story <==> CanonicalStory(story);
    }
  }

  predicate Within(index: Option<nat>, lo: nat, hi: nat) {
    index.Some? && lo <= index.value < hi
  }

  predicate AllWithin(list: seq<ImportStory>, lo: nat, hi: nat) {
    forall k | 0 <= k < |list| :: Within(list[k].childOf, lo, hi)
  }

  /** Every parent named in the list is the outer one or lies in the range. */
  predicate Local(list: seq<ImportStory>, parent: Option<nat>, lo: nat, hi: nat) {
    forall k | 0 <= k < |list| :: list[k].childOf == parent || Within(list[k].childOf, lo, hi)
  }

  lemma {:induction false} ParentsAreLocal(forest: seq<YamlStory>, parent: Option<nat>, offset: nat)
    ensures Local(Flat(forest, parent, offset), parent, offset, offset + |Flat(forest, parent, offset)|)
    decreases forest
  {
    if forest != [] {
      hide *;
      var below := FlatChildren(forest[0], offset);
      var middle := offset + 1 + |below|;
      FlatStep(forest, 0, parent, offset);
      assert forest[0..] == forest;
      ChildrenAreLocal(forest[0], offset);
      ParentsAreLocal(forest[1..], parent, middle);
      LocalJoins(ImportStory(forest[0].fields, parent), below, Flat(forest[1..], parent, middle), parent, offset);
    }
  }

  lemma LocalJoins(first: ImportStory, below: seq<ImportStory>, rest: seq<ImportStory>, parent: Option<nat>, lo: nat)
    requires first.childOf == parent
    requires AllWithin(below, lo, lo + 1 + |below|)
    requires Local(rest, parent, lo + 1 + |below|, lo + 1 + |below| + |rest|)
    ensures Local([first] + below + rest, parent, lo, lo + 1 + |below| + |rest|)
  {
    var all := [first] + below + rest;
    forall k | 0 <= k < |all|
      ensures all[k].childOf == parent || Within(all[k].childOf, lo, lo + |all|)
    {
      if 1 <= k < 1 + |below| {
        assert all[k] == below[k - 1];
      } else if k > |below| {
        assert all[k] == rest[k - 1 - |below|];
      }
    }
  }

  lemma {:induction false} ChildrenAreLocal(story: YamlStory, index: nat)
    ensures AllWithin(FlatChildren(story, index), index, index + 1 + |FlatChildren(story, index)|)
    decreases story
  {
    if story.Nested? {
      ParentsAreLocal(story.children, Some(index), index + 1);
    }
  }

  /** No story in the range names this parent. */
  predicate NoChild(list: seq<ImportStory>, lo: nat, hi: nat, parent: Option<nat>) {
    hi <= |list| && forall k | lo <= k < hi :: list[k].childOf != parent
  }

  lemma {:induction false} SkipsOthers(list: seq<ImportStory>, parent: Option<nat>, i: nat, j: nat)
    requires i <= j <= |list| && NoChild(list, i, j, parent)
    ensures Rebuild(list, parent, i) == Rebuild(list, parent, j)
    decreases j - i
  {
    if i < j {
      SkipsOthers(list, parent, i + 1, j);
    }
  }

  /** A flattened forest sits at `offset`, and nothing after it names one of its stories. */
  ghost predicate Placed(list: seq<ImportStory>, flat: seq<ImportStory>, parent: Option<nat>, offset: nat) {
    var end := offset + |flat|;
    && end <= |list| && list[offset..end] == flat
    && (parent.Some? ==> parent.value < offset)
    && forall k | end <= k < |list| :: !Within(list[k].childOf, offset, end)
  }

  /** From `offset` to `end` rebuilding gives the forest, and then goes on. */
  ghost predicate Rebuilt(
    list: seq<ImportStory>, forest: seq<YamlStory>, parent: Option<nat>, offset: nat, end: nat)
  {
    offset <= end <= |list| && Rebuild(list, parent, offset) == NormalForest(forest) + Rebuild(list, parent, end)
  }

  lemma {:induction false} RebuildsPlaced(
    list: seq<ImportStory>, forest: seq<YamlStory>, parent: Option<nat>, offset: nat)
    requires Placed(list, Flat(forest, parent, offset), parent, offset)
    ensures Rebuilt(list, forest, parent, offset, offset + |Flat(forest, parent, offset)|)
    decreases forest, 1
  {
    hide *;
    if forest == [] {
      RebuildsNothing(list, parent, offset);
    } else {
      RebuildsFirst(list, forest, parent, offset);
      var middle := offset + 1 + |FlatChildren(forest[0], offset)|;
      RebuildsPlaced(list, forest[1..], parent, middle);
      RebuildJoins(list, forest, parent, offset, middle, offset + |Flat(forest, parent, offset)|);
    }
  }

  lemma RebuildsNothing(list: seq<ImportStory>, parent: Option<nat>, offset: nat)
    requires Placed(list, Flat([], parent, offset), parent, offset)
    ensures Rebuilt(list, [], parent, offset, offset + |Flat([], parent, offset)|)
  {
    EmptyForest(parent, offset);
    assert NormalForest([]) + Rebuild(list, parent, offset) == Rebuild(list, parent, offset);
  }

  /** The first story of a forest is rebuilt, and the rest follows. */
  ghost predicate FirstRebuilt(
    list: seq<ImportStory>, story: YamlStory, parent: Option<nat>, offset: nat, middle: nat)
  {
    && offset < middle <= |list|
    && Rebuild(list, parent, offset) == [Normal(story)] + Rebuild(list, parent, middle)
  }

  lemma {:induction false} RebuildsFirst(
    list: seq<ImportStory>, forest: seq<YamlStory>, parent: Option<nat>, offset: nat)
    requires forest != [] && Placed(list, Flat(forest, parent, offset), parent, offset)
    ensures
      var middle := offset + 1 + |FlatChildren(forest[0], offset)|;
      var rest := Flat(forest[1..], parent, middle);
      && middle + |rest| == offset + |Flat(forest, parent, offset)|
      && Placed(list, rest, parent, middle) && FirstRebuilt(list, forest[0], parent, offset, middle)
    decreases forest, 0
  {
    PlacedForest(list, forest, parent, offset);
    RebuildsChildren(list, forest[0], offset);
    hide Placed, Rebuild, Normal, Flat, FlatChildren, Node, NoChild;
  }

  lemma RebuildJoins(
    list: seq<ImportStory>, forest: seq<YamlStory>, parent: Option<nat>, offset: nat, middle: nat, end: nat)
    requires forest != [] && FirstRebuilt(list, forest[0], parent, offset, middle)
    requires Rebuilt(list, forest[1..], parent, middle, end)
    ensures Rebuilt(list, forest, parent, offset, end)
  {
    NormalStep(forest);
    hide Rebuild, Normal, NormalForest;
    Regroup([Normal(forest[0])], NormalForest(forest[1..]), Rebuild(list, parent, end));
  }

  lemma Regroup<T>(a: seq<T>, b: seq<T>, c: seq<T>)
    ensures a + (b + c) == a + b + c
  {
  }

  /** The first story of a placed forest stands at `offset`, its children and the rest are placed. */
  lemma PlacedForest(list: seq<ImportStory>, forest: seq<YamlStory>, parent: Option<nat>, offset: nat)
    requires forest != [] && Placed(list, Flat(forest, parent, offset), parent, offset)
    ensures
      var below := FlatChildren(forest[0], offset);
      var middle := offset + 1 + |below|;
      var rest := Flat(forest[1..], parent, middle);
      && middle + |rest| == offset + |Flat(forest, parent, offset)|
      && Placed(list, below, Some(offset), offset + 1) && Placed(list, rest, parent, middle)
      && NoChild(list, middle, |list|, Some(offset))
      && middle <= |list| && offset + |Flat(forest, parent, offset)| <= |list|
      && Rebuild(list, parent, offset) ==
        [Node(forest[0].fields, Rebuild(list, Some(offset), offset + 1))] + Rebuild(list, parent, middle)
  {
    assert offset + |Flat(forest, parent, offset)| <= |list|;
    hide *;
    var first, below := ImportStory(forest[0].fields, parent), FlatChildren(forest[0], offset);
    var middle := offset + 1 + |below|;
    var rest := Flat(forest[1..], parent, middle);
    FlatHead(forest, parent, offset);
    ChildrenAreLocal(forest[0], offset);
    ParentsAreLocal(forest[1..], parent, middle);
    PlacedParts(list, first, below, rest, parent, offset);
    SkipsOthers(list, parent, offset + 1, middle);
    RebuildStep(list, parent, offset);
  }

  lemma FlatHead(forest: seq<YamlStory>, parent: Option<nat>, offset: nat)
    requires forest != []
    ensures
      var below := FlatChildren(forest[0], offset);
      var rest := Flat(forest[1..], parent, offset + 1 + |below|);
      && Flat(forest, parent, offset) == [ImportStory(forest[0].fields, parent)] + below + rest
      && |Flat(forest, parent, offset)| == 1 + |below| + |rest|
  {
  }

  lemma EmptyForest(parent: Option<nat>, offset: nat)
    ensures NormalForest([]) == [] && Flat([], parent, offset) == []
  {
  }

  lemma NormalStep(forest: seq<YamlStory>)
    ensures NormalForest(forest) == if forest == [] then [] else [Normal(forest[0])] + NormalForest(forest[1..])
  {
  }

  lemma RebuildStep(list: seq<ImportStory>, parent: Option<nat>, i: nat)
    requires i < |list| && list[i].childOf == parent
    ensures Rebuild(list, parent, i) ==
      [Node(list[i].fields, Rebuild(list, Some(i), i + 1))] + Rebuild(list, parent, i + 1)
  {
  }

  lemma {:induction false} RebuildsChildren(list: seq<ImportStory>, story: YamlStory, index: nat)
    requires Placed(list, FlatChildren(story, index), Some(index), index + 1)
    requires NoChild(list, index + 1 + |FlatChildren(story, index)|, |list|, Some(index))
    ensures Node(story.fields, Rebuild(list, Some(index), index + 1)) == Normal(story)
    decreases story, 2
  {
    SkipsOthers(list, Some(index), index + 1 + |FlatChildren(story, index)|, |list|);
    if story.Nested? {
      RebuildsPlaced(list, story.children, Some(index), index + 1);
    }
  }

  /** A placed forest is a placed story, its placed children, and the placed rest. */
  lemma PlacedParts(
    list: seq<ImportStory>, first: ImportStory, below: seq<ImportStory>, after: seq<ImportStory>,
    parent: Option<nat>, offset: nat)
    requires Placed(list, [first] + below + after, parent, offset)
    requires AllWithin(below, offset, offset + 1 + |below|)
    requires Local(after, parent, offset + 1 + |below|, offset + 1 + |below| + |after|)
    ensures
      var middle := offset + 1 + |below|;
      && middle <= |list| && list[offset] == first
      && Placed(list, below, Some(offset), offset + 1) && Placed(list, after, parent, middle)
      && NoChild(list, offset + 1, middle, parent)
      && NoChild(list, middle, |list|, Some(offset))
  {
    var middle := offset + 1 + |below|;
    var end := middle + |after|;
    SplitsPlaced(list, [first] + below + after, [first], below, after, offset);
    assert list[offset] == list[offset..offset + 1][0];
    forall k | offset + 1 <= k < middle
      ensures Within(list[k].childOf, offset, middle)
    {
      assert list[k] == list[offset + 1..middle][k - offset - 1];
    }
    forall k | middle <= k < |list|
      ensures !Within(list[k].childOf, offset, middle)
    {
      if k < end {
        assert list[k] == list[middle..end][k - middle];
      } else {
        assert !Within(list[k].childOf, offset, end);
      }
    }
  }

  lemma SplitsPlaced<T>(list: seq<T>, whole: seq<T>, a: seq<T>, b: seq<T>, c: seq<T>, offset: nat)
    requires whole == a + b + c && offset + |whole| <= |list| && list[offset..offset + |whole|] == whole
    ensures list[offset..offset + |a|] == a
    ensures list[offset + |a|..offset + |a| + |b|] == b
    ensures list[offset + |a| + |b|..offset + |whole|] == c
  {
    assert forall k | offset <= k < offset + |whole| :: list[k] == list[offset..offset + |whole|][k - offset];
    assert forall k | |a| <= k < |a| + |b| :: whole[k] == b[k - |a|];
    assert forall k | |a| + |b| <= k < |whole| :: whole[k] == c[k - |a| - |b|];
  }

  /** The round trip, for any depth and branching. */
  lemma RebuildInvertsFlatten(forest: seq<YamlStory>)
    ensures Rebuild(Flat(forest, None, 0), None, 0) == NormalForest(forest)
    ensures Rebuild(Flat(forest, None, 0), None, 0) == forest <==> Canonical(forest)
  {
    var list := Flat(forest, None, 0);
    assert list[0..|list|] == list;
    RebuildsPlaced(list, forest, None, 0);
    NormalIsFixed(forest);
  }

  lemma {:induction false} NormalFlattensAlike(forest: seq<YamlStory>, parent: Option<nat>, offset: nat)
    ensures Flat(NormalForest(forest), parent, offset) == Flat(forest, parent, offset)
    decreases forest
  {
    if forest != [] {
      var story := forest[0];
      if story.Nested? {
        NormalFlattensAlike(story.children, Some(offset), offset + 1);
      }
      assert FlatChildren(Normal(story), offset) == FlatChildren(story, offset);
      NormalFlattensAlike(forest[1..], parent, offset + 1 + |FlatChildren(story, offset)|);
      assert NormalForest(forest)[1..] == NormalForest(forest[1..]);
    }
  }

  /** Two forests give the same list exactly when they differ only in empty child lists. */
  lemma FlattenIsInjective(a: seq<YamlStory>, b: seq<YamlStory>)
    ensures Flat(a, None, 0) == Flat(b, None, 0) <==> NormalForest(a) == NormalForest(b)
  {
    RebuildInvertsFlatten(a);
    RebuildInvertsFlatten(b);
    NormalFlattensAlike(a, None, 0);
    NormalFlattensAlike(b, None, 0);
  }
}

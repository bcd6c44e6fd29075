/**
  Turning a Markdown plan into importable stories: one pass over the lines with a heading
  stack, a box stack and the current wave, then the edges between waves.
 */
module DecomposeSpec {
  import opened Wrappers
  import opened Nesting
  import Waves

  /** A line by what it means here; `Plain` is a checked box, body text or a blank line. */
  datatype Line = Heading(level: Level) | Wave(number: nat) | Box(indent: nat) | Plain

  datatype Story = Story(kind: Kind, parent: Option<nat>, phase: Option<nat>, blockedBy: seq<nat>)

  // ----- What the lines say -----

  /** The wave in force after these lines: any heading that is not a wave ends it. */
  function CurrentWave(lines: seq<Line>): Option<nat> {
    if lines == [] then None
    else
      match lines[|lines| - 1]
      case Wave(n) => Some(n)
      case Heading(_) => None
      case _ => CurrentWave(lines[..|lines| - 1])
  }

  /** The items that become stories, in order. */
  function Kinds(lines: seq<Line>): seq<Kind> {
    if lines == [] then []
    else
      var before := Kinds(lines[..|lines| - 1]);
      match lines[|lines| - 1]
      case Heading(l) => before + [Head(l)]
      case Box(n) => before + [Task(n)]
      case _ => before
  }

  /** The wave of each of those stories. */
  function Phases(lines: seq<Line>): (r: Waves.Phases)
    ensures |r| == |Kinds(lines)|
  {
    if lines == [] then []
    else
      var front := lines[..|lines| - 1];
      match lines[|lines| - 1]
      case Heading(_) => Phases(front) + [None]
      case Box(_) => Phases(front) + [CurrentWave(front)]
      case _ => Phases(front)
  }

  /** Every wave that has a heading, with or without tasks. */
  function Named(lines: seq<Line>): set<nat> {
    set i | 0 <= i < |lines| && lines[i].Wave? :: lines[i].number
  }

  lemma {:induction false} WavesInForceAreNamed(lines: seq<Line>)
    ensures CurrentWave(lines).Some? ==> CurrentWave(lines).value in Named(lines)
    decreases |lines|
  {
    if lines != [] {
      WavesInForceAreNamed(lines[..|lines| - 1]);
    }
  }

  lemma NamedGrows(front: seq<Line>, line: Line)
    ensures Named(front + [line]) == Named(front) + (if line.Wave? then {line.number} else {})
  {
    var all := front + [line];
    forall w
      ensures w in Named(all) <==> w in Named(front) || (line.Wave? && w == line.number)
    {
      if w in Named(front) {
        var i :| 0 <= i < |front| && front[i].Wave? && front[i].number == w;
        assert all[i] == front[i];
      }
      if line.Wave? && w == line.number {
        assert all[|front|] == line;
      }
    }
  }

  // ----- The pass -----

  /** Pop the open boxes that are as deep as the next one or deeper. */
  method PopDeeper(boxes: seq<Entry>, indent: nat) returns (r: seq<Entry>)
    ensures r == Cut(boxes, indent)
  {
    r := boxes;
    while r != [] && r[|r| - 1].rank >= indent
      invariant Cut(r, indent) == Cut(boxes, indent)
      decreases |r|
    {
      r := r[..|r| - 1];
    }
  }

  function KindsOf(stories: seq<Story>): (r: seq<Kind>)
    ensures |r| == |stories|
  {
    seq(|stories|, i requires 0 <= i < |stories| => stories[i].kind)
  }

  function PhasesOf(stories: seq<Story>): (r: Waves.Phases)
    ensures |r| == |stories|
  {
    seq(|stories|, i requires 0 <= i < |stories| => stories[i].phase)
  }

  ghost predicate Nested(stories: seq<Story>) {
    forall i | 0 <= i < |stories| :: IsParent(KindsOf(stories), i, stories[i].parent)
  }

  lemma NestedGrows(stories: seq<Story>, kind: Kind, phase: Option<nat>)
    requires Nested(stories)
    ensures
      var next := Story(kind, Choose(Headings(KindsOf(stories)), Boxes(KindsOf(stories)), kind), phase, []);
      && Nested(stories + [next])
      && KindsOf(stories + [next]) == KindsOf(stories) + [kind]
      && PhasesOf(stories + [next]) == PhasesOf(stories) + [phase]
  {
    var kinds := KindsOf(stories);
    var next := Story(kind, Choose(Headings(kinds), Boxes(kinds), kind), phase, []);
    var all := stories + [next];
    assert KindsOf(all) == kinds + [kind];
    ChoiceIsParent(kinds, kind);
    forall i | 0 <= i < |stories|
      ensures IsParent(KindsOf(all), i, all[i].parent)
    {
      ParentsAreStable(kinds, [kind], i, stories[i].parent);
    }
  }

  lemma StacksGrow(kinds: seq<Kind>, kind: Kind)
    ensures
      var all, i := kinds + [kind], |kinds|;
      match kind
      case Head(l) => Headings(all) == Retain(Headings(kinds), l) + [Entry(l, i)] && Boxes(all) == []
      case Task(n) => Headings(all) == Headings(kinds) && Boxes(all) == Cut(Boxes(kinds), n) + [Entry(n, i)]
  {
    assert (kinds + [kind])[..|kinds|] == kinds;
    StackAscends(kinds, HeadMark);
    if kind.Head? {
      RetainIsCut(Headings(kinds), kind.level);
    }
  }

  lemma GroupedGrows(tasks: map<nat, seq<nat>>, phases: Waves.Phases, phase: Option<nat>)
    requires Waves.Grouped(tasks, phases) && (phase.Some? ==> phase.value in tasks)
    ensures
      var more := if phase.Some? then tasks[phase.value := tasks[phase.value] + [|phases|]] else tasks;
      Waves.Grouped(more, phases + [phase])
  {
    var all := phases + [phase];
    assert forall w, i | Waves.InWave(phases, i, w) :: Waves.InWave(all, i, w);
    assert forall w, i | Waves.InWave(all, i, w) :: Waves.InWave(phases, i, w) || i == |phases|;
    if phase.Some? {
      var w := phase.value;
      assert forall j | 0 <= j < |tasks[w]| :: tasks[w][j] in tasks[w] && Waves.InWave(phases, tasks[w][j], w);
    }
  }

  lemma GroupedNames(tasks: map<nat, seq<nat>>, phases: Waves.Phases, w: nat)
    requires Waves.Grouped(tasks, phases)
    ensures Waves.Grouped(if w in tasks then tasks else tasks[w := []], phases)
  {
    assert w !in tasks ==> forall i: nat :: !Waves.InWave(phases, i, w);
  }

  /** The working state of the pass. */
  datatype Scan = Scan(
    stories: seq<Story>, headings: seq<Entry>, boxes: seq<Entry>, wave: Option<nat>, tasks: map<nat, seq<nat>>)

  ghost predicate Agrees(s: Scan, lines: seq<Line>) {
    && Nested(s.stories) && KindsOf(s.stories) == Kinds(lines) && PhasesOf(s.stories) == Phases(lines)
    && s.headings == Headings(Kinds(lines)) && s.boxes == Boxes(Kinds(lines))
    && s.wave == CurrentWave(lines) && s.tasks.Keys == Named(lines)
    && Waves.Grouped(s.tasks, Phases(lines))
    && forall i | 0 <= i < |s.stories| :: s.stories[i].blockedBy == []
  }

  method TakeHeading(s: Scan, level: Level, ghost lines: seq<Line>) returns (r: Scan)
    requires Agrees(s, lines)
    ensures Agrees(r, lines + [Heading(level)])
  {
    hide Nested, Headings, Boxes, Waves.Grouped, Find, Retain, KindsOf, PhasesOf, Cut, Named;
    ghost var all := lines + [Heading(level)];
    assert all[..|lines|] == lines;
    NestedGrows(s.stories, Head(level), None);
    StacksGrow(Kinds(lines), Head(level));
    GroupedGrows(s.tasks, Phases(lines), None);
    NamedGrows(lines, Heading(level));
    var parent, open := None, [];
    if level == 1 {
      TopLevel(Kinds(lines));
    } else {
      parent, open := Find(s.headings, level - 1), Retain(s.headings, level);
    }
    r := s.(stories := s.stories + [Story(Head(level), parent, None, [])],
            headings := open + [Entry(level, |s.stories|)],
            boxes := [],
            wave := None);
  }

  method TakeBox(s: Scan, indent: nat, ghost lines: seq<Line>) returns (r: Scan)
    requires Agrees(s, lines)
    ensures Agrees(r, lines + [Box(indent)])
  {
    hide Nested, Headings, Boxes, Waves.Grouped, KindsOf, PhasesOf, Cut, Named;
    ghost var all := lines + [Box(indent)];
    assert all[..|lines|] == lines;
    NestedGrows(s.stories, Task(indent), s.wave);
    StacksGrow(Kinds(lines), Task(indent));
    WavesInForceAreNamed(lines);
    GroupedGrows(s.tasks, Phases(lines), s.wave);
    NamedGrows(lines, Box(indent));
    var index := |s.stories|;
    var boxes := PopDeeper(s.boxes, indent);
    var parent := None;
    if boxes != [] {
      parent := Some(boxes[|boxes| - 1].index);
    } else if s.headings != [] {
      parent := Some(s.headings[|s.headings| - 1].index);
    }
    var tasks := s.tasks;
    if s.wave.Some? {
      tasks := tasks[s.wave.value := tasks[s.wave.value] + [index]];
    }
    r := s.(stories := s.stories + [Story(Task(indent), parent, s.wave, [])],
            boxes := boxes + [Entry(indent, index)],
            tasks := tasks);
  }

  method TakeWave(s: Scan, number: nat, ghost lines: seq<Line>) returns (r: Scan)
    requires Agrees(s, lines)
    ensures Agrees(r, lines + [Wave(number)])
  {
    hide Nested, Headings, Boxes, Waves.Grouped;
    ghost var all := lines + [Wave(number)];
    assert all[..|lines|] == lines;
    NamedGrows(lines, Wave(number));
    GroupedNames(s.tasks, Phases(lines), number);
    r := s.(wave := Some(number), tasks := if number in s.tasks then s.tasks else s.tasks[number := []]);
  }

  /** The pass over all lines. */
  method ScanLines(lines: seq<Line>) returns (s: Scan)
    ensures Agrees(s, lines)
  {
    s := Scan([], [], [], None, map[]);
    for i := 0 to |lines|
      invariant Agrees(s, lines[..i])
    {
      assert lines[..i + 1] == lines[..i] + [lines[i]];
      match lines[i] {
        case Heading(level) => s := TakeHeading(s, level, lines[..i]);
        case Box(indent) => s := TakeBox(s, indent, lines[..i]);
        case Wave(number) => s := TakeWave(s, number, lines[..i]);
        case Plain => PlainChanges(s, lines[..i]);
      }
    }
    assert lines[..|lines|] == lines;
  }

  lemma PlainChanges(s: Scan, lines: seq<Line>)
    requires Agrees(s, lines)
    ensures Agrees(s, lines + [Plain])
  {
    hide Nested, Headings, Boxes, Waves.Grouped;
    assert (lines + [Plain])[..|lines|] == lines;
    NamedGrows(lines, Plain);
  }

  /**
    The whole conversion.  Stories are the headings and unchecked boxes in order; each has the
    parent that encloses it, the wave in force where it stands, and is blocked by exactly the
    tasks of the wave named just before its own, in order.
   */
  method Decompose(lines: seq<Line>) returns (stories: seq<Story>)
    ensures KindsOf(stories) == Kinds(lines) && PhasesOf(stories) == Phases(lines)
    ensures |stories| == |Origins(lines)| && forall i | 0 <= i < |stories| :: Origins(lines)[i] < |lines|
    ensures forall i | 0 <= i < |stories| ::
      match lines[Origins(lines)[i]]
      case Heading(l) => stories[i].kind == Head(l)
      case Box(n) => stories[i].kind == Task(n)
      case _ => false
    ensures forall i, w: nat | 0 <= i < |stories| ::
      stories[i].phase == Some(w) <==>
        lines[Origins(lines)[i]].Box? && InForce(lines, Origins(lines)[i], w)
    ensures forall i | 0 <= i < |stories| :: IsParent(Kinds(lines), i, stories[i].parent)
    ensures forall i | 0 <= i < |stories| ::
      && Waves.Ascending(stories[i].blockedBy)
      && forall p :: p in stories[i].blockedBy <==> Waves.Edge(Named(lines), Phases(lines), i, p)
  {
    hide Headings, Boxes, Waves.Grouped, Waves.Edge, Waves.Ascending, IsParent, Kinds, Phases, Named, Origins, InForce;
    var s := ScanLines(lines);
    var blocked := Waves.AddEdges(s.tasks, PhasesOf(s.stories));
    stories := seq(|s.stories|, i requires 0 <= i < |s.stories| && |blocked| == |s.stories| =>
      s.stories[i].(blockedBy := blocked[i]));
    assert KindsOf(stories) == KindsOf(s.stories);
    assert PhasesOf(stories) == PhasesOf(s.stories);
    StoriesSay(lines, stories);
  }

  /** Each story says what its line and the text before it say. */
  lemma StoriesSay(lines: seq<Line>, stories: seq<Story>)
    requires KindsOf(stories) == Kinds(lines) && PhasesOf(stories) == Phases(lines)
    ensures |stories| == |Origins(lines)| && forall i | 0 <= i < |stories| :: Origins(lines)[i] < |lines|
    ensures forall i | 0 <= i < |stories| ::
      match lines[Origins(lines)[i]]
      case Heading(l) => stories[i].kind == Head(l)
      case Box(n) => stories[i].kind == Task(n)
      case _ => false
    ensures forall i, w: nat | 0 <= i < |stories| ::
      stories[i].phase == Some(w) <==>
        lines[Origins(lines)[i]].Box? && InForce(lines, Origins(lines)[i], w)
  {
    assert forall i | 0 <= i < |stories| :: KindsOf(stories)[i] == stories[i].kind;
    assert forall i | 0 <= i < |stories| :: PhasesOf(stories)[i] == stories[i].phase;
    hide InForce, Kinds, Phases, Origins, CurrentWave, KindsOf, PhasesOf;
    forall i | 0 <= i < |stories|
      ensures Origins(lines)[i] < |lines|
      ensures match lines[Origins(lines)[i]]
        case Heading(l) => stories[i].kind == Head(l)
        case Box(n) => stories[i].kind == Task(n)
        case _ => false
    {
      OriginsMean(lines, i);
    }
    forall i, w: nat | 0 <= i < |stories|
      ensures stories[i].phase == Some(w) <==>
        lines[Origins(lines)[i]].Box? && InForce(lines, Origins(lines)[i], w)
    {
      WaveOfStory(lines, i, w);
    }
  }

  /** Every parent comes before its child, so the hierarchy is a forest. */
  lemma ParentsComeFirst(kinds: seq<Kind>, parents: seq<Option<nat>>)
    requires |parents| == |kinds| && forall i | 0 <= i < |parents| :: IsParent(kinds, i, parents[i])
    ensures Forest(parents)
  {
    forall i | 0 <= i < |parents| && parents[i].Some?
      ensures parents[i].value < i
    {
      assert Encloses(kinds, parents[i].value, i);
    }
  }

  /** The waves of a plan, in any textual order, never make a task wait for its own wave. */
  lemma PlanIsAcyclic(lines: seq<Line>, c: nat, d: nat)
    requires c < |Phases(lines)| && d < |Phases(lines)| && Phases(lines)[c] == Phases(lines)[d]
    ensures !Waves.Reaches(Named(lines), Phases(lines), c, d)
  {
    Waves.WavesAreAcyclic(Named(lines), Phases(lines), c, d);
  }

  lemma {:induction false} PhasesAreNamed(lines: seq<Line>)
    ensures forall i | 0 <= i < |Phases(lines)| :: Phases(lines)[i].Some? ==> Phases(lines)[i].value in Named(lines)
    decreases |lines|
  {
    if lines != [] {
      var front, last := lines[..|lines| - 1], lines[|lines| - 1];
      PhasesAreNamed(front);
      WavesInForceAreNamed(front);
      assert lines == front + [last];
      NamedGrows(front, last);
    }
  }

  /** In a plan, later tasks wait for earlier ones exactly where no named wave between is empty. */
  lemma PlanIsOrdered(lines: seq<Line>, c: nat, d: nat, a: nat, b: nat)
    requires Waves.InWave(Phases(lines), c, b) && Waves.InWave(Phases(lines), d, a) && a < b
    ensures Waves.Reaches(Named(lines), Phases(lines), c, d) <==> Waves.NoGap(Named(lines), Phases(lines), a, b)
  {
    PhasesAreNamed(lines);
    Waves.LaterWaitsForEarlier(Named(lines), Phases(lines), c, d, a, b);
  }

  // ----- Parents and waves -----

  /** The line of each story. */
  function Origins(lines: seq<Line>): (r: seq<nat>)
    ensures |r| == |Kinds(lines)| == |Phases(lines)|
  {
    if lines == [] then []
    else
      var front := lines[..|lines| - 1];
      match lines[|lines| - 1]
      case Heading(_) => Origins(front) + [|front|]
      case Box(_) => Origins(front) + [|front|]
      case _ => Origins(front)
  }

  /** Stories come in the order of their lines, and each says what its line says. */
  lemma {:induction false} OriginsAscend(lines: seq<Line>)
    ensures var o := Origins(lines);
      && (forall i | 0 <= i < |o| :: o[i] < |lines|)
      && (forall i, j | 0 <= i < j < |o| :: o[i] < o[j])
    decreases |lines|
  {
    if lines != [] {
      var front := lines[..|lines| - 1];
      OriginsAscend(front);
      var o := Origins(lines);
      assert o == Origins(front) || o == Origins(front) + [|front|];
      assert forall i | 0 <= i < |Origins(front)| :: o[i] == Origins(front)[i];
    }
  }

  lemma {:induction false} OriginsMean(lines: seq<Line>, i: nat)
    requires i < |Origins(lines)|
    ensures Origins(lines)[i] < |lines|
    ensures var o := Origins(lines)[i];
      match Kinds(lines)[i]
      case Head(l) => lines[o] == Heading(l) && Phases(lines)[i] == None
      case Task(n) => lines[o] == Box(n) && Phases(lines)[i] == CurrentWave(lines[..o])
    decreases |lines|
  {
    var front := lines[..|lines| - 1];
    if i < |Origins(front)| {
      OriginsMean(front, i);
      assert front[..Origins(front)[i]] == lines[..Origins(front)[i]];
    }
  }

  /** Every heading and every unchecked box has its story. */
  lemma {:induction false} LinesAreStories(lines: seq<Line>, k: nat) returns (i: nat)
    requires k < |lines| && (lines[k].Heading? || lines[k].Box?)
    ensures i < |Origins(lines)| && Origins(lines)[i] == k
    decreases |lines|
  {
    if k == |lines| - 1 {
      i := |Origins(lines)| - 1;
    } else {
      i := LinesAreStories(lines[..|lines| - 1], k);
    }
  }

  /** The wave named last before line `o`, with no other heading since. */
  ghost predicate InForce(lines: seq<Line>, o: nat, w: nat)
    requires o <= |lines|
  {
    exists k :: 0 <= k < o && lines[k] == Wave(w) && NoHeadingIn(lines, k + 1, o)
  }

  predicate NoHeadingIn(lines: seq<Line>, lo: nat, hi: nat)
    requires hi <= |lines|
  {
    forall j | lo <= j < hi :: !lines[j].Wave? && !lines[j].Heading?
  }

  lemma {:induction false} CurrentWaveIsInForce(lines: seq<Line>, o: nat, w: nat)
    requires o <= |lines|
    ensures CurrentWave(lines[..o]) == Some(w) <==> InForce(lines, o, w)
    decreases o
  {
    if o > 0 {
      assert lines[..o][..o - 1] == lines[..o - 1] && lines[..o][o - 1] == lines[o - 1];
      match lines[o - 1] {
        case Wave(n) =>
          assert lines[o - 1] == Wave(n) && NoHeadingIn(lines, o, o);
          forall k | 0 <= k < o - 1 && lines[k] == Wave(w) ensures !NoHeadingIn(lines, k + 1, o) {
            assert k + 1 <= o - 1 < o;
          }
        case Heading(_) =>
          forall k | 0 <= k < o && lines[k] == Wave(w) ensures !NoHeadingIn(lines, k + 1, o) {
            assert k + 1 <= o - 1 < o;
          }
        case _ =>
          CurrentWaveIsInForce(lines, o - 1, w);
          SameForce(lines, o, w);
      }
    }
  }

  lemma SameForce(lines: seq<Line>, o: nat, w: nat)
    requires 0 < o <= |lines| && !lines[o - 1].Wave? && !lines[o - 1].Heading?
    ensures InForce(lines, o, w) <==> InForce(lines, o - 1, w)
  {
    if InForce(lines, o, w) {
      var k :| 0 <= k < o && lines[k] == Wave(w) && NoHeadingIn(lines, k + 1, o);
      assert NoHeadingIn(lines, k + 1, o - 1);
    }
    if InForce(lines, o - 1, w) {
      var k :| 0 <= k < o - 1 && lines[k] == Wave(w) && NoHeadingIn(lines, k + 1, o - 1);
      assert NoHeadingIn(lines, k + 1, o);
    }
  }

  /** A story is in a wave exactly if it is a box and that wave is in force at its line. */
  lemma WaveOfStory(lines: seq<Line>, i: nat, w: nat)
    requires i < |Origins(lines)|
    ensures Origins(lines)[i] < |lines|
    ensures Phases(lines)[i] == Some(w) <==> lines[Origins(lines)[i]].Box? && InForce(lines, Origins(lines)[i], w)
  {
    OriginsMean(lines, i);
    CurrentWaveIsInForce(lines, Origins(lines)[i], w);
    hide InForce, CurrentWave, Phases, Kinds, Origins;
  }

  lemma {:induction false} WaveHolds(lines: seq<Line>, a: nat, b: nat)
    requires a <= b <= |lines| && forall k | a <= k < b :: !lines[k].Wave? && !lines[k].Heading?
    ensures CurrentWave(lines[..b]) == CurrentWave(lines[..a])
    decreases b
  {
    if a < b {
      WaveHolds(lines, a, b - 1);
      assert lines[..b][..b - 1] == lines[..b - 1];
    }
  }

  /**
    A story waits for its own parent, through whatever chain, exactly when the parent is a box of
    an earlier wave and no wave named between the two is empty.
   */
  lemma ChildWaitsIff(lines: seq<Line>, c: nat, p: nat)
    requires c < |Kinds(lines)| && IsParent(Kinds(lines), c, Some(p))
    ensures p < c
    ensures Waves.Reaches(Named(lines), Phases(lines), c, p) <==>
      && Kinds(lines)[p].Task? && Phases(lines)[p].Some? && Phases(lines)[c].Some?
      && Phases(lines)[p].value < Phases(lines)[c].value
      && Waves.NoGap(Named(lines), Phases(lines), Phases(lines)[p].value, Phases(lines)[c].value)
  {
    assert Encloses(Kinds(lines), p, c);
    OriginsMean(lines, p);
    var phases := Phases(lines);
    forall path | Waves.Connects(Named(lines), phases, path, c, p)
      ensures phases[p].Some? && phases[c].Some? && phases[p].value < phases[c].value
    {
      Waves.PathsDescend(Named(lines), phases, path, c, p);
    }
    if phases[p].Some? && phases[c].Some? && phases[p].value < phases[c].value {
      PlanIsOrdered(lines, c, p, phases[p].value, phases[c].value);
    }
  }

  /** Without a wave heading between the two lines, no story waits for its parent. */
  lemma NoWaveBetweenNoWait(lines: seq<Line>, c: nat, p: nat)
    requires c < |Kinds(lines)| && IsParent(Kinds(lines), c, Some(p)) && p < |Origins(lines)|
    requires forall k | Origins(lines)[p] < k < Origins(lines)[c] && k < |lines| :: !lines[k].Wave?
    ensures !Waves.Reaches(Named(lines), Phases(lines), c, p)
  {
    hide Kinds, Phases, Named, Origins, CurrentWave, IsParent, Waves.Reaches, Waves.NoGap;
    ChildWaitsIff(lines, c, p);
    OriginsMean(lines, p);
    OriginsMean(lines, c);
    var o := Origins(lines);
    if Kinds(lines)[p].Task? {
      NoHeadingBetween(lines, c, p);
      WaveHolds(lines, o[p], o[c]);
    }
  }

  /** Between a box and a box below it there is no heading. */
  lemma NoHeadingBetween(lines: seq<Line>, c: nat, p: nat)
    requires c < |Kinds(lines)| && IsParent(Kinds(lines), c, Some(p)) && p < c && Kinds(lines)[p].Task?
    ensures Kinds(lines)[c].Task? && Origins(lines)[p] < Origins(lines)[c] < |lines|
    ensures forall k | Origins(lines)[p] <= k < Origins(lines)[c] :: !lines[k].Heading?
    ensures lines[Origins(lines)[p]].Box?
  {
    TasksBetween(Kinds(lines), c, p);
    hide Kinds, Phases, Origins, CurrentWave, IsParent;
    var o := Origins(lines);
    OriginsAscend(lines);
    OriginsMean(lines, p);
    forall k | o[p] <= k < o[c] ensures !lines[k].Heading? {
      if lines[k].Heading? {
        var i := LinesAreStories(lines, k);
        OriginsMean(lines, i);
        OriginsOrder(lines, p, i, c);
      }
    }
  }

  lemma TasksBetween(kinds: seq<Kind>, c: nat, p: nat)
    requires c < |kinds| && IsParent(kinds, c, Some(p)) && p < c && kinds[p].Task?
    ensures forall i | p <= i <= c :: kinds[i].Task?
  {
    assert Encloses(kinds, p, c);
  }

  lemma OriginsOrder(lines: seq<Line>, p: nat, i: nat, c: nat)
    requires p < |Origins(lines)| && i < |Origins(lines)| && c < |Origins(lines)|
    requires Origins(lines)[p] <= Origins(lines)[i] < Origins(lines)[c]
    ensures p <= i < c
  {
    hide *;
    OriginsAscend(lines);
  }

  lemma FirstTask()
    ensures Kinds([Wave(1), Box(0)]) == [Task(0)] && Phases([Wave(1), Box(0)]) == [Some(1)]
  {
    var one: seq<Line>, two := [Wave(1)], [Wave(1), Box(0)];
    assert two[..1] == one && one[..0] == [];
    assert Kinds(one) == [] && Phases(one) == [];
  }

  /** The cut is real: with an empty wave in between, a later task waits for nothing earlier. */
  lemma EmptyWaveCuts()
    ensures
      var lines := [Wave(1), Box(0), Wave(2), Wave(3), Box(0)];
      !Waves.Reaches(Named(lines), Phases(lines), 1, 0)
  {
    var lines := [Wave(1), Box(0), Wave(2), Wave(3), Box(0)];
    FirstTask();
    var one, two := [Wave(1), Box(0)], [Wave(1), Box(0), Wave(2)];
    var three := two + [Wave(3)];
    assert two[..2] == one && three[..3] == two && lines[..4] == three;
    assert Phases(two) == Phases(three) == [Some(1)];
    assert Phases(lines) == [Some(1), Some(3)];
    assert lines[2].Wave? && 2 in Named(lines);
    PlanIsOrdered(lines, 1, 0, 1, 3);
    assert forall i: nat :: !Waves.InWave(Phases(lines), i, 2);
  }

  /** Nesting ignores waves: an indented task can be blocked by its own parent. */
  lemma ChildMayWaitForParent()
    ensures
      var lines := [Wave(1), Box(0), Wave(2), Box(2)];
      && |Kinds(lines)| == 2 && IsParent(Kinds(lines), 1, Some(0))
      && Waves.Edge(Named(lines), Phases(lines), 1, 0)
  {
    var lines := [Wave(1), Box(0), Wave(2), Box(2)];
    FirstTask();
    var one, two := [Wave(1), Box(0)], [Wave(1), Box(0), Wave(2)];
    assert two[..2] == one && lines[..3] == two;
    assert Kinds(two) == [Task(0)] && Phases(two) == [Some(1)];
    assert Kinds(lines) == [Task(0), Task(2)];
    assert Phases(lines) == [Some(1), Some(2)];
    assert lines[0].Wave? && lines[2].Wave?;
    assert Named(lines) == {1, 2};
    EnclosingIsUnique(Kinds(lines), 0, 1);
  }
}

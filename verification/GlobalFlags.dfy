/**
  Splitting the global flags out of a command line, before the verb is read.
 */
module GlobalFlags {
  import opened Wrappers

  type Arg = string

  datatype Flags = Flags(
    json: bool, quiet: bool, noHooks: bool,
    storePath: Option<string>, project: Option<string>, deadline: Option<nat>)

  const DEFAULT := Flags(false, false, false, None, None, None)

  /** A flag that a verb declares. */
  datatype Declared = Declared(name: string, takesValue: bool)

  /** The declared flags of `set`, by the token after it, and the reading of whole seconds. */
  datatype Grammar = Grammar(declared: string -> seq<Declared>, seconds: string -> Option<nat>)

  predicate StartsWith(arg: string, prefix: string) {
    |prefix| <= |arg| && arg[..|prefix|] == prefix
  }

  /** The argument without any leading copies of a prefix. */
  function TrimStart(arg: string, prefix: string): (r: string)
    requires prefix != ""
    ensures !StartsWith(r, prefix) && exists n: nat :: Copies(arg, prefix, n, r)
    decreases |arg|
  {
    if StartsWith(arg, prefix) then
      var r := TrimStart(arg[|prefix|..], prefix);
      assert exists n: nat :: Copies(arg, prefix, n, r) by {
        var n: nat :| Copies(arg[|prefix|..], prefix, n, r);
        OneMoreCopy(arg, prefix, n, r);
      }
      r
    else
      assert Copies(arg, prefix, 0, arg);
      arg
  }

  function Times(s: string, n: nat): string {
    if n == 0 then "" else s + Times(s, n - 1)
  }

  /** The argument is so many copies of the prefix, and then the rest. */
  predicate Copies(arg: string, prefix: string, n: nat, rest: string) {
    arg == Times(prefix, n) + rest
  }

  lemma OneMoreCopy(arg: string, prefix: string, n: nat, rest: string)
    requires StartsWith(arg, prefix) && Copies(arg[|prefix|..], prefix, n, rest)
    ensures Copies(arg, prefix, n + 1, rest)
  {
    assert arg == prefix + arg[|prefix|..];
  }

  // ----- Where an option may stand in `set <id> ...` -----

  function Find(declared: seq<Declared>, name: string): (r: Option<Declared>)
    ensures r.None? <==> forall k | 0 <= k < |declared| :: declared[k].name != name
    ensures r.Some? ==> exists k ::
      0 <= k < |declared| && declared[k] == r.value && r.value.name == name && FirstNamed(declared, k)
  {
    if declared == [] then None
    else if declared[0].name == name then Some(declared[0])
    else Find(declared[1..], name)
  }

  /** No earlier declaration has the same name. */
  predicate FirstNamed(declared: seq<Declared>, k: nat)
    requires k < |declared|
  {
    forall j | 0 <= j < k :: declared[j].name != declared[k].name
  }

  /** From `index` on, the arguments are declared options, each with its value. */
  predicate WholeOptions(args: seq<Arg>, declared: seq<Declared>, index: nat)
    decreases |args| - index
  {
    if index >= |args| then index == |args|
    else
      && StartsWith(args[index], "--")
      && var flag := Find(declared, args[index][2..]);
         flag.Some? && WholeOptions(args, declared, index + if flag.value.takesValue then 2 else 1)
  }

  /** The positions of the options from `index` on: each is declared, and the next follows it and its value. */
  predicate Options(args: seq<Arg>, declared: seq<Declared>, starts: seq<nat>, index: nat) {
    && |starts| > 0 && starts[0] == index && starts[|starts| - 1] == |args|
    && forall i | 0 <= i < |starts| - 1 :: OptionAt(args, declared, starts[i], starts[i + 1])
  }

  predicate OptionAt(args: seq<Arg>, declared: seq<Declared>, p: nat, next: nat) {
    && p < |args| && StartsWith(args[p], "--") && Find(declared, args[p][2..]).Some?
    && next == p + if Find(declared, args[p][2..]).value.takesValue then 2 else 1
  }

  /** The scan finds whole options exactly if the arguments can be cut into them. */
  lemma {:induction false} WholeOptionsAreCut(args: seq<Arg>, declared: seq<Declared>, index: nat)
    ensures WholeOptions(args, declared, index) <==> exists starts :: Options(args, declared, starts, index)
    decreases |args| - index
  {
    if WholeOptions(args, declared, index) {
      var _ := CutOptions(args, declared, index);
    }
    forall starts | Options(args, declared, starts, index) ensures WholeOptions(args, declared, index) {
      CutIsWhole(args, declared, starts, index);
    }
  }

  lemma {:induction false} CutOptions(args: seq<Arg>, declared: seq<Declared>, index: nat) returns (starts: seq<nat>)
    requires WholeOptions(args, declared, index)
    ensures Options(args, declared, starts, index)
    decreases |args| - index
  {
    if index >= |args| {
      starts := [index];
    } else {
      var next := index + if Find(declared, args[index][2..]).value.takesValue then 2 else 1;
      var rest := CutOptions(args, declared, next);
      starts := [index] + rest;
      assert OptionAt(args, declared, index, next);
      forall i | 0 <= i < |starts| - 1 ensures OptionAt(args, declared, starts[i], starts[i + 1]) {
        assert i > 0 ==> OptionAt(args, declared, rest[i - 1], rest[i]);
      }
    }
  }

  lemma {:induction false} CutIsWhole(args: seq<Arg>, declared: seq<Declared>, starts: seq<nat>, index: nat)
    requires Options(args, declared, starts, index)
    ensures WholeOptions(args, declared, index)
    decreases |starts|
  {
    if |starts| > 1 {
      var rest := starts[1..];
      assert OptionAt(args, declared, starts[0], starts[1]);
      forall i | 0 <= i < |rest| - 1 ensures OptionAt(args, declared, rest[i], rest[i + 1]) {
        assert OptionAt(args, declared, starts[i + 1], starts[i + 2]);
      }
      CutIsWhole(args, declared, rest, starts[1]);
    }
  }

  predicate InSetPosition(kept: seq<Arg>, g: Grammar) {
    |kept| >= 2 && kept[0] == "set" && WholeOptions(kept, g.declared(kept[1]), 2)
  }

  method SetOptionPosition(args: seq<Arg>, g: Grammar) returns (r: bool)
    ensures r == InSetPosition(args, g)
  {
    if |args| < 2 || args[0] != "set" {
      return false;
    }
    var declared, index := g.declared(args[1]), 2;
    while index < |args|
      invariant 2 <= index && WholeOptions(args, declared, index) == InSetPosition(args, g)
      decreases |args| - index
    {
      if !StartsWith(args[index], "--") {
        return false;
      }
      var flag := Find(declared, args[index][2..]);
      if flag.None? {
        return false;
      }
      index := index + if flag.value.takesValue then 2 else 1;
    }
    return index == |args|;
  }

  // ----- One token -----

  datatype Scan = Scan(flags: Flags, kept: seq<Arg>, explicitInput: bool, legacyInput: bool)

  datatype Step = Stop | Bad(message: string) | Go(scan: Scan, width: nat)

  function Next(args: seq<Arg>, i: nat): Option<Arg> {
    if i + 1 < |args| then Some(args[i + 1]) else None
  }

  /** Remove a token, or a token and its value, and set the flags. */
  function Take(s: Scan, flags: Flags, width: nat): Step {
    Go(s.(flags := flags), width)
  }

  /** What the token at `i` does; `position` says whether it stands where `set` takes an option. */
  function StepAt(args: seq<Arg>, i: nat, s: Scan, position: bool, g: Grammar): Step
    requires i < |args|
  {
    var arg, next, f := args[i], Next(args, i), s.flags;
    if arg == "--" then Stop
    else if arg == "--input-json" && position then
      if next.Some? then Go(s.(kept := s.kept + [arg, next.value], explicitInput := true), 2)
      else Go(s.(kept := s.kept + [arg], explicitInput := true), 1)
    else if arg == "--json" then
      var legacy := s.legacyInput || (position && next.Some? && !StartsWith(next.value, "-"));
      if next.Some? && StartsWith(next.value, "{") then
        Go(s.(kept := s.kept + [arg, next.value], legacyInput := legacy), 2)
      else Go(s.(flags := f.(json := true), legacyInput := legacy), 1)
    else if arg == "--quiet" then Take(s, f.(quiet := true), 1)
    else if arg == "--no-hooks" then Take(s, f.(noHooks := true), 1)
    else if arg == "--store-path" then
      if next.None? || next.value == "" then Bad("--store-path needs the path of a store file")
      else Take(s, f.(storePath := next), 2)
    else if StartsWith(arg, "--store-path=") then
      var value := TrimStart(arg, "--store-path=");
      if value == "" then Bad("--store-path= was given no path") else Take(s, f.(storePath := Some(value)), 1)
    else if arg == "--project" then
      if next.None? || next.value == "" then Bad("--project needs the slug of a project")
      else Take(s, f.(project := next), 2)
    else if StartsWith(arg, "--project=") then
      var value := TrimStart(arg, "--project=");
      if value == "" then Bad("--project= was given no slug") else Take(s, f.(project := Some(value)), 1)
    else if arg == "--deadline" then
      if next.None? then Bad("--deadline needs a number of seconds")
      else
        var seconds := g.seconds(next.value);
        if seconds.None? then Bad("not a whole number of seconds") else Take(s, f.(deadline := seconds), 2)
    else if StartsWith(arg, "--deadline=") then
      var seconds := g.seconds(TrimStart(arg, "--deadline="));
      if seconds.None? then Bad("not a whole number of seconds") else Take(s, f.(deadline := seconds), 1)
    else Go(s.(kept := s.kept + [arg]), 1)
  }

  function StepHere(args: seq<Arg>, i: nat, s: Scan, g: Grammar): (r: Step)
    requires i < |args|
    ensures r.Go? ==> 1 <= r.width <= 2 && i + r.width <= |args|
  {
    StepAt(args, i, s, InSetPosition(s.kept, g), g)
  }

  // ----- The scan -----

  function Run(args: seq<Arg>, i: nat, s: Scan, g: Grammar): Result<Scan, string>
    requires i <= |args|
    decreases |args| - i
  {
    if i == |args| then Ok(s)
    else
      match StepHere(args, i, s, g)
      case Stop => Ok(s.(kept := s.kept + args[i..]))
      case Bad(message) => Err(message)
      case Go(s', width) => Run(args, i + width, s', g)
  }

  const START := Scan(DEFAULT, [], false, false)

  /** The global flags of a line, and the line without them. */
  datatype Separated = Separated(flags: Flags, rest: seq<Arg>)

  function Split(args: seq<Arg>, g: Grammar): Result<Separated, string> {
    var r := Run(args, 0, START, g);
    if r.Err? then Err(r.error)
    else if r.value.explicitInput && r.value.legacyInput then Err("choose one JSON input")
    else Ok(Separated(r.value.flags, r.value.kept))
  }

  method SplitGlobalFlags(args: seq<Arg>, g: Grammar) returns (r: Result<Separated, string>)
    ensures r == Split(args, g)
  {
    hide StepAt, InSetPosition;
    var s, i := START, 0;
    while i < |args|
      invariant i <= |args| && Run(args, i, s, g) == Run(args, 0, START, g)
      decreases |args| - i
    {
      var position := SetOptionPosition(s.kept, g);
      assert StepHere(args, i, s, g) == StepAt(args, i, s, position, g);
      match StepAt(args, i, s, position, g) {
        case Stop =>
          s, i := s.(kept := s.kept + args[i..]), |args|;
        case Bad(message) =>
          return Err(message);
        case Go(next, width) =>
          s, i := next, i + width;
      }
    }
    if s.explicitInput && s.legacyInput {
      return Err("choose one JSON input");
    }
    return Ok(Separated(s.flags, s.kept));
  }

  // ----- The remainder is a subsequence -----

  /** The kept arguments stand at these positions of the line, in order and before `i`. */
  ghost predicate Picks(at: seq<nat>, kept: seq<Arg>, args: seq<Arg>, i: nat)
    requires i <= |args|
  {
    && |at| == |kept| && (forall k | 0 <= k < |at| :: at[k] < i && args[at[k]] == kept[k])
    && (forall j, k | 0 <= j < k < |at| :: at[j] < at[k])
  }

  /** A step keeps nothing, its token, or its token and the next one. */
  lemma StepShape(args: seq<Arg>, i: nat, s: Scan, g: Grammar)
    requires i < |args| && StepHere(args, i, s, g).Go?
    ensures
      var s', width := StepHere(args, i, s, g).scan, StepHere(args, i, s, g).width;
      || s'.kept == s.kept
      || (s'.kept == s.kept + [args[i]] && width == 1)
      || (width == 2 && s'.kept == s.kept + [args[i], args[i + 1]])
  {
    hide StartsWith, TrimStart, WholeOptions;
  }

  lemma PicksMore(at: seq<nat>, kept: seq<Arg>, args: seq<Arg>, i: nat, more: seq<Arg>, j: nat)
    requires i + |more| <= j <= |args| && more == args[i..i + |more|] && Picks(at, kept, args, i)
    ensures exists all :: Picks(all, kept + more, args, j)
  {
    var all := at + seq(|more|, k => i + k);
    assert Picks(all, kept + more, args, j);
  }

  lemma {:induction false} RunPicks(args: seq<Arg>, i: nat, s: Scan, g: Grammar, at: seq<nat>)
    requires i <= |args| && Picks(at, s.kept, args, i) && Run(args, i, s, g).Ok?
    ensures exists all :: Picks(all, Run(args, i, s, g).value.kept, args, |args|)
    decreases |args| - i
  {
    hide StepHere, Picks;
    if i < |args| {
      var step := StepHere(args, i, s, g);
      if step.Stop? {
        PicksMore(at, s.kept, args, i, args[i..], |args|);
      } else {
        StepShape(args, i, s, g);
        var s', width := step.scan, step.width;
        var added := args[i..i + |s'.kept| - |s.kept|];
        assert s'.kept == s.kept + added;
        PicksMore(at, s.kept, args, i, added, i + width);
        var more :| Picks(more, s'.kept, args, i + width);
        RunPicks(args, i + width, s', g, more);
      }
    }
  }

  /** What is left of a command line is a subsequence of it. */
  lemma RestIsSubsequence(args: seq<Arg>, g: Grammar)
    requires Split(args, g).Ok?
    ensures exists at :: Picks(at, Split(args, g).value.rest, args, |args|)
  {
    assert Picks([], [], args, 0);
    RunPicks(args, 0, START, g, []);
  }

  // ----- The terminator -----

  /** Where the scan meets a `--` that is no value. */
  function StopsAt(args: seq<Arg>, i: nat, s: Scan, g: Grammar): Option<nat>
    requires i <= |args|
    decreases |args| - i
  {
    if i == |args| then None
    else
      match StepHere(args, i, s, g)
      case Stop => Some(i)
      case Bad(_) => None
      case Go(s', width) => StopsAt(args, i + width, s', g)
  }

  /** A token that does not reach beyond a `--` acts as if the line ended there. */
  lemma StepIgnoresTerminator(args: seq<Arg>, k: nat, i: nat, s: Scan, g: Grammar)
    requires i < k < |args| && args[k] == "--"
    requires var step := StepHere(args, i, s, g); step.Go? && i + step.width <= k
    ensures StepHere(args[..k], i, s, g) == StepHere(args, i, s, g)
  {
    assert args[..k][i] == args[i];
    assert i + 1 < k ==> Next(args[..k], i) == Next(args, i);
    assert "--"[..1] == "-" && "-" != "{";
  }

  lemma StopIsDashes(args: seq<Arg>, i: nat, s: Scan, g: Grammar)
    requires i < |args|
    ensures StepHere(args, i, s, g).Stop? <==> args[i] == "--"
  {
    hide StartsWith, TrimStart;
  }

  lemma {:induction false} StopIsTerminator(args: seq<Arg>, i: nat, s: Scan, g: Grammar)
    requires i <= |args| && StopsAt(args, i, s, g).Some?
    ensures
      var k := StopsAt(args, i, s, g).value;
      && i <= k < |args| && args[k] == "--" && Run(args[..k], i, s, g).Ok?
      && Run(args, i, s, g) ==
        var front := Run(args[..k], i, s, g).value; Ok(front.(kept := front.kept + args[k..]))
    decreases |args| - i
  {
    hide StepHere;
    var k := StopsAt(args, i, s, g).value;
    var step := StepHere(args, i, s, g);
    StopIsDashes(args, i, s, g);
    if step.Go? {
      StopIsTerminator(args, i + step.width, step.scan, g);
      StepIgnoresTerminator(args, k, i, s, g);
    }
  }

  /**
    Everything from the terminator on is kept as it is and changes nothing else: the line splits
    as its front does, with the terminator and all after it appended.
   */
  lemma TerminatorKeepsTheRest(args: seq<Arg>, g: Grammar)
    requires StopsAt(args, 0, START, g).Some?
    ensures
      var k := StopsAt(args, 0, START, g).value;
      && k < |args| && args[k] == "--"
      && Split(args, g) ==
        match Split(args[..k], g)
        case Err(e) => Err(e)
        case Ok(front) => Ok(Separated(front.flags, front.rest + args[k..]))
  {
    StopIsTerminator(args, 0, START, g);
  }

  predicate TakesValue(arg: Arg) {
    arg in ["--input-json", "--store-path", "--project", "--deadline"]
  }

  /** A `--` before the stop is the value of the flag in front of it. */
  lemma {:induction false} EarlierTerminatorsAreValues(args: seq<Arg>, i: nat, s: Scan, g: Grammar, j: nat)
    requires i <= j < |args| && args[j] == "--" && Run(args, i, s, g).Ok?
    requires StopsAt(args, i, s, g).Some? ==> j < StopsAt(args, i, s, g).value
    ensures j > 0 && TakesValue(args[j - 1])
    decreases |args| - i
  {
    hide StepHere;
    StopIsDashes(args, i, s, g);
    var step := StepHere(args, i, s, g);
    if i + step.width <= j {
      EarlierTerminatorsAreValues(args, i + step.width, step.scan, g, j);
    } else {
      PairedDashesAreValue(args, i, s, g);
    }
  }

  lemma PairedDashesAreValue(args: seq<Arg>, i: nat, s: Scan, g: Grammar)
    requires i + 1 < |args| && args[i + 1] == "--"
    requires var step := StepHere(args, i, s, g); step.Go? && step.width == 2
    ensures TakesValue(args[i])
  {
    assert "--"[..1] == "-" && "-" != "{";
  }

  // ----- Splitting again -----

  lemma {:induction false} KeptGrows(args: seq<Arg>, i: nat, s: Scan, g: Grammar)
    requires i <= |args| && Run(args, i, s, g).Ok?
    ensures var kept := Run(args, i, s, g).value.kept; |s.kept| <= |kept| && kept[..|s.kept|] == s.kept
    decreases |args| - i
  {
    hide StepHere;
    if i < |args| && StepHere(args, i, s, g).Go? {
      var step := StepHere(args, i, s, g);
      StepShape(args, i, s, g);
      KeptGrows(args, i + step.width, step.scan, g);
      var kept := Run(args, i, s, g).value.kept;
      assert kept[..|s.kept|] == kept[..|step.scan.kept|][..|s.kept|];
    }
  }

  /** The second scan stands where the first one's kept arguments end, and has set no flag. */
  ghost predicate Follows(s: Scan, t: Scan) {
    && t.kept == s.kept && t.flags == DEFAULT
    && t.explicitInput == s.explicitInput && (t.legacyInput ==> s.legacyInput)
  }

  /** A kept pair is kept again. */
  lemma PairReplays(args: seq<Arg>, i: nat, s: Scan, rest: seq<Arg>, n: nat, t: Scan, position: bool, g: Grammar)
    requires i + 1 < |args| && n + 1 < |rest| && rest[n] == args[i] && rest[n + 1] == args[i + 1] && Follows(s, t)
    requires var step := StepAt(args, i, s, position, g); step.Go? && step.scan.kept == s.kept + [args[i], args[i + 1]]
    ensures
      var step, again := StepAt(args, i, s, position, g), StepAt(rest, n, t, position, g);
      again.Go? && again.width == 2 && Follows(step.scan, again.scan)
  {
    hide StartsWith, TrimStart;
    assert args[i] == "--json" || (args[i] == "--input-json" && position);
  }

  /** A single kept token is kept again. */
  lemma TokenReplays(args: seq<Arg>, i: nat, s: Scan, rest: seq<Arg>, n: nat, t: Scan, position: bool, g: Grammar)
    requires i < |args| && n < |rest| && rest[n] == args[i] && Follows(s, t)
    requires i + 1 == |args| ==> n + 1 == |rest|
    requires var step := StepAt(args, i, s, position, g); step.Go? && step.scan.kept == s.kept + [args[i]]
    ensures
      var step, again := StepAt(args, i, s, position, g), StepAt(rest, n, t, position, g);
      again.Go? && again.width == 1 && Follows(step.scan, again.scan)
  {
    hide StartsWith, TrimStart;
    assert |s.kept + [args[i]]| == |s.kept| + 1;
    if args[i] == "--input-json" {
      assert args[i] != "--json";
    } else {
      assert args[i] != "--json" && args[i] != "--quiet";
    }
  }

  lemma RemovalFollows(args: seq<Arg>, i: nat, s: Scan, t: Scan, position: bool, g: Grammar)
    requires i < |args| && Follows(s, t)
    requires var step := StepAt(args, i, s, position, g); step.Go? && step.scan.kept == s.kept
    ensures Follows(StepAt(args, i, s, position, g).scan, t)
  {
    hide StartsWith, TrimStart, WholeOptions;
  }

  /** A token that the first scan kept is kept again. */
  lemma StepReplays(args: seq<Arg>, i: nat, s: Scan, rest: seq<Arg>, t: Scan, g: Grammar)
    requires i < |args| && StepHere(args, i, s, g).Go? && Follows(s, t)
    requires
      var kept := StepHere(args, i, s, g).scan.kept;
      && |kept| <= |rest| && rest[..|kept|] == kept
      && (i + 1 == |args| ==> rest == kept)
    ensures
      var s' := StepHere(args, i, s, g).scan;
      if s'.kept == s.kept then Follows(s', t)
      else
        && |s.kept| < |rest|
        && var again := StepHere(rest, |s.kept|, t, g);
           again.Go? && again.width == |s'.kept| - |s.kept| && Follows(s', again.scan)
  {
    hide StepAt, InSetPosition;
    StepShape(args, i, s, g);
    var s', n, position := StepHere(args, i, s, g).scan, |s.kept|, InSetPosition(s.kept, g);
    if |s'.kept| == n + 2 {
      assert rest[n] == rest[..|s'.kept|][n] == args[i];
      assert rest[n + 1] == rest[..|s'.kept|][n + 1] == args[i + 1];
      PairReplays(args, i, s, rest, n, t, position, g);
    } else if |s'.kept| == n + 1 {
      assert rest[n] == rest[..|s'.kept|][n] == args[i];
      TokenReplays(args, i, s, rest, n, t, position, g);
    } else {
      RemovalFollows(args, i, s, t, position, g);
    }
  }

  lemma {:induction false} Resplits(args: seq<Arg>, i: nat, s: Scan, t: Scan, g: Grammar)
    requires i <= |args| && Run(args, i, s, g).Ok? && Follows(s, t)
    ensures
      var first := Run(args, i, s, g).value;
      && |s.kept| <= |first.kept|
      && var again := Run(first.kept, |s.kept|, t, g);
         again.Ok? && Follows(first, again.value)
    decreases |args| - i
  {
    hide StepHere;
    var rest := Run(args, i, s, g).value.kept;
    KeptGrows(args, i, s, g);
    if i < |args| {
      var step := StepHere(args, i, s, g);
      if step.Go? {
        KeptGrows(args, i + step.width, step.scan, g);
        StepReplays(args, i, s, rest, t, g);
        var again := if step.scan.kept == s.kept then t else StepHere(rest, |s.kept|, t, g).scan;
        Resplits(args, i + step.width, step.scan, again, g);
      } else {
        StopReplays(args, i, s, rest, t, g);
      }
    }
  }

  lemma StopReplays(args: seq<Arg>, i: nat, s: Scan, rest: seq<Arg>, t: Scan, g: Grammar)
    requires i < |args| && StepHere(args, i, s, g).Stop? && rest == s.kept + args[i..] && Follows(s, t)
    ensures StepHere(rest, |s.kept|, t, g).Stop? && t.kept + rest[|s.kept|..] == rest
  {
    assert rest[|s.kept|] == args[i];
  }

  /** Extraction is complete and stable: splitting the remainder again finds no flag and removes nothing. */
  lemma SplitIsIdempotent(args: seq<Arg>, g: Grammar)
    requires Split(args, g).Ok?
    ensures Split(Split(args, g).value.rest, g) == Ok(Separated(DEFAULT, Split(args, g).value.rest))
  {
    Resplits(args, 0, START, START, g);
  }

  // ----- What a split means -----

  /** A token the scan looks at, and whether it stands where `set` takes an option. */
  datatype Mark = Mark(at: nat, position: bool)

  /** A JSON object literal follows. */
  predicate BeforeObject(args: seq<Arg>, p: nat) {
    Next(args, p).Some? && StartsWith(Next(args, p).value, "{")
  }

  predicate Joined(arg: Arg) {
    StartsWith(arg, "--store-path=") || StartsWith(arg, "--project=") || StartsWith(arg, "--deadline=")
  }

  /** The token is a global flag, which a split removes. */
  predicate Global(args: seq<Arg>, p: nat)
    requires p < |args|
  {
    || args[p] in ["--quiet", "--no-hooks", "--store-path", "--project", "--deadline"]
    || Joined(args[p]) || (args[p] == "--json" && !BeforeObject(args, p))
  }

  /** How many arguments belong to the token: its value, or after a terminator all that is left. */
  function Width(args: seq<Arg>, m: Mark): (w: nat)
    requires m.at < |args|
    ensures 1 <= w <= |args| - m.at
  {
    var arg := args[m.at];
    if arg == "--" then |args| - m.at
    else if Next(args, m.at).Some? &&
            (arg in ["--store-path", "--project", "--deadline"]
             || (arg == "--input-json" && m.position) || (arg == "--json" && BeforeObject(args, m.at))) then 2
    else 1
  }

  function Kept(args: seq<Arg>, m: Mark): seq<Arg>
    requires m.at < |args|
  {
    if Global(args, m.at) then [] else args[m.at..m.at + Width(args, m)]
  }

  /** The tokens of a line from `i` on, after these arguments were kept. */
  function Marks(args: seq<Arg>, i: nat, kept: seq<Arg>, g: Grammar): (r: seq<Mark>)
    requires i <= |args|
    ensures forall k | 0 <= k < |r| :: r[k].at < |args|
    decreases |args| - i
  {
    if i == |args| then []
    else
      var m := Mark(i, InSetPosition(kept, g));
      [m] + Marks(args, i + Width(args, m), kept + Kept(args, m), g)
  }

  function KeptOf(args: seq<Arg>, marks: seq<Mark>): seq<Arg>
    requires forall k | 0 <= k < |marks| :: marks[k].at < |args|
  {
    if marks == [] then [] else Kept(args, marks[0]) + KeptOf(args, marks[1..])
  }

  /** The value that this token gives to an option, in either spelling. */
  function Given(args: seq<Arg>, p: nat, name: string): Option<string>
    requires p < |args|
  {
    if args[p] == name then Next(args, p)
    else if StartsWith(args[p], name + "=") then Some(TrimStart(args[p], name + "="))
    else None
  }

  /** The last value given. */
  function LastGiven(args: seq<Arg>, marks: seq<Mark>, name: string): Option<string>
    requires forall k | 0 <= k < |marks| :: marks[k].at < |args|
  {
    if marks == [] then None
    else
      var later := LastGiven(args, marks[1..], name);
      if later.Some? then later else Given(args, marks[0].at, name)
  }

  predicate Asks(args: seq<Arg>, p: nat, name: string)
    requires p < |args|
  {
    args[p] == name || StartsWith(args[p], name + "=")
  }

  /** An option without a usable value. */
  predicate Malformed(args: seq<Arg>, m: Mark, g: Grammar)
    requires m.at < |args|
  {
    || (Asks(args, m.at, "--store-path") && Given(args, m.at, "--store-path") in {None, Some("")})
    || (Asks(args, m.at, "--project") && Given(args, m.at, "--project") in {None, Some("")})
    || (Asks(args, m.at, "--deadline") &&
        (Given(args, m.at, "--deadline").None? || g.seconds(Given(args, m.at, "--deadline").value).None?))
  }

  predicate Quiets(args: seq<Arg>, m: Mark) requires m.at < |args| { args[m.at] == "--quiet" }
  predicate Unhooks(args: seq<Arg>, m: Mark) requires m.at < |args| { args[m.at] == "--no-hooks" }
  predicate AsksJson(args: seq<Arg>, m: Mark) requires m.at < |args| {
    args[m.at] == "--json" && !BeforeObject(args, m.at)
  }
  predicate GivesInput(args: seq<Arg>, m: Mark) requires m.at < |args| { args[m.at] == "--input-json" && m.position }
  predicate GivesLegacyInput(args: seq<Arg>, m: Mark) requires m.at < |args| {
    && args[m.at] == "--json" && m.position
    && Next(args, m.at).Some? && !StartsWith(Next(args, m.at).value, "-")
  }

  function Or<T>(later: Option<T>, earlier: Option<T>): Option<T> {
    if later.Some? then later else earlier
  }

  function Seconds(given: Option<string>, g: Grammar): Option<nat> {
    if given.Some? then g.seconds(given.value) else None
  }

  ghost predicate Switched(args: seq<Arg>, marks: seq<Mark>, s: Scan, t: Scan)
    requires forall k | 0 <= k < |marks| :: marks[k].at < |args|
  {
    && t.flags.quiet == (s.flags.quiet || exists m :: m in marks && Quiets(args, m))
    && t.flags.noHooks == (s.flags.noHooks || exists m :: m in marks && Unhooks(args, m))
    && t.flags.json == (s.flags.json || exists m :: m in marks && AsksJson(args, m))
    && t.explicitInput == (s.explicitInput || exists m :: m in marks && GivesInput(args, m))
    && t.legacyInput == (s.legacyInput || exists m :: m in marks && GivesLegacyInput(args, m))
  }

  ghost predicate Assigned(args: seq<Arg>, marks: seq<Mark>, s: Scan, t: Scan, g: Grammar)
    requires forall k | 0 <= k < |marks| :: marks[k].at < |args|
  {
    && t.flags.storePath == Or(LastGiven(args, marks, "--store-path"), s.flags.storePath)
    && t.flags.project == Or(LastGiven(args, marks, "--project"), s.flags.project)
    && t.flags.deadline == Or(Seconds(LastGiven(args, marks, "--deadline"), g), s.flags.deadline)
  }

  /** The scan `t` is `s` after these tokens. */
  ghost predicate Means(args: seq<Arg>, marks: seq<Mark>, s: Scan, t: Scan, g: Grammar)
    requires forall k | 0 <= k < |marks| :: marks[k].at < |args|
  {
    t.kept == s.kept + KeptOf(args, marks) && Switched(args, marks, s, t) && Assigned(args, marks, s, t, g)
  }

  /** The three joined spellings exclude each other and every other flag. */
  lemma Spellings(arg: Arg)
    ensures "--store-path" + "=" == "--store-path=" && "--project" + "=" == "--project="
    ensures "--deadline" + "=" == "--deadline="
    ensures StartsWith(arg, "--store-path=") ==> |arg| > 12 && arg[2] == 's'
    ensures StartsWith(arg, "--project=") ==> |arg| > 9 && arg[2] == 'p'
    ensures StartsWith(arg, "--deadline=") ==> |arg| > 10 && arg[2] == 'd'
    ensures arg == "--quiet" ==> arg[2] == 'q'
    ensures arg == "--no-hooks" ==> arg[2] == 'n'
    ensures arg == "--json" ==> arg[2] == 'j'
    ensures arg == "--input-json" ==> arg[2] == 'i'
    ensures arg == "--store-path" ==> |arg| == 12 && arg[2] == 's'
    ensures arg == "--project" ==> |arg| == 9 && arg[2] == 'p'
    ensures arg == "--deadline" ==> |arg| == 10 && arg[2] == 'd'
  {
    assert "--store-path="[2] == 's' && "--project="[2] == 'p' && "--deadline="[2] == 'd';
    assert forall prefix: string | StartsWith(arg, prefix) && |prefix| > 2 :: arg[2] == arg[..|prefix|][2] == prefix[2];
  }

  /** What a token does to the flags that take no value. */
  ghost predicate Switches(args: seq<Arg>, m: Mark, s: Scan, t: Scan)
    requires m.at < |args|
  {
    && t.flags.quiet == (s.flags.quiet || Quiets(args, m))
    && t.flags.noHooks == (s.flags.noHooks || Unhooks(args, m))
    && t.flags.json == (s.flags.json || AsksJson(args, m))
    && t.explicitInput == (s.explicitInput || GivesInput(args, m))
    && t.legacyInput == (s.legacyInput || GivesLegacyInput(args, m))
  }

  /** What a token does to the options that take a value. */
  ghost predicate Assigns(args: seq<Arg>, m: Mark, s: Scan, t: Scan, g: Grammar)
    requires m.at < |args|
  {
    && t.flags.storePath == Or(Given(args, m.at, "--store-path"), s.flags.storePath)
    && t.flags.project == Or(Given(args, m.at, "--project"), s.flags.project)
    && t.flags.deadline == Or(Seconds(Given(args, m.at, "--deadline"), g), s.flags.deadline)
  }

  lemma StepSwitches(args: seq<Arg>, i: nat, s: Scan, position: bool, g: Grammar)
    requires i < |args| && StepAt(args, i, s, position, g).Go?
    ensures Switches(args, Mark(i, position), s, StepAt(args, i, s, position, g).scan)
  {
    Spellings(args[i]);
    hide StartsWith, TrimStart, Copies;
  }

  lemma StepAssigns(args: seq<Arg>, i: nat, s: Scan, position: bool, g: Grammar)
    requires i < |args| && StepAt(args, i, s, position, g).Go?
    ensures Assigns(args, Mark(i, position), s, StepAt(args, i, s, position, g).scan, g)
  {
    Spellings(args[i]);
    hide StartsWith, TrimStart, Copies;
  }

  lemma StepWidth(args: seq<Arg>, i: nat, s: Scan, position: bool, g: Grammar)
    requires i < |args| && StepAt(args, i, s, position, g).Go?
    ensures StepAt(args, i, s, position, g).width == Width(args, Mark(i, position))
  {
    Spellings(args[i]);
    hide StartsWith, TrimStart, Copies;
  }

  lemma StepKeeps(args: seq<Arg>, i: nat, s: Scan, position: bool, g: Grammar)
    requires i < |args| && StepAt(args, i, s, position, g).Go?
    ensures
      var m, step := Mark(i, position), StepAt(args, i, s, position, g);
      step.width == Width(args, m) && step.scan.kept == s.kept + Kept(args, m)
  {
    Spellings(args[i]);
    StepWidth(args, i, s, position, g);
    hide StartsWith, TrimStart, Copies, Width;
  }

  lemma StepRefuses(args: seq<Arg>, i: nat, s: Scan, position: bool, g: Grammar)
    requires i < |args|
    ensures StepAt(args, i, s, position, g).Bad? <==> Malformed(args, Mark(i, position), g)
    ensures StepAt(args, i, s, position, g).Stop? <==> args[i] == "--"
  {
    Spellings(args[i]);
    hide StartsWith, TrimStart, Copies;
  }

  lemma SwitchedMore(args: seq<Arg>, m: Mark, rest: seq<Mark>, s: Scan, t: Scan, u: Scan)
    requires m.at < |args| && forall k | 0 <= k < |rest| :: rest[k].at < |args|
    requires Switches(args, m, s, t) && Switched(args, rest, t, u)
    ensures Switched(args, [m] + rest, s, u)
  {
    hide Quiets, Unhooks, AsksJson, GivesInput, GivesLegacyInput;
    var all := [m] + rest;
    assert m in all && forall x :: x in all <==> x == m || x in rest;
  }

  lemma AssignedMore(args: seq<Arg>, m: Mark, rest: seq<Mark>, s: Scan, t: Scan, u: Scan, g: Grammar)
    requires m.at < |args| && forall k | 0 <= k < |rest| :: rest[k].at < |args|
    requires Assigns(args, m, s, t, g) && Assigned(args, rest, t, u, g) && NoneMalformed(args, rest, g)
    ensures Assigned(args, [m] + rest, s, u, g)
  {
    hide Given, NoneMalformed;
    var all := [m] + rest;
    assert all[0] == m && all[1..] == rest;
    LastDeadlineIsRead(args, rest, g);
  }

  /** After a first token, the meaning of the others follows. */
  lemma MeansMore(args: seq<Arg>, m: Mark, rest: seq<Mark>, s: Scan, t: Scan, u: Scan, g: Grammar)
    requires m.at < |args| && forall k | 0 <= k < |rest| :: rest[k].at < |args|
    requires t.kept == s.kept + Kept(args, m) && Switches(args, m, s, t) && Assigns(args, m, s, t, g)
    requires Means(args, rest, t, u, g) && NoneMalformed(args, rest, g)
    ensures Means(args, [m] + rest, s, u, g)
  {
    hide Switches, Switched, Assigns, Assigned, NoneMalformed, Kept;
    SwitchedMore(args, m, rest, s, t, u);
    AssignedMore(args, m, rest, s, t, u, g);
    assert ([m] + rest)[1..] == rest;
  }

  ghost predicate NoneMalformed(args: seq<Arg>, marks: seq<Mark>, g: Grammar)
    requires forall k | 0 <= k < |marks| :: marks[k].at < |args|
  {
    forall m | m in marks :: !Malformed(args, m, g)
  }

  lemma {:induction false} LastDeadlineIsRead(args: seq<Arg>, marks: seq<Mark>, g: Grammar)
    requires (forall k | 0 <= k < |marks| :: marks[k].at < |args|) && NoneMalformed(args, marks, g)
    ensures LastGiven(args, marks, "--deadline").Some? ==> Seconds(LastGiven(args, marks, "--deadline"), g).Some?
  {
    if marks != [] {
      hide TrimStart, StartsWith;
      LastDeadlineIsRead(args, marks[1..], g);
      assert marks[0] in marks;
    }
  }

  /** The scan from here fails exactly on a malformed token, and otherwise does what its tokens say. */
  ghost predicate RunIsMeant(args: seq<Arg>, i: nat, s: Scan, g: Grammar)
    requires i <= |args|
  {
    var marks, r := Marks(args, i, s.kept, g), Run(args, i, s, g);
    && (r.Ok? <==> NoneMalformed(args, marks, g))
    && (r.Ok? ==> Means(args, marks, s, r.value, g))
  }

  lemma {:induction false} RunMeans(args: seq<Arg>, i: nat, s: Scan, g: Grammar)
    requires i <= |args|
    ensures RunIsMeant(args, i, s, g)
    decreases |args| - i
  {
    hide *;
    if i == |args| {
      NothingMeans(args, s, g);
    } else {
      var step := StepHere(args, i, s, g);
      if step.Go? {
        RunMeans(args, i + step.width, step.scan, g);
        GoMeans(args, i, s, g);
      } else {
        EndMeans(args, i, s, g);
      }
    }
  }

  lemma GoMeans(args: seq<Arg>, i: nat, s: Scan, g: Grammar)
    requires i < |args| && StepHere(args, i, s, g).Go?
    requires var step := StepHere(args, i, s, g); RunIsMeant(args, i + step.width, step.scan, g)
    ensures RunIsMeant(args, i, s, g)
  {
    hide StepHere, Marks, Run, NoneMalformed, Means, Malformed, Width, Kept, Switches, Assigns, InSetPosition;
    var m, step := Mark(i, InSetPosition(s.kept, g)), StepHere(args, i, s, g);
    MarksStep(args, i, s, g);
    var rest := Marks(args, i + step.width, step.scan.kept, g);
    OneMalformed(args, m, rest, g);
    if Run(args, i, s, g).Ok? {
      MeansMore(args, m, rest, s, step.scan, Run(args, i, s, g).value, g);
    }
  }

  lemma EndMeans(args: seq<Arg>, i: nat, s: Scan, g: Grammar)
    requires i < |args| && !StepHere(args, i, s, g).Go?
    ensures RunIsMeant(args, i, s, g)
  {
    hide StepHere, Marks, Run, NoneMalformed, Means, Malformed, Width, Kept, Switches, Assigns, InSetPosition;
    var m := Mark(i, InSetPosition(s.kept, g));
    MarksStep(args, i, s, g);
    if StepHere(args, i, s, g).Stop? {
      StopMeans(args, i, s, m, g);
      OneMalformed(args, m, [], g);
    } else {
      OneMalformed(args, m, Marks(args, i + Width(args, m), s.kept + Kept(args, m), g), g);
    }
  }

  lemma NothingMeans(args: seq<Arg>, s: Scan, g: Grammar)
    ensures RunIsMeant(args, |args|, s, g)
  {
    assert s.kept + [] == s.kept;
  }

  lemma OneMalformed(args: seq<Arg>, m: Mark, rest: seq<Mark>, g: Grammar)
    requires m.at < |args| && forall k | 0 <= k < |rest| :: rest[k].at < |args|
    ensures NoneMalformed(args, [m] + rest, g) <==> !Malformed(args, m, g) && NoneMalformed(args, rest, g)
    ensures NoneMalformed(args, [], g) && [m] + [] == [m]
  {
    hide Malformed;
    var all := [m] + rest;
    assert m in all && forall x :: x in all <==> x == m || x in rest;
  }

  /** One token and the rest, for the scan and for its meaning. */
  lemma MarksStep(args: seq<Arg>, i: nat, s: Scan, g: Grammar)
    requires i < |args|
    ensures
      var m, step := Mark(i, InSetPosition(s.kept, g)), StepHere(args, i, s, g);
      && Marks(args, i, s.kept, g) == [m] + Marks(args, i + Width(args, m), s.kept + Kept(args, m), g)
      && (step.Bad? <==> Malformed(args, m, g)) && (step.Stop? <==> args[i] == "--")
      && (step.Stop? ==> Run(args, i, s, g) == Ok(s.(kept := s.kept + args[i..])))
      && (step.Bad? ==> Run(args, i, s, g).Err?)
      && (step.Go? ==>
            && Run(args, i, s, g) == Run(args, i + step.width, step.scan, g)
            && step.width == Width(args, m) && step.scan.kept == s.kept + Kept(args, m)
            && Switches(args, m, s, step.scan) && Assigns(args, m, s, step.scan, g))
  {
    hide StepAt, Malformed, Kept, Width, Switches, Assigns, InSetPosition;
    var position := InSetPosition(s.kept, g);
    StepRefuses(args, i, s, position, g);
    if StepAt(args, i, s, position, g).Go? {
      StepKeeps(args, i, s, position, g);
      StepSwitches(args, i, s, position, g);
      StepAssigns(args, i, s, position, g);
    }
  }

  lemma StopMeans(args: seq<Arg>, i: nat, s: Scan, m: Mark, g: Grammar)
    requires i < |args| && args[i] == "--" && m == Mark(i, InSetPosition(s.kept, g))
    ensures Marks(args, i, s.kept, g) == [m] && Means(args, [m], s, s.(kept := s.kept + args[i..]), g)
  {
    Spellings(args[i]);
    assert "--store-path="[..2] == "--" && |args[i]| == 2;
    var all := [m];
    assert all[1..] == [] && args[i..] + [] == args[i..];
    assert !Global(args, i) && Kept(args, m) == args[i..];
    assert forall x | x in all :: x == m;
  }

  /**
    The whole contract of a split.  It is refused exactly for a malformed option or for two JSON
    inputs; otherwise the remainder holds every token that is no global flag, each with its value,
    and each flag is what the line asked for last.
   */
  lemma SplitMeans(args: seq<Arg>, g: Grammar)
    ensures
      var marks := Marks(args, 0, [], g);
      && (Split(args, g).Err? <==>
          || !NoneMalformed(args, marks, g)
          || ((exists m :: m in marks && GivesInput(args, m)) && (exists m :: m in marks && GivesLegacyInput(args, m))))
      && (Split(args, g).Ok? ==>
          && var r := Split(args, g).value;
          && r.rest == KeptOf(args, marks)
          && r.flags.quiet == (exists m :: m in marks && Quiets(args, m))
          && r.flags.noHooks == (exists m :: m in marks && Unhooks(args, m))
          && r.flags.json == (exists m :: m in marks && AsksJson(args, m))
          && r.flags.storePath == LastGiven(args, marks, "--store-path")
          && r.flags.project == LastGiven(args, marks, "--project")
          && r.flags.deadline == Seconds(LastGiven(args, marks, "--deadline"), g))
  {
    RunMeans(args, 0, START, g);
    hide Run, Marks, KeptOf, LastGiven, Quiets, Unhooks, AsksJson, GivesInput, GivesLegacyInput, NoneMalformed;
    assert [] + KeptOf(args, Marks(args, 0, [], g)) == KeptOf(args, Marks(args, 0, [], g));
  }
}

/**
  Helpers of one end-to-end slice: admission, completion, draining and the
  removal of the slice.  The admission file is one locked inode; a locked
  operation reads it and then acts, and may die in between.
 */
module DispatchOwners {
  import opened Wrappers

  /** One incarnation of a process group: its leader's pid and start. */
  datatype Group = Group(pid: nat, start: nat)

  datatype Proc = Proc(start: nat, group: Group)

  /** A locked operation that has read the admission file and not yet acted. */
  datatype Holder = Registering(pid: nat) | Admitting(writer: nat) | Draining(cleaner: nat)

  datatype Stage = Closing | ToDrain | ToExclude | Exclusive | Removed

  datatype World = World(
    closed: bool,                    // the admission file says "closed"
    holder: Option<Holder>,          // who has the admission lock
    procs: map<nat, Proc>,           // live processes
    clock: nat,                      // start times handed out so far
    receipts: map<nat, Group>,       // <pid>.json
    registered: set<Group>,          // every group ever registered
    writers: set<nat>,               // admitted writers whose shared custody is still held
    cleaners: map<nat, Stage>,
    custody: Option<nat>)            // the cleaner with exclusive writer custody

  datatype Event =
    | Lead(p: nat)                   // a process starts its own group
    | Fork(p: nat, child: nat)
    | Escape(p: nat)                 // a member leaves for its own group
    | Exit(p: nat)
    | BeginRegister(p: nat)
    | Register(p: nat)
    | BeginAdmit(writer: nat)
    | Admit(writer: nat)
    | Release(writer: nat)
    | StartCleanup(c: nat)
    | Close(c: nat)
    | BeginDrain(c: nat)
    | DrainReceipt(c: nat, p: nat)
    | EndDrain(c: nat)
    | Exclude(c: nat)
    | Remove(c: nat)
    | Abandon                        // the lock holder dies
    | GiveUp(c: nat)                 // a cleanup dies or runs out of time

  predicate Empty(w: World, g: Group) {
    forall p | p in w.procs :: w.procs[p].group != g
  }

  /** The census of a process group sees only its number. */
  predicate NoMembers(w: World, pid: nat) {
    forall p | p in w.procs :: w.procs[p].group.pid != pid
  }

  predicate Fresh(w: World, p: nat) {
    p !in w.procs && NoMembers(w, p)
  }

  predicate StageIs(w: World, c: nat, s: Stage) {
    c in w.cleaners && w.cleaners[c] == s
  }

  predicate Allowed(e: Event, w: World) {
    match e
    case Lead(p) => Fresh(w, p)
    case Fork(p, child) => p in w.procs && Fresh(w, child)
    case Escape(p) => p in w.procs && NoMembers(w, p)
    case Exit(p) => p in w.procs
    case BeginRegister(p) => w.holder.None? && !w.closed
    case Register(p) =>
      w.holder == Some(Registering(p)) && p in w.procs && w.procs[p].group == Group(p, w.procs[p].start)
    case BeginAdmit(writer) => w.holder.None? && !w.closed
    case Admit(writer) => w.holder == Some(Admitting(writer)) && w.custody.None?
    case Release(writer) => writer in w.writers
    case StartCleanup(c) => c !in w.cleaners
    case Close(c) => StageIs(w, c, Closing) && w.holder.None?
    case BeginDrain(c) => StageIs(w, c, ToDrain) && w.holder.None? && w.closed
    case DrainReceipt(c, p) => w.holder == Some(Draining(c)) && p in w.receipts && NoMembers(w, p)
    case EndDrain(c) => w.holder == Some(Draining(c)) && w.receipts == map[] && c in w.cleaners
    case Exclude(c) => StageIs(w, c, ToExclude) && w.writers == {} && w.custody.None?
    case Remove(c) => StageIs(w, c, Exclusive) && w.custody == Some(c)
    case Abandon => w.holder.Some?
    case GiveUp(c) => c in w.cleaners
  }

  function Apply(e: Event, w: World): World
    requires Allowed(e, w)
  {
    match e
    case Lead(p) => w.(procs := w.procs[p := Proc(w.clock, Group(p, w.clock))], clock := w.clock + 1)
    case Fork(p, child) => w.(procs := w.procs[child := Proc(w.clock, w.procs[p].group)], clock := w.clock + 1)
    case Escape(p) => w.(procs := w.procs[p := w.procs[p].(group := Group(p, w.procs[p].start))])
    case Exit(p) => w.(procs := w.procs - {p})
    case BeginRegister(p) => w.(holder := Some(Registering(p)))
    case Register(p) =>
      w.(receipts := w.receipts[p := w.procs[p].group], registered := w.registered + {w.procs[p].group}, holder := None)
    case BeginAdmit(writer) => w.(holder := Some(Admitting(writer)))
    case Admit(writer) => w.(writers := w.writers + {writer}, holder := None)
    case Release(writer) => w.(writers := w.writers - {writer})
    case StartCleanup(c) => w.(cleaners := w.cleaners[c := Closing])
    case Close(c) => w.(closed := true, cleaners := w.cleaners[c := ToDrain])
    case BeginDrain(c) => w.(holder := Some(Draining(c)))
    case DrainReceipt(c, p) => w.(receipts := w.receipts - {p})
    case EndDrain(c) => w.(holder := None, cleaners := w.cleaners[c := ToExclude])
    case Exclude(c) => w.(custody := Some(c), cleaners := w.cleaners[c := Exclusive])
    case Remove(c) => w.(cleaners := w.cleaners[c := Removed])
    case Abandon => w.(holder := None)
    case GiveUp(c) =>
      w.(cleaners := w.cleaners - {c}, custody := if w.custody == Some(c) then None else w.custody,
         holder := if w.holder == Some(Draining(c)) then None else w.holder)
  }

  predicate Admitted(h: Option<Holder>) {
    h.Some? && (h.value.Registering? || h.value.Admitting?)
  }

  /** A cleanup that has passed the drain: admission is closed and nothing is left to drain. */
  predicate PastDrain(w: World, s: Stage) {
    s == ToExclude || s == Exclusive || s == Removed ==> w.closed && w.receipts == map[]
  }

  predicate GroupsSound(w: World) {
    // every live process was started before now, and groups are told apart by their leader's start
    && (forall p | p in w.procs :: w.procs[p].start < w.clock && w.procs[p].group.start < w.clock)
    && (forall p, q | p in w.procs && q in w.procs && w.procs[p].group.pid == w.procs[q].group.pid ::
          w.procs[p].group == w.procs[q].group)
    // a live leader of a registered group is still in it
    && (forall p | p in w.procs && Group(p, w.procs[p].start) in w.registered ::
          w.procs[p].group == Group(p, w.procs[p].start))
    && (forall g | g in w.registered :: g.start < w.clock)
    // a registered group is either still awaiting its drain or has no member
    && (forall g | g in w.registered :: (g.pid in w.receipts && w.receipts[g.pid] == g) || Empty(w, g))
  }

  predicate GatesSound(w: World) {
    // whoever has read "open" still holds the lock, so admission is still open
    && (Admitted(w.holder) ==> !w.closed)
    && (forall c | c in w.cleaners :: PastDrain(w, w.cleaners[c]) && (w.cleaners[c] == ToDrain ==> w.closed))
    && (w.holder.Some? && w.holder.value.Draining? ==> w.closed && w.holder.value.cleaner in w.cleaners)
    && (w.custody.Some? ==> w.writers == {} && w.closed)
  }

  predicate Inv(w: World) {
    GroupsSound(w) && GatesSound(w)
  }

  lemma BirthKeepsGroups(e: Event, w: World)
    requires GroupsSound(w) && Allowed(e, w) && (e.Lead? || e.Fork?)
    ensures GroupsSound(Apply(e, w))
  {
  }

  lemma ChangeKeepsGroups(e: Event, w: World)
    requires GroupsSound(w) && Allowed(e, w) && (e.Escape? || e.Exit?)
    ensures GroupsSound(Apply(e, w))
  {
  }

  lemma ReceiptKeepsGroups(e: Event, w: World)
    requires GroupsSound(w) && Allowed(e, w) && (e.Register? || e.DrainReceipt?)
    ensures GroupsSound(Apply(e, w))
  {
    var w' := Apply(e, w);
    forall g | g in w'.registered
      ensures g.start < w'.clock && ((g.pid in w'.receipts && w'.receipts[g.pid] == g) || Empty(w', g))
    {
      if e.Register? {
        RegisteredStays(w, e.p, g);
      } else if g.pid == e.p {
        assert NoMembers(w, e.p);
      }
    }
  }

  /** A new registration under a recycled number finds the older group empty. */
  lemma RegisteredStays(w: World, p: nat, g: Group)
    requires GroupsSound(w) && p in w.procs && w.procs[p].group == Group(p, w.procs[p].start)
    requires g in w.registered || g == w.procs[p].group
    ensures g.start < w.clock
    ensures (g.pid != p && g.pid in w.receipts && w.receipts[g.pid] == g) || g == w.procs[p].group || Empty(w, g)
  {
    if g != w.procs[p].group && g.pid == p {
      assert forall q | q in w.procs && w.procs[q].group.pid == p :: w.procs[q].group == w.procs[p].group;
    }
  }

  lemma RestKeepsGroups(e: Event, w: World)
    requires GroupsSound(w) && Allowed(e, w)
    requires !e.Lead? && !e.Fork? && !e.Escape? && !e.Exit? && !e.Register? && !e.DrainReceipt?
    ensures GroupsSound(Apply(e, w))
  {
    var w' := Apply(e, w);
    assert w'.procs == w.procs && w'.registered == w.registered && w'.receipts == w.receipts && w'.clock == w.clock;
  }

  lemma KeepsGates(e: Event, w: World)
    requires GatesSound(w) && Allowed(e, w)
    ensures GatesSound(Apply(e, w))
  {
  }

  lemma StepKeepsInv(e: Event, w: World)
    requires Inv(w) && Allowed(e, w)
    ensures Inv(Apply(e, w))
  {
    hide GroupsSound, GatesSound, Allowed, Apply;
    KeepsGates(e, w);
    if e.Lead? || e.Fork? {
      BirthKeepsGroups(e, w);
    } else if e.Escape? || e.Exit? {
      ChangeKeepsGroups(e, w);
    } else if e.Register? || e.DrainReceipt? {
      ReceiptKeepsGroups(e, w);
    } else {
      RestKeepsGroups(e, w);
    }
  }

  predicate Legal(log: seq<Event>, w: World)
    decreases |log|, 0
  {
    log == [] || (Legal(log[..|log| - 1], w) && Allowed(log[|log| - 1], After(log[..|log| - 1], w)))
  }

  function After(log: seq<Event>, w: World): World
    requires Legal(log, w)
    decreases |log|, 1
  {
    if log == [] then w else Apply(log[|log| - 1], After(log[..|log| - 1], w))
  }

  /** A slice that has just been initialized, beside any processes that are already running. */
  predicate Initial(w: World) {
    && !w.closed && w.holder.None? && w.receipts == map[] && w.registered == {} && w.writers == {}
    && w.cleaners == map[] && w.custody.None? && Inv(w)
  }

  lemma {:induction false} RunsKeepInv(log: seq<Event>, w: World)
    requires Initial(w) && Legal(log, w)
    ensures Inv(After(log, w))
    decreases |log|
  {
    hide Allowed, Apply, Inv;
    if log != [] {
      RunsKeepInv(log[..|log| - 1], w);
      StepKeepsInv(log[|log| - 1], After(log[..|log| - 1], w));
    }
  }

  /**
    Whenever a slice is removed, admission is closed, every group that was ever
    registered has no member left, and no admitted writer holds custody.
   */
  lemma RemovalFollowsQuiescence(log: seq<Event>, w: World, k: nat)
    requires Initial(w) && Legal(log, w) && k < |log| && log[k].Remove?
    ensures Legal(log[..k], w)
    ensures var now := After(log[..k], w);
      now.closed && now.receipts == map[] && now.writers == {} && forall g | g in now.registered :: Empty(now, g)
  {
    LegalPrefix(log, k, w);
    LegalPrefix(log, k + 1, w);
    assert log[..k + 1][..k] == log[..k];
    RunsKeepInv(log[..k], w);
  }

  lemma {:induction false} LegalPrefix(log: seq<Event>, k: nat, w: World)
    requires Legal(log, w) && k <= |log|
    ensures Legal(log[..k], w)
    decreases |log|
  {
    hide Allowed, Apply;
    if k < |log| {
      LegalPrefix(log[..|log| - 1], k, w);
      assert log[..|log| - 1][..k] == log[..k];
    } else {
      assert log[..k] == log;
    }
  }

  lemma ClosedStep(e: Event, w: World)
    requires GatesSound(w) && w.closed && Allowed(e, w)
    ensures var now := Apply(e, w);
      && now.closed && now.registered == w.registered && now.writers <= w.writers
      && now.receipts.Keys <= w.receipts.Keys
  {
  }

  /**
    Closing is absorbing: from then on nothing is registered, and no writer that
    does not already hold custody ever obtains it.
   */
  lemma {:induction false} ClosedIsAbsorbing(log: seq<Event>, w: World)
    requires Inv(w) && w.closed && Legal(log, w)
    ensures var now := After(log, w);
      && Inv(now) && now.closed && now.registered == w.registered && now.writers <= w.writers
      && now.receipts.Keys <= w.receipts.Keys
    decreases |log|
  {
    hide GroupsSound, GatesSound, Allowed, Apply;
    if log != [] {
      ClosedIsAbsorbing(log[..|log| - 1], w);
      ClosedStep(log[|log| - 1], After(log[..|log| - 1], w));
      StepKeepsInv(log[|log| - 1], After(log[..|log| - 1], w));
    }
  }

  /** After a removal no writer holds custody, now or ever. */
  lemma NoWriterAfterRemoval(log: seq<Event>, more: seq<Event>, w: World)
    requires Initial(w) && Legal(log, w) && log != [] && log[|log| - 1].Remove? && Legal(more, After(log, w))
    ensures After(more, After(log, w)).writers == {}
  {
    RunsKeepInv(log, w);
    RemovalFollowsQuiescence(log, w, |log| - 1);
    ClosedIsAbsorbing(more, After(log, w));
  }

  // ----- A cleanup can finish -----

  lemma LegalMore(log: seq<Event>, e: Event, w: World)
    requires Legal(log, w) && Allowed(e, After(log, w))
    ensures Legal(log + [e], w) && After(log + [e], w) == Apply(e, After(log, w))
  {
    hide Allowed, Apply;
    assert (log + [e])[..|log + [e]| - 1] == log;
  }

  lemma {:induction false} LegalConcat(x: seq<Event>, y: seq<Event>, w: World)
    requires Legal(x, w) && Legal(y, After(x, w))
    ensures Legal(x + y, w) && After(x + y, w) == After(y, After(x, w))
    decreases |y|
  {
    hide Allowed, Apply;
    if y == [] {
      assert x + y == x;
    } else {
      LegalConcat(x, y[..|y| - 1], w);
      assert (x + y)[..|x + y| - 1] == x + y[..|y| - 1];
    }
  }

  /** Receipts whose groups are empty can be drained one after the other. */
  lemma {:induction false} ReceiptsCanBeDrained(w: World, c: nat) returns (log: seq<Event>)
    requires w.holder == Some(Draining(c)) && forall p | p in w.receipts :: NoMembers(w, p)
    ensures Legal(log, w) && After(log, w) == w.(receipts := map[])
    decreases w.receipts
  {
    log := [];
    if w.receipts == map[] {
      assert w == w.(receipts := map[]);
    } else {
      var p :| p in w.receipts;
      LegalMore([], DrainReceipt(c, p), w);
      assert [] + [DrainReceipt(c, p)] == [DrainReceipt(c, p)];
      var rest := ReceiptsCanBeDrained(Apply(DrainReceipt(c, p), w), c);
      LegalConcat([DrainReceipt(c, p)], rest, w);
      log := [DrainReceipt(c, p)] + rest;
    }
  }

  lemma CleanupOpens(w: World, c: nat) returns (log: seq<Event>)
    requires w.holder.None? && c !in w.cleaners
    ensures Legal(log, w)
    ensures After(log, w) == w.(closed := true, holder := Some(Draining(c)), cleaners := w.cleaners[c := ToDrain])
  {
    LegalMore([], StartCleanup(c), w);
    LegalMore([] + [StartCleanup(c)], Close(c), w);
    LegalMore([] + [StartCleanup(c)] + [Close(c)], BeginDrain(c), w);
    log := [] + [StartCleanup(c)] + [Close(c)] + [BeginDrain(c)];
    assert w.cleaners[c := Closing][c := ToDrain] == w.cleaners[c := ToDrain];
  }

  lemma CleanupEnds(w: World, c: nat) returns (log: seq<Event>)
    requires w.holder == Some(Draining(c)) && w.receipts == map[] && StageIs(w, c, ToDrain)
    requires w.writers == {} && w.custody.None?
    ensures Legal(log, w)
    ensures After(log, w) == w.(holder := None, custody := Some(c), cleaners := w.cleaners[c := Removed])
  {
    LegalMore([], EndDrain(c), w);
    LegalMore([] + [EndDrain(c)], Exclude(c), w);
    LegalMore([] + [EndDrain(c)] + [Exclude(c)], Remove(c), w);
    log := [] + [EndDrain(c)] + [Exclude(c)] + [Remove(c)];
    assert w.cleaners[c := ToExclude][c := Exclusive][c := Removed] == w.cleaners[c := Removed];
  }

  /** Where no lock is held, no writer has custody and every receipt's group is empty, a cleanup reaches the removal. */
  lemma CleanupIsPossible(w: World, c: nat) returns (log: seq<Event>)
    requires w.holder.None? && w.writers == {} && w.custody.None? && c !in w.cleaners
    requires forall p | p in w.receipts :: NoMembers(w, p)
    ensures Legal(log, w)
    ensures var now := After(log, w);
      && StageIs(now, c, Removed) && now.closed && now.receipts == map[] && now.custody == Some(c)
      && now.procs == w.procs && now.registered == w.registered
  {
    var opening := CleanupOpens(w, c);
    var draining := After(opening, w);
    assert forall p | p in draining.receipts :: NoMembers(w, p) && NoMembers(draining, p);
    hide Legal, After, Allowed, Apply;
    var drains := ReceiptsCanBeDrained(draining, c);
    var drained := After(drains, draining);
    var ends := CleanupEnds(drained, c);
    LegalConcat(opening, drains, w);
    LegalConcat(opening + drains, ends, w);
    log := opening + drains + ends;
  }

  /** While admission is open and unlocked, a live isolated leader can register, and a writer can be admitted. */
  lemma OpenAdmits(w: World, p: nat, writer: nat)
    requires w.holder.None? && !w.closed
    ensures p in w.procs && w.procs[p].group == Group(p, w.procs[p].start) ==>
      && Legal([BeginRegister(p), Register(p)], w)
      && var now := After([BeginRegister(p), Register(p)], w);
         p in now.receipts && now.receipts[p] == w.procs[p].group && w.procs[p].group in now.registered
    ensures w.custody.None? ==>
      && Legal([BeginAdmit(writer), Admit(writer)], w)
      && After([BeginAdmit(writer), Admit(writer)], w).writers == w.writers + {writer}
  {
    LegalMore([], BeginRegister(p), w);
    LegalMore([], BeginAdmit(writer), w);
    assert [] + [BeginRegister(p)] == [BeginRegister(p)] && [] + [BeginAdmit(writer)] == [BeginAdmit(writer)];
    if p in w.procs && w.procs[p].group == Group(p, w.procs[p].start) {
      LegalMore([BeginRegister(p)], Register(p), w);
      assert [BeginRegister(p)] + [Register(p)] == [BeginRegister(p), Register(p)];
    }
    if w.custody.None? {
      LegalMore([BeginAdmit(writer)], Admit(writer), w);
      assert [BeginAdmit(writer)] + [Admit(writer)] == [BeginAdmit(writer), Admit(writer)];
    }
  }
}

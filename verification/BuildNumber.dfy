/** The persisted build counter: its file format, and the lock under which it is issued. */
module BuildNumber {
  import opened Wrappers

  const MAX_NUMBER: nat := 0xFFFF_FFFF_FFFF_FFFF

  // ----- The file: a canonical unsigned decimal and a newline -----

  predicate Digit(c: char) {
    '0' <= c <= '9'
  }

  function DigitOf(n: nat): char
    requires n < 10
  {
    '0' + n as char
  }

  function DigitValue(c: char): nat
    requires Digit(c)
  {
    c as int - '0' as int
  }

  function Decimal(n: nat): (s: string)
    ensures |s| > 0 && forall i | 0 <= i < |s| :: Digit(s[i])
    ensures s[0] == '0' ==> n == 0
  {
    if n < 10 then [DigitOf(n)] else Decimal(n / 10) + [DigitOf(n % 10)]
  }

  function Value(s: string): nat
    requires forall i | 0 <= i < |s| :: Digit(s[i])
  {
    if s == [] then 0 else 10 * Value(s[..|s| - 1]) + DigitValue(s[|s| - 1])
  }

  /** What `write_number` publishes. */
  function Format(n: nat): string {
    Decimal(n) + "\n"
  }

  /** The regular expression `(?:0|[1-9][0-9]{0,19})\n`, matched against the whole file. */
  predicate Canonical(raw: string) {
    && 2 <= |raw| <= 21 && raw[|raw| - 1] == '\n'
    && (forall i | 0 <= i < |raw| - 1 :: Digit(raw[i]))
    && (raw[0] == '0' ==> |raw| == 2)
  }

  function ReadNumber(raw: string): (r: Result<nat, string>) {
    if !Canonical(raw) then Err("expected canonical unsigned integer and newline")
    else
      var number := Value(raw[..|raw| - 1]);
      if number > MAX_NUMBER then Err("unsigned 64-bit overflow") else Ok(number)
  }

  lemma {:induction false} ValueOfDecimal(n: nat)
    ensures Value(Decimal(n)) == n
  {
    if n < 10 {
      assert Decimal(n)[..0] == [];
    } else {
      ValueOfDecimal(n / 10);
      assert Decimal(n)[..|Decimal(n)| - 1] == Decimal(n / 10);
    }
  }

  /** Without leading zeros, digits are determined by their value. */
  lemma {:induction false} DecimalOfValue(s: string)
    requires |s| > 0 && (forall i | 0 <= i < |s| :: Digit(s[i])) && (s[0] == '0' ==> |s| == 1)
    ensures Decimal(Value(s)) == s
    ensures |s| > 1 ==> Value(s) >= 10
    ensures s[0] != '0' ==> Value(s) > 0
  {
    if |s| == 1 {
      assert s[..0] == [];
    } else {
      var front := s[..|s| - 1];
      DecimalOfValue(front);
      assert Value(s) / 10 == Value(front) && Value(s) % 10 == DigitValue(s[|s| - 1]);
      assert s == front + [s[|s| - 1]];
    }
  }

  function Pow10(k: nat): nat {
    if k == 0 then 1 else 10 * Pow10(k - 1)
  }

  lemma {:induction false} DecimalLength(n: nat, k: nat)
    requires k > 0 && n < Pow10(k)
    ensures |Decimal(n)| <= k
  {
    if n >= 10 {
      DecimalLength(n / 10, k - 1);
    }
  }

  lemma MaxHasTwentyDigits()
    ensures MAX_NUMBER < Pow10(20)
  {
    assert Pow10(5) == 100_000;
    assert Pow10(10) == 10_000_000_000;
    assert Pow10(15) == 1_000_000_000_000_000;
  }

  /** Reading accepts exactly what writing produces, for exactly the unsigned 64-bit numbers. */
  lemma ReadInvertsFormat(raw: string, n: nat)
    ensures ReadNumber(raw) == Ok(n) <==> n <= MAX_NUMBER && raw == Format(n)
  {
    if n <= MAX_NUMBER && raw == Format(n) {
      ValueOfDecimal(n);
      MaxHasTwentyDigits();
      DecimalLength(n, 20);
      assert raw[..|raw| - 1] == Decimal(n);
      if raw[0] == '0' {
        assert Decimal(0) == "0";
      }
    }
    if ReadNumber(raw) == Ok(n) {
      DecimalOfValue(raw[..|raw| - 1]);
      assert raw == raw[..|raw| - 1] + "\n";
    }
  }

  // ----- Builders under the lock -----

  datatype Mode = Allocate | Use(number: nat)

  datatype Pc = Opening | Locked | Known(number: nat) | Fixed(number: nat) | Commanding(number: nat)

  /** The counter file, as its lock holder uses it. */
  class Counter {
    var file: string

    constructor (file: string)
      ensures this.file == file
    {
      this.file := file;
    }

    /** Take the next number, or confirm a reservation; the file always reads as the number taken. */
    method Take(mode: Mode) returns (r: Result<nat, string>)
      modifies this
      ensures r.Ok? <==>
        && ReadNumber(old(file)).Ok?
        && var shown := ReadNumber(old(file)).value; if mode.Use? then mode.number == shown else shown < MAX_NUMBER
      ensures r.Ok? ==>
        && ReadNumber(file) == Ok(r.value)
        && r.value == ReadNumber(old(file)).value + if mode.Allocate? then 1 else 0
      ensures r.Err? || mode.Use? ==> file == old(file)
    {
      r := ReadNumber(file);
      if r.Err? {
        return;
      }
      var number := r.value;
      ReadInvertsFormat(file, number);
      if mode.Use? {
        if mode.number != number {
          return Err("refusing stale build");
        }
        return;
      }
      if number == MAX_NUMBER {
        return Err("cannot increment unsigned 64-bit maximum");
      }
      file := Format(number + 1);
      ReadInvertsFormat(file, number + 1);
      return Ok(number + 1);
    }
  }

  /** A wrapper, and how many processes below it still hold its lock descriptor. */
  datatype Builder = Builder(mode: Mode, pc: Pc, alive: bool, children: nat)

  datatype World = World(build: nat, lock: Option<nat>, builders: map<nat, Builder>, issued: seq<nat>)

  datatype Event =
    | Open(b: nat, mode: Mode)
    | Lock(b: nat)
    | Read(b: nat)
    | Accept(b: nat)          // --number: the reservation is still current
    | Write(b: nat)           // increment and publish
    | Start(b: nat)
    | Fork(b: nat)
    | ChildExit(b: nat)
    | Stop(b: nat)            // exit, refusal or kill, at any point
    | Unlock(b: nat)          // the last descriptor is gone

  predicate Running(w: World, b: nat) {
    b in w.builders && w.builders[b].alive
  }

  predicate Allowed(e: Event, w: World) {
    match e
    case Open(b, mode) => b !in w.builders
    case Lock(b) => Running(w, b) && w.builders[b].pc.Opening? && w.lock.None?
    case Read(b) => Running(w, b) && w.builders[b].pc.Locked?
    case Accept(b) => Running(w, b) && w.builders[b].pc.Known? && w.builders[b].mode == Use(w.builders[b].pc.number)
    case Write(b) =>
      Running(w, b) && w.builders[b].pc.Known? && w.builders[b].mode.Allocate? && w.builders[b].pc.number != MAX_NUMBER
    case Start(b) => Running(w, b) && w.builders[b].pc.Fixed?
    case Fork(b) => b in w.builders && w.builders[b].children > 0
    case ChildExit(b) => b in w.builders && w.builders[b].children > 0
    case Stop(b) => Running(w, b)
    case Unlock(b) => w.lock == Some(b) && b in w.builders && !w.builders[b].alive && w.builders[b].children == 0
  }

  function Put(w: World, b: nat, x: Builder): World {
    w.(builders := w.builders[b := x])
  }

  function Apply(e: Event, w: World): World
    requires Allowed(e, w)
  {
    match e
    case Open(b, mode) => Put(w, b, Builder(mode, Opening, true, 0))
    case Lock(b) => Put(w, b, w.builders[b].(pc := Locked)).(lock := Some(b))
    case Read(b) => Put(w, b, w.builders[b].(pc := Known(w.build)))
    case Accept(b) => Put(w, b, w.builders[b].(pc := Fixed(w.builders[b].pc.number)))
    case Write(b) =>
      var n := w.builders[b].pc.number + 1;
      Put(w, b, w.builders[b].(pc := Fixed(n))).(build := n, issued := w.issued + [n])
    case Start(b) => Put(w, b, w.builders[b].(pc := Commanding(w.builders[b].pc.number), children := 1))
    case Fork(b) => Put(w, b, w.builders[b].(children := w.builders[b].children + 1))
    case ChildExit(b) => Put(w, b, w.builders[b].(children := w.builders[b].children - 1))
    case Stop(b) => Put(w, b, w.builders[b].(alive := false))
    case Unlock(b) => w.(lock := None)
  }

  /** The wrapper or something below it still holds the lock descriptor. */
  predicate Holding(x: Builder) {
    !x.pc.Opening? && (x.alive || x.children > 0)
  }

  /** Whoever still holds the lock descriptor has the lock, and the number it knows is the counter's. */
  predicate HolderSound(w: World) {
    && (forall b | b in w.builders && Holding(w.builders[b]) ::
          && w.lock == Some(b)
          && (w.builders[b].pc.Known? || w.builders[b].pc.Fixed? || w.builders[b].pc.Commanding? ==>
                w.builders[b].pc.number == w.build))
    && (forall b | b in w.builders && w.builders[b].children > 0 :: w.builders[b].pc.Commanding?)
  }

  predicate IssuedSound(w: World) {
    && w.build <= MAX_NUMBER
    && (forall i, j | 0 <= i < j < |w.issued| :: w.issued[i] < w.issued[j])
    && (forall i | 0 <= i < |w.issued| :: w.issued[i] <= w.build)
  }

  predicate ReservedSound(w: World) {
    forall b |
      && b in w.builders && w.builders[b].mode.Use?
      && (w.builders[b].pc.Fixed? || w.builders[b].pc.Commanding?) ::
      w.builders[b].pc.number == w.builders[b].mode.number
  }

  predicate Inv(w: World) {
    HolderSound(w) && IssuedSound(w) && ReservedSound(w)
  }

  /** The numbers from `start` on have been issued one after the other, and the counter shows the last. */
  predicate Consecutive(w: World, start: nat) {
    w.build == start + |w.issued| && forall i | 0 <= i < |w.issued| :: w.issued[i] == start + 1 + i
  }

  lemma StepKeepsInv(e: Event, w: World)
    requires Inv(w) && Allowed(e, w)
    ensures Inv(Apply(e, w)) && w.build <= Apply(e, w).build && w.issued <= Apply(e, w).issued
  {
    StepKeepsHolder(e, w);
    StepKeepsIssued(e, w);
    StepKeepsReserved(e, w);
    hide HolderSound, IssuedSound, ReservedSound, Allowed, Apply;
  }

  lemma StepKeepsHolder(e: Event, w: World)
    requires HolderSound(w) && Allowed(e, w)
    ensures HolderSound(Apply(e, w))
  {
  }

  lemma StepKeepsIssued(e: Event, w: World)
    requires HolderSound(w) && IssuedSound(w) && Allowed(e, w)
    ensures IssuedSound(Apply(e, w)) && w.build <= Apply(e, w).build && w.issued <= Apply(e, w).issued
  {
    if e.Write? {
      assert Holding(w.builders[e.b]);
    }
    hide HolderSound;
  }

  lemma StepKeepsReserved(e: Event, w: World)
    requires ReservedSound(w) && Allowed(e, w)
    ensures ReservedSound(Apply(e, w))
  {
  }

  lemma StepKeepsConsecutive(e: Event, w: World, start: nat)
    requires Inv(w) && Allowed(e, w) && Consecutive(w, start)
    ensures Consecutive(Apply(e, w), start)
  {
    if e.Write? {
      assert Holding(w.builders[e.b]);
    }
    hide Inv;
  }

  predicate Legal(log: seq<Event>, w: World)
    decreases |log|, 0
  {
    log == [] || (Legal(log[..|log| - 1], w) && Allowed(log[|log| - 1], After(log[..|log| - 1], w)))
  }

  function After(log: seq<Event>, w: World): World
    requires Legal(log, w)
    decreases |log|, 1
  {
    if log == [] then w else Apply(log[|log| - 1], After(log[..|log| - 1], w))
  }

  /**
    Over every interleaving of builders, with a kill at any step: the counter never
    decreases and never passes the unsigned 64-bit maximum, no number is issued
    twice, and it still equals the number of every command that has a living
    process with the inherited lock.
   */
  lemma {:induction false} NumbersAreNeverReused(log: seq<Event>, start: nat)
    requires start <= MAX_NUMBER && Legal(log, World(start, None, map[], []))
    ensures var w := After(log, World(start, None, map[], []));
      && Inv(w) && start <= w.build <= MAX_NUMBER && Consecutive(w, start)
      && (forall i, j | 0 <= i < j < |w.issued| :: w.issued[i] != w.issued[j])
      && (forall i | 0 <= i < |w.issued| :: w.issued[i] <= w.build)
      && (forall b |
            && b in w.builders && w.builders[b].pc.Commanding?
            && (w.builders[b].alive || w.builders[b].children > 0) ::
            w.builders[b].pc.number == w.build)
    decreases |log|
  {
    hide Allowed, Apply;
    if log != [] {
      NumbersAreNeverReused(log[..|log| - 1], start);
      StepKeepsInv(log[|log| - 1], After(log[..|log| - 1], World(start, None, map[], [])));
      StepKeepsConsecutive(log[|log| - 1], After(log[..|log| - 1], World(start, None, map[], [])), start);
    }
  }

  /** A command that was given a reservation runs under exactly that number. */
  lemma ReservationIsKept(log: seq<Event>, start: nat, b: nat)
    requires start <= MAX_NUMBER && Legal(log, World(start, None, map[], []))
    ensures var w := After(log, World(start, None, map[], []));
      b in w.builders && w.builders[b].pc.Commanding? && w.builders[b].mode.Use? ==>
        w.builders[b].pc.number == w.builders[b].mode.number
  {
    NumbersAreNeverReused(log, start);
  }

  /** A number issued later is greater than every number the counter has ever shown. */
  lemma {:induction false} CounterIsMonotonic(log: seq<Event>, w: World)
    requires Inv(w) && Legal(log, w)
    ensures Inv(After(log, w)) && w.build <= After(log, w).build && w.issued <= After(log, w).issued
    decreases |log|
  {
    hide Allowed, Apply, Inv;
    if log != [] {
      CounterIsMonotonic(log[..|log| - 1], w);
      StepKeepsInv(log[|log| - 1], After(log[..|log| - 1], w));
    }
  }
}

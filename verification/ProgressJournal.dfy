/**
  Bounded observations of an append-only progress journal.  A cursor moves past complete
  records only; reading in windows is proved to be the same as reading at once.
 */
module ProgressJournal {
  import opened Wrappers

  type Bytes = seq<bv8>

  const NEWLINE: bv8 := 10
  const MAX_RECORD: nat := 1_048_576

  // ----- Records -----

  /** The pieces that a newline ends, and the rest. */
  datatype Pieces = Pieces(records: seq<Bytes>, tail: Bytes)

  function Split(data: Bytes): Pieces {
    if data == [] then Pieces([], [])
    else
      var p, last := Split(data[..|data| - 1]), data[|data| - 1];
      if last == NEWLINE then Pieces(p.records + [p.tail], []) else p.(tail := p.tail + [last])
  }

  function Records(data: Bytes): seq<Bytes> {
    Split(data).records
  }

  /** The records with their newlines. */
  function Joined(records: seq<Bytes>): Bytes {
    if records == [] then [] else Joined(records[..|records| - 1]) + records[|records| - 1] + [NEWLINE]
  }

  lemma JoinedGrows(records: seq<Bytes>, last: Bytes)
    ensures Joined(records + [last]) == Joined(records) + last + [NEWLINE]
  {
    assert (records + [last])[..|records|] == records;
  }

  /** The pieces are the data, and no piece holds a newline. */
  lemma {:induction false} SplitJoins(data: Bytes)
    ensures Joined(Split(data).records) + Split(data).tail == data
    ensures NEWLINE !in Split(data).tail
    decreases |data|
  {
    if data != [] {
      var front := data[..|data| - 1];
      SplitJoins(front);
      JoinedGrows(Split(front).records, Split(front).tail);
      assert data == front + [data[|data| - 1]];
      hide Joined;
    }
  }

  lemma {:induction false} RecordFits(records: seq<Bytes>, k: nat)
    requires k < |records|
    ensures |records[k]| + 1 <= |Joined(records)|
    decreases |records|
  {
    if k < |records| - 1 {
      RecordFits(records[..|records| - 1], k);
    }
  }

  lemma {:induction false} FirstRecordEnds(records: seq<Bytes>)
    requires records != []
    ensures |records[0]| < |Joined(records)| && Joined(records)[|records[0]|] == NEWLINE
    decreases |records|
  {
    if |records| > 1 {
      FirstRecordEnds(records[..|records| - 1]);
    }
  }

  /** Data with a newline has a record, and all its records fit into it. */
  lemma NewlineMakesRecord(data: Bytes)
    ensures NEWLINE in data <==> Records(data) != []
    ensures Records(data) != [] ==> |Split(data).tail| < |data|
    ensures forall k | 0 <= k < |Records(data)| :: |Records(data)[k]| + 1 <= |data|
  {
    SplitJoins(data);
    var p := Split(data);
    assert data == Joined(p.records) + p.tail;
    forall k | 0 <= k < |p.records|
      ensures |p.records[k]| + 1 <= |Joined(p.records)|
    {
      RecordFits(p.records, k);
    }
    if p.records != [] {
      FirstRecordEnds(p.records);
      assert data[|p.records[0]|] == NEWLINE;
    } else {
      assert data == p.tail;
    }
  }

  lemma {:induction false} NoRecordWithoutNewline(data: Bytes)
    requires NEWLINE !in data
    ensures Split(data) == Pieces([], data)
    decreases |data|
  {
    if data != [] {
      NoRecordWithoutNewline(data[..|data| - 1]);
    }
  }

  /** Reading `b` after `a` continues the piece that `a` left open. */
  lemma {:induction false} SplitContinues(a: Bytes, b: Bytes)
    ensures Split(a + b) == Pieces(Records(a) + Records(Split(a).tail + b), Split(Split(a).tail + b).tail)
    decreases |b|
  {
    var tail := Split(a).tail;
    if b == [] {
      SplitJoins(a);
      NoRecordWithoutNewline(tail);
      assert a + b == a && tail + b == tail;
    } else {
      var front := b[..|b| - 1];
      SplitContinues(a, front);
      assert (a + b)[..|a + b| - 1] == a + front;
      assert (tail + b)[..|tail + b| - 1] == tail + front;
    }
  }

  // ----- One observation -----

  /** What one read may see from a position: at most one byte more than a record may hold. */
  function Window(file: Bytes, at: nat): Bytes
    requires at <= |file|
  {
    file[at..if |file| - at < MAX_RECORD + 1 then |file| else at + MAX_RECORD + 1]
  }

  /** Too many bytes follow without a newline among the first that a record may take. */
  predicate Oversized(file: Bytes, at: nat)
    requires at <= |file|
  {
    |file| - at > MAX_RECORD && NEWLINE !in file[at..at + MAX_RECORD]
  }

  function Unread(file: Bytes, at: nat): seq<Bytes>
    requires at <= |file|
  {
    Records(file[at..])
  }

  /** Some record is not a resource sample. */
  ghost predicate Progress(records: seq<Bytes>, resource: Bytes -> bool) {
    exists k :: 0 <= k < |records| && !resource(records[k])
  }

  datatype Journal = Journal(regular: bool, device: nat, inode: nat, bytes: Bytes)
  datatype Cursor = Cursor(device: nat, inode: nat, extent: nat, at: nat)

  /** The answer of an observation that succeeds. */
  ghost predicate Observes(file: Bytes, at: nat, resource: Bytes -> bool, next: nat, changed: bool)
    requires at <= |file|
  {
    var records := Records(Window(file, at));
    && !Oversized(file, at) && next == at + |Joined(records)|
    && changed == Progress(records, resource)
  }

  method Observe(journal: Journal, cursor: Option<Cursor>, resource: Bytes -> bool)
    returns (r: Result<(Cursor, bool), string>)
    ensures cursor.None? && journal.regular ==>
      r == Ok((Cursor(journal.device, journal.inode, |journal.bytes|, |journal.bytes|), false))
    ensures r.Err? <==>
      || !journal.regular
      || (cursor.Some? &&
          var c := cursor.value;
          || c.at > c.extent || (c.device, c.inode) != (journal.device, journal.inode)
          || |journal.bytes| < c.extent || Oversized(journal.bytes, c.at))
    ensures r.Ok? && cursor.Some? ==>
      && r.value.0 == cursor.value.(extent := |journal.bytes|, at := r.value.0.at)
      && r.value.0.at <= |journal.bytes|
      && Observes(journal.bytes, cursor.value.at, resource, r.value.0.at, r.value.1)
  {
    if cursor.Some? && cursor.value.at > cursor.value.extent {
      return Err("invalid journal observation cursor");
    }
    if !journal.regular {
      return Err("journal is not a regular file");
    }
    var state := Cursor(journal.device, journal.inode, |journal.bytes|, |journal.bytes|);
    if cursor.None? {
      return Ok((state, false));
    }
    if state.device != cursor.value.device || state.inode != cursor.value.inode {
      return Err("journal was replaced during verification");
    }
    if state.extent < cursor.value.extent {
      return Err("journal shrank during verification");
    }
    state := state.(at := cursor.value.at);
    var data := Window(journal.bytes, state.at);
    var lines := Split(data);
    OversizedShows(journal.bytes, state.at);
    SplitJoins(data);
    hide Split, Joined, Oversized, Progress;
    if |lines.tail| > MAX_RECORD {
      return Err("journal contains an oversized record");
    }
    var fit, at, changed := TakeRecords(lines.records, state.at, resource);
    if !fit {
      return Err("journal contains an oversized record");
    }
    return Ok((state.(at := at), changed));
  }

  /** Move past the complete lines, stopping at one that is too long. */
  method TakeRecords(records: seq<Bytes>, start: nat, resource: Bytes -> bool)
    returns (fit: bool, at: nat, changed: bool)
    ensures fit <==> forall k | 0 <= k < |records| :: |records[k]| + 1 <= MAX_RECORD
    ensures fit ==> at == start + |Joined(records)| && changed == Progress(records, resource)
  {
    at, changed := start, false;
    var k := 0;
    while k < |records|
      invariant 0 <= k <= |records| && at == start + |Joined(records[..k])|
      invariant forall j | 0 <= j < k :: |records[j]| + 1 <= MAX_RECORD
      invariant changed <==> exists j :: 0 <= j < k && !resource(records[j])
    {
      var line := records[k];
      if |line| + 1 > MAX_RECORD {
        return false, at, changed;
      }
      assert records[..k + 1] == records[..k] + [line];
      JoinedGrows(records[..k], line);
      at := at + |line| + 1;
      if !resource(line) {
        changed := true;
      }
      k := k + 1;
    }
    assert records[..k] == records;
    return true, at, changed;
  }

  /** The checks on the pieces of a window find exactly the oversized records. */
  lemma OversizedShows(file: Bytes, at: nat)
    requires at <= |file|
    ensures
      var p := Split(Window(file, at));
      Oversized(file, at) <==>
        |p.tail| > MAX_RECORD || exists k :: 0 <= k < |p.records| && |p.records[k]| + 1 > MAX_RECORD
  {
    var w := Window(file, at);
    NewlineMakesRecord(w);
    SplitJoins(w);
    if |file| - at > MAX_RECORD {
      var front := file[at..at + MAX_RECORD];
      assert w[..|w| - 1] == front;
      NewlineMakesRecord(front);
      SplitJoins(front);
      if Oversized(file, at) {
        NoRecordWithoutNewline(front);
        assert |w| == MAX_RECORD + 1;
        assert w[MAX_RECORD] == NEWLINE ==> Records(w) == [front] && |Records(w)[0]| + 1 > MAX_RECORD;
      }
    } else {
      assert |Split(w).tail| <= |w| <= MAX_RECORD;
    }
  }

  // ----- Whole runs -----

  lemma WindowOfWhole(file: Bytes, at: nat, whole: Bytes)
    requires at <= |file| <= |whole| && file == whole[..|file|]
    ensures at + |Window(file, at)| <= |file| && Window(file, at) == whole[at..at + |Window(file, at)|]
  {
  }

  lemma Rejoin(whole: Bytes, at: nat, taken: Bytes, tail: Bytes)
    requires at + |taken| + |tail| <= |whole| && whole[at..at + |taken| + |tail|] == taken + tail
    ensures whole[at..] == (taken + tail) + whole[at + |taken| + |tail|..]
    ensures whole[at + |taken|..] == tail + whole[at + |taken| + |tail|..]
  {
    assert (taken + tail)[|taken|..] == tail;
    assert whole[at..at + |taken| + |tail|][|taken|..] == whole[at + |taken|..at + |taken| + |tail|];
  }

  /** An observation takes records off the front of what is unread, also when more has been appended since. */
  lemma ObservationConsumes(file: Bytes, at: nat, whole: Bytes)
    requires at <= |file| <= |whole| && file == whole[..|file|]
    ensures
      var records := Records(Window(file, at));
      var next := at + |Joined(records)|;
      next <= |file| && Unread(whole, at) == records + Unread(whole, next)
  {
    hide Split, Joined, Window;
    var w := Window(file, at);
    WindowOfWhole(file, at, whole);
    SplitJoins(w);
    Rejoin(whole, at, Joined(Records(w)), Split(w).tail);
    SplitContinues(w, whole[at + |w|..]);
  }

  /** Observations of growing views of one append-only file. */
  ghost predicate Run(whole: Bytes, views: seq<Bytes>, ats: seq<nat>, flags: seq<bool>, resource: Bytes -> bool) {
    && |ats| == |views| + 1 && |flags| == |views| && ats[0] <= |whole|
    && (forall i | 0 <= i < |views| ::
          && ats[i] <= |views[i]| <= |whole| && views[i] == whole[..|views[i]|]
          && Observes(views[i], ats[i], resource, ats[i + 1], flags[i]))
  }

  /** The records that the first `n` observations went past. */
  ghost function Consumed(views: seq<Bytes>, ats: seq<nat>, n: nat): seq<Bytes>
    requires n <= |views| < |ats| && forall i | 0 <= i < |views| :: ats[i] <= |views[i]|
  {
    if n == 0 then [] else Consumed(views, ats, n - 1) + Records(Window(views[n - 1], ats[n - 1]))
  }

  lemma ProgressJoins(a: seq<Bytes>, b: seq<Bytes>, resource: Bytes -> bool)
    ensures Progress(a + b, resource) <==> Progress(a, resource) || Progress(b, resource)
  {
    if k :| 0 <= k < |a| && !resource(a[k]) {
      assert !resource((a + b)[k]);
    }
    if k :| 0 <= k < |b| && !resource(b[k]) {
      assert !resource((a + b)[|a| + k]);
    }
  }

  /** What one observation of a run adds. */
  lemma RunStep(whole: Bytes, views: seq<Bytes>, ats: seq<nat>, flags: seq<bool>, resource: Bytes -> bool, i: nat)
    requires Run(whole, views, ats, flags, resource) && i < |views|
    ensures
      var records := Records(Window(views[i], ats[i]));
      && ats[i] <= |views[i]| <= |whole| && ats[i + 1] <= |whole|
      && Unread(whole, ats[i]) == records + Unread(whole, ats[i + 1])
      && Consumed(views, ats, i + 1) == Consumed(views, ats, i) + records
      && flags[i] == Progress(records, resource)
      && |ats| == |views| + 1 && |flags| == |views|
  {
    hide Records, Window, Joined, Progress, Oversized, Unread;
    ObservationConsumes(views[i], ats[i], whole);
  }

  lemma Regroup<T>(a: seq<T>, b: seq<T>, c: seq<T>)
    ensures a + (b + c) == a + b + c
  {
  }

  /**
    Reading in windows is reading at once: what a run has consumed, followed by what it has not
    read, is the one-shot reading; each record is consumed once.
   */
  lemma {:induction false} IncrementalIsOneShot(
    whole: Bytes, views: seq<Bytes>, ats: seq<nat>, flags: seq<bool>, resource: Bytes -> bool, n: nat)
    requires Run(whole, views, ats, flags, resource) && n <= |views|
    ensures ats[n] <= |whole| && Unread(whole, ats[0]) == Consumed(views, ats, n) + Unread(whole, ats[n])
  {
    if n > 0 {
      RunStep(whole, views, ats, flags, resource, n - 1);
      hide *;
      IncrementalIsOneShot(whole, views, ats, flags, resource, n - 1);
      Regroup(Consumed(views, ats, n - 1), Records(Window(views[n - 1], ats[n - 1])), Unread(whole, ats[n]));
    }
  }

  /** One of the first `n` observations reported a change. */
  ghost predicate Reported(flags: seq<bool>, n: nat)
    requires n <= |flags|
  {
    exists i :: 0 <= i < n && flags[i]
  }

  lemma ReportedMore(flags: seq<bool>, n: nat)
    requires 0 < n <= |flags|
    ensures Reported(flags, n) <==> Reported(flags, n - 1) || flags[n - 1]
  {
  }

  lemma NothingConsumed(views: seq<Bytes>, ats: seq<nat>, flags: seq<bool>, resource: Bytes -> bool)
    requires |views| < |ats| && forall i | 0 <= i < |views| :: ats[i] <= |views[i]|
    ensures !Progress(Consumed(views, ats, 0), resource) && !Reported(flags, 0)
  {
  }

  /** A change was reported exactly when a consumed record was progress. */
  lemma {:induction false} ChangeIsProgress(
    whole: Bytes, views: seq<Bytes>, ats: seq<nat>, flags: seq<bool>, resource: Bytes -> bool, n: nat)
    requires Run(whole, views, ats, flags, resource) && n <= |views|
    ensures n <= |flags| && (Reported(flags, n) <==> Progress(Consumed(views, ats, n), resource))
  {
    assert |flags| == |views| < |ats| && forall i | 0 <= i < |views| :: ats[i] <= |views[i]|;
    hide *;
    if n > 0 {
      RunStep(whole, views, ats, flags, resource, n - 1);
      ChangeIsProgress(whole, views, ats, flags, resource, n - 1);
      ProgressJoins(Consumed(views, ats, n - 1), Records(Window(views[n - 1], ats[n - 1])), resource);
      ReportedMore(flags, n);
    } else {
      NothingConsumed(views, ats, flags, resource);
    }
  }

  /** A run that has caught up has seen exactly the one-shot records, and told of change exactly if there was any. */
  lemma CaughtUp(whole: Bytes, views: seq<Bytes>, ats: seq<nat>, flags: seq<bool>, resource: Bytes -> bool)
    requires Run(whole, views, ats, flags, resource)
    requires ats[|views|] <= |whole| && Unread(whole, ats[|views|]) == []
    ensures Consumed(views, ats, |views|) == Unread(whole, ats[0])
    ensures Reported(flags, |flags|) <==> Progress(Unread(whole, ats[0]), resource)
  {
    IncrementalIsOneShot(whole, views, ats, flags, resource, |views|);
    ChangeIsProgress(whole, views, ats, flags, resource, |views|);
    assert Consumed(views, ats, |views|) + [] == Unread(whole, ats[0]);
  }

  /** The next record decides: an observation is refused exactly when too much is unread and it does not fit. */
  lemma RefusedIffNextDoesNotFit(file: Bytes, at: nat)
    requires at <= |file|
    ensures Oversized(file, at) <==>
      |file| - at > MAX_RECORD && (Unread(file, at) == [] || |Unread(file, at)[0]| + 1 > MAX_RECORD)
  {
    hide Split, Joined;
    var rest := file[at..];
    if |rest| > MAX_RECORD {
      var front, after := rest[..MAX_RECORD], rest[MAX_RECORD..];
      assert rest == front + after && file[at..at + MAX_RECORD] == front;
      SplitContinues(front, after);
      NewlineMakesRecord(front);
      if NEWLINE in front {
        assert Records(rest)[0] == Records(front)[0];
      } else if Records(rest) != [] {
        SplitJoins(rest);
        FirstRecordEnds(Records(rest));
        assert rest[|Records(rest)[0]|] == NEWLINE;
        assert forall k | 0 <= k < MAX_RECORD :: front[k] == rest[k];
      }
    }
  }

  /** While a complete record that fits is unread, an observation succeeds and moves the cursor. */
  lemma AlwaysAdvances(file: Bytes, at: nat)
    requires at <= |file| && Unread(file, at) != [] && |Unread(file, at)[0]| + 1 <= MAX_RECORD
    ensures !Oversized(file, at) && |Joined(Records(Window(file, at)))| > 0
  {
    RefusedIffNextDoesNotFit(file, at);
    var rest, w := file[at..], Window(file, at);
    SplitJoins(rest);
    FirstRecordEnds(Records(rest));
    var k := |Records(rest)[0]|;
    assert rest[k] == NEWLINE && w[k] == rest[k];
    NewlineMakesRecord(w);
    RecordFits(Records(w), 0);
  }

  /** An oversized record is never skipped: appending more does not unblock it. */
  lemma OversizedStays(file: Bytes, whole: Bytes, at: nat)
    requires at <= |file| <= |whole| && file == whole[..|file|] && Oversized(file, at)
    ensures Oversized(whole, at)
  {
    assert whole[at..at + MAX_RECORD] == file[at..at + MAX_RECORD];
  }

  /** Every complete unread record fits. */
  ghost predicate AllFit(file: Bytes, at: nat)
    requires at <= |file|
  {
    forall k | 0 <= k < |Unread(file, at)| :: |Unread(file, at)[k]| + 1 <= MAX_RECORD
  }

  /**
    On a file that no longer changes and whose records all fit, at most one observation per unread
    byte catches up, without a refusal.
   */
  lemma {:induction false} CatchesUp(file: Bytes, at: nat, resource: Bytes -> bool)
    returns (views: seq<Bytes>, ats: seq<nat>, flags: seq<bool>)
    requires at <= |file| && AllFit(file, at)
    ensures Run(file, views, ats, flags, resource) && ats[0] == at && |views| <= |file| - at
    ensures forall i | 0 <= i < |views| :: views[i] == file
    ensures ats[|views|] <= |file| && Unread(file, ats[|views|]) == []
    decreases |file| - at
  {
    if Unread(file, at) == [] {
      views, ats, flags := [], [at], [];
    } else {
      AlwaysAdvances(file, at);
      assert file == file[..|file|];
      ObservationConsumes(file, at, file);
      var records := Records(Window(file, at));
      var next := at + |Joined(records)|;
      hide Records, Joined, Window, Unread, Oversized, Progress;
      assert forall k | 0 <= k < |Unread(file, next)| :: Unread(file, next)[k] == Unread(file, at)[|records| + k];
      var later, positions, changes := CatchesUp(file, next, resource);
      views, ats, flags := [file] + later, [at] + positions, [Progress(records, resource)] + changes;
      RunGrows(file, at, next, later, positions, changes, resource);
    }
  }

  lemma RunGrows(
    file: Bytes, at: nat, next: nat, views: seq<Bytes>, ats: seq<nat>, flags: seq<bool>, resource: Bytes -> bool)
    requires at <= |file| && !Oversized(file, at) && next == at + |Joined(Records(Window(file, at)))|
    requires Run(file, views, ats, flags, resource) && ats[0] == next
    ensures
      Run(file, [file] + views, [at] + ats, [Progress(Records(Window(file, at)), resource)] + flags, resource)
  {
    hide Records, Joined, Window, Oversized, Progress;
    assert file == file[..|file|];
  }
}

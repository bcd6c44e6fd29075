/**
  Draining one helper group.  Each element of `tables` is what the kernel shows
  at one later observation; processes may start, exit and fork in between.
 */
module HelperDrain {
  import opened Wrappers

  /** One incarnation of a process. */
  datatype Owner = Owner(pid: nat, start: nat)

  datatype Entry = Entry(start: nat, group: nat)

  type Table = map<nat, Entry>

  datatype Receipt = Receipt(owner: Owner, completed: Option<set<Owner>>)

  predicate Same(t: Table, o: Owner) {
    o.pid in t && t[o.pid].start == o.start
  }

  function GroupMembers(t: Table, group: nat): set<Owner> {
    set p | p in t && t[p].group == group :: Owner(p, t[p].start)
  }

  /** The receipt's saved census, or a census taken while the live leader proved the group. */
  predicate Entitled(r: Receipt, tables: seq<Table>, o: Owner) {
    if r.completed.Some? then o in r.completed.value
    else
      || o == r.owner
      || exists k ::
        0 <= k && k + 1 < |tables| && o in GroupMembers(tables[k], r.owner.pid) && Same(tables[k + 1], r.owner)
  }

  predicate SeenIn(seen: seq<Table>, o: Owner) {
    exists k :: 0 <= k < |seen| && Same(seen[k], o)
  }

  /** Everyone signalled was entitled to it and was observed alive under its recorded start. */
  predicate Justified(r: Receipt, seen: seq<Table>, tables: seq<Table>, signalled: seq<Owner>) {
    forall o | o in signalled :: Entitled(r, tables, o) && SeenIn(seen, o)
  }

  lemma SeenLater(tables: seq<Table>, n: nat, m: nat, o: Owner)
    requires n <= m <= |tables| && SeenIn(tables[..n], o)
    ensures SeenIn(tables[..m], o)
  {
    var k :| 0 <= k < n && Same(tables[..n][k], o);
    assert tables[..m][k] == tables[..n][k];
  }

  lemma JustifiedLater(r: Receipt, tables: seq<Table>, n: nat, m: nat, signalled: seq<Owner>)
    requires n <= m <= |tables| && Justified(r, tables[..n], tables, signalled)
    ensures Justified(r, tables[..m], tables, signalled)
  {
    forall o | o in signalled ensures SeenIn(tables[..m], o) {
      SeenLater(tables, n, m, o);
    }
  }

  lemma JustifiedMore(r: Receipt, seen: seq<Table>, tables: seq<Table>, signalled: seq<Owner>, o: Owner)
    requires Justified(r, seen, tables, signalled) && Entitled(r, tables, o) && SeenIn(seen, o)
    ensures Justified(r, seen, tables, signalled + [o])
  {
  }

  /** The incarnations that a drain may signal: the saved census, or one taken under a live leader. */
  function OwnedBy(r: Receipt, tables: seq<Table>): set<Owner>
    requires |tables| >= 4
  {
    if r.completed.Some? then r.completed.value
    else if r.owner.pid in tables[0] then {r.owner} + GroupMembers(tables[2], r.owner.pid)
    else {}
  }

  /** The group cannot be shown to be the receipt's own. */
  predicate Ambiguous(r: Receipt, tables: seq<Table>)
    requires |tables| >= 4
  {
    var group := r.owner.pid;
    || (group in tables[0] && !Same(tables[0], r.owner))          // another incarnation
    || (if r.completed.Some? then !(GroupMembers(tables[1], group) <= r.completed.value)
        else if group !in tables[0] then GroupMembers(tables[1], group) != {}
        else group !in tables[1] || tables[1][group].group != group || !Same(tables[3], r.owner))
  }

  /** Observed dead under the recorded start. */
  predicate GoneIn(seen: seq<Table>, o: Owner) {
    exists k :: 0 <= k < |seen| && !Same(seen[k], o)
  }

  /** Everyone in the set was signalled, or was already gone when its turn came. */
  predicate Served(seen: seq<Table>, owned: set<Owner>, signalled: seq<Owner>) {
    forall o | o in owned :: o in signalled || GoneIn(seen, o)
  }

  lemma ServedLater(tables: seq<Table>, n: nat, owned: set<Owner>, signalled: seq<Owner>)
    requires n < |tables| && Served(tables[..n], owned, signalled)
    ensures Served(tables[..n + 1], owned, signalled)
  {
    forall o | o in owned && GoneIn(tables[..n], o) ensures GoneIn(tables[..n + 1], o) {
      var k :| 0 <= k < n && !Same(tables[..n][k], o);
      assert tables[..n + 1][k] == tables[..n][k];
    }
  }

  lemma NobodyYet(r: Receipt, tables: seq<Table>)
    ensures forall n | 0 <= n <= |tables| :: Served(tables[..n], {}, []) && Justified(r, tables[..n], tables, [])
  {
  }

  /** One more owner gets its turn. */
  lemma TurnServes(
    tables: seq<Table>, n: nat, owned: set<Owner>, o: Owner, signalled: seq<Owner>, signalled': seq<Owner>)
    requires n < |tables| && Served(tables[..n], owned, signalled)
    requires signalled' == if Same(tables[n], o) then signalled + [o] else signalled
    ensures Served(tables[..n + 1], owned + {o}, signalled')
  {
    ServedLater(tables, n, owned, signalled);
    assert tables[..n + 1][n] == tables[n];
    assert forall x | x in signalled :: x in signalled';
    if !Same(tables[n], o) {
      assert GoneIn(tables[..n + 1], o);
    }
  }

  /** Which incarnations may be signalled, or a refusal. */
  method Capture(r: Receipt, tables: seq<Table>) returns (outcome: Outcome, owned: set<Owner>, gone: bool, used: nat)
    requires |tables| >= 4
    ensures used <= 4
    ensures outcome.Refused? <==> Ambiguous(r, tables)
    ensures outcome.Done? ==> owned == OwnedBy(r, tables) && forall o | o in owned :: Entitled(r, tables, o)
    ensures outcome.Done? ==> (gone <==> r.completed.None? && r.owner.pid !in tables[0])
    ensures outcome.Done? && !gone ==> used == if r.completed.Some? then 2 else 4
    ensures outcome.Done? && gone ==> used > 0 && GroupMembers(tables[used - 1], r.owner.pid) == {} && owned == {}
  {
    var group := r.owner.pid;
    outcome, owned, gone, used := Refused, {}, false, 1;
    if group in tables[0] && tables[0][group].start != r.owner.start {
      return;   // the pid belongs to another incarnation
    }
    if r.completed.Some? {
      used := 2;
      if GroupMembers(tables[1], group) <= r.completed.value {
        outcome, owned := Done, r.completed.value;
      }
      return;
    }
    used := 2;
    if group !in tables[0] {
      if GroupMembers(tables[1], group) == {} {
        outcome, gone := Done, true;
      }
      return;
    }
    if group !in tables[1] || tables[1][group].group != group {
      return;
    }
    used := 4;
    if !Same(tables[3], r.owner) {
      return;
    }
    owned := {r.owner} + GroupMembers(tables[2], group);
    outcome := Done;
  }

  /** After its capture an incarnation that has gone stays away. */
  ghost predicate NoneReturns(r: Receipt, tables: seq<Table>) {
    |tables| >= 4 ==>
      forall o, i, j |
        && o in OwnedBy(r, tables) && Captured(r) <= i < j < |tables| && !Same(tables[i], o) ::
        !Same(tables[j], o)
  }

  /** How many observations a capture takes. */
  function Captured(r: Receipt): nat {
    if r.completed.Some? then 2 else 4
  }

  lemma StrangerIsLeft(r: Receipt, tables: seq<Table>, i: nat, j: nat)
    requires |tables| >= 4 && NoneReturns(r, tables) && Captured(r) <= i < j < |tables|
    requires GroupMembers(tables[j], r.owner.pid) != {}
    requires forall o | o in OwnedBy(r, tables) :: !Same(tables[i], o)
    ensures exists o :: o in GroupMembers(tables[j], r.owner.pid) && o !in OwnedBy(r, tables)
  {
    var o :| o in GroupMembers(tables[j], r.owner.pid);
    assert Same(tables[j], o);
  }

  /**
    A drained helper group is empty at the last observation; every owned incarnation
    was signalled or already gone, nobody else ever is, and each was still alive
    under its recorded start.  A refusal means that the group was ambiguous, that
    observation ended, or that unrecorded members were left.
   */
  method DrainReceipt(r: Receipt, caller: nat, tables: seq<Table>)
    returns (outcome: Outcome, signalled: seq<Owner>, used: nat)
    ensures used <= |tables|
    ensures outcome.Done? ==> used > 0 && GroupMembers(tables[used - 1], r.owner.pid) == {}
    ensures Justified(r, tables[..used], tables, signalled)
    ensures forall i | 0 <= i < |signalled| - 1 :: signalled[i] != r.owner   // the leader goes last
    ensures r.owner.pid <= 1 || r.owner.pid == caller ==> outcome.Refused? && signalled == []
    ensures outcome.Done? ==>
      |tables| >= 4 && !Ambiguous(r, tables) && Served(tables[..used], OwnedBy(r, tables), signalled)
    ensures outcome.Refused? && r.owner.pid > 1 && r.owner.pid != caller && |tables| >= 4 && !Ambiguous(r, tables) ==>
      used + 1 >= |tables| || (used > 0 && GroupMembers(tables[used - 1], r.owner.pid) != {})
    // once all captured incarnations are gone for good, only a stranger makes it refuse before time is up
    ensures
      (&& outcome.Refused? && r.owner.pid > 1 && r.owner.pid != caller && |tables| >= 4 && !Ambiguous(r, tables)
       && NoneReturns(r, tables) && used + 1 < |tables|) ==>
      used > 0 && exists o :: o in GroupMembers(tables[used - 1], r.owner.pid) && o !in OwnedBy(r, tables)
  {
    hide Entitled, OwnedBy, Ambiguous, Served, Justified;
    outcome, signalled, used := Refused, [], 0;
    NobodyYet(r, tables);
    if r.owner.pid <= 1 || r.owner.pid == caller || |tables| < 4 {
      return;
    }
    var captured, owned, gone;
    captured, owned, gone, used := Capture(r, tables);
    if captured.Refused? || gone {
      outcome := captured;
      return;
    }
    // Every member before the leader; the leader last.
    var left := owned;
    assert owned - left == {};
    while left != {} && used < |tables|
      invariant Captured(r) <= used <= |tables| && left <= owned
      invariant r.owner in signalled ==> left == {}
      invariant Served(tables[..used], owned - left, signalled)
      invariant forall i | 0 <= i < |signalled| - 1 :: signalled[i] != r.owner
      invariant Justified(r, tables[..used], tables, signalled)
      decreases left
    {
      var o :| o in left;
      if o == r.owner && left != {r.owner} {
        o :| o in left && o != r.owner;
      }
      JustifiedLater(r, tables, used, used + 1, signalled);
      ghost var before := signalled;
      if Same(tables[used], o) {
        assert Same(tables[..used + 1][used], o);
        JustifiedMore(r, tables[..used + 1], tables, signalled, o);
        signalled := signalled + [o];
      }
      TurnServes(tables, used, owned - left, o, before, signalled);
      assert owned - left + {o} == owned - (left - {o});
      left, used := left - {o}, used + 1;
    }
    // Wait until every owned incarnation is gone, then count the group once more.
    while used < |tables| && exists o :: o in owned && Same(tables[used], o)
      invariant Captured(r) <= used <= |tables| && Served(tables[..used], owned - left, signalled)
      invariant Justified(r, tables[..used], tables, signalled)
    {
      JustifiedLater(r, tables, used, used + 1, signalled);
      ServedLater(tables, used, owned - left, signalled);
      used := used + 1;
    }
    if left != {} || used + 1 >= |tables| {
      return;   // the deadline passed
    }
    JustifiedLater(r, tables, used, used + 2, signalled);
    ServedLater(tables, used, owned - left, signalled);
    ServedLater(tables, used + 1, owned - left, signalled);
    assert owned - left == owned;
    if NoneReturns(r, tables) && GroupMembers(tables[used + 1], r.owner.pid) != {} {
      StrangerIsLeft(r, tables, used, used + 1);
    }
    used := used + 2;
    if GroupMembers(tables[used - 1], r.owner.pid) == {} {
      outcome := Done;
    }
  }
}

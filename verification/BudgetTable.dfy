/** The budgets table and its two writers, `enforce` and `release_reservation`
    (runtime/budget.py), as one uninterrupted call each, and how a call without interference is a
    run of the interleaved protocol. */
module BudgetTable {
  import opened Common
  import opened BudgetGate
  import A = Approvals
  import P = BudgetProtocol

  datatype Outcome =
    | Allowed(entries: seq<Status>)
    | Over(status: Status)
    | Withheld(status: Status)
    | SinkFailed

  /** A `budget.*` event, by the zone it reports. */
  datatype Notice = Notice(zone: Zone, key: Key)

  const PERIODS: seq<Period> := [AllTime, Daily, Monthly, Rolling30d]

  /** The locked rows as the SQL sorts them; whether the org rows come first depends on the
      workstream's name. */
  function LockOrder(ws: Workstream, orgFirst: bool): seq<Key> {
    if ws == ORG then PeriodsOf(ORG)
    else if orgFirst then PeriodsOf(ORG) + PeriodsOf(ws)
    else PeriodsOf(ws) + PeriodsOf(ORG)
  }

  function PeriodsOf(ws: Workstream): seq<Key> {
    seq(|PERIODS|, i requires 0 <= i < |PERIODS| => Key(ws, PERIODS[i]))
  }

  lemma LockOrderCovers(ws: Workstream, orgFirst: bool, k: Key)
    ensures k in LockOrder(ws, orgFirst) <==> Touches(ws, k)
  {
    PeriodsCover(ws, k);
    PeriodsCover(ORG, k);
  }

  lemma PeriodsCover(ws: Workstream, k: Key)
    ensures k in PeriodsOf(ws) <==> k.workstream == ws
  {
    if k.workstream == ws {
      var i := match k.period case AllTime => 0 case Daily => 1 case Monthly => 2 case Rolling30d => 3;
      assert PeriodsOf(ws)[i] == k;
    }
  }

  /** The spend each capped row of the workstream would read now. */
  function Spends(caps: map<Key, Caps>, log: seq<P.Entry>, since: map<Key, int>, ws: Workstream): map<Key, Amount>
    requires caps.Keys == since.Keys
  {
    map k <- caps | Touches(ws, k) && Capped(caps[k]) :: P.Spent(log, k, since[k])
  }

  function Own(entries: seq<Status>): seq<Status> {
    if entries == [] then []
    else
      var s := entries[|entries| - 1];
      Own(entries[..|entries| - 1]) + if s.key.workstream != ORG then [s] else []
  }

  function Ceiling(entries: seq<Status>): seq<Status> {
    if entries == [] then []
    else
      var s := entries[|entries| - 1];
      Ceiling(entries[..|entries| - 1]) + if s.key.workstream == ORG then [s] else []
  }

  /** The entries with the workstream's own allocation rows first, then the org ceiling. */
  function OwnFirst(entries: seq<Status>): seq<Status> {
    Own(entries) + Ceiling(entries)
  }

  lemma {:induction false} OwnFirstSplits(entries: seq<Status>)
    ensures forall s <- Own(entries) :: s in entries && s.key.workstream != ORG
    ensures forall s <- Ceiling(entries) :: s in entries && s.key.workstream == ORG
    ensures forall s <- entries :: s in if s.key.workstream != ORG then Own(entries) else Ceiling(entries)
  {
    if entries != [] {
      OwnFirstSplits(entries[..|entries| - 1]);
    }
  }

  /** When an org ceiling is the first in a zone, no own allocation is in that zone. */
  lemma OwnPrecede(entries: seq<Status>, i: nat, s: Status)
    requires i < |OwnFirst(entries)| && OwnFirst(entries)[i].key.workstream == ORG
    requires s in entries && s.key.workstream != ORG
    ensures s in OwnFirst(entries)[..i]
  {
    OwnFirstSplits(entries);
    var own := Own(entries);
    forall j | 0 <= j < |own| ensures own[j].key.workstream != ORG {
      assert own[j] in own;
    }
    assert OwnFirst(entries)[..i] == own + Ceiling(entries)[..i - |own|];
  }

  predicate FirstOfItsZone(ordered: seq<Status>, i: nat, s: Status) {
    && i < |ordered| && ordered[i] == s
    && forall earlier <- ordered[..i] :: earlier.ZoneOf() != s.ZoneOf()
  }

  predicate Precedes(keys: seq<Key>, a: Key, b: Key) {
    exists i, j :: 0 <= i < j < |keys| && keys[i] == a && keys[j] == b
  }

  lemma PrecedesGrows(keys: seq<Key>, last: Key)
    ensures forall a, b :: Precedes(keys, a, b) ==> Precedes(keys + [last], a, b)
    ensures forall a <- keys :: Precedes(keys + [last], a, last)
  {
    var longer := keys + [last];
    forall a, b | Precedes(keys, a, b) ensures Precedes(longer, a, b) {
      var i, j :| 0 <= i < j < |keys| && keys[i] == a && keys[j] == b;
      assert longer[i] == a && longer[j] == b;
    }
    forall a <- keys ensures Precedes(longer, a, last) {
      var i :| 0 <= i < |keys| && keys[i] == a;
      assert longer[i] == a && longer[|keys|] == last;
    }
  }

  ghost predicate InOrder(entries: seq<Status>, keys: seq<Key>) {
    forall i, j :: 0 <= i < j < |entries| ==> Precedes(keys, entries[i].key, entries[j].key)
  }

  lemma InOrderNext(entries: seq<Status>, keys: seq<Key>, k: Key)
    requires InOrder(entries, keys)
    ensures InOrder(entries, keys + [k])
  {
    PrecedesGrows(keys, k);
  }

  lemma InOrderAppend(entries: seq<Status>, keys: seq<Key>, s: Status)
    requires InOrder(entries, keys) && forall e <- entries :: e.key in keys
    ensures InOrder(entries + [s], keys + [s.key])
  {
    PrecedesGrows(keys, s.key);
    forall i, j | 0 <= i < j < |entries + [s]| ensures Precedes(keys + [s.key], (entries + [s])[i].key, (entries + [s])[j].key) {
      assert entries[i] in entries;
    }
  }

  /** No row is locked twice, so none is listed twice. */
  lemma LockOrderIsDistinct(ws: Workstream, orgFirst: bool)
    ensures Distinct(LockOrder(ws, orgFirst))
    ensures forall k :: !Precedes(LockOrder(ws, orgFirst), k, k)
  {
    assert Distinct(PERIODS);
  }

  function NoticesOf(ordered: seq<Status>): seq<Notice> {
    seq(|ordered|, i requires 0 <= i < |ordered| => Notice(ordered[i].ZoneOf(), ordered[i].key))
  }

  class Budgets {
    var caps: map<Key, Caps>
    var reserved: map<Key, Amount>
    var since: map<Key, int>
    var log: seq<P.Entry>
    var notices: seq<Notice>
    var approvals: seq<A.Approval>

    ghost predicate Valid()
      reads this
    {
      caps.Keys == reserved.Keys && caps.Keys == since.Keys
    }

    /** The status `enforce` builds for one row. */
    function StatusOf(k: Key, est: Amount): Status
      requires Valid() && k in caps
      reads this
    {
      Status(k, caps[k], P.Spent(log, k, since[k]), reserved[k], est)
    }

    /** Every entry is a capped row of the workstream with its current status, every such row among the
        keys has one, and they come in the keys' order. */
    ghost predicate Lists(entries: seq<Status>, keys: seq<Key>, est: Amount)
      requires Valid()
      reads this
    {
      && (forall s <- entries :: s.key in keys && s.key in caps && Capped(caps[s.key]) && s == StatusOf(s.key, est))
      && (forall k <- keys :: k in caps && Capped(caps[k]) ==> StatusOf(k, est) in entries)
      && InOrder(entries, keys)
    }

    lemma ListsNext(entries: seq<Status>, keys: seq<Key>, k: Key, est: Amount)
      requires Valid() && Lists(entries, keys, est)
      ensures Lists(if k in caps && Capped(caps[k]) then entries + [StatusOf(k, est)] else entries, keys + [k], est)
    {
      InOrderNext(entries, keys, k);
      if k in caps && Capped(caps[k]) {
        InOrderAppend(entries, keys, StatusOf(k, est));
      }
    }

    /** The statuses of the capped rows among the keys. */
    function Listing(keys: seq<Key>, est: Amount): seq<Status>
      requires Valid()
      reads this
    {
      if keys == [] then []
      else
        var k := keys[|keys| - 1];
        Listing(keys[..|keys| - 1], est) + if k in caps && Capped(caps[k]) then [StatusOf(k, est)] else []
    }

    lemma {:induction false} ListingLists(keys: seq<Key>, est: Amount)
      requires Valid()
      ensures Lists(Listing(keys, est), keys, est)
    {
      if keys != [] {
        var init, k := keys[..|keys| - 1], keys[|keys| - 1];
        ListingLists(init, est);
        ListsNext(Listing(init, est), init, k, est);
        assert keys == init + [k];
        assert Listing(init, est) + [] == Listing(init, est);
      }
    }

    method Entries(ws: Workstream, est: Amount, orgFirst: bool) returns (entries: seq<Status>)
      requires Valid()
      ensures Lists(entries, LockOrder(ws, orgFirst), est)
    {
      var keys := LockOrder(ws, orgFirst);
      entries := EntriesOf(keys, est);
      ListingLists(keys, est);
    }

    method EntriesOf(keys: seq<Key>, est: Amount) returns (entries: seq<Status>)
      requires Valid()
      ensures entries == Listing(keys, est)
    {
      entries := [];
      for i := 0 to |keys|
        invariant entries == Listing(keys[..i], est)
      {
        var k := keys[i];
        assert keys[..i + 1][..i] == keys[..i];
        if k in caps && Capped(caps[k]) {
          entries := entries + [StatusOf(k, est)];
        }
      }
      assert keys[..|keys|] == keys;
    }

    /** The first of the ordered entries in the zone. */
    static method FirstIn(ordered: seq<Status>, zone: Zone) returns (found: Option<Status>)
      ensures found.None? ==> forall s <- ordered :: s.ZoneOf() != zone
      ensures found.Some? ==> found.value.ZoneOf() == zone && exists i: nat :: FirstOfItsZone(ordered, i, found.value)
    {
      for i := 0 to |ordered|
        invariant forall s <- ordered[..i] :: s.ZoneOf() != zone
      {
        if ordered[i].ZoneOf() == zone {
          assert FirstOfItsZone(ordered, i, ordered[i]);
          return Some(ordered[i]);
        }
        assert ordered[..i + 1] == ordered[..i] + [ordered[i]];
      }
      assert ordered[..|ordered|] == ordered;
      return None;
    }

    /** The decision on the locked rows: the offending row, if any, own allocation first. */
    method Decide(ws: Workstream, est: Amount, purpose: Purpose, orgFirst: bool)
      returns (entries: seq<Status>, blocked: Option<Status>)
      requires Valid()
      ensures Lists(entries, LockOrder(ws, orgFirst), est)
      ensures blocked.None? <==> Admissible(caps, reserved, Spends(caps, log, since, ws), ws, est, purpose)
      ensures blocked.Some? ==> Offends(blocked.value, ws, est, purpose)
    {
      entries := Entries(ws, est, orgFirst);
      VerdictIsAdmissible(entries, ws, est, purpose, orgFirst);
      blocked := Blocking(entries, purpose);
      if blocked.Some? {
        BlockedIsOffending(entries, blocked.value, ws, est, orgFirst);
      }
    }

    /** `over` first; then, for a normal call, `withheld`. */
    static method Blocking(entries: seq<Status>, purpose: Purpose) returns (blocked: Option<Status>)
      ensures blocked.None? <==> forall s <- entries :: !s.Blocks(purpose)
      ensures blocked.Some? ==> exists i: nat :: FirstOfItsZone(OwnFirst(entries), i, blocked.value)
      ensures blocked.Some? && blocked.value.ZoneOf() != ZoneOver ==>
        blocked.value.ZoneOf() == ZoneReserve && purpose == Normal && forall s <- entries :: s.ZoneOf() != ZoneOver
    {
      OwnFirstSplits(entries);
      blocked := FirstIn(OwnFirst(entries), ZoneOver);
      if blocked.None? && purpose == Normal {
        blocked := FirstIn(OwnFirst(entries), ZoneReserve);
      }
      if blocked.Some? {
        var i: nat :| FirstOfItsZone(OwnFirst(entries), i, blocked.value);
        assert blocked.value in OwnFirst(entries);
      }
    }

    /** The row is over, or nothing is over and a normal call meets its reserve; and when it is an
        org ceiling, no own allocation is in that zone. */
    ghost predicate Offends(s: Status, ws: Workstream, est: Amount, purpose: Purpose)
      requires Valid()
      reads this
    {
      && s.key in caps && s == StatusOf(s.key, est) && Touches(ws, s.key) && Capped(caps[s.key])
      && (s.ZoneOf() == ZoneOver || (s.ZoneOf() == ZoneReserve && purpose == Normal && NoneIn(ZoneOver, ws, est)))
      && (s.key.workstream == ORG ==>
            forall k <- caps :: k.workstream == ws && ws != ORG && Capped(caps[k]) ==>
              StatusOf(k, est).ZoneOf() != s.ZoneOf())
    }

    ghost predicate NoneIn(zone: Zone, ws: Workstream, est: Amount)
      requires Valid()
      reads this
    {
      forall k <- caps :: Touches(ws, k) && Capped(caps[k]) ==> StatusOf(k, est).ZoneOf() != zone
    }

    /** The whole gate. `failAt` is the emit at which the event sink raises, if it does.

        The verdict is exactly admissibility of every capped row, a refusal names an offending
        row, only an allowed call reserves, and every other exit leaves each capped row's cushion
        as it was. A call over a cap leaves one open request to raise that row's budget. */
    method Enforce(ws: Workstream, est: Amount, purpose: Purpose, orgFirst: bool, failAt: Option<nat>,
                   raiseBudget: Key -> A.Fingerprint)
      returns (outcome: Outcome)
      requires Valid()
      modifies `reserved, `notices, `approvals
      ensures Valid()
      ensures approvals ==
        if outcome.Over? then A.Request(old(approvals), raiseBudget(outcome.status.key)) else old(approvals)
      ensures outcome.Allowed? ==>
        && old(Admissible(caps, reserved, Spends(caps, log, since, ws), ws, est, purpose))
        && reserved == old(Reserve(caps, reserved, ws, est))
        && old(Lists(outcome.entries, LockOrder(ws, orgFirst), est))
        && notices == old(notices) + NoticesOf(OwnFirst(outcome.entries))
      ensures outcome.Over? || outcome.Withheld? ==>
        && !old(Admissible(caps, reserved, Spends(caps, log, since, ws), ws, est, purpose))
        && reserved == old(reserved)
        && old(Offends(outcome.status, ws, est, purpose))
        && outcome.status.ZoneOf() == (if outcome.Over? then ZoneOver else ZoneReserve)
        && notices == old(notices) + [Notice(outcome.status.ZoneOf(), outcome.status.key)]
      ensures outcome.SinkFailed? ==>
        && failAt.Some?
        && forall k <- caps :: Capped(caps[k]) || !Touches(ws, k) ==> reserved[k] == old(reserved)[k]
    {
      var entries, blocked := Decide(ws, est, purpose, orgFirst);
      if blocked.Some? {
        outcome := Refuse(blocked.value, failAt, raiseBudget(blocked.value.key));
        return;
      }
      reserved := Reserve(caps, reserved, ws, est);
      var failed := Announce(OwnFirst(entries), ws, est, failAt);
      if failed {
        CushionRestored(old(reserved), ws, est);
        return SinkFailed;
      }
      return Allowed(entries);
    }

    /** The event of the offending row and, over a cap, the request to raise its budget. */
    method Refuse(s: Status, failAt: Option<nat>, f: A.Fingerprint) returns (outcome: Outcome)
      modifies `notices, `approvals
      ensures outcome == SinkFailed || outcome == if s.ZoneOf() == ZoneOver then Over(s) else Withheld(s)
      ensures outcome.SinkFailed? ==> failAt.Some? && approvals == old(approvals)
      ensures !outcome.SinkFailed? ==>
        && notices == old(notices) + [Notice(s.ZoneOf(), s.key)]
        && approvals == if outcome.Over? then A.Request(old(approvals), f) else old(approvals)
    {
      if failAt == Some(0) { return SinkFailed; }
      notices := notices + [Notice(s.ZoneOf(), s.key)];
      if s.ZoneOf() != ZoneOver { return Withheld(s); }
      if A.FindOpen(approvals, f).None? {
        if failAt == Some(1) { return SinkFailed; }
        approvals := approvals + [A.Approval(f, Pending)];
      }
      return Over(s);
    }

    lemma CushionRestored(earlier: map<Key, Amount>, ws: Workstream, est: Amount)
      requires earlier.Keys == caps.Keys
      ensures var back := Release(Reserve(caps, earlier, ws, est), ws, est);
        forall k <- caps :: Capped(caps[k]) || !Touches(ws, k) ==> k in back && back[k] == earlier[k]
    {
    }

    /** One event per entry after the reservation has committed; when an emit raises, the
        reservation is released before the error goes on. */
    method Announce(ordered: seq<Status>, ws: Workstream, est: Amount, failAt: Option<nat>) returns (failed: bool)
      requires Valid()
      modifies `reserved, `notices
      ensures Valid()
      ensures failed <==> failAt.Some? && failAt.value < |ordered|
      ensures reserved == if failed then Release(old(reserved), ws, est) else old(reserved)
      ensures notices == old(notices) + NoticesOf(ordered)[..if failed then failAt.value else |ordered|]
    {
      for i := 0 to |ordered|
        invariant Valid() && reserved == old(reserved)
        invariant notices == old(notices) + NoticesOf(ordered)[..i]
        invariant failAt.Some? ==> i <= failAt.value
      {
        if failAt == Some(i) {
          ReleaseReservation(ws, est);
          return true;
        }
        notices := notices + [Notice(ordered[i].ZoneOf(), ordered[i].key)];
      }
      return false;
    }

    lemma BlockedIsOffending(entries: seq<Status>, blocked: Status, ws: Workstream, est: Amount, orgFirst: bool)
      requires Valid() && Lists(entries, LockOrder(ws, orgFirst), est)
      requires exists i: nat :: FirstOfItsZone(OwnFirst(entries), i, blocked)
      ensures blocked.key in caps && blocked == StatusOf(blocked.key, est)
      ensures Touches(ws, blocked.key) && Capped(caps[blocked.key])
      ensures blocked.key.workstream == ORG ==>
        forall k <- caps :: k.workstream == ws && ws != ORG && Capped(caps[k]) ==>
          StatusOf(k, est).ZoneOf() != blocked.ZoneOf()
      ensures forall k <- caps :: Touches(ws, k) && Capped(caps[k]) ==> StatusOf(k, est) in entries
    {
      OwnFirstSplits(entries);
      forall k: Key ensures k in LockOrder(ws, orgFirst) <==> Touches(ws, k) {
        LockOrderCovers(ws, orgFirst, k);
      }
      var i: nat :| FirstOfItsZone(OwnFirst(entries), i, blocked);
      assert blocked in OwnFirst(entries);
      if blocked.key.workstream == ORG {
        forall k <- caps | k.workstream == ws && ws != ORG && Capped(caps[k])
          ensures StatusOf(k, est).ZoneOf() != blocked.ZoneOf()
        {
          OwnPrecede(entries, i, StatusOf(k, est));
        }
      }
    }

    lemma VerdictIsAdmissible(entries: seq<Status>, ws: Workstream, est: Amount, purpose: Purpose, orgFirst: bool)
      requires Valid() && Lists(entries, LockOrder(ws, orgFirst), est)
      ensures Admissible(caps, reserved, Spends(caps, log, since, ws), ws, est, purpose)
        <==> forall s <- entries :: !s.Blocks(purpose)
    {
      forall k: Key ensures k in LockOrder(ws, orgFirst) <==> Touches(ws, k) {
        LockOrderCovers(ws, orgFirst, k);
      }
      var spent := Spends(caps, log, since, ws);
      forall k <- caps | Touches(ws, k) && Capped(caps[k])
        ensures Status(k, caps[k], spent[k], reserved[k], est) == StatusOf(k, est) && StatusOf(k, est) in entries
      {
      }
    }

    /** Takes the estimate off every row the call touches, floored at zero. */
    method ReleaseReservation(ws: Workstream, est: Amount)
      requires Valid()
      modifies `reserved
      ensures Valid() && reserved == Release(old(reserved), ws, est)
    {
      if est == ZERO {
        assert forall k <- reserved :: FloorMinus(reserved[k], est) == reserved[k];
        return;
      }
      reserved := Release(reserved, ws, est);
    }
  }

  // ----- an uninterrupted enforce is a run of the protocol -----------------------------------------

  /** Lock, read every row the lock returned, decide. */
  function EnforceOps(rows: seq<Key>, c: nat, ws: Workstream, est: Amount, purpose: Purpose): seq<P.Op> {
    LockAndRead(rows, c, ws, est, purpose) + [P.Decide(c)]
  }

  function LockAndRead(rows: seq<Key>, c: nat, ws: Workstream, est: Amount, purpose: Purpose): seq<P.Op> {
    if rows == [] then [P.Lock(ws, est, purpose)]
    else LockAndRead(rows[..|rows| - 1], c, ws, est, purpose) + [P.Read(c, rows[|rows| - 1])]
  }

  function Readings(t: P.Table, l: P.Ledger, ws: Workstream, rows: seq<Key>): map<Key, Amount>
    requires P.WellFormed(t, l)
  {
    map k <- t | k in rows && Touches(ws, k) && Capped(t[k]) :: P.SpentNow(l, k)
  }

  /** The ledger with one more call, holding the lock with these readings. */
  function WithLocked(l: P.Ledger, ws: Workstream, est: Amount, purpose: Purpose, m: map<Key, Amount>): P.Ledger {
    l.(calls := l.calls + [P.Call(ws, est, purpose, P.Locked(m))])
  }

  lemma ReadCollects(t: P.Table, l: P.Ledger, rows: seq<Key>, k: Key, ws: Workstream, est: Amount, purpose: Purpose)
    requires P.WellFormed(t, l)
    ensures P.Apply(t, WithLocked(l, ws, est, purpose, Readings(t, l, ws, rows)), P.Read(|l.calls|, k))
      == WithLocked(l, ws, est, purpose, Readings(t, l, ws, rows + [k]))
  {
    var c := P.Call(ws, est, purpose, P.Locked(Readings(t, l, ws, rows)));
    var read := c.(phase := P.Locked(Readings(t, l, ws, rows + [k])));
    assert (l.calls + [c])[|l.calls| := read] == l.calls + [read];
    if k in t && Touches(ws, k) && Capped(t[k]) && k !in rows {
      assert Readings(t, l, ws, rows + [k]) == Readings(t, l, ws, rows)[k := P.SpentNow(l, k)];
    } else {
      assert Readings(t, l, ws, rows + [k]) == Readings(t, l, ws, rows);
    }
  }

  lemma {:induction false} ReadsCollect(t: P.Table, l: P.Ledger, rows: seq<Key>, ws: Workstream, est: Amount, purpose: Purpose)
    requires P.WellFormed(t, l) && P.Lockable(t, l, ws)
    ensures P.Run(t, l, LockAndRead(rows, |l.calls|, ws, est, purpose))
      == WithLocked(l, ws, est, purpose, Readings(t, l, ws, rows))
  {
    var c := |l.calls|;
    var ops := LockAndRead(rows, c, ws, est, purpose);
    if rows == [] {
      assert ops[..0] == [];
      assert Readings(t, l, ws, rows) == map[];
    } else {
      var init, k := rows[..|rows| - 1], rows[|rows| - 1];
      ReadsCollect(t, l, init, ws, est, purpose);
      assert ops[..|ops| - 1] == LockAndRead(init, c, ws, est, purpose);
      ReadCollects(t, l, init, k, ws, est, purpose);
      assert rows == init + [k];
    }
  }

  lemma DecideSettles(t: P.Table, l: P.Ledger, ws: Workstream, est: Amount, purpose: Purpose)
    requires P.WellFormed(t, l)
    ensures var spends := Spends(t, l.log, l.since, ws);
      var admitted := Admissible(t, l.reserved, spends, ws, est, purpose);
      P.Apply(t, WithLocked(l, ws, est, purpose, spends), P.Decide(|l.calls|))
        == l.(reserved := if admitted then Reserve(t, l.reserved, ws, est) else l.reserved,
              calls := l.calls + [P.Call(ws, est, purpose, if admitted then P.InFlight else P.Refused)])
  {
    var locked := WithLocked(l, ws, est, purpose, Spends(t, l.log, l.since, ws));
    assert P.AllRead(t, locked.calls[|l.calls|]);
  }

  /** A call that nothing interrupts reserves exactly when `Enforce` allows it, and the same
      amounts; otherwise it reserves nothing. */
  lemma UninterruptedEnforce(t: P.Table, l: P.Ledger, ws: Workstream, est: Amount, purpose: Purpose, orgFirst: bool)
    requires P.WellFormed(t, l) && P.Lockable(t, l, ws)
    ensures var admitted := Admissible(t, l.reserved, Spends(t, l.log, l.since, ws), ws, est, purpose);
      P.Run(t, l, EnforceOps(LockOrder(ws, orgFirst), |l.calls|, ws, est, purpose))
        == l.(reserved := if admitted then Reserve(t, l.reserved, ws, est) else l.reserved,
              calls := l.calls + [P.Call(ws, est, purpose, if admitted then P.InFlight else P.Refused)])
  {
    var c := |l.calls|;
    var rows := LockOrder(ws, orgFirst);
    var ops := EnforceOps(rows, c, ws, est, purpose);
    assert Readings(t, l, ws, rows) == Spends(t, l.log, l.since, ws) by {
      forall k: Key ensures k in rows <==> Touches(ws, k) {
        LockOrderCovers(ws, orgFirst, k);
      }
    }
    ReadsCollect(t, l, rows, ws, est, purpose);
    assert ops[..|ops| - 1] == LockAndRead(rows, c, ws, est, purpose);
    DecideSettles(t, l, ws, est, purpose);
  }

  /** The ledger with one more call, in this phase. */
  function WithCall(l: P.Ledger, ws: Workstream, est: Amount, purpose: Purpose, phase: P.Phase): P.Ledger {
    l.(calls := l.calls + [P.Call(ws, est, purpose, phase)])
  }

  lemma RecordAppends(t: P.Table, l: P.Ledger, ws: Workstream, est: Amount, purpose: Purpose, actual: Amount)
    requires P.WellFormed(t, l)
    ensures P.Apply(t, WithCall(l, ws, est, purpose, P.InFlight), P.Record(|l.calls|, actual))
      == WithCall(l.(log := l.log + [P.Entry(ws, l.now, actual)]), ws, est, purpose, P.Recorded(actual))
  {
    var c := P.Call(ws, est, purpose, P.InFlight);
    assert (l.calls + [c])[|l.calls| := c.(phase := P.Recorded(actual))] == l.calls + [c.(phase := P.Recorded(actual))];
  }

  lemma ReturnReleases(t: P.Table, l: P.Ledger, ws: Workstream, est: Amount, purpose: Purpose, actual: Option<Amount>)
    requires P.WellFormed(t, l) && P.Lockable(t, l, ws)
    ensures P.Apply(t, WithCall(l, ws, est, purpose, if actual.Some? then P.Recorded(actual.value) else P.InFlight), P.Return(|l.calls|))
      == WithCall(l.(reserved := Release(l.reserved, ws, est)), ws, est, purpose, P.Released(actual))
  {
    var c := P.Call(ws, est, purpose, if actual.Some? then P.Recorded(actual.value) else P.InFlight);
    var done := c.(phase := P.Released(actual));
    assert P.Lockable(t, WithCall(l, ws, est, purpose, c.phase), ws);
    assert (l.calls + [c])[|l.calls| := done] == l.calls + [done];
  }

  /** Record the spend, unless the call was aborted, and return the reservation. */
  function FinishOps(c: nat, actual: Option<Amount>): seq<P.Op> {
    (if actual.Some? then [P.Record(c, actual.value)] else []) + [P.Return(c)]
  }

  /** All of a finishing call but its last step. */
  function UpToReturn(ops: seq<P.Op>, c: nat, actual: Option<Amount>): seq<P.Op> {
    if actual.Some? then ops + [P.Record(c, actual.value)] else ops
  }

  lemma FinishEndsWithReturn(ops: seq<P.Op>, c: nat, actual: Option<Amount>)
    ensures ops + FinishOps(c, actual) == UpToReturn(ops, c, actual) + [P.Return(c)]
  {
  }

  lemma {:induction false} UpToReturnRuns(t: P.Table, l: P.Ledger, ops: seq<P.Op>, held: P.Ledger, ws: Workstream, est: Amount, purpose: Purpose,
                       actual: Option<Amount>)
    requires P.WellFormed(t, l) && P.WellFormed(t, held)
    requires P.Run(t, l, ops) == WithCall(held, ws, est, purpose, P.InFlight)
    ensures P.Run(t, l, UpToReturn(ops, |held.calls|, actual))
      == WithCall(Logged(held, ws, actual), ws, est, purpose, if actual.Some? then P.Recorded(actual.value) else P.InFlight)
  {
    if actual.Some? {
      P.RunSnoc(t, l, ops, P.Record(|held.calls|, actual.value));
      RecordAppends(t, held, ws, est, purpose, actual.value);
    }
  }

  /** The ledger after the call's spend is recorded, if it is. */
  function Logged(l: P.Ledger, ws: Workstream, actual: Option<Amount>): P.Ledger {
    if actual.Some? then l.(log := l.log + [P.Entry(ws, l.now, actual.value)]) else l
  }

  /** The whole life of an admitted call that nothing interrupts: it reserves, its spend is in the log, its
      reservation is returned; an aborted one spends nothing. */
  lemma {:induction false} UninterruptedCall(t: P.Table, l: P.Ledger, ws: Workstream, est: Amount, purpose: Purpose, orgFirst: bool, actual: Option<Amount>)
    requires P.WellFormed(t, l) && P.Lockable(t, l, ws)
    requires Admissible(t, l.reserved, Spends(t, l.log, l.since, ws), ws, est, purpose)
    ensures P.Run(t, l, EnforceOps(LockOrder(ws, orgFirst), |l.calls|, ws, est, purpose) + FinishOps(|l.calls|, actual))
      == WithCall(Logged(l.(reserved := Release(Reserve(t, l.reserved, ws, est), ws, est)), ws, actual),
                  ws, est, purpose, P.Released(actual))
  {
    var c, ops := |l.calls|, EnforceOps(LockOrder(ws, orgFirst), |l.calls|, ws, est, purpose);
    var held := l.(reserved := Reserve(t, l.reserved, ws, est));
    UninterruptedEnforce(t, l, ws, est, purpose, orgFirst);
    UpToReturnRuns(t, l, ops, held, ws, est, purpose, actual);
    FinishEndsWithReturn(ops, c, actual);
    P.RunSnoc(t, l, UpToReturn(ops, c, actual), P.Return(c));
    ReturnReleases(t, Logged(held, ws, actual), ws, est, purpose, actual);
  }

  // ----- the limit of the accounting ------------------------------------------------------------------

  /** Call a is admitted while the row only tracks, the row is given a cap, call b is admitted and
      reserves; then a's release takes its estimate out of b's cushion. The cushion is still b's
      estimate exactly when a or b estimated nothing in each column. */
  lemma CapGivenMidFlight(before: map<Key, Caps>, after: map<Key, Caps>, reserved: map<Key, Amount>,
                          k: Key, ws: Workstream, a: Amount, b: Amount)
    requires k in before && k in after && k in reserved && reserved[k] == ZERO
    requires !Capped(before[k]) && Capped(after[k]) && Touches(ws, k)
    ensures var end := Release(Reserve(after, Reserve(before, reserved, ws, a), ws, b), ws, a);
      && k in end
      && (end[k] == b <==> (a.usd == 0.0 || b.usd == 0.0) && (a.tokens == 0 || b.tokens == 0))
  {
  }
}

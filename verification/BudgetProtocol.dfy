/** The reservation protocol over every interleaving: `enforce` split at its lock (lock the rows,
    read each row's spend, decide and reserve and unlock), other calls recording their spend and
    releasing in between. Caps are fixed during a run. */
module BudgetProtocol {
  import opened Common
  import opened BudgetGate

  type Table = map<Key, Caps>

  /** One `model.call` event. */
  datatype Entry = Entry(workstream: Workstream, at: int, cost: Amount)

  datatype Phase =
    | Locked(readings: map<Key, Amount>)      // inside the transaction, with the spend read so far
    | Refused                              // over or withheld
    | InFlight                             // admitted, nothing recorded yet
    | Recorded(actual: Amount)             // spend recorded, reservation still held
    | Released(spent: Option<Amount>)      // reservation returned; None for an aborted call

  datatype Call = Call(workstream: Workstream, est: Amount, purpose: Purpose, phase: Phase)

  /** `since` is where each row's window starts. */
  datatype Ledger = Ledger(now: int, reserved: map<Key, Amount>, since: map<Key, int>,
                           log: seq<Entry>, calls: seq<Call>)

  function Spent(log: seq<Entry>, k: Key, since: int): Amount {
    if log == [] then ZERO
    else
      var e := log[|log| - 1];
      var rest := Spent(log[..|log| - 1], k, since);
      if Touches(e.workstream, k) && e.at >= since then Plus(rest, e.cost) else rest
  }

  function SpentNow(l: Ledger, k: Key): Amount
    requires k in l.since
  {
    Spent(l.log, k, l.since[k])
  }

  /** Lock all rows of the call, or wait. */
  predicate Lockable(t: Table, l: Ledger, ws: Workstream) {
    forall c <- l.calls :: c.phase.Locked? ==> !SharesRow(t, c.workstream, ws)
  }

  predicate SharesRow(t: Table, a: Workstream, b: Workstream) {
    exists k <- t :: Touches(a, k) && Touches(b, k)
  }

  predicate AllRead(t: Table, c: Call)
    requires c.phase.Locked?
  {
    forall k <- t :: Touches(c.workstream, k) && Capped(t[k]) ==> k in c.phase.readings
  }

  datatype Op =
    | Tick(dt: nat)
    | Roll(k: Key, since: int)
    | Lock(workstream: Workstream, est: Amount, purpose: Purpose)
    | Read(c: nat, k: Key)
    | Decide(c: nat)
    | Record(c: nat, actual: Amount)
    | Return(c: nat)

  predicate WellFormed(t: Table, l: Ledger) {
    l.reserved.Keys == t.Keys && l.since.Keys == t.Keys
  }

  /** Would `Decide` admit the call? */
  predicate Admits(t: Table, l: Ledger, c: nat)
    requires WellFormed(t, l)
  {
    && c < |l.calls| && l.calls[c].phase.Locked? && AllRead(t, l.calls[c])
    && Admissible(t, l.reserved, l.calls[c].phase.readings, l.calls[c].workstream, l.calls[c].est, l.calls[c].purpose)
  }

  function SetPhase(calls: seq<Call>, c: nat, p: Phase): seq<Call>
    requires c < |calls|
  {
    calls[c := calls[c].(phase := p)]
  }

  function Apply(t: Table, l: Ledger, op: Op): Ledger
    requires WellFormed(t, l)
  {
    match op
    case Tick(dt) => l.(now := l.now + dt)
    case Roll(k, since) => if k in t && since >= l.since[k] then l.(since := l.since[k := since]) else l
    case Lock(ws, est, purpose) =>
      if Lockable(t, l, ws) then l.(calls := l.calls + [Call(ws, est, purpose, Locked(map[]))]) else l
    case Read(c, k) =>
      if c < |l.calls| && l.calls[c].phase.Locked? && k in t && Capped(t[k]) && Touches(l.calls[c].workstream, k)
         && k !in l.calls[c].phase.readings then
        l.(calls := SetPhase(l.calls, c, Locked(l.calls[c].phase.readings[k := SpentNow(l, k)])))
      else l
    case Decide(c) =>
      if !(c < |l.calls| && l.calls[c].phase.Locked? && AllRead(t, l.calls[c])) then l
      else if Admits(t, l, c) then
        l.(reserved := Reserve(t, l.reserved, l.calls[c].workstream, l.calls[c].est),
           calls := SetPhase(l.calls, c, InFlight))
      else l.(calls := SetPhase(l.calls, c, Refused))
    case Record(c, actual) =>
      if c < |l.calls| && l.calls[c].phase.InFlight? then
        l.(log := l.log + [Entry(l.calls[c].workstream, l.now, actual)],
           calls := SetPhase(l.calls, c, Recorded(actual)))
      else l
    case Return(c) =>
      if c < |l.calls| && (l.calls[c].phase.InFlight? || l.calls[c].phase.Recorded?)
         && Lockable(t, l, l.calls[c].workstream) then
        l.(reserved := Release(l.reserved, l.calls[c].workstream, l.calls[c].est),
           calls := SetPhase(l.calls, c, Released(
             if l.calls[c].phase.Recorded? then Some(l.calls[c].phase.actual) else None)))
      else l
  }

  lemma ApplyWellFormed(t: Table, l: Ledger, op: Op)
    requires WellFormed(t, l)
    ensures WellFormed(t, Apply(t, l, op))
  {
  }

  // ----- sums over the calls ----------------------------------------------------------------------

  datatype Kind = Unrecorded | Unreleased | Overrun | Charged

  function Excess(c: Call, actual: Amount, r: Resource): real {
    if Of(actual, r) > Of(c.est, r) then Of(actual, r) - Of(c.est, r) else 0.0
  }

  function Weight(kind: Kind, c: Call, k: Key, r: Resource): (w: real)
    ensures w >= 0.0
  {
    if !Touches(c.workstream, k) then 0.0
    else
      match kind
      case Unrecorded => if c.phase.InFlight? then Of(c.est, r) else 0.0
      case Unreleased => if c.phase.InFlight? || c.phase.Recorded? then Of(c.est, r) else 0.0
      case Overrun =>
        if c.phase.Recorded? then Excess(c, c.phase.actual, r)
        else if c.phase.Released? && c.phase.spent.Some? then Excess(c, c.phase.spent.value, r)
        else 0.0
      case Charged =>
        if c.phase.Recorded? then Of(c.phase.actual, r)
        else if c.phase.Released? && c.phase.spent.Some? then Of(c.phase.spent.value, r)
        else 0.0
  }

  function Total(kind: Kind, calls: seq<Call>, k: Key, r: Resource): (sum: real)
    ensures sum >= 0.0
  {
    if calls == [] then 0.0
    else Total(kind, calls[..|calls| - 1], k, r) + Weight(kind, calls[|calls| - 1], k, r)
  }

  lemma TotalAppend(kind: Kind, calls: seq<Call>, c: Call, k: Key, r: Resource)
    ensures Total(kind, calls + [c], k, r) == Total(kind, calls, k, r) + Weight(kind, c, k, r)
  {
  }

  lemma {:induction false} TotalUpdate(kind: Kind, calls: seq<Call>, i: nat, c: Call, k: Key, r: Resource)
    requires i < |calls|
    ensures Total(kind, calls[i := c], k, r)
      == Total(kind, calls, k, r) - Weight(kind, calls[i], k, r) + Weight(kind, c, k, r)
    ensures Weight(kind, calls[i], k, r) <= Total(kind, calls, k, r)
  {
    var n := |calls| - 1;
    if i < n {
      TotalUpdate(kind, calls[..n], i, c, k, r);
      assert calls[i := c][..n] == calls[..n][i := c];
    } else {
      assert calls[i := c][..n] == calls[..n];
    }
  }

  lemma {:induction false} UnrecordedWithinUnreleased(calls: seq<Call>, k: Key, r: Resource)
    ensures Total(Unrecorded, calls, k, r) <= Total(Unreleased, calls, k, r)
  {
    if calls != [] {
      UnrecordedWithinUnreleased(calls[..|calls| - 1], k, r);
    }
  }

  lemma {:induction false} LaterWindowSpendsLess(log: seq<Entry>, k: Key, since: int, later: int, r: Resource)
    requires since <= later
    ensures Of(Spent(log, k, later), r) <= Of(Spent(log, k, since), r)
  {
    if log != [] {
      LaterWindowSpendsLess(log[..|log| - 1], k, since, later, r);
    }
  }

  lemma SpentAppend(log: seq<Entry>, e: Entry, k: Key, since: int, r: Resource)
    ensures Of(Spent(log + [e], k, since), r)
      == Of(Spent(log, k, since), r) + if Touches(e.workstream, k) && e.at >= since then Of(e.cost, r) else 0.0
  {
  }

  /** A window that starts after every recorded call starts empty. */
  lemma {:induction false} NewWindowIsEmpty(t: Table, l: Ledger, k: Key, since: int)
    requires WellFormed(t, l) && k in t && since >= l.since[k] && forall e <- l.log :: e.at < since
    ensures var after := Apply(t, l, Roll(k, since));
      && after.since.Keys == l.since.Keys && SpentNow(after, k) == ZERO
      && after.reserved == l.reserved && after.calls == l.calls && after.log == l.log
      && forall other <- t :: other != k ==> after.since[other] == l.since[other]
  {
    NothingSince(l.log, k, since);
  }

  lemma {:induction false} NothingSince(log: seq<Entry>, k: Key, since: int)
    requires forall e <- log :: e.at < since
    ensures Spent(log, k, since) == ZERO
  {
    if log != [] {
      assert log[|log| - 1] in log;
      NothingSince(log[..|log| - 1], k, since);
    }
  }

  // ----- the exposure of a row -----------------------------------------------------------------------

  /** Recorded spend plus estimates still to be recorded, not counting recorded overruns. */
  function Exposure(l: Ledger, k: Key, r: Resource): real
    requires k in l.since
  {
    Of(SpentNow(l, k), r) + Total(Unrecorded, l.calls, k, r) - Total(Overrun, l.calls, k, r)
  }

  predicate ReservedExact(t: Table, l: Ledger, k: Key, r: Resource)
    requires k in t && k in l.reserved
  {
    Of(l.reserved[k], r) == if Capped(t[k]) then Total(Unreleased, l.calls, k, r) else 0.0
  }

  /** While a call holds the lock, a row's exposure stays within what the call read. */
  predicate ReadCovers(l: Ledger, c: Call, k: Key, r: Resource)
    requires c.phase.Locked? && k in c.phase.readings && k in l.since && k in l.reserved
  {
    Exposure(l, k, r) <= Of(c.phase.readings[k], r) + Of(l.reserved[k], r)
  }

  ghost predicate ReadsCover(t: Table, l: Ledger, c: Call)
    requires WellFormed(t, l)
  {
    c.phase.Locked? ==>
      forall k <- c.phase.readings :: k in t && Touches(c.workstream, k) && Capped(t[k])
        && forall r: Resource :: ReadCovers(l, c, k, r)
  }

  ghost predicate Exclusive(t: Table, calls: seq<Call>) {
    forall i, j :: 0 <= i < j < |calls| && calls[i].phase.Locked? && calls[j].phase.Locked? ==>
      !SharesRow(t, calls[i].workstream, calls[j].workstream)
  }

  ghost predicate Inv(t: Table, l: Ledger) {
    && WellFormed(t, l)
    && (forall k <- t, r: Resource :: ReservedExact(t, l, k, r))
    && (forall c <- l.calls :: ReadsCover(t, l, c))
    && Exclusive(t, l.calls)
  }

  // ----- what each operation does to one row ----------------------------------------------------------

  /** The value the gate compares with the limits when it admits call c on row k. */
  function Gate(l: Ledger, c: nat, k: Key, r: Resource): real
    requires c < |l.calls| && l.calls[c].phase.Locked? && k in l.calls[c].phase.readings && k in l.reserved
  {
    Of(l.calls[c].phase.readings[k], r) + Of(l.reserved[k], r) + Of(l.calls[c].est, r)
  }

  /** Is this operation an admission that reserves on row k? */
  predicate AdmitsOn(t: Table, l: Ledger, op: Op, k: Key)
    requires WellFormed(t, l)
  {
    op.Decide? && Admits(t, l, op.c) && k in t && Capped(t[k]) && Touches(l.calls[op.c].workstream, k)
  }

  predicate ApplyWF(t: Table, l: Ledger, op: Op)
    requires WellFormed(t, l)
  {
    WellFormed(t, Apply(t, l, op))
  }

  lemma UpdateCounts(l: Ledger, c: nat, call: Call, k: Key, r: Resource)
    requires c < |l.calls|
    ensures Total(Unrecorded, l.calls[c := call], k, r)
      == Total(Unrecorded, l.calls, k, r) - Weight(Unrecorded, l.calls[c], k, r) + Weight(Unrecorded, call, k, r)
    ensures Total(Unreleased, l.calls[c := call], k, r)
      == Total(Unreleased, l.calls, k, r) - Weight(Unreleased, l.calls[c], k, r) + Weight(Unreleased, call, k, r)
    ensures Total(Overrun, l.calls[c := call], k, r)
      == Total(Overrun, l.calls, k, r) - Weight(Overrun, l.calls[c], k, r) + Weight(Overrun, call, k, r)
    ensures Weight(Unreleased, l.calls[c], k, r) <= Total(Unreleased, l.calls, k, r)
  {
    TotalUpdate(Unrecorded, l.calls, c, call, k, r);
    TotalUpdate(Unreleased, l.calls, c, call, k, r);
    TotalUpdate(Overrun, l.calls, c, call, k, r);
  }

  /** Recording spend moves the estimate out of the unrecorded sum and the spend into the row;
      what it exceeds the estimate by is an overrun. */
  lemma ExposureRecord(t: Table, l: Ledger, c: nat, actual: Amount, k: Key, r: Resource)
    requires WellFormed(t, l) && k in t && Capped(t[k]) && c < |l.calls| && l.calls[c].phase.InFlight?
    ensures ApplyWF(t, l, Record(c, actual))
    ensures Exposure(Apply(t, l, Record(c, actual)), k, r) <= Exposure(l, k, r)
  {
    var recorded := l.calls[c].(phase := Recorded(actual));
    UpdateCounts(l, c, recorded, k, r);
    RecordWeighs(l.calls[c], recorded, k, r);
    RecordSpendsAtMost(t, l, c, actual, k, r);
  }

  /** The estimate leaves the unrecorded sum; spend above it becomes an overrun. */
  lemma RecordWeighs(before: Call, recorded: Call, k: Key, r: Resource)
    requires before.phase.InFlight? && recorded.phase.Recorded? && recorded == before.(phase := recorded.phase)
    ensures Weight(Unrecorded, recorded, k, r) == 0.0 && Weight(Overrun, before, k, r) == 0.0
    ensures (if Touches(before.workstream, k) then Of(recorded.phase.actual, r) else 0.0)
      <= Weight(Unrecorded, before, k, r) + Weight(Overrun, recorded, k, r)
  {
  }

  lemma RecordSpendsAtMost(t: Table, l: Ledger, c: nat, actual: Amount, k: Key, r: Resource)
    requires WellFormed(t, l) && k in t && c < |l.calls| && l.calls[c].phase.InFlight?
    ensures ApplyWF(t, l, Record(c, actual))
    ensures Of(SpentNow(Apply(t, l, Record(c, actual)), k), r)
      <= Of(SpentNow(l, k), r) + if Touches(l.calls[c].workstream, k) then Of(actual, r) else 0.0
  {
    SpentAppend(l.log, Entry(l.calls[c].workstream, l.now, actual), k, l.since[k], r);
  }

  /** An admission lifts a row's exposure at most to the value the gate compared. */
  lemma ExposureAdmit(t: Table, l: Ledger, c: nat, k: Key, r: Resource)
    requires WellFormed(t, l) && AdmitsOn(t, l, Decide(c), k) && ReadCovers(l, l.calls[c], k, r)
    ensures ApplyWF(t, l, Decide(c)) && Exposure(Apply(t, l, Decide(c)), k, r) <= Gate(l, c, k, r)
  {
    UpdateCounts(l, c, l.calls[c].(phase := InFlight), k, r);
  }

  /** A refusal, or an admission on other rows, leaves the row's exposure. */
  lemma ExposureElsewhere(t: Table, l: Ledger, c: nat, k: Key, r: Resource)
    requires WellFormed(t, l) && k in t && Capped(t[k]) && !AdmitsOn(t, l, Decide(c), k)
    requires c < |l.calls| && l.calls[c].phase.Locked? && AllRead(t, l.calls[c])
    ensures ApplyWF(t, l, Decide(c)) && Exposure(Apply(t, l, Decide(c)), k, r) == Exposure(l, k, r)
  {
    UpdateCounts(l, c, l.calls[c].(phase := InFlight), k, r);
    UpdateCounts(l, c, l.calls[c].(phase := Refused), k, r);
  }

  lemma ExposureDecide(t: Table, l: Ledger, c: nat, k: Key, r: Resource)
    requires Inv(t, l) && k in t && Capped(t[k])
    requires c < |l.calls| && l.calls[c].phase.Locked? && AllRead(t, l.calls[c])
    ensures ApplyWF(t, l, Decide(c))
    ensures AdmitsOn(t, l, Decide(c), k) ==> Exposure(Apply(t, l, Decide(c)), k, r) <= Gate(l, c, k, r)
    ensures !AdmitsOn(t, l, Decide(c), k) ==> Exposure(Apply(t, l, Decide(c)), k, r) == Exposure(l, k, r)
  {
    if AdmitsOn(t, l, Decide(c), k) {
      assert ReadsCover(t, l, l.calls[c]) by { assert l.calls[c] in l.calls; }
      ExposureAdmit(t, l, c, k, r);
    } else {
      ExposureElsewhere(t, l, c, k, r);
    }
  }

  lemma ExposureReturn(t: Table, l: Ledger, c: nat, k: Key, r: Resource)
    requires WellFormed(t, l) && k in t
    ensures ApplyWF(t, l, Return(c))
    ensures Exposure(Apply(t, l, Return(c)), k, r) <= Exposure(l, k, r)
  {
    if Apply(t, l, Return(c)) != l {
      UpdateCounts(l, c, Apply(t, l, Return(c)).calls[c], k, r);
    }
  }

  lemma ExposureLock(t: Table, l: Ledger, ws: Workstream, est: Amount, purpose: Purpose, k: Key, r: Resource)
    requires WellFormed(t, l) && k in t
    ensures ApplyWF(t, l, Lock(ws, est, purpose))
    ensures Exposure(Apply(t, l, Lock(ws, est, purpose)), k, r) == Exposure(l, k, r)
  {
  }

  lemma ExposureRead(t: Table, l: Ledger, c: nat, row: Key, k: Key, r: Resource)
    requires WellFormed(t, l) && k in t
    ensures ApplyWF(t, l, Read(c, row))
    ensures Exposure(Apply(t, l, Read(c, row)), k, r) == Exposure(l, k, r)
  {
    if Apply(t, l, Read(c, row)) != l {
      UpdateCounts(l, c, Apply(t, l, Read(c, row)).calls[c], k, r);
    }
  }

  lemma ExposureRoll(t: Table, l: Ledger, row: Key, since: int, k: Key, r: Resource)
    requires WellFormed(t, l) && k in t
    ensures ApplyWF(t, l, Roll(row, since))
    ensures Exposure(Apply(t, l, Roll(row, since)), k, r) <= Exposure(l, k, r)
  {
    if row == k && since >= l.since[k] {
      LaterWindowSpendsLess(l.log, k, l.since[k], since, r);
    }
  }

  /** A row's exposure never rises, except at an admission, and then not above the gate value. */
  lemma ExposureStep(t: Table, l: Ledger, op: Op, k: Key, r: Resource)
    requires Inv(t, l) && k in t && Capped(t[k])
    ensures ApplyWF(t, l, op)
    ensures AdmitsOn(t, l, op, k) ==> Exposure(Apply(t, l, op), k, r) <= Gate(l, op.c, k, r)
    ensures !AdmitsOn(t, l, op, k) ==> Exposure(Apply(t, l, op), k, r) <= Exposure(l, k, r)
  {
    ApplyWellFormed(t, l, op);
    match op
    case Tick(_) =>
    case Roll(row, since) => ExposureRoll(t, l, row, since, k, r);
    case Lock(ws, est, purpose) => ExposureLock(t, l, ws, est, purpose, k, r);
    case Read(c, row) => ExposureRead(t, l, c, row, k, r);
    case Decide(c) =>
      if c < |l.calls| && l.calls[c].phase.Locked? && AllRead(t, l.calls[c]) {
        ExposureDecide(t, l, c, k, r);
      }
    case Record(c, actual) =>
      if c < |l.calls| && l.calls[c].phase.InFlight? {
        ExposureRecord(t, l, c, actual, k, r);
      }
    case Return(c) => ExposureReturn(t, l, c, k, r);
  }

  // ----- the invariant is kept ----------------------------------------------------------------------------

  lemma ReservedAdmit(t: Table, l: Ledger, c: nat, k: Key, r: Resource)
    requires WellFormed(t, l) && k in t && ReservedExact(t, l, k, r) && Admits(t, l, c)
    ensures ApplyWF(t, l, Decide(c)) && ReservedExact(t, Apply(t, l, Decide(c)), k, r)
  {
    UpdateCounts(l, c, l.calls[c].(phase := InFlight), k, r);
  }

  lemma ReservedDecide(t: Table, l: Ledger, c: nat, k: Key, r: Resource)
    requires WellFormed(t, l) && k in t && ReservedExact(t, l, k, r)
    ensures ApplyWF(t, l, Decide(c)) && ReservedExact(t, Apply(t, l, Decide(c)), k, r)
  {
    if Admits(t, l, c) {
      ReservedAdmit(t, l, c, k, r);
    } else if c < |l.calls| && l.calls[c].phase.Locked? && AllRead(t, l.calls[c]) {
      UpdateCounts(l, c, l.calls[c].(phase := Refused), k, r);
    }
  }

  lemma ReservedReturn(t: Table, l: Ledger, c: nat, k: Key, r: Resource)
    requires WellFormed(t, l) && k in t && ReservedExact(t, l, k, r)
    ensures ApplyWF(t, l, Return(c)) && ReservedExact(t, Apply(t, l, Return(c)), k, r)
  {
    if Apply(t, l, Return(c)) != l {
      UpdateCounts(l, c, Apply(t, l, Return(c)).calls[c], k, r);
    }
  }

  lemma ReservedElse(t: Table, l: Ledger, op: Op, k: Key, r: Resource)
    requires WellFormed(t, l) && k in t && ReservedExact(t, l, k, r) && (op.Lock? || op.Read? || op.Record?)
    ensures ApplyWF(t, l, op) && ReservedExact(t, Apply(t, l, op), k, r)
  {
    if op.Lock? {
      TotalAppend(Unreleased, l.calls, Call(op.workstream, op.est, op.purpose, Locked(map[])), k, r);
    } else if Apply(t, l, op) != l {
      UpdateCounts(l, op.c, Apply(t, l, op).calls[op.c], k, r);
    }
  }

  lemma ReservedStep(t: Table, l: Ledger, op: Op, k: Key, r: Resource)
    requires WellFormed(t, l) && k in t && ReservedExact(t, l, k, r)
    ensures ApplyWF(t, l, op) && ReservedExact(t, Apply(t, l, op), k, r)
  {
    match op
    case Tick(_) =>
    case Roll(_, _) =>
    case Decide(c) => ReservedDecide(t, l, c, k, r);
    case Return(c) => ReservedReturn(t, l, c, k, r);
    case _ => ReservedElse(t, l, op, k, r);
  }

  /** Rows locked by a call that stays locked keep their cushion. */
  lemma LockedRowsKeepCushion(t: Table, l: Ledger, op: Op, i: nat, k: Key)
    requires Inv(t, l) && i < |l.calls| && l.calls[i].phase.Locked?
    requires k in t && Touches(l.calls[i].workstream, k)
    ensures ApplyWF(t, l, op)
    ensures Apply(t, l, op).calls[i].phase.Locked? ==>
      Apply(t, l, op).reserved[k] == l.reserved[k] && !AdmitsOn(t, l, op, k)
  {
    ApplyWellFormed(t, l, op);
    match op
    case Decide(c) =>
      if Admits(t, l, c) && c != i && Touches(l.calls[c].workstream, k) {
        assert SharesRow(t, l.calls[c].workstream, l.calls[i].workstream);
        assert SharesRow(t, l.calls[i].workstream, l.calls[c].workstream);
      }
    case _ =>
  }

  /** A call still locked after a step has the readings it had, or one more, just taken. */
  lemma ReadingsStep(t: Table, l: Ledger, op: Op, i: nat, k: Key)
    requires WellFormed(t, l) && i < |l.calls| && i < |Apply(t, l, op).calls|
    requires Apply(t, l, op).calls[i].phase.Locked? && k in Apply(t, l, op).calls[i].phase.readings
    ensures l.calls[i].phase.Locked? && Apply(t, l, op).calls[i].workstream == l.calls[i].workstream
    ensures k in l.calls[i].phase.readings ==>
      Apply(t, l, op).calls[i].phase.readings[k] == l.calls[i].phase.readings[k]
    ensures k !in l.calls[i].phase.readings ==>
      k in t && Touches(l.calls[i].workstream, k) && Capped(t[k])
      && Apply(t, l, op).calls[i].phase.readings[k] == SpentNow(l, k)
  {
  }

  /** What the call has read covers the row before the step, or is its spend now. */
  lemma ReadingCovers(t: Table, l: Ledger, i: nat, k: Key, reading: Amount, r: Resource)
    requires Inv(t, l) && i < |l.calls| && l.calls[i].phase.Locked? && k in t && Capped(t[k])
    requires k in l.calls[i].phase.readings ==> reading == l.calls[i].phase.readings[k]
    requires k !in l.calls[i].phase.readings ==> reading == SpentNow(l, k)
    ensures Exposure(l, k, r) <= Of(reading, r) + Of(l.reserved[k], r)
  {
    if k in l.calls[i].phase.readings {
      assert ReadsCover(t, l, l.calls[i]) by { assert l.calls[i] in l.calls; }
      assert ReadCovers(l, l.calls[i], k, r);
    } else {
      UnrecordedWithinUnreleased(l.calls, k, r);
      assert ReservedExact(t, l, k, r);
    }
  }

  lemma ReadsStepRow(t: Table, l: Ledger, op: Op, i: nat, k: Key, r: Resource)
    requires Inv(t, l) && ApplyWF(t, l, op) && i < |l.calls| && i < |Apply(t, l, op).calls|
    requires Apply(t, l, op).calls[i].phase.Locked? && k in Apply(t, l, op).calls[i].phase.readings
    ensures k in t && Touches(l.calls[i].workstream, k) && Capped(t[k])
    ensures ReadCovers(Apply(t, l, op), Apply(t, l, op).calls[i], k, r)
  {
    ReadingsStep(t, l, op, i, k);
    assert ReadsCover(t, l, l.calls[i]) by { assert l.calls[i] in l.calls; }
    ReadingCovers(t, l, i, k, Apply(t, l, op).calls[i].phase.readings[k], r);
    LockedRowsKeepCushion(t, l, op, i, k);
    ExposureStep(t, l, op, k, r);
  }

  lemma ReadsStep(t: Table, l: Ledger, op: Op, i: nat)
    requires Inv(t, l) && ApplyWF(t, l, op) && i < |Apply(t, l, op).calls|
    ensures ReadsCover(t, Apply(t, l, op), Apply(t, l, op).calls[i])
  {
    var call := Apply(t, l, op).calls[i];
    if call.phase.Locked? && i < |l.calls| {
      forall k <- call.phase.readings
        ensures k in t && Touches(call.workstream, k) && Capped(t[k])
        ensures forall r: Resource :: ReadCovers(Apply(t, l, op), call, k, r)
      {
        ReadingsStep(t, l, op, i, k);
        ReadsStepRow(t, l, op, i, k, Usd);
        ReadsStepRow(t, l, op, i, k, Tokens);
        forall r: Resource ensures ReadCovers(Apply(t, l, op), call, k, r) {
          ReadsStepRow(t, l, op, i, k, r);
        }
      }
    }
  }

  /** A call that is locked after a step was locked before it, or is the one that locked. */
  lemma LockedBefore(t: Table, l: Ledger, op: Op, i: nat)
    requires WellFormed(t, l) && i < |Apply(t, l, op).calls| && Apply(t, l, op).calls[i].phase.Locked?
    ensures i < |l.calls| ==> l.calls[i].phase.Locked? && l.calls[i].workstream == Apply(t, l, op).calls[i].workstream
    ensures i >= |l.calls| ==> i == |l.calls| && Lockable(t, l, Apply(t, l, op).calls[i].workstream)
  {
  }

  lemma ExclusiveStep(t: Table, l: Ledger, op: Op)
    requires WellFormed(t, l) && Exclusive(t, l.calls)
    ensures Exclusive(t, Apply(t, l, op).calls)
  {
    var after := Apply(t, l, op).calls;
    forall i, j | 0 <= i < j < |after| && after[i].phase.Locked? && after[j].phase.Locked?
      ensures !SharesRow(t, after[i].workstream, after[j].workstream)
    {
      LockedBefore(t, l, op, i);
      LockedBefore(t, l, op, j);
      if j == |l.calls| {
        assert l.calls[i] in l.calls;
      }
    }
  }

  lemma InvStep(t: Table, l: Ledger, op: Op)
    requires Inv(t, l)
    ensures Inv(t, Apply(t, l, op))
  {
    ApplyWellFormed(t, l, op);
    var after := Apply(t, l, op);
    forall k <- t, r: Resource ensures ReservedExact(t, after, k, r) {
      assert ReservedExact(t, l, k, r);
      ReservedStep(t, l, op, k, r);
    }
    forall c <- after.calls ensures ReadsCover(t, after, c) {
      var i :| 0 <= i < |after.calls| && after.calls[i] == c;
      ReadsStep(t, l, op, i);
    }
    ExclusiveStep(t, l, op);
  }

  // ----- theorems over every run ----------------------------------------------------------------------------

  /** No call yet, no reservation yet, any spend already recorded. */
  predicate Fresh(t: Table, l: Ledger) {
    WellFormed(t, l) && l.calls == [] && forall k <- t :: l.reserved[k] == ZERO
  }

  ghost function Run(t: Table, l: Ledger, ops: seq<Op>): (end: Ledger)
    requires WellFormed(t, l)
    ensures WellFormed(t, end)
  {
    if ops == [] then l
    else
      var before := Run(t, l, ops[..|ops| - 1]);
      ApplyWellFormed(t, before, ops[|ops| - 1]);
      Apply(t, before, ops[|ops| - 1])
  }

  lemma RunSnoc(t: Table, l: Ledger, ops: seq<Op>, op: Op)
    requires WellFormed(t, l)
    ensures Run(t, l, ops + [op]) == Apply(t, Run(t, l, ops), op)
  {
    assert (ops + [op])[..|ops|] == ops;
  }

  lemma FreshInv(t: Table, l: Ledger)
    requires Fresh(t, l)
    ensures Inv(t, l)
  {
  }

  lemma {:induction false} RunInv(t: Table, l: Ledger, ops: seq<Op>)
    requires Fresh(t, l)
    ensures Inv(t, Run(t, l, ops))
  {
    if ops == [] {
      FreshInv(t, l);
    } else {
      RunInv(t, l, ops[..|ops| - 1]);
      InvStep(t, Run(t, l, ops[..|ops| - 1]), ops[|ops| - 1]);
    }
  }

  /** Admitted and not yet released. */
  predicate Holds(c: Call) {
    c.phase.InFlight? || c.phase.Recorded?
  }

  /** On every capped row the cushion is exactly the estimates of admitted, unreleased calls, so
      a release never meets the zero floor; a tracking-only row's cushion stays zero. */
  lemma ReservationsAreExact(t: Table, l: Ledger, ops: seq<Op>, k: Key, r: Resource)
    requires Fresh(t, l) && k in t
    ensures Of(Run(t, l, ops).reserved[k], r)
      == if Capped(t[k]) then Total(Unreleased, Run(t, l, ops).calls, k, r) else 0.0
    ensures forall c <- Run(t, l, ops).calls ::
      Capped(t[k]) && Touches(c.workstream, k) && Holds(c) ==> Of(Run(t, l, ops).reserved[k], r) >= Of(c.est, r)
  {
    RunInv(t, l, ops);
    var end := Run(t, l, ops);
    assert ReservedExact(t, end, k, r);
    forall c <- end.calls | Capped(t[k]) && Touches(c.workstream, k) && Holds(c)
      ensures Of(end.reserved[k], r) >= Of(c.est, r)
    {
      var i :| 0 <= i < |end.calls| && end.calls[i] == c;
      TotalUpdate(Unreleased, end.calls, i, c, k, r);
    }
  }

  /** An admission compares the gate value with the cap. */
  lemma AdmissionWithinCap(t: Table, l: Ledger, op: Op, k: Key, r: Resource)
    requires WellFormed(t, l) && AdmitsOn(t, l, op, k) && CapOf(t[k], r).Some?
    ensures Gate(l, op.c, k, r) <= CapOf(t[k], r).value
    ensures l.calls[op.c].purpose == Normal && t[k].reserve.Some? && CapOf(t[k], r).value > 0.0 ==>
      Gate(l, op.c, k, r) < ReserveThreshold(t[k], r)
  {
    var c := l.calls[op.c];
    var s := Status(k, t[k], c.phase.readings[k], l.reserved[k], c.est);
    GateIsProjected(l, op.c, s, k, r);
    LetThroughMeansRoom(s, c.purpose, r);
  }

  lemma GateIsProjected(l: Ledger, c: nat, s: Status, k: Key, r: Resource)
    requires c < |l.calls| && l.calls[c].phase.Locked? && k in l.calls[c].phase.readings && k in l.reserved
    requires s.spent == l.calls[c].phase.readings[k] && s.reserved == l.reserved[k] && s.est == l.calls[c].est
    ensures s.Projected(r) == Gate(l, c, k, r)
  {
  }

  function Max(a: real, b: real): real {
    if a >= b then a else b
  }

  lemma {:induction false} ExposureBounded(t: Table, l: Ledger, ops: seq<Op>, k: Key, r: Resource)
    requires Fresh(t, l) && k in t && CapOf(t[k], r).Some?
    ensures Exposure(Run(t, l, ops), k, r) <= Max(CapOf(t[k], r).value, Of(SpentNow(l, k), r))
  {
    if ops != [] {
      var before, op := Run(t, l, ops[..|ops| - 1]), ops[|ops| - 1];
      ExposureBounded(t, l, ops[..|ops| - 1], k, r);
      RunInv(t, l, ops[..|ops| - 1]);
      ExposureStep(t, before, op, k, r);
      if AdmitsOn(t, before, op, k) {
        AdmissionWithinCap(t, before, op, k, r);
      }
    }
  }

  /** In every interleaving, on every capped row: spend plus the estimates of admitted but
      unrecorded calls <= max(cap, initial spend) + what recorded calls exceeded their estimates
      by; so when none did and the row started within its cap, the ceiling is never crossed. */
  lemma {:induction false} CapHoldsInEveryRun(t: Table, l: Ledger, ops: seq<Op>, k: Key, r: Resource)
    requires Fresh(t, l) && k in t && CapOf(t[k], r).Some?
    ensures var end := Run(t, l, ops);
      && Of(SpentNow(end, k), r) + Total(Unrecorded, end.calls, k, r)
         <= Max(CapOf(t[k], r).value, Of(SpentNow(l, k), r)) + Total(Overrun, end.calls, k, r)
      && (Total(Overrun, end.calls, k, r) == 0.0 && Of(SpentNow(l, k), r) <= CapOf(t[k], r).value ==>
            Of(SpentNow(end, k), r) <= CapOf(t[k], r).value)
  {
    ExposureBounded(t, l, ops, k, r);
  }

  // ----- what is recorded is spent ------------------------------------------------------------------------

  lemma ChargedUpdate(calls: seq<Call>, c: nat, phase: Phase, k: Key, r: Resource)
    requires c < |calls|
    ensures Total(Charged, SetPhase(calls, c, phase), k, r)
      == Total(Charged, calls, k, r) - Weight(Charged, calls[c], k, r) + Weight(Charged, calls[c].(phase := phase), k, r)
  {
    TotalUpdate(Charged, calls, c, calls[c].(phase := phase), k, r);
  }

  /** Spend less charges. */
  function Uncharged(l: Ledger, k: Key, r: Resource): real
    requires k in l.since
  {
    Of(SpentNow(l, k), r) - Total(Charged, l.calls, k, r)
  }

  /** What recording adds to the row's spend. */
  lemma RecordSpends(t: Table, l: Ledger, c: nat, actual: Amount, k: Key, r: Resource)
    requires WellFormed(t, l) && k in t && l.now >= l.since[k] && c < |l.calls| && l.calls[c].phase.InFlight?
    ensures ApplyWF(t, l, Record(c, actual))
    ensures Of(SpentNow(Apply(t, l, Record(c, actual)), k), r)
      == Of(SpentNow(l, k), r) + if Touches(l.calls[c].workstream, k) then Of(actual, r) else 0.0
  {
    SpentAppend(l.log, Entry(l.calls[c].workstream, l.now, actual), k, l.since[k], r);
  }

  lemma RecordCharges(t: Table, l: Ledger, c: nat, actual: Amount, k: Key, r: Resource)
    requires WellFormed(t, l) && k in t && l.now >= l.since[k] && c < |l.calls| && l.calls[c].phase.InFlight?
    ensures ApplyWF(t, l, Record(c, actual)) && Uncharged(Apply(t, l, Record(c, actual)), k, r) == Uncharged(l, k, r)
  {
    RecordSpends(t, l, c, actual, k, r);
    ChargedUpdate(l.calls, c, Recorded(actual), k, r);
  }

  /** A move of one call that neither adds nor drops a charge. */
  lemma PhaseKeepsCharge(l: Ledger, after: Ledger, c: nat, phase: Phase, k: Key, r: Resource)
    requires k in l.since && after.since == l.since && after.log == l.log && c < |l.calls|
    requires after.calls == SetPhase(l.calls, c, phase)
    requires Weight(Charged, l.calls[c].(phase := phase), k, r) == Weight(Charged, l.calls[c], k, r)
    ensures Uncharged(after, k, r) == Uncharged(l, k, r)
  {
    ChargedUpdate(l.calls, c, phase, k, r);
  }

  lemma DecideCharges(t: Table, l: Ledger, c: nat, k: Key, r: Resource)
    requires WellFormed(t, l) && k in t
    ensures ApplyWF(t, l, Decide(c)) && Uncharged(Apply(t, l, Decide(c)), k, r) == Uncharged(l, k, r)
  {
    var after := Apply(t, l, Decide(c));
    if after != l {
      PhaseKeepsCharge(l, after, c, if Admits(t, l, c) then InFlight else Refused, k, r);
    }
  }

  lemma ReadCharges(t: Table, l: Ledger, c: nat, row: Key, k: Key, r: Resource)
    requires WellFormed(t, l) && k in t
    ensures ApplyWF(t, l, Read(c, row)) && Uncharged(Apply(t, l, Read(c, row)), k, r) == Uncharged(l, k, r)
  {
    var after := Apply(t, l, Read(c, row));
    if after != l {
      PhaseKeepsCharge(l, after, c, after.calls[c].phase, k, r);
    }
  }

  lemma ReturnCharges(t: Table, l: Ledger, c: nat, k: Key, r: Resource)
    requires WellFormed(t, l) && k in t
    ensures ApplyWF(t, l, Return(c)) && Uncharged(Apply(t, l, Return(c)), k, r) == Uncharged(l, k, r)
  {
    var after := Apply(t, l, Return(c));
    if after != l {
      PhaseKeepsCharge(l, after, c, after.calls[c].phase, k, r);
    }
  }

  lemma LockCharges(t: Table, l: Ledger, ws: Workstream, est: Amount, purpose: Purpose, k: Key, r: Resource)
    requires WellFormed(t, l) && k in t
    ensures ApplyWF(t, l, Lock(ws, est, purpose)) && Uncharged(Apply(t, l, Lock(ws, est, purpose)), k, r) == Uncharged(l, k, r)
  {
    TotalAppend(Charged, l.calls, Call(ws, est, purpose, Locked(map[])), k, r);
  }

  lemma ChargeStep(t: Table, l: Ledger, op: Op, k: Key, r: Resource)
    requires WellFormed(t, l) && k in t && l.now >= l.since[k] && !(op.Roll? && op.k == k)
    ensures ApplyWF(t, l, op) && Uncharged(Apply(t, l, op), k, r) == Uncharged(l, k, r)
    ensures Apply(t, l, op).since[k] == l.since[k] && Apply(t, l, op).now >= l.now
  {
    match op
    case Tick(_) =>
    case Roll(_, _) =>
    case Lock(ws, est, purpose) => LockCharges(t, l, ws, est, purpose, k, r);
    case Record(c, actual) =>
      if c < |l.calls| && l.calls[c].phase.InFlight? {
        RecordCharges(t, l, c, actual, k, r);
      }
    case Read(c, row) => ReadCharges(t, l, c, row, k, r);
    case Decide(c) => DecideCharges(t, l, c, k, r);
    case Return(c) => ReturnCharges(t, l, c, k, r);
  }

  /** Every call that records is paid for: within a window, a row's spend has grown by exactly what the
      calls on it recorded, released or not. */
  lemma {:induction false} SpendIsWhatCallsCharged(t: Table, l: Ledger, ops: seq<Op>, k: Key, r: Resource)
    requires Fresh(t, l) && k in t && l.now >= l.since[k]
    requires forall op <- ops :: !(op.Roll? && op.k == k)
    ensures var end := Run(t, l, ops);
      && end.since[k] == l.since[k] && end.now >= l.now
      && Of(SpentNow(end, k), r) == Of(SpentNow(l, k), r) + Total(Charged, end.calls, k, r)
  {
    if ops != [] {
      var init := ops[..|ops| - 1];
      SpendIsWhatCallsCharged(t, l, init, k, r);
      assert ops[|ops| - 1] in ops;
      ChargeStep(t, Run(t, l, init), ops[|ops| - 1], k, r);
    }
  }

  /** So within a window the cap bounds the charges themselves: what the row started with, what calls on it
      recorded, and what admitted calls may still record. */
  lemma {:induction false} CapBoundsCharges(t: Table, l: Ledger, ops: seq<Op>, k: Key, r: Resource)
    requires Fresh(t, l) && k in t && CapOf(t[k], r).Some? && l.now >= l.since[k]
    requires forall op <- ops :: !(op.Roll? && op.k == k)
    ensures var calls := Run(t, l, ops).calls; var initial := Of(SpentNow(l, k), r);
      initial + Total(Charged, calls, k, r) + Total(Unrecorded, calls, k, r)
        <= Max(CapOf(t[k], r).value, initial) + Total(Overrun, calls, k, r)
  {
    SpendIsWhatCallsCharged(t, l, ops, k, r);
    CapHoldsInEveryRun(t, l, ops, k, r);
  }

  // ----- the reserve buffer -----------------------------------------------------------------------------------

  predicate NormalOnly(op: Op) {
    op.Lock? ==> op.purpose == Normal
  }

  lemma NormalCallsStep(t: Table, l: Ledger, op: Op)
    requires WellFormed(t, l) && NormalOnly(op)
    requires forall c <- l.calls :: c.purpose == Normal
    ensures forall c <- Apply(t, l, op).calls :: c.purpose == Normal
  {
    var after := Apply(t, l, op);
    forall i | 0 <= i < |after.calls| ensures after.calls[i].purpose == Normal {
      if i < |l.calls| {
        assert l.calls[i] in l.calls;
      }
    }
  }

  lemma {:induction false} NormalRunsHoldNormalCalls(t: Table, l: Ledger, ops: seq<Op>)
    requires Fresh(t, l) && forall op <- ops :: NormalOnly(op)
    ensures forall c <- Run(t, l, ops).calls :: c.purpose == Normal
  {
    if ops != [] {
      NormalRunsHoldNormalCalls(t, l, ops[..|ops| - 1]);
      NormalCallsStep(t, Run(t, l, ops[..|ops| - 1]), ops[|ops| - 1]);
    }
  }

  predicate HasBuffer(t: Table, k: Key, r: Resource) {
    k in t && t[k].reserve.Some? && CapOf(t[k], r).Some? && CapOf(t[k], r).value > 0.0
  }

  function BufferStart(t: Table, k: Key, r: Resource): real
    requires HasBuffer(t, k, r)
  {
    ReserveThreshold(t[k], r)
  }

  lemma NormalAdmissionBelowBuffer(t: Table, l: Ledger, op: Op, k: Key, r: Resource)
    requires WellFormed(t, l) && HasBuffer(t, k, r) && AdmitsOn(t, l, op, k)
    requires l.calls[op.c] in l.calls && forall c <- l.calls :: c.purpose == Normal
    ensures Gate(l, op.c, k, r) < BufferStart(t, k, r)
  {
    AdmissionWithinCap(t, l, op, k, r);
  }

  lemma NormalStepBelowBuffer(t: Table, l: Ledger, op: Op, k: Key, r: Resource)
    requires Inv(t, l) && HasBuffer(t, k, r) && Exposure(l, k, r) < BufferStart(t, k, r)
    requires forall c <- l.calls :: c.purpose == Normal
    ensures ApplyWF(t, l, op) && Exposure(Apply(t, l, op), k, r) < BufferStart(t, k, r)
  {
    ExposureStep(t, l, op, k, r);
    if AdmitsOn(t, l, op, k) {
      NormalAdmissionBelowBuffer(t, l, op, k, r);
    }
  }

  lemma {:induction false} NormalExposureBelowBuffer(t: Table, l: Ledger, ops: seq<Op>, k: Key, r: Resource)
    requires Fresh(t, l) && HasBuffer(t, k, r) && Of(SpentNow(l, k), r) < BufferStart(t, k, r)
    requires forall op <- ops :: NormalOnly(op)
    ensures Exposure(Run(t, l, ops), k, r) < BufferStart(t, k, r)
  {
    if ops != [] {
      var init := ops[..|ops| - 1];
      NormalExposureBelowBuffer(t, l, init, k, r);
      RunInv(t, l, init);
      NormalRunsHoldNormalCalls(t, l, init);
      NormalStepBelowBuffer(t, Run(t, l, init), ops[|ops| - 1], k, r);
    }
  }

  /** The call holds no reservation and spent no more than its estimate. */
  predicate Settled(c: Call) {
    && !Holds(c)
    && (c.phase.Released? && c.phase.spent.Some? ==>
          c.phase.spent.value.usd <= c.est.usd && c.phase.spent.value.tokens <= c.est.tokens)
  }

  lemma {:induction false} SettledTotals(calls: seq<Call>, k: Key, r: Resource)
    requires forall c <- calls :: Settled(c)
    ensures Total(Unrecorded, calls, k, r) == 0.0 && Total(Unreleased, calls, k, r) == 0.0
    ensures Total(Overrun, calls, k, r) == 0.0
  {
    if calls != [] {
      assert calls[|calls| - 1] in calls;
      SettledTotals(calls[..|calls| - 1], k, r);
    }
  }

  /** After normal calls alone, each within its estimate and released, spend is still below the
      reserve threshold of every positive cap that started below it. */
  lemma {:induction false} NormalCallsLeaveTheBuffer(t: Table, l: Ledger, ops: seq<Op>, k: Key, r: Resource)
    requires Fresh(t, l) && HasBuffer(t, k, r) && Of(SpentNow(l, k), r) < BufferStart(t, k, r)
    requires forall op <- ops :: NormalOnly(op)
    requires forall c <- Run(t, l, ops).calls :: Settled(c)
    ensures Of(SpentNow(Run(t, l, ops), k), r) < BufferStart(t, k, r)
    ensures Of(Run(t, l, ops).reserved[k], r) == 0.0
  {
    NormalExposureBelowBuffer(t, l, ops, k, r);
    SettledTotals(Run(t, l, ops).calls, k, r);
    RunInv(t, l, ops);
    assert ReservedExact(t, Run(t, l, ops), k, r);
  }

  /** Then a wind_down or escalation call whose estimate fits the buffer, (1 - reserve) * cap, is
      not blocked by the row. */
  lemma BufferServesWindDown(t: Table, l: Ledger, ops: seq<Op>, k: Key, est: Amount, purpose: Purpose)
    requires Fresh(t, l) && k in t && purpose != Normal
    requires forall r: Resource :: CapOf(t[k], r).Some? ==>
      && HasBuffer(t, k, r) && Of(SpentNow(l, k), r) < BufferStart(t, k, r)
      && Of(est, r) <= CapOf(t[k], r).value - BufferStart(t, k, r)
    requires forall op <- ops :: NormalOnly(op)
    requires forall c <- Run(t, l, ops).calls :: Settled(c)
    ensures !Status(k, t[k], SpentNow(Run(t, l, ops), k), Run(t, l, ops).reserved[k], est).Blocks(purpose)
  {
    var end := Run(t, l, ops);
    var s := Status(k, t[k], SpentNow(end, k), end.reserved[k], est);
    forall r: Resource | CapOf(s.caps, r).Some? ensures s.Projected(r) <= CapOf(s.caps, r).value {
      NormalCallsLeaveTheBuffer(t, l, ops, k, r);
    }
    BufferLetsThrough(s, purpose);
  }
}

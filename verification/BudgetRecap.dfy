/** `set_budget` during a run (runtime/budget.py): when giving a row a cap, or taking its cap away, keeps the
    reservations exact. */
module BudgetRecap {
  import opened Common
  import opened BudgetGate
  import opened P = BudgetProtocol

  /** The budgets table and the ledger of a run in which caps may change. */
  datatype Books = Books(table: Table, ledger: Ledger)

  datatype Act =
    | Protocol(op: Op)
      // an upsert; `start` is the window of a row that was not there
    | SetBudget(key: Key, caps: Caps, start: int)

  /** The upsert waits for a call that holds the row's lock; a new row has nothing reserved. */
  predicate Blocked(b: Books, key: Key) {
    key in b.table && exists c <- b.ledger.calls :: c.phase.Locked? && Touches(c.workstream, key)
  }

  function Upsert(b: Books, key: Key, caps: Caps, start: int): Books {
    var l := b.ledger;
    Books(b.table[key := caps],
          if key in b.table then l else l.(reserved := l.reserved[key := ZERO], since := l.since[key := start]))
  }

  predicate Sane(b: Books) {
    WellFormed(b.table, b.ledger)
  }

  function Step(b: Books, act: Act): Books
    requires Sane(b)
  {
    match act
    case Protocol(op) => Books(b.table, Apply(b.table, b.ledger, op))
    case SetBudget(key, caps, start) => if Blocked(b, key) then b else Upsert(b, key, caps, start)
  }

  lemma StepIsSane(b: Books, act: Act)
    requires Sane(b)
    ensures Sane(Step(b, act))
  {
    if act.Protocol? {
      ApplyWellFormed(b.table, b.ledger, act.op);
    }
  }

  ghost function Run(b: Books, acts: seq<Act>): (end: Books)
    requires Sane(b)
    ensures Sane(end)
  {
    if acts == [] then b
    else
      var before := Run(b, acts[..|acts| - 1]);
      StepIsSane(before, acts[|acts| - 1]);
      Step(before, acts[|acts| - 1])
  }

  /** On every row the cushion is what the capped rows' calls in flight estimated, or nothing. */
  ghost predicate Exact(b: Books)
    requires Sane(b)
  {
    forall k <- b.table, r: Resource :: ReservedExact(b.table, b.ledger, k, r)
  }

  predicate IsCapped(t: Table, key: Key) {
    key in t && Capped(t[key])
  }

  /** A cap given or taken away while some call on the row is in flight with a nonzero estimate. */
  ghost predicate Unsettles(b: Books, act: Act) {
    && act.SetBudget? && !Blocked(b, act.key) && IsCapped(b.table, act.key) != Capped(act.caps)
    && exists r: Resource :: Total(Unreleased, b.ledger.calls, act.key, r) > 0.0
  }

  /** An upsert waits only for a call that holds its row's lock; a row it creates has nothing reserved and
      its window starts where it says. */
  lemma BudgetTakesEffect(b: Books, key: Key, caps: Caps, start: int)
    requires Sane(b)
    requires key !in b.table || forall c <- b.ledger.calls :: c.phase.Locked? ==> !Touches(c.workstream, key)
    ensures var after := Step(b, SetBudget(key, caps, start));
      && after.table == b.table[key := caps]
      && after.ledger.log == b.ledger.log && after.ledger.calls == b.ledger.calls
      && (key in b.table ==> after.ledger == b.ledger)
      && (key !in b.table ==>
            after.ledger.reserved == b.ledger.reserved[key := ZERO] && after.ledger.since == b.ledger.since[key := start])
  {
  }

  lemma CallKeepsExact(b: Books, op: Op)
    requires Sane(b) && Exact(b)
    ensures Exact(Step(b, Protocol(op)))
  {
    ApplyWellFormed(b.table, b.ledger, op);
    forall k <- b.table, r: Resource ensures ReservedExact(b.table, Apply(b.table, b.ledger, op), k, r) {
      assert ReservedExact(b.table, b.ledger, k, r);
      ReservedStep(b.table, b.ledger, op, k, r);
    }
  }

  /** The upsert settles its own row's account and leaves the others'. */
  lemma UpsertOnRow(b: Books, key: Key, caps: Caps, start: int, r: Resource)
    requires Sane(b) && Exact(b)
    ensures var after := Upsert(b, key, caps, start);
      ReservedExact(after.table, after.ledger, key, r) <==>
        IsCapped(b.table, key) == Capped(caps) || Total(Unreleased, b.ledger.calls, key, r) == 0.0
  {
    if key in b.table {
      assert ReservedExact(b.table, b.ledger, key, r);
    }
    match r
    case Usd =>
    case Tokens =>
  }

  lemma UpsertElsewhere(b: Books, key: Key, caps: Caps, start: int, k: Key, r: Resource)
    requires Sane(b) && k in b.table && k != key && ReservedExact(b.table, b.ledger, k, r)
    ensures var after := Upsert(b, key, caps, start); ReservedExact(after.table, after.ledger, k, r)
  {
  }

  lemma StepKeepsExactIff(b: Books, act: Act)
    requires Sane(b) && Exact(b)
    ensures Sane(Step(b, act)) && (Exact(Step(b, act)) <==> !Unsettles(b, act))
  {
    StepIsSane(b, act);
    match act
    case Protocol(op) => CallKeepsExact(b, op);
    case SetBudget(key, caps, start) =>
      if !Blocked(b, key) {
        var after := Upsert(b, key, caps, start);
        UpsertOnRow(b, key, caps, start, Usd);
        UpsertOnRow(b, key, caps, start, Tokens);
        if !Unsettles(b, act) {
          forall k <- after.table, r: Resource ensures ReservedExact(after.table, after.ledger, k, r) {
            if k != key {
              assert ReservedExact(b.table, b.ledger, k, r);
              UpsertElsewhere(b, key, caps, start, k, r);
            } else {
              UpsertOnRow(b, key, caps, start, r);
            }
          }
        } else {
          var r: Resource :| Total(Unreleased, b.ledger.calls, key, r) > 0.0;
          UpsertOnRow(b, key, caps, start, r);
        }
      }
  }

  ghost function At(b: Books, acts: seq<Act>, n: nat): (mid: Books)
    requires Sane(b) && n <= |acts|
    ensures Sane(mid)
  {
    Run(b, acts[..n])
  }

  lemma AtNext(b: Books, acts: seq<Act>, n: nat)
    requires Sane(b) && n < |acts|
    ensures At(b, acts, n + 1) == Step(At(b, acts, n), acts[n])
  {
    assert acts[..n + 1][..n] == acts[..n];
  }

  lemma {:induction false} ExactUntilUnsettled(b: Books, acts: seq<Act>, n: nat)
    requires Sane(b) && Fresh(b.table, b.ledger) && n <= |acts|
    requires forall m :: 0 <= m < n ==> !Unsettles(At(b, acts, m), acts[m])
    ensures Exact(At(b, acts, n))
  {
    if n == 0 {
      assert acts[..0] == [];
      FreshInv(b.table, b.ledger);
    } else {
      ExactUntilUnsettled(b, acts, n - 1);
      AtNext(b, acts, n - 1);
      StepKeepsExactIff(At(b, acts, n - 1), acts[n - 1]);
    }
  }

  lemma InexactOnceUnsettled(b: Books, acts: seq<Act>, n: nat)
    requires Sane(b) && Fresh(b.table, b.ledger) && n < |acts|
    requires forall m :: 0 <= m < n ==> !Unsettles(At(b, acts, m), acts[m])
    requires Unsettles(At(b, acts, n), acts[n])
    ensures !Exact(At(b, acts, n + 1))
  {
    ExactUntilUnsettled(b, acts, n);
    AtNext(b, acts, n);
    StepKeepsExactIff(At(b, acts, n), acts[n]);
  }

  /** In every interleaving of calls and budget changes the reservations are exact at every moment, on every
      capped row the estimates of the admitted, unreleased calls, exactly when no row is given a cap or loses
      its cap while a call on it is in flight with a nonzero estimate. */
  lemma ReservationsStayExactExactly(b: Books, acts: seq<Act>)
    requires Sane(b) && Fresh(b.table, b.ledger)
    ensures (forall n :: 0 <= n <= |acts| ==> Exact(At(b, acts, n)))
      <==> (forall n :: 0 <= n < |acts| ==> !Unsettles(At(b, acts, n), acts[n]))
  {
    if forall n :: 0 <= n <= |acts| ==> Exact(At(b, acts, n)) {
      forall n | 0 <= n < |acts| ensures !Unsettles(At(b, acts, n), acts[n]) {
        AtNext(b, acts, n);
        StepKeepsExactIff(At(b, acts, n), acts[n]);
        assert Exact(At(b, acts, n + 1));
      }
    } else if forall n :: 0 <= n < |acts| ==> !Unsettles(At(b, acts, n), acts[n]) {
      forall n | 0 <= n <= |acts| ensures Exact(At(b, acts, n)) {
        ExactUntilUnsettled(b, acts, n);
      }
    }
  }

  const ROW := Key("w", AllTime)
  const TRACKED := Caps(None, None, None, None, None)
  const CAPPED := Caps(Some(10.0), None, None, None, None)
  const ONE_DOLLAR: Amount := Quantity(1.0, 0)

  /** One row that only tracks, one call on it or none. */
  function OneRow(calls: seq<Call>): Books {
    Books(map[ROW := TRACKED], Ledger(0, map[ROW := ZERO], map[ROW := 0], [], calls))
  }

  function OneCall(phase: Phase): Call {
    Call("w", ONE_DOLLAR, Normal, phase)
  }

  lemma TrackedCallLocks()
    ensures Step(OneRow([]), Protocol(Lock("w", ONE_DOLLAR, Normal))) == OneRow([OneCall(Locked(map[]))])
  {
    assert [] + [OneCall(Locked(map[]))] == [OneCall(Locked(map[]))];
  }

  lemma TrackedCallIsAdmitted()
    ensures Step(OneRow([OneCall(Locked(map[]))]), Protocol(Decide(0))) == OneRow([OneCall(InFlight)])
  {
    var b := OneRow([OneCall(Locked(map[]))]);
    assert AllRead(b.table, b.ledger.calls[0]) && Admits(b.table, b.ledger, 0);
    assert Reserve(b.table, b.ledger.reserved, "w", ONE_DOLLAR) == b.ledger.reserved;
    assert SetPhase(b.ledger.calls, 0, InFlight) == [OneCall(InFlight)];
  }

  lemma CapUnsettlesTrackedCall()
    ensures Unsettles(OneRow([OneCall(InFlight)]), SetBudget(ROW, CAPPED, 0))
  {
    var calls := [OneCall(InFlight)];
    assert calls[..0] == [] && Total(Unreleased, [], ROW, Usd) == 0.0;
    assert Total(Unreleased, calls, ROW, Usd) == Weight(Unreleased, calls[0], ROW, Usd) == 1.0;
  }

  /** Such a change does happen: a call is admitted while the row only tracks, and the row is given a cap
      before the call returns. */
  lemma CapGivenInFlightUnsettles() returns (b: Books, acts: seq<Act>)
    ensures Sane(b) && Fresh(b.table, b.ledger) && |acts| == 3
    ensures Unsettles(At(b, acts, 2), acts[2]) && !Exact(At(b, acts, 3))
  {
    b := OneRow([]);
    acts := [Protocol(Lock("w", ONE_DOLLAR, Normal)), Protocol(Decide(0)), SetBudget(ROW, CAPPED, 0)];
    TrackedCallLocks();
    TrackedCallIsAdmitted();
    CapUnsettlesTrackedCall();
    TwoCalls(b, acts, OneRow([OneCall(Locked(map[]))]), OneRow([OneCall(InFlight)]));
    InexactOnceUnsettled(b, acts, 2);
  }

  lemma TwoCalls(b: Books, acts: seq<Act>, one: Books, two: Books)
    requires Sane(b) && Sane(one) && |acts| >= 2 && Step(b, acts[0]) == one && Step(one, acts[1]) == two
    ensures At(b, acts, 0) == b && At(b, acts, 1) == one && At(b, acts, 2) == two
  {
    assert acts[..0] == [];
    AtNext(b, acts, 0);
    AtNext(b, acts, 1);
  }
}

/** The replan dispatcher's commit-order-safe cursor (runtime/scheduler.py, runtime/events.py).
    Sequence numbers are drawn when an event is inserted and become visible when its transaction
    commits; a rollback burns them. The consumer re-reads a bounded overlap behind its cursor. */
module Dispatch {
  import opened Common
  import opened Lifecycle

  const REPLAN_DISPATCH_LIMIT := 200
  const DEFAULT_LOOKBACK := 1000

  datatype Kind = Stuck(task: Option<TaskId>) | Other

  datatype Fate = Open | Committed | RolledBack

  datatype Slot = Slot(kind: Kind, fate: Fate)

  /** Slot i of the log carries sequence number i + 1. */
  type Log = seq<Slot>

  datatype Config = Config(lookback: nat, limit: nat)

  /** `replans` holds the stuck task of each replan task, in order of enqueueing. */
  datatype Sys = Sys(log: Log, replans: seq<TaskId>, cursor: nat)

  /** A committed `task.stuck` event. */
  predicate Visible(s: Slot) {
    s.kind.Stuck? && s.fate.Committed?
  }

  /** The visible `task.stuck` sequence numbers in (lo, hi], ascending. */
  function Window(log: Log, lo: nat, hi: nat): seq<nat>
    requires hi <= |log|
  {
    if hi <= lo then []
    else Window(log, lo, hi - 1) + if Visible(log[hi - 1]) then [hi] else []
  }

  function Least(a: nat, b: nat): nat {
    if a <= b then a else b
  }

  /** `seq > lo ORDER BY seq LIMIT limit` */
  function Page(log: Log, lo: nat, limit: nat): seq<nat> {
    var w := Window(log, lo, |log|);
    w[..Least(limit, |w|)]
  }

  /** The lower bound of a read: the cursor less the overlap, never below zero. */
  function Low(c: Config, cursor: nat): nat {
    if cursor > c.lookback then cursor - c.lookback else 0
  }

  function TaskAt(log: Log, s: nat): Option<TaskId> {
    if 0 < s <= |log| && log[s - 1].kind.Stuck? then log[s - 1].kind.task else None
  }

  /** One replan per stuck task of the page that has none yet. */
  function DispatchAll(log: Log, page: seq<nat>, replans: seq<TaskId>): seq<TaskId> {
    if page == [] then replans
    else
      var sofar := DispatchAll(log, page[..|page| - 1], replans);
      var task := TaskAt(log, page[|page| - 1]);
      if task.None? || task.value in sofar then sofar else sofar + [task.value]
  }

  function Furthest(cursor: nat, page: seq<nat>): nat {
    if page != [] && page[|page| - 1] > cursor then page[|page| - 1] else cursor
  }

  function Pass(c: Config, s: Sys): Sys {
    var page := Page(s.log, Low(c, s.cursor), c.limit);
    Sys(s.log, DispatchAll(s.log, page, s.replans), Furthest(s.cursor, page))
  }

  /** A pass that raises after n of its events: those are dispatched, the cursor is not moved. */
  function Crash(c: Config, s: Sys, n: nat): Sys {
    var page := Page(s.log, Low(c, s.cursor), c.limit);
    s.(replans := DispatchAll(s.log, page[..Least(n, |page|)], s.replans))
  }

  datatype Op =
    | Draw(kind: Kind)
    | Commit(number: nat)
    | Rollback(number: nat)
    | RunPass
    | RunCrash(n: nat)
    | Restart

  predicate IsOpen(log: Log, s: nat) {
    0 < s <= |log| && log[s - 1].fate.Open?
  }

  function Settle(log: Log, s: nat, fate: Fate): Log
    requires IsOpen(log, s)
  {
    log[s - 1 := log[s - 1].(fate := fate)]
  }

  function Apply(c: Config, s: Sys, op: Op): Sys {
    match op
    case Draw(kind) => s.(log := s.log + [Slot(kind, Open)])
    case Commit(q) => if IsOpen(s.log, q) then s.(log := Settle(s.log, q, Committed)) else s
    case Rollback(q) => if IsOpen(s.log, q) then s.(log := Settle(s.log, q, RolledBack)) else s
    case RunPass => Pass(c, s)
    case RunCrash(n) => Crash(c, s, n)
    case Restart => s.(cursor := 0)
  }

  const START: Sys := Sys([], [], 0)

  function Run(c: Config, s: Sys, ops: seq<Op>): Sys {
    if ops == [] then s else Apply(c, Run(c, s, ops[..|ops| - 1]), ops[|ops| - 1])
  }

  function Passes(c: Config, s: Sys, n: nat): Sys {
    if n == 0 then s else Pass(c, Passes(c, s, n - 1))
  }

  predicate Ascending(w: seq<nat>) {
    forall i, j :: 0 <= i < j < |w| ==> w[i] < w[j]
  }

  // ----- windows and pages ----------------------------------------------------------------------

  lemma {:induction false} WindowHolds(log: Log, lo: nat, hi: nat)
    requires hi <= |log|
    ensures forall s: nat :: s in Window(log, lo, hi) <==> lo < s <= hi && Visible(log[s - 1])
    ensures Ascending(Window(log, lo, hi))
  {
    if lo < hi {
      WindowHolds(log, lo, hi - 1);
      var init := Window(log, lo, hi - 1);
      forall i | 0 <= i < |init| ensures init[i] < hi {
        assert init[i] in init;
      }
    }
  }

  lemma {:induction false} WindowSplits(log: Log, lo: nat, mid: nat, hi: nat)
    requires lo <= mid <= hi <= |log|
    ensures Window(log, lo, hi) == Window(log, lo, mid) + Window(log, mid, hi)
  {
    if mid < hi {
      WindowSplits(log, lo, mid, hi - 1);
    }
  }

  /** A read returns the earliest visible events past its bound, in order, and nothing else; it
      omits an event only when it is full of earlier ones. */
  lemma PageIsEarliest(log: Log, lo: nat, limit: nat, s: nat)
    ensures var page := Page(log, lo, limit);
      && |page| <= limit
      && (s in page ==> lo < s <= |log| && Visible(log[s - 1]))
      && (lo < s <= |log| && Visible(log[s - 1]) && s !in page ==> |page| == limit && forall p <- page :: p < s)
  {
    WindowHolds(log, lo, |log|);
    var w := Window(log, lo, |log|);
    if s in Page(log, lo, limit) {
      assert s in w;
    }
    if lo < s <= |log| && Visible(log[s - 1]) {
      assert s in w;
      var i :| 0 <= i < |w| && w[i] == s;
      assert i < |Page(log, lo, limit)| ==> Page(log, lo, limit)[i] == s;
    }
  }

  lemma {:induction false} DispatchAdds(log: Log, page: seq<nat>, replans: seq<TaskId>, t: TaskId)
    ensures t in DispatchAll(log, page, replans) <==> t in replans || exists s <- page :: TaskAt(log, s) == Some(t)
  {
    if page != [] {
      DispatchAdds(log, page[..|page| - 1], replans, t);
    }
  }

  // ----- at most one replan per stuck task -------------------------------------------------------

  lemma {:induction false} DispatchKeepsDistinct(log: Log, page: seq<nat>, replans: seq<TaskId>)
    requires Distinct(replans)
    ensures Distinct(DispatchAll(log, page, replans))
  {
    if page != [] {
      DispatchKeepsDistinct(log, page[..|page| - 1], replans);
    }
  }

  predicate WasStuck(log: Log, t: TaskId) {
    exists s: nat :: 0 < s <= |log| && Visible(log[s - 1]) && TaskAt(log, s) == Some(t)
  }

  lemma DispatchKeepsWarrant(c: Config, s: Sys, page: seq<nat>, t: TaskId)
    requires page <= Page(s.log, Low(c, s.cursor), c.limit)
    requires t in DispatchAll(s.log, page, s.replans)
    ensures t in s.replans || WasStuck(s.log, t)
  {
    DispatchAdds(s.log, page, s.replans, t);
    if t !in s.replans {
      var q :| q in page && TaskAt(s.log, q) == Some(t);
      PageIsEarliest(s.log, Low(c, s.cursor), c.limit, q);
    }
  }

  lemma SettledStaysStuck(log: Log, after: Log, t: TaskId)
    requires WasStuck(log, t) && |log| <= |after|
    requires forall i :: 0 <= i < |log| ==> log[i].kind == after[i].kind && (log[i].fate.Committed? ==> after[i].fate.Committed?)
    ensures WasStuck(after, t)
  {
    var s: nat :| 0 < s <= |log| && Visible(log[s - 1]) && TaskAt(log, s) == Some(t);
    assert Visible(after[s - 1]) && TaskAt(after, s) == Some(t);
  }

  /** In every run, through crashed passes and restarts at cursor 0: no stuck task gets two replans,
      and only tasks with a committed `task.stuck` event get one. */
  lemma {:induction false} OneReplanPerStuckTask(c: Config, ops: seq<Op>)
    ensures Distinct(Run(c, START, ops).replans)
    ensures forall t <- Run(c, START, ops).replans :: WasStuck(Run(c, START, ops).log, t)
  {
    if ops != [] {
      OneReplanPerStuckTask(c, ops[..|ops| - 1]);
      var s, op := Run(c, START, ops[..|ops| - 1]), ops[|ops| - 1];
      var after := Apply(c, s, op);
      var page := Page(s.log, Low(c, s.cursor), c.limit);
      var done := if op.RunCrash? then page[..Least(op.n, |page|)] else page;
      DispatchKeepsDistinct(s.log, done, s.replans);
      forall t <- after.replans ensures WasStuck(after.log, t) {
        if op.RunPass? || op.RunCrash? {
          DispatchKeepsWarrant(c, s, done, t);
        }
        SettledStaysStuck(s.log, after.log, t);
      }
    }
  }

  // ----- nothing is lost ---------------------------------------------------------------------------

  /** The event has a replan, or names no task to replan. */
  predicate Handled(log: Log, replans: seq<TaskId>, q: nat) {
    TaskAt(log, q).Some? ==> TaskAt(log, q).value in replans
  }

  /** Every visible event in (lo, hi] is handled. */
  ghost predicate HandledIn(log: Log, replans: seq<TaskId>, lo: nat, hi: nat)
    requires hi <= |log|
  {
    forall q: nat :: lo < q <= hi && Visible(log[q - 1]) ==> Handled(log, replans, q)
  }

  function InWindow(c: Config, s: Sys): nat
    requires s.cursor <= |s.log|
  {
    |Window(s.log, Low(c, s.cursor), s.cursor)|
  }

  /** With room for the whole overlap, a pass handles every visible event from its lower bound to
      its new cursor; the cursor never moves backwards. */
  lemma PassCovers(c: Config, s: Sys)
    requires s.cursor <= |s.log| && InWindow(c, s) <= c.limit
    ensures s.cursor <= Pass(c, s).cursor <= |s.log|
    ensures HandledIn(s.log, Pass(c, s).replans, Low(c, s.cursor), Pass(c, s).cursor)
  {
    var low, after := Low(c, s.cursor), Pass(c, s);
    var page := Page(s.log, low, c.limit);
    FurthestIsReached(c, s);
    forall q: nat | low < q <= after.cursor && Visible(s.log[q - 1]) ensures q in page {
      PageReaches(c, s, q);
    }
    forall q: nat | low < q <= after.cursor && Visible(s.log[q - 1]) ensures Handled(s.log, after.replans, q) {
      if TaskAt(s.log, q).Some? {
        DispatchAdds(s.log, page, s.replans, TaskAt(s.log, q).value);
      }
    }
  }

  lemma FurthestIsReached(c: Config, s: Sys)
    requires s.cursor <= |s.log|
    ensures var page := Page(s.log, Low(c, s.cursor), c.limit);
      && s.cursor <= Pass(c, s).cursor <= |s.log|
      && (Pass(c, s).cursor == s.cursor || (page != [] && Pass(c, s).cursor == page[|page| - 1]))
  {
    var page := Page(s.log, Low(c, s.cursor), c.limit);
    if page != [] {
      PageIsEarliest(s.log, Low(c, s.cursor), c.limit, page[|page| - 1]);
    }
  }

  lemma TakenUpTo(w: seq<nat>, n: nat, q: nat)
    requires Ascending(w) && 0 < n <= |w| && q in w && q <= w[n - 1]
    ensures q in w[..n]
  {
    var i :| 0 <= i < |w| && w[i] == q;
    assert i < n && w[..n][i] == q;
  }

  lemma TakenBefore(w: seq<nat>, m: nat, n: nat, q: nat)
    requires m <= n <= |w| && q in w[..m]
    ensures q in w[..n]
  {
    var i :| 0 <= i < m && w[..m][i] == q;
    assert w[..n][i] == q;
  }

  lemma PageReachesOverlap(c: Config, s: Sys, q: nat)
    requires s.cursor <= |s.log| && InWindow(c, s) <= c.limit
    requires Low(c, s.cursor) < q <= s.cursor && Visible(s.log[q - 1])
    ensures q in Page(s.log, Low(c, s.cursor), c.limit)
  {
    var low := Low(c, s.cursor);
    var w, overlap := Window(s.log, low, |s.log|), Window(s.log, low, s.cursor);
    WindowHolds(s.log, low, s.cursor);
    WindowSplits(s.log, low, s.cursor, |s.log|);
    assert q in overlap && w[..|overlap|] == overlap;
    TakenBefore(w, |overlap|, Least(c.limit, |w|), q);
  }

  lemma PageReachesBeyond(c: Config, s: Sys, q: nat)
    requires s.cursor < q <= Pass(c, s).cursor <= |s.log| && Visible(s.log[q - 1])
    ensures q in Page(s.log, Low(c, s.cursor), c.limit)
  {
    var low := Low(c, s.cursor);
    var w, page := Window(s.log, low, |s.log|), Page(s.log, low, c.limit);
    FurthestIsReached(c, s);
    WindowHolds(s.log, low, |s.log|);
    assert q in w && page[|page| - 1] == w[|page| - 1];
    TakenUpTo(w, |page|, q);
  }

  lemma PageReaches(c: Config, s: Sys, q: nat)
    requires s.cursor <= |s.log| && InWindow(c, s) <= c.limit
    requires Low(c, s.cursor) < q <= Pass(c, s).cursor <= |s.log| && Visible(s.log[q - 1])
    ensures q in Page(s.log, Low(c, s.cursor), c.limit)
  {
    if q <= s.cursor {
      PageReachesOverlap(c, s, q);
    } else {
      PageReachesBeyond(c, s, q);
    }
  }

  /** An event commits only while its number is above the cursor less the lookback, and a pass runs
      only while its overlap window holds at most `limit` stuck events. */
  predicate Timely(c: Config, s: Sys, op: Op) {
    match op
    case Commit(q) => IsOpen(s.log, q) ==> q > Low(c, s.cursor)
    case RunPass => s.cursor <= |s.log| ==> InWindow(c, s) <= c.limit
    case _ => true
  }

  lemma TimelyStep(c: Config, s: Sys, op: Op)
    requires s.cursor <= |s.log| && HandledIn(s.log, s.replans, 0, Low(c, s.cursor)) && Timely(c, s, op)
    ensures var after := Apply(c, s, op);
      && after.cursor <= |after.log|
      && HandledIn(after.log, after.replans, 0, Low(c, after.cursor))
      && (op.RunPass? ==> HandledIn(after.log, after.replans, 0, after.cursor))
  {
    match op
    case RunPass =>
      PassCovers(c, s);
      HandledStays(c, s, Page(s.log, Low(c, s.cursor), c.limit), 0, Low(c, s.cursor));
    case RunCrash(n) =>
      var page := Page(s.log, Low(c, s.cursor), c.limit);
      HandledStays(c, s, page[..Least(n, |page|)], 0, Low(c, s.cursor));
    case Restart =>
    case _ =>
      var after := Apply(c, s, op);
      forall q: nat | 0 < q <= Low(c, after.cursor) && Visible(after.log[q - 1])
        ensures Handled(after.log, after.replans, q)
      {
        assert Handled(s.log, s.replans, q);
      }
  }

  lemma HandledStays(c: Config, s: Sys, page: seq<nat>, lo: nat, hi: nat)
    requires hi <= |s.log| && HandledIn(s.log, s.replans, lo, hi)
    ensures HandledIn(s.log, DispatchAll(s.log, page, s.replans), lo, hi)
  {
    forall q: nat | lo < q <= hi && Visible(s.log[q - 1]) && TaskAt(s.log, q).Some?
      ensures TaskAt(s.log, q).value in DispatchAll(s.log, page, s.replans)
    {
      assert Handled(s.log, s.replans, q);
      DispatchAdds(s.log, page, s.replans, TaskAt(s.log, q).value);
    }
  }

  /** In every timely run, rollbacks, crashed passes and restarts included: after a pass each visible
      stuck event at or below the cursor has a replan, and at all times each one at or below the next
      pass's lower bound does. */
  lemma {:induction false} NothingIsLost(c: Config, ops: seq<Op>)
    requires forall i :: 0 <= i < |ops| ==> Timely(c, Run(c, START, ops[..i]), ops[i])
    ensures var end := Run(c, START, ops);
      && end.cursor <= |end.log|
      && HandledIn(end.log, end.replans, 0, Low(c, end.cursor))
      && (ops != [] && ops[|ops| - 1].RunPass? ==> HandledIn(end.log, end.replans, 0, end.cursor))
  {
    if ops != [] {
      var init := ops[..|ops| - 1];
      forall i | 0 <= i < |init| ensures Timely(c, Run(c, START, init[..i]), init[i]) {
        assert init[..i] == ops[..i];
      }
      NothingIsLost(c, init);
      assert ops[..|ops| - 1] == init;
      TimelyStep(c, Run(c, START, init), ops[|ops| - 1]);
    }
  }

  // ----- from the insert to the replan -----------------------------------------------------------------

  /** The stuck events that can be read past this bound, once this one has committed. */
  function Readable(c: Config, s: Sys, q: nat): nat {
    |Window(Apply(c, s, Commit(q)).log, Low(c, s.cursor), |s.log|)|
  }

  /** An event still open is not read; its commit above the lower bound is, by the next pass whose page has
      room, and its task has its replan; a rollback burns the number for good. */
  lemma LateCommitIsRecovered(c: Config, s: Sys, q: nat, t: TaskId)
    requires IsOpen(s.log, q) && s.log[q - 1].kind == Stuck(Some(t))
    ensures !Visible(s.log[q - 1])
    ensures |Apply(c, s, Commit(q)).log| == |s.log|
    ensures q > Low(c, s.cursor) && Readable(c, s, q) <= c.limit ==> t in Pass(c, Apply(c, s, Commit(q))).replans
    ensures var burnt := Apply(c, s, Rollback(q)).log;
      |burnt| == |s.log| && !Visible(burnt[q - 1]) && !IsOpen(burnt, q)
  {
    var after := Apply(c, s, Commit(q));
    if q > Low(c, s.cursor) && Readable(c, s, q) <= c.limit {
      WindowHolds(after.log, Low(c, s.cursor), |after.log|);
      var w := Window(after.log, Low(c, s.cursor), |after.log|);
      assert Page(after.log, Low(c, s.cursor), c.limit) == w;
      assert Visible(after.log[q - 1]) && q in w && TaskAt(after.log, q) == Some(t);
      DispatchAdds(after.log, w, s.replans, t);
    }
  }

  /** A restart reads from the beginning: with room for all stuck events, the next pass replans even those the
      lookback had passed by. */
  lemma RestartRecoversTheLost(c: Config, s: Sys)
    requires s.cursor <= |s.log| && |Window(s.log, 0, |s.log|)| <= c.limit
    ensures var after := Pass(c, Apply(c, s, Restart));
      after.log == s.log && HandledIn(s.log, after.replans, 0, |s.log|)
  {
    var w := Window(s.log, 0, |s.log|);
    var after := Pass(c, Apply(c, s, Restart));
    WindowHolds(s.log, 0, |s.log|);
    assert Page(s.log, 0, c.limit) == w;
    forall q: nat | 0 < q <= |s.log| && Visible(s.log[q - 1]) ensures Handled(s.log, after.replans, q) {
      assert q in w;
      if TaskAt(s.log, q).Some? {
        DispatchAdds(s.log, w, s.replans, TaskAt(s.log, q).value);
      }
    }
  }

  /** An insert draws the next number, and nobody can read it yet. */
  lemma DrawIsInvisible(c: Config, s: Sys, kind: Kind, lo: nat)
    ensures var after := Apply(c, s, Draw(kind)); var q := |s.log| + 1;
      && IsOpen(after.log, q) && after.log[q - 1].kind == kind && after.log[..|s.log|] == s.log
      && Window(after.log, lo, |after.log|) == Window(s.log, lo, |s.log|)
  {
    SameWindow(s.log, Apply(c, s, Draw(kind)).log, lo, |s.log|);
    if lo > |s.log| {
      assert Window(s.log, lo, |s.log|) == [];
    }
  }

  lemma {:induction false} SameWindow(a: Log, b: Log, lo: nat, hi: nat)
    requires a <= b && hi <= |a|
    ensures Window(a, lo, hi) == Window(b, lo, hi)
  {
    if hi > lo {
      SameWindow(a, b, lo, hi - 1);
    }
  }

  // ----- progress --------------------------------------------------------------------------------------

  function Beyond(s: Sys): nat
    requires s.cursor <= |s.log|
  {
    |Window(s.log, s.cursor, |s.log|)|
  }

  /** A pass moves the cursor exactly when its overlap leaves room in the page and something visible
      lies beyond the cursor; then fewer visible events lie beyond the new cursor. */
  lemma CursorMovesExactly(c: Config, s: Sys)
    requires s.cursor <= |s.log|
    ensures s.cursor <= Pass(c, s).cursor <= |s.log|
    ensures Pass(c, s).cursor > s.cursor <==> InWindow(c, s) < c.limit && Beyond(s) > 0
    ensures Pass(c, s).cursor > s.cursor ==> Beyond(Pass(c, s)) < Beyond(s)
  {
    var low := Low(c, s.cursor);
    var page := Page(s.log, low, c.limit);
    var w, overlap, rest := Window(s.log, low, |s.log|), Window(s.log, low, s.cursor), Window(s.log, s.cursor, |s.log|);
    FurthestIsReached(c, s);
    WindowSplits(s.log, low, s.cursor, |s.log|);
    WindowHolds(s.log, low, s.cursor);
    WindowHolds(s.log, s.cursor, |s.log|);
    if page != [] {
      var n := |page|;
      if n <= |overlap| {
        assert page[n - 1] == overlap[n - 1] && overlap[n - 1] in overlap;
      } else {
        assert page[n - 1] == rest[n - 1 - |overlap|] && rest[n - 1 - |overlap|] in rest;
      }
    }
    if Pass(c, s).cursor > s.cursor {
      var next := Pass(c, s).cursor;
      WindowSplits(s.log, s.cursor, next, |s.log|);
      WindowHolds(s.log, low, |s.log|);
      assert next in w;
      WindowHolds(s.log, s.cursor, next);
      assert next in Window(s.log, s.cursor, next);
    }
  }

  /** Every window of `lookback` numbers holds fewer visible stuck events than a page. */
  predicate Sparse(c: Config, log: Log) {
    forall hi | 0 <= hi <= |log| :: |Window(log, Low(c, hi), hi)| < c.limit
  }

  lemma {:induction false} PassesProgress(c: Config, s: Sys, n: nat)
    requires s.cursor <= |s.log| && Sparse(c, s.log)
    ensures var end := Passes(c, s, n);
      && end.log == s.log && s.cursor <= end.cursor <= |s.log|
      && Beyond(end) <= (if n <= Beyond(s) then Beyond(s) - n else 0)
      && (n > 0 ==> HandledIn(end.log, end.replans, Low(c, s.cursor), end.cursor))
      && (forall t <- s.replans :: t in end.replans)
  {
    if n > 0 {
      PassesProgress(c, s, n - 1);
      var before := Passes(c, s, n - 1);
      var page := Page(s.log, Low(c, before.cursor), c.limit);
      CursorMovesExactly(c, before);
      PassCovers(c, before);
      if n > 1 {
        HandledStays(c, before, page, Low(c, s.cursor), before.cursor);
      }
      forall t <- s.replans ensures t in Pass(c, before).replans {
        DispatchAdds(s.log, page, before.replans, t);
      }
    }
  }

  /** No other visible event is about the same task. */
  ghost predicate OnlyEventOf(log: Log, q: nat, t: TaskId) {
    forall p: nat :: 0 < p <= |log| && Visible(log[p - 1]) && TaskAt(log, p) == Some(t) ==> p == q
  }

  lemma {:induction false} PassesKeepLog(c: Config, s: Sys, n: nat)
    requires s.cursor <= |s.log|
    ensures Passes(c, s, n).log == s.log && s.cursor <= Passes(c, s, n).cursor <= |s.log|
  {
    if n > 0 {
      PassesKeepLog(c, s, n - 1);
      FurthestIsReached(c, Passes(c, s, n - 1));
    }
  }

  lemma PassSkipsBelow(c: Config, s: Sys, q: nat, t: TaskId)
    requires q <= Low(c, s.cursor) && OnlyEventOf(s.log, q, t) && t !in s.replans
    ensures t !in Pass(c, s).replans
  {
    var page := Page(s.log, Low(c, s.cursor), c.limit);
    forall p <- page ensures TaskAt(s.log, p) != Some(t) {
      PageIsEarliest(s.log, Low(c, s.cursor), c.limit, p);
    }
    DispatchAdds(s.log, page, s.replans, t);
  }

  lemma {:induction false} BelowBoundIsNeverRead(c: Config, s: Sys, n: nat, q: nat, t: TaskId)
    requires s.cursor <= |s.log| && 0 < q <= Low(c, s.cursor)
    requires t !in s.replans && OnlyEventOf(s.log, q, t)
    ensures t !in Passes(c, s, n).replans
  {
    if n > 0 {
      PassesKeepLog(c, s, n - 1);
      BelowBoundIsNeverRead(c, s, n - 1, q, t);
      PassSkipsBelow(c, Passes(c, s, n - 1), q, t);
    }
  }

  /** With no new commits, after one pass more than there are visible events beyond the cursor, a
      visible event has its replan exactly when it had one or its number is above the cursor less the
      lookback: a later commit is recovered, an earlier one is lost for good. */
  lemma DispatchedExactly(c: Config, s: Sys, n: nat, q: nat, t: TaskId)
    requires s.cursor <= |s.log| && Sparse(c, s.log) && n > Beyond(s)
    requires 0 < q <= |s.log| && Visible(s.log[q - 1]) && TaskAt(s.log, q) == Some(t) && OnlyEventOf(s.log, q, t)
    ensures t in Passes(c, s, n).replans <==> t in s.replans || q > Low(c, s.cursor)
  {
    PassesProgress(c, s, n);
    var end := Passes(c, s, n);
    if q > Low(c, s.cursor) {
      WindowHolds(s.log, end.cursor, |s.log|);
      assert q !in Window(s.log, end.cursor, |s.log|);
      assert Handled(s.log, end.replans, q);
    } else if t !in s.replans {
      BelowBoundIsNeverRead(c, s, n, q, t);
    }
  }

  /** Visible stuck events that still lack a replan, up to hi. */
  function Pending(log: Log, replans: seq<TaskId>, hi: nat): nat
    requires hi <= |log|
  {
    if hi == 0 then 0
    else
      Pending(log, replans, hi - 1)
      + if Visible(log[hi - 1]) && !Handled(log, replans, hi) then 1 else 0
  }

  lemma {:induction false} PendingShrinks(log: Log, replans: seq<TaskId>, more: seq<TaskId>, hi: nat, q: nat)
    requires hi <= |log| && forall t <- replans :: t in more
    ensures Pending(log, more, hi) <= Pending(log, replans, hi)
    ensures 0 < q <= hi && Visible(log[q - 1]) && !Handled(log, replans, q) && Handled(log, more, q) ==>
      Pending(log, more, hi) < Pending(log, replans, hi)
  {
    if hi > 0 {
      PendingShrinks(log, replans, more, hi - 1, q);
    }
  }

  lemma {:induction false} PendingHasEvent(log: Log, replans: seq<TaskId>, hi: nat) returns (q: nat)
    requires hi <= |log| && Pending(log, replans, hi) > 0
    ensures 0 < q <= hi && Visible(log[q - 1]) && !Handled(log, replans, q)
  {
    if Visible(log[hi - 1]) && !Handled(log, replans, hi) {
      q := hi;
    } else {
      q := PendingHasEvent(log, replans, hi - 1);
    }
  }

  /** Every replan came from an event the cursor has passed. */
  ghost predicate Attended(s: Sys) {
    s.cursor <= |s.log| && forall t <- s.replans :: WasStuck(s.log[..s.cursor], t)
  }

  /** A task is stuck at most once, and its event names it. */
  ghost predicate OncePerTask(log: Log) {
    forall q: nat :: 0 < q <= |log| && Visible(log[q - 1]) ==>
      TaskAt(log, q).Some? && OnlyEventOf(log, q, TaskAt(log, q).value)
  }

  lemma StepAttends(c: Config, s: Sys, op: Op)
    requires Attended(s) && !op.Restart? && !op.RunCrash?
    ensures Attended(Apply(c, s, op))
  {
    var after := Apply(c, s, op);
    FurthestIsReached(c, s);
    forall t <- after.replans ensures WasStuck(after.log[..after.cursor], t) {
      if t in s.replans {
        SettledStaysStuck(s.log[..s.cursor], after.log[..after.cursor], t);
      } else {
        PassAttends(c, s, t);
      }
    }
  }

  /** Without restarts and crashed passes every replan came from an event the cursor has passed. */
  lemma {:induction false} SteadyRunsAttend(c: Config, ops: seq<Op>)
    requires forall op <- ops :: !op.Restart? && !op.RunCrash?
    ensures Attended(Run(c, START, ops))
  {
    if ops != [] {
      SteadyRunsAttend(c, ops[..|ops| - 1]);
      StepAttends(c, Run(c, START, ops[..|ops| - 1]), ops[|ops| - 1]);
    }
  }

  lemma PassAttends(c: Config, s: Sys, t: TaskId)
    requires s.cursor <= |s.log| && t in Pass(c, s).replans && t !in s.replans
    ensures Pass(c, s).cursor <= |s.log| && WasStuck(s.log[..Pass(c, s).cursor], t)
  {
    var page := Page(s.log, Low(c, s.cursor), c.limit);
    FurthestIsReached(c, s);
    DispatchAdds(s.log, page, s.replans, t);
    var q :| q in page && TaskAt(s.log, q) == Some(t);
    PageEndsFurthest(c, s, q);
    StuckInPrefix(s.log, Pass(c, s).cursor, q, t);
  }

  lemma PageEndsFurthest(c: Config, s: Sys, q: nat)
    requires s.cursor <= |s.log| && q in Page(s.log, Low(c, s.cursor), c.limit)
    ensures 0 < q <= Pass(c, s).cursor <= |s.log| && Visible(s.log[q - 1])
  {
    var page := Page(s.log, Low(c, s.cursor), c.limit);
    FurthestIsReached(c, s);
    PageIsEarliest(s.log, Low(c, s.cursor), c.limit, q);
    WindowHolds(s.log, Low(c, s.cursor), |s.log|);
    var i :| 0 <= i < |page| && page[i] == q;
    assert page[i] <= page[|page| - 1];
  }

  lemma StuckInPrefix(log: Log, n: nat, q: nat, t: TaskId)
    requires 0 < q <= n <= |log| && Visible(log[q - 1]) && TaskAt(log, q) == Some(t)
    ensures WasStuck(log[..n], t)
  {
    assert Visible(log[..n][q - 1]) && TaskAt(log[..n], q) == Some(t);
  }

  /** A pass strictly lowers the number of events still to be dispatched when nothing pending is
      below its lower bound and the overlap leaves room in the page. */
  lemma PendingFalls(c: Config, s: Sys)
    requires Attended(s) && OncePerTask(s.log) && InWindow(c, s) < c.limit
    requires HandledIn(s.log, s.replans, 0, Low(c, s.cursor))
    requires Pending(s.log, s.replans, |s.log|) > 0
    ensures Pending(s.log, Pass(c, s).replans, |s.log|) < Pending(s.log, s.replans, |s.log|)
  {
    var after := Pass(c, s);
    var page := Page(s.log, Low(c, s.cursor), c.limit);
    var q := PendingHasEvent(s.log, s.replans, |s.log|);
    assert q > Low(c, s.cursor);
    PassCovers(c, s);
    CursorMovesExactly(c, s);
    WindowHolds(s.log, s.cursor, |s.log|);
    var hit := q;
    if q > after.cursor {
      assert q in Window(s.log, s.cursor, |s.log|);
      hit := after.cursor;
      CursorRestsOnPending(c, s);
    }
    assert Handled(s.log, after.replans, hit);
    forall t <- s.replans ensures t in after.replans {
      DispatchAdds(s.log, page, s.replans, t);
    }
    PendingShrinks(s.log, s.replans, after.replans, |s.log|, hit);
  }

  lemma CursorRestsOnPending(c: Config, s: Sys)
    requires Attended(s) && OncePerTask(s.log) && Pass(c, s).cursor > s.cursor
    ensures var hit := Pass(c, s).cursor;
      0 < hit <= |s.log| && Visible(s.log[hit - 1]) && !Handled(s.log, s.replans, hit)
  {
    var hit := Pass(c, s).cursor;
    FurthestIsReached(c, s);
    PageIsEarliest(s.log, Low(c, s.cursor), c.limit, hit);
    var t := TaskAt(s.log, hit).value;
    var passed := s.log[..s.cursor];
    forall p: nat | 0 < p <= s.cursor && Visible(passed[p - 1]) ensures TaskAt(passed, p) != Some(t) {
      assert Visible(s.log[p - 1]) && TaskAt(s.log, p) == TaskAt(passed, p);
    }
  }

  /** So in every timely run without restarts and crashed passes, each task stuck at most once and
      the overlap below the page limit, every pass lowers the number of undispatched events until
      none remain. */
  lemma {:induction false} EachPassDispatches(c: Config, ops: seq<Op>)
    requires forall i :: 0 <= i < |ops| ==> Timely(c, Run(c, START, ops[..i]), ops[i])
    requires forall op <- ops :: !op.Restart? && !op.RunCrash?
    ensures var s := Run(c, START, ops);
      && s.cursor <= |s.log|
      && (OncePerTask(s.log) && InWindow(c, s) < c.limit && Pending(s.log, s.replans, |s.log|) > 0 ==>
            Pending(s.log, Pass(c, s).replans, |s.log|) < Pending(s.log, s.replans, |s.log|))
  {
    var s := Run(c, START, ops);
    NothingIsLost(c, ops);
    SteadyRunsAttend(c, ops);
    if OncePerTask(s.log) && InWindow(c, s) < c.limit && Pending(s.log, s.replans, |s.log|) > 0 {
      PendingFalls(c, s);
    }
  }

  // ----- where the cursor stalls -----------------------------------------------------------------------

  /** An overlap that fills the page stalls the dispatcher for good: without commits or a restart it
      re-reads the same page for ever and nothing beyond the cursor is read. */
  lemma {:induction false} FullOverlapStalls(c: Config, s: Sys, n: nat, t: TaskId)
    requires s.cursor <= |s.log| && InWindow(c, s) >= c.limit
    ensures Passes(c, s, n).log == s.log && Passes(c, s, n).cursor == s.cursor
    ensures t in Passes(c, s, n).replans ==> t in s.replans || WasStuck(s.log[..s.cursor], t)
  {
    if n > 0 {
      FullOverlapStalls(c, s, n - 1, t);
      var before := Passes(c, s, n - 1);
      CursorMovesExactly(c, before);
      if t in Pass(c, before).replans && t !in before.replans {
        PassAttends(c, before, t);
      }
    }
  }

  /** A log of m stuck tasks, all committed. */
  function Backlog(m: nat): Log {
    seq(m, i requires 0 <= i < m => Slot(Stuck(Some(i)), Committed))
  }

  lemma {:induction false} BacklogWindow(m: nat, hi: nat)
    requires hi <= m
    ensures Window(Backlog(m), 0, hi) == seq(hi, i requires 0 <= i < hi => i + 1)
  {
    if hi > 0 {
      BacklogWindow(m, hi - 1);
    }
  }

  /** The cursor rests on the last number of its first page; the next task has no replan. */
  predicate Rests(c: Config, m: nat, s: Sys) {
    s.log == Backlog(m) && s.cursor == c.limit && c.limit !in s.replans
  }

  lemma BacklogPassRests(c: Config, m: nat, s: Sys)
    requires 0 < c.limit < m && s.log == Backlog(m) && Pass(c, s).cursor == c.limit && c.limit !in s.replans
    requires s.cursor <= m
    ensures Rests(c, m, Pass(c, s))
  {
    if c.limit in Pass(c, s).replans {
      PassAttends(c, s, c.limit);
    }
  }

  lemma BacklogFirstPass(c: Config, m: nat)
    requires 0 < c.limit < m
    ensures Rests(c, m, Pass(c, Sys(Backlog(m), [], 0)))
  {
    var s := Sys(Backlog(m), [], 0);
    BacklogWindow(m, m);
    var page := Page(s.log, 0, c.limit);
    assert |page| == c.limit && page[c.limit - 1] == c.limit;
    BacklogPassRests(c, m, s);
  }

  lemma BacklogNextPass(c: Config, m: nat, s: Sys)
    requires 0 < c.limit < m && c.limit <= c.lookback && Rests(c, m, s)
    ensures Rests(c, m, Pass(c, s))
  {
    BacklogWindow(m, c.limit);
    CursorMovesExactly(c, s);
    BacklogPassRests(c, m, s);
  }

  /** So a fresh scheduler that finds more than `limit` stuck tasks, with limit <= lookback (200 and
      1000 in production), replans the first `limit` and never gets to the next one. */
  lemma {:induction false} BacklogNeverDrains(c: Config, m: nat, n: nat)
    requires 0 < c.limit < m && c.limit <= c.lookback && n > 0
    ensures var end := Passes(c, Sys(Backlog(m), [], 0), n);
      end.log == Backlog(m) && end.cursor == c.limit && c.limit !in end.replans
  {
    var s := Sys(Backlog(m), [], 0);
    if n == 1 {
      BacklogFirstPass(c, m);
      assert Passes(c, s, 1) == Pass(c, Passes(c, s, 0));
    } else {
      BacklogNeverDrains(c, m, n - 1);
      BacklogNextPass(c, m, Passes(c, s, n - 1));
    }
  }

  /** In production more than 200 stuck tasks are enough. */
  lemma ProductionBacklog(m: nat, n: nat)
    requires m > 200 && n > 0
    ensures var end := Passes(Config(DEFAULT_LOOKBACK, REPLAN_DISPATCH_LIMIT), Sys(Backlog(m), [], 0), n);
      end.cursor == 200 && 200 !in end.replans
  {
    BacklogNeverDrains(Config(DEFAULT_LOOKBACK, REPLAN_DISPATCH_LIMIT), m, n);
  }

  // ----- the dispatcher itself ----------------------------------------------------------------------------

  class Scheduler {
    var log: Log
    var replans: seq<TaskId>
    var cursor: nat

    function Snapshot(): Sys
      reads this
    {
      Sys(log, replans, cursor)
    }

    constructor ()
      ensures Snapshot() == START
    {
      log, replans, cursor := [], [], 0;
    }

    /** The insert draws the number; the event is not visible yet. */
    method Append(kind: Kind) returns (q: nat)
      modifies `log
      ensures log == old(log) + [Slot(kind, Open)] && q == |log|
    {
      log := log + [Slot(kind, Open)];
      q := |log|;
    }

    method ReadStuck(since: nat, lookback: nat, limit: nat) returns (page: seq<nat>)
      ensures page == Page(log, Low(Config(lookback, limit), since), limit)
    {
      var low := Low(Config(lookback, limit), since);
      page := [];
      if low >= |log| { return; }
      WindowHolds(log, low, |log|);
      for q := low + 1 to |log| + 1
        invariant page == Window(log, low, q - 1)[..Least(limit, |Window(log, low, q - 1)|)]
      {
        if Visible(log[q - 1]) && |page| < limit {
          page := page + [q];
        }
      }
    }

    /** One pass; `failAt` is the event at which it raises, if it does. */
    method DispatchReplans(since: nat, lookback: nat, limit: nat, failAt: Option<nat>) returns (next: Option<nat>)
      modifies `replans
      ensures var page := Page(log, Low(Config(lookback, limit), since), limit);
        if failAt.Some? && failAt.value < |page|
        then next == None && replans == DispatchAll(log, page[..failAt.value], old(replans))
        else next == Some(Furthest(since, page)) && replans == DispatchAll(log, page, old(replans))
    {
      var page := ReadStuck(since, lookback, limit);
      var at := since;
      WindowHolds(log, Low(Config(lookback, limit), since), |log|);
      for i := 0 to |page|
        invariant at == Furthest(since, page[..i])
        invariant replans == DispatchAll(log, page[..i], old(replans))
        invariant failAt.Some? ==> i <= failAt.value
      {
        if failAt == Some(i) { return None; }
        assert page[..i + 1] == page[..i] + [page[i]];
        assert i > 0 ==> page[i - 1] < page[i];
        if page[i] > at {
          at := page[i];
        }
        var task := TaskAt(log, page[i]);
        if task.Some? && task.value !in replans {
          replans := replans + [task.value];
        }
      }
      assert page[..|page|] == page;
      return Some(at);
    }

    /** One turn of the scheduler's loop: a failed pass leaves the in-memory cursor where it was. */
    method Turn(failAt: Option<nat>)
      modifies `replans, `cursor
      ensures var page := Page(log, Low(Config(DEFAULT_LOOKBACK, REPLAN_DISPATCH_LIMIT), old(cursor)), REPLAN_DISPATCH_LIMIT);
        var c := Config(DEFAULT_LOOKBACK, REPLAN_DISPATCH_LIMIT);
        Snapshot() == if failAt.Some? && failAt.value < |page| then Crash(c, old(Snapshot()), failAt.value)
                      else Pass(c, old(Snapshot()))
    {
      var next := DispatchReplans(cursor, DEFAULT_LOOKBACK, REPLAN_DISPATCH_LIMIT, failAt);
      if next.Some? {
        cursor := next.value;
      }
    }
  }
}

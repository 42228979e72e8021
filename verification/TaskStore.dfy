/** The coordination tables as the runtime changes them: rows updated in place, trail and event
    log appended to. Each method is one function of runtime/tasks.py, runtime/decisions.py,
    runtime/supervisor.py or runtime/worker.py, proved against its transaction in Tables.dfy. */
module TaskTables {
  import opened Common
  import opened Lifecycle
  import opened Tables
  import opened Studio
  import Worker

  /** The k-th created row is `id`, and no older claimable row matches its priority. */
  predicate OldestOfItsPriority(db: Db, eligible: set<TaskId>, k: nat, id: TaskId)
    requires k < |db.order| && id in db.tasks
  {
    && db.order[k] == id
    && forall j :: 0 <= j < k && db.order[j] in eligible && Ready(db, db.order[j]) ==>
         db.tasks[db.order[j]].priority < db.tasks[id].priority
  }

  /** Best claimable row under the default order (priority descending, then creation), among
      the rows a grab may look at. */
  function Pick(db: Db, eligible: set<TaskId>, n: nat): (r: Option<TaskId>)
    requires n <= |db.order|
    ensures r.Some? ==> r.value in eligible && Ready(db, r.value) && r.value in db.order[..n]
    ensures forall id <- db.order[..n] :: id in eligible && Ready(db, id) ==>
      r.Some? && db.tasks[id].priority <= db.tasks[r.value].priority
    ensures r.Some? ==> exists k :: 0 <= k < n && OldestOfItsPriority(db, eligible, k, r.value)
  {
    if n == 0 then None
    else
      var best := Pick(db, eligible, n - 1);
      var id := db.order[n - 1];
      assert db.order[..n] == db.order[..n - 1] + [id];
      if id in eligible && Ready(db, id)
         && (best.None? || db.tasks[best.value].priority < db.tasks[id].priority) then
        assert OldestOfItsPriority(db, eligible, n - 1, id);
        Some(id)
      else
        best
  }

  predicate FirstAt(db: Db, eligible: set<TaskId>, listing: seq<TaskId>, k: int, id: TaskId) {
    0 <= k < |listing| && listing[k] == id && forall earlier <- listing[..k] :: !(earlier in eligible && Ready(db, earlier))
  }

  /** The first claimable row of a listing, among the rows a grab may look at. */
  function First(db: Db, eligible: set<TaskId>, listing: seq<TaskId>): (r: Option<TaskId>)
    ensures r.Some? ==> r.value in eligible && Ready(db, r.value) && exists k :: FirstAt(db, eligible, listing, k, r.value)
    ensures r.None? ==> forall id <- listing :: !(id in eligible && Ready(db, id))
  {
    if listing == [] then None
    else
      var n := |listing| - 1;
      var earlier := First(db, eligible, listing[..n]);
      if earlier.Some? then
        assert forall k :: FirstAt(db, eligible, listing[..n], k, earlier.value) ==> listing[..n][..k] == listing[..k];
        assert forall k :: FirstAt(db, eligible, listing[..n], k, earlier.value) ==> FirstAt(db, eligible, listing, k, earlier.value);
        earlier
      else if listing[n] in eligible && Ready(db, listing[n]) then
        assert FirstAt(db, eligible, listing, n, listing[n]);
        Some(listing[n])
      else None
  }

  datatype SweepResult = SweepResult(
    scanned: nat, nudged: seq<TaskId>, deferred: seq<TaskId>, rekicked: seq<TaskId>,
    stuck: seq<TaskId>, failed: seq<TaskId>)

  /** A sweep as operations of a run: scan, then handle each row. */
  function SweepOps(pick: seq<TaskId>, madeProgress: TaskId -> bool): seq<Op> {
    [Scan(pick)] + seq(|pick|, i requires 0 <= i < |pick| => Handle(madeProgress(pick[i])))
  }

  /** `get_approval`: the row of the approval a parked task names. */
  function Lookup(approvals: map<ApprovalId, ApprovalStatus>, t: Task): Option<ApprovalStatus> {
    if t.result.Some? && t.result.value.BlockedOnApproval? && t.result.value.approval in approvals
    then Some(approvals[t.result.value.approval]) else None
  }

  lemma SweepNext(cfg: Config, s: Sys, pick: seq<TaskId>, madeProgress: TaskId -> bool, i: nat,
                  db: Db, rows: seq<Scanned>, sweepNow: Time)
    requires i < |pick| && rows != [] && rows[0].id == pick[i]
    requires Run(cfg, s, SweepOps(pick, madeProgress)[..i + 1]) == Sys(db, rows, sweepNow)
    ensures Run(cfg, s, SweepOps(pick, madeProgress)[..i + 2])
      == Sys(Recover(cfg, db, rows[0].id, rows[0].row, sweepNow, madeProgress(rows[0].id)).db, rows[1..], sweepNow)
  {
    SweepPrefix(cfg, s, pick, madeProgress, i + 1);
  }

  /** The first i rows of a sweep are the first i + 1 operations of its run. */
  lemma SweepPrefix(cfg: Config, s: Sys, pick: seq<TaskId>, madeProgress: TaskId -> bool, i: nat)
    requires i <= |pick|
    ensures var ops := SweepOps(pick, madeProgress);
      && |ops| == |pick| + 1
      && (i == 0 ==> Run(cfg, s, ops[..1]) == Apply(cfg, s, Scan(pick)))
      && (i > 0 ==>
            Run(cfg, s, ops[..i + 1]) == Apply(cfg, Run(cfg, s, ops[..i]), Handle(madeProgress(pick[i - 1]))))
  {
    var ops := SweepOps(pick, madeProgress);
    assert ops[..i + 1] == ops[..i] + [ops[i]];
    RunSnoc(cfg, s, ops[..i], ops[i]);
    if i == 0 {
      assert ops[..0] == [] && Run(cfg, s, ops[..0]) == s;
    } else {
      assert ops[i] == Handle(madeProgress(pick[i - 1]));
    }
  }

  /** Handling a held row as it is now moves it, unless it is deferred. */
  lemma CurrentRowMoves(cfg: Config, db: Db, id: TaskId, row: Task, sweepNow: Time, madeProgress: bool)
    ensures id in db.tasks && Held(db.tasks[id].status) && db.tasks[id] == row ==>
      Recover(cfg, db, id, row, sweepNow, madeProgress).reply == Moved || Ladder(cfg, row, sweepNow) == RungDefer
  {
    assert Targets(Claimed) >= {UpForGrabs, Abandoned} && Targets(InProgress) >= {UpForGrabs, Abandoned};
  }

  /** What happens to a parked row depends on that row and its approval only. */
  lemma ResumeIsLocal(a: Db, b: Db, id: TaskId, status: Option<ApprovalStatus>)
    requires id in a.tasks && id in b.tasks && a.tasks[id] == b.tasks[id] && a.now == b.now
    ensures var after := ResumeApproved(b, id, status).db;
      && id in after.tasks && id in ResumeApproved(a, id, status).db.tasks
      && after.tasks[id] == ResumeApproved(a, id, status).db.tasks[id]
      && after.tasks.Keys == b.tasks.Keys && after.now == b.now
      && after.order == b.order && after.decisions == b.decisions
      && forall t <- b.tasks :: t != id ==> after.tasks[t] == b.tasks[t]
  {
  }

  /** Its heartbeat is this moment's and no nudge is open. */
  predicate Alive(t: Task, now: Time) {
    t.heartbeatAt == Some(now) && t.nudgedAt.None?
  }

  /** One row is now this, trail and log have grown by these entries, and nothing else has changed. */
  predicate Wrote(before: Db, after: Db, id: TaskId, row: Task, hops: seq<Hop>, events: seq<Event>) {
    && id in before.tasks
    && after == before.(tasks := before.tasks[id := row], trail := before.trail + hops, log := before.log + events)
  }

  ghost predicate IsOperation(before: Db, after: Db, op: Op) {
    forall cfg: Config, s: Sys :: s.db == before ==> Commit(cfg, s, op) == after
  }

  /** The row exists and its status passes the guard. */
  predicate Admits(db: Db, id: TaskId, expected: Option<set<Status>>) {
    id in db.tasks && (expected.Some? ==> db.tasks[id].status in expected.value)
  }

  predicate HasStatus(db: Db, id: TaskId, status: Status) {
    id in db.tasks && db.tasks[id].status == status
  }

  predicate IsHeld(db: Db, id: TaskId) {
    HasStatus(db, id, Claimed) || HasStatus(db, id, InProgress)
  }

  /** What the guarded writer does, case by case. */
  lemma TransitionTells(db: Db, id: TaskId, to: Status, expected: Option<set<Status>>, o: Sets, force: bool)
    ensures var tx := Tables.Transition(db, id, to, expected, o, force);
      && (tx.reply == Moved <==> Admits(db, id, expected) && db.tasks[id].status != to && (force || Legal(db.tasks[id].status, to)))
      && (tx.reply == Raised <==> Admits(db, id, expected) && db.tasks[id].status != to && !force && !Legal(db.tasks[id].status, to))
      && (tx.reply != Moved ==> tx.db == db)
      && (tx.reply == Moved ==>
            var from := db.tasks[id].status;
            && id in tx.db.tasks && tx.db.tasks[id].status == to && tx.db.tasks[id].dependsOn == db.tasks[id].dependsOn
            && Wrote(db, tx.db, id, tx.db.tasks[id], [Hop(id, from, to)],
                     [TaskTransition(id, from, to)] + if to == Merged || to == Abandoned then [TaskFinished(id)] else []))
  {
  }

  lemma TransitionIsOperation(db: Db, id: TaskId, to: Status, expected: Option<set<Status>>, o: Sets, force: bool)
    requires !o.incrementRetries
    ensures IsOperation(db, Tables.Transition(db, id, to, expected, o, force).db, Hopping(id, to, expected, o, force))
  {
    assert o.(incrementRetries := false) == o;
  }

  /** The guard admits the row and the call can move it: only a forced success starts anywhere but
      in_progress, and only a forced drop leaves a merged task. */
  predicate Finishes(db: Db, id: TaskId, status: Status, expected: Option<set<Status>>, force: bool) {
    && Admits(db, id, if force then None else expected)
    && if status == Merged then db.tasks[id].status == InProgress || (force && db.tasks[id].status != ReadyForReview)
       else db.tasks[id].status != Abandoned && (force || db.tasks[id].status != Merged)
  }

  function Finished(t: Task, status: Status, result: Option<Result>): Task {
    t.(status := status, result := if result.Some? then result else t.result)
  }

  /** A success goes through review and approval to merged, in three hops, or changes nothing. */
  lemma SuccessTells(db: Db, id: TaskId, expected: Option<set<Status>>, result: Option<Result>, force: bool)
    ensures var tx := Tables.CompleteTask(db, id, Merged, expected, result, force);
      && (tx.reply == Moved <==> Finishes(db, id, Merged, expected, force))
      && (tx.reply != Moved ==> tx.db == db)
      && (tx.reply == Moved ==>
            var from := db.tasks[id].status;
            Wrote(db, tx.db, id, Finished(db.tasks[id], Merged, result),
                  [Hop(id, from, ReadyForReview), Hop(id, ReadyForReview, Approved), Hop(id, Approved, Merged)],
                  [TaskTransition(id, from, ReadyForReview), TaskTransition(id, ReadyForReview, Approved),
                   TaskTransition(id, Approved, Merged), TaskFinished(id)]))
  {
    if Finishes(db, id, Merged, expected, force) {
      var row, from := db.tasks[id], db.tasks[id].status;
      var submitted := Move(db, id, ReadyForReview, NO_SETS.(result := result));
      var approved := Move(submitted, id, Approved, NO_SETS);
      assert Legal(InProgress, ReadyForReview) && Legal(ReadyForReview, Approved) && Legal(Approved, Merged);
      assert submitted.tasks[id] == Finished(row, ReadyForReview, result);
      assert approved.tasks[id] == Finished(row, Approved, result);
      assert approved.trail == db.trail + [Hop(id, from, ReadyForReview), Hop(id, ReadyForReview, Approved)];
      assert approved.log == db.log + [TaskTransition(id, from, ReadyForReview), TaskTransition(id, ReadyForReview, Approved)];
      assert approved.tasks == db.tasks[id := Finished(row, Approved, result)];
    }
  }

  /** A drop is one hop, or changes nothing. */
  lemma DropTells(db: Db, id: TaskId, expected: Option<set<Status>>, result: Option<Result>, force: bool)
    ensures var tx := Tables.CompleteTask(db, id, Abandoned, expected, result, force);
      && (tx.reply == Moved <==> Finishes(db, id, Abandoned, expected, force))
      && (tx.reply != Moved ==> tx.db == db)
      && (tx.reply == Moved ==>
            var from := db.tasks[id].status;
            Wrote(db, tx.db, id, Finished(db.tasks[id], Abandoned, result), [Hop(id, from, Abandoned)],
                  [TaskTransition(id, from, Abandoned), TaskFinished(id)]))
  {
    if id in db.tasks {
      TerminalExactlyWhenStuck(db.tasks[id].status);
    }
  }

  /** Blocked, and its result names an approval. */
  predicate ParkedOnApproval(t: Task) {
    t.status == Blocked && t.result.Some? && t.result.value.BlockedOnApproval?
  }

  /** The row is parked on an approval that now stands so. */
  predicate ApprovalSays(approvals: map<ApprovalId, ApprovalStatus>, t: Task, status: ApprovalStatus) {
    ParkedOnApproval(t) && t.result.value.approval in approvals && approvals[t.result.value.approval] == status
  }

  /** A grant requeues the parked task with its claim cleared, a denial drops it, anything else waits. */
  lemma ResumeTells(db: Db, id: TaskId, approvals: map<ApprovalId, ApprovalStatus>)
    requires id in db.tasks
    ensures var row := db.tasks[id]; var tx := ResumeApproved(db, id, Lookup(approvals, row));
      && (ApprovalSays(approvals, row, Granted) ==>
            tx.reply == Moved
            && Wrote(db, tx.db, id, row.(status := UpForGrabs, claimedBy := None, heartbeatAt := None),
                     [Hop(id, Blocked, UpForGrabs)], [TaskTransition(id, Blocked, UpForGrabs), ApprovalResumed(id)]))
      && (ApprovalSays(approvals, row, Denied) ==>
            tx.reply == Moved
            && Wrote(db, tx.db, id, row.(status := Abandoned),
                     [Hop(id, Blocked, Abandoned)], [TaskTransition(id, Blocked, Abandoned), TaskFinished(id)]))
      && (!ApprovalSays(approvals, row, Granted) && !ApprovalSays(approvals, row, Denied) ==> tx == Tx(db, NoChange))
  {
    assert Legal(Blocked, UpForGrabs) && Legal(Blocked, Abandoned);
  }

  /** What a pass makes of a row. */
  predicate Resumed(approvals: map<ApprovalId, ApprovalStatus>, was: Task, row: Task) {
    && (ApprovalSays(approvals, was, Granted) ==> row == was.(status := UpForGrabs, claimedBy := None, heartbeatAt := None))
    && (ApprovalSays(approvals, was, Denied) ==> row == was.(status := Abandoned))
    && (!ApprovalSays(approvals, was, Granted) && !ApprovalSays(approvals, was, Denied) ==> row == was)
  }

  /** Among these events a task is reported resumed exactly when it is one of these rows and its approval is granted. */
  ghost predicate Reports(approvals: map<ApprovalId, ApprovalStatus>, db: Db, rows: seq<TaskId>, events: seq<Event>) {
    forall t: TaskId :: ApprovalResumed(t) in events <==> t in rows && t in db.tasks && ApprovalSays(approvals, db.tasks[t], Granted)
  }

  /** One row further, as the log has grown from start through mid to end. */
  lemma ReportsNext(approvals: map<ApprovalId, ApprovalStatus>, db: Db, rows: seq<TaskId>, i: nat,
                    start: seq<Event>, mid: seq<Event>, end: seq<Event>)
    requires i < |rows| && start <= mid <= end
    requires Reports(approvals, db, rows[..i], mid[|start|..]) && Reports(approvals, db, [rows[i]], end[|mid|..])
    ensures Reports(approvals, db, rows[..i + 1], end[|start|..])
  {
    var events, more := mid[|start|..], end[|mid|..];
    assert end[|start|..] == events + more && rows[..i + 1] == rows[..i] + [rows[i]];
    forall t: TaskId
      ensures ApprovalResumed(t) in events + more
        <==> t in rows[..i] + [rows[i]] && t in db.tasks && ApprovalSays(approvals, db.tasks[t], Granted)
    {
      assert ApprovalResumed(t) in events + more <==> ApprovalResumed(t) in events || ApprovalResumed(t) in more;
      assert t in rows[..i] + [rows[i]] <==> t in rows[..i] || t in [rows[i]];
    }
  }

  /** The row is as resuming it alone leaves it, and that is as its approval says. */
  predicate ResumedAlone(db: Db, approvals: map<ApprovalId, ApprovalStatus>, id: TaskId, row: Task) {
    && id in db.tasks && row == ResumeApproved(db, id, Lookup(approvals, db.tasks[id])).db.tasks[id]
    && Resumed(approvals, db.tasks[id], row)
  }

  lemma HopIsSeen(db: Db, id: TaskId, to: Status, result: Option<Result>, next: Worker.Pc)
    requires id in db.tasks
    ensures var tx := Tables.Transition(db, id, to, None, NO_SETS.(result := result), false);
      && id in tx.db.tasks && tx.db.tasks.Keys == db.tasks.Keys
      && (forall t <- db.tasks :: t != id ==> tx.db.tasks[t] == db.tasks[t])
      && tx.db.order == db.order && tx.db.decisions == db.decisions && tx.db.now == db.now
      && Worker.SeenStep(Worker.View(tx.db, id), if tx.reply == Raised then Worker.Stopped(Worker.Crashed) else next)
         == Worker.SeenHop(Worker.View(db, id), to, result, next)
  {
  }

  /** The action list of a rung. */
  function ListOf(r: SweepResult, rung: Rung): seq<TaskId> {
    match rung
    case RungNudge => r.nudged
    case RungDefer => r.deferred
    case RungRekick => r.rekicked
    case RungEscalate => r.stuck
    case RungFail => r.failed
  }

  function Climbers(cfg: Config, r: Scanned, now: Time, rung: Rung): seq<TaskId> {
    if Ladder(cfg, r.row, now) == rung then [r.id] else []
  }

  /** The scanned rows that climb a rung, in order. */
  function Climbing(cfg: Config, rows: seq<Scanned>, now: Time, rung: Rung): seq<TaskId> {
    if rows == [] then []
    else Climbing(cfg, rows[..|rows| - 1], now, rung) + Climbers(cfg, rows[|rows| - 1], now, rung)
  }

  lemma ClimbingNext(cfg: Config, rows: seq<Scanned>, now: Time, i: nat)
    requires i < |rows|
    ensures forall rung: Rung :: Climbing(cfg, rows[..i + 1], now, rung)
                              == Climbing(cfg, rows[..i], now, rung) + Climbers(cfg, rows[i], now, rung)
  {
    assert rows[..i + 1][..i] == rows[..i];
  }

  lemma {:induction false} ClimbingHolds(cfg: Config, rows: seq<Scanned>, now: Time, rung: Rung, id: TaskId)
    ensures id in Climbing(cfg, rows, now, rung)
      <==> exists i :: 0 <= i < |rows| && rows[i].id == id && Ladder(cfg, rows[i].row, now) == rung
  {
    if rows != [] {
      var n := |rows| - 1;
      ClimbingHolds(cfg, rows[..n], now, rung, id);
      assert id in Climbing(cfg, rows, now, rung)
        <==> id in Climbing(cfg, rows[..n], now, rung) || id in Climbers(cfg, rows[n], now, rung);
    }
  }

  ghost predicate DistinctRows(rows: seq<Scanned>) {
    forall i, j :: 0 <= i < j < |rows| ==> rows[i].id != rows[j].id
  }

  /** A scanned row is in the list of its own rung and in no other. */
  lemma RowClimbsItsRung(cfg: Config, rows: seq<Scanned>, now: Time, rung: Rung, i: nat)
    requires i < |rows| && DistinctRows(rows)
    ensures rows[i].id in Climbing(cfg, rows, now, rung) <==> Ladder(cfg, rows[i].row, now) == rung
  {
    ClimbingHolds(cfg, rows, now, rung, rows[i].id);
  }

  /** And it is there once. */
  lemma {:induction false} RowsClimbOnce(cfg: Config, rows: seq<Scanned>, now: Time, rung: Rung)
    requires DistinctRows(rows)
    ensures Distinct(Climbing(cfg, rows, now, rung))
  {
    if rows != [] {
      var n := |rows| - 1;
      RowsClimbOnce(cfg, rows[..n], now, rung);
      ClimbingHolds(cfg, rows[..n], now, rung, rows[n].id);
    }
  }

  class TaskStore {
    var now: Time
    var order: seq<TaskId>
    var tasks: map<TaskId, Task>
    var trail: seq<Hop>
    var log: seq<Event>
    var decisions: map<DecisionId, Decision>

    function Snapshot(): Db
      reads this
    {
      Db(now, order, tasks, trail, log, decisions)
    }

    constructor ()
      ensures Snapshot() == EMPTY
    {
      now, order, tasks, trail, log, decisions := 0, [], map[], [], [], map[];
    }

    /** The call is this operation of a run. */
    twostate predicate Performs(op: Op)
      reads this
    {
      IsOperation(old(Snapshot()), Snapshot(), op)
    }

    twostate predicate Unchanged()
      reads this
    {
      Snapshot() == old(Snapshot())
    }

    twostate predicate Writes(id: TaskId, row: Task, new hops: seq<Hop>, new events: seq<Event>)
      reads this
    {
      Wrote(old(Snapshot()), Snapshot(), id, row, hops, events)
    }

    // ----- runtime/tasks.py ---------------------------------------------------------------

    method Transition(id: TaskId, to: Status, expected: Option<set<Status>>, o: Sets, force: bool)
      returns (reply: Reply)
      modifies this
      ensures Tx(Snapshot(), reply) == Tables.Transition(old(Snapshot()), id, to, expected, o, force)
      ensures !o.incrementRetries ==> Performs(Hopping(id, to, expected, o, force))
      ensures old(id in tasks && (expected.Some? ==> tasks[id].status in expected.value) && tasks[id].status != to) ==>
        reply == if force || Legal(old(tasks)[id].status, to) then Moved else Raised
      ensures !old(id in tasks && (expected.Some? ==> tasks[id].status in expected.value) && tasks[id].status != to) ==> reply == NoChange
      ensures reply != Moved ==> Unchanged()
      ensures reply == Moved ==>
        var from := old(tasks)[id].status;
        && id in tasks && tasks[id].status == to && tasks[id].dependsOn == old(tasks)[id].dependsOn
        && Writes(id, tasks[id], [Hop(id, from, to)],
                  [TaskTransition(id, from, to)] + if to == Merged || to == Abandoned then [TaskFinished(id)] else [])
    {
      TransitionTells(Snapshot(), id, to, expected, o, force);
      if !o.incrementRetries {
        TransitionIsOperation(Snapshot(), id, to, expected, o, force);
      }
      if id !in tasks {
        return NoChange;
      }
      var current := tasks[id].status;
      if expected.Some? && current !in expected.value {
        return NoChange;
      }
      if current == to {
        return NoChange;
      }
      if !force && !Legal(current, to) {
        return Raised;
      }
      tasks := tasks[id := UpdatedRow(tasks[id], to, o, now)];
      trail := trail + [Hop(id, current, to)];
      log := log + [TaskTransition(id, current, to)];
      if Terminal(to) {
        log := log + [TaskFinished(id)];
      }
      assert log == old(log) + Hopped(current, to, id);
      return Moved;
    }

    method EnqueueTask(id: TaskId, deps: seq<TaskId>, priority: int) returns (reply: Reply)
      requires id !in tasks
      modifies this
      ensures Tx(Snapshot(), reply) == Enqueue(old(Snapshot()), id, deps, priority)
      ensures old(Fresh(Snapshot(), id)) ==> Performs(Create(id, deps, priority))
      ensures reply == if id in deps then Raised else Moved
      ensures reply == Raised ==> Unchanged()
      ensures reply == Moved ==>
        && id in tasks && tasks == old(tasks)[id := tasks[id]]
        && tasks[id].status == UpForGrabs && tasks[id].dependsOn == deps && tasks[id].priority == priority
        && tasks[id].claimedBy.None? && tasks[id].claimedAt.None? && tasks[id].heartbeatAt.None?
        && tasks[id].result.None? && tasks[id].nudgedAt.None? && tasks[id].lastProgressAt.None? && tasks[id].stallReason.None?
        && tasks[id].retries == 0 && tasks[id].noProgressRekicks == 0
        && order == old(order) + [id] && log == old(log) + [TaskCreated(id)]
        && trail == old(trail) && now == old(now) && decisions == old(decisions)
    {
      if id in deps {
        return Raised;
      }
      order := order + [id];
      tasks := tasks[id := NewTask(deps, priority)];
      log := log + [TaskCreated(id)];
      return Moved;
    }

    /** `eligible` are the unlocked rows that pass the assignee, workstream and column filters; `sorted`
        is how the caller's ORDER BY lists the rows, None for the default order. */
    method GrabTask(worker: WorkerId, quarantined: bool, eligible: set<TaskId>, sorted: Option<seq<TaskId>>)
      returns (r: Option<TaskId>)
      requires forall id <- tasks :: id in order && (sorted.Some? ==> id in sorted.value)
      modifies this
      ensures quarantined ==> r.None?
      ensures r.None? ==> Snapshot() == old(Snapshot())
      ensures r.None? && !quarantined ==> forall id <- eligible :: !Ready(old(Snapshot()), id)
      ensures r.Some? ==>
        && r.value in eligible && Ready(old(Snapshot()), r.value)
        && Snapshot() == Grab(old(Snapshot()), r.value, worker).db
        && Performs(Op.GrabTask(r.value, worker))
        && Writes(r.value,
                  old(tasks)[r.value].(status := Claimed, claimedBy := Some(worker), claimedAt := Some(now), heartbeatAt := Some(now)),
                  [Hop(r.value, UpForGrabs, Claimed)], [TaskTransition(r.value, UpForGrabs, Claimed)])
      ensures r.Some? && sorted.None? ==> forall id <- eligible :: Ready(old(Snapshot()), id) ==>
        old(tasks)[id].priority <= old(tasks)[r.value].priority
      ensures r.Some? && sorted.None? ==>
        exists k :: 0 <= k < |order| && OldestOfItsPriority(old(Snapshot()), eligible, k, r.value)
      ensures !quarantined && sorted.Some? ==> r == First(old(Snapshot()), eligible, sorted.value)
    {
      if quarantined {
        return None;
      }
      r := if sorted.None? then Pick(Snapshot(), eligible, |order|) else First(Snapshot(), eligible, sorted.value);
      assert order[..|order|] == order;
      if r.None? {
        return;
      }
      var reply := Transition(r.value, Claimed, Some({UpForGrabs}), GrabSets(worker), false);
    }

    method StartTask(id: TaskId) returns (reply: Reply)
      modifies this
      ensures Tx(Snapshot(), reply) == Start(old(Snapshot()), id) && Performs(Op.StartTask(id))
      ensures reply == if old(HasStatus(Snapshot(), id, Claimed)) then Moved else NoChange
      ensures reply == NoChange ==> Unchanged()
      ensures reply == Moved ==>
        Writes(id, old(tasks)[id].(status := InProgress, heartbeatAt := Some(now), lastProgressAt := Some(now)),
               [Hop(id, Claimed, InProgress)], [TaskTransition(id, Claimed, InProgress)])
    {
      reply := Transition(id, InProgress, Some({Claimed}),
                          NO_SETS.(setHeartbeat := true, setLastProgress := true), false);
    }

    method Heartbeat(id: TaskId, worker: WorkerId) returns (reply: Reply)
      modifies this
      ensures Tx(Snapshot(), reply) == Tables.Heartbeat(old(Snapshot()), id, worker) && Performs(Beat(id, worker))
      ensures reply == if old(IsHeld(Snapshot(), id) && tasks[id].claimedBy == Some(worker)) then Moved else NoChange
      ensures reply == NoChange ==> Unchanged()
      ensures reply == Moved ==> Writes(id, old(tasks)[id].(heartbeatAt := Some(now), nudgedAt := None), [], [])
    {
      if id in tasks && tasks[id].claimedBy == Some(worker) && Held(tasks[id].status) {
        tasks := tasks[id := tasks[id].(heartbeatAt := Some(now), nudgedAt := None)];
        return Moved;
      }
      return NoChange;
    }

    method CompleteTask(id: TaskId, status: Status, expected: Option<set<Status>>,
                        result: Option<Result>, force: bool) returns (reply: Reply)
      modifies this
      ensures Tx(Snapshot(), reply) == Tables.CompleteTask(old(Snapshot()), id, status, expected, result, force)
      ensures !Terminal(status) ==> reply == Raised
      ensures Terminal(status) ==> (reply == Moved <==> old(Finishes(Snapshot(), id, status, expected, force)))
      ensures reply == Moved && status == Merged ==>
        var from := old(tasks)[id].status;
        && Writes(id, old(tasks)[id].(status := Merged, result := if result.Some? then result else old(tasks)[id].result),
                  [Hop(id, from, ReadyForReview), Hop(id, ReadyForReview, Approved), Hop(id, Approved, Merged)],
                  [TaskTransition(id, from, ReadyForReview), TaskTransition(id, ReadyForReview, Approved),
                   TaskTransition(id, Approved, Merged), TaskFinished(id)])
      ensures reply == Moved && status != Merged ==>
        var from := old(tasks)[id].status;
        && Writes(id, old(tasks)[id].(status := Abandoned, result := if result.Some? then result else old(tasks)[id].result),
                  [Hop(id, from, Abandoned)], [TaskTransition(id, from, Abandoned), TaskFinished(id)])
      ensures reply != Moved ==> Unchanged()
    {
      SuccessTells(Snapshot(), id, expected, result, force);
      DropTells(Snapshot(), id, expected, result, force);
      if !Terminal(status) {
        return Raised;
      }
      if status == Merged {
        reply := Transition(id, ReadyForReview, if force then None else expected,
                            NO_SETS.(result := result), force);
        if reply != Moved {
          return;
        }
        reply := Transition(id, Approved, None, NO_SETS, false);
        if reply != Moved {
          return;
        }
        reply := Transition(id, Merged, None, NO_SETS, false);
      } else {
        reply := Transition(id, Abandoned, if force then None else expected,
                            NO_SETS.(result := result), force);
      }
    }

    method BlockTask(id: TaskId, approval: ApprovalId) returns (reply: Reply)
      modifies this
      ensures Tx(Snapshot(), reply) == Tables.BlockTask(old(Snapshot()), id, approval) && Performs(ParkOnApproval(id, approval))
      ensures reply == if old(HasStatus(Snapshot(), id, InProgress)) then Moved else NoChange
      ensures reply == NoChange ==> Unchanged()
      ensures reply == Moved ==>
        Writes(id, old(tasks)[id].(status := Blocked, result := Some(BlockedOnApproval(approval))),
               [Hop(id, InProgress, Blocked)], [TaskTransition(id, InProgress, Blocked)])
    {
      reply := Transition(id, Blocked, Some({InProgress}),
                          NO_SETS.(result := Some(BlockedOnApproval(approval))), false);
    }

    method RequeueBlockedTask(id: TaskId) returns (reply: Reply)
      modifies this
      ensures Tx(Snapshot(), reply) == RequeueBlocked(old(Snapshot()), id)
      ensures reply == if old(HasStatus(Snapshot(), id, Blocked)) then Moved else NoChange
      ensures reply == NoChange ==> Unchanged()
      ensures reply == Moved ==>
        Writes(id, old(tasks)[id].(status := UpForGrabs, claimedBy := None, heartbeatAt := None),
               [Hop(id, Blocked, UpForGrabs)], [TaskTransition(id, Blocked, UpForGrabs)])
    {
      reply := Transition(id, UpForGrabs, Some({Blocked}), NO_SETS.(clearClaim := true), false);
    }

    method NudgeTask(id: TaskId) returns (reply: Reply)
      modifies this
      ensures Tx(Snapshot(), reply) == Nudge(old(Snapshot()), id)
      ensures reply == if old(IsHeld(Snapshot(), id) && tasks[id].nudgedAt.None?) then Moved else NoChange
      ensures reply == NoChange ==> Unchanged()
      ensures reply == Moved ==> Writes(id, old(tasks)[id].(nudgedAt := Some(now)), [], [TaskNudge(id)])
    {
      if id in tasks && Held(tasks[id].status) && tasks[id].nudgedAt.None? {
        tasks := tasks[id := tasks[id].(nudgedAt := Some(now))];
        log := log + [TaskNudge(id)];
        return Moved;
      }
      return NoChange;
    }

    method RekickTask(id: TaskId, madeProgress: Option<bool>) returns (reply: Reply)
      modifies this
      ensures Tx(Snapshot(), reply) == Rekick(old(Snapshot()), id, madeProgress)
      ensures reply == if old(IsHeld(Snapshot(), id)) then Moved else NoChange
      ensures reply == NoChange ==> Unchanged()
      ensures reply == Moved ==>
        var was := old(tasks)[id];
        var requeued := was.(status := UpForGrabs, claimedBy := None, heartbeatAt := None, retries := was.retries + 1);
        Writes(id,
               if madeProgress.None? then requeued
               else requeued.(nudgedAt := None, lastProgressAt := Some(now),
                              noProgressRekicks := if madeProgress.value then 0 else was.noProgressRekicks + 1),
               [Hop(id, was.status, UpForGrabs)],
               [TaskTransition(id, was.status, UpForGrabs), TaskRekicked(id, madeProgress)])
    {
      if id !in tasks || !Held(tasks[id].status) {
        return NoChange;
      }
      reply := Transition(id, UpForGrabs, None, REKICK_SETS, false);
      if reply != Moved {
        return NoChange;
      }
      if madeProgress.Some? {
        var row := tasks[id];
        tasks := tasks[id := row.(
          noProgressRekicks := if madeProgress.value then 0 else row.noProgressRekicks + 1,
          nudgedAt := None,
          lastProgressAt := Some(now))];
      }
      log := log + [TaskRekicked(id, madeProgress)];
      return Moved;
    }

    method EscalateStuckTask(id: TaskId, reason: string, noProgressRekicks: nat, retries: nat)
      returns (reply: Reply)
      modifies this
      ensures Tx(Snapshot(), reply) == EscalateStuck(old(Snapshot()), id, noProgressRekicks, retries, reason)
      ensures reply == if old(IsHeld(Snapshot(), id)) then Moved else NoChange
      ensures reply == NoChange ==> Unchanged()
      ensures reply == Moved ==>
        var was := old(tasks)[id];
        Writes(id, was.(status := Abandoned, stallReason := Some(reason), result := Some(StuckNeedsReplan(noProgressRekicks, retries))),
               [Hop(id, was.status, Abandoned)],
               [TaskTransition(id, was.status, Abandoned), TaskFinished(id), TaskStuck(id)])
    {
      if id !in tasks || !Held(tasks[id].status) {
        return NoChange;
      }
      tasks := tasks[id := tasks[id].(stallReason := Some(reason))];
      reply := CompleteTask(id, Abandoned, Some(HELD_STATES),
                            Some(StuckNeedsReplan(noProgressRekicks, retries)), false);
      if reply == Moved {
        log := log + [TaskStuck(id)];
      }
    }

    // ----- runtime/decisions.py -------------------------------------------------------------

    /** An exception leaves the tables as they were: the transaction rolls back. */
    method RequestDecision(d: DecisionId, dependent: Option<TaskId>) returns (reply: Reply)
      requires d !in decisions
      modifies this
      ensures Tx(Snapshot(), reply) == Tables.RequestDecision(old(Snapshot()), d, dependent) && Performs(Ask(d, dependent))
      ensures reply == if dependent.None? || old(HasStatus(Snapshot(), dependent.value, InProgress)) then Moved else Raised
      ensures reply == Raised ==> Unchanged()
      ensures reply == Moved ==>
        && decisions == old(decisions)[d := Decision(Open, dependent)]
        && order == old(order) && now == old(now)
        && (dependent.None? ==> tasks == old(tasks) && trail == old(trail) && log == old(log) + [DecisionRequested(d)])
        && (dependent.Some? ==>
              var t := dependent.value;
              && tasks == old(tasks)[t := old(tasks)[t].(status := Blocked, result := Some(BlockedOnDecision(d)))]
              && trail == old(trail) + [Hop(t, InProgress, Blocked)]
              && log == old(log) + [TaskTransition(t, InProgress, Blocked), DecisionRequested(d)])
    {
      if dependent.Some? {
        var parked := Transition(dependent.value, Blocked, Some({InProgress}),
                                 NO_SETS.(result := Some(BlockedOnDecision(d))), false);
        if parked != Moved {
          return Raised;
        }
      }
      decisions := decisions[d := Decision(Open, dependent)];
      log := log + [DecisionRequested(d)];
      return Moved;
    }

    method CloseDecision(d: DecisionId, status: DecisionStatus) returns (reply: Reply)
      modifies this
      ensures Tx(Snapshot(), reply) == Tables.CloseDecision(old(Snapshot()), d, status)
      ensures status != Open ==> Performs(Close(d, status == Withdrawn))
      ensures reply == if d in old(decisions) && old(decisions)[d].status == Open then Moved else NoChange
      ensures reply == NoChange ==> Unchanged()
      ensures reply == Moved ==>
        var dependent := old(decisions)[d].dependent;
        && decisions == old(decisions)[d := Decision(status, dependent)]
        && order == old(order) && now == old(now)
        && if dependent.Some? && old(HasStatus(Snapshot(), dependent.value, Blocked)) then
             var t := dependent.value;
             && tasks == old(tasks)[t := old(tasks)[t].(status := UpForGrabs, claimedBy := None, heartbeatAt := None)]
             && trail == old(trail) + [Hop(t, Blocked, UpForGrabs)]
             && log == old(log) + [TaskTransition(t, Blocked, UpForGrabs), DecisionAnswered(d)]
           else
             tasks == old(tasks) && trail == old(trail) && log == old(log) + [DecisionAnswered(d)]
    {
      if d !in decisions || decisions[d].status != Open {
        return NoChange;
      }
      var dependent := decisions[d].dependent;
      decisions := decisions[d := Decision(status, dependent)];
      if dependent.Some? {
        var resumed := RequeueBlockedTask(dependent.value);
      }
      log := log + [DecisionAnswered(d)];
      return Moved;
    }

    // ----- runtime/supervisor.py --------------------------------------------------------------

    method FailExhausted(id: TaskId, retries: nat) returns (reply: Reply)
      modifies this
      ensures Tx(Snapshot(), reply) == Tables.FailExhausted(old(Snapshot()), id, retries)
      ensures reply == if old(IsHeld(Snapshot(), id)) then Moved else NoChange
      ensures reply == NoChange ==> Unchanged()
      ensures reply == Moved ==>
        var was := old(tasks)[id];
        Writes(id, was.(status := Abandoned, result := Some(MaxRetriesExhausted(retries))),
               [Hop(id, was.status, Abandoned)],
               [TaskTransition(id, was.status, Abandoned), TaskFinished(id), TaskFailedExhausted(id)])
    {
      reply := CompleteTask(id, Abandoned, Some(HELD_STATES), Some(MaxRetriesExhausted(retries)), false);
      if reply == Moved {
        log := log + [TaskFailedExhausted(id)];
      }
    }

    /** The body of the sweep loop for one scanned row, with the list it is recorded in. */
    method HandleRow(cfg: Config, id: TaskId, row: Task, sweepNow: Time, madeProgress: bool, before: SweepResult)
      returns (result: SweepResult)
      modifies this
      ensures Snapshot() == Recover(cfg, old(Snapshot()), id, row, sweepNow, madeProgress).db
      ensures var moved := Recover(cfg, old(Snapshot()), id, row, sweepNow, madeProgress).reply == Moved;
        var rung := Ladder(cfg, row, sweepNow);
        && result.scanned == before.scanned
        && forall r: Rung ::
             ListOf(result, r) == ListOf(before, r) + if r == rung && (moved || r == RungDefer) then [id] else []
    {
      result := before;
      if cfg.nudgeGrace > 0 && row.nudgedAt.None? {
        var reply := NudgeTask(id);
        if reply == Moved {
          result := result.(nudged := result.nudged + [id]);
        }
      } else if cfg.nudgeGrace > 0 && !GraceElapsed(row, sweepNow, cfg.nudgeGrace) {
        result := result.(deferred := result.deferred + [id]);
      } else if row.noProgressRekicks >= cfg.stuckThreshold {
        var reason := if row.stallReason.Some? && row.stallReason.value != "" then row.stallReason.value
                      else "no_progress";
        var reply := EscalateStuckTask(id, reason, row.noProgressRekicks, row.retries);
        if reply == Moved {
          result := result.(stuck := result.stuck + [id]);
        }
      } else if row.retries >= cfg.maxRetries {
        var reply := FailExhausted(id, row.retries);
        if reply == Moved {
          result := result.(failed := result.failed + [id]);
        }
      } else {
        var reply := RekickTask(id, Some(madeProgress));
        if reply == Moved {
          result := result.(rekicked := result.rekicked + [id]);
        }
      }
    }

    /** One turn of the sweep loop, as one operation of its run. */
    method SweepRow(cfg: Config, ghost s0: Sys, ghost pick: seq<TaskId>, madeProgress: TaskId -> bool, i: nat,
                    rows: seq<Scanned>, sweepNow: Time, before: SweepResult)
      returns (result: SweepResult)
      requires i < |rows| == |pick| && rows[i].id == pick[i]
      requires Sys(Snapshot(), rows[i..], sweepNow) == Run(cfg, s0, SweepOps(pick, madeProgress)[..i + 1])
      modifies this
      ensures Sys(Snapshot(), rows[i + 1..], sweepNow) == Run(cfg, s0, SweepOps(pick, madeProgress)[..i + 2])
      ensures result.scanned == before.scanned + 1
      ensures old(rows[i].id in tasks && Held(tasks[rows[i].id].status) && tasks[rows[i].id] == rows[i].row) ==>
        forall rung: Rung :: ListOf(result, rung) == ListOf(before, rung) + Climbers(cfg, rows[i], sweepNow, rung)
      ensures now == old(now) && tasks.Keys == old(tasks.Keys)
      ensures forall t <- tasks :: t != rows[i].id ==> tasks[t] == old(tasks)[t]
    {
      var r := rows[i];
      assert rows[i..][0] == r && rows[i..][1..] == rows[i + 1..];
      SweepNext(cfg, s0, pick, madeProgress, i, Snapshot(), rows[i..], sweepNow);
      RecoverTouchesOne(cfg, Snapshot(), r.id, r.row, sweepNow, madeProgress(r.id));
      CurrentRowMoves(cfg, Snapshot(), r.id, r.row, sweepNow, madeProgress(r.id));
      result := HandleRow(cfg, r.id, r.row, sweepNow, madeProgress(r.id), before);
      result := result.(scanned := result.scanned + 1);
    }

    /** The row is as it was scanned. */
    predicate Unhandled(r: Scanned)
      reads this
    {
      r.id in tasks && tasks[r.id] == r.row
    }

    /** The loop of the sweep, over the rows it was given. */
    method SweepRows(cfg: Config, pick: seq<TaskId>, madeProgress: TaskId -> bool) returns (result: SweepResult)
      requires Scannable(cfg, Snapshot(), pick)
      modifies this
      ensures Snapshot() == Run(cfg, Sys(old(Snapshot()), [], 0), SweepOps(pick, madeProgress)).db
      ensures result.scanned == |pick|
      ensures forall rung: Rung :: ListOf(result, rung) == Climbing(cfg, Rows(old(Snapshot()), pick), old(now), rung)
    {
      ghost var s0 := Sys(Snapshot(), [], 0);
      ghost var ops := SweepOps(pick, madeProgress);
      var rows := Rows(Snapshot(), pick);
      var sweepNow := now;
      result := SweepResult(0, [], [], [], [], []);
      SweepPrefix(cfg, s0, pick, madeProgress, 0);
      var i := 0;
      while i < |rows|
        invariant 0 <= i <= |rows|
        invariant Sys(Snapshot(), rows[i..], sweepNow) == Run(cfg, s0, ops[..i + 1])
        invariant forall j :: i <= j < |rows| ==> Unhandled(rows[j])
        invariant now == sweepNow && result.scanned == i
        invariant forall rung: Rung :: ListOf(result, rung) == Climbing(cfg, rows[..i], sweepNow, rung)
      {
        assert Unhandled(rows[i]) && Held(rows[i].row.status) by {
          assert pick[i] in pick && Stale(rows[i].row, cfg.staleAfter, s0.db.now);
        }
        ClimbingNext(cfg, rows, sweepNow, i);
        result := SweepRow(cfg, s0, pick, madeProgress, i, rows, sweepNow, result);
        i := i + 1;
      }
      assert ops[..|rows| + 1] == ops && rows[..|rows|] == rows;
    }

    /** One pass over all the stale rows, in the order `find_stale_tasks` returns them. With nobody in
        between it is the run of a scan and its handlings, and each action list holds exactly the rows that
        climbed its rung, in scan order. */
    method Sweep(cfg: Config, pick: seq<TaskId>, madeProgress: TaskId -> bool) returns (result: SweepResult)
      requires Scannable(cfg, Snapshot(), pick)
      requires forall id <- tasks :: Stale(tasks[id], cfg.staleAfter, now) ==> id in pick
      modifies this
      ensures Snapshot() == Run(cfg, Sys(old(Snapshot()), [], 0), SweepOps(pick, madeProgress)).db
      ensures var rows := Rows(old(Snapshot()), pick);
        && result.scanned == |pick|
        && result.nudged == Climbing(cfg, rows, old(now), RungNudge)
        && result.deferred == Climbing(cfg, rows, old(now), RungDefer)
        && result.rekicked == Climbing(cfg, rows, old(now), RungRekick)
        && result.stuck == Climbing(cfg, rows, old(now), RungEscalate)
        && result.failed == Climbing(cfg, rows, old(now), RungFail)
    {
      ghost var rows, at := Rows(Snapshot(), pick), now;
      result := SweepRows(cfg, pick, madeProgress);
      assert ListOf(result, RungNudge) == Climbing(cfg, rows, at, RungNudge);
      assert ListOf(result, RungDefer) == Climbing(cfg, rows, at, RungDefer);
      assert ListOf(result, RungRekick) == Climbing(cfg, rows, at, RungRekick);
      assert ListOf(result, RungEscalate) == Climbing(cfg, rows, at, RungEscalate);
      assert ListOf(result, RungFail) == Climbing(cfg, rows, at, RungFail);
    }

    // ----- runtime/worker.py ---------------------------------------------------------------------

    method ResumeTask(id: TaskId, status: Option<ApprovalStatus>) returns (reply: Reply)
      requires id in tasks
      modifies this
      ensures Tx(Snapshot(), reply) == ResumeApproved(old(Snapshot()), id, status) && Performs(Resume(id, status))
      ensures reply == if old(ParkedOnApproval(tasks[id])) && (status == Some(Granted) || status == Some(Denied)) then Moved else NoChange
      ensures reply == NoChange ==> Unchanged()
      ensures reply == Moved && status == Some(Granted) ==>
        Writes(id, old(tasks)[id].(status := UpForGrabs, claimedBy := None, heartbeatAt := None),
               [Hop(id, Blocked, UpForGrabs)], [TaskTransition(id, Blocked, UpForGrabs), ApprovalResumed(id)])
      ensures reply == Moved && status == Some(Denied) ==>
        Writes(id, old(tasks)[id].(status := Abandoned),
               [Hop(id, Blocked, Abandoned)], [TaskTransition(id, Blocked, Abandoned), TaskFinished(id)])
    {
      if tasks[id].status != Blocked || tasks[id].result.None? || !tasks[id].result.value.BlockedOnApproval? {
        return NoChange;
      }
      if status == Some(Granted) {
        reply := RequeueBlockedTask(id);
        if reply == Moved {
          log := log + [ApprovalResumed(id)];
        }
      } else if status == Some(Denied) {
        reply := CompleteTask(id, Abandoned, None, tasks[id].result, true);
      } else {
        reply := NoChange;
      }
    }

    method ResumeRow(id: TaskId, approvals: map<ApprovalId, ApprovalStatus>, ghost s: Db)
      requires id in tasks && id in s.tasks && tasks[id] == s.tasks[id] && now == s.now
      modifies this
      ensures tasks.Keys == old(tasks.Keys) && ResumedAlone(s, approvals, id, tasks[id])
      ensures order == old(order) && now == old(now) && decisions == old(decisions)
      ensures forall t <- tasks :: t != id ==> tasks[t] == old(tasks)[t]
      ensures old(log) <= log && Reports(approvals, s, [id], log[|old(log)|..])
    {
      ghost var events := log;
      ResumeIsLocal(s, Snapshot(), id, Lookup(approvals, tasks[id]));
      ResumeTells(Snapshot(), id, approvals);
      var reply := ResumeTask(id, Lookup(approvals, tasks[id]));
      ghost var more := log[|events|..];
      assert log == events + more;
    }

    /** One bounded pass over the parked tasks, oldest first; `approvals` is the approvals table. Granted tasks
        are requeued with their claims cleared and reported, denied ones dropped, all others left. */
    method ResumePass(approvals: map<ApprovalId, ApprovalStatus>)
      requires Distinct(order) && forall id :: id in order <==> id in tasks
      modifies this
      ensures tasks.Keys == old(tasks.Keys)
      ensures forall id <- tasks :: ResumedAlone(old(Snapshot()), approvals, id, tasks[id])
      ensures forall id <- tasks :: ApprovalSays(approvals, old(tasks)[id], Granted) ==>
        tasks[id] == old(tasks)[id].(status := UpForGrabs, claimedBy := None, heartbeatAt := None)
      ensures forall id <- tasks :: ApprovalSays(approvals, old(tasks)[id], Denied) ==>
        tasks[id] == old(tasks)[id].(status := Abandoned)
      ensures forall id <- tasks ::
        !ApprovalSays(approvals, old(tasks)[id], Granted) && !ApprovalSays(approvals, old(tasks)[id], Denied) ==>
          tasks[id] == old(tasks)[id]
      ensures order == old(order) && now == old(now) && decisions == old(decisions)
      ensures old(log) <= log && forall id <- tasks ::
        ApprovalResumed(id) in log[|old(log)|..] <==> ApprovalSays(approvals, old(tasks)[id], Granted)
    {
      ResumeRows(order, approvals);
      forall id <- tasks
        ensures ResumedAlone(old(Snapshot()), approvals, id, tasks[id])
      {
        assert id in order;
      }
    }

    method ResumeRows(rows: seq<TaskId>, approvals: map<ApprovalId, ApprovalStatus>)
      requires Distinct(rows) && forall id <- rows :: id in tasks
      modifies this
      ensures tasks.Keys == old(tasks.Keys)
      ensures forall id <- rows :: ResumedAlone(old(Snapshot()), approvals, id, tasks[id])
      ensures forall id <- tasks :: id !in rows ==> tasks[id] == old(tasks)[id]
      ensures order == old(order) && now == old(now) && decisions == old(decisions)
      ensures old(log) <= log && Reports(approvals, old(Snapshot()), rows, log[|old(log)|..])
    {
      ghost var s := Snapshot();
      for i := 0 to |rows|
        invariant order == s.order && now == s.now && decisions == s.decisions
        invariant tasks.Keys == s.tasks.Keys
        invariant forall j :: i <= j < |rows| ==> tasks[rows[j]] == s.tasks[rows[j]]
        invariant forall j :: 0 <= j < i ==> ResumedAlone(s, approvals, rows[j], tasks[rows[j]])
        invariant forall id <- tasks :: id !in rows ==> tasks[id] == s.tasks[id]
        invariant s.log <= log && Reports(approvals, s, rows[..i], log[|s.log|..])
      {
        ghost var earlier := log;
        assert forall j :: 0 <= j < |rows| && j != i ==> rows[j] != rows[i];
        ResumeRow(rows[i], approvals, s);
        ReportsNext(approvals, s, rows, i, s.log, earlier, log);
      }
      assert rows[..|rows|] == rows;
    }

    /** Only the row of this task, the trail and the log have changed. */
    twostate predicate OnlyRow(id: TaskId)
      reads this
    {
      && tasks.Keys == old(tasks.Keys) && id in tasks
      && (forall t <- tasks :: t != id ==> tasks[t] == old(tasks)[t])
      && order == old(order) && decisions == old(decisions) && now == old(now)
    }

    /** The task has just heard from this worker, if it was the holder, and still has if it had. */
    twostate predicate StaysAlive(id: TaskId, worker: WorkerId)
      requires id in old(tasks) && id in tasks
      reads this
    {
      && tasks[id].claimedBy == old(tasks)[id].claimedBy
      && (old(Alive(tasks[id], now)) ==> Alive(tasks[id], now))
      && (old(IsHeld(Snapshot(), id)) && old(tasks)[id].claimedBy == Some(worker) ==> Alive(tasks[id], now))
    }

    method WorkHop(id: TaskId, to: Status, result: Option<Result>, ghost next: Worker.Pc) returns (reply: Reply)
      requires id in tasks
      modifies this
      ensures OnlyRow(id)
      ensures Worker.SeenStep(Worker.View(Snapshot(), id), if reply == Raised then Worker.Stopped(Worker.Crashed) else next)
        == Worker.SeenHop(Worker.View(old(Snapshot()), id), to, result, next)
      ensures tasks[id].claimedBy == old(tasks)[id].claimedBy
      ensures tasks[id].heartbeatAt == old(tasks)[id].heartbeatAt && tasks[id].nudgedAt == old(tasks)[id].nudgedAt
    {
      HopIsSeen(Snapshot(), id, to, result, next);
      reply := Transition(id, to, None, NO_SETS.(result := result), false);
    }

    method WorkBeat(id: TaskId, worker: WorkerId)
      requires id in tasks
      modifies this
      ensures OnlyRow(id)
      ensures Worker.View(Snapshot(), id) == Worker.View(old(Snapshot()), id) && StaysAlive(id, worker)
    {
      var reply := Heartbeat(id, worker);
    }

    /** Review passed: approved, then merged. */
    method Pass(id: TaskId, max: nat, n: nat) returns (end: Option<Worker.Ending>)
      requires id in tasks
      modifies this
      ensures OnlyRow(id)
      ensures Worker.AttemptResult(Worker.View(Snapshot(), id), end, true)
        == Worker.Conclude(Worker.View(old(Snapshot()), id), max, n, true)
      ensures tasks[id].claimedBy == old(tasks)[id].claimedBy
      ensures tasks[id].heartbeatAt == old(tasks)[id].heartbeatAt && tasks[id].nudgedAt == old(tasks)[id].nudgedAt
    {
      var hop := WorkHop(id, Approved, Some(Outcome("verified")), Worker.Finish);
      if hop == Raised {
        return Some(Worker.Crashed);
      }
      hop := WorkHop(id, Merged, Some(Outcome("verified")), Worker.Stopped(Worker.Done));
      return Some(if hop == Raised then Worker.Crashed else Worker.Done);
    }

    /** Review failed: reviewer_blocked, then a retry while attempts remain, else abandoned. */
    method Fail(id: TaskId, max: nat, n: nat) returns (end: Option<Worker.Ending>)
      requires id in tasks
      modifies this
      ensures OnlyRow(id)
      ensures Worker.AttemptResult(Worker.View(Snapshot(), id), end, true)
        == Worker.Conclude(Worker.View(old(Snapshot()), id), max, n, false)
      ensures tasks[id].claimedBy == old(tasks)[id].claimedBy
      ensures tasks[id].heartbeatAt == old(tasks)[id].heartbeatAt && tasks[id].nudgedAt == old(tasks)[id].nudgedAt
    {
      var hop := WorkHop(id, ReviewerBlocked, Some(Outcome("rejected")),
                         if n < max then Worker.Retry(n) else Worker.Drop);
      if hop == Raised {
        return Some(Worker.Crashed);
      }
      if n < max {
        hop := WorkHop(id, InProgress, None, Worker.Begin(n + 1));
        return if hop == Raised then Some(Worker.Crashed) else None;
      }
      hop := WorkHop(id, Abandoned, Some(Outcome("rejected")), Worker.Stopped(Worker.Failed));
      return Some(if hop == Raised then Worker.Crashed else Worker.Failed);
    }

    method Conclude(id: TaskId, max: nat, n: nat, verdict: bool) returns (end: Option<Worker.Ending>)
      requires id in tasks
      modifies this
      ensures OnlyRow(id)
      ensures Worker.AttemptResult(Worker.View(Snapshot(), id), end, true)
        == Worker.Conclude(Worker.View(old(Snapshot()), id), max, n, verdict)
      ensures tasks[id].claimedBy == old(tasks)[id].claimedBy
      ensures tasks[id].heartbeatAt == old(tasks)[id].heartbeatAt && tasks[id].nudgedAt == old(tasks)[id].nudgedAt
    {
      if verdict {
        end := Pass(id, max, n);
      } else {
        end := Fail(id, max, n);
      }
    }

    /** One attempt; `end` is how the call returns, None when the loop goes on. */
    method Attempt(id: TaskId, worker: WorkerId, max: nat, n: nat, exec: Worker.Exec, verdict: bool)
      returns (end: Option<Worker.Ending>, asked: bool)
      requires id in tasks
      modifies this
      ensures OnlyRow(id)
      ensures Worker.AttemptResult(Worker.View(Snapshot(), id), end, asked)
        == Worker.AttemptSeen(Worker.View(old(Snapshot()), id), max, n, exec, verdict)
      ensures StaysAlive(id, worker)
    {
      asked := false;
      WorkBeat(id, worker);
      if exec.Pended? {
        var parked := BlockTask(id, exec.approval);
        end := Some(Worker.Parked(exec.approval));
      } else {
        WorkBeat(id, worker);
        var hop := WorkHop(id, ReadyForReview, Some(Outcome("artifact")), Worker.Verify(n));
        if hop == Raised {
          end := Some(Worker.Crashed);
        } else {
          asked := true;
          WorkBeat(id, worker);
          end := Conclude(id, max, n, verdict);
        }
      }
    }

    /** `_handle_work` with nobody in between: heartbeats, hops and the attempt loop. */
    method HandleWork(id: TaskId, worker: WorkerId, max: nat, execs: nat -> Worker.Exec, verdicts: nat -> bool)
      returns (ending: Worker.Ending, verifications: nat)
      requires id in tasks
      modifies this
      ensures OnlyRow(id)
      ensures Worker.RunResult(Worker.View(Snapshot(), id), ending, verifications)
        == Worker.Attempts(Worker.View(old(Snapshot()), id), max, 1, execs, verdicts)
    {
      ghost var run := Worker.Attempts(Worker.View(Snapshot(), id), max, 1, execs, verdicts);
      var attempt := 1;
      verifications := 0;
      while attempt <= max
        invariant 1 <= attempt <= max + 1
        invariant OnlyRow(id)
        invariant Worker.Remains(run, verifications, Worker.View(Snapshot(), id), max, attempt, execs, verdicts)
      {
        var end;
        end, verifications := Turn(id, worker, max, attempt, execs, verdicts, run, verifications);
        if end.Some? {
          return end.value, verifications;
        }
        attempt := attempt + 1;
      }
      return Worker.NeverRan, verifications;
    }

    /** One turn of the attempt loop. */
    method Turn(id: TaskId, worker: WorkerId, max: nat, attempt: nat, execs: nat -> Worker.Exec, verdicts: nat -> bool,
                ghost run: Worker.RunResult, count: nat)
      returns (end: Option<Worker.Ending>, verifications: nat)
      requires id in tasks && attempt <= max
      requires Worker.Remains(run, count, Worker.View(Snapshot(), id), max, attempt, execs, verdicts)
      modifies this
      ensures OnlyRow(id)
      ensures end.Some? ==> run == Worker.RunResult(Worker.View(Snapshot(), id), end.value, verifications)
      ensures end.None? ==>
        Worker.Remains(run, verifications, Worker.View(Snapshot(), id), max, attempt + 1, execs, verdicts)
    {
      Worker.OneAttempt(run, count, Worker.View(Snapshot(), id), max, attempt, execs, verdicts);
      var asked;
      end, asked := Attempt(id, worker, max, attempt, execs(attempt), verdicts(attempt));
      verifications := if asked then count + 1 else count;
    }
  }
}

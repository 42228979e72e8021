/** The recovery ladder: what the retry counters mean in every run, and why a silent task
    cannot be recovered forever. */
module Ladder {
  import opened Common
  import opened Lifecycle
  import opened Tables
  import opened Studio

  /** Number of `task.rekicked` events of a task. */
  function Rekicks(log: seq<Event>, id: TaskId): nat {
    if log == [] then 0
    else
      var e := log[|log| - 1];
      Rekicks(log[..|log| - 1], id) + if e.TaskRekicked? && e.task == id then 1 else 0
  }

  /** Length of the trailing run of re-kicks that saw no progress. */
  function TrailingIdle(log: seq<Event>, id: TaskId): nat {
    if log == [] then 0
    else
      var e := log[|log| - 1];
      var before := TrailingIdle(log[..|log| - 1], id);
      if e.TaskRekicked? && e.task == id then
        if e.madeProgress == Some(false) then before + 1 else 0
      else before
  }

  predicate LadderEvent(e: Event) {
    e.TaskRekicked? || e.TaskStuck? || e.TaskFailedExhausted?
  }

  lemma {:induction false} NoLadderEvents(log: seq<Event>, extra: seq<Event>, id: TaskId)
    requires forall e <- extra :: !e.TaskRekicked?
    ensures Rekicks(log + extra, id) == Rekicks(log, id)
    ensures TrailingIdle(log + extra, id) == TrailingIdle(log, id)
  {
    if extra == [] {
      assert log + extra == log;
    } else {
      var n := |extra| - 1;
      assert (log + extra)[..|log| + n] == log + extra[..n];
      NoLadderEvents(log, extra[..n], id);
      assert extra[n] in extra;
    }
  }

  lemma RekickEvent(log: seq<Event>, p: Option<bool>, id: TaskId, other: TaskId)
    ensures Rekicks(log + [TaskRekicked(id, p)], other) == Rekicks(log, other) + if other == id then 1 else 0
    ensures TrailingIdle(log + [TaskRekicked(id, p)], other) ==
      if other != id then TrailingIdle(log, other)
      else if p == Some(false) then TrailingIdle(log, id) + 1 else 0
  {
  }

  // ----- the invariant --------------------------------------------------------------------

  function Ceiling(cfg: Config): nat {
    if cfg.maxRetries < 0 then 0 else cfg.maxRetries
  }

  predicate CountersMatch(cfg: Config, db: Db, id: TaskId) {
    if id in db.tasks then
      && db.tasks[id].retries == Rekicks(db.log, id)
      && db.tasks[id].noProgressRekicks == TrailingIdle(db.log, id)
      && db.tasks[id].noProgressRekicks <= db.tasks[id].retries <= Ceiling(cfg)
    else
      Rekicks(db.log, id) == 0 && TrailingIdle(db.log, id) == 0
  }

  /** What the log must show when a rung's event is appended. */
  predicate JustifiedAfter(cfg: Config, log: seq<Event>, e: Event) {
    match e
    case TaskStuck(id) => TrailingIdle(log, id) >= cfg.stuckThreshold
    case TaskFailedExhausted(id) =>
      Rekicks(log, id) >= cfg.maxRetries && TrailingIdle(log, id) < cfg.stuckThreshold
    case TaskRekicked(_, madeProgress) => madeProgress.Some?
    case _ => true
  }

  predicate Justified(cfg: Config, log: seq<Event>) {
    log != [] ==>
      var init := log[..|log| - 1];
      Justified(cfg, init) && JustifiedAfter(cfg, init, log[|log| - 1])
  }

  lemma JustifiedOne(cfg: Config, log: seq<Event>, e: Event)
    requires Justified(cfg, log) && JustifiedAfter(cfg, log, e)
    ensures Justified(cfg, log + [e])
  {
  }

  lemma {:induction false} JustifiedQuiet(cfg: Config, log: seq<Event>, extra: seq<Event>)
    requires Justified(cfg, log) && forall e <- extra :: !LadderEvent(e)
    ensures Justified(cfg, log + extra)
  {
    if extra == [] {
      assert log + extra == log;
    } else {
      var n := |extra| - 1;
      JustifiedQuiet(cfg, log, extra[..n]);
      assert extra[n] in extra;
      assert log + extra == (log + extra[..n]) + [extra[n]];
      JustifiedOne(cfg, log + extra[..n], extra[n]);
    }
  }

  lemma {:induction false} JustifiedAt(cfg: Config, log: seq<Event>, i: nat)
    requires Justified(cfg, log) && i < |log|
    ensures JustifiedAfter(cfg, log[..i], log[i]) && Justified(cfg, log[..i])
  {
    var init := log[..|log| - 1];
    if i < |init| {
      JustifiedAt(cfg, init, i);
      assert init[..i] == log[..i];
    }
  }

  predicate ScanCurrent(db: Db, r: Scanned) {
    && r.id in db.tasks
    && r.row.retries == db.tasks[r.id].retries
    && r.row.noProgressRekicks == db.tasks[r.id].noProgressRekicks
  }

  /** Only this supervisor changes the counters, so a scanned row's counters stay current. */
  ghost predicate LadderHolds(cfg: Config, s: Sys) {
    && (forall id: TaskId :: CountersMatch(cfg, s.db, id))
    && Justified(cfg, s.db.log)
    && (forall r <- s.scan :: ScanCurrent(s.db, r))
    && forall i, j :: 0 <= i < j < |s.scan| ==> s.scan[i].id != s.scan[j].id
  }

  // ----- operations that leave the counters alone ------------------------------------------

  ghost predicate SameCounters(before: Db, after: Db) {
    && before.log <= after.log
    && (forall e <- after.log[|before.log|..] :: !LadderEvent(e))
    && before.tasks.Keys <= after.tasks.Keys
    && (forall t <- before.tasks ::
          after.tasks[t].retries == before.tasks[t].retries
          && after.tasks[t].noProgressRekicks == before.tasks[t].noProgressRekicks)
    && forall t <- after.tasks :: t !in before.tasks ==>
          after.tasks[t].retries == 0 && after.tasks[t].noProgressRekicks == 0
  }

  lemma SameCountersKeep(cfg: Config, before: Db, after: Db)
    requires SameCounters(before, after)
    requires forall id: TaskId :: CountersMatch(cfg, before, id)
    requires Justified(cfg, before.log)
    ensures forall id: TaskId :: CountersMatch(cfg, after, id)
    ensures Justified(cfg, after.log)
  {
    var extra := after.log[|before.log|..];
    assert after.log == before.log + extra;
    forall id: TaskId ensures CountersMatch(cfg, after, id) {
      assert CountersMatch(cfg, before, id);
      NoLadderEvents(before.log, extra, id);
    }
    JustifiedQuiet(cfg, before.log, extra);
  }

  lemma EmitSameCounters(before: Db, db: Db, e: Event)
    requires SameCounters(before, db) && !LadderEvent(e)
    ensures SameCounters(before, Emit(db, e))
  {
  }

  lemma TransitionSameCounters(db: Db, id: TaskId, to: Status, expected: Option<set<Status>>,
                               sets: Sets, force: bool)
    requires !sets.incrementRetries
    ensures SameCounters(db, Transition(db, id, to, expected, sets, force).db)
  {
    var tx := Transition(db, id, to, expected, sets, force);
    if tx.reply == Moved {
      assert tx.db.log[|db.log|..] == Hopped(db.tasks[id].status, to, id);
    } else {
      assert tx.db == db;
    }
  }

  lemma AskSameCounters(db: Db, d: DecisionId, dependent: Option<TaskId>)
    requires d !in db.decisions
    ensures SameCounters(db, RequestDecision(db, d, dependent).db)
  {
  }

  lemma CloseSameCounters(db: Db, d: DecisionId, status: DecisionStatus)
    ensures SameCounters(db, CloseDecision(db, d, status).db)
  {
  }

  lemma ResumeSameCounters(db: Db, id: TaskId, verdict: Option<ApprovalStatus>)
    ensures SameCounters(db, ResumeApproved(db, id, verdict).db)
  {
    var tx := RequeueBlocked(db, id);
    if tx.reply == Moved {
      EmitSameCounters(db, tx.db, ApprovalResumed(id));
    }
    if id in db.tasks {
      TransitionSameCounters(db, id, Abandoned, None, NO_SETS.(result := db.tasks[id].result), true);
    }
  }

  lemma PlainOpsKeepCounters(cfg: Config, s: Sys, op: Op)
    requires op.Tick? || op.Create? || op.GrabTask? || op.StartTask? || op.Beat? || op.ParkOnApproval? || op.Scan?
    ensures SameCounters(s.db, Commit(cfg, s, op))
  {
    match op
    case GrabTask(id, worker) =>
      TransitionSameCounters(s.db, id, Claimed, Some({UpForGrabs}), GrabSets(worker), false);
      SameCountersRefl(s.db);
    case StartTask(id) =>
      TransitionSameCounters(s.db, id, InProgress, Some({Claimed}),
                             NO_SETS.(setHeartbeat := true, setLastProgress := true), false);
    case ParkOnApproval(id, approval) =>
      TransitionSameCounters(s.db, id, Blocked, Some({InProgress}),
                             NO_SETS.(result := Some(BlockedOnApproval(approval))), false);
    case Beat(id, worker) => BeatSameCounters(s.db, id, worker);
    case Create(id, deps, priority) => BirthSameCounters(s.db, id, deps, priority);
    case _ => SameCountersRefl(s.db);
  }

  lemma SameCountersRefl(db: Db)
    ensures SameCounters(db, db)
  {
  }

  lemma BeatSameCounters(db: Db, id: TaskId, worker: WorkerId)
    ensures SameCounters(db, Heartbeat(db, id, worker).db)
  {
  }

  lemma BirthSameCounters(db: Db, id: TaskId, deps: seq<TaskId>, priority: int)
    ensures SameCounters(db, if Fresh(db, id) then Enqueue(db, id, deps, priority).db else db)
  {
    if Fresh(db, id) && id !in deps {
      assert Enqueue(db, id, deps, priority).db.log[|db.log|..] == [TaskCreated(id)];
    }
  }

  lemma OtherOpsKeepCounters(cfg: Config, s: Sys, op: Op)
    requires !op.Handle?
    ensures SameCounters(s.db, Commit(cfg, s, op))
  {
    var db := s.db;
    match op
    case Hopping(id, to, expected, sets, force) =>
      TransitionSameCounters(db, id, to, expected, sets.(incrementRetries := false), force);
    case Resume(id, verdict) => ResumeSameCounters(db, id, verdict);
    case Ask(d, dependent) => if d !in db.decisions { AskSameCounters(db, d, dependent); }
    case Close(d, withdrawn) => CloseSameCounters(db, d, if withdrawn then Withdrawn else Answered);
    case _ => PlainOpsKeepCounters(cfg, s, op);
  }

  // ----- the rungs ----------------------------------------------------------------------------

  /** Appending hop events and then one rung event. */
  lemma RungAppended(cfg: Config, log: seq<Event>, hops: seq<Event>, e: Event)
    requires Justified(cfg, log) && (forall h <- hops :: !LadderEvent(h))
    requires JustifiedAfter(cfg, log, e)
    ensures Justified(cfg, log + hops + [e])
  {
    JustifiedQuiet(cfg, log, hops);
    if e.TaskStuck? || e.TaskFailedExhausted? {
      NoLadderEvents(log, hops, e.task);
    }
    JustifiedOne(cfg, log + hops, e);
  }

  lemma DropKeepsLadder(cfg: Config, db: Db, after: Db, hops: seq<Event>, e: Event)
    requires forall id: TaskId :: CountersMatch(cfg, db, id)
    requires Justified(cfg, db.log)
    requires after.log == db.log + hops + [e] && (forall h <- hops :: !LadderEvent(h))
    requires (e.TaskStuck? || e.TaskFailedExhausted?) && JustifiedAfter(cfg, db.log, e)
    requires after.tasks.Keys == db.tasks.Keys
    requires forall t <- db.tasks :: after.tasks[t].retries == db.tasks[t].retries
                                  && after.tasks[t].noProgressRekicks == db.tasks[t].noProgressRekicks
    ensures forall id: TaskId :: CountersMatch(cfg, after, id)
    ensures Justified(cfg, after.log)
  {
    forall id: TaskId ensures CountersMatch(cfg, after, id) {
      assert CountersMatch(cfg, db, id);
      assert after.log == db.log + (hops + [e]);
      NoLadderEvents(db.log, hops + [e], id);
    }
    RungAppended(cfg, db.log, hops, e);
  }

  lemma RekickKeepsCounters(cfg: Config, db: Db, id: TaskId, madeProgress: bool, t: TaskId)
    requires CountersMatch(cfg, db, t)
    requires id in db.tasks && db.tasks[id].retries < cfg.maxRetries && Held(db.tasks[id].status)
    ensures CountersMatch(cfg, Rekick(db, id, Some(madeProgress)).db, t)
  {
    var hops := Hopped(db.tasks[id].status, UpForGrabs, id);
    assert Rekick(db, id, Some(madeProgress)).db.log == db.log + hops + [TaskRekicked(id, Some(madeProgress))];
    NoLadderEvents(db.log, hops, t);
    RekickEvent(db.log + hops, Some(madeProgress), id, t);
  }

  lemma RekickKeepsLadder(cfg: Config, db: Db, id: TaskId, madeProgress: bool)
    requires forall t: TaskId :: CountersMatch(cfg, db, t)
    requires Justified(cfg, db.log)
    requires id in db.tasks && db.tasks[id].retries < cfg.maxRetries
    ensures var after := Rekick(db, id, Some(madeProgress)).db;
      && (forall t: TaskId :: CountersMatch(cfg, after, t))
      && Justified(cfg, after.log)
  {
    var after := Rekick(db, id, Some(madeProgress)).db;
    if Held(db.tasks[id].status) {
      var hops := Hopped(db.tasks[id].status, UpForGrabs, id);
      var e := TaskRekicked(id, Some(madeProgress));
      assert after.log == db.log + hops + [e];
      forall t: TaskId ensures CountersMatch(cfg, after, t) {
        assert CountersMatch(cfg, db, t);
        RekickKeepsCounters(cfg, db, id, madeProgress, t);
      }
      RungAppended(cfg, db.log, hops, e);
    }
  }

  lemma EscalateKeepsLadder(cfg: Config, db: Db, id: TaskId, row: Task, reason: string)
    requires forall t: TaskId :: CountersMatch(cfg, db, t)
    requires Justified(cfg, db.log)
    requires ScanCurrent(db, Scanned(id, row)) && row.noProgressRekicks >= cfg.stuckThreshold
    ensures var after := EscalateStuck(db, id, row.noProgressRekicks, row.retries, reason).db;
      && (forall t: TaskId :: CountersMatch(cfg, after, t))
      && Justified(cfg, after.log)
  {
    if Held(db.tasks[id].status) {
      assert CountersMatch(cfg, db, id);
      DropKeepsLadder(cfg, db, EscalateStuck(db, id, row.noProgressRekicks, row.retries, reason).db,
                      Hopped(db.tasks[id].status, Abandoned, id), TaskStuck(id));
    }
  }

  lemma FailKeepsLadder(cfg: Config, db: Db, id: TaskId, row: Task)
    requires forall t: TaskId :: CountersMatch(cfg, db, t)
    requires Justified(cfg, db.log)
    requires ScanCurrent(db, Scanned(id, row))
    requires row.noProgressRekicks < cfg.stuckThreshold && row.retries >= cfg.maxRetries
    ensures var after := FailExhausted(db, id, row.retries).db;
      && (forall t: TaskId :: CountersMatch(cfg, after, t))
      && Justified(cfg, after.log)
  {
    if Held(db.tasks[id].status) {
      assert CountersMatch(cfg, db, id);
      DropKeepsLadder(cfg, db, FailExhausted(db, id, row.retries).db,
                      Hopped(db.tasks[id].status, Abandoned, id), TaskFailedExhausted(id));
    }
  }

  /** Handling one scanned row keeps every other row as it is. */
  lemma HandleKeepsLadder(cfg: Config, s: Sys, madeProgress: bool)
    requires LadderHolds(cfg, s) && s.scan != []
    ensures LadderHolds(cfg, Apply(cfg, s, Handle(madeProgress)))
  {
    var db, id, row := s.db, s.scan[0].id, s.scan[0].row;
    var next := Apply(cfg, s, Handle(madeProgress));
    assert s.scan[0] in s.scan && ScanCurrent(db, s.scan[0]);
    match Ladder(cfg, row, s.sweepNow) {
      case RungNudge =>
        if next.db != db {
          EmitSameCounters(db, Touch(db, id, db.tasks[id].(nudgedAt := Some(db.now))), TaskNudge(id));
          SameCountersKeep(cfg, db, next.db);
        }
      case RungDefer =>
      case RungEscalate =>
        EscalateKeepsLadder(cfg, db, id, row, if row.stallReason.Some? && row.stallReason.value != ""
                                              then row.stallReason.value else "no_progress");
      case RungFail => FailKeepsLadder(cfg, db, id, row);
      case RungRekick => RekickKeepsLadder(cfg, db, id, madeProgress);
    }
    RestOfScanStays(cfg, s, madeProgress);
  }

  /** The rows still to be handled are as they were scanned. */
  lemma RestOfScanStays(cfg: Config, s: Sys, madeProgress: bool)
    requires LadderHolds(cfg, s) && s.scan != []
    ensures forall r <- s.scan[1..] :: ScanCurrent(Apply(cfg, s, Handle(madeProgress)).db, r)
  {
    RecoverTouchesOne(cfg, s.db, s.scan[0].id, s.scan[0].row, s.sweepNow, madeProgress);
    forall r <- s.scan[1..] ensures ScanCurrent(Apply(cfg, s, Handle(madeProgress)).db, r) {
      var k :| 0 <= k < |s.scan| - 1 && s.scan[1..][k] == r;
      assert s.scan[k + 1] == r && s.scan[0].id != s.scan[k + 1].id;
      assert r in s.scan && ScanCurrent(s.db, r);
    }
  }

  lemma StepKeepsLadder(cfg: Config, s: Sys, op: Op)
    requires LadderHolds(cfg, s)
    ensures LadderHolds(cfg, Apply(cfg, s, op))
  {
    var next := Apply(cfg, s, op);
    if op.Handle? {
      if s.scan != [] {
        HandleKeepsLadder(cfg, s, op.madeProgress);
      }
    } else {
      OtherOpsKeepCounters(cfg, s, op);
      SameCountersKeep(cfg, s.db, Commit(cfg, s, op));
      forall r <- next.scan ensures ScanCurrent(next.db, r) {
        if next.scan == s.scan {
          assert ScanCurrent(s.db, r);
        }
      }
    }
  }

  lemma {:induction false} RunsKeepLadder(cfg: Config, ops: seq<Op>)
    ensures LadderHolds(cfg, Run(cfg, START, ops))
  {
    if ops != [] {
      var init := ops[..|ops| - 1];
      RunsKeepLadder(cfg, init);
      StepKeepsLadder(cfg, Run(cfg, START, init), ops[|ops| - 1]);
    }
  }

  // ----- what the counters mean ---------------------------------------------------------------

  /** For every run with one supervisor: no_progress_rekicks <= retries <= max_retries, and both
      counters are what the event log says. */
  lemma {:induction false} CountersTellTheLog(cfg: Config, ops: seq<Op>, id: TaskId)
    requires id in Run(cfg, START, ops).db.tasks
    ensures var db := Run(cfg, START, ops).db;
      && db.tasks[id].noProgressRekicks <= db.tasks[id].retries <= Ceiling(cfg)
      && db.tasks[id].retries == Rekicks(db.log, id)
      && db.tasks[id].noProgressRekicks == TrailingIdle(db.log, id)
  {
    RunsKeepLadder(cfg, ops);
    assert CountersMatch(cfg, Run(cfg, START, ops).db, id);
  }

  /** The `task.stuck` signal is never raised early: the last stuck_threshold re-kicks before
      it all saw no progress. */
  lemma {:induction false} StuckMeansNoProgress(cfg: Config, ops: seq<Op>, i: nat)
    requires i < |Run(cfg, START, ops).db.log| && Run(cfg, START, ops).db.log[i].TaskStuck?
    ensures var log := Run(cfg, START, ops).db.log;
      TrailingIdle(log[..i], log[i].task) >= cfg.stuckThreshold
  {
    RunsKeepLadder(cfg, ops);
    JustifiedAt(cfg, Run(cfg, START, ops).db.log, i);
  }

  lemma {:induction false} AllIdleCountsAll(log: seq<Event>, id: TaskId)
    requires forall e <- log :: e.TaskRekicked? && e.task == id ==> e.madeProgress == Some(false)
    ensures TrailingIdle(log, id) == Rekicks(log, id)
  {
    if log != [] {
      assert log[|log| - 1] in log;
      AllIdleCountsAll(log[..|log| - 1], id);
    }
  }

  lemma {:induction false} IdleLogNeverExhausts(cfg: Config, log: seq<Event>, id: TaskId)
    requires cfg.stuckThreshold <= cfg.maxRetries && Justified(cfg, log)
    requires TaskRekicked(id, Some(true)) !in log
    ensures TaskFailedExhausted(id) !in log
    ensures forall e <- log :: e.TaskRekicked? && e.task == id ==> e.madeProgress == Some(false)
  {
    if log != [] {
      var init := log[..|log| - 1];
      assert forall e <- log :: e in init || e == log[|log| - 1];
      var last := log[|log| - 1];
      assert last in log;
      IdleLogNeverExhausts(cfg, init, id);
      AllIdleCountsAll(init, id);
      forall e <- log | e.TaskRekicked? && e.task == id ensures e.madeProgress == Some(false) {
        if e == last {
          assert JustifiedAfter(cfg, init, e);
          var b := e.madeProgress.value;
          assert e == TaskRekicked(id, Some(b));
        }
      }
    }
  }

  /** With stuck_threshold <= max_retries, only a task that did make progress between two
      re-kicks can end by exhausting its retries. */
  lemma {:induction false} ExhaustionNeedsProgress(cfg: Config, ops: seq<Op>, id: TaskId)
    requires cfg.stuckThreshold <= cfg.maxRetries
    requires TaskFailedExhausted(id) in Run(cfg, START, ops).db.log
    ensures TaskRekicked(id, Some(true)) in Run(cfg, START, ops).db.log
  {
    RunsKeepLadder(cfg, ops);
    if TaskRekicked(id, Some(true)) !in Run(cfg, START, ops).db.log {
      IdleLogNeverExhausts(cfg, Run(cfg, START, ops).db.log, id);
    }
  }

  // ----- silent tasks terminate ------------------------------------------------------------------

  predicate SilentStatus(s: Status) {
    s == UpForGrabs || Held(s) || Terminal(s)
  }

  /** Workers may grab and start the task; nobody heartbeats, finishes or parks it. */
  predicate SilentFor(id: TaskId, op: Op) {
    match op
    case Beat(t, _) => t != id
    case Hopping(t, _, _, _, _) => t != id
    case ParkOnApproval(t, _) => t != id
    case Resume(t, _) => t != id
    case Ask(_, dependent) => dependent != Some(id)
    case _ => true
  }

  function Stage(t: Task): nat {
    match t.status
    case UpForGrabs => 4
    case Claimed => if t.nudgedAt.None? then 3 else 2
    case InProgress => if t.nudgedAt.None? then 2 else 1
    case _ => 0
  }

  /** Row changes a silent task can still go through. */
  function StepsLeft(cfg: Config, t: Task): int {
    if Terminal(t.status) then 0 else 4 * (Ceiling(cfg) - t.retries) + Stage(t)
  }

  /** The row of a silent task either stays or comes closer to the end. */
  predicate SilentProgress(cfg: Config, before: Db, after: Db, id: TaskId)
    requires id in before.tasks
  {
    && id in after.tasks && SilentStatus(after.tasks[id].status)
    && (after.tasks[id] != before.tasks[id] ==>
          StepsLeft(cfg, after.tasks[id]) < StepsLeft(cfg, before.tasks[id]))
  }

  lemma SilentRecover(cfg: Config, db: Db, id: TaskId, row: Task, sweepNow: Time, madeProgress: bool)
    requires ScanCurrent(db, Scanned(id, row)) && CountersMatch(cfg, db, id)
    requires SilentStatus(db.tasks[id].status)
    ensures SilentProgress(cfg, db, Recover(cfg, db, id, row, sweepNow, madeProgress).db, id)
  {
    if Held(db.tasks[id].status) {
      match Ladder(cfg, row, sweepNow)
      case RungRekick =>
        var after := Rekick(db, id, Some(madeProgress)).db;
        assert after.tasks[id].retries == db.tasks[id].retries + 1;
      case _ =>
    }
  }

  lemma SilentStep(cfg: Config, s: Sys, op: Op, id: TaskId)
    requires LadderHolds(cfg, s) && SilentFor(id, op)
    requires id in s.db.tasks && SilentStatus(s.db.tasks[id].status)
    ensures SilentProgress(cfg, s.db, Commit(cfg, s, op), id)
  {
    match op
    case Handle(madeProgress) =>
      if s.scan != [] {
        var r := s.scan[0];
        assert r in s.scan && ScanCurrent(s.db, r) && CountersMatch(cfg, s.db, id);
        if r.id == id {
          SilentRecover(cfg, s.db, id, r.row, s.sweepNow, madeProgress);
        } else {
          RecoverTouchesOne(cfg, s.db, r.id, r.row, s.sweepNow, madeProgress);
        }
      }
    case GrabTask(_, _) => SilentOffer(cfg, s, op, id);
    case StartTask(_) => SilentOffer(cfg, s, op, id);
    case _ => SilentOthers(cfg, s, op, id);
  }

  lemma SilentOffer(cfg: Config, s: Sys, op: Op, id: TaskId)
    requires op.GrabTask? || op.StartTask?
    requires id in s.db.tasks && SilentStatus(s.db.tasks[id].status)
    ensures SilentProgress(cfg, s.db, Commit(cfg, s, op), id)
  {
  }

  /** The others leave a silent row alone. */
  lemma SilentOthers(cfg: Config, s: Sys, op: Op, id: TaskId)
    requires SilentFor(id, op) && !op.Handle? && !op.GrabTask? && !op.StartTask?
    requires id in s.db.tasks && SilentStatus(s.db.tasks[id].status)
    ensures id in Commit(cfg, s, op).tasks && Commit(cfg, s, op).tasks[id] == s.db.tasks[id]
  {
  }

  /** Number of operations of a run that change the row. */
  function Changes(cfg: Config, s: Sys, ops: seq<Op>, id: TaskId): nat {
    if ops == [] then 0
    else
      var init := ops[..|ops| - 1];
      var before, after := Run(cfg, s, init).db.tasks, Run(cfg, s, ops).db.tasks;
      Changes(cfg, s, init, id)
      + if id in before && id in after && before[id] == after[id] then 0 else 1
  }

  lemma {:induction false} SilentRun(cfg: Config, s: Sys, ops: seq<Op>, id: TaskId)
    requires LadderHolds(cfg, s) && id in s.db.tasks && SilentStatus(s.db.tasks[id].status)
    requires forall op <- ops :: SilentFor(id, op)
    ensures var end := Run(cfg, s, ops);
      && LadderHolds(cfg, end) && id in end.db.tasks && SilentStatus(end.db.tasks[id].status)
      && Changes(cfg, s, ops, id) + StepsLeft(cfg, end.db.tasks[id]) <= StepsLeft(cfg, s.db.tasks[id])
  {
    if ops != [] {
      var init := ops[..|ops| - 1];
      SilentRun(cfg, s, init, id);
      var mid := Run(cfg, s, init);
      SilentStep(cfg, mid, ops[|ops| - 1], id);
      StepKeepsLadder(cfg, mid, ops[|ops| - 1]);
    }
  }

  /** A pooled task with no retries yet, whose workers only grab, start and fall silent, changes
      at most 4 * (max_retries + 1) times, and after that many changes it is terminal. */
  lemma {:induction false} SilentTaskTerminates(cfg: Config, setup: seq<Op>, ops: seq<Op>, id: TaskId)
    requires var db := Run(cfg, START, setup).db;
      id in db.tasks && db.tasks[id].status == UpForGrabs && db.tasks[id].retries == 0
    requires forall op <- ops :: SilentFor(id, op)
    ensures var s := Run(cfg, START, setup);
      && Changes(cfg, s, ops, id) <= 4 * (Ceiling(cfg) + 1)
      && id in Run(cfg, s, ops).db.tasks
      && (Changes(cfg, s, ops, id) == 4 * (Ceiling(cfg) + 1) ==> Terminal(Run(cfg, s, ops).db.tasks[id].status))
  {
    RunsKeepLadder(cfg, setup);
    var s := Run(cfg, START, setup);
    SilentRun(cfg, s, ops, id);
    assert CountersMatch(cfg, Run(cfg, s, ops).db, id);
  }

  /** Handling a stale task past its grace always changes its row. */
  lemma StaleTaskMoves(cfg: Config, db: Db, id: TaskId, madeProgress: bool)
    requires id in db.tasks && Stale(db.tasks[id], cfg.staleAfter, db.now)
    requires GraceElapsed(db.tasks[id], db.now, cfg.nudgeGrace)
    ensures var tx := Recover(cfg, db, id, db.tasks[id], db.now, madeProgress);
      tx.reply == Moved && id in tx.db.tasks && tx.db.tasks[id] != db.tasks[id]
  {
  }

  // ----- the rungs, one by one --------------------------------------------------------------------

  /** Nudging is off, or the row was nudged and its grace is over. */
  predicate Waited(cfg: Config, row: Task, sweepNow: Time) {
    cfg.nudgeGrace <= 0 || (row.nudgedAt.Some? && sweepNow - row.nudgedAt.value >= cfg.nudgeGrace)
  }

  /** Which rung a row climbs, from its nudge and its counters alone. */
  lemma RungExactly(cfg: Config, row: Task, sweepNow: Time)
    ensures Ladder(cfg, row, sweepNow) == RungNudge <==> !Waited(cfg, row, sweepNow) && row.nudgedAt.None?
    ensures Ladder(cfg, row, sweepNow) == RungDefer <==> !Waited(cfg, row, sweepNow) && row.nudgedAt.Some?
    ensures Ladder(cfg, row, sweepNow) == RungEscalate
      <==> Waited(cfg, row, sweepNow) && row.noProgressRekicks >= cfg.stuckThreshold
    ensures Ladder(cfg, row, sweepNow) == RungFail
      <==> Waited(cfg, row, sweepNow) && row.noProgressRekicks < cfg.stuckThreshold && row.retries >= cfg.maxRetries
    ensures Ladder(cfg, row, sweepNow) == RungRekick
      <==> Waited(cfg, row, sweepNow) && row.noProgressRekicks < cfg.stuckThreshold && row.retries < cfg.maxRetries
  {
  }

  /** What the row is after its rung. */
  predicate Climbed(cfg: Config, was: Task, row: Task, sweepNow: Time, now: Time, madeProgress: bool) {
    if !Waited(cfg, was, sweepNow) then
      row == if was.nudgedAt.None? then was.(nudgedAt := Some(now)) else was
    else if was.noProgressRekicks >= cfg.stuckThreshold then
      row == was.(status := Abandoned, result := Some(StuckNeedsReplan(was.noProgressRekicks, was.retries)),
                  stallReason := if was.stallReason == None || was.stallReason == Some("") then Some("no_progress")
                                 else was.stallReason)
    else if was.retries >= cfg.maxRetries then
      row == was.(status := Abandoned, result := Some(MaxRetriesExhausted(was.retries)))
    else
      row == was.(status := UpForGrabs, claimedBy := None, heartbeatAt := None, retries := was.retries + 1,
                  noProgressRekicks := if madeProgress then 0 else was.noProgressRekicks + 1,
                  nudgedAt := None, lastProgressAt := Some(now))
  }

  /** The event that tells of it. */
  predicate Told(cfg: Config, was: Task, id: TaskId, sweepNow: Time, madeProgress: bool, events: seq<Event>) {
    if !Waited(cfg, was, sweepNow) then
      events == if was.nudgedAt.None? then [TaskNudge(id)] else []
    else if was.noProgressRekicks >= cfg.stuckThreshold then
      events == [TaskTransition(id, was.status, Abandoned), TaskFinished(id), TaskStuck(id)]
    else if was.retries >= cfg.maxRetries then
      events == [TaskTransition(id, was.status, Abandoned), TaskFinished(id), TaskFailedExhausted(id)]
    else
      events == [TaskTransition(id, was.status, UpForGrabs), TaskRekicked(id, Some(madeProgress))]
  }

  /** A held row, handled as it is: a nudge and a grace before anything else, then escalation before
      exhaustion before another try. */
  lemma HandledRowClimbs(cfg: Config, db: Db, id: TaskId, sweepNow: Time, madeProgress: bool)
    requires id in db.tasks && Held(db.tasks[id].status)
    ensures var after := Recover(cfg, db, id, db.tasks[id], sweepNow, madeProgress).db;
      && id in after.tasks && Climbed(cfg, db.tasks[id], after.tasks[id], sweepNow, db.now, madeProgress)
      && db.log <= after.log && Told(cfg, db.tasks[id], id, sweepNow, madeProgress, after.log[|db.log|..])
  {
    var row := db.tasks[id];
    var after := Recover(cfg, db, id, row, sweepNow, madeProgress).db;
    assert Legal(row.status, Abandoned) && Legal(row.status, UpForGrabs);
    match Ladder(cfg, row, sweepNow)
    case RungNudge =>
    case RungDefer =>
    case RungEscalate =>
      EscalateIs(db, id, row.noProgressRekicks, row.retries,
                 if row.stallReason.Some? && row.stallReason.value != "" then row.stallReason.value else "no_progress");
      assert after.log == db.log + [TaskTransition(id, row.status, Abandoned), TaskFinished(id), TaskStuck(id)];
    case RungFail =>
      assert after.log == db.log + [TaskTransition(id, row.status, Abandoned), TaskFinished(id), TaskFailedExhausted(id)];
    case RungRekick =>
      RekickIs(db, id, madeProgress);
      assert after.log == db.log + [TaskTransition(id, row.status, UpForGrabs), TaskRekicked(id, Some(madeProgress))];
  }

  // ----- live workers are left alone ------------------------------------------------------------

  /** A claim, a start and a heartbeat each keep the task from being stale for the whole threshold. */
  lemma TouchedRowIsFresh(cfg: Config, db: Db, id: TaskId, worker: WorkerId, tx: Tx, now: Time)
    requires tx == Grab(db, id, worker) || tx == Start(db, id) || tx == Heartbeat(db, id, worker)
    requires tx.reply == Moved && now <= db.now + cfg.staleAfter
    ensures id in tx.db.tasks && Held(tx.db.tasks[id].status) && !Stale(tx.db.tasks[id], cfg.staleAfter, now)
  {
  }

  /** A task whose worker heartbeats after a nudge starts the ladder again: when it goes stale the next
      time, it is nudged and waited for before any re-kick. */
  lemma HeartbeatRestartsLadder(cfg: Config, db: Db, id: TaskId, worker: WorkerId, later: Time)
    requires cfg.nudgeGrace > 0 && Heartbeat(db, id, worker).reply == Moved
    ensures var row := Heartbeat(db, id, worker).db.tasks[id];
      && Ladder(cfg, row, later) == RungNudge
      && forall nudged: Time :: later <= nudged < later + cfg.nudgeGrace ==>
           Ladder(cfg, row.(nudgedAt := Some(later)), nudged) == RungDefer
  {
  }
}

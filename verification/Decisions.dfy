/** Human decisions: an open decision and its parked task stay paired through every
    interleaving, and closing the decision resumes exactly that task. */
module Decisions {
  import opened Common
  import opened Lifecycle
  import opened Tables
  import opened Studio
  import opened W = Worker

  predicate ParkedOn(db: Db, t: TaskId, d: DecisionId) {
    && t in db.tasks
    && db.tasks[t].status == Blocked
    && db.tasks[t].result == Some(BlockedOnDecision(d))
  }

  predicate IsOpen(db: Db, d: DecisionId) {
    d in db.decisions && db.decisions[d].status == Open
  }

  /** Each open decision's dependent task is blocked and stamped with that decision. */
  ghost predicate Paired(db: Db) {
    forall d <- db.decisions :: IsOpen(db, d) && db.decisions[d].dependent.Some? ==>
      ParkedOn(db, db.decisions[d].dependent.value, d)
  }

  predicate AwaitsDecision(db: Db, t: TaskId) {
    exists d <- db.decisions :: IsOpen(db, d) && db.decisions[d].dependent == Some(t)
  }

  /** Would a bare `transition` call with these arguments move a blocked task? */
  predicate MovesBlocked(to: Status, expected: Option<set<Status>>, force: bool) {
    && (expected.Some? ==> Blocked in expected.value)
    && to != Blocked
    && (force || Legal(Blocked, to))
  }

  /** The operation is a bare hop that would take a task away from the open decision it awaits. */
  predicate Reopens(db: Db, op: Op) {
    op.Hopping? && AwaitsDecision(db, op.id) && MovesBlocked(op.to, op.expected, op.force)
  }

  /** Rows parked on a decision, and the decisions, are not touched. */
  ghost predicate ParkedRowsStay(before: Db, after: Db) {
    && after.decisions == before.decisions
    && forall t, d :: ParkedOn(before, t, d) ==> ParkedOn(after, t, d)
  }

  lemma StayKeepsPairs(before: Db, after: Db)
    requires Paired(before) && ParkedRowsStay(before, after)
    ensures Paired(after)
  {
  }

  lemma AskKeepsPairs(db: Db, d: DecisionId, dependent: Option<TaskId>)
    requires Paired(db) && d !in db.decisions
    ensures Paired(RequestDecision(db, d, dependent).db)
  {
  }

  /** Closing an open decision settles it, requeues its task with the claim cleared, and
      leaves every other row and decision alone. */
  lemma ClosingResumes(db: Db, d: DecisionId, status: DecisionStatus)
    requires Paired(db) && IsOpen(db, d) && status != Open
    ensures var tx := CloseDecision(db, d, status); var dependent := db.decisions[d].dependent;
      && tx.reply == Moved
      && tx.db.decisions == db.decisions[d := Decision(status, dependent)]
      && (dependent.Some? ==>
            && tx.db.tasks.Keys == db.tasks.Keys
            && tx.db.tasks[dependent.value].status == UpForGrabs
            && tx.db.tasks[dependent.value].claimedBy.None?
            && tx.db.tasks[dependent.value].heartbeatAt.None?)
      && forall t <- db.tasks :: dependent != Some(t) ==> t in tx.db.tasks && tx.db.tasks[t] == db.tasks[t]
  {
  }

  lemma CloseKeepsPairs(db: Db, d: DecisionId, status: DecisionStatus)
    requires Paired(db) && status != Open
    ensures Paired(CloseDecision(db, d, status).db)
  {
  }

  lemma RecoverLeavesParked(cfg: Config, db: Db, id: TaskId, row: Task, sweepNow: Time, madeProgress: bool)
    ensures ParkedRowsStay(db, Recover(cfg, db, id, row, sweepNow, madeProgress).db)
  {
    RecoverTouchesOne(cfg, db, id, row, sweepNow, madeProgress);
  }

  /** The worker's hops carry no source guard. Such a call keeps the pairing exactly when the
      task awaits no open decision or the call could not move a blocked task. */
  lemma BareHopKeepsPairsIff(db: Db, id: TaskId, to: Status, expected: Option<set<Status>>,
                             sets: Sets, force: bool)
    requires Paired(db)
    ensures Paired(Transition(db, id, to, expected, sets, force).db)
      <==> !(AwaitsDecision(db, id) && MovesBlocked(to, expected, force))
  {
  }

  /** An operation keeps the pairing exactly when it is not such a hop. */
  lemma StepKeepsPairsIff(cfg: Config, s: Sys, op: Op)
    requires Paired(s.db)
    ensures Paired(Commit(cfg, s, op)) <==> !Reopens(s.db, op)
  {
    match op
    case Hopping(id, to, expected, sets, force) =>
      BareHopKeepsPairsIff(s.db, id, to, expected, sets.(incrementRetries := false), force);
    case Ask(d, dependent) => if d !in s.db.decisions { AskKeepsPairs(s.db, d, dependent); }
    case Close(d, withdrawn) => CloseKeepsPairs(s.db, d, if withdrawn then Withdrawn else Answered);
    case Handle(madeProgress) =>
      if s.scan != [] {
        RecoverLeavesParked(cfg, s.db, s.scan[0].id, s.scan[0].row, s.sweepNow, madeProgress);
        StayKeepsPairs(s.db, Commit(cfg, s, op));
      }
    case _ => GuardedOpsKeepPairs(cfg, s, op);
  }

  /** Grabbing, starting, heartbeats, approval parking and resume, birth and the clock. */
  lemma GuardedOpsKeepPairs(cfg: Config, s: Sys, op: Op)
    requires Paired(s.db) && !op.Hopping? && !op.Ask? && !op.Close? && !op.Handle?
    ensures Paired(Commit(cfg, s, op))
  {
    assert ParkedRowsStay(s.db, Commit(cfg, s, op));
    StayKeepsPairs(s.db, Commit(cfg, s, op));
  }

  lemma {:induction false} PairedUntilReopened(cfg: Config, ops: seq<Op>, n: nat)
    requires n <= |ops| && forall m :: 0 <= m < n ==> !Reopens(At(cfg, START, ops, m).db, ops[m])
    ensures Paired(At(cfg, START, ops, n).db)
  {
    if n > 0 {
      PairedUntilReopened(cfg, ops, n - 1);
      AtNext(cfg, START, ops, n - 1);
      StepKeepsPairsIff(cfg, At(cfg, START, ops, n - 1), ops[n - 1]);
    }
  }

  /** Every prefix of a run is paired exactly when no operation of it, in the state where it is
      issued, is a bare hop of a task that awaits an open decision. */
  lemma RunsStayPairedExactly(cfg: Config, ops: seq<Op>)
    ensures (forall n :: 0 <= n <= |ops| ==> Paired(At(cfg, START, ops, n).db))
      <==> (forall n :: 0 <= n < |ops| ==> !Reopens(At(cfg, START, ops, n).db, ops[n]))
  {
    if forall n :: 0 <= n <= |ops| ==> Paired(At(cfg, START, ops, n).db) {
      forall n | 0 <= n < |ops| ensures !Reopens(At(cfg, START, ops, n).db, ops[n]) {
        AtNext(cfg, START, ops, n);
        StepKeepsPairsIff(cfg, At(cfg, START, ops, n), ops[n]);
        assert Paired(At(cfg, START, ops, n + 1).db);
      }
    } else if forall n :: 0 <= n < |ops| ==> !Reopens(At(cfg, START, ops, n).db, ops[n]) {
      forall n | 0 <= n <= |ops| ensures Paired(At(cfg, START, ops, n).db) {
        PairedUntilReopened(cfg, ops, n);
      }
    }
  }

  /** Paired decisions never share a task. */
  lemma PairedDecisionsDisjoint(db: Db, d: DecisionId, e: DecisionId)
    requires Paired(db) && IsOpen(db, d) && IsOpen(db, e) && db.decisions[d].dependent.Some?
    requires db.decisions[d].dependent == db.decisions[e].dependent
    ensures d == e
  {
    assert ParkedOn(db, db.decisions[d].dependent.value, d);
    assert ParkedOn(db, db.decisions[e].dependent.value, e);
  }

  /** So no two open decisions share a task, in every run without such a hop. */
  lemma {:induction false} OpenDecisionsDisjoint(cfg: Config, ops: seq<Op>, d: DecisionId, e: DecisionId)
    requires forall n :: 0 <= n < |ops| ==> !Reopens(At(cfg, START, ops, n).db, ops[n])
    requires var db := Run(cfg, START, ops).db;
      IsOpen(db, d) && IsOpen(db, e) && db.decisions[d].dependent.Some?
      && db.decisions[d].dependent == db.decisions[e].dependent
    ensures d == e
  {
    PairedUntilReopened(cfg, ops, |ops|);
    AtEnd(cfg, START, ops);
    PairedDecisionsDisjoint(Run(cfg, START, ops).db, d, e);
  }

  // ----- among running work loops ------------------------------------------------------------------

  /** The work loop is about to retry or drop a task that awaits an open decision, or somebody else's
      bare hop would take it away. */
  predicate ActReopens(w: World, act: Act) {
    match act
    case Env(op) => Reopens(w.sys.db, op)
    case Hire(_, _, _) => false
    case Work(a, _, _) =>
      a < |w.agents| && (w.agents[a].pc.Retry? || w.agents[a].pc.Drop?) && AwaitsDecision(w.sys.db, w.agents[a].task)
  }

  /** A hop of the work loop keeps the pairing unless a blocked task may make it. */
  lemma LoopHopKeepsPairsIff(db: Db, id: TaskId, to: Status, result: Option<Result>)
    requires Paired(db) && to != Blocked
    ensures Paired(Transition(db, id, to, None, NO_SETS.(result := result), false).db)
      <==> !(AwaitsDecision(db, id) && Legal(Blocked, to))
  {
    BareHopKeepsPairsIff(db, id, to, None, NO_SETS.(result := result), false);
  }

  lemma OtherStepsKeepPairs(db: Db, id: TaskId, worker: WorkerId, max: nat, pc: Pc, exec: Exec, passed: bool)
    requires Paired(db) && (pc.Begin? || pc.Park? || pc.Submitting? || pc.Verify? || pc.Stopped?)
    ensures Paired(Step(db, id, worker, max, pc, exec, passed).db)
  {
    assert ParkedRowsStay(db, Step(db, id, worker, max, pc, exec, passed).db);
    StayKeepsPairs(db, Step(db, id, worker, max, pc, exec, passed).db);
  }

  /** A step of the work loop keeps the pairing exactly when it is not a retry or drop hop on a task
      that awaits an open decision. */
  lemma WorkKeepsPairsIff(db: Db, id: TaskId, worker: WorkerId, max: nat, pc: Pc, exec: Exec, passed: bool)
    requires Paired(db)
    ensures Paired(Step(db, id, worker, max, pc, exec, passed).db)
      <==> !((pc.Retry? || pc.Drop?) && AwaitsDecision(db, id))
  {
    assert Targets(Blocked) == {InProgress, Abandoned, UpForGrabs};
    match pc
    case Submit(_) => LoopHopKeepsPairsIff(db, id, ReadyForReview, Some(Outcome("artifact")));
    case Approve => LoopHopKeepsPairsIff(db, id, Approved, Some(Outcome("verified")));
    case Finish => LoopHopKeepsPairsIff(db, id, Merged, Some(Outcome("verified")));
    case Reject(_) => LoopHopKeepsPairsIff(db, id, ReviewerBlocked, Some(Outcome("rejected")));
    case Retry(_) => LoopHopKeepsPairsIff(db, id, InProgress, None);
    case Drop => LoopHopKeepsPairsIff(db, id, Abandoned, Some(Outcome("rejected")));
    case _ => OtherStepsKeepPairs(db, id, worker, max, pc, exec, passed);
  }

  lemma ActKeepsPairsIff(cfg: Config, w: World, act: Act)
    requires Paired(w.sys.db)
    ensures Paired(Advance(cfg, w, act).sys.db) <==> !ActReopens(w, act)
  {
    match act
    case Env(op) => StepKeepsPairsIff(cfg, w.sys, op);
    case Hire(_, _, _) =>
    case Work(a, exec, passed) =>
      if a < |w.agents| {
        var g := w.agents[a];
        WorkKeepsPairsIff(w.sys.db, g.task, g.worker, g.max, g.pc, exec, passed);
      }
  }

  function WorldAt(cfg: Config, acts: seq<Act>, n: nat): World
    requires n <= |acts|
  {
    RunWorld(cfg, EMPTY_WORLD, acts[..n])
  }

  lemma WorldAtNext(cfg: Config, acts: seq<Act>, n: nat)
    requires n < |acts|
    ensures WorldAt(cfg, acts, n + 1) == Advance(cfg, WorldAt(cfg, acts, n), acts[n])
  {
    assert acts[..n + 1][..n] == acts[..n];
  }

  lemma {:induction false} WorldPairedUntilReopened(cfg: Config, acts: seq<Act>, n: nat)
    requires n <= |acts| && forall m :: 0 <= m < n ==> !ActReopens(WorldAt(cfg, acts, m), acts[m])
    ensures Paired(WorldAt(cfg, acts, n).sys.db)
  {
    if n > 0 {
      WorldPairedUntilReopened(cfg, acts, n - 1);
      WorldAtNext(cfg, acts, n - 1);
      ActKeepsPairsIff(cfg, WorldAt(cfg, acts, n - 1), acts[n - 1]);
    }
  }

  /** In all interleavings of any number of work loops with grabbing, heartbeats, re-kick, escalation,
      approval parking and resume and other decisions: every prefix is paired exactly when no loop retries
      or drops, and nobody else moves, a task that awaits an open decision at that moment. */
  lemma WorldsStayPairedExactly(cfg: Config, acts: seq<Act>)
    ensures (forall n :: 0 <= n <= |acts| ==> Paired(WorldAt(cfg, acts, n).sys.db))
      <==> (forall n :: 0 <= n < |acts| ==> !ActReopens(WorldAt(cfg, acts, n), acts[n]))
  {
    if forall n :: 0 <= n <= |acts| ==> Paired(WorldAt(cfg, acts, n).sys.db) {
      forall n | 0 <= n < |acts| ensures !ActReopens(WorldAt(cfg, acts, n), acts[n]) {
        WorldAtNext(cfg, acts, n);
        ActKeepsPairsIff(cfg, WorldAt(cfg, acts, n), acts[n]);
        assert Paired(WorldAt(cfg, acts, n + 1).sys.db);
      }
    } else if forall n :: 0 <= n < |acts| ==> !ActReopens(WorldAt(cfg, acts, n), acts[n]) {
      forall n | 0 <= n <= |acts| ensures Paired(WorldAt(cfg, acts, n).sys.db) {
        WorldPairedUntilReopened(cfg, acts, n);
      }
    }
  }

  // ----- a run that loses the pairing ----------------------------------------------------------------

  /** No hop but those of work loops. */
  predicate OnlyLoopsHop(acts: seq<Act>) {
    forall act <- acts :: act.Env? ==> !act.op.Hopping?
  }

  /** The world runs as given, and one more act leads here. */
  lemma Then(cfg: Config, acts: seq<Act>, act: Act) returns (more: seq<Act>)
    requires OnlyLoopsHop(acts) && (act.Env? ==> !act.op.Hopping?)
    ensures OnlyLoopsHop(more)
    ensures RunWorld(cfg, EMPTY_WORLD, more) == Advance(cfg, RunWorld(cfg, EMPTY_WORLD, acts), act)
  {
    more := acts + [act];
    assert more[..|acts|] == acts;
  }

  /** Task 0, without prerequisites, is in this state; the loops stand here; these decisions exist. */
  predicate Scene(w: World, status: Status, loops: seq<Agent>, decisions: set<DecisionId>) {
    && 0 in w.sys.db.tasks && w.sys.db.tasks[0].status == status && w.sys.db.tasks[0].dependsOn == []
    && w.agents == loops && w.sys.db.decisions.Keys == decisions
  }

  /** The loop of worker 1 or 2 on task 0, of up to two attempts. */
  function Loop(worker: WorkerId, pc: Pc): Agent {
    Agent(0, worker, 2, pc)
  }

  /** Worker 1 grabs and starts the task and runs its loop. */
  lemma OneLoop(cfg: Config) returns (acts: seq<Act>)
    ensures OnlyLoopsHop(acts) && Scene(RunWorld(cfg, EMPTY_WORLD, acts), InProgress, [Loop(1, Begin(1))], {})
  {
    acts := Then(cfg, [], Env(Create(0, [], 0)));
    assert Scene(RunWorld(cfg, EMPTY_WORLD, acts), UpForGrabs, [], {});
    acts := Started(cfg, acts, [], {}, 1);
  }

  lemma Started(cfg: Config, acts: seq<Act>, loops: seq<Agent>, decisions: set<DecisionId>, worker: WorkerId)
    returns (more: seq<Act>)
    requires OnlyLoopsHop(acts) && Scene(RunWorld(cfg, EMPTY_WORLD, acts), UpForGrabs, loops, decisions)
    ensures OnlyLoopsHop(more)
    ensures Scene(RunWorld(cfg, EMPTY_WORLD, more), InProgress, loops + [Loop(worker, Begin(1))], decisions)
  {
    more := Then(cfg, acts, Env(GrabTask(0, worker)));
    assert Scene(RunWorld(cfg, EMPTY_WORLD, more), Claimed, loops, decisions);
    more := Then(cfg, more, Env(StartTask(0)));
    assert Scene(RunWorld(cfg, EMPTY_WORLD, more), InProgress, loops, decisions);
    more := Then(cfg, more, Hire(0, worker, 2));
  }

  /** A decision parks the task under its loop. */
  lemma Asked(cfg: Config, acts: seq<Act>, loops: seq<Agent>) returns (more: seq<Act>)
    requires OnlyLoopsHop(acts) && Scene(RunWorld(cfg, EMPTY_WORLD, acts), InProgress, loops, {})
    ensures OnlyLoopsHop(more) && Scene(RunWorld(cfg, EMPTY_WORLD, more), Blocked, loops, {7})
    ensures RunWorld(cfg, EMPTY_WORLD, more).sys.db.decisions[7] == Decision(Open, Some(0))
  {
    more := Then(cfg, acts, Env(Ask(7, Some(0))));
    assert Legal(InProgress, Blocked);
  }

  /** Its answer requeues it. */
  lemma Answers(cfg: Config, acts: seq<Act>, loops: seq<Agent>) returns (more: seq<Act>)
    requires OnlyLoopsHop(acts) && Scene(RunWorld(cfg, EMPTY_WORLD, acts), Blocked, loops, {7})
    requires RunWorld(cfg, EMPTY_WORLD, acts).sys.db.decisions[7] == Decision(Open, Some(0))
    ensures OnlyLoopsHop(more) && Scene(RunWorld(cfg, EMPTY_WORLD, more), UpForGrabs, loops, {7})
  {
    more := Then(cfg, acts, Env(Close(7, false)));
    assert Legal(Blocked, UpForGrabs);
  }

  /** Worker 2 grabs and starts it again: two loops run on one task. */
  lemma TwoLoopsOnOneTask(cfg: Config) returns (acts: seq<Act>)
    ensures OnlyLoopsHop(acts)
    ensures Scene(RunWorld(cfg, EMPTY_WORLD, acts), InProgress, [Loop(1, Begin(1)), Loop(2, Begin(1))], {7})
  {
    acts := OneLoop(cfg);
    acts := Asked(cfg, acts, [Loop(1, Begin(1))]);
    acts := Answers(cfg, acts, [Loop(1, Begin(1))]);
    acts := Started(cfg, acts, [Loop(1, Begin(1))], {7}, 2);
  }

  /** Does this step of a loop, with a failing verdict, take the task from one state to the other? */
  ghost predicate Leads(from: Status, pc: Pc, to: Status, next: Pc) {
    forall result: Option<Result> ::
      var step := StepSeen(Seen(from, result), 2, pc, Produced, false); step.seen.status == to && step.pc == next
  }

  /** Worker 1 makes its step, then worker 2 makes the same one. */
  lemma BothStep(cfg: Config, acts: seq<Act>, from: Status, pc: Pc, to: Status, next: Pc) returns (more: seq<Act>)
    requires OnlyLoopsHop(acts)
    requires Scene(RunWorld(cfg, EMPTY_WORLD, acts), from, [Loop(1, pc), Loop(2, pc)], {7})
    requires Leads(from, pc, to, next) && Leads(to, pc, to, next)
    ensures OnlyLoopsHop(more) && Scene(RunWorld(cfg, EMPTY_WORLD, more), to, [Loop(1, next), Loop(2, next)], {7})
  {
    more := FirstSteps(cfg, acts, from, pc, pc, to, next);
    var w := RunWorld(cfg, EMPTY_WORLD, more);
    StepIsSeen(w.sys.db, 0, 2, 2, pc, Produced, false);
    LoopsDecideNothing(w.sys.db, 2, pc);
    more := Then(cfg, more, Work(1, Produced, false));
  }

  lemma FirstSteps(cfg: Config, acts: seq<Act>, from: Status, pc: Pc, other: Pc, to: Status, next: Pc)
    returns (more: seq<Act>)
    requires OnlyLoopsHop(acts) && Leads(from, pc, to, next)
    requires Scene(RunWorld(cfg, EMPTY_WORLD, acts), from, [Loop(1, pc), Loop(2, other)], {7})
    ensures OnlyLoopsHop(more) && Scene(RunWorld(cfg, EMPTY_WORLD, more), to, [Loop(1, next), Loop(2, other)], {7})
  {
    var w := RunWorld(cfg, EMPTY_WORLD, acts);
    StepIsSeen(w.sys.db, 0, 1, 2, pc, Produced, false);
    LoopsDecideNothing(w.sys.db, 1, pc);
    more := Then(cfg, acts, Work(0, Produced, false));
  }

  lemma LoopsDecideNothing(db: Db, worker: WorkerId, pc: Pc)
    requires 0 in db.tasks
    ensures var after := Step(db, 0, worker, 2, pc, Produced, false).db;
      after.decisions == db.decisions && 0 in after.tasks && after.tasks[0].dependsOn == db.tasks[0].dependsOn
  {
  }

  /** Both loops submit the task for review. */
  lemma BothSubmitted(cfg: Config) returns (acts: seq<Act>)
    ensures OnlyLoopsHop(acts)
    ensures Scene(RunWorld(cfg, EMPTY_WORLD, acts), ReadyForReview, [Loop(1, Verify(1)), Loop(2, Verify(1))], {7})
  {
    acts := TwoLoopsOnOneTask(cfg);
    acts := BothStep(cfg, acts, InProgress, Begin(1), InProgress, Submitting(1));
    acts := BothStep(cfg, acts, InProgress, Submitting(1), InProgress, Submit(1));
    assert Legal(InProgress, ReadyForReview);
    assert Leads(InProgress, Submit(1), ReadyForReview, Verify(1));
    assert Leads(ReadyForReview, Submit(1), ReadyForReview, Verify(1));
    acts := BothStep(cfg, acts, InProgress, Submit(1), ReadyForReview, Verify(1));
  }

  /** Both verdicts fail. */
  lemma BothFailed(cfg: Config) returns (acts: seq<Act>)
    ensures OnlyLoopsHop(acts)
    ensures Scene(RunWorld(cfg, EMPTY_WORLD, acts), ReadyForReview, [Loop(1, Reject(1)), Loop(2, Reject(1))], {7})
  {
    acts := BothSubmitted(cfg);
    acts := BothStep(cfg, acts, ReadyForReview, Verify(1), ReadyForReview, Reject(1));
  }

  /** The first loop retries and the second is about to. */
  lemma BothRejected(cfg: Config) returns (acts: seq<Act>)
    ensures OnlyLoopsHop(acts)
    ensures Scene(RunWorld(cfg, EMPTY_WORLD, acts), InProgress, [Loop(1, Begin(2)), Loop(2, Retry(1))], {7})
  {
    acts := BothFailed(cfg);
    assert Legal(ReadyForReview, ReviewerBlocked) && Legal(ReviewerBlocked, InProgress);
    assert Leads(ReadyForReview, Reject(1), ReviewerBlocked, Retry(1));
    assert Leads(ReviewerBlocked, Reject(1), ReviewerBlocked, Retry(1));
    assert Leads(ReviewerBlocked, Retry(1), InProgress, Begin(2));
    acts := BothStep(cfg, acts, ReadyForReview, Reject(1), ReviewerBlocked, Retry(1));
    acts := FirstSteps(cfg, acts, ReviewerBlocked, Retry(1), Retry(1), InProgress, Begin(2));
  }

  /** Then a second decision parks the task. */
  lemma SecondDecision(cfg: Config) returns (acts: seq<Act>)
    ensures OnlyLoopsHop(acts)
    ensures Scene(RunWorld(cfg, EMPTY_WORLD, acts), Blocked, [Loop(1, Begin(2)), Loop(2, Retry(1))], {7, 8})
    ensures RunWorld(cfg, EMPTY_WORLD, acts).sys.db.decisions[8] == Decision(Open, Some(0))
  {
    acts := BothRejected(cfg);
    acts := Then(cfg, acts, Env(Ask(8, Some(0))));
    assert Legal(InProgress, Blocked);
  }

  /** And the late retry of the other loop reopens it while the decision is still open. */
  lemma LateRetryReopensParkedTask(cfg: Config) returns (acts: seq<Act>)
    ensures OnlyLoopsHop(acts)
    ensures var db := RunWorld(cfg, EMPTY_WORLD, acts).sys.db;
      && IsOpen(db, 8) && db.decisions[8].dependent == Some(0)
      && 0 in db.tasks && db.tasks[0].status == InProgress && !Paired(db)
  {
    acts := SecondDecision(cfg);
    acts := Then(cfg, acts, Work(1, Produced, false));
    assert Legal(Blocked, InProgress);
    var db := RunWorld(cfg, EMPTY_WORLD, acts).sys.db;
    assert IsOpen(db, 8) && !ParkedOn(db, 0, 8);
  }
}

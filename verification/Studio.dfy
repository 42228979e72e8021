/** Runs of the whole kernel: any number of workers, one supervisor, humans, and a clock that
    never goes back. One `Op` is one committed transaction (or one that rolled back), so a
    sequence of them is an interleaving. */
module Studio {
  import opened Common
  import opened Lifecycle
  import opened Tables

  datatype Scanned = Scanned(id: TaskId, row: Task)

  /** The tables, plus the rows the running sweep has read and not handled yet. */
  datatype Sys = Sys(db: Db, scan: seq<Scanned>, sweepNow: Time)

  const START := Sys(EMPTY, [], 0)

  datatype Op =
    | Tick(dt: nat)
    | Create(id: TaskId, deps: seq<TaskId>, priority: int)
    | GrabTask(id: TaskId, worker: WorkerId)
    | StartTask(id: TaskId)
    | Beat(id: TaskId, worker: WorkerId)
      // one call of `transition` by a worker, a verifier or `complete_task`
    | Hopping(id: TaskId, to: Status, expected: Option<set<Status>>, sets: Sets, force: bool)
    | ParkOnApproval(id: TaskId, approval: ApprovalId)
    | Resume(id: TaskId, verdict: Option<ApprovalStatus>)
    | Ask(decision: DecisionId, dependent: Option<TaskId>)
    | Close(decision: DecisionId, withdrawn: bool)
      // `find_stale_tasks` at the start of a sweep; `pick` is the order it returns the rows in
    | Scan(pick: seq<TaskId>)
      // the sweep handles its next row
    | Handle(madeProgress: bool)

  /** A uuid just drawn: no row has it and no row names it as a prerequisite. */
  predicate Fresh(db: Db, id: TaskId) {
    && id !in db.tasks
    && forall t <- db.tasks :: id !in db.tasks[t].dependsOn
  }

  predicate Scannable(cfg: Config, db: Db, pick: seq<TaskId>) {
    && (forall id <- pick :: id in db.tasks && Stale(db.tasks[id], cfg.staleAfter, db.now))
    && Distinct(pick)
  }

  /** At most this row has changed, and only if it was held. */
  ghost predicate TouchesHeld(db: Db, after: Db, id: TaskId) {
    && after.tasks.Keys == db.tasks.Keys && after.now == db.now && after.decisions == db.decisions
    && (forall t <- db.tasks :: t != id ==> after.tasks[t] == db.tasks[t])
    && (id in db.tasks && !Held(db.tasks[id].status) ==> after.tasks[id] == db.tasks[id])
  }

  lemma RekickTouchesHeld(db: Db, id: TaskId, madeProgress: Option<bool>)
    ensures TouchesHeld(db, Rekick(db, id, madeProgress).db, id)
  {
  }

  lemma EscalateTouchesHeld(db: Db, id: TaskId, npr: nat, retries: nat, reason: string)
    ensures TouchesHeld(db, EscalateStuck(db, id, npr, retries, reason).db, id)
  {
  }

  lemma FailTouchesHeld(db: Db, id: TaskId, retries: nat)
    ensures TouchesHeld(db, FailExhausted(db, id, retries).db, id)
  {
  }

  /** Handling one row leaves the others, the clock and the decisions, and a row that is not held. */
  lemma RecoverTouchesOne(cfg: Config, db: Db, id: TaskId, row: Task, sweepNow: Time, madeProgress: bool)
    ensures TouchesHeld(db, Recover(cfg, db, id, row, sweepNow, madeProgress).db, id)
  {
    match Ladder(cfg, row, sweepNow)
    case RungNudge =>
    case RungDefer =>
    case RungRekick => RekickTouchesHeld(db, id, Some(madeProgress));
    case RungFail => FailTouchesHeld(db, id, row.retries);
    case RungEscalate =>
      EscalateTouchesHeld(db, id, row.noProgressRekicks, row.retries,
                          if row.stallReason.Some? && row.stallReason.value != "" then row.stallReason.value else "no_progress");
  }

  function Rows(db: Db, pick: seq<TaskId>): (rows: seq<Scanned>)
    requires forall id <- pick :: id in db.tasks
    ensures |rows| == |pick|
    ensures forall i :: 0 <= i < |pick| ==> rows[i] == Scanned(pick[i], db.tasks[pick[i]])
  {
    seq(|pick|, i requires 0 <= i < |pick| => Scanned(pick[i], db.tasks[pick[i]]))
  }

  /** The database half of an operation. `increment_retries` is passed by `rekick_task` only. */
  function Commit(cfg: Config, s: Sys, op: Op): Db {
    var db := s.db;
    match op
    case Tick(dt) => db.(now := db.now + dt)
    case Create(id, deps, priority) => if Fresh(db, id) then Enqueue(db, id, deps, priority).db else db
    case GrabTask(id, worker) => Grab(db, id, worker).db
    case StartTask(id) => Start(db, id).db
    case Beat(id, worker) => Heartbeat(db, id, worker).db
    case Hopping(id, to, expected, sets, force) =>
      Transition(db, id, to, expected, sets.(incrementRetries := false), force).db
    case ParkOnApproval(id, approval) => BlockTask(db, id, approval).db
    case Resume(id, approval) => ResumeApproved(db, id, approval).db
    case Ask(d, dependent) => if d in db.decisions then db else RequestDecision(db, d, dependent).db
    case Close(d, withdrawn) => CloseDecision(db, d, if withdrawn then Withdrawn else Answered).db
    case Scan(_) => db
    case Handle(madeProgress) =>
      if s.scan == [] then db
      else Recover(cfg, db, s.scan[0].id, s.scan[0].row, s.sweepNow, madeProgress).db
  }

  function Apply(cfg: Config, s: Sys, op: Op): Sys {
    var db := Commit(cfg, s, op);
    match op
    case Scan(pick) => if Scannable(cfg, s.db, pick) then Sys(db, Rows(s.db, pick), s.db.now) else s
    case Handle(_) => if s.scan == [] then s else Sys(db, s.scan[1..], s.sweepNow)
    case _ => Sys(db, s.scan, s.sweepNow)
  }

  function Run(cfg: Config, s: Sys, ops: seq<Op>): Sys {
    if ops == [] then s
    else Apply(cfg, Run(cfg, s, ops[..|ops| - 1]), ops[|ops| - 1])
  }

  lemma RunSnoc(cfg: Config, s: Sys, ops: seq<Op>, op: Op)
    ensures Run(cfg, s, ops + [op]) == Apply(cfg, Run(cfg, s, ops), op)
  {
  }

  /** No human override: `force=True` bypasses the legality check. */
  predicate Unforced(op: Op) {
    op.Hopping? ==> !op.force
  }

  /** A claim by a bare `transition`, past the gate in `grab_task`'s query, that moves a task which is not
      ready. */
  predicate ClaimsUnready(db: Db, op: Op) {
    && op.Hopping? && op.to == Claimed && !Ready(db, op.id)
    && Transition(db, op.id, op.to, op.expected, op.sets.(incrementRetries := false), op.force).reply == Moved
  }

  /** The state after the first n operations. */
  function At(cfg: Config, s: Sys, ops: seq<Op>, n: nat): Sys
    requires n <= |ops|
  {
    Run(cfg, s, ops[..n])
  }

  lemma AtNext(cfg: Config, s: Sys, ops: seq<Op>, n: nat)
    requires n < |ops|
    ensures At(cfg, s, ops, n + 1) == Apply(cfg, At(cfg, s, ops, n), ops[n])
    ensures At(cfg, s, ops, n + 1).db == Commit(cfg, At(cfg, s, ops, n), ops[n])
  {
    assert ops[..n + 1] == ops[..n] + [ops[n]];
    RunSnoc(cfg, s, ops[..n], ops[n]);
  }

  lemma {:induction false} AtEnd(cfg: Config, s: Sys, ops: seq<Op>)
    ensures At(cfg, s, ops, |ops|) == Run(cfg, s, ops)
  {
    assert ops[..|ops|] == ops;
  }

  // ----- what one operation can do to statuses, trail and log -----------------------------

  predicate Bookkeeping(e: Event) {
    !e.TaskTransition? && !e.TaskFinished?
  }

  /** Statuses, prerequisites, priorities and the trail stay; the log grows by bookkeeping events. */
  ghost predicate Quiet(before: Db, after: Db) {
    && after.order == before.order
    && after.trail == before.trail
    && after.tasks.Keys == before.tasks.Keys
    && (forall t <- before.tasks ::
          after.tasks[t].status == before.tasks[t].status
          && after.tasks[t].dependsOn == before.tasks[t].dependsOn
          && after.tasks[t].priority == before.tasks[t].priority)
    && before.log <= after.log
    && forall e <- after.log[|before.log|..] :: Bookkeeping(e)
  }

  datatype Shape =
    | Still
    | Born(id: TaskId, deps: seq<TaskId>, priority: int)
    | HopOf(id: TaskId, to: Status, sets: Sets, before: Db)

  ghost predicate HasShape(s: Db, after: Db, op: Op, shape: Shape) {
    match shape
    case Still => Quiet(s, after)
    case Born(id, deps, priority) =>
      Fresh(s, id) && id !in deps && after == Enqueue(s, id, deps, priority).db
    case HopOf(id, to, sets, before) =>
      && Quiet(s, before) && before.log == s.log
      && id in before.tasks && Quiet(Move(before, id, to, sets), after)
      && s.tasks[id].status != to
      && (Unforced(op) ==> Legal(s.tasks[id].status, to))
      && (to == Claimed && !ClaimsUnready(s, op) ==> Ready(s, id))
      && (to == Approved || to == Merged ==> op.Hopping? && op.id == id && op.to == to)
  }

  lemma QuietRefl(db: Db)
    ensures Quiet(db, db)
  {
  }

  lemma QuietEmit(before: Db, db: Db, e: Event)
    requires Quiet(before, db) && Bookkeeping(e)
    ensures Quiet(before, Emit(db, e))
  {
  }

  lemma TransitionShape(s: Db, db: Db, id: TaskId, to: Status, expected: Option<set<Status>>,
                        sets: Sets, force: bool, op: Op) returns (shape: Shape)
    requires Quiet(s, db) && db.log == s.log
    requires force ==> !Unforced(op) || (id in s.tasks && Legal(s.tasks[id].status, to))
    requires to == Claimed ==> Ready(s, id)
    requires to != Approved && to != Merged
    ensures HasShape(s, Transition(db, id, to, expected, sets, force).db, op, shape)
    ensures shape == if Transition(db, id, to, expected, sets, force).reply == Moved
                     then HopOf(id, to, sets, db) else Still
  {
    var tx := Transition(db, id, to, expected, sets, force);
    if tx.reply == Moved {
      shape := HopOf(id, to, sets, db);
      QuietRefl(tx.db);
    } else {
      shape := Still;
    }
  }

  lemma ShapeEmit(s: Db, db: Db, e: Event, op: Op, shape: Shape)
    requires HasShape(s, db, op, shape) && !shape.Born? && Bookkeeping(e)
    ensures HasShape(s, Emit(db, e), op, shape)
  {
  }

  lemma NudgeShape(db: Db, id: TaskId)
    ensures Quiet(db, Nudge(db, id).db)
  {
  }

  lemma TouchIsQuiet(db: Db, id: TaskId, t: Task)
    requires id in db.tasks && t.status == db.tasks[id].status && t.dependsOn == db.tasks[id].dependsOn
    requires t.priority == db.tasks[id].priority
    ensures Quiet(db, Touch(db, id, t))
  {
  }

  /** The held row with its stall reason, before the drop. */
  function Stamped(db: Db, id: TaskId, reason: string): Db
    requires id in db.tasks
  {
    Touch(db, id, db.tasks[id].(stallReason := Some(reason)))
  }

  lemma EscalateIs(db: Db, id: TaskId, npr: nat, retries: nat, reason: string)
    requires id in db.tasks && Held(db.tasks[id].status)
    ensures EscalateStuck(db, id, npr, retries, reason).db
      == Emit(Move(Stamped(db, id, reason), id, Abandoned, NO_SETS.(result := Some(StuckNeedsReplan(npr, retries)))), TaskStuck(id))
  {
    assert Legal(db.tasks[id].status, Abandoned);
  }

  /** A legal hop to anything but claimed, approved and merged, after and before quiet changes. */
  lemma HopShape(s: Db, before: Db, id: TaskId, to: Status, sets: Sets, after: Db, op: Op)
    requires Quiet(s, before) && before.log == s.log && id in before.tasks
    requires s.tasks[id].status != to && Legal(s.tasks[id].status, to) && to != Claimed && to != Approved && to != Merged
    requires Quiet(Move(before, id, to, sets), after)
    ensures HasShape(s, after, op, HopOf(id, to, sets, before))
  {
  }

  lemma EscalateShape(db: Db, id: TaskId, npr: nat, retries: nat, reason: string, op: Op)
    returns (shape: Shape)
    ensures HasShape(db, EscalateStuck(db, id, npr, retries, reason).db, op, shape) && !shape.Born?
  {
    QuietRefl(db);
    shape := Still;
    if id in db.tasks && Held(db.tasks[id].status) {
      var stamped, sets := Stamped(db, id, reason), NO_SETS.(result := Some(StuckNeedsReplan(npr, retries)));
      var moved := Move(stamped, id, Abandoned, sets);
      assert Legal(db.tasks[id].status, Abandoned);
      EscalateIs(db, id, npr, retries, reason);
      TouchIsQuiet(db, id, db.tasks[id].(stallReason := Some(reason)));
      QuietRefl(moved);
      QuietEmit(moved, moved, TaskStuck(id));
      HopShape(db, stamped, id, Abandoned, sets, Emit(moved, TaskStuck(id)), op);
      shape := HopOf(id, Abandoned, sets, stamped);
    }
  }

  lemma FailShape(db: Db, id: TaskId, retries: nat, op: Op) returns (shape: Shape)
    ensures HasShape(db, FailExhausted(db, id, retries).db, op, shape) && !shape.Born?
  {
    var sets := NO_SETS.(result := Some(MaxRetriesExhausted(retries)));
    QuietRefl(db);
    shape := TransitionShape(db, db, id, Abandoned, Some(HELD_STATES), sets, false, op);
    if shape.HopOf? {
      ShapeEmit(db, Move(db, id, Abandoned, sets), TaskFailedExhausted(id), op, shape);
    }
  }

  /** The requeued row with its progress counted. */
  function Counted(moved: Db, id: TaskId, madeProgress: bool, now: Time): Db
    requires id in moved.tasks
  {
    var t := moved.tasks[id];
    Touch(moved, id, t.(noProgressRekicks := if madeProgress then 0 else t.noProgressRekicks + 1,
                        nudgedAt := None,
                        lastProgressAt := Some(now)))
  }

  lemma RekickIs(db: Db, id: TaskId, madeProgress: bool)
    requires id in db.tasks && Held(db.tasks[id].status)
    ensures Rekick(db, id, Some(madeProgress)).db
      == Emit(Counted(Move(db, id, UpForGrabs, REKICK_SETS), id, madeProgress, db.now), TaskRekicked(id, Some(madeProgress)))
  {
    assert Legal(db.tasks[id].status, UpForGrabs);
  }

  lemma RekickShape(db: Db, id: TaskId, madeProgress: bool, op: Op) returns (shape: Shape)
    ensures HasShape(db, Rekick(db, id, Some(madeProgress)).db, op, shape) && !shape.Born?
  {
    QuietRefl(db);
    shape := Still;
    if id in db.tasks && Held(db.tasks[id].status) {
      var moved := Move(db, id, UpForGrabs, REKICK_SETS);
      var counted := Counted(moved, id, madeProgress, db.now);
      assert Legal(db.tasks[id].status, UpForGrabs);
      RekickIs(db, id, madeProgress);
      TouchIsQuiet(moved, id, counted.tasks[id]);
      QuietEmit(moved, counted, TaskRekicked(id, Some(madeProgress)));
      HopShape(db, db, id, UpForGrabs, REKICK_SETS, Emit(counted, TaskRekicked(id, Some(madeProgress))), op);
      shape := HopOf(id, UpForGrabs, REKICK_SETS, db);
    }
  }

  lemma RecoverShape(cfg: Config, db: Db, id: TaskId, row: Task, sweepNow: Time,
                     madeProgress: bool, op: Op) returns (shape: Shape)
    ensures HasShape(db, Recover(cfg, db, id, row, sweepNow, madeProgress).db, op, shape)
    ensures !shape.Born?
  {
    QuietRefl(db);
    shape := Still;
    match Ladder(cfg, row, sweepNow)
    case RungNudge => NudgeShape(db, id);
    case RungDefer =>
    case RungEscalate =>
      shape := EscalateShape(db, id, row.noProgressRekicks, row.retries,
                             if row.stallReason.Some? && row.stallReason.value != ""
                             then row.stallReason.value else "no_progress", op);
    case RungFail => shape := FailShape(db, id, row.retries, op);
    case RungRekick => shape := RekickShape(db, id, madeProgress, op);
  }

  /** Every operation leaves statuses alone, creates one row, or makes exactly one hop. */
  lemma OpShape(cfg: Config, s: Sys, op: Op) returns (shape: Shape)
    ensures HasShape(s.db, Commit(cfg, s, op), op, shape)
    ensures shape.Born? ==> op.Create?
  {
    var db := s.db;
    QuietRefl(db);
    shape := Still;
    match op
    case Tick(_) =>
    case Create(id, deps, priority) =>
      if Fresh(db, id) && id !in deps {
        shape := Born(id, deps, priority);
      }
    case GrabTask(id, worker) =>
      if Ready(db, id) {
        shape := TransitionShape(db, db, id, Claimed, Some({UpForGrabs}), GrabSets(worker), false, op);
      }
    case StartTask(id) =>
      shape := TransitionShape(db, db, id, InProgress, Some({Claimed}),
                               NO_SETS.(setHeartbeat := true, setLastProgress := true), false, op);
    case Beat(_, _) =>
    case Hopping(_, _, _, _, _) => shape := HoppingShape(db, op);
    case ParkOnApproval(id, approval) =>
      shape := TransitionShape(db, db, id, Blocked, Some({InProgress}),
                               NO_SETS.(result := Some(BlockedOnApproval(approval))), false, op);
    case Resume(id, approval) => shape := ResumeShape(db, id, approval, op);
    case Ask(d, dependent) =>
      shape := AskShape(db, d, dependent, op);
    case Close(d, withdrawn) =>
      shape := CloseShape(db, d, if withdrawn then Withdrawn else Answered, op);
    case Scan(_) =>
    case Handle(madeProgress) =>
      if s.scan != [] {
        shape := RecoverShape(cfg, db, s.scan[0].id, s.scan[0].row, s.sweepNow, madeProgress, op);
      }
  }

  lemma HoppingShape(db: Db, op: Op) returns (shape: Shape)
    requires op.Hopping?
    ensures !shape.Born?
    ensures HasShape(db, Transition(db, op.id, op.to, op.expected, op.sets.(incrementRetries := false), op.force).db, op, shape)
  {
    var sets := op.sets.(incrementRetries := false);
    var tx := Transition(db, op.id, op.to, op.expected, sets, op.force);
    QuietRefl(db);
    QuietRefl(tx.db);
    shape := if tx.reply == Moved then HopOf(op.id, op.to, sets, db) else Still;
  }

  lemma ResumeShape(db: Db, id: TaskId, approval: Option<ApprovalStatus>, op: Op) returns (shape: Shape)
    ensures !shape.Born?
    ensures HasShape(db, ResumeApproved(db, id, approval).db, op, shape)
  {
    QuietRefl(db);
    shape := Still;
    if ResumeApproved(db, id, approval).reply != NoChange {
      if approval == Some(Granted) {
        var sets := NO_SETS.(clearClaim := true);
        shape := TransitionShape(db, db, id, UpForGrabs, Some({Blocked}), sets, false, op);
        ShapeEmit(db, Move(db, id, UpForGrabs, sets), ApprovalResumed(id), op, shape);
      } else {
        shape := TransitionShape(db, db, id, Abandoned, None, NO_SETS.(result := db.tasks[id].result), true, op);
      }
    }
  }

  lemma AskShape(db: Db, d: DecisionId, dependent: Option<TaskId>, op: Op) returns (shape: Shape)
    requires op.Ask?
    ensures !shape.Born?
    ensures HasShape(db, if d in db.decisions then db else RequestDecision(db, d, dependent).db, op, shape)
  {
    QuietRefl(db);
    shape := Still;
    if d !in db.decisions && RequestDecision(db, d, dependent).reply == Moved {
      var parked := db;
      if dependent.Some? {
        var sets := NO_SETS.(result := Some(BlockedOnDecision(d)));
        shape := TransitionShape(db, db, dependent.value, Blocked, Some({InProgress}), sets, false, op);
        parked := Move(db, dependent.value, Blocked, sets);
      }
      var recorded := parked.(decisions := parked.decisions[d := Decision(Open, dependent)]);
      ShapeEmit(db, recorded, DecisionRequested(d), op, shape);
    }
  }

  lemma CloseShape(db: Db, d: DecisionId, status: DecisionStatus, op: Op) returns (shape: Shape)
    requires op.Close?
    ensures !shape.Born?
    ensures HasShape(db, CloseDecision(db, d, status).db, op, shape)
  {
    QuietRefl(db);
    shape := Still;
    if d in db.decisions && db.decisions[d].status == Open {
      var dependent := db.decisions[d].dependent;
      var closed := db.(decisions := db.decisions[d := Decision(status, dependent)]);
      var resumed := closed;
      if dependent.Some? {
        shape := TransitionShape(db, closed, dependent.value, UpForGrabs, Some({Blocked}),
                                 NO_SETS.(clearClaim := true), false, op);
        resumed := RequeueBlocked(closed, dependent.value).db;
      }
      ShapeEmit(db, resumed, DecisionAnswered(d), op, shape);
    }
  }
}

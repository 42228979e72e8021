/** The rows of the coordination kernel as one value, and each committed transaction as a
    function on it (runtime/tasks.py, runtime/decisions.py, runtime/supervisor.py). The class
    in TaskStore.dfy is proved against these functions; the run theorems are about them. */
module Tables {
  import opened Common
  import opened Lifecycle

  type WorkerId = nat
  type ApprovalId = nat
  type DecisionId = nat
  type Time = int

  /** The `result` column: what parked or ended the task. */
  datatype Result =
    | BlockedOnApproval(approval: ApprovalId)
    | BlockedOnDecision(decision: DecisionId)
    | StuckNeedsReplan(noProgressRekicks: nat, retries: nat)
    | MaxRetriesExhausted(retries: nat)
    | Outcome(note: string)

  datatype Task = Task(
    status: Status,
    dependsOn: seq<TaskId>,
    priority: int,
    result: Option<Result>,
    claimedBy: Option<WorkerId>,
    claimedAt: Option<Time>,
    heartbeatAt: Option<Time>,
    lastProgressAt: Option<Time>,
    nudgedAt: Option<Time>,
    retries: nat,
    noProgressRekicks: nat,
    stallReason: Option<string>
  )

  datatype Event =
    | TaskCreated(task: TaskId)
    | TaskTransition(task: TaskId, from: Status, to: Status)
    | TaskFinished(task: TaskId)
    | TaskNudge(task: TaskId)
    | TaskRekicked(task: TaskId, madeProgress: Option<bool>)
    | TaskStuck(task: TaskId)
    | TaskFailedExhausted(task: TaskId)
    | DecisionRequested(decision: DecisionId)
    | DecisionAnswered(decision: DecisionId)
    | ApprovalResumed(task: TaskId)

  datatype DecisionStatus = Open | Answered | Withdrawn

  datatype Decision = Decision(status: DecisionStatus, dependent: Option<TaskId>)

  /** `order` lists the task ids in creation order (the created_at column). */
  datatype Db = Db(
    now: Time,
    order: seq<TaskId>,
    tasks: map<TaskId, Task>,
    trail: seq<Hop>,
    log: seq<Event>,
    decisions: map<DecisionId, Decision>
  )

  const EMPTY := Db(0, [], map[], [], [], map[])

  /** How a call ends: a changed row, None, or an exception (its transaction rolled back). */
  datatype Reply = Moved | NoChange | Raised

  datatype Tx = Tx(db: Db, reply: Reply)

  /** The optional column setters of `transition`. */
  datatype Sets = Sets(
    result: Option<Result>,
    claimedBy: Option<WorkerId>,
    setClaimedAt: bool,
    setHeartbeat: bool,
    clearClaim: bool,
    incrementRetries: bool,
    setLastProgress: bool
  )

  const NO_SETS := Sets(None, None, false, false, false, false, false)

  // ----- the single guarded writer -------------------------------------------------

  function UpdatedRow(t: Task, to: Status, o: Sets, now: Time): Task {
    t.(status := to,
       result := if o.result.Some? then o.result else t.result,
       claimedBy := if o.clearClaim then None else if o.claimedBy.Some? then o.claimedBy else t.claimedBy,
       claimedAt := if o.setClaimedAt then Some(now) else t.claimedAt,
       heartbeatAt := if o.clearClaim then None else if o.setHeartbeat then Some(now) else t.heartbeatAt,
       retries := if o.incrementRetries then t.retries + 1 else t.retries,
       lastProgressAt := if o.setLastProgress then Some(now) else t.lastProgressAt)
  }

  function Hopped(from: Status, to: Status, id: TaskId): seq<Event> {
    [TaskTransition(id, from, to)] + if Terminal(to) then [TaskFinished(id)] else []
  }

  /** The row change, its `task_transitions` row and its events, all or nothing. */
  function Move(db: Db, id: TaskId, to: Status, o: Sets): Db
    requires id in db.tasks
  {
    var t := db.tasks[id];
    db.(tasks := db.tasks[id := UpdatedRow(t, to, o, db.now)],
        trail := db.trail + [Hop(id, t.status, to)],
        log := db.log + Hopped(t.status, to, id))
  }

  function Transition(db: Db, id: TaskId, to: Status, expected: Option<set<Status>>,
                      o: Sets, force: bool): Tx
  {
    if id !in db.tasks then Tx(db, NoChange)
    else
      var current := db.tasks[id].status;
      if expected.Some? && current !in expected.value then Tx(db, NoChange)
      else if current == to then Tx(db, NoChange)
      else if !force && !Legal(current, to) then Tx(db, Raised)
      else Tx(Move(db, id, to, o), Moved)
  }

  function Touch(db: Db, id: TaskId, t: Task): Db {
    db.(tasks := db.tasks[id := t])
  }

  function Emit(db: Db, e: Event): Db {
    db.(log := db.log + [e])
  }

  // ----- enqueue, grab, start, heartbeat -------------------------------------------

  function NewTask(deps: seq<TaskId>, priority: int): Task {
    Task(UpForGrabs, deps, priority, None, None, None, None, None, None, 0, 0, None)
  }

  /** `id` is the uuid the database drew. */
  function Enqueue(db: Db, id: TaskId, deps: seq<TaskId>, priority: int): Tx
    requires id !in db.tasks
  {
    if id in deps then Tx(db, Raised)
    else
      Tx(db.(order := db.order + [id],
             tasks := db.tasks[id := NewTask(deps, priority)],
             log := db.log + [TaskCreated(id)]),
         Moved)
  }

  /** A prerequisite holds a task back when its row exists and is not merged; ids without a
      row do not. */
  predicate HoldsBack(db: Db, dep: TaskId) {
    dep in db.tasks && db.tasks[dep].status != Merged
  }

  /** `ready_tasks`: in the pool and nothing holds it back. */
  predicate Ready(db: Db, id: TaskId) {
    && id in db.tasks
    && db.tasks[id].status == UpForGrabs
    && forall dep <- db.tasks[id].dependsOn :: !HoldsBack(db, dep)
  }

  /** `waiting_tasks`: in the pool with at least one prerequisite that holds it back. */
  predicate Waiting(db: Db, id: TaskId) {
    && id in db.tasks
    && db.tasks[id].status == UpForGrabs
    && |db.tasks[id].dependsOn| > 0
    && exists dep <- db.tasks[id].dependsOn :: HoldsBack(db, dep)
  }

  predicate BlockedByAbandoned(db: Db, id: TaskId) {
    && Waiting(db, id)
    && exists dep <- db.tasks[id].dependsOn :: dep in db.tasks && db.tasks[dep].status == Abandoned
  }

  function GrabSets(worker: WorkerId): Sets {
    NO_SETS.(claimedBy := Some(worker), setClaimedAt := true, setHeartbeat := true)
  }

  /** The claim of one picked row. */
  function Grab(db: Db, id: TaskId, worker: WorkerId): Tx {
    if !Ready(db, id) then Tx(db, NoChange)
    else Transition(db, id, Claimed, Some({UpForGrabs}), GrabSets(worker), false)
  }

  function Start(db: Db, id: TaskId): Tx {
    Transition(db, id, InProgress, Some({Claimed}),
               NO_SETS.(setHeartbeat := true, setLastProgress := true), false)
  }

  function Heartbeat(db: Db, id: TaskId, worker: WorkerId): Tx {
    if id in db.tasks && db.tasks[id].claimedBy == Some(worker) && Held(db.tasks[id].status) then
      Tx(Touch(db, id, db.tasks[id].(heartbeatAt := Some(db.now), nudgedAt := None)), Moved)
    else
      Tx(db, NoChange)
  }

  // ----- completion and approval parking -------------------------------------------

  function Abandon(db: Db, id: TaskId, expected: Option<set<Status>>, result: Option<Result>,
                   force: bool): Tx
  {
    Transition(db, id, Abandoned, if force then None else expected,
               NO_SETS.(result := result), force)
  }

  /** The three hops of a success, each its own transaction; the first that does not move
      ends the call. */
  function CompleteMerged(db: Db, id: TaskId, expected: Option<set<Status>>,
                          result: Option<Result>, force: bool): Tx
  {
    var submitted := Transition(db, id, ReadyForReview, if force then None else expected,
                                NO_SETS.(result := result), force);
    if submitted.reply != Moved then submitted
    else
      var approved := Transition(submitted.db, id, Approved, None, NO_SETS, false);
      if approved.reply != Moved then approved
      else Transition(approved.db, id, Merged, None, NO_SETS, false)
  }

  function CompleteTask(db: Db, id: TaskId, status: Status, expected: Option<set<Status>>,
                        result: Option<Result>, force: bool): Tx
  {
    if !Terminal(status) then Tx(db, Raised)
    else if status == Merged then CompleteMerged(db, id, expected, result, force)
    else Abandon(db, id, expected, result, force)
  }

  function BlockTask(db: Db, id: TaskId, approval: ApprovalId): Tx {
    Transition(db, id, Blocked, Some({InProgress}),
               NO_SETS.(result := Some(BlockedOnApproval(approval))), false)
  }

  function RequeueBlocked(db: Db, id: TaskId): Tx {
    Transition(db, id, UpForGrabs, Some({Blocked}), NO_SETS.(clearClaim := true), false)
  }

  /** One task of `resume_approved`: read its approval, then requeue or fail it. `status` is
      what the approvals table says, None for a missing row. */
  function ResumeApproved(db: Db, id: TaskId, status: Option<ApprovalStatus>): Tx {
    if !(id in db.tasks && db.tasks[id].status == Blocked
         && db.tasks[id].result.Some? && db.tasks[id].result.value.BlockedOnApproval?) then
      Tx(db, NoChange)
    else if status == Some(Granted) then
      var tx := RequeueBlocked(db, id);
      if tx.reply == Moved then Tx(Emit(tx.db, ApprovalResumed(id)), Moved) else tx
    else if status == Some(Denied) then
      Abandon(db, id, None, db.tasks[id].result, true)
    else
      Tx(db, NoChange)
  }

  // ----- recovery rungs -------------------------------------------------------------

  function Nudge(db: Db, id: TaskId): Tx {
    if id in db.tasks && Held(db.tasks[id].status) && db.tasks[id].nudgedAt.None? then
      Tx(Emit(Touch(db, id, db.tasks[id].(nudgedAt := Some(db.now))), TaskNudge(id)), Moved)
    else
      Tx(db, NoChange)
  }

  const REKICK_SETS := NO_SETS.(clearClaim := true, incrementRetries := true)

  function Rekick(db: Db, id: TaskId, madeProgress: Option<bool>): Tx {
    if !(id in db.tasks && Held(db.tasks[id].status)) then Tx(db, NoChange)
    else
      var tx := Transition(db, id, UpForGrabs, None, REKICK_SETS, false);
      if tx.reply != Moved then Tx(db, NoChange)
      else
        var t := tx.db.tasks[id];
        var counted :=
          if madeProgress.None? then tx.db
          else Touch(tx.db, id, t.(
            noProgressRekicks := if madeProgress.value then 0 else t.noProgressRekicks + 1,
            nudgedAt := None,
            lastProgressAt := Some(db.now)));
        Tx(Emit(counted, TaskRekicked(id, madeProgress)), Moved)
  }

  const HELD_STATES := {Claimed, InProgress}

  function EscalateStuck(db: Db, id: TaskId, noProgressRekicks: nat, retries: nat,
                         reason: string): Tx
  {
    if !(id in db.tasks && Held(db.tasks[id].status)) then Tx(db, NoChange)
    else
      var stamped := Touch(db, id, db.tasks[id].(stallReason := Some(reason)));
      var tx := Abandon(stamped, id, Some(HELD_STATES),
                        Some(StuckNeedsReplan(noProgressRekicks, retries)), false);
      if tx.reply != Moved then tx
      else Tx(Emit(tx.db, TaskStuck(id)), Moved)
  }

  function FailExhausted(db: Db, id: TaskId, retries: nat): Tx {
    var tx := Abandon(db, id, Some(HELD_STATES), Some(MaxRetriesExhausted(retries)), false);
    if tx.reply == Moved then Tx(Emit(tx.db, TaskFailedExhausted(id)), Moved) else tx
  }

  // ----- decisions --------------------------------------------------------------------

  /** Park first, then record; a park that does not move raises and rolls everything back.
      `d` is the pre-generated decision id. */
  function RequestDecision(db: Db, d: DecisionId, dependent: Option<TaskId>): Tx
    requires d !in db.decisions
  {
    var parked :=
      if dependent.None? then Tx(db, Moved)
      else Transition(db, dependent.value, Blocked, Some({InProgress}),
                      NO_SETS.(result := Some(BlockedOnDecision(d))), false);
    if parked.reply != Moved then Tx(db, Raised)
    else
      var recorded := parked.db.(decisions := parked.db.decisions[d := Decision(Open, dependent)]);
      Tx(Emit(recorded, DecisionRequested(d)), Moved)
  }

  /** `answer_decision` and `withdraw_decision`: close an open decision, resume its task. */
  function CloseDecision(db: Db, d: DecisionId, status: DecisionStatus): Tx {
    if !(d in db.decisions && db.decisions[d].status == Open) then Tx(db, NoChange)
    else
      var dependent := db.decisions[d].dependent;
      var closed := db.(decisions := db.decisions[d := Decision(status, dependent)]);
      var resumed := if dependent.Some? then RequeueBlocked(closed, dependent.value).db else closed;
      Tx(Emit(resumed, DecisionAnswered(d)), Moved)
  }

  // ----- the supervisor's view ---------------------------------------------------------

  datatype Config = Config(staleAfter: Time, maxRetries: int, nudgeGrace: Time, stuckThreshold: int)

  /** The staleness predicate of `find_stale_tasks` and `is_stale`. */
  predicate Stale(t: Task, threshold: Time, now: Time) {
    Held(t.status) && (t.heartbeatAt.None? || t.heartbeatAt.value < now - threshold)
  }

  predicate GraceElapsed(t: Task, now: Time, grace: Time) {
    t.nudgedAt.None? || now - t.nudgedAt.value >= grace
  }

  datatype Rung = RungNudge | RungDefer | RungEscalate | RungFail | RungRekick

  /** Which rung a scanned row climbs. */
  function Ladder(cfg: Config, row: Task, now: Time): Rung {
    if cfg.nudgeGrace > 0 && row.nudgedAt.None? then RungNudge
    else if cfg.nudgeGrace > 0 && !GraceElapsed(row, now, cfg.nudgeGrace) then RungDefer
    else if row.noProgressRekicks >= cfg.stuckThreshold then RungEscalate
    else if row.retries >= cfg.maxRetries then RungFail
    else RungRekick
  }

  /** Handle one scanned row: the rung is chosen from the row as it was scanned, the write
      sees the row as it is now. */
  function Recover(cfg: Config, db: Db, id: TaskId, row: Task, sweepNow: Time,
                   madeProgress: bool): Tx
  {
    match Ladder(cfg, row, sweepNow)
    case RungNudge => Nudge(db, id)
    case RungDefer => Tx(db, NoChange)
    case RungEscalate =>
      EscalateStuck(db, id, row.noProgressRekicks, row.retries,
                    if row.stallReason.Some? && row.stallReason.value != "" then row.stallReason.value else "no_progress")
    case RungFail => FailExhausted(db, id, row.retries)
    case RungRekick => Rekick(db, id, Some(madeProgress))
  }
}

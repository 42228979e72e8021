/** One worker driving one `work.*` task (`_handle_work`, runtime/worker.py): a program whose
    every step is one transaction, alone and among others. */
module Worker {
  import opened Common
  import opened Lifecycle
  import opened Tables
  import opened Studio

  /** What the executor hands back: an artifact, or a call pended on an approval. */
  datatype Exec = Produced | Pended(approval: ApprovalId)

  datatype Ending =
    | Done                           // verified and merged
    | Failed                         // every attempt failed
    | Parked(approval: ApprovalId)   // blocked on an approval
    | NeverRan                       // no attempt allowed
    | Crashed                        // an illegal hop was requested

  /** Where the program stands; the number is the attempt. */
  datatype Pc =
    | Begin(n: nat)
    | Park(approval: ApprovalId)
    | Submitting(n: nat)
    | Submit(n: nat)
    | Verify(n: nat)
    | Approve
    | Finish
    | Reject(n: nat)
    | Retry(n: nat)
    | Drop
    | Stopped(ending: Ending)

  /** One transaction of the program. `exec` and `passed` are the executor's and the verifier's
      answers, used by the two steps that ask for them. */
  datatype StepResult = StepResult(db: Db, pc: Pc)

  function AfterHop(tx: Tx, next: Pc): StepResult {
    StepResult(tx.db, if tx.reply == Raised then Stopped(Crashed) else next)
  }

  function Step(db: Db, id: TaskId, worker: WorkerId, max: nat, pc: Pc, exec: Exec, passed: bool): StepResult {
    match pc
    case Begin(n) =>
      if n > max then StepResult(db, Stopped(NeverRan))
      else StepResult(Heartbeat(db, id, worker).db,
                      if exec.Pended? then Park(exec.approval) else Submitting(n))
    case Park(a) => StepResult(BlockTask(db, id, a).db, Stopped(Parked(a)))
    case Submitting(n) => StepResult(Heartbeat(db, id, worker).db, Submit(n))
    case Submit(n) =>
      AfterHop(Transition(db, id, ReadyForReview, None, NO_SETS.(result := Some(Outcome("artifact"))), false), Verify(n))
    case Verify(n) => StepResult(Heartbeat(db, id, worker).db, if passed then Approve else Reject(n))
    case Approve =>
      AfterHop(Transition(db, id, Approved, None, NO_SETS.(result := Some(Outcome("verified"))), false), Finish)
    case Finish =>
      AfterHop(Transition(db, id, Merged, None, NO_SETS.(result := Some(Outcome("verified"))), false), Stopped(Done))
    case Reject(n) =>
      AfterHop(Transition(db, id, ReviewerBlocked, None, NO_SETS.(result := Some(Outcome("rejected"))), false),
               if n < max then Retry(n) else Drop)
    case Retry(n) => AfterHop(Transition(db, id, InProgress, None, NO_SETS, false), Begin(n + 1))
    case Drop =>
      AfterHop(Transition(db, id, Abandoned, None, NO_SETS.(result := Some(Outcome("rejected"))), false), Stopped(Failed))
    case Stopped(_) => StepResult(db, pc)
  }

  // ----- alone ---------------------------------------------------------------------------------

  function Attempt(pc: Pc, max: nat): nat {
    match pc
    case Begin(n) => if n > max then 0 else max + 1 - n
    case Submitting(n) => if n > max then 0 else max + 1 - n
    case Submit(n) => if n > max then 0 else max + 1 - n
    case Verify(n) => if n > max then 0 else max + 1 - n
    case Reject(n) => if n > max then 0 else max + 1 - n
    case Retry(n) => if n > max then 0 else max + 1 - n
    case _ => 0
  }

  function Rank(pc: Pc): nat {
    match pc
    case Begin(_) => 8
    case Submitting(_) => 7
    case Submit(_) => 6
    case Verify(_) => 5
    case Reject(_) => 4
    case Retry(_) => 3
    case Approve => 2
    case Park(_) => 1
    case Finish => 1
    case Drop => 1
    case Stopped(_) => 0
  }

  /** The number the answers are indexed by. */
  function AttemptOf(pc: Pc): nat {
    match pc
    case Begin(n) => n
    case Verify(n) => n
    case _ => 0
  }

  /** What the program can see and change of its task. */
  datatype Seen = Seen(status: Status, result: Option<Result>)

  function View(db: Db, id: TaskId): Seen
    requires id in db.tasks
  {
    Seen(db.tasks[id].status, db.tasks[id].result)
  }

  datatype SeenStep = SeenStep(seen: Seen, pc: Pc)

  function SeenHop(v: Seen, to: Status, result: Option<Result>, next: Pc): SeenStep {
    if v.status == to then SeenStep(v, next)
    else if !Legal(v.status, to) then SeenStep(v, Stopped(Crashed))
    else SeenStep(Seen(to, if result.Some? then result else v.result), next)
  }

  /** The same step, as far as the task's status and result go. */
  function StepSeen(v: Seen, max: nat, pc: Pc, exec: Exec, passed: bool): SeenStep {
    match pc
    case Begin(n) =>
      SeenStep(v, if n > max then Stopped(NeverRan) else if exec.Pended? then Park(exec.approval) else Submitting(n))
    case Park(a) =>
      SeenStep(if v.status == InProgress then Seen(Blocked, Some(BlockedOnApproval(a))) else v, Stopped(Parked(a)))
    case Submitting(n) => SeenStep(v, Submit(n))
    case Submit(n) => SeenHop(v, ReadyForReview, Some(Outcome("artifact")), Verify(n))
    case Verify(n) => SeenStep(v, if passed then Approve else Reject(n))
    case Approve => SeenHop(v, Approved, Some(Outcome("verified")), Finish)
    case Finish => SeenHop(v, Merged, Some(Outcome("verified")), Stopped(Done))
    case Reject(n) => SeenHop(v, ReviewerBlocked, Some(Outcome("rejected")), if n < max then Retry(n) else Drop)
    case Retry(n) => SeenHop(v, InProgress, None, Begin(n + 1))
    case Drop => SeenHop(v, Abandoned, Some(Outcome("rejected")), Stopped(Failed))
    case Stopped(_) => SeenStep(v, pc)
  }

  /** The view is faithful: a step on the tables is the step on the view. */
  lemma StepIsSeen(db: Db, id: TaskId, worker: WorkerId, max: nat, pc: Pc, exec: Exec, passed: bool)
    requires id in db.tasks
    ensures var next := Step(db, id, worker, max, pc, exec, passed);
      && id in next.db.tasks
      && SeenStep(View(next.db, id), next.pc) == StepSeen(View(db, id), max, pc, exec, passed)
      && forall t <- db.tasks :: t != id ==> t in next.db.tasks && next.db.tasks[t] == db.tasks[t]
  {
  }

  /** Before it executes, before it submits and after the verdict the loop heartbeats: while it holds the
      task, each of these keeps the supervisor away for the whole threshold and closes an open nudge. */
  lemma PhasesHeartbeat(cfg: Config, db: Db, id: TaskId, worker: WorkerId, max: nat, pc: Pc, exec: Exec, passed: bool, now: Time)
    requires (pc.Begin? && pc.n <= max) || pc.Submitting? || pc.Verify?
    requires id in db.tasks && Held(db.tasks[id].status) && db.tasks[id].claimedBy == Some(worker)
    requires now <= db.now + cfg.staleAfter
    ensures var after := Step(db, id, worker, max, pc, exec, passed).db;
      && id in after.tasks && after.tasks[id].status == db.tasks[id].status
      && !Stale(after.tasks[id], cfg.staleAfter, now) && after.tasks[id].nudgedAt.None?
  {
  }

  datatype RunResult = RunResult(seen: Seen, ending: Ending, verifications: nat)

  /** The whole program with nobody in between. */
  function RunSeen(v: Seen, max: nat, pc: Pc, execs: nat -> Exec, verdicts: nat -> bool): RunResult
    decreases Attempt(pc, max), Rank(pc)
  {
    var next := StepSeen(v, max, pc, execs(AttemptOf(pc)), verdicts(AttemptOf(pc)));
    if pc.Stopped? then RunResult(v, pc.ending, 0)
    else if pc.Retry? && pc.n >= max then RunResult(next.seen, NeverRan, 0)  // no attempt left to begin
    else
      var rest := RunSeen(next.seen, max, next.pc, execs, verdicts);
      if pc.Verify? then rest.(verifications := rest.verifications + 1) else rest
  }

  /** One attempt in one piece: the task's view after it, how it ends the loop if it does, and
      whether the verifier was asked. */
  datatype AttemptResult = AttemptResult(seen: Seen, end: Option<Ending>, asked: bool)

  /** After the verdict: approve and merge, or reject and retry or drop. */
  function Conclude(v: Seen, max: nat, n: nat, passed: bool): AttemptResult {
    if passed then
      var approve := SeenHop(v, Approved, Some(Outcome("verified")), Finish);
      if approve.pc.Stopped? then AttemptResult(approve.seen, Some(Crashed), true)
      else
        var finish := SeenHop(approve.seen, Merged, Some(Outcome("verified")), Stopped(Done));
        AttemptResult(finish.seen, Some(finish.pc.ending), true)
    else
      var reject := SeenHop(v, ReviewerBlocked, Some(Outcome("rejected")), if n < max then Retry(n) else Drop);
      if reject.pc.Stopped? then AttemptResult(reject.seen, Some(Crashed), true)
      else
        var last := StepSeen(reject.seen, max, reject.pc, Produced, false);
        AttemptResult(last.seen, if last.pc.Stopped? then Some(last.pc.ending) else None, true)
  }

  function AttemptSeen(v: Seen, max: nat, n: nat, exec: Exec, passed: bool): AttemptResult {
    if exec.Pended? then
      AttemptResult(StepSeen(v, max, Park(exec.approval), exec, passed).seen, Some(Parked(exec.approval)), false)
    else
      var submit := SeenHop(v, ReadyForReview, Some(Outcome("artifact")), Verify(n));
      if submit.pc.Stopped? then AttemptResult(submit.seen, Some(Crashed), false)
      else Conclude(submit.seen, max, n, passed)
  }

  /** The step-by-step program goes through its attempts one after the other. */
  lemma AttemptByAttempt(v: Seen, max: nat, n: nat, execs: nat -> Exec, verdicts: nat -> bool)
    requires 1 <= n <= max
    ensures var a := AttemptSeen(v, max, n, execs(n), verdicts(n));
      RunSeen(v, max, Begin(n), execs, verdicts) ==
        if a.end.Some? then RunResult(a.seen, a.end.value, if a.asked then 1 else 0)
        else
          var rest := RunSeen(a.seen, max, Begin(n + 1), execs, verdicts);
          rest.(verifications := rest.verifications + 1)
    ensures AttemptSeen(v, max, n, execs(n), verdicts(n)).end.None? ==> n < max
  {
    var exec, passed := execs(n), verdicts(n);
    if exec.Pended? {
      var parked := StepSeen(v, max, Park(exec.approval), exec, passed).seen;
      assert RunSeen(v, max, Park(exec.approval), execs, verdicts)
        == RunSeen(parked, max, Stopped(Parked(exec.approval)), execs, verdicts);
    } else {
      assert RunSeen(v, max, Begin(n), execs, verdicts) == RunSeen(v, max, Submit(n), execs, verdicts) by {
        assert RunSeen(v, max, Begin(n), execs, verdicts) == RunSeen(v, max, Submitting(n), execs, verdicts);
      }
      var submit := StepSeen(v, max, Submit(n), exec, passed);
      if !submit.pc.Stopped? {
        assert RunSeen(v, max, Submit(n), execs, verdicts) == RunSeen(submit.seen, max, Verify(n), execs, verdicts);
        if passed {
          PassedOnwards(submit.seen, max, n, execs, verdicts);
        } else {
          FailedOnwards(submit.seen, max, n, execs, verdicts);
        }
      } else {
        assert RunSeen(v, max, Submit(n), execs, verdicts) == RunSeen(submit.seen, max, Stopped(Crashed), execs, verdicts);
      }
    }
  }

  lemma PassedOnwards(v: Seen, max: nat, n: nat, execs: nat -> Exec, verdicts: nat -> bool)
    requires 1 <= n <= max && verdicts(n)
    ensures var c := Conclude(v, max, n, true);
      c.end.Some? && RunSeen(v, max, Verify(n), execs, verdicts) == RunResult(c.seen, c.end.value, 1)
  {
    var approve := SeenHop(v, Approved, Some(Outcome("verified")), Finish);
    assert RunSeen(v, max, Approve, execs, verdicts) == RunSeen(approve.seen, max, approve.pc, execs, verdicts);
    if !approve.pc.Stopped? {
      var finish := SeenHop(approve.seen, Merged, Some(Outcome("verified")), Stopped(Done));
      assert RunSeen(approve.seen, max, Finish, execs, verdicts) == RunSeen(finish.seen, max, finish.pc, execs, verdicts);
    }
  }

  lemma FailedOnwards(v: Seen, max: nat, n: nat, execs: nat -> Exec, verdicts: nat -> bool)
    requires 1 <= n <= max && !verdicts(n)
    ensures var c := Conclude(v, max, n, false);
      RunSeen(v, max, Verify(n), execs, verdicts) ==
        if c.end.Some? then RunResult(c.seen, c.end.value, 1)
        else
          var rest := RunSeen(c.seen, max, Begin(n + 1), execs, verdicts);
          rest.(verifications := rest.verifications + 1)
    ensures Conclude(v, max, n, false).end.None? ==> n < max
  {
    var reject := SeenHop(v, ReviewerBlocked, Some(Outcome("rejected")), if n < max then Retry(n) else Drop);
    assert RunSeen(v, max, Reject(n), execs, verdicts) == RunSeen(reject.seen, max, reject.pc, execs, verdicts);
    if !reject.pc.Stopped? {
      var last := StepSeen(reject.seen, max, reject.pc, Produced, false);
      assert RunSeen(reject.seen, max, reject.pc, execs, verdicts) == RunSeen(last.seen, max, last.pc, execs, verdicts);
    }
  }

  /** The attempt loop. */
  function Attempts(v: Seen, max: nat, n: nat, execs: nat -> Exec, verdicts: nat -> bool): RunResult
    requires n <= max + 1
    decreases max + 1 - n
  {
    if n > max then RunResult(v, NeverRan, 0)
    else
      var a := AttemptSeen(v, max, n, execs(n), verdicts(n));
      if a.end.Some? then RunResult(a.seen, a.end.value, if a.asked then 1 else 0)
      else
        var rest := Attempts(a.seen, max, n + 1, execs, verdicts);
        rest.(verifications := rest.verifications + 1)
  }

  lemma AttemptsUnfold(v: Seen, max: nat, n: nat, execs: nat -> Exec, verdicts: nat -> bool)
    requires n <= max
    ensures var a := AttemptSeen(v, max, n, execs(n), verdicts(n));
      && (a.end.Some? ==> Attempts(v, max, n, execs, verdicts) == RunResult(a.seen, a.end.value, if a.asked then 1 else 0))
      && (a.end.None? ==> a.asked)
      && (a.end.None? ==>
            var rest := Attempts(a.seen, max, n + 1, execs, verdicts);
            Attempts(v, max, n, execs, verdicts) == rest.(verifications := rest.verifications + 1))
  {
  }

  /** The run is what the loop makes of the rest, after this many verifications. */
  predicate Remains(run: RunResult, count: nat, v: Seen, max: nat, n: nat, execs: nat -> Exec, verdicts: nat -> bool) {
    n <= max + 1 &&
    var rest := Attempts(v, max, n, execs, verdicts); run == rest.(verifications := count + rest.verifications)
  }

  /** One turn of the attempt loop. */
  lemma OneAttempt(run: RunResult, count: nat, v: Seen, max: nat, n: nat, execs: nat -> Exec, verdicts: nat -> bool)
    requires n <= max && Remains(run, count, v, max, n, execs, verdicts)
    ensures var a := AttemptSeen(v, max, n, execs(n), verdicts(n));
      && (a.end.Some? ==> run == RunResult(a.seen, a.end.value, if a.asked then count + 1 else count))
      && (a.end.None? ==> a.asked && Remains(run, count + 1, a.seen, max, n + 1, execs, verdicts))
  {
    AttemptsUnfold(v, max, n, execs, verdicts);
  }

  lemma {:induction false} AttemptsAreSteps(v: Seen, max: nat, n: nat, execs: nat -> Exec, verdicts: nat -> bool)
    requires 1 <= n <= max + 1
    ensures Attempts(v, max, n, execs, verdicts) == RunSeen(v, max, Begin(n), execs, verdicts)
    decreases max + 1 - n
  {
    if n > max {
      NoAttemptLeft(v, max, execs, verdicts);
    } else {
      AttemptByAttempt(v, max, n, execs, verdicts);
      AttemptsUnfold(v, max, n, execs, verdicts);
      var a := AttemptSeen(v, max, n, execs(n), verdicts(n));
      if a.end.None? {
        AttemptsAreSteps(a.seen, max, n + 1, execs, verdicts);
      }
    }
  }

  lemma NoAttemptLeft(v: Seen, max: nat, execs: nat -> Exec, verdicts: nat -> bool)
    ensures RunSeen(v, max, Begin(max + 1), execs, verdicts) == RunResult(v, NeverRan, 0)
  {
    assert RunSeen(v, max, Begin(max + 1), execs, verdicts) == RunSeen(v, max, Stopped(NeverRan), execs, verdicts);
  }

  /** The first attempt from n on that ends the loop early, max + 1 if none does. */
  function FirstStop(n: nat, max: nat, execs: nat -> Exec, verdicts: nat -> bool): (k: nat)
    requires n <= max + 1
    ensures n <= k <= max + 1
    ensures forall a :: n <= a < k ==> execs(a) == Produced && !verdicts(a)
    ensures k <= max ==> execs(k).Pended? || verdicts(k)
    decreases max + 1 - n
  {
    if n > max || execs(n).Pended? || verdicts(n) then n
    else FirstStop(n + 1, max, execs, verdicts)
  }

  /** Where the loop ends, from the answers alone. */
  function ExpectedEnding(max: nat, k: nat, execs: nat -> Exec): Ending {
    if k > max then Failed
    else if execs(k).Pended? then Parked(execs(k).approval)
    else Done
  }

  function EndStatus(e: Ending): Status {
    match e
    case Done => Merged
    case Parked(_) => Blocked
    case _ => Abandoned
  }

  /** The ending matches the answers, the row matches the ending. */
  predicate EndsAs(r: RunResult, ending: Ending) {
    && r.ending == ending
    && r.seen.status == EndStatus(ending)
    && (ending.Parked? ==> r.seen.result == Some(BlockedOnApproval(ending.approval)))
    && (ending.Done? ==> r.seen.result == Some(Outcome("verified")))
    && (ending.Failed? ==> r.seen.result == Some(Outcome("rejected")))
  }

  /** An attempt up to its verdict. */
  lemma ToVerdict(v: Seen, max: nat, n: nat, execs: nat -> Exec, verdicts: nat -> bool) returns (after: Seen)
    requires v.status == InProgress && 1 <= n <= max && execs(n) == Produced
    ensures after.status == ReadyForReview
    ensures var rest := RunSeen(after, max, if verdicts(n) then Approve else Reject(n), execs, verdicts);
      RunSeen(v, max, Begin(n), execs, verdicts) == rest.(verifications := rest.verifications + 1)
  {
    after := Seen(ReadyForReview, Some(Outcome("artifact")));
    assert RunSeen(v, max, Begin(n), execs, verdicts) == RunSeen(v, max, Submitting(n), execs, verdicts);
    assert RunSeen(v, max, Submit(n), execs, verdicts) == RunSeen(after, max, Verify(n), execs, verdicts);
  }

  /** A pended execution, a passing verdict or the last attempt ends the loop. */
  lemma LastAttempt(v: Seen, max: nat, n: nat, execs: nat -> Exec, verdicts: nat -> bool)
    requires v.status == InProgress
    requires 1 <= n <= max && (execs(n).Pended? || verdicts(n) || n == max)
    ensures var r := RunSeen(v, max, Begin(n), execs, verdicts);
      && EndsAs(r, if execs(n).Pended? then Parked(execs(n).approval) else if verdicts(n) then Done else Failed)
      && r.verifications == if execs(n).Pended? then 0 else 1
  {
    if execs(n).Pended? {
      var a := execs(n).approval;
      assert RunSeen(v, max, Park(a), execs, verdicts)
        == RunSeen(Seen(Blocked, Some(BlockedOnApproval(a))), max, Stopped(Parked(a)), execs, verdicts);
    } else {
      var reviewed := ToVerdict(v, max, n, execs, verdicts);
      if verdicts(n) {
        ApprovedEnds(reviewed, max, execs, verdicts);
      } else {
        RejectedEnds(reviewed, max, execs, verdicts);
      }
    }
  }

  lemma ApprovedEnds(v: Seen, max: nat, execs: nat -> Exec, verdicts: nat -> bool)
    requires v.status == ReadyForReview
    ensures var r := RunSeen(v, max, Approve, execs, verdicts);
      EndsAs(r, Done) && r.verifications == 0
  {
    var approved := Seen(Approved, Some(Outcome("verified")));
    assert RunSeen(v, max, Approve, execs, verdicts) == RunSeen(approved, max, Finish, execs, verdicts);
    assert RunSeen(approved, max, Finish, execs, verdicts)
      == RunSeen(approved.(status := Merged), max, Stopped(Done), execs, verdicts);
  }

  lemma RejectedEnds(v: Seen, max: nat, execs: nat -> Exec, verdicts: nat -> bool)
    requires v.status == ReadyForReview
    ensures var r := RunSeen(v, max, Reject(max), execs, verdicts);
      EndsAs(r, Failed) && r.verifications == 0
  {
    var rejected := Seen(ReviewerBlocked, Some(Outcome("rejected")));
    assert RunSeen(v, max, Reject(max), execs, verdicts) == RunSeen(rejected, max, Drop, execs, verdicts);
    assert RunSeen(rejected, max, Drop, execs, verdicts)
      == RunSeen(rejected.(status := Abandoned), max, Stopped(Failed), execs, verdicts);
  }

  /** Alone on an in_progress task with at least one attempt, the program never requests an
      illegal hop, ends merged, abandoned or blocked exactly as the answers say, and verifies
      once per attempt it completes. */
  lemma {:induction false} WorkAlone(v: Seen, max: nat, n: nat, execs: nat -> Exec, verdicts: nat -> bool)
    requires v.status == InProgress && 1 <= n <= max
    ensures var r := RunSeen(v, max, Begin(n), execs, verdicts);
      var k := FirstStop(n, max, execs, verdicts);
      && EndsAs(r, ExpectedEnding(max, k, execs))
      && r.verifications == (if k > max then max + 1 else if execs(k).Pended? then k else k + 1) - n
    decreases max - n
  {
    if execs(n).Pended? || verdicts(n) || n == max {
      LastAttempt(v, max, n, execs, verdicts);
    } else {
      var reviewed := ToVerdict(v, max, n, execs, verdicts);
      var rejected := Seen(ReviewerBlocked, Some(Outcome("rejected")));
      var again := rejected.(status := InProgress);
      assert RunSeen(reviewed, max, Reject(n), execs, verdicts) == RunSeen(rejected, max, Retry(n), execs, verdicts);
      assert RunSeen(rejected, max, Retry(n), execs, verdicts) == RunSeen(again, max, Begin(n + 1), execs, verdicts);
      WorkAlone(again, max, n + 1, execs, verdicts);
    }
  }

  /** What `_handle_work` does alone, for its attempt loop: no crash, at most max attempts
      verified, and merged iff the last verdict passed, abandoned iff every attempt failed,
      blocked iff an execution pended. */
  lemma HandledAlone(v: Seen, max: nat, execs: nat -> Exec, verdicts: nat -> bool)
    requires v.status == InProgress && max >= 1
    ensures var r := Attempts(v, max, 1, execs, verdicts);
      var k := FirstStop(1, max, execs, verdicts);
      && EndsAs(r, ExpectedEnding(max, k, execs))
      && r.ending != Crashed && r.ending != NeverRan
      && r.verifications <= max
      && (r.seen.status == Merged <==> k <= max && execs(k) == Produced && verdicts(k))
      && (r.seen.status == Abandoned <==> forall a :: 1 <= a <= max ==> execs(a) == Produced && !verdicts(a))
      && (r.seen.status == Blocked <==> k <= max && execs(k).Pended?)
  {
    AttemptsAreSteps(v, max, 1, execs, verdicts);
    WorkAlone(v, max, 1, execs, verdicts);
    var k := FirstStop(1, max, execs, verdicts);
    if forall a :: 1 <= a <= max ==> execs(a) == Produced && !verdicts(a) {
      assert k > max;
    }
  }

  // ----- among others ------------------------------------------------------------------------------

  datatype Agent = Agent(task: TaskId, worker: WorkerId, max: nat, pc: Pc)

  datatype Verdict = Verdict(task: TaskId, passed: bool)

  /** The kernel, any number of running workers, and the verdicts given so far. */
  datatype World = World(sys: Sys, agents: seq<Agent>, verdicts: seq<Verdict>)

  const EMPTY_WORLD := World(START, [], [])

  datatype Act =
    | Env(op: Op)
    | Hire(task: TaskId, worker: WorkerId, max: nat)
    | Work(agent: nat, exec: Exec, passed: bool)

  function Advance(cfg: Config, w: World, act: Act): World {
    match act
    case Env(op) => w.(sys := Apply(cfg, w.sys, op))
    case Hire(task, worker, max) => w.(agents := w.agents + [Agent(task, worker, max, Begin(1))])
    case Work(a, exec, passed) =>
      if a >= |w.agents| then w
      else
        var g := w.agents[a];
        var next := Step(w.sys.db, g.task, g.worker, g.max, g.pc, exec, passed);
        World(w.sys.(db := next.db), w.agents[a := g.(pc := next.pc)],
              w.verdicts + if g.pc.Verify? then [Verdict(g.task, passed)] else [])
  }

  function RunWorld(cfg: Config, w: World, acts: seq<Act>): World {
    if acts == [] then w
    else Advance(cfg, RunWorld(cfg, w, acts[..|acts| - 1]), acts[|acts| - 1])
  }

  /** Nobody but `_handle_work` workers approves or merges the task. */
  predicate DrivenByWorkers(id: TaskId, act: Act) {
    act.Env? && act.op.Hopping? && act.op.id == id ==> act.op.to != Approved && act.op.to != Merged
  }

  predicate ApprovedOrMerged(db: Db, id: TaskId) {
    id in db.tasks && (db.tasks[id].status == Approved || db.tasks[id].status == Merged)
  }

  /** Approved, merged, or about to be: some verdict on the task passed. */
  predicate EarnedMerge(w: World, id: TaskId) {
    && (ApprovedOrMerged(w.sys.db, id) ==> Verdict(id, true) in w.verdicts)
    && forall g <- w.agents :: g.task == id && (g.pc.Approve? || g.pc.Finish?) ==> Verdict(id, true) in w.verdicts
  }

  lemma ShapeEarnsNothing(before: Db, after: Db, op: Op, shape: Shape, id: TaskId)
    requires HasShape(before, after, op, shape) && DrivenByWorkers(id, Env(op)) && ApprovedOrMerged(after, id)
    ensures ApprovedOrMerged(before, id)
  {
  }

  lemma EnvKeepsEarned(cfg: Config, w: World, op: Op, id: TaskId)
    requires EarnedMerge(w, id) && DrivenByWorkers(id, Env(op))
    ensures EarnedMerge(Advance(cfg, w, Env(op)), id)
  {
    var shape := OpShape(cfg, w.sys, op);
    if ApprovedOrMerged(Commit(cfg, w.sys, op), id) {
      ShapeEarnsNothing(w.sys.db, Commit(cfg, w.sys, op), op, shape, id);
    }
  }

  /** A step of the loop approves or merges only from the two positions a passing verdict leads to. */
  lemma StepEarns(db: Db, g: Agent, exec: Exec, passed: bool, id: TaskId)
    ensures var next := Step(db, g.task, g.worker, g.max, g.pc, exec, passed);
      && (ApprovedOrMerged(next.db, id) && !ApprovedOrMerged(db, id) ==> g.task == id && (g.pc.Approve? || g.pc.Finish?))
      && (next.pc.Approve? ==> g.pc.Verify? && passed)
      && (next.pc.Finish? ==> g.pc.Approve?)
  {
  }

  lemma WorkKeepsEarned(cfg: Config, w: World, a: nat, exec: Exec, passed: bool, id: TaskId)
    requires EarnedMerge(w, id) && a < |w.agents|
    ensures EarnedMerge(Advance(cfg, w, Work(a, exec, passed)), id)
  {
    var g := w.agents[a];
    assert g in w.agents;
    var next := Advance(cfg, w, Work(a, exec, passed));
    StepEarns(w.sys.db, g, exec, passed, id);
    assert g.pc.Verify? && passed && g.task == id ==> next.verdicts[|w.verdicts|] == Verdict(id, true);
    forall h <- next.agents | h.task == id && (h.pc.Approve? || h.pc.Finish?)
      ensures Verdict(id, true) in next.verdicts
    {
      if h !in w.agents {
        assert h == next.agents[a];
      }
    }
  }

  /** Under any interference, a task only such workers approve or merge is never merged (nor
      approved) without a passing verdict on it. */
  lemma {:induction false} NoMergeWithoutPassingVerdict(cfg: Config, acts: seq<Act>, id: TaskId)
    requires forall act <- acts :: DrivenByWorkers(id, act)
    ensures EarnedMerge(RunWorld(cfg, EMPTY_WORLD, acts), id)
  {
    if acts != [] {
      var init := acts[..|acts| - 1];
      NoMergeWithoutPassingVerdict(cfg, init, id);
      var w := RunWorld(cfg, EMPTY_WORLD, init);
      match acts[|acts| - 1]
      case Env(op) =>
        assert DrivenByWorkers(id, acts[|acts| - 1]);
        EnvKeepsEarned(cfg, w, op, id);
      case Hire(_, _, _) =>
      case Work(a, exec, passed) => if a < |w.agents| { WorkKeepsEarned(cfg, w, a, exec, passed, id); }
    }
  }

  /** The i-th act is some loop's verifier giving this verdict. */
  predicate GaveVerdict(cfg: Config, acts: seq<Act>, i: nat, v: Verdict) {
    && i < |acts| && acts[i].Work? && acts[i].passed == v.passed
    && var agents := RunWorld(cfg, EMPTY_WORLD, acts[..i]).agents;
       acts[i].agent < |agents| && agents[acts[i].agent].task == v.task && agents[acts[i].agent].pc.Verify?
  }

  /** Every verdict on record was given. */
  lemma {:induction false} VerdictsWereGiven(cfg: Config, acts: seq<Act>, v: Verdict) returns (i: nat)
    requires v in RunWorld(cfg, EMPTY_WORLD, acts).verdicts
    ensures GaveVerdict(cfg, acts, i, v)
  {
    var init := acts[..|acts| - 1];
    if v in RunWorld(cfg, EMPTY_WORLD, init).verdicts {
      i := VerdictsWereGiven(cfg, init, v);
      assert init[..i] == acts[..i];
    } else {
      i := |acts| - 1;
    }
  }

  /** So when such a task is approved or merged, some verifier had passed it. */
  lemma MergeFollowsPassingVerdict(cfg: Config, acts: seq<Act>, id: TaskId) returns (i: nat)
    requires forall act <- acts :: DrivenByWorkers(id, act)
    requires ApprovedOrMerged(RunWorld(cfg, EMPTY_WORLD, acts).sys.db, id)
    ensures GaveVerdict(cfg, acts, i, Verdict(id, true))
  {
    NoMergeWithoutPassingVerdict(cfg, acts, id);
    i := VerdictsWereGiven(cfg, acts, Verdict(id, true));
  }
}

/** The supervisor finishes what its workers do not: a silent task that keeps being offered, waited for and
    swept becomes terminal. */
module Recovery {
  import opened Common
  import opened Lifecycle
  import opened Tables
  import opened Studio
  import opened L = Ladder

  // ----- no stamp lies in the future ---------------------------------------------------------------

  predicate Past(stamp: Option<Time>, now: Time) {
    stamp.Some? ==> stamp.value <= now
  }

  ghost predicate StampsArePast(db: Db) {
    forall id <- db.tasks :: Past(db.tasks[id].heartbeatAt, db.now) && Past(db.tasks[id].nudgedAt, db.now)
  }

  lemma TransitionKeepsStamps(db: Db, id: TaskId, to: Status, expected: Option<set<Status>>, sets: Sets, force: bool)
    requires StampsArePast(db)
    ensures StampsArePast(Transition(db, id, to, expected, sets, force).db)
  {
  }

  lemma RekickKeepsStamps(db: Db, id: TaskId, madeProgress: Option<bool>)
    requires StampsArePast(db)
    ensures StampsArePast(Rekick(db, id, madeProgress).db)
  {
    TransitionKeepsStamps(db, id, UpForGrabs, None, REKICK_SETS, false);
  }

  lemma DropsKeepStamps(db: Db, id: TaskId, npr: nat, retries: nat, reason: string)
    requires StampsArePast(db)
    ensures StampsArePast(EscalateStuck(db, id, npr, retries, reason).db)
    ensures StampsArePast(FailExhausted(db, id, retries).db)
  {
    TransitionKeepsStamps(db, id, Abandoned, Some(HELD_STATES), NO_SETS.(result := Some(MaxRetriesExhausted(retries))), false);
    if id in db.tasks {
      var stamped := Touch(db, id, db.tasks[id].(stallReason := Some(reason)));
      TransitionKeepsStamps(stamped, id, Abandoned, Some(HELD_STATES),
                            NO_SETS.(result := Some(StuckNeedsReplan(npr, retries))), false);
    }
  }

  lemma RecoverKeepsStamps(cfg: Config, db: Db, id: TaskId, row: Task, sweepNow: Time, madeProgress: bool)
    requires StampsArePast(db)
    ensures StampsArePast(Recover(cfg, db, id, row, sweepNow, madeProgress).db)
  {
    match Ladder(cfg, row, sweepNow)
    case RungNudge =>
    case RungDefer =>
    case RungRekick => RekickKeepsStamps(db, id, Some(madeProgress));
    case _ =>
      DropsKeepStamps(db, id, row.noProgressRekicks, row.retries,
                      if row.stallReason.Some? && row.stallReason.value != "" then row.stallReason.value else "no_progress");
  }

  lemma ParkingKeepsStamps(db: Db, d: DecisionId, dependent: Option<TaskId>, status: DecisionStatus)
    requires StampsArePast(db)
    ensures d !in db.decisions ==> StampsArePast(RequestDecision(db, d, dependent).db)
    ensures StampsArePast(CloseDecision(db, d, status).db)
  {
  }

  lemma StepKeepsStamps(cfg: Config, s: Sys, op: Op)
    requires StampsArePast(s.db)
    ensures StampsArePast(Commit(cfg, s, op))
  {
    match op
    case Handle(madeProgress) =>
      if s.scan != [] {
        RecoverKeepsStamps(cfg, s.db, s.scan[0].id, s.scan[0].row, s.sweepNow, madeProgress);
      }
    case Hopping(id, to, expected, sets, force) =>
      TransitionKeepsStamps(s.db, id, to, expected, sets.(incrementRetries := false), force);
    case Ask(d, dependent) => ParkingKeepsStamps(s.db, d, dependent, Answered);
    case Close(d, withdrawn) => ParkingKeepsStamps(s.db, d, None, if withdrawn then Withdrawn else Answered);
    case Resume(id, approval) => ResumeKeepsStamps(s.db, id, approval);
    case _ => PlainOpsKeepStamps(cfg, s, op);
  }

  lemma ResumeKeepsStamps(db: Db, id: TaskId, approval: Option<ApprovalStatus>)
    requires StampsArePast(db)
    ensures StampsArePast(ResumeApproved(db, id, approval).db)
  {
  }

  lemma PlainOpsKeepStamps(cfg: Config, s: Sys, op: Op)
    requires StampsArePast(s.db)
    requires op.Tick? || op.Create? || op.GrabTask? || op.StartTask? || op.Beat? || op.ParkOnApproval? || op.Scan?
    ensures StampsArePast(Commit(cfg, s, op))
  {
    match op
    case GrabTask(id, worker) => TransitionKeepsStamps(s.db, id, Claimed, Some({UpForGrabs}), GrabSets(worker), false);
    case StartTask(id) =>
      TransitionKeepsStamps(s.db, id, InProgress, Some({Claimed}), NO_SETS.(setHeartbeat := true, setLastProgress := true), false);
    case ParkOnApproval(id, approval) =>
      TransitionKeepsStamps(s.db, id, Blocked, Some({InProgress}), NO_SETS.(result := Some(BlockedOnApproval(approval))), false);
    case _ =>
  }

  lemma {:induction false} RunKeepsStamps(cfg: Config, s: Sys, ops: seq<Op>)
    requires StampsArePast(s.db)
    ensures StampsArePast(Run(cfg, s, ops).db)
  {
    if ops != [] {
      RunKeepsStamps(cfg, s, ops[..|ops| - 1]);
      StepKeepsStamps(cfg, Run(cfg, s, ops[..|ops| - 1]), ops[|ops| - 1]);
    }
  }

  // ----- one round -------------------------------------------------------------------------------------

  /** Anything the silence allows; then a worker is offered the task, the supervisor waits past the stale
      threshold and the grace, and sweeps every stale row. */
  datatype Round = Round(idle: seq<Op>, worker: WorkerId, wait: nat, pick: seq<TaskId>, progress: seq<bool>)

  function Handles(progress: seq<bool>): seq<Op> {
    seq(|progress|, i requires 0 <= i < |progress| => Handle(progress[i]))
  }

  function Offer(id: TaskId, r: Round): seq<Op> {
    [GrabTask(id, r.worker), StartTask(id), Tick(r.wait)]
  }

  function RoundOps(id: TaskId, r: Round): seq<Op> {
    r.idle + Offer(id, r) + [Scan(r.pick)] + Handles(r.progress)
  }

  /** `find_stale_tasks` returns every stale row once. */
  ghost predicate FullScan(cfg: Config, db: Db, pick: seq<TaskId>) {
    Scannable(cfg, db, pick) && forall id <- db.tasks :: Stale(db.tasks[id], cfg.staleAfter, db.now) ==> id in pick
  }

  /** The round fits the state it starts in. */
  ghost predicate Serves(cfg: Config, s: Sys, id: TaskId, r: Round) {
    && (forall op <- r.idle :: SilentFor(id, op))
    && (var rested := Run(cfg, s, r.idle).db;
        id in rested.tasks && (rested.tasks[id].status == UpForGrabs ==> Ready(rested, id)))
    && r.wait > cfg.staleAfter && r.wait >= cfg.nudgeGrace
    && FullScan(cfg, Run(cfg, s, r.idle + Offer(id, r)).db, r.pick)
    && |r.progress| == |r.pick|
  }

  lemma {:induction false} RunConcat(cfg: Config, s: Sys, a: seq<Op>, b: seq<Op>)
    ensures Run(cfg, s, a + b) == Run(cfg, Run(cfg, s, a), b)
  {
    if b == [] {
      assert a + b == a;
    } else {
      var n := |b| - 1;
      RunConcat(cfg, s, a, b[..n]);
      assert (a + b)[..|a| + n] == a + b[..n];
    }
  }

  /** What every state of a silent run has. */
  ghost predicate SilentState(cfg: Config, s: Sys, id: TaskId) {
    && LadderHolds(cfg, s) && StampsArePast(s.db)
    && id in s.db.tasks && SilentStatus(s.db.tasks[id].status)
  }

  function Left(cfg: Config, s: Sys, id: TaskId): int
    requires id in s.db.tasks
  {
    StepsLeft(cfg, s.db.tasks[id])
  }

  lemma SilentOps(cfg: Config, s: Sys, ops: seq<Op>, id: TaskId)
    requires SilentState(cfg, s, id) && forall op <- ops :: SilentFor(id, op)
    ensures SilentState(cfg, Run(cfg, s, ops), id) && Left(cfg, Run(cfg, s, ops), id) <= Left(cfg, s, id)
  {
    SilentRun(cfg, s, ops, id);
    RunKeepsStamps(cfg, s, ops);
  }

  /** An operation that changes the row, and anything silent after it. */
  lemma ChangeThenSilence(cfg: Config, s: Sys, op: Op, rest: seq<Op>, id: TaskId)
    requires SilentState(cfg, s, id) && SilentFor(id, op) && forall o <- rest :: SilentFor(id, o)
    requires id in Commit(cfg, s, op).tasks && Commit(cfg, s, op).tasks[id] != s.db.tasks[id]
    ensures var end := Run(cfg, s, [op] + rest);
      SilentState(cfg, end, id) && Left(cfg, end, id) < Left(cfg, s, id)
  {
    var next := Apply(cfg, s, op);
    SilentStep(cfg, s, op, id);
    RunSnoc(cfg, s, [], op);
    assert [] + [op] == [op];
    SilentOps(cfg, s, [op], id);
    SilentOps(cfg, next, rest, id);
    RunConcat(cfg, s, [op], rest);
  }

  /** A sweep reaches the row as it was scanned. */
  lemma {:induction false} SweepReaches(cfg: Config, s: Sys, progress: seq<bool>, k: nat)
    requires k <= |progress| && k < |s.scan| == |progress|
    requires forall i, j :: 0 <= i < j < |s.scan| ==> s.scan[i].id != s.scan[j].id
    requires s.scan[k].id in s.db.tasks
    ensures var t := Run(cfg, s, Handles(progress[..k])); var id := s.scan[k].id;
      && t.scan == s.scan[k..] && t.sweepNow == s.sweepNow && t.db.now == s.db.now
      && id in t.db.tasks && t.db.tasks[id] == s.db.tasks[id]
  {
    SweepStays(cfg, s, progress, k, s.scan[k].id, k);
  }

  lemma {:induction false} SweepStays(cfg: Config, s: Sys, progress: seq<bool>, k: nat, id: TaskId, i: nat)
    requires i <= k < |s.scan| == |progress| && s.scan[k].id == id && id in s.db.tasks
    requires forall a, b :: 0 <= a < b < |s.scan| ==> s.scan[a].id != s.scan[b].id
    ensures var t := Run(cfg, s, Handles(progress[..i]));
      && t.scan == s.scan[i..] && t.sweepNow == s.sweepNow && t.db.now == s.db.now
      && id in t.db.tasks && t.db.tasks[id] == s.db.tasks[id]
  {
    if i > 0 {
      SweepStays(cfg, s, progress, k, id, i - 1);
      assert Handles(progress[..i]) == Handles(progress[..i - 1]) + [Handle(progress[i - 1])];
      RunSnoc(cfg, s, Handles(progress[..i - 1]), Handle(progress[i - 1]));
      assert s.scan[i - 1..][0] == s.scan[i - 1] && s.scan[i - 1..][1..] == s.scan[i..];
      HandlingStays(cfg, Run(cfg, s, Handles(progress[..i - 1])), progress[i - 1], id);
    }
  }

  /** Handling another row leaves this one, and the sweep's clock. */
  lemma HandlingStays(cfg: Config, t: Sys, madeProgress: bool, id: TaskId)
    requires t.scan != [] && t.scan[0].id != id && id in t.db.tasks
    ensures var next := Apply(cfg, t, Handle(madeProgress));
      && next.scan == t.scan[1..] && next.sweepNow == t.sweepNow && next.db.now == t.db.now
      && id in next.db.tasks && next.db.tasks[id] == t.db.tasks[id]
  {
    RecoverTouchesOne(cfg, t.db, t.scan[0].id, t.scan[0].row, t.sweepNow, madeProgress);
  }

  lemma ScanThen(cfg: Config, s: Sys, pick: seq<TaskId>, rest: seq<Op>, id: TaskId)
    requires SilentState(cfg, s, id) && Scannable(cfg, s.db, pick)
    ensures var scanned := Sys(s.db, Rows(s.db, pick), s.db.now);
      SilentState(cfg, scanned, id) && Run(cfg, s, [Scan(pick)] + rest) == Run(cfg, scanned, rest)
  {
    RunSnoc(cfg, s, [], Scan(pick));
    assert [] + [Scan(pick)] == [Scan(pick)];
    SilentOps(cfg, s, [Scan(pick)], id);
    RunConcat(cfg, s, [Scan(pick)], rest);
  }

  /** The sweep handles the row as it is now. */
  lemma {:induction false} HandlingLowers(cfg: Config, t: Sys, madeProgress: bool, rest: seq<Op>, id: TaskId)
    requires SilentState(cfg, t, id) && forall o <- rest :: SilentFor(id, o)
    requires t.scan != [] && t.scan[0] == Scanned(id, t.db.tasks[id]) && t.sweepNow == t.db.now
    requires Stale(t.db.tasks[id], cfg.staleAfter, t.db.now) && GraceElapsed(t.db.tasks[id], t.db.now, cfg.nudgeGrace)
    ensures var end := Run(cfg, t, [Handle(madeProgress)] + rest);
      SilentState(cfg, end, id) && Left(cfg, end, id) < Left(cfg, t, id)
  {
    StaleTaskMoves(cfg, t.db, id, madeProgress);
    ChangeThenSilence(cfg, t, Handle(madeProgress), rest, id);
  }

  lemma HandlesSplit(progress: seq<bool>, k: nat)
    requires k < |progress|
    ensures Handles(progress) == Handles(progress[..k]) + ([Handle(progress[k])] + Handles(progress[k + 1..]))
  {
  }

  /** A full sweep of a waited-for task changes its row. */
  lemma SweepLowers(cfg: Config, s: Sys, pick: seq<TaskId>, progress: seq<bool>, id: TaskId)
    requires SilentState(cfg, s, id) && FullScan(cfg, s.db, pick) && |progress| == |pick|
    requires Stale(s.db.tasks[id], cfg.staleAfter, s.db.now) && GraceElapsed(s.db.tasks[id], s.db.now, cfg.nudgeGrace)
    ensures var end := Run(cfg, s, [Scan(pick)] + Handles(progress));
      SilentState(cfg, end, id) && Left(cfg, end, id) < Left(cfg, s, id)
  {
    ScanThen(cfg, s, pick, Handles(progress), id);
    assert id in pick;
    var k :| 0 <= k < |pick| && pick[k] == id;
    SweepOfRowLowers(cfg, Sys(s.db, Rows(s.db, pick), s.db.now), progress, k, id);
  }

  lemma SweepOfRowLowers(cfg: Config, scanned: Sys, progress: seq<bool>, k: nat, id: TaskId)
    requires SilentState(cfg, scanned, id) && scanned.sweepNow == scanned.db.now
    requires k < |scanned.scan| == |progress| && scanned.scan[k] == Scanned(id, scanned.db.tasks[id])
    requires Stale(scanned.db.tasks[id], cfg.staleAfter, scanned.db.now)
    requires GraceElapsed(scanned.db.tasks[id], scanned.db.now, cfg.nudgeGrace)
    ensures var end := Run(cfg, scanned, Handles(progress));
      SilentState(cfg, end, id) && Left(cfg, end, id) < Left(cfg, scanned, id)
  {
    var before, rest := Handles(progress[..k]), Handles(progress[k + 1..]);
    HandlesSplit(progress, k);
    SweepReaches(cfg, scanned, progress, k);
    SilentOps(cfg, scanned, before, id);
    HandlingLowers(cfg, Run(cfg, scanned, before), progress[k], rest, id);
    RunConcat(cfg, scanned, before, [Handle(progress[k])] + rest);
  }

  /** Waiting makes a held task stale and past its grace. */
  lemma WaitingMakesStale(cfg: Config, s: Sys, wait: nat, id: TaskId)
    requires SilentState(cfg, s, id) && Held(s.db.tasks[id].status) && wait > cfg.staleAfter && wait >= cfg.nudgeGrace
    ensures var t := Apply(cfg, s, Tick(wait));
      && SilentState(cfg, t, id) && t.db.tasks == s.db.tasks
      && Stale(t.db.tasks[id], cfg.staleAfter, t.db.now) && GraceElapsed(t.db.tasks[id], t.db.now, cfg.nudgeGrace)
  {
    RunSnoc(cfg, s, [], Tick(wait));
    assert [] + [Tick(wait)] == [Tick(wait)];
    SilentOps(cfg, s, [Tick(wait)], id);
  }

  /** Offered to a worker, a pooled or claimed task moves; one in progress is as it was. */
  lemma {:induction false} OfferMoves(cfg: Config, s: Sys, worker: WorkerId, rest: seq<Op>, id: TaskId)
    requires SilentState(cfg, s, id) && (s.db.tasks[id].status == UpForGrabs || s.db.tasks[id].status == Claimed)
    requires s.db.tasks[id].status == UpForGrabs ==> Ready(s.db, id)
    requires forall o <- rest :: SilentFor(id, o)
    ensures var end := Run(cfg, s, [GrabTask(id, worker), StartTask(id)] + rest);
      SilentState(cfg, end, id) && Left(cfg, end, id) < Left(cfg, s, id)
  {
    var grab, start := GrabTask(id, worker), StartTask(id);
    if s.db.tasks[id].status == UpForGrabs {
      assert [grab, start] + rest == [grab] + ([start] + rest);
      ChangeThenSilence(cfg, s, grab, [start] + rest, id);
    } else {
      assert [grab, start] + rest == [grab] + ([start] + rest);
      RunSnoc(cfg, s, [], grab);
      assert [] + [grab] == [grab];
      assert Run(cfg, s, [grab]) == s;
      RunConcat(cfg, s, [grab], [start] + rest);
      ChangeThenSilence(cfg, s, start, rest, id);
    }
  }

  lemma OfferKeepsRunning(cfg: Config, s: Sys, worker: WorkerId, wait: nat, id: TaskId)
    requires id in s.db.tasks && s.db.tasks[id].status == InProgress
    ensures Run(cfg, s, [GrabTask(id, worker), StartTask(id), Tick(wait)]) == Apply(cfg, s, Tick(wait))
  {
    var ops := [GrabTask(id, worker), StartTask(id), Tick(wait)];
    assert ops[..2][..1] == ops[..1] && ops[..1][..0] == [];
    assert Run(cfg, s, ops[..1]) == s;
    assert Run(cfg, s, ops[..2]) == s;
  }

  /** A round brings a silent task closer to its end. */
  lemma RoundLowers(cfg: Config, s: Sys, id: TaskId, r: Round)
    requires SilentState(cfg, s, id) && Serves(cfg, s, id, r)
    ensures var end := Run(cfg, s, RoundOps(id, r));
      && SilentState(cfg, end, id)
      && (Terminal(end.db.tasks[id].status) || Left(cfg, end, id) < Left(cfg, s, id))
  {
    var rested := Run(cfg, s, r.idle);
    var core := Offer(id, r) + ([Scan(r.pick)] + Handles(r.progress));
    assert RoundOps(id, r) == r.idle + core;
    SilentOps(cfg, s, r.idle, id);
    RunConcat(cfg, s, r.idle, core);
    RunConcat(cfg, s, r.idle, Offer(id, r));
    CoreLowers(cfg, rested, id, r);
  }

  lemma CoreLowers(cfg: Config, s: Sys, id: TaskId, r: Round)
    requires SilentState(cfg, s, id) && (s.db.tasks[id].status == UpForGrabs ==> Ready(s.db, id))
    requires r.wait > cfg.staleAfter && r.wait >= cfg.nudgeGrace && |r.progress| == |r.pick|
    requires FullScan(cfg, Run(cfg, s, Offer(id, r)).db, r.pick)
    ensures var end := Run(cfg, s, Offer(id, r) + ([Scan(r.pick)] + Handles(r.progress)));
      && SilentState(cfg, end, id)
      && (Terminal(end.db.tasks[id].status) || Left(cfg, end, id) < Left(cfg, s, id))
  {
    var sweep := [Scan(r.pick)] + Handles(r.progress);
    if Terminal(s.db.tasks[id].status) {
      SilentOps(cfg, s, Offer(id, r) + sweep, id);
      TerminalHasNoStepsLeft(cfg, Run(cfg, s, Offer(id, r) + sweep), id);
    } else if s.db.tasks[id].status == InProgress {
      OfferKeepsRunning(cfg, s, r.worker, r.wait, id);
      WaitingMakesStale(cfg, s, r.wait, id);
      SweepLowers(cfg, Apply(cfg, s, Tick(r.wait)), r.pick, r.progress, id);
      RunConcat(cfg, s, Offer(id, r), sweep);
    } else {
      assert Offer(id, r) + sweep == [GrabTask(id, r.worker), StartTask(id)] + ([Tick(r.wait)] + sweep);
      OfferMoves(cfg, s, r.worker, [Tick(r.wait)] + sweep, id);
    }
  }

  /** The measure is zero exactly at the end. */
  lemma TerminalHasNoStepsLeft(cfg: Config, s: Sys, id: TaskId)
    requires SilentState(cfg, s, id)
    ensures Left(cfg, s, id) >= 0 && (Left(cfg, s, id) == 0 <==> Terminal(s.db.tasks[id].status))
  {
    assert CountersMatch(cfg, s.db, id);
  }

  // ----- many rounds ---------------------------------------------------------------------------------------

  function AllRounds(id: TaskId, rounds: seq<Round>): seq<Op> {
    if rounds == [] then [] else AllRounds(id, rounds[..|rounds| - 1]) + RoundOps(id, rounds[|rounds| - 1])
  }

  ghost predicate AllServe(cfg: Config, s: Sys, id: TaskId, rounds: seq<Round>) {
    rounds != [] ==>
      var init := rounds[..|rounds| - 1];
      AllServe(cfg, s, id, init) && Serves(cfg, Run(cfg, s, AllRounds(id, init)), id, rounds[|rounds| - 1])
  }

  lemma {:induction false} RoundsLower(cfg: Config, s: Sys, id: TaskId, rounds: seq<Round>)
    requires SilentState(cfg, s, id) && AllServe(cfg, s, id, rounds)
    ensures var end := Run(cfg, s, AllRounds(id, rounds));
      && SilentState(cfg, end, id)
      && (Terminal(end.db.tasks[id].status) || Left(cfg, end, id) <= Left(cfg, s, id) - |rounds|)
  {
    if rounds != [] {
      var init, r := rounds[..|rounds| - 1], rounds[|rounds| - 1];
      RoundsLower(cfg, s, id, init);
      var mid := Run(cfg, s, AllRounds(id, init));
      RunConcat(cfg, s, AllRounds(id, init), RoundOps(id, r));
      RoundLowers(cfg, mid, id, r);
      TerminalHasNoStepsLeft(cfg, mid, id);
      TerminalHasNoStepsLeft(cfg, Run(cfg, mid, RoundOps(id, r)), id);
    }
  }

  /** After 4 * (max_retries + 1) rounds in each of which it is offered to a worker, waited for past the stale
      threshold and the grace, and swept, a task whose workers stay silent is terminal. */
  lemma SilentTaskEnds(cfg: Config, setup: seq<Op>, rounds: seq<Round>, id: TaskId)
    requires var db := Run(cfg, START, setup).db;
      id in db.tasks && db.tasks[id].status == UpForGrabs && db.tasks[id].retries == 0
    requires AllServe(cfg, Run(cfg, START, setup), id, rounds) && |rounds| >= 4 * (L.Ceiling(cfg) + 1)
    ensures var db := Run(cfg, Run(cfg, START, setup), AllRounds(id, rounds)).db;
      id in db.tasks && Terminal(db.tasks[id].status)
  {
    var s := Run(cfg, START, setup);
    RunsKeepLadder(cfg, setup);
    RunKeepsStamps(cfg, START, setup);
    RoundsLower(cfg, s, id, rounds);
    TerminalHasNoStepsLeft(cfg, Run(cfg, s, AllRounds(id, rounds)), id);
  }
}

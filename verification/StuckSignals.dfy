/** Why the dispatcher meets each stuck task once: in unforced runs of the kernel a task has at most one
    `task.stuck` event, so the kernel's log, however its commits are delayed, has at most one per task. */
module StuckSignals {
  import opened Common
  import opened Lifecycle
  import opened Tables
  import opened Studio
  import D = Dispatch
  import L = Ladder
  import Trail

  function StuckCount(log: seq<Event>, id: TaskId): nat {
    if log == [] then 0
    else StuckCount(log[..|log| - 1], id) + if log[|log| - 1] == TaskStuck(id) then 1 else 0
  }

  lemma {:induction false} StuckCountAppend(log: seq<Event>, extra: seq<Event>, id: TaskId)
    ensures StuckCount(log + extra, id) == StuckCount(log, id) + StuckCount(extra, id)
  {
    if extra == [] {
      assert log + extra == log;
    } else {
      var n := |extra| - 1;
      assert (log + extra)[..|log| + n] == log + extra[..n];
      StuckCountAppend(log, extra[..n], id);
    }
  }

  lemma {:induction false} NoStuckEvents(extra: seq<Event>, id: TaskId)
    requires forall e <- extra :: !e.TaskStuck?
    ensures StuckCount(extra, id) == 0
  {
    if extra != [] {
      assert extra[|extra| - 1] in extra;
      NoStuckEvents(extra[..|extra| - 1], id);
    }
  }

  /** The events a recovery appends: the hop's, then the rung's. */
  lemma EscalateSignalsOnce(db: Db, id: TaskId, npr: nat, retries: nat, reason: string, t: TaskId)
    ensures var after := EscalateStuck(db, id, npr, retries, reason).db; var held := id in db.tasks && Held(db.tasks[id].status);
      && StuckCount(after.log, t) == StuckCount(db.log, t) + (if held && t == id then 1 else 0)
      && (held ==> id in after.tasks && after.tasks[id].status == Abandoned)
  {
    if id in db.tasks && Held(db.tasks[id].status) {
      var hops := Hopped(db.tasks[id].status, Abandoned, id);
      assert EscalateStuck(db, id, npr, retries, reason).db.log == db.log + (hops + [TaskStuck(id)]);
      StuckCountAppend(db.log, hops + [TaskStuck(id)], t);
      StuckCountAppend(hops, [TaskStuck(id)], t);
      NoStuckEvents(hops, t);
      assert [TaskStuck(id)][..0] == [];
    }
  }

  lemma QuietAppend(log: seq<Event>, extra: seq<Event>, t: TaskId)
    requires forall e <- extra :: !e.TaskStuck?
    ensures StuckCount(log + extra, t) == StuckCount(log, t)
  {
    StuckCountAppend(log, extra, t);
    NoStuckEvents(extra, t);
  }

  lemma RekickIsQuiet(db: Db, id: TaskId, madeProgress: Option<bool>, t: TaskId)
    ensures StuckCount(Rekick(db, id, madeProgress).db.log, t) == StuckCount(db.log, t)
  {
    if id in db.tasks && Held(db.tasks[id].status) {
      var extra := Hopped(db.tasks[id].status, UpForGrabs, id) + [TaskRekicked(id, madeProgress)];
      assert Rekick(db, id, madeProgress).db.log == db.log + extra;
      QuietAppend(db.log, extra, t);
    }
  }

  lemma FailIsQuiet(db: Db, id: TaskId, retries: nat, t: TaskId)
    ensures StuckCount(FailExhausted(db, id, retries).db.log, t) == StuckCount(db.log, t)
  {
    if FailExhausted(db, id, retries).reply == Moved {
      var extra := Hopped(db.tasks[id].status, Abandoned, id) + [TaskFailedExhausted(id)];
      assert FailExhausted(db, id, retries).db.log == db.log + extra;
      QuietAppend(db.log, extra, t);
    }
  }

  /** No other rung signals. */
  lemma OtherRungsAreQuiet(cfg: Config, db: Db, id: TaskId, row: Task, sweepNow: Time, madeProgress: bool, t: TaskId)
    requires Ladder(cfg, row, sweepNow) != RungEscalate
    ensures StuckCount(Recover(cfg, db, id, row, sweepNow, madeProgress).db.log, t) == StuckCount(db.log, t)
  {
    match Ladder(cfg, row, sweepNow)
    case RungNudge =>
      if Nudge(db, id).reply == Moved {
        QuietAppend(db.log, [TaskNudge(id)], t);
      }
    case RungDefer =>
    case RungRekick => RekickIsQuiet(db, id, Some(madeProgress), t);
    case RungFail => FailIsQuiet(db, id, row.retries, t);
  }

  predicate SignalledOnce(db: Db, id: TaskId) {
    StuckCount(db.log, id) <= if id in db.tasks && Terminal(db.tasks[id].status) then 1 else 0
  }

  lemma {:induction false} OtherOpsAreQuiet(cfg: Config, s: Sys, op: Op, id: TaskId)
    requires !op.Handle? || s.scan == []
    ensures StuckCount(Commit(cfg, s, op).log, id) == StuckCount(s.db.log, id)
  {
    if !op.Handle? {
      L.OtherOpsKeepCounters(cfg, s, op);
      var after := Commit(cfg, s, op);
      var extra := after.log[|s.db.log|..];
      assert after.log == s.db.log + extra;
      StuckCountAppend(s.db.log, extra, id);
      NoStuckEvents(extra, id);
    }
  }

  /** Before and after an operation that signals: a held task is dropped. */
  ghost predicate Signals(before: Db, after: Db, id: TaskId) {
    && StuckCount(after.log, id) == StuckCount(before.log, id) + 1
    && id in before.tasks && Held(before.tasks[id].status) && id in after.tasks && after.tasks[id].status == Abandoned
  }

  /** A signal comes only with the drop of a held task. */
  lemma RecoverySignals(cfg: Config, db: Db, r: Scanned, sweepNow: Time, madeProgress: bool, id: TaskId)
    ensures var after := Recover(cfg, db, r.id, r.row, sweepNow, madeProgress).db;
      StuckCount(after.log, id) == StuckCount(db.log, id) || Signals(db, after, id)
  {
    if Ladder(cfg, r.row, sweepNow) == RungEscalate {
      EscalateSignalsOnce(db, r.id, r.row.noProgressRekicks, r.row.retries,
                          if r.row.stallReason.Some? && r.row.stallReason.value != ""
                          then r.row.stallReason.value else "no_progress", id);
    } else {
      OtherRungsAreQuiet(cfg, db, r.id, r.row, sweepNow, madeProgress, id);
    }
  }

  lemma StepKeepsOnce(cfg: Config, s: Sys, op: Op, id: TaskId)
    requires SignalledOnce(s.db, id) && Unforced(op)
    ensures SignalledOnce(Commit(cfg, s, op), id)
  {
    if id in s.db.tasks && Terminal(s.db.tasks[id].status) {
      Trail.StepKeepsTerminal(cfg, s, op, id);
    }
    if op.Handle? && s.scan != [] {
      RecoverySignals(cfg, s.db, s.scan[0], s.sweepNow, op.madeProgress, id);
    } else {
      OtherOpsAreQuiet(cfg, s, op, id);
    }
  }

  /** In every unforced run a task has at most one `task.stuck` event, and none while it is not terminal. */
  lemma {:induction false} StuckAtMostOnce(cfg: Config, ops: seq<Op>, id: TaskId)
    requires forall op <- ops :: Unforced(op)
    ensures SignalledOnce(Run(cfg, START, ops).db, id)
  {
    if ops != [] {
      var init := ops[..|ops| - 1];
      StuckAtMostOnce(cfg, init, id);
      assert Unforced(ops[|ops| - 1]);
      StepKeepsOnce(cfg, Run(cfg, START, init), ops[|ops| - 1], id);
    }
  }

  // ----- as the dispatcher reads it -----------------------------------------------------------------

  /** The dispatcher's log carries the kernel's events in their order; which have committed may lag. */
  ghost predicate Carries(log: D.Log, events: seq<Event>) {
    && |log| <= |events|
    && forall i :: 0 <= i < |log| ==>
         log[i].kind == if events[i].TaskStuck? then D.Stuck(Some(events[i].task)) else D.Other
  }

  lemma {:induction false} TwoSignalsCountTwo(events: seq<Event>, i: nat, j: nat, id: TaskId)
    requires i < j < |events| && events[i] == TaskStuck(id) && events[j] == TaskStuck(id)
    ensures StuckCount(events, id) >= 2
  {
    var n := |events| - 1;
    if j < n {
      TwoSignalsCountTwo(events[..n], i, j, id);
    } else {
      OneSignalCounts(events[..n], i, id);
    }
  }

  lemma {:induction false} OneSignalCounts(events: seq<Event>, i: nat, id: TaskId)
    requires i < |events| && events[i] == TaskStuck(id)
    ensures StuckCount(events, id) >= 1
  {
    if i < |events| - 1 {
      OneSignalCounts(events[..|events| - 1], i, id);
    }
  }

  lemma SameSignal(log: D.Log, events: seq<Event>, p: nat, q: nat, t: TaskId)
    requires Carries(log, events) && StuckCount(events, t) <= 1
    requires 0 < p <= |log| && 0 < q <= |log| && D.TaskAt(log, p) == Some(t) && D.TaskAt(log, q) == Some(t)
    ensures p == q
  {
    assert log[p - 1].kind == D.Stuck(Some(t)) && events[p - 1] == TaskStuck(t);
    assert log[q - 1].kind == D.Stuck(Some(t)) && events[q - 1] == TaskStuck(t);
    if p < q {
      TwoSignalsCountTwo(events, p - 1, q - 1, t);
    } else if q < p {
      TwoSignalsCountTwo(events, q - 1, p - 1, t);
    }
  }

  /** The dispatcher's assumption holds of what the kernel writes, whatever has committed so far. */
  lemma KernelIsOncePerTask(cfg: Config, ops: seq<Op>, log: D.Log)
    requires forall op <- ops :: Unforced(op)
    requires Carries(log, Run(cfg, START, ops).db.log)
    ensures D.OncePerTask(log)
  {
    var events := Run(cfg, START, ops).db.log;
    forall q: nat | 0 < q <= |log| && D.Visible(log[q - 1])
      ensures D.TaskAt(log, q).Some? && D.OnlyEventOf(log, q, D.TaskAt(log, q).value)
    {
      assert log[q - 1].kind == D.Stuck(Some(events[q - 1].task));
      var t := D.TaskAt(log, q).value;
      StuckAtMostOnce(cfg, ops, t);
      forall p: nat | 0 < p <= |log| && D.Visible(log[p - 1]) && D.TaskAt(log, p) == Some(t) ensures p == q {
        SameSignal(log, events, p, q, t);
      }
    }
  }
}

/** The trail theorems: replaying a task's events yields its status, the event log and the
    `task_transitions` table agree hop by hop, and in unforced runs every hop is legal,
    terminal states absorb, `task.finished` is unique and merged trails have one shape. */
module Trail {
  import opened Common
  import opened Lifecycle
  import opened Tables
  import opened Studio

  /** The `task.transition` events of a log, as hops. */
  function TransitionEvents(log: seq<Event>): seq<Hop> {
    if log == [] then []
    else
      var e := log[|log| - 1];
      TransitionEvents(log[..|log| - 1])
      + if e.TaskTransition? then [Hop(e.task, e.from, e.to)] else []
  }

  function FinishedCount(log: seq<Event>, id: TaskId): nat {
    if log == [] then 0
    else
      FinishedCount(log[..|log| - 1], id)
      + if log[|log| - 1] == TaskFinished(id) then 1 else 0
  }

  lemma {:induction false} LogAppend(log: seq<Event>, extra: seq<Event>, id: TaskId)
    ensures TransitionEvents(log + extra) == TransitionEvents(log) + TransitionEvents(extra)
    ensures FinishedCount(log + extra, id) == FinishedCount(log, id) + FinishedCount(extra, id)
  {
    if extra == [] {
      assert log + extra == log;
    } else {
      var n := |extra| - 1;
      assert (log + extra)[..|log| + n] == log + extra[..n];
      LogAppend(log, extra[..n], id);
    }
  }

  lemma {:induction false} BookkeepingIsSilent(extra: seq<Event>, id: TaskId)
    requires forall e <- extra :: Bookkeeping(e)
    ensures TransitionEvents(extra) == [] && FinishedCount(extra, id) == 0
  {
    if extra != [] {
      BookkeepingIsSilent(extra[..|extra| - 1], id);
      assert Bookkeeping(extra[|extra| - 1]);
    }
  }

  // ----- invariants -------------------------------------------------------------------

  /** Holds in every run, forced or not. */
  ghost predicate Chained(db: Db) {
    && TransitionEvents(db.log) == db.trail
    && (forall h <- db.trail :: h.task in db.tasks)
    && forall id <- db.tasks :: Replay(PathOf(db.trail, id)) == Some(db.tasks[id].status)
  }

  predicate FinishedOnce(db: Db, id: TaskId) {
    FinishedCount(db.log, id) == if id in db.tasks && Terminal(db.tasks[id].status) then 1 else 0
  }

  /** Holds in every unforced run. */
  ghost predicate Lawful(db: Db) {
    && AllLegal(db.trail)
    && forall id: TaskId :: FinishedOnce(db, id)
  }

  lemma {:induction false} NoHopsNoPath(trail: seq<Hop>, id: TaskId)
    requires forall h <- trail :: h.task != id
    ensures PathOf(trail, id) == []
  {
    if trail != [] {
      NoHopsNoPath(trail[..|trail| - 1], id);
    }
  }

  lemma QuietKeepsTrail(before: Db, after: Db)
    requires Quiet(before, after)
    ensures TransitionEvents(after.log) == TransitionEvents(before.log)
    ensures forall id :: FinishedCount(after.log, id) == FinishedCount(before.log, id)
    ensures Chained(before) ==> Chained(after)
    ensures Lawful(before) ==> Lawful(after)
  {
    var extra := after.log[|before.log|..];
    assert after.log == before.log + extra;
    forall id ensures FinishedCount(after.log, id) == FinishedCount(before.log, id) {
      LogAppend(before.log, extra, id);
      BookkeepingIsSilent(extra, id);
    }
    LogAppend(before.log, extra, 0);
    BookkeepingIsSilent(extra, 0);
    if Lawful(before) {
      forall id: TaskId ensures FinishedOnce(after, id) {
        assert FinishedOnce(before, id);
      }
    }
  }

  lemma HoppedEvents(from: Status, to: Status, id: TaskId, other: TaskId)
    ensures TransitionEvents(Hopped(from, to, id)) == [Hop(id, from, to)]
    ensures FinishedCount(Hopped(from, to, id), other) == if other == id && Terminal(to) then 1 else 0
  {
    var h := [TaskTransition(id, from, to)];
    assert TransitionEvents(h) == [Hop(id, from, to)] && FinishedCount(h, other) == 0;
    if Terminal(to) {
      assert Hopped(from, to, id)[..1] == h;
    } else {
      assert Hopped(from, to, id) == h;
    }
  }

  lemma MoveKeepsChain(db: Db, id: TaskId, to: Status, sets: Sets)
    requires Chained(db) && id in db.tasks
    ensures Chained(Move(db, id, to, sets))
  {
    var from := db.tasks[id].status;
    var after := Move(db, id, to, sets);
    LogAppend(db.log, Hopped(from, to, id), id);
    HoppedEvents(from, to, id, id);
    forall t <- after.tasks ensures Replay(PathOf(after.trail, t)) == Some(after.tasks[t].status) {
      PathOfAppend(db.trail, Hop(id, from, to), t);
      if t == id {
        ReplayAppend(PathOf(db.trail, id), Hop(id, from, to));
      } else {
        assert PathOf(after.trail, t) == PathOf(db.trail, t);
      }
    }
  }

  lemma MoveKeepsLaw(db: Db, id: TaskId, to: Status, sets: Sets)
    requires Lawful(db) && id in db.tasks && Legal(db.tasks[id].status, to)
    ensures Lawful(Move(db, id, to, sets))
  {
    var from := db.tasks[id].status;
    var after := Move(db, id, to, sets);
    forall t: TaskId ensures FinishedOnce(after, t) {
      assert FinishedOnce(db, t);
      LogAppend(db.log, Hopped(from, to, id), t);
      HoppedEvents(from, to, id, t);
    }
  }

  lemma BirthKeepsTrail(db: Db, id: TaskId, deps: seq<TaskId>, priority: int)
    requires Chained(db) && id !in db.tasks && id !in deps
    ensures Chained(Enqueue(db, id, deps, priority).db)
    ensures Lawful(db) ==> Lawful(Enqueue(db, id, deps, priority).db)
  {
    var after := Enqueue(db, id, deps, priority).db;
    NoHopsNoPath(db.trail, id);
    assert after.log[..|db.log|] == db.log;
    if Lawful(db) {
      forall t: TaskId ensures FinishedOnce(after, t) {
        assert FinishedOnce(db, t);
        assert after.log[|db.log|] == TaskCreated(id);
      }
    }
  }

  lemma StepKeepsTrail(cfg: Config, s: Sys, op: Op)
    requires Chained(s.db)
    ensures Chained(Commit(cfg, s, op))
    ensures Lawful(s.db) && Unforced(op) ==> Lawful(Commit(cfg, s, op))
  {
    var shape := OpShape(cfg, s, op);
    match shape
    case Still => QuietKeepsTrail(s.db, Commit(cfg, s, op));
    case Born(id, deps, priority) => BirthKeepsTrail(s.db, id, deps, priority);
    case HopOf(id, to, sets, before) =>
      QuietKeepsTrail(s.db, before);
      MoveKeepsChain(before, id, to, sets);
      if Lawful(s.db) && Unforced(op) {
        MoveKeepsLaw(before, id, to, sets);
      }
      QuietKeepsTrail(Move(before, id, to, sets), Commit(cfg, s, op));
  }

  // ----- theorems ----------------------------------------------------------------------

  lemma {:induction false} RunsAreChained(cfg: Config, ops: seq<Op>)
    ensures Chained(Run(cfg, START, ops).db)
    ensures (forall op <- ops :: Unforced(op)) ==> Lawful(Run(cfg, START, ops).db)
  {
    if ops != [] {
      var init := ops[..|ops| - 1];
      RunsAreChained(cfg, init);
      StepKeepsTrail(cfg, Run(cfg, START, init), ops[|ops| - 1]);
    }
  }

  /** Replaying one task's `task.transition` events yields its status, and they are its
      `task_transitions` rows; no assumption on `force`. */
  lemma {:induction false} ReplayYieldsStatus(cfg: Config, ops: seq<Op>, id: TaskId)
    requires id in Run(cfg, START, ops).db.tasks
    ensures var db := Run(cfg, START, ops).db;
      Replay(PathOf(TransitionEvents(db.log), id)) == Some(db.tasks[id].status)
      && PathOf(TransitionEvents(db.log), id) == PathOf(db.trail, id)
  {
    RunsAreChained(cfg, ops);
  }

  lemma {:induction false} LegalPath(trail: seq<Hop>, id: TaskId)
    requires AllLegal(trail)
    ensures AllLegal(PathOf(trail, id))
  {
    PathOfIsSubsequence(trail, id);
  }

  /** Claimed once, and then in_progress, ready_for_review, approved, merged to the end. */
  predicate MergedHistory(p: seq<Hop>, id: TaskId) {
    && |p| >= 5
    && p[|p| - 1] == Hop(id, Approved, Merged)
    && p[|p| - 2] == Hop(id, ReadyForReview, Approved)
    && p[|p| - 3] == Hop(id, InProgress, ReadyForReview)
    && p[|p| - 4].to == InProgress
    && exists i :: 0 <= i < |p| - 4 && p[i] == Hop(id, UpForGrabs, Claimed)
  }

  lemma MergedHasHistory(p: seq<Hop>, id: TaskId)
    requires forall h <- p :: h.task == id
    requires AllLegal(p) && Replay(p) == Some(Merged)
    ensures MergedHistory(p, id)
  {
    var claim := MergedTrailShape(p);
    assert p[claim] in p && p[|p| - 1] in p && p[|p| - 2] in p && p[|p| - 3] in p;
    assert p[claim] == Hop(id, UpForGrabs, Claimed);
  }

  /** In an unforced run: only legal hops, `task.finished` exactly once iff terminal, and a
      merged task has the one merged history. */
  lemma {:induction false} UnforcedTrail(cfg: Config, ops: seq<Op>, id: TaskId)
    requires forall op <- ops :: Unforced(op)
    ensures var db := Run(cfg, START, ops).db;
      && AllLegal(db.trail)
      && FinishedCount(db.log, id) <= 1
      && (FinishedCount(db.log, id) == 1 <==> id in db.tasks && Terminal(db.tasks[id].status))
      && (id in db.tasks && db.tasks[id].status == Merged ==> MergedHistory(PathOf(db.trail, id), id))
  {
    RunsAreChained(cfg, ops);
    var db := Run(cfg, START, ops).db;
    assert FinishedOnce(db, id);
    if id in db.tasks && db.tasks[id].status == Merged {
      LegalPath(db.trail, id);
      PathOfIsSubsequence(db.trail, id);
      MergedHasHistory(PathOf(db.trail, id), id);
    }
  }

  lemma NoHopFromTerminal(before: Db, after: Db, op: Op, shape: Shape, id: TaskId)
    requires id in before.tasks && Terminal(before.tasks[id].status)
    requires HasShape(before, after, op, shape) && Unforced(op)
    ensures shape.HopOf? ==> shape.id != id
  {
  }

  lemma ShapeKeepsTerminal(before: Db, after: Db, op: Op, shape: Shape, id: TaskId)
    requires id in before.tasks && Terminal(before.tasks[id].status)
    requires HasShape(before, after, op, shape) && Unforced(op)
    ensures id in after.tasks && after.tasks[id].status == before.tasks[id].status
    ensures PathOf(after.trail, id) == PathOf(before.trail, id)
  {
    NoHopFromTerminal(before, after, op, shape, id);
    if shape.HopOf? {
      PathOfAppend(before.trail, Hop(shape.id, before.tasks[shape.id].status, shape.to), id);
    }
  }

  lemma StepKeepsTerminal(cfg: Config, s: Sys, op: Op, id: TaskId)
    requires id in s.db.tasks && Terminal(s.db.tasks[id].status) && Unforced(op)
    ensures var after := Commit(cfg, s, op);
      && id in after.tasks && after.tasks[id].status == s.db.tasks[id].status
      && PathOf(after.trail, id) == PathOf(s.db.trail, id)
  {
    var shape := OpShape(cfg, s, op);
    ShapeKeepsTerminal(s.db, Commit(cfg, s, op), op, shape, id);
  }

  /** Once terminal, an unforced run changes neither the status nor the trail of a task. */
  lemma {:induction false} TerminalAbsorbs(cfg: Config, s: Sys, ops: seq<Op>, id: TaskId)
    requires id in s.db.tasks && Terminal(s.db.tasks[id].status)
    requires forall op <- ops :: Unforced(op)
    ensures var after := Run(cfg, s, ops).db;
      && id in after.tasks && after.tasks[id].status == s.db.tasks[id].status
      && PathOf(after.trail, id) == PathOf(s.db.trail, id)
  {
    if ops != [] {
      var init := ops[..|ops| - 1];
      TerminalAbsorbs(cfg, s, init, id);
      StepKeepsTerminal(cfg, Run(cfg, s, init), ops[|ops| - 1], id);
    }
  }
}

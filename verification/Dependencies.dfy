/** The dependency-gated queue: the pool never deadlocks itself, and work only ever starts on
    top of merged prerequisites. */
module Dependencies {
  import opened Common
  import opened Lifecycle
  import opened Tables
  import opened Studio

  /** Every existing prerequisite of the i-th created task is older than it. */
  ghost predicate OlderPrerequisites(db: Db, i: nat)
    requires i < |db.order| && db.order[i] in db.tasks
  {
    forall dep <- db.tasks[db.order[i]].dependsOn :: dep in db.tasks ==> dep in db.order[..i]
  }

  ghost predicate WellFounded(db: Db) {
    && Distinct(db.order)
    && (forall t :: t in db.order <==> t in db.tasks)
    && forall i :: 0 <= i < |db.order| ==> OlderPrerequisites(db, i)
  }

  lemma BirthKeepsOrder(db: Db, id: TaskId, deps: seq<TaskId>, priority: int)
    requires WellFounded(db) && Fresh(db, id) && id !in deps
    ensures WellFounded(Enqueue(db, id, deps, priority).db)
  {
    var after := Enqueue(db, id, deps, priority).db;
    forall i | 0 <= i < |after.order| ensures OlderPrerequisites(after, i) {
      assert after.order[..i] == db.order[..i];
      if i < |db.order| {
        assert OlderPrerequisites(db, i);
        assert db.order[i] in db.order;
      } else {
        assert db.order[..i] == db.order;
      }
    }
  }

  lemma StepKeepsOrder(cfg: Config, s: Sys, op: Op)
    requires WellFounded(s.db)
    ensures WellFounded(Commit(cfg, s, op))
  {
    var shape := OpShape(cfg, s, op);
    var after := Commit(cfg, s, op);
    if shape.Born? {
      BirthKeepsOrder(s.db, shape.id, shape.deps, shape.priority);
    } else {
      assert after.order == s.db.order && after.tasks.Keys == s.db.tasks.Keys;
      forall i | 0 <= i < |after.order| ensures after.order[i] in after.tasks && OlderPrerequisites(after, i) {
        assert OlderPrerequisites(s.db, i);
        assert after.order[i] in s.db.order;
      }
    }
  }

  lemma {:induction false} RunsAreWellFounded(cfg: Config, ops: seq<Op>)
    ensures WellFounded(Run(cfg, START, ops).db)
  {
    if ops != [] {
      var init := ops[..|ops| - 1];
      RunsAreWellFounded(cfg, init);
      StepKeepsOrder(cfg, Run(cfg, START, init), ops[|ops| - 1]);
    }
  }

  // ----- no self-made deadlock -----------------------------------------------------------

  /** p[0] waits for p[1], which waits for p[2], and so on. */
  predicate WaitsThrough(db: Db, p: seq<TaskId>) {
    && (forall t <- p :: t in db.tasks)
    && forall i, j :: 0 <= i < |p| - 1 && j == i + 1 ==> p[j] in db.tasks[p[i]].dependsOn
  }

  /** Someone can act on it: grab it, finish it, or see that it was dropped. */
  predicate Actionable(db: Db, t: TaskId) {
    && t in db.tasks
    && db.tasks[t].status != Merged
    && (db.tasks[t].status == UpForGrabs ==> Ready(db, t))
  }

  lemma {:induction false} SomeoneCanAct(db: Db, id: TaskId, i: nat) returns (p: seq<TaskId>)
    requires WellFounded(db) && i < |db.order| && db.order[i] == id
    requires id in db.tasks && db.tasks[id].status == UpForGrabs
    ensures p != [] && p[0] == id && WaitsThrough(db, p) && Actionable(db, p[|p| - 1])
    decreases i
  {
    if Ready(db, id) {
      return [id];
    }
    var dep :| dep in db.tasks[id].dependsOn && HoldsBack(db, dep);
    if db.tasks[dep].status != UpForGrabs {
      return [id, dep];
    }
    assert OlderPrerequisites(db, i);
    var j :| 0 <= j < i && db.order[j] == dep;
    var rest := SomeoneCanAct(db, dep, j);
    WaitsLonger(db, id, rest);
    p := [id] + rest;
  }

  lemma WaitsLonger(db: Db, id: TaskId, rest: seq<TaskId>)
    requires WaitsThrough(db, rest) && rest != [] && id in db.tasks && rest[0] in db.tasks[id].dependsOn
    ensures WaitsThrough(db, [id] + rest)
  {
    var p := [id] + rest;
    assert forall t <- p :: t == id || t in rest;
    forall a, b | 0 <= a < |p| - 1 && b == a + 1 ensures p[b] in db.tasks[p[a]].dependsOn {
      if a > 0 {
        assert p[a] == rest[a - 1] && p[b] == rest[b - 1];
      }
    }
  }

  /** In every reachable state each pooled task is ready, or waits through a chain of
      prerequisites for one that is ready, in flight or abandoned. */
  lemma QueueNeverDeadlocks(cfg: Config, ops: seq<Op>, id: TaskId) returns (p: seq<TaskId>)
    requires id in Run(cfg, START, ops).db.tasks
    requires Run(cfg, START, ops).db.tasks[id].status == UpForGrabs
    ensures var db := Run(cfg, START, ops).db;
      p != [] && p[0] == id && WaitsThrough(db, p) && Actionable(db, p[|p| - 1])
  {
    RunsAreWellFounded(cfg, ops);
    var db := Run(cfg, START, ops).db;
    var i :| 0 <= i < |db.order| && db.order[i] == id;
    p := SomeoneCanAct(db, id, i);
  }

  /** `ready_tasks` and `waiting_tasks` partition the pool. */
  lemma ReadyAndWaitingPartition(db: Db, id: TaskId)
    ensures id in db.tasks && db.tasks[id].status == UpForGrabs <==> Ready(db, id) || Waiting(db, id)
    ensures !(Ready(db, id) && Waiting(db, id))
  {
  }

  // ----- the merge gate -------------------------------------------------------------------

  predicate MergedBefore(trail: seq<Hop>, i: nat, t: TaskId)
    requires i <= |trail|
  {
    exists j :: 0 <= j < i && trail[j].task == t && trail[j].to == Merged
  }

  predicate PrerequisitesMerged(db: Db, t: TaskId)
    requires t in db.tasks
  {
    forall dep <- db.tasks[t].dependsOn :: dep in db.tasks ==> db.tasks[dep].status == Merged
  }

  /** The i-th hop, if it is a claim, comes after the merge of every existing prerequisite. */
  predicate ClaimAfterMerges(db: Db, i: nat)
    requires i < |db.trail|
  {
    db.trail[i].task in db.tasks
    && (db.trail[i].to == Claimed ==>
          forall dep <- db.tasks[db.trail[i].task].dependsOn ::
            dep in db.tasks ==> MergedBefore(db.trail, i, dep))
  }

  ghost predicate GateHolds(db: Db) {
    && (forall t <- db.tasks ::
          db.tasks[t].status != UpForGrabs && db.tasks[t].status != Abandoned ==> PrerequisitesMerged(db, t))
    && (forall t <- db.tasks :: db.tasks[t].status == Merged ==> MergedBefore(db.trail, |db.trail|, t))
    && forall i :: 0 <= i < |db.trail| ==> ClaimAfterMerges(db, i)
  }

  lemma MergedBeforeGrows(trail: seq<Hop>, more: seq<Hop>, i: nat, k: nat, t: TaskId)
    requires i <= |trail| && i <= k <= |trail + more| && MergedBefore(trail, i, t)
    ensures MergedBefore(trail + more, k, t)
  {
    var j :| 0 <= j < i && trail[j].task == t && trail[j].to == Merged;
    assert (trail + more)[j] == trail[j];
  }

  lemma QuietKeepsGate(before: Db, after: Db)
    requires Quiet(before, after) && GateHolds(before)
    ensures GateHolds(after)
  {
    forall t <- after.tasks
      ensures after.tasks[t].status != UpForGrabs && after.tasks[t].status != Abandoned ==> PrerequisitesMerged(after, t)
      ensures after.tasks[t].status == Merged ==> MergedBefore(after.trail, |after.trail|, t)
    {
      assert t in before.tasks;
    }
    forall i | 0 <= i < |after.trail| ensures ClaimAfterMerges(after, i) {
      assert ClaimAfterMerges(before, i);
    }
  }

  lemma BirthKeepsGate(db: Db, id: TaskId, deps: seq<TaskId>, priority: int)
    requires GateHolds(db) && Fresh(db, id) && id !in deps
    ensures GateHolds(Enqueue(db, id, deps, priority).db)
  {
    var after := Enqueue(db, id, deps, priority).db;
    forall i | 0 <= i < |after.trail| ensures ClaimAfterMerges(after, i) {
      assert ClaimAfterMerges(db, i);
      assert id !in db.tasks[db.trail[i].task].dependsOn;
    }
    forall t <- after.tasks
      ensures after.tasks[t].status != UpForGrabs && after.tasks[t].status != Abandoned ==> PrerequisitesMerged(after, t)
      ensures after.tasks[t].status == Merged ==> MergedBefore(after.trail, |after.trail|, t)
    {
      if t != id {
        assert t in db.tasks && id !in db.tasks[t].dependsOn;
      }
    }
  }

  lemma MoveKeepsGate(db: Db, id: TaskId, to: Status, sets: Sets)
    requires GateHolds(db) && id in db.tasks && Legal(db.tasks[id].status, to)
    requires to == Claimed ==> Ready(db, id)
    ensures GateHolds(Move(db, id, to, sets))
  {
    var after := Move(db, id, to, sets);
    var h := Hop(id, db.tasks[id].status, to);
    var n := |db.trail|;
    forall t <- after.tasks
      ensures after.tasks[t].status != UpForGrabs && after.tasks[t].status != Abandoned ==> PrerequisitesMerged(after, t)
      ensures after.tasks[t].status == Merged ==> MergedBefore(after.trail, n + 1, t)
    {
      if t == id {
        assert after.trail[n] == h;
      } else if after.tasks[t].status == Merged {
        MergedBeforeGrows(db.trail, [h], n, n + 1, t);
      }
    }
    forall i | 0 <= i < n + 1 ensures ClaimAfterMerges(after, i) {
      var t := after.trail[i].task;
      if i < n {
        assert ClaimAfterMerges(db, i);
      }
      if after.trail[i].to == Claimed {
        forall dep <- after.tasks[t].dependsOn | dep in after.tasks ensures MergedBefore(after.trail, i, dep) {
          MergedBeforeGrows(db.trail, [h], i, i, dep);
        }
      }
    }
  }

  /** A claim by bare `transition` keeps the merge gate exactly when the task was ready anyway. */
  lemma BareClaimKeepsGateIffReady(db: Db, id: TaskId, expected: Option<set<Status>>, sets: Sets)
    requires GateHolds(db) && Transition(db, id, Claimed, expected, sets, false).reply == Moved
    ensures GateHolds(Transition(db, id, Claimed, expected, sets, false).db) <==> Ready(db, id)
  {
    var after := Move(db, id, Claimed, sets);
    if Ready(db, id) {
      MoveKeepsGate(db, id, Claimed, sets);
    } else {
      var dep :| dep in db.tasks[id].dependsOn && HoldsBack(db, dep);
      assert dep in after.tasks && after.tasks[dep].status != Merged;
      assert !PrerequisitesMerged(after, id);
    }
  }

  lemma ShapeKeepsGate(before: Db, after: Db, op: Op, shape: Shape)
    requires GateHolds(before) && HasShape(before, after, op, shape) && Unforced(op) && !ClaimsUnready(before, op)
    ensures GateHolds(after)
  {
    match shape
    case Still => QuietKeepsGate(before, after);
    case Born(id, deps, priority) => BirthKeepsGate(before, id, deps, priority);
    case HopOf(id, to, sets, mid) =>
      QuietKeepsGate(before, mid);
      MoveKeepsGate(mid, id, to, sets);
      QuietKeepsGate(Move(mid, id, to, sets), after);
  }

  /** An operation without override keeps the gate exactly when it is not a bare claim of an unready
      task. */
  lemma StepKeepsGateIff(cfg: Config, s: Sys, op: Op)
    requires GateHolds(s.db) && Unforced(op)
    ensures GateHolds(Commit(cfg, s, op)) <==> !ClaimsUnready(s.db, op)
  {
    if ClaimsUnready(s.db, op) {
      BareClaimKeepsGateIffReady(s.db, op.id, op.expected, op.sets.(incrementRetries := false));
    } else {
      var shape := OpShape(cfg, s, op);
      ShapeKeepsGate(s.db, Commit(cfg, s, op), op, shape);
    }
  }

  lemma {:induction false} GateUntilUnreadyClaim(cfg: Config, ops: seq<Op>, n: nat)
    requires forall op <- ops :: Unforced(op)
    requires n <= |ops| && forall m :: 0 <= m < n ==> !ClaimsUnready(At(cfg, START, ops, m).db, ops[m])
    ensures GateHolds(At(cfg, START, ops, n).db)
  {
    if n > 0 {
      GateUntilUnreadyClaim(cfg, ops, n - 1);
      AtNext(cfg, START, ops, n - 1);
      assert Unforced(ops[n - 1]);
      StepKeepsGateIff(cfg, At(cfg, START, ops, n - 1), ops[n - 1]);
    }
  }

  /** Without override, at every prefix of a run work and everything after it stands on merged
      prerequisites, and each prerequisite's merge precedes the claim in the trail, exactly when each bare
      claim that moves hits a task ready in that state. Claims through `grab_task` always do. */
  lemma WorkStandsOnMergedPrerequisites(cfg: Config, ops: seq<Op>)
    requires forall op <- ops :: Unforced(op)
    ensures (forall n :: 0 <= n <= |ops| ==> GateHolds(At(cfg, START, ops, n).db))
      <==> (forall n :: 0 <= n < |ops| ==> !ClaimsUnready(At(cfg, START, ops, n).db, ops[n]))
  {
    if forall n :: 0 <= n <= |ops| ==> GateHolds(At(cfg, START, ops, n).db) {
      forall n | 0 <= n < |ops| ensures !ClaimsUnready(At(cfg, START, ops, n).db, ops[n]) {
        AtNext(cfg, START, ops, n);
        assert Unforced(ops[n]);
        StepKeepsGateIff(cfg, At(cfg, START, ops, n), ops[n]);
        assert GateHolds(At(cfg, START, ops, n + 1).db);
      }
    } else if forall n :: 0 <= n < |ops| ==> !ClaimsUnready(At(cfg, START, ops, n).db, ops[n]) {
      forall n | 0 <= n <= |ops| ensures GateHolds(At(cfg, START, ops, n).db) {
        GateUntilUnreadyClaim(cfg, ops, n);
      }
    }
  }

  /** The row has the prerequisites and the priority it was created with. */
  predicate HasPlan(db: Db, id: TaskId, deps: seq<TaskId>, priority: int) {
    id in db.tasks && db.tasks[id].dependsOn == deps && db.tasks[id].priority == priority
  }

  lemma ShapeKeepsPlan(before: Db, after: Db, op: Op, shape: Shape, id: TaskId, deps: seq<TaskId>, priority: int)
    requires HasShape(before, after, op, shape) && HasPlan(before, id, deps, priority)
    ensures HasPlan(after, id, deps, priority)
  {
  }

  lemma {:induction false} PlanPersists(cfg: Config, ops: seq<Op>, i: nat, n: nat)
    requires i < n <= |ops| && ops[i].Create?
    requires Fresh(At(cfg, START, ops, i).db, ops[i].id) && ops[i].id !in ops[i].deps
    ensures HasPlan(At(cfg, START, ops, n).db, ops[i].id, ops[i].deps, ops[i].priority)
  {
    AtNext(cfg, START, ops, n - 1);
    if i < n - 1 {
      PlanPersists(cfg, ops, i, n - 1);
      var s := At(cfg, START, ops, n - 1);
      var shape := OpShape(cfg, s, ops[n - 1]);
      ShapeKeepsPlan(s.db, Commit(cfg, s, ops[n - 1]), ops[n - 1], shape, ops[i].id, ops[i].deps, ops[i].priority);
    }
  }

  /** A task keeps exactly the prerequisites it was enqueued with, and from its claim on every one of them
      that exists is merged. */
  lemma WorkWaitsForItsPlan(cfg: Config, ops: seq<Op>, i: nat, n: nat)
    requires forall op <- ops :: Unforced(op)
    requires i < n <= |ops| && forall m :: 0 <= m < n ==> !ClaimsUnready(At(cfg, START, ops, m).db, ops[m])
    requires ops[i].Create? && Fresh(At(cfg, START, ops, i).db, ops[i].id) && ops[i].id !in ops[i].deps
    ensures var db := At(cfg, START, ops, n).db; var id := ops[i].id;
      && id in db.tasks && db.tasks[id].dependsOn == ops[i].deps && db.tasks[id].priority == ops[i].priority
      && (db.tasks[id].status != UpForGrabs && db.tasks[id].status != Abandoned ==>
            forall dep <- ops[i].deps :: dep in db.tasks ==> db.tasks[dep].status == Merged)
  {
    PlanPersists(cfg, ops, i, n);
    GateUntilUnreadyClaim(cfg, ops, n);
  }

  lemma ClaimBreaksGate(cfg: Config, s: Sys, op: Op)
    requires ClaimsUnready(s.db, op) && Unforced(op)
    ensures !GateHolds(Apply(cfg, s, op).db)
  {
    var id := op.id;
    assert Legal(s.db.tasks[id].status, Claimed);
    var dep :| dep in s.db.tasks[id].dependsOn && HoldsBack(s.db, dep);
    var after := Apply(cfg, s, op).db;
    assert after.tasks[id].dependsOn == s.db.tasks[id].dependsOn && after.tasks[id].status == Claimed;
    assert dep in after.tasks && after.tasks[dep].status != Merged;
    assert !PrerequisitesMerged(after, id);
  }

  /** Task 1 waits for task 0, both pooled. */
  predicate WaitingPair(db: Db) {
    && db.tasks.Keys == {0, 1}
    && db.tasks[0].status == UpForGrabs && db.tasks[0].dependsOn == []
    && db.tasks[1].status == UpForGrabs && db.tasks[1].dependsOn == [0]
  }

  lemma WaitingPairRun(cfg: Config) returns (ops: seq<Op>)
    ensures WaitingPair(Run(cfg, START, ops).db) && forall op <- ops :: Unforced(op)
  {
    ops := [Create(0, [], 0)];
    RunSnoc(cfg, START, [], Create(0, [], 0));
    assert [] + [Create(0, [], 0)] == ops;
    assert Run(cfg, START, ops).db.tasks == map[0 := NewTask([], 0)];
    RunSnoc(cfg, START, ops, Create(1, [0], 0));
    ops := ops + [Create(1, [0], 0)];
  }

  /** A bare claim does break the gate: a task with an unmerged prerequisite, picked up with the guarded
      transition alone. */
  lemma BareClaimBreaksGate(cfg: Config) returns (ops: seq<Op>)
    ensures forall op <- ops :: Unforced(op)
    ensures ops != [] && ClaimsUnready(At(cfg, START, ops, |ops| - 1).db, ops[|ops| - 1])
    ensures !GateHolds(Run(cfg, START, ops).db)
  {
    var setup := WaitingPairRun(cfg);
    var claim := Hopping(1, Claimed, Some({UpForGrabs}), GrabSets(9), false);
    var s := Run(cfg, START, setup);
    assert HoldsBack(s.db, 0) && Legal(UpForGrabs, Claimed);
    ops := setup + [claim];
    assert ops[..|setup|] == setup;
    RunSnoc(cfg, START, setup, claim);
    ClaimBreaksGate(cfg, s, claim);
  }

  /** Dead at the root: in the pool or dropped, with an abandoned prerequisite. */
  predicate Doomed(db: Db, id: TaskId) {
    && id in db.tasks
    && (db.tasks[id].status == UpForGrabs || db.tasks[id].status == Abandoned)
    && exists dep <- db.tasks[id].dependsOn :: dep in db.tasks && db.tasks[dep].status == Abandoned
  }

  /** What `waiting_tasks` reports as `blocked_by_abandoned` are exactly the doomed tasks of the pool. */
  lemma ReportedExactlyDoomed(db: Db, id: TaskId)
    ensures BlockedByAbandoned(db, id) <==> Doomed(db, id) && db.tasks[id].status == UpForGrabs
  {
    if Doomed(db, id) {
      var dep :| dep in db.tasks[id].dependsOn && dep in db.tasks && db.tasks[dep].status == Abandoned;
      assert HoldsBack(db, dep);
    }
  }

  /** The trail has grown, by no claim of the task. */
  predicate NeverClaimedSince(trail: seq<Hop>, more: seq<Hop>, id: TaskId) {
    && trail <= more
    && forall i :: |trail| <= i < |more| && more[i].task == id ==> more[i].to != Claimed
  }

  predicate DeadPrerequisite(db: Db, id: TaskId, dep: TaskId) {
    id in db.tasks && dep in db.tasks[id].dependsOn && dep in db.tasks && db.tasks[dep].status == Abandoned
  }

  /** No hop of an abandoned prerequisite, and none of its dependent but a drop. */
  lemma DoomedHops(before: Db, after: Db, op: Op, shape: Shape, id: TaskId, dep: TaskId)
    requires Doomed(before, id) && DeadPrerequisite(before, id, dep) && HasShape(before, after, op, shape)
    requires Unforced(op) && !ClaimsUnready(before, op) && shape.HopOf?
    ensures shape.id != dep && (shape.id == id ==> shape.to == Abandoned)
  {
    assert HoldsBack(before, dep) && !Ready(before, id);
  }

  lemma QuietKeepsDoom(before: Db, after: Db, id: TaskId, dep: TaskId)
    requires Quiet(before, after) && DeadPrerequisite(before, id, dep)
    ensures DeadPrerequisite(after, id, dep) && after.tasks[id].status == before.tasks[id].status
  {
  }

  lemma MoveKeepsDoom(db: Db, h: TaskId, to: Status, sets: Sets, id: TaskId, dep: TaskId)
    requires DeadPrerequisite(db, id, dep) && h in db.tasks && h != dep
    ensures DeadPrerequisite(Move(db, h, to, sets), id, dep)
  {
  }

  lemma HopKeepsDoom(before: Db, after: Db, op: Op, shape: Shape, id: TaskId, dep: TaskId)
    requires Doomed(before, id) && DeadPrerequisite(before, id, dep) && HasShape(before, after, op, shape)
    requires Unforced(op) && !ClaimsUnready(before, op) && shape.HopOf?
    ensures DeadPrerequisite(after, id, dep) && (after.tasks[id].status == UpForGrabs || after.tasks[id].status == Abandoned)
    ensures NeverClaimedSince(before.trail, after.trail, id)
  {
    var mid := shape.before;
    DoomedHops(before, after, op, shape, id, dep);
    QuietKeepsDoom(before, mid, id, dep);
    MoveKeepsDoom(mid, shape.id, shape.to, shape.sets, id, dep);
    QuietKeepsDoom(Move(mid, shape.id, shape.to, shape.sets), after, id, dep);
  }

  lemma ShapeKeepsDoom(before: Db, after: Db, op: Op, shape: Shape, id: TaskId)
    requires Doomed(before, id) && HasShape(before, after, op, shape)
    requires Unforced(op) && !ClaimsUnready(before, op)
    ensures Doomed(after, id)
    ensures NeverClaimedSince(before.trail, after.trail, id)
  {
    var dep :| dep in before.tasks[id].dependsOn && dep in before.tasks && before.tasks[dep].status == Abandoned;
    match shape
    case Still => QuietKeepsDoom(before, after, id, dep);
    case Born(_, _, _) =>
    case HopOf(_, _, _, _) => HopKeepsDoom(before, after, op, shape, id, dep);
  }

  lemma StepKeepsDoom(cfg: Config, s: Sys, op: Op, id: TaskId)
    requires Doomed(s.db, id) && Unforced(op) && !ClaimsUnready(s.db, op)
    ensures Doomed(Commit(cfg, s, op), id)
    ensures NeverClaimedSince(s.db.trail, Commit(cfg, s, op).trail, id)
  {
    var shape := OpShape(cfg, s, op);
    ShapeKeepsDoom(s.db, Commit(cfg, s, op), op, shape, id);
  }

  lemma {:induction false} DoomPersists(cfg: Config, s: Sys, ops: seq<Op>, id: TaskId, n: nat)
    requires Doomed(s.db, id) && n <= |ops|
    requires forall m :: 0 <= m < n ==> Unforced(ops[m]) && !ClaimsUnready(At(cfg, s, ops, m).db, ops[m])
    ensures Doomed(At(cfg, s, ops, n).db, id)
    ensures NeverClaimedSince(s.db.trail, At(cfg, s, ops, n).db.trail, id)
  {
    if n > 0 {
      DoomPersists(cfg, s, ops, id, n - 1);
      AtNext(cfg, s, ops, n - 1);
      StepKeepsDoom(cfg, At(cfg, s, ops, n - 1), ops[n - 1], id);
    }
  }

  /** A task once reported `blocked_by_abandoned` is never claimed afterwards: it stays in the
      pool or is dropped, and no later hop of it is a claim. */
  lemma {:induction false} BlockedByAbandonedNeverClaimed(cfg: Config, s: Sys, ops: seq<Op>, id: TaskId)
    requires BlockedByAbandoned(s.db, id)
    requires forall n :: 0 <= n < |ops| ==> Unforced(ops[n]) && !ClaimsUnready(At(cfg, s, ops, n).db, ops[n])
    ensures var after := Run(cfg, s, ops).db;
      && id in after.tasks && (after.tasks[id].status == UpForGrabs || after.tasks[id].status == Abandoned)
      && NeverClaimedSince(s.db.trail, after.trail, id)
  {
    DoomPersists(cfg, s, ops, id, |ops|);
    AtEnd(cfg, s, ops);
  }
}

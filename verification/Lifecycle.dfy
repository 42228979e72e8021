/** The task-lifecycle state machine (runtime/task_state.py): nine states, one table of
    legal hops, and what a trail of legal hops must look like. */
module Lifecycle {
  import opened Common

  type TaskId = nat

  datatype Status =
    | UpForGrabs | Claimed | InProgress | Blocked
    | ReadyForReview | ReviewerBlocked | Approved | Merged | Abandoned

  /** TRANSITIONS: the canonical forward lifecycle plus the operational recovery edges. */
  function Targets(s: Status): set<Status> {
    match s
    case UpForGrabs => {Claimed, Abandoned}
    case Claimed => {InProgress, UpForGrabs, Abandoned}
    case InProgress => {ReadyForReview, Blocked, Abandoned, UpForGrabs}
    case Blocked => {InProgress, Abandoned, UpForGrabs}
    case ReadyForReview => {Approved, ReviewerBlocked, Abandoned}
    case ReviewerBlocked => {InProgress, Abandoned}
    case Approved => {Merged, Abandoned}
    case Merged => {}
    case Abandoned => {}
  }

  predicate Legal(from: Status, to: Status) {
    to in Targets(from)
  }

  predicate Terminal(s: Status) {
    s == Merged || s == Abandoned
  }

  /** Actively held: the two states a worker's heartbeat covers. */
  predicate Held(s: Status) {
    s == Claimed || s == InProgress
  }

  /** One row of `task_transitions`. */
  datatype Hop = Hop(task: TaskId, from: Status, to: Status)

  /** The rows of one task, oldest first. */
  function PathOf(trail: seq<Hop>, id: TaskId): seq<Hop> {
    if trail == [] then []
    else
      var last := trail[|trail| - 1];
      PathOf(trail[..|trail| - 1], id) + if last.task == id then [last] else []
  }

  /** Replay a task's hops from the state it is created in; None when a hop does not start
      where the previous one ended. */
  function Replay(path: seq<Hop>): Option<Status> {
    if path == [] then Some(UpForGrabs)
    else
      var last := path[|path| - 1];
      if Replay(path[..|path| - 1]) == Some(last.from) then Some(last.to) else None
  }

  predicate AllLegal(path: seq<Hop>) {
    forall h <- path :: Legal(h.from, h.to)
  }

  lemma PathOfAppend(trail: seq<Hop>, h: Hop, id: TaskId)
    ensures PathOf(trail + [h], id) == PathOf(trail, id) + if h.task == id then [h] else []
  {
  }

  lemma {:induction false} PathOfIsSubsequence(trail: seq<Hop>, id: TaskId)
    ensures forall h <- PathOf(trail, id) :: h in trail && h.task == id
  {
    if trail != [] {
      PathOfIsSubsequence(trail[..|trail| - 1], id);
    }
  }

  lemma ReplayAppend(path: seq<Hop>, h: Hop)
    requires Replay(path) == Some(h.from)
    ensures Replay(path + [h]) == Some(h.to)
  {
  }

  /** A legal hop never leaves a terminal state, and every non-terminal state can be dropped. */
  lemma TerminalExactlyWhenStuck(s: Status)
    ensures Terminal(s) <==> forall to :: !Legal(s, to)
    ensures !Terminal(s) <==> Legal(s, Abandoned)
  {
    if !Terminal(s) {
      assert Legal(s, Abandoned);
    }
  }

  /** How far along the canonical lifecycle a state is; blocked and reviewer_blocked lie beside it. */
  function Progress(s: Status): nat {
    match s
    case UpForGrabs => 0
    case Claimed => 1
    case InProgress => 2
    case Blocked => 2
    case ReadyForReview => 3
    case ReviewerBlocked => 3
    case Approved => 4
    case Merged => 5
    case Abandoned => 5
  }

  predicate Beside(s: Status) {
    s == Blocked || s == ReviewerBlocked || s == Abandoned
  }

  /** The legal hops, by kind: one step along the lifecycle, a drop, a park or a failed review and the way
      back, and the requeueing of a claimed, running or parked task. */
  lemma LegalByKind(from: Status, to: Status)
    ensures Legal(from, to) <==>
      || (!Beside(from) && !Beside(to) && Progress(to) == Progress(from) + 1)
      || (to == Abandoned && !Terminal(from))
      || ((from == InProgress && to == Blocked) || (from == ReadyForReview && to == ReviewerBlocked))
      || ((from == Blocked || from == ReviewerBlocked) && to == InProgress)
      || (to == UpForGrabs && 1 <= Progress(from) <= 2)
  {
    assert Targets(UpForGrabs) == {Claimed, Abandoned} && Targets(Claimed) == {InProgress, UpForGrabs, Abandoned};
    assert Targets(InProgress) == {ReadyForReview, Blocked, Abandoned, UpForGrabs};
    assert Targets(Blocked) == {InProgress, Abandoned, UpForGrabs};
    assert Targets(ReadyForReview) == {Approved, ReviewerBlocked, Abandoned};
    assert Targets(ReviewerBlocked) == {InProgress, Abandoned} && Targets(Approved) == {Merged, Abandoned};
  }

  /** Outside the pool and outside `abandoned`, a legally moved task has been claimed. */
  lemma {:induction false} WorkImpliesClaim(path: seq<Hop>)
    requires AllLegal(path) && Replay(path).Some?
    requires Replay(path).value != UpForGrabs && Replay(path).value != Abandoned
    ensures exists i :: 0 <= i < |path| && path[i].from == UpForGrabs && path[i].to == Claimed
  {
    var n := |path| - 1;
    assert path[n] in path;
    if path[n].from != UpForGrabs {
      var init := path[..n];
      assert forall h <- init :: h in path;
      WorkImpliesClaim(init);
      var i :| 0 <= i < |init| && init[i].from == UpForGrabs && init[i].to == Claimed;
      assert path[i] == init[i];
    }
  }

  /** Where the states of the merged history are entered from. */
  function Sources(to: Status): set<Status> {
    match to
    case Merged => {Approved}
    case Approved => {ReadyForReview}
    case ReadyForReview => {InProgress}
    case _ => {UpForGrabs, Claimed, InProgress, Blocked, ReadyForReview, ReviewerBlocked, Approved}
  }

  lemma LegalSource(from: Status, to: Status)
    requires Legal(from, to)
    ensures from in Sources(to)
  {
  }

  lemma LegalPrefix(path: seq<Hop>, n: nat)
    requires AllLegal(path) && n <= |path|
    ensures AllLegal(path[..n])
  {
  }

  /** A legal trail that ends outside the pool, one hop back. */
  lemma LastHop(path: seq<Hop>, to: Status)
    requires AllLegal(path) && Replay(path) == Some(to) && to != UpForGrabs
    ensures path != [] && path[|path| - 1].to == to && path[|path| - 1].from in Sources(to)
    ensures AllLegal(path[..|path| - 1]) && Replay(path[..|path| - 1]) == Some(path[|path| - 1].from)
  {
    var last := path[|path| - 1];
    assert last in path && last.to == to;
    LegalSource(last.from, to);
    LegalPrefix(path, |path| - 1);
  }

  /** Every legal trail that ends `merged` ends in_progress, ready_for_review, approved,
      merged, and a claim comes before that. */
  lemma {:induction false} MergedTrailShape(path: seq<Hop>) returns (claim: nat)
    requires AllLegal(path) && Replay(path) == Some(Merged)
    ensures |path| >= 5
    ensures path[|path| - 1].from == Approved && path[|path| - 1].to == Merged
    ensures path[|path| - 2].from == ReadyForReview && path[|path| - 2].to == Approved
    ensures path[|path| - 3].from == InProgress && path[|path| - 3].to == ReadyForReview
    ensures path[|path| - 4].to == InProgress
    ensures claim < |path| - 4 && path[claim].from == UpForGrabs && path[claim].to == Claimed
  {
    var n := |path|;
    LastHop(path, Merged);
    LastHop(path[..n - 1], Approved);
    assert path[..n - 1][..n - 2] == path[..n - 2];
    LastHop(path[..n - 2], ReadyForReview);
    assert path[..n - 2][..n - 3] == path[..n - 3];
    LastHop(path[..n - 3], InProgress);
    var p4 := path[..n - 4];
    assert path[..n - 3][..n - 4] == p4;
    WorkImpliesClaim(p4);
    claim :| 0 <= claim < |p4| && p4[claim].from == UpForGrabs && p4[claim].to == Claimed;
  }
}

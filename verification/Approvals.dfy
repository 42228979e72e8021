/** One-shot grants for approval-gated actions (runtime/approvals.py, runtime/enforce.py,
    runtime/policy.py): any number of workers interleaving find, consume, request and a human
    resolving. */
module Approvals {
  import opened Common

  /** The action's identity: an injective key for task, tool, capabilities, workstream, args. */
  type Fingerprint = nat
  type ApprovalRow = nat

  datatype Approval = Approval(fingerprint: Fingerprint, status: ApprovalStatus)

  predicate IsOpen(a: Approval) {
    a.status == Pending || a.status == Granted
  }

  // ----- the approvals table: row number = insertion order ---------------------------------

  /** `find_grant`'s query; rows resolve one at a time, so one grant per action exists at most. */
  function FindGrant(rows: seq<Approval>, f: Fingerprint): (r: Option<ApprovalRow>)
    ensures r.Some? ==> r.value < |rows| && rows[r.value] == Approval(f, Granted)
    ensures r.None? ==> Approval(f, Granted) !in rows
  {
    if rows == [] then None
    else
      var earlier := FindGrant(rows[..|rows| - 1], f);
      if earlier.Some? then earlier
      else if rows[|rows| - 1] == Approval(f, Granted) then Some(|rows| - 1)
      else None
  }

  function FindOpen(rows: seq<Approval>, f: Fingerprint): (r: Option<ApprovalRow>)
    ensures r.Some? ==> r.value < |rows| && rows[r.value].fingerprint == f && IsOpen(rows[r.value])
    ensures r.None? ==> forall a <- rows :: a.fingerprint == f ==> !IsOpen(a)
  {
    if rows == [] then None
    else
      var earlier := FindOpen(rows[..|rows| - 1], f);
      if earlier.Some? then earlier
      else if rows[|rows| - 1].fingerprint == f && IsOpen(rows[|rows| - 1]) then Some(|rows| - 1)
      else None
  }

  function Request(rows: seq<Approval>, f: Fingerprint): seq<Approval> {
    if FindOpen(rows, f).Some? then rows else rows + [Approval(f, Pending)]
  }

  function Resolve(rows: seq<Approval>, a: ApprovalRow, approve: bool): seq<Approval> {
    if a < |rows| && rows[a].status == Pending then
      rows[a := rows[a].(status := if approve then Granted else Denied)]
    else rows
  }

  predicate Consumable(rows: seq<Approval>, a: ApprovalRow) {
    a < |rows| && rows[a].status == Granted
  }

  function Consume(rows: seq<Approval>, a: ApprovalRow): seq<Approval> {
    if Consumable(rows, a) then rows[a := rows[a].(status := Consumed)] else rows
  }

  // ----- runs ----------------------------------------------------------------------------------

  /** Where one `invoke` of a gated action stands. */
  datatype Pc =
    | Idle
    | Found(f: Fingerprint, grant: ApprovalRow)    // find_grant returned this row
    | Holding(f: Fingerprint, grant: ApprovalRow)  // consume_grant succeeded, not executed yet
    | Missed(f: Fingerprint)                       // no grant, or lost the race for it

  datatype Execution = Execution(f: Fingerprint, grant: ApprovalRow)

  /** `given` lists the fingerprints a human approved, one entry per approval. */
  datatype State = State(
    rows: seq<Approval>, workers: seq<Pc>, executions: seq<Execution>, given: seq<Fingerprint>)

  const INITIAL := State([], [], [], [])

  datatype Act =
    | Join
    | Look(w: nat, f: Fingerprint)
    | Take(w: nat)
    | Execute(w: nat)
    | Ask(w: nat)
    | Crash(w: nat)
    | Answer(a: ApprovalRow, approve: bool)

  function Advance(s: State, act: Act): State {
    match act
    case Join => s.(workers := s.workers + [Idle])
    case Look(w, f) =>
      if w < |s.workers| && s.workers[w].Idle? then
        var r := FindGrant(s.rows, f);
        s.(workers := s.workers[w := if r.Some? then Found(f, r.value) else Missed(f)])
      else s
    case Take(w) =>
      if w < |s.workers| && s.workers[w].Found? then
        var pc := s.workers[w];
        s.(rows := Consume(s.rows, pc.grant),
           workers := s.workers[w := if Consumable(s.rows, pc.grant) then Holding(pc.f, pc.grant) else Missed(pc.f)])
      else s
    case Execute(w) =>
      if w < |s.workers| && s.workers[w].Holding? then
        s.(executions := s.executions + [Execution(s.workers[w].f, s.workers[w].grant)],
           workers := s.workers[w := Idle])
      else s
    case Ask(w) =>
      if w < |s.workers| && s.workers[w].Missed? then
        s.(rows := Request(s.rows, s.workers[w].f), workers := s.workers[w := Idle])
      else s
    case Crash(w) =>
      if w < |s.workers| then s.(workers := s.workers[w := Idle]) else s
    case Answer(a, approve) =>
      s.(rows := Resolve(s.rows, a, approve),
         given := s.given + if a < |s.rows| && s.rows[a].status == Pending && approve
                            then [s.rows[a].fingerprint] else [])
  }

  function Run(acts: seq<Act>): State {
    if acts == [] then INITIAL
    else Advance(Run(acts[..|acts| - 1]), acts[|acts| - 1])
  }

  // ----- counting --------------------------------------------------------------------------------

  function Count<T>(s: seq<T>, p: T -> bool): nat {
    if s == [] then 0
    else Count(s[..|s| - 1], p) + if p(s[|s| - 1]) then 1 else 0
  }

  lemma CountAppend<T>(s: seq<T>, x: T, p: T -> bool)
    ensures Count(s + [x], p) == Count(s, p) + if p(x) then 1 else 0
  {
  }

  lemma {:induction false} CountUpdate<T>(s: seq<T>, i: nat, x: T, p: T -> bool)
    requires i < |s|
    ensures Count(s[i := x], p) + (if p(s[i]) then 1 else 0) == Count(s, p) + if p(x) then 1 else 0
  {
    var n := |s| - 1;
    if i < n {
      CountUpdate(s[..n], i, x, p);
      assert s[i := x][..n] == s[..n][i := x];
    } else {
      assert s[i := x][..n] == s[..n];
    }
  }

  lemma {:induction false} CountPositive<T>(s: seq<T>, x: T, p: T -> bool)
    requires x in s && p(x)
    ensures Count(s, p) >= 1
  {
    if x != s[|s| - 1] {
      assert x in s[..|s| - 1];
      CountPositive(s[..|s| - 1], x, p);
    }
  }

  /** Consumed rows of an action. */
  function Spent(s: State, f: Fingerprint): nat {
    Count(s.rows, (a: Approval) => a == Approval(f, Consumed))
  }

  function Live(s: State, f: Fingerprint): nat {
    Count(s.rows, (a: Approval) => a == Approval(f, Granted))
  }

  function Executed(s: State, f: Fingerprint): nat {
    Count(s.executions, (e: Execution) => e.f == f)
  }

  function ExecutedBy(s: State, g: ApprovalRow): nat {
    Count(s.executions, (e: Execution) => e.grant == g)
  }

  function HoldingFor(s: State, f: Fingerprint): nat {
    Count(s.workers, (pc: Pc) => pc.Holding? && pc.f == f)
  }

  function HoldingOn(s: State, g: ApprovalRow): nat {
    Count(s.workers, (pc: Pc) => pc.Holding? && pc.grant == g)
  }

  function Approved(s: State, f: Fingerprint): nat {
    Count(s.given, (x: Fingerprint) => x == f)
  }

  // ----- invariants ------------------------------------------------------------------------------

  ghost predicate Balanced(s: State, f: Fingerprint) {
    && Executed(s, f) + HoldingFor(s, f) <= Spent(s, f)
    && Spent(s, f) + Live(s, f) == Approved(s, f)
  }

  ghost predicate UsedOnce(s: State, g: ApprovalRow) {
    ExecutedBy(s, g) + HoldingOn(s, g) <= if g < |s.rows| && s.rows[g].status == Consumed then 1 else 0
  }

  ghost predicate WorkersMatch(s: State) {
    forall pc <- s.workers :: pc.Found? || pc.Holding? ==> pc.grant < |s.rows| && s.rows[pc.grant].fingerprint == pc.f
  }

  /** Idempotency of `request_approval`: one open row per action. */
  ghost predicate OneOpen(rows: seq<Approval>) {
    forall i, j :: 0 <= i < j < |rows| && IsOpen(rows[i]) && IsOpen(rows[j]) ==>
      rows[i].fingerprint != rows[j].fingerprint
  }

  ghost predicate Sound(s: State) {
    && (forall f: Fingerprint :: Balanced(s, f))
    && (forall g: ApprovalRow :: UsedOnce(s, g))
    && WorkersMatch(s)
    && OneOpen(s.rows)
  }

  /** Changing one worker's position. */
  lemma WorkerCounts(s: State, w: nat, pc: Pc, f: Fingerprint, g: ApprovalRow)
    requires w < |s.workers|
    ensures var t := s.(workers := s.workers[w := pc]); var was := s.workers[w];
      && HoldingFor(t, f) + (if was.Holding? && was.f == f then 1 else 0)
         == HoldingFor(s, f) + (if pc.Holding? && pc.f == f then 1 else 0)
      && HoldingOn(t, g) + (if was.Holding? && was.grant == g then 1 else 0)
         == HoldingOn(s, g) + (if pc.Holding? && pc.grant == g then 1 else 0)
  {
    CountUpdate(s.workers, w, pc, (q: Pc) => q.Holding? && q.f == f);
    CountUpdate(s.workers, w, pc, (q: Pc) => q.Holding? && q.grant == g);
  }

  /** Changing one row's status. */
  lemma RowCounts(s: State, a: ApprovalRow, status: ApprovalStatus, f: Fingerprint)
    requires a < |s.rows|
    ensures var t := s.(rows := s.rows[a := s.rows[a].(status := status)]); var row := s.rows[a];
      && Spent(t, f) + (if row == Approval(f, Consumed) then 1 else 0)
         == Spent(s, f) + (if row.fingerprint == f && status == Consumed then 1 else 0)
      && Live(t, f) + (if row == Approval(f, Granted) then 1 else 0)
         == Live(s, f) + (if row.fingerprint == f && status == Granted then 1 else 0)
  {
    var next := s.rows[a].(status := status);
    CountUpdate(s.rows, a, next, (r: Approval) => r == Approval(f, Consumed));
    CountUpdate(s.rows, a, next, (r: Approval) => r == Approval(f, Granted));
  }

  lemma MoveWorkerKeepsSound(s: State, w: nat, pc: Pc)
    requires Sound(s) && w < |s.workers| && !pc.Holding?
    requires pc.Found? ==> pc.grant < |s.rows| && s.rows[pc.grant].fingerprint == pc.f
    ensures Sound(s.(workers := s.workers[w := pc]))
  {
    var t := s.(workers := s.workers[w := pc]);
    forall f: Fingerprint ensures Balanced(t, f) {
      assert Balanced(s, f);
      WorkerCounts(s, w, pc, f, 0);
    }
    forall g: ApprovalRow ensures UsedOnce(t, g) {
      assert UsedOnce(s, g);
      WorkerCounts(s, w, pc, 0, g);
    }
  }

  lemma TakeKeepsSound(s: State, w: nat)
    requires Sound(s) && w < |s.workers| && s.workers[w].Found?
    ensures Sound(Advance(s, Take(w)))
  {
    var pc := s.workers[w];
    assert pc in s.workers;
    if Consumable(s.rows, pc.grant) {
      var held := Holding(pc.f, pc.grant);
      var mid := s.(rows := Consume(s.rows, pc.grant));
      var t := Advance(s, Take(w));
      assert t == mid.(workers := mid.workers[w := held]);
      forall f: Fingerprint ensures Balanced(t, f) {
        assert Balanced(s, f);
        RowCounts(s, pc.grant, Consumed, f);
        WorkerCounts(mid, w, held, f, 0);
      }
      forall g: ApprovalRow ensures UsedOnce(t, g) {
        assert UsedOnce(s, g);
        WorkerCounts(mid, w, held, 0, g);
      }
      forall q <- t.workers | q.Found? || q.Holding?
        ensures q.grant < |t.rows| && t.rows[q.grant].fingerprint == q.f
      {
        assert q in s.workers || q == held;
      }
    } else {
      MoveWorkerKeepsSound(s, w, Missed(pc.f));
    }
  }

  lemma ExecuteKeepsSound(s: State, w: nat)
    requires Sound(s) && w < |s.workers| && s.workers[w].Holding?
    ensures Sound(Advance(s, Execute(w)))
  {
    var pc := s.workers[w];
    var e := Execution(pc.f, pc.grant);
    var mid := s.(executions := s.executions + [e]);
    var t := Advance(s, Execute(w));
    assert t == mid.(workers := mid.workers[w := Idle]);
    forall f: Fingerprint ensures Balanced(t, f) {
      assert Balanced(s, f);
      CountAppend(s.executions, e, (x: Execution) => x.f == f);
      WorkerCounts(mid, w, Idle, f, 0);
    }
    forall g: ApprovalRow ensures UsedOnce(t, g) {
      assert UsedOnce(s, g);
      CountAppend(s.executions, e, (x: Execution) => x.grant == g);
      WorkerCounts(mid, w, Idle, 0, g);
    }
  }

  lemma RequestKeepsSound(s: State, f: Fingerprint)
    requires Sound(s)
    ensures Sound(s.(rows := Request(s.rows, f)))
  {
    var t := s.(rows := Request(s.rows, f));
    if t != s {
      var a := Approval(f, Pending);
      forall x: Fingerprint ensures Balanced(t, x) {
        assert Balanced(s, x);
        CountAppend(s.rows, a, (r: Approval) => r == Approval(x, Consumed));
        CountAppend(s.rows, a, (r: Approval) => r == Approval(x, Granted));
      }
      forall g: ApprovalRow ensures UsedOnce(t, g) {
        assert UsedOnce(s, g);
      }
      forall i, j | 0 <= i < j < |t.rows| && IsOpen(t.rows[i]) && IsOpen(t.rows[j])
        ensures t.rows[i].fingerprint != t.rows[j].fingerprint
      {
        assert t.rows[i] in s.rows;
      }
    }
  }

  lemma AnswerKeepsSound(s: State, a: ApprovalRow, approve: bool)
    requires Sound(s)
    ensures Sound(Advance(s, Answer(a, approve)))
  {
    var t := Advance(s, Answer(a, approve));
    if a < |s.rows| && s.rows[a].status == Pending {
      assert t.given == if approve then s.given + [s.rows[a].fingerprint] else s.given;
      forall f: Fingerprint ensures Balanced(t, f) {
        assert Balanced(s, f);
        RowCounts(s, a, if approve then Granted else Denied, f);
        CountAppend(s.given, s.rows[a].fingerprint, (x: Fingerprint) => x == f);
      }
      forall g: ApprovalRow ensures UsedOnce(t, g) {
        assert UsedOnce(s, g);
      }
    } else {
      assert t == s;
    }
  }

  lemma StepKeepsSound(s: State, act: Act)
    requires Sound(s)
    ensures Sound(Advance(s, act))
  {
    match act
    case Join =>
      var t := Advance(s, Join);
      forall f: Fingerprint ensures Balanced(t, f) {
        assert Balanced(s, f);
        CountAppend(s.workers, Idle, (q: Pc) => q.Holding? && q.f == f);
      }
      forall g: ApprovalRow ensures UsedOnce(t, g) {
        assert UsedOnce(s, g);
        CountAppend(s.workers, Idle, (q: Pc) => q.Holding? && q.grant == g);
      }
    case Look(w, f) =>
      if w < |s.workers| && s.workers[w].Idle? {
        var r := FindGrant(s.rows, f);
        MoveWorkerKeepsSound(s, w, if r.Some? then Found(f, r.value) else Missed(f));
      }
    case Take(w) => if w < |s.workers| && s.workers[w].Found? { TakeKeepsSound(s, w); }
    case Execute(w) => if w < |s.workers| && s.workers[w].Holding? { ExecuteKeepsSound(s, w); }
    case Ask(w) =>
      if w < |s.workers| && s.workers[w].Missed? {
        RequestKeepsSound(s, s.workers[w].f);
        MoveWorkerKeepsSound(s.(rows := Request(s.rows, s.workers[w].f)), w, Idle);
      }
    case Crash(w) => if w < |s.workers| { MoveWorkerKeepsSound(s, w, Idle); }
    case Answer(a, approve) => AnswerKeepsSound(s, a, approve);
  }

  lemma {:induction false} RunsAreSound(acts: seq<Act>)
    ensures Sound(Run(acts))
  {
    if acts != [] {
      RunsAreSound(acts[..|acts| - 1]);
      StepKeepsSound(Run(acts[..|acts| - 1]), acts[|acts| - 1]);
    }
  }

  /** Per action: executions <= consumed rows <= approvals a human gave, in every interleaving. */
  lemma ExecutionsNeverExceedApprovals(acts: seq<Act>, f: Fingerprint)
    ensures var s := Run(acts); Executed(s, f) <= Spent(s, f) <= Approved(s, f)
  {
    RunsAreSound(acts);
    assert Balanced(Run(acts), f);
  }

  /** Some act of the run is a human's yes to this row while it was pending. */
  ghost predicate WasApproved(acts: seq<Act>, g: ApprovalRow) {
    exists i :: 0 <= i < |acts| && ApprovedBy(acts, i, g)
  }

  predicate ApprovedBy(acts: seq<Act>, i: nat, g: ApprovalRow)
    requires i < |acts|
  {
    acts[i] == Answer(g, true) && var rows := Run(acts[..i]).rows; g < |rows| && rows[g].status == Pending
  }

  lemma EarlierApproval(acts: seq<Act>, g: ApprovalRow)
    requires acts != [] && WasApproved(acts[..|acts| - 1], g)
    ensures WasApproved(acts, g)
  {
    var init := acts[..|acts| - 1];
    var i :| 0 <= i < |init| && ApprovedBy(init, i, g);
    assert init[..i] == acts[..i];
    assert ApprovedBy(acts, i, g);
  }

  /** No row is granted, and so none consumed, but by a human's yes. */
  lemma {:induction false} GrantsAreApproved(acts: seq<Act>, g: ApprovalRow)
    requires var rows := Run(acts).rows; g < |rows| && (rows[g].status == Granted || rows[g].status == Consumed)
    ensures WasApproved(acts, g)
  {
    var last := |acts| - 1;
    var rows := Run(acts[..last]).rows;
    if acts[last] == Answer(g, true) && g < |rows| && rows[g].status == Pending {
      assert ApprovedBy(acts, last, g);
    } else {
      GrantsAreApproved(acts[..last], g);
      EarlierApproval(acts, g);
    }
  }

  /** Executions name consumed rows of their own action. */
  ghost predicate ExecutionsMatch(s: State) {
    forall e <- s.executions :: e.grant < |s.rows| && s.rows[e.grant] == Approval(e.f, Consumed)
  }

  lemma {:induction false} ExecutionsNameTheirGrants(acts: seq<Act>)
    ensures ExecutionsMatch(Run(acts))
  {
    if acts != [] {
      var s, act := Run(acts[..|acts| - 1]), acts[|acts| - 1];
      ExecutionsNameTheirGrants(acts[..|acts| - 1]);
      RunsAreSound(acts[..|acts| - 1]);
      if act.Execute? && act.w < |s.workers| && s.workers[act.w].Holding? {
        var pc := s.workers[act.w];
        assert pc in s.workers && UsedOnce(s, pc.grant);
        CountPositive(s.workers, pc, (q: Pc) => q.Holding? && q.grant == pc.grant);
      }
      KeepsConsumed(s, act);
    }
  }

  lemma KeepsConsumed(s: State, act: Act)
    ensures forall g :: 0 <= g < |s.rows| && s.rows[g].status == Consumed ==>
      g < |Advance(s, act).rows| && Advance(s, act).rows[g] == s.rows[g]
  {
  }

  /** Each grant backs at most one execution, and only one of the very action a human approved, on a row
      its worker has consumed. */
  lemma {:induction false} EachGrantBacksOneExecution(acts: seq<Act>, g: ApprovalRow)
    ensures var s := Run(acts);
      && ExecutedBy(s, g) <= 1
      && forall e <- s.executions :: e.grant == g ==>
           g < |s.rows| && s.rows[g] == Approval(e.f, Consumed) && WasApproved(acts, g)
  {
    RunsAreSound(acts);
    ExecutionsNameTheirGrants(acts);
    var s := Run(acts);
    assert UsedOnce(s, g);
    forall e <- s.executions | e.grant == g ensures WasApproved(acts, g) {
      GrantsAreApproved(acts, g);
    }
  }

  lemma KeepsSettled(s: State, act: Act, g: ApprovalRow)
    requires g < |s.rows| && s.rows[g].status != Pending && s.rows[g].status != Granted
    ensures g < |Advance(s, act).rows| && Advance(s, act).rows[g] == s.rows[g]
  {
  }

  lemma RunNext(acts: seq<Act>, n: nat)
    requires 0 < n <= |acts|
    ensures Run(acts[..n]) == Advance(Run(acts[..n - 1]), acts[n - 1])
  {
    assert acts[..n][..n - 1] == acts[..n - 1];
  }

  lemma {:induction false} DenialStands(acts: seq<Act>, i: nat, n: nat, g: ApprovalRow)
    requires i < n <= |acts| && acts[i] == Answer(g, false)
    requires var rows := Run(acts[..i]).rows; g < |rows| && rows[g].status == Pending
    ensures var rows := Run(acts[..n]).rows; g < |rows| && rows[g].status == Denied
  {
    RunNext(acts, n);
    if i < n - 1 {
      DenialStands(acts, i, n - 1, g);
      KeepsSettled(Run(acts[..n - 1]), acts[n - 1], g);
    }
  }

  /** A human's no is final: the row stays denied and nothing is ever executed on it. */
  lemma {:induction false} DeniedNeverExecutes(acts: seq<Act>, i: nat, g: ApprovalRow)
    requires i < |acts| && acts[i] == Answer(g, false)
    requires var rows := Run(acts[..i]).rows; g < |rows| && rows[g].status == Pending
    ensures var s := Run(acts);
      && g < |s.rows| && s.rows[g].status == Denied
      && ExecutedBy(s, g) == 0 && forall e <- s.executions :: e.grant != g
  {
    DenialStands(acts, i, |acts|, g);
    assert acts[..|acts|] == acts;
    RunsAreSound(acts);
    ExecutionsNameTheirGrants(acts);
    assert UsedOnce(Run(acts), g);
  }

  /** The row is spent, and neither execution nor worker has it. */
  predicate Lost(s: State, g: ApprovalRow) {
    && g < |s.rows| && s.rows[g].status == Consumed
    && (forall e <- s.executions :: e.grant != g)
    && forall pc <- s.workers :: pc.Holding? ==> pc.grant != g
  }

  lemma LostStaysLost(s: State, act: Act, g: ApprovalRow)
    requires Lost(s, g)
    ensures Lost(Advance(s, act), g)
  {
    var t := Advance(s, act);
    KeepsConsumed(s, act);
    forall pc <- t.workers | pc.Holding? ensures pc.grant != g {
      if pc !in s.workers {
        assert act.Take? && s.workers[act.w].grant == pc.grant;
      }
    }
    forall e <- t.executions ensures e.grant != g {
      if e !in s.executions {
        assert s.workers[act.w] in s.workers;
      }
    }
  }

  lemma CrashLoses(s: State, w: nat)
    requires Sound(s) && w < |s.workers| && s.workers[w].Holding?
    ensures Lost(Advance(s, Crash(w)), s.workers[w].grant)
  {
    var g, t := s.workers[w].grant, Advance(s, Crash(w));
    assert UsedOnce(s, g);
    CountPositive(s.workers, s.workers[w], (pc: Pc) => pc.Holding? && pc.grant == g);
    WorkerCounts(s, w, Idle, 0, g);
    forall pc <- t.workers | pc.Holding? ensures pc.grant != g {
      if pc.grant == g {
        CountPositive(t.workers, pc, (q: Pc) => q.Holding? && q.grant == g);
      }
    }
    forall e <- s.executions ensures e.grant != g {
      if e.grant == g {
        CountPositive(s.executions, e, (x: Execution) => x.grant == g);
      }
    }
  }

  /** A grant is one-shot even for a worker that dies between consuming it and executing: nothing is ever
      executed on it, and a fresh approval is needed. */
  lemma {:induction false} CrashSpendsTheGrant(acts: seq<Act>, i: nat, n: nat, w: nat)
    requires i < n <= |acts| && acts[i] == Crash(w)
    requires var s := Run(acts[..i]); w < |s.workers| && s.workers[w].Holding?
    ensures Lost(Run(acts[..n]), Run(acts[..i]).workers[w].grant)
  {
    RunNext(acts, n);
    if i < n - 1 {
      CrashSpendsTheGrant(acts, i, n - 1, w);
      LostStaysLost(Run(acts[..n - 1]), acts[n - 1], Run(acts[..i]).workers[w].grant);
    } else {
      RunsAreSound(acts[..i]);
      CrashLoses(Run(acts[..i]), w);
    }
  }

  /** One pending-or-granted row per action in every run. */
  lemma {:induction false} OneOpenRowPerAction(acts: seq<Act>, i: nat, j: nat)
    requires var rows := Run(acts).rows; i < |rows| && j < |rows| && IsOpen(rows[i]) && IsOpen(rows[j])
    requires Run(acts).rows[i].fingerprint == Run(acts).rows[j].fingerprint
    ensures i == j
  {
    RunsAreSound(acts);
  }

  // ----- the choke point -----------------------------------------------------------------------

  datatype Tier = Green | Yellow | Red

  datatype Effect = Allow | NeedsApproval | Deny

  type Capability = nat

  /** `decide`: least privilege, then budget, then tier. */
  function Decide(required: set<Capability>, granted: set<Capability>, overBudget: bool, tier: Tier): (e: Effect)
    ensures e == Allow <==> required <= granted && !overBudget && tier != Red
    ensures e == Deny <==> !(required <= granted)
  {
    var missing := required - granted;
    if missing != {} then
      assert exists c :: c in missing;
      Deny
    else
      assert forall c <- required :: c !in missing;
      if overBudget then NeedsApproval
      else if tier == Red then NeedsApproval
      else Allow
  }

  datatype Event =
    | PolicyDecision(effect: Effect)
    | ApprovalRequested(approval: Option<ApprovalRow>)   // None for a request that is not stored
    | ApprovalResolved(row: ApprovalRow)
    | ToolInvoked(grant: Option<ApprovalRow>)

  datatype InvokeStatus = Ran | Refused | Waits(approval: Option<ApprovalRow>)

  /** The approvals table with its event sink, and the tool runs it authorized. */
  class ApprovalStore {
    var rows: seq<Approval>
    var events: seq<Event>
    var runs: nat

    constructor ()
      ensures rows == [] && events == [] && runs == 0
    {
      rows, events, runs := [], [], 0;
    }

    /** Returns the open row for the action, creating it when there is none. */
    method RequestApproval(f: Fingerprint) returns (a: ApprovalRow)
      modifies this`rows, this`events
      ensures rows == Request(old(rows), f)
      ensures rows == if exists r <- old(rows) :: r.fingerprint == f && (r.status == Pending || r.status == Granted)
                      then old(rows) else old(rows) + [Approval(f, Pending)]
      ensures a < |rows| && rows[a].fingerprint == f && IsOpen(rows[a])
      ensures events == old(events) + if rows == old(rows) then [] else [ApprovalRequested(Some(a))]
    {
      var existing := FindOpen(rows, f);
      if existing.Some? {
        return existing.value;
      }
      a := |rows|;
      rows := rows + [Approval(f, Pending)];
      events := events + [ApprovalRequested(Some(a))];
    }

    method ResolveApproval(a: ApprovalRow, approve: bool) returns (resolved: bool)
      modifies this`rows, this`events
      ensures rows == Resolve(old(rows), a, approve)
      ensures resolved == old(a < |rows| && rows[a].status == Pending)
      ensures resolved ==> rows == old(rows)[a := Approval(old(rows)[a].fingerprint, if approve then Granted else Denied)]
      ensures !resolved ==> rows == old(rows)
      ensures events == old(events) + if resolved then [ApprovalResolved(a)] else []
    {
      if a >= |rows| || rows[a].status != Pending {
        return false;
      }
      rows := rows[a := rows[a].(status := if approve then Granted else Denied)];
      events := events + [ApprovalResolved(a)];
      return true;
    }

    method ConsumeGrant(a: ApprovalRow) returns (consumed: bool)
      modifies this`rows
      ensures rows == Consume(old(rows), a)
      ensures consumed == old(a < |rows| && rows[a].status == Granted)
      ensures rows == if consumed then old(rows)[a := Approval(old(rows)[a].fingerprint, Consumed)] else old(rows)
    {
      if a >= |rows| || rows[a].status != Granted {
        return false;
      }
      rows := rows[a := rows[a].(status := Consumed)];
      return true;
    }

    /** `invoke`: the decision is logged first; a gated call runs only on a grant for exactly
        this action, which it consumes; otherwise it leaves an open request behind, or, without a
        database connection, only the event. */
    method Invoke(known: bool, required: set<Capability>, granted: set<Capability>, overBudget: bool,
                  tier: Tier, f: Fingerprint, connected: bool) returns (status: InvokeStatus)
      modifies this
      ensures status.Refused? <==> !known || Decide(required, granted, overBudget, tier) == Deny
      ensures runs == old(runs) + if status.Ran? then 1 else 0
      ensures status.Refused? ==> rows == old(rows) && events == old(events) + [PolicyDecision(Deny)]
      ensures known && Decide(required, granted, overBudget, tier) == Allow ==>
        status.Ran? && rows == old(rows) && events == old(events) + [PolicyDecision(Allow), ToolInvoked(None)]
      ensures known && Decide(required, granted, overBudget, tier) == NeedsApproval ==>
        (status.Ran? <==> connected && Approval(f, Granted) in old(rows))
      ensures known && Decide(required, granted, overBudget, tier) == NeedsApproval && status.Ran? ==>
        var g := FindGrant(old(rows), f);
        g.Some? && rows == Consume(old(rows), g.value) && rows[g.value] == Approval(f, Consumed)
        && events == old(events) + [PolicyDecision(NeedsApproval), ToolInvoked(g)]
      ensures status.Waits? && connected ==>
        && rows == Request(old(rows), f)
        && status.approval.Some? && status.approval.value < |rows|
        && rows[status.approval.value].fingerprint == f && IsOpen(rows[status.approval.value])
        && events == old(events) + [PolicyDecision(NeedsApproval)]
             + if rows == old(rows) then [] else [ApprovalRequested(status.approval)]
      ensures status.Waits? && !connected ==>
        && rows == old(rows) && status.approval.None?
        && events == old(events) + [PolicyDecision(NeedsApproval), ApprovalRequested(None)]
    {
      if !known {
        events := events + [PolicyDecision(Deny)];
        return Refused;
      }
      var effect := Decide(required, granted, overBudget, tier);
      events := events + [PolicyDecision(effect)];
      if effect == Deny {
        return Refused;
      }
      if effect == NeedsApproval && !connected {
        events := events + [ApprovalRequested(None)];
        return Waits(None);
      }
      if effect == NeedsApproval {
        var grant := FindGrant(rows, f);
        if grant.Some? {
          var consumed := ConsumeGrant(grant.value);
          if consumed {
            events := events + [ToolInvoked(grant)];
            runs := runs + 1;
            return Ran;
          }
        }
        var a := RequestApproval(f);
        return Waits(Some(a));
      }
      events := events + [ToolInvoked(None)];
      runs := runs + 1;
      return Ran;
    }
  }

  // ----- an uninterrupted invoke is a run of the protocol --------------------------------------------

  /** Look, then take and execute on a grant, else ask. */
  function InvokeActs(s: State, w: nat, f: Fingerprint): seq<Act> {
    if FindGrant(s.rows, f).Some? then [Look(w, f), Take(w), Execute(w)] else [Look(w, f), Ask(w)]
  }

  function AdvanceAll(s: State, acts: seq<Act>): State
    decreases |acts|
  {
    if acts == [] then s else AdvanceAll(Advance(s, acts[0]), acts[1..])
  }

  /** What `Invoke` does to the rows and its one execution are what its worker does in the protocol when
      nothing comes in between; the worker is idle again. */
  lemma UninterruptedInvoke(s: State, w: nat, f: Fingerprint)
    requires w < |s.workers| && s.workers[w].Idle?
    ensures var grant := FindGrant(s.rows, f);
      AdvanceAll(s, InvokeActs(s, w, f))
        == if grant.Some? then s.(rows := Consume(s.rows, grant.value), executions := s.executions + [Execution(f, grant.value)])
           else s.(rows := Request(s.rows, f))
  {
    var grant := FindGrant(s.rows, f);
    var looked := Advance(s, Look(w, f));
    if grant.Some? {
      var taken := Advance(looked, Take(w));
      assert taken.workers[w] == Holding(f, grant.value);
      assert Advance(taken, Execute(w)).workers == s.workers;
      assert AdvanceAll(taken, [Execute(w)]) == Advance(taken, Execute(w));
      assert AdvanceAll(looked, [Take(w), Execute(w)]) == AdvanceAll(taken, [Execute(w)]);
    } else {
      assert Advance(looked, Ask(w)).workers == s.workers;
      assert AdvanceAll(looked, [Ask(w)]) == Advance(looked, Ask(w));
    }
  }
}

/** The dependency-plan check (`assert_acyclic`, runtime/task_state.py): a three-colour
    depth-first search over a plan that maps each task to its prerequisites. */
module Acyclicity {
  import opened Common

  type Graph = map<int, seq<int>>

  datatype Color = White | Gray | Black

  /** How the check ends: normally, or with one of the two DependencyCycle messages. */
  datatype Outcome = Ok | SelfDependency(task: int) | Cycle(path: seq<int>)

  /** Task a lists b among its prerequisites. */
  predicate Edge(g: Graph, a: int, b: int) {
    a in g && b in g[a]
  }

  ghost predicate IsPath(g: Graph, p: seq<int>) {
    forall i, j :: 0 <= i < |p| - 1 && j == i + 1 ==> Edge(g, p[i], p[j])
  }

  ghost predicate IsCycle(g: Graph, p: seq<int>) {
    |p| >= 2 && IsPath(g, p) && p[0] == p[|p| - 1]
  }

  /** No closed walk: neither a self-edge nor a longer cycle. */
  ghost predicate Acyclic(g: Graph) {
    forall p :: !IsCycle(g, p)
  }

  /** Prerequisites come first. */
  ghost predicate PrerequisitesFirst(g: Graph, order: seq<int>) {
    forall i, d :: 0 <= i < |order| && Edge(g, order[i], d) ==> d in order[..i]
  }

  /** A valid schedule of the plan: every task of the plan once, prerequisites first. */
  ghost predicate TopologicalOrder(g: Graph, order: seq<int>) {
    Distinct(order) && PrerequisitesFirst(g, order) && forall n <- g :: n in order
  }

  /** The path in a reported cycle: a real dependency path whose last node is already on it. */
  ghost predicate ClosesOnItself(g: Graph, p: seq<int>) {
    |p| >= 2 && IsPath(g, p) && p[|p| - 1] in p[..|p| - 1]
  }

  /** A self-dependency has a message of its own. */
  predicate EndsInSelfEdge(p: seq<int>) {
    |p| >= 2 && p[|p| - 2] == p[|p| - 1]
  }

  function Nodes(g: Graph): set<int> {
    g.Keys + set n, d | n in g && d in g[n] :: d
  }

  lemma PathSuffix(g: Graph, p: seq<int>, k: nat)
    requires IsPath(g, p) && k <= |p|
    ensures IsPath(g, p[k..])
  {
  }

  /** Along a path of a scheduled plan the position strictly falls. */
  lemma {:induction false} PathsFall(g: Graph, order: seq<int>, p: seq<int>, i: nat)
    requires TopologicalOrder(g, order) && IsPath(g, p) && |p| >= 2
    requires i < |order| && order[i] == p[0]
    ensures p[|p| - 1] in order[..i]
  {
    assert Edge(g, p[0], p[1]);
    var j :| 0 <= j < i && order[j] == p[1];
    var rest := p[1..];
    if |rest| >= 2 {
      PathSuffix(g, p, 1);
      PathsFall(g, order, rest, j);
      assert order[..j] <= order[..i];
    }
  }

  /** A plan that can be scheduled has no cycle. */
  lemma ScheduleImpliesAcyclic(g: Graph, order: seq<int>)
    requires TopologicalOrder(g, order)
    ensures Acyclic(g)
  {
    forall p | |p| >= 2 && IsPath(g, p) ensures p[0] != p[|p| - 1] {
      assert Edge(g, p[0], p[1]);
      var i :| 0 <= i < |order| && order[i] == p[0];
      PathsFall(g, order, p, i);
      var j :| 0 <= j < i && order[j] == p[|p| - 1];
    }
  }

  /** A path that runs into itself contains a cycle. */
  lemma ClosingPathHasCycle(g: Graph, p: seq<int>)
    requires ClosesOnItself(g, p)
    ensures !Acyclic(g)
  {
    var k :| 0 <= k < |p| - 1 && p[k] == p[|p| - 1];
    var c := p[k..];
    PathSuffix(g, p, k);
    assert IsCycle(g, c);
  }

  lemma PathPrefix(g: Graph, p: seq<int>, n: int)
    requires IsPath(g, p + [n])
    ensures IsPath(g, p)
  {
    forall i, j | 0 <= i < |p| - 1 && j == i + 1 ensures Edge(g, p[i], p[j]) {
      assert Edge(g, (p + [n])[i], (p + [n])[j]);
    }
  }

  lemma AppendFinished(g: Graph, order: seq<int>, n: int)
    requires Distinct(order) && PrerequisitesFirst(g, order)
    requires n !in order && forall d :: Edge(g, n, d) ==> d in order
    ensures Distinct(order + [n]) && PrerequisitesFirst(g, order + [n])
  {
    var longer := order + [n];
    forall k, d | 0 <= k < |longer| && Edge(g, longer[k], d) ensures d in longer[..k] {
      assert longer[..k] == order[..k];
    }
  }

  /** The state the nested `visit` closes over. `finished` records the order in which nodes
      turn black. */
  class Search {
    const edges: Graph
    var color: map<int, Color>
    ghost var finished: seq<int>

    constructor (edges: Graph)
      ensures this.edges == edges && Inv([])
    {
      this.edges := edges;
      color := map n | n in edges :: White;
      finished := [];
    }

    /** `color.get(n, WHITE)` */
    function ColorOf(n: int): Color
      reads this
    {
      if n in color then color[n] else White
    }

    ghost function Whites(): set<int>
      reads this
    {
      set n | n in Nodes(edges) && ColorOf(n) == White
    }

    /** Gray is exactly the current path, black exactly the finished nodes. */
    ghost predicate Inv(path: seq<int>)
      reads this
    {
      && (forall n :: ColorOf(n) == Gray <==> n in path)
      && (forall n :: ColorOf(n) == Black <==> n in finished)
      && IsPath(edges, path)
      && Distinct(finished)
      && PrerequisitesFirst(edges, finished)
    }

    method Enter(n: int, stack: seq<int>)
      requires Inv(stack) && ColorOf(n) == White && n in Nodes(edges)
      requires stack != [] ==> Edge(edges, stack[|stack| - 1], n)
      modifies this
      ensures Inv(stack + [n]) && finished == old(finished)
      ensures Whites() == old(Whites()) - {n} && n in old(Whites())
    {
      color := color[n := Gray];
    }

    method Leave(n: int, stack: seq<int>)
      requires Inv(stack + [n]) && n !in stack
      requires forall d :: Edge(edges, n, d) ==> d in finished
      modifies this
      ensures Inv(stack) && finished == old(finished) + [n]
      ensures Whites() == old(Whites())
    {
      assert ColorOf(n) == Gray by { assert (stack + [n])[|stack|] == n; }
      assert forall m :: m in stack + [n] <==> m in stack || m == n;
      AppendFinished(edges, finished, n);
      PathPrefix(edges, stack, n);
      color := color[n := Black];
      finished := finished + [n];
    }

    method Visit(n: int, stack: seq<int>) returns (r: Outcome)
      requires Inv(stack) && ColorOf(n) == White && n in Nodes(edges)
      requires stack != [] ==> Edge(edges, stack[|stack| - 1], n)
      modifies this
      decreases Whites()
      ensures r.Ok? ==> Inv(stack) && n in finished
      ensures r.Ok? ==> old(finished) <= finished && Whites() < old(Whites())
      ensures r.SelfDependency? ==> Edge(edges, r.task, r.task)
      ensures r.Cycle? ==> ClosesOnItself(edges, r.path) && !EndsInSelfEdge(r.path)
    {
      Enter(n, stack);
      ghost var here := stack + [n];
      var deps := if n in edges then edges[n] else [];
      var i := 0;
      while i < |deps|
        invariant 0 <= i <= |deps|
        invariant Inv(here)
        invariant old(finished) <= finished && Whites() < old(Whites())
        invariant forall j :: 0 <= j < i ==> deps[j] in finished
      {
        var dep := deps[i];
        if dep == n {
          return SelfDependency(n);
        }
        if ColorOf(dep) == Gray {
          assert stack + [n, dep] == here + [dep];
          return Cycle(stack + [n, dep]);
        }
        if ColorOf(dep) == White {
          assert Edge(edges, n, dep);
          var inner := Visit(dep, stack + [n]);
          if !inner.Ok? {
            return inner;
          }
        }
        i := i + 1;
      }
      Leave(n, stack);
      return Ok;
    }
  }

  /** `assert_acyclic`: returns normally exactly when the plan has no cycle and no self-edge;
      a normal return comes with a schedule, a reported path is a real one. `keys` is the
      iteration order of the dictionary. */
  method AssertAcyclic(edges: Graph, keys: seq<int>) returns (r: Outcome, ghost order: seq<int>)
    requires forall n :: n in keys <==> n in edges
    ensures r.Ok? <==> Acyclic(edges)
    ensures r.Ok? ==> TopologicalOrder(edges, order)
    ensures r.SelfDependency? ==> Edge(edges, r.task, r.task)
    ensures r.Cycle? ==> ClosesOnItself(edges, r.path) && !EndsInSelfEdge(r.path)
  {
    var search := new Search(edges);
    order := [];
    var i := 0;
    while i < |keys|
      invariant 0 <= i <= |keys|
      invariant fresh(search) && search.edges == edges
      invariant search.Inv([])
      invariant forall j :: 0 <= j < i ==> keys[j] in search.finished
    {
      if search.ColorOf(keys[i]) == White {
        r := search.Visit(keys[i], []);
        if !r.Ok? {
          if r.SelfDependency? {
            assert IsCycle(edges, [r.task, r.task]);
          } else {
            ClosingPathHasCycle(edges, r.path);
          }
          return;
        }
      }
      i := i + 1;
    }
    order := search.finished;
    ScheduleImpliesAcyclic(edges, order);
    return Ok, order;
  }
}

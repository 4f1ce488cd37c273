/**
 Directed graphs as adjacency lists, with the paths and cycles that the
 topological sort is judged by.
 */
module Digraph {

  // The adjacency lists of sort.go: repeated edges are allowed, and a node may
  // appear only as a target, without a list of its own.
  type Graph<T> = map<T, seq<T>>

  // The distinct entries of a list.
  ghost function Elements<T>(s: seq<T>): set<T> {
    set x | x in s
  }

  // Everything that has an adjacency list or stands in one.
  ghost function Nodes<T>(g: Graph<T>): set<T> {
    set u, v | u in g && v in {u} + Elements(g[u]) :: v
  }

  ghost predicate Edge<T>(g: Graph<T>, u: T, v: T) {
    u in g && v in g[u]
  }

  lemma EdgeEndsAreNodes<T>(g: Graph<T>, u: T, v: T)
    requires Edge(g, u, v)
    ensures u in Nodes(g) && v in Nodes(g)
  {
    assert u in {u} + Elements(g[u]);
    assert v in {u} + Elements(g[u]);
  }

  lemma NodeIsKeyOrHead<T>(g: Graph<T>, v: T)
    ensures v in Nodes(g) <==> v in g || exists u :: u in g.Keys && v in g[u]
  {
    if v in g {
      assert v in {v} + Elements(g[v]);
    }
    if u :| u in g.Keys && v in g[u] {
      EdgeEndsAreNodes(g, u, v);
    }
  }

  ghost predicate IsPath<T>(g: Graph<T>, p: seq<T>) {
    && p != []
    && forall i | 0 < i < |p| :: Edge(g, p[i - 1], p[i])
  }

  // A closed walk along at least one edge; a self-loop is one.
  ghost predicate IsCycle<T>(g: Graph<T>, c: seq<T>) {
    IsPath(g, c) && |c| >= 2 && c[0] == c[|c| - 1]
  }

  ghost predicate HasCycle<T(!new)>(g: Graph<T>) {
    exists c :: IsCycle(g, c)
  }

  ghost predicate LeadsTo<T>(g: Graph<T>, c: seq<T>, p: seq<T>, v: T) {
    IsCycle(g, c) && IsPath(g, p) && p[0] == c[0] && p[|p| - 1] == v
  }

  // v lies on a cycle or can be reached from one.
  ghost predicate OnOrBelowCycle<T(!new)>(g: Graph<T>, v: T) {
    exists c, p :: LeadsTo(g, c, p, v)
  }

  ghost predicate NoDuplicates<T>(s: seq<T>) {
    forall i, j | 0 <= i < j < |s| :: s[i] != s[j]
  }

  // Every tail of an edge into a listed node is listed, and listed earlier.
  ghost predicate TailsFirst<T(!new)>(g: Graph<T>, order: seq<T>) {
    forall j, u | 0 <= j < |order| && Edge(g, u, order[j]) :: u in order[..j]
  }

  // No node outside the list has all its edge tails inside the list.
  ghost predicate Exhausted<T(!new)>(g: Graph<T>, order: seq<T>) {
    forall v | v in Nodes(g) && v !in order :: exists u :: Edge(g, u, v) && u !in order
  }

  lemma {:induction false} PathIntoOrder<T(!new)>(g: Graph<T>, order: seq<T>, p: seq<T>, j: nat)
    requires TailsFirst(g, order) && IsPath(g, p)
    requires j < |order| && p[|p| - 1] == order[j]
    ensures p[0] in order[..j + 1]
    ensures |p| >= 2 ==> p[0] in order[..j]
    decreases |p|
  {
    if |p| >= 2 {
      var q := p[..|p| - 1];
      assert Edge(g, p[|p| - 2], p[|p| - 1]);
      var i :| 0 <= i < j && order[i] == q[|q| - 1];
      PathIntoOrder(g, order, q, i);
    }
  }

  // A list with tails first holds nothing on or below a cycle.
  lemma ListedIsClearOfCycles<T(!new)>(g: Graph<T>, order: seq<T>, v: T)
    requires NoDuplicates(order) && TailsFirst(g, order) && v in order
    ensures !OnOrBelowCycle(g, v)
  {
    if c, p :| LeadsTo(g, c, p, v) {
      var j :| 0 <= j < |order| && order[j] == v;
      PathIntoOrder(g, order, p, j);
      var i :| 0 <= i < |order| && order[i] == c[0];
      PathIntoOrder(g, order, c, i);
    }
  }

  lemma {:induction false} BackwardWalk<T(!new)>(g: Graph<T>, order: seq<T>, v: T, n: nat) returns (p: seq<T>)
    requires Exhausted(g, order) && v in Nodes(g) && v !in order
    ensures IsPath(g, p) && |p| == n + 1 && p[n] == v
    ensures forall i | 0 <= i <= n :: p[i] in Nodes(g)
  {
    if n == 0 {
      return [v];
    }
    var u :| Edge(g, u, v) && u !in order;
    EdgeEndsAreNodes(g, u, v);
    var q := BackwardWalk(g, order, u, n - 1);
    p := q + [v];
  }

  lemma {:induction false} DistinctFit<T>(s: seq<T>, bound: set<T>)
    requires NoDuplicates(s) && forall x | x in s :: x in bound
    ensures |s| <= |bound|
  {
    if s == [] {
    } else {
      var last := s[|s| - 1];
      assert forall x | x in s[..|s| - 1] :: x in bound - {last};
      DistinctFit(s[..|s| - 1], bound - {last});
    }
  }

  // What an exhausted list leaves out is on or below a cycle.
  lemma UnlistedIsOnOrBelowCycle<T(!new)>(g: Graph<T>, order: seq<T>, v: T)
    requires Exhausted(g, order) && v in Nodes(g) && v !in order
    ensures OnOrBelowCycle(g, v)
  {
    var n := |Nodes(g)|;
    var p := BackwardWalk(g, order, v, n);
    if NoDuplicates(p) {
      DistinctFit(p, Nodes(g));
      assert false;
    }
    var i, j :| 0 <= i < j < |p| && p[i] == p[j];
    assert LeadsTo(g, p[i..j + 1], p[i..], v);
  }

  lemma CycleHasNode<T(!new)>(g: Graph<T>, c: seq<T>)
    requires IsCycle(g, c)
    ensures c[0] in Nodes(g) && OnOrBelowCycle(g, c[0])
  {
    EdgeEndsAreNodes(g, c[0], c[1]);
    assert LeadsTo(g, c, c[..1], c[0]);
  }

  /**
   The two closure conditions a finished list meets settle everything about it:
   its members are the nodes that no cycle reaches, and it holds every node
   exactly when the graph has no cycle.
   */
  lemma FinishedOrder<T(!new)>(g: Graph<T>, order: seq<T>)
    requires NoDuplicates(order) && TailsFirst(g, order) && Exhausted(g, order)
    requires forall v | v in order :: v in Nodes(g)
    ensures forall v :: v in order <==> v in Nodes(g) && !OnOrBelowCycle(g, v)
    ensures HasCycle(g) <==> exists v :: v in Nodes(g) && v !in order
  {
    forall v | v in Nodes(g)
      ensures v in order <==> !OnOrBelowCycle(g, v)
    {
      if v in order {
        ListedIsClearOfCycles(g, order, v);
      } else {
        UnlistedIsOnOrBelowCycle(g, order, v);
      }
    }
    if c :| IsCycle(g, c) {
      CycleHasNode(g, c);
    }
    if v :| v in Nodes(g) && v !in order {
      var c, p :| LeadsTo(g, c, p, v);
    }
  }
}

/** Kahn's algorithm as sort.go runs it, proved against the paths of Digraph. */
module TopologicalSort {
  import opened Digraph

  // The heads of all edges leaving the given nodes, one per edge.
  ghost function HeadsOf<T>(g: Graph<T>, tails: set<T>): multiset<T>
    requires tails <= g.Keys
  {
    if tails == {} then multiset{} else
      var u :| u in tails;
      multiset(g[u]) + HeadsOf(g, tails - {u})
  }

  // HeadsOf does not depend on the order in which the tails are taken.
  lemma {:induction false} HeadsOfSplit<T>(g: Graph<T>, tails: set<T>, w: T)
    requires tails <= g.Keys && w in tails
    ensures HeadsOf(g, tails) == multiset(g[w]) + HeadsOf(g, tails - {w})
    decreases tails
  {
    var u :| u in tails && HeadsOf(g, tails) == multiset(g[u]) + HeadsOf(g, tails - {u});
    if u != w {
      HeadsOfSplit(g, tails - {u}, w);
      HeadsOfSplit(g, tails - {w}, u);
      assert tails - {u} - {w} == tails - {w} - {u};
    }
  }

  lemma {:induction false} HeadsOfMember<T>(g: Graph<T>, tails: set<T>, v: T)
    requires tails <= g.Keys
    ensures v in HeadsOf(g, tails) <==> exists u :: u in tails && v in g[u]
    decreases tails
  {
    if tails == {} {
    } else {
      var u :| u in tails && HeadsOf(g, tails) == multiset(g[u]) + HeadsOf(g, tails - {u});
      HeadsOfMember(g, tails - {u}, v);
      assert v in multiset(g[u]) <==> v in g[u];
    }
  }

  // A table of in-degrees over the edges still owed.
  ghost predicate Counts<T(!new)>(indegrees: map<T, int>, owed: multiset<T>) {
    && (forall v | v in indegrees :: indegrees[v] == owed[v])
    && (forall v | v in owed :: v in indegrees)
  }

  lemma RestOfList<T>(s: seq<T>, k: nat)
    requires k < |s|
    ensures multiset(s[k..]) == multiset{s[k]} + multiset(s[k + 1..])
    ensures multiset(s[..k + 1]) == multiset(s[..k]) + multiset{s[k]}
  {
    assert s[k..] == [s[k]] + s[k + 1..];
    assert s[..k + 1] == s[..k] + [s[k]];
  }

  // A table of in-degrees whose keys are exactly the nodes counted.
  ghost predicate Tallies<T(!new)>(indegrees: map<T, int>, counted: multiset<T>) {
    Counts(indegrees, counted) && forall v | v in indegrees :: v in counted
  }

  method CountHeads<T(==, !new)>(heads: seq<T>, indegrees0: map<T, int>, ghost counted0: multiset<T>)
    returns (indegrees: map<T, int>)
    requires Tallies(indegrees0, counted0)
    ensures Tallies(indegrees, counted0 + multiset(heads))
  {
    indegrees := indegrees0;
    for k := 0 to |heads|
      invariant Tallies(indegrees, counted0 + multiset(heads[..k]))
    {
      var v := heads[k];
      RestOfList(heads, k);
      indegrees := indegrees[v := (if v in indegrees then indegrees[v] else 0) + 1];
    }
    assert heads[..|heads|] == heads;
  }

  method CountIndegrees<T(==, !new)>(digraph: Graph<T>) returns (indegrees: map<T, int>)
    ensures Tallies(indegrees, HeadsOf(digraph, digraph.Keys))
  {
    indegrees := map[];
    var unread := digraph.Keys;
    ghost var counted: multiset<T> := multiset{};
    while unread != {}
      invariant unread <= digraph.Keys
      invariant counted + HeadsOf(digraph, unread) == HeadsOf(digraph, digraph.Keys)
      invariant Tallies(indegrees, counted)
    {
      var u :| u in unread;
      HeadsOfSplit(digraph, unread, u);
      indegrees := CountHeads(digraph[u], indegrees, counted);
      counted := counted + multiset(digraph[u]);
      unread := unread - {u};
    }
  }

  method FindSources<T(==, !new)>(digraph: Graph<T>, indegrees: map<T, int>) returns (queue: seq<T>)
    ensures NoDuplicates(queue)
    ensures forall u :: u in queue <==> u in digraph && u !in indegrees
  {
    queue := [];
    var unread := digraph.Keys;
    while unread != {}
      invariant unread <= digraph.Keys
      invariant NoDuplicates(queue)
      invariant forall u :: u in queue <==> u in digraph && u !in unread && u !in indegrees
    {
      var u :| u in unread;
      if u !in indegrees {
        queue := queue + [u];
      }
      unread := unread - {u};
    }
  }

  // order and the work list hold, once each, the nodes that no owed edge enters.
  ghost predicate Settled<T(!new)>(g: Graph<T>, order: seq<T>, queue: seq<T>, owed: multiset<T>) {
    && NoDuplicates(order + queue)
    && (forall v :: v in order + queue <==> v in Nodes(g) && v !in owed)
  }

  // Popping u: its edges are paid one at a time, and a head whose last edge is
  // paid joins the work list.
  method PayEdges<T(==, !new)>(ghost g: Graph<T>, heads: seq<T>, ghost order: seq<T>, queue0: seq<T>,
                               indegrees0: map<T, int>, ghost rest: multiset<T>)
    returns (queue: seq<T>, indegrees: map<T, int>)
    requires Settled(g, order, queue0, multiset(heads) + rest)
    requires Counts(indegrees0, multiset(heads) + rest)
    requires forall v | v in heads :: v in Nodes(g)
    ensures Settled(g, order, queue, rest)
    ensures Counts(indegrees, rest)
    ensures indegrees.Keys == indegrees0.Keys
  {
    queue, indegrees := queue0, indegrees0;
    assert heads[0..] == heads;
    for k := 0 to |heads|
      invariant Settled(g, order, queue, multiset(heads[k..]) + rest)
      invariant Counts(indegrees, multiset(heads[k..]) + rest)
      invariant indegrees.Keys == indegrees0.Keys
    {
      var v := heads[k];
      RestOfList(heads, k);
      ghost var owed := multiset(heads[k..]) + rest;
      assert v in owed && v !in order + queue;
      indegrees := indegrees[v := indegrees[v] - 1];
      if indegrees[v] == 0 {
        assert order + (queue + [v]) == (order + queue) + [v];
        queue := queue + [v];
      }
    }
  }

  lemma SourcesAreSettled<T(!new)>(g: Graph<T>, queue: seq<T>)
    requires NoDuplicates(queue)
    requires forall u :: u in queue <==> u in g && u !in HeadsOf(g, g.Keys)
    ensures Settled(g, [], queue, HeadsOf(g, g.Keys))
  {
    assert [] + queue == queue;
    forall v
      ensures v in queue <==> v in Nodes(g) && v !in HeadsOf(g, g.Keys)
    {
      HeadsOfMember(g, g.Keys, v);
      NodeIsKeyOrHead(g, v);
    }
  }

  lemma NextHasTailsFirst<T(!new)>(g: Graph<T>, order: seq<T>, u: T, owed: multiset<T>)
    requires owed == HeadsOf(g, g.Keys - Elements(order))
    requires TailsFirst(g, order) && u !in owed
    ensures TailsFirst(g, order + [u])
  {
    forall w | Edge(g, w, u)
      ensures w in order
    {
      HeadsOfMember(g, g.Keys - Elements(order), u);
    }
    forall j, w | 0 <= j < |order + [u]| && Edge(g, w, (order + [u])[j])
      ensures w in (order + [u])[..j]
    {
      assert (order + [u])[..j] == order[..j];
    }
  }

  lemma SettledMove<T(!new)>(g: Graph<T>, order: seq<T>, queue: seq<T>, owed: multiset<T>)
    requires Settled(g, order, queue, owed) && queue != []
    ensures Settled(g, order + [queue[|queue| - 1]], queue[..|queue| - 1], owed)
    ensures queue[|queue| - 1] in Nodes(g) && queue[|queue| - 1] !in order
  {
    var u, init := queue[|queue| - 1], queue[..|queue| - 1];
    var s, t := order + queue, (order + [u]) + init;
    assert queue == init + [u];
    assert forall v :: v in s <==> v in t;
    forall i, j | 0 <= i < j < |t|
      ensures t[i] != t[j]
    {
      var p := (k: int) => if k < |order| then k else if k == |order| then |s| - 1 else k - 1;
      assert t[i] == s[p(i)] && t[j] == s[p(j)];
    }
    assert s[|s| - 1] == u;
    forall k | 0 <= k < |order|
      ensures order[k] != u
    {
      assert s[k] == order[k];
    }
  }

  lemma OwedSplit<T>(g: Graph<T>, order: seq<T>, u: T)
    requires u !in order
    ensures HeadsOf(g, g.Keys - Elements(order))
         == multiset(if u in g then g[u] else []) + HeadsOf(g, g.Keys - Elements(order + [u]))
  {
    var tails := g.Keys - Elements(order);
    assert g.Keys - Elements(order + [u]) == tails - {u};
    if u in g {
      HeadsOfSplit(g, tails, u);
    } else {
      assert tails - {u} == tails;
    }
  }

  lemma HeadsAreNodes<T>(g: Graph<T>, u: T)
    ensures u in g ==> forall v | v in g[u] :: v in Nodes(g)
  {
    if u in g {
      forall v | v in g[u]
        ensures v in Nodes(g)
      {
        EdgeEndsAreNodes(g, u, v);
      }
    }
  }

  lemma LeftoverIsExhausted<T(!new)>(g: Graph<T>, order: seq<T>, owed: multiset<T>)
    requires owed == HeadsOf(g, g.Keys - Elements(order))
    requires forall v :: v in order <==> v in Nodes(g) && v !in owed
    ensures Exhausted(g, order)
    ensures forall v | v in owed :: v in Nodes(g)
  {
    forall v | v in owed
      ensures v in Nodes(g) && exists u :: Edge(g, u, v) && u !in order
    {
      HeadsOfMember(g, g.Keys - Elements(order), v);
      var u :| u in g.Keys - Elements(order) && v in g[u];
      EdgeEndsAreNodes(g, u, v);
    }
  }

  // What holds between two pops of the work list.
  ghost predicate Sorting<T(!new)>(g: Graph<T>, order: seq<T>, queue: seq<T>, indegrees: map<T, int>) {
    var owed := HeadsOf(g, g.Keys - Elements(order));
    Settled(g, order, queue, owed) && Counts(indegrees, owed) && TailsFirst(g, order)
  }

  lemma SortingStarts<T(!new)>(g: Graph<T>, queue: seq<T>, indegrees: map<T, int>)
    requires Tallies(indegrees, HeadsOf(g, g.Keys))
    requires NoDuplicates(queue) && forall u :: u in queue <==> u in g && u !in indegrees
    ensures Sorting(g, [], queue, indegrees)
  {
    assert g.Keys - Elements<T>([]) == g.Keys;
    SourcesAreSettled(g, queue);
  }

  lemma SortingEnds<T(!new)>(g: Graph<T>, order: seq<T>, indegrees: map<T, int>)
    requires Sorting(g, order, [], indegrees)
    ensures NoDuplicates(order) && TailsFirst(g, order)
    ensures forall v :: v in order <==> v in Nodes(g) && !OnOrBelowCycle(g, v)
    ensures (exists v :: v in indegrees && indegrees[v] > 0) <==> HasCycle(g)
  {
    assert order + [] == order;
    var owed := HeadsOf(g, g.Keys - Elements(order));
    LeftoverIsExhausted(g, order, owed);
    if v :| v in Nodes(g) && v !in order {
      assert v in owed && v in indegrees;
    }
    if v :| v in indegrees && indegrees[v] > 0 {
      assert v in owed;
    }
    FinishedOrder(g, order);
  }

  method PopAndPay<T(==, !new)>(digraph: Graph<T>, order0: seq<T>, queue0: seq<T>, indegrees0: map<T, int>)
    returns (order: seq<T>, queue: seq<T>, indegrees: map<T, int>)
    requires Sorting(digraph, order0, queue0, indegrees0) && queue0 != []
    ensures Sorting(digraph, order, queue, indegrees)
    ensures order == order0 + [queue0[|queue0| - 1]]
    ensures Nodes(digraph) - Elements(order) < Nodes(digraph) - Elements(order0)
  {
    ghost var owed := HeadsOf(digraph, digraph.Keys - Elements(order0));
    var u := queue0[|queue0| - 1];
    SettledMove(digraph, order0, queue0, owed);
    NextHasTailsFirst(digraph, order0, u, owed);
    OwedSplit(digraph, order0, u);
    order := order0 + [u];
    assert u in Elements(order) && u !in Elements(order0) && Elements(order0) <= Elements(order);
    var heads := if u in digraph then digraph[u] else [];
    HeadsAreNodes(digraph, u);
    queue, indegrees := PayEdges(digraph, heads, order, queue0[..|queue0| - 1], indegrees0,
                                 HeadsOf(digraph, digraph.Keys - Elements(order)));
  }

  /**
   The whole sort, whatever order the map is read in.
   */
  method Sort<T(==, !new)>(digraph: Graph<T>) returns (order: seq<T>, notADag: bool)
    ensures NoDuplicates(order)
    ensures TailsFirst(digraph, order)
    ensures forall v :: v in order <==> v in Nodes(digraph) && !OnOrBelowCycle(digraph, v)
    ensures notADag <==> HasCycle(digraph)
  {
    var indegrees := CountIndegrees(digraph);
    var queue := FindSources(digraph, indegrees);
    order := [];
    SortingStarts(digraph, queue, indegrees);
    while |queue| > 0
      invariant Sorting(digraph, order, queue, indegrees)
      decreases Nodes(digraph) - Elements(order)
    {
      order, queue, indegrees := PopAndPay(digraph, order, queue, indegrees);
    }
    SortingEnds(digraph, order, indegrees);
    notADag := exists v :: v in indegrees && indegrees[v] > 0;
  }
}

/** What a successful SortManifests gives: the order, and what becomes of isolated manifests. */
module EventOrder {
  import opened Digraph
  import opened Manifests
  import opened EventSort
  import opened Wrappers

  // -------- dependencies come first --------

  lemma ArrangedDependenciesFirst(ms: seq<Manifest>, order: seq<Uuid>, out: seq<Manifest>)
    requires Arranges(ms, order, out)
    ensures DependenciesFirst(out)
  {
    forall i, d | 0 <= i < |out| && d in out[i].dependencies
      ensures d in Ids(out[..i])
    {
      assert i < |order| && Lookup(ms, order[i]) == Some(out[i]);
      assert Names(ms, order[i], d);
      GraphEdges(ms, d, order[i]);
      assert d in order[..i];
      var j :| 0 <= j < i && order[j] == d;
      assert Lookup(ms, order[j]) == Some(out[j]);
      assert out[j] in out[..i];
    }
  }

  lemma NamedIsDependency(ms: seq<Manifest>, m: Manifest, d: Uuid)
    requires m in ms && d in m.dependencies
    ensures d in AllDependencies(ms)
  {
    assert d in Elements(m.dependencies);
  }

  lemma OneIsUnordered(ms: seq<Manifest>)
    requires |ms| <= 1 && Closed(ms) && Acyclic(ms)
    ensures AllDependencies(ms) == {}
  {
    if d :| d in AllDependencies(ms) {
      var m :| m in ms && d in Elements(m.dependencies);
      assert d == m.id;
      assert Names(ms, d, d);
      GraphEdges(ms, d, d);
      assert IsCycle(DependencyGraph(ms), [d, d]);
    }
  }

  /**
   Whatever SortManifests answers, on closed acyclic dependencies it leaves the
   event in dependency order.
   */
  lemma SortedEventIsInOrder(ms: seq<Manifest>, out: seq<Manifest>, outcome: SortOutcome)
    requires SortResult(ms, out, outcome) && Closed(ms) && Acyclic(ms)
    ensures DependenciesFirst(out)
  {
    if |ms| <= 1 {
      OneIsUnordered(ms);
    }
    if AllDependencies(ms) == {} {
      forall m | m in ms
        ensures m.dependencies == []
      {
        if m.dependencies != [] {
          NamedIsDependency(ms, m, m.dependencies[0]);
        }
      }
    } else {
      var order :| Arranges(ms, order, out);
      ArrangedDependenciesFirst(ms, order, out);
    }
  }

  // -------- isolated manifests --------

  function Filter(ms: seq<Manifest>, keep: set<Manifest>): seq<Manifest> {
    if ms == [] then []
    else (if ms[0] in keep then [ms[0]] else []) + Filter(ms[1..], keep)
  }

  ghost function IsolatedSet(ms: seq<Manifest>): set<Manifest> {
    set m | m in ms && Isolated(ms, m)
  }

  ghost function Connected(ms: seq<Manifest>): seq<Manifest> {
    Filter(ms, Elements(ms) - IsolatedSet(ms))
  }

  ghost function IsolatedOnes(ms: seq<Manifest>): seq<Manifest> {
    Filter(ms, IsolatedSet(ms))
  }

  lemma {:induction false} FilterMember(ms: seq<Manifest>, keep: set<Manifest>, m: Manifest)
    ensures m in Filter(ms, keep) <==> m in ms && m in keep
  {
    if ms == [] {
    } else {
      FilterMember(ms[1..], keep, m);
      assert ms == [ms[0]] + ms[1..];
    }
  }

  lemma {:induction false} FilterPartition(ms: seq<Manifest>, keep: set<Manifest>, drop: set<Manifest>)
    requires keep !! drop && forall m | m in ms :: m in keep + drop
    ensures multiset(ms) == multiset(Filter(ms, keep)) + multiset(Filter(ms, drop))
    ensures |ms| == |Filter(ms, keep)| + |Filter(ms, drop)|
  {
    if ms == [] {
    } else {
      FilterPartition(ms[1..], keep, drop);
      FirstCounts(ms);
      FilterFirst(ms, keep);
      FilterFirst(ms, drop);
      assert ms[0] in keep + drop;
    }
  }

  lemma FirstCounts(ms: seq<Manifest>)
    requires ms != []
    ensures multiset(ms) == multiset{ms[0]} + multiset(ms[1..])
  {
    assert ms == [ms[0]] + ms[1..];
  }

  lemma FilterFirst(ms: seq<Manifest>, keep: set<Manifest>)
    requires ms != []
    ensures multiset(Filter(ms, keep))
         == (if ms[0] in keep then multiset{ms[0]} else multiset{}) + multiset(Filter(ms[1..], keep))
    ensures |Filter(ms, keep)| == (if ms[0] in keep then 1 else 0) + |Filter(ms[1..], keep)|
  {
  }

  lemma {:induction false} FilterUnique(ms: seq<Manifest>, keep: set<Manifest>)
    requires UniqueIds(ms)
    ensures NoDuplicates(Filter(ms, keep))
  {
    if ms == [] {
    } else {
      var rest := Filter(ms[1..], keep);
      FilterUnique(ms[1..], keep);
      FilterMember(ms[1..], keep, ms[0]);
    }
  }

  lemma {:induction false} DistinctMultiset<T>(s: seq<T>, x: T)
    requires NoDuplicates(s)
    ensures multiset(s)[x] == if x in s then 1 else 0
  {
    if s == [] {
    } else {
      DistinctMultiset(s[1..], x);
      assert s == [s[0]] + s[1..];
    }
  }

  lemma SameElementsSameMultiset<T(!new)>(s: seq<T>, t: seq<T>)
    requires NoDuplicates(s) && NoDuplicates(t)
    requires forall x :: x in s <==> x in t
    ensures multiset(s) == multiset(t)
  {
    forall x
      ensures multiset(s)[x] == multiset(t)[x]
    {
      DistinctMultiset(s, x);
      DistinctMultiset(t, x);
    }
  }

  lemma {:induction false} UniqueById(ms: seq<Manifest>, m: Manifest)
    requires UniqueIds(ms) && m in ms
    ensures Lookup(ms, m.id) == Some(m)
  {
    var found := Lookup(ms, m.id).value;
    var i :| 0 <= i < |ms| && ms[i] == m;
    var j :| 0 <= j < |ms| && ms[j] == found;
  }

  // A manifest is a node of its event's graph unless it is isolated.
  lemma ConnectedIsNode(ms: seq<Manifest>, m: Manifest)
    requires UniqueIds(ms) && m in ms
    ensures m.id in Nodes(DependencyGraph(ms)) <==> !Isolated(ms, m)
  {
    GraphNodes(ms, m.id);
    UniqueById(ms, m);
    forall w | w in ms && w.id == m.id
      ensures w == m
    {
      UniqueById(ms, w);
    }
  }

  lemma ArrangedFrontMember(ms: seq<Manifest>, order: seq<Uuid>, out: seq<Manifest>, m: Manifest)
    requires Arranges(ms, order, out) && UniqueIds(ms) && Closed(ms)
    ensures m in out[..|order|] <==> m in Connected(ms)
  {
    var g := DependencyGraph(ms);
    FilterMember(ms, Elements(ms) - IsolatedSet(ms), m);
    if m in out[..|order|] {
      var i :| 0 <= i < |order| && out[i] == m;
      assert Lookup(ms, order[i]) == Some(m) && order[i] in order;
      ConnectedIsNode(ms, m);
    }
    if m in Connected(ms) {
      ConnectedIsNode(ms, m);
      var i :| 0 <= i < |order| && order[i] == m.id;
      UniqueById(ms, m);
      assert Lookup(ms, order[i]) == Some(out[i]);
    }
  }

  /**
   The result is the connected manifests, in dependency order, followed by as
   many zero values as there were isolated ones.
   */
  lemma ArrangedParts(ms: seq<Manifest>, order: seq<Uuid>, out: seq<Manifest>)
    requires Arranges(ms, order, out) && UniqueIds(ms) && Closed(ms)
    ensures multiset(out[..|order|]) == multiset(Connected(ms))
    ensures |out| - |order| == |IsolatedOnes(ms)|
    ensures forall m | m in out[|order|..] :: m == ZERO_MANIFEST
    ensures forall m | m in out[|order|..] :: m.id == 0 && m.dependencies == [] && m.plugin == ""
  {
    var front := out[..|order|];
    forall i, j | 0 <= i < j < |order|
      ensures front[i] != front[j]
    {
      assert Lookup(ms, order[i]) == Some(out[i]) && Lookup(ms, order[j]) == Some(out[j]);
    }
    FilterUnique(ms, Elements(ms) - IsolatedSet(ms));
    forall m
      ensures m in front <==> m in Connected(ms)
    {
      ArrangedFrontMember(ms, order, out, m);
    }
    SameElementsSameMultiset(front, Connected(ms));
    assert |multiset(front)| == |multiset(Connected(ms))|;
    FilterPartition(ms, Elements(ms) - IsolatedSet(ms), IsolatedSet(ms));
  }

  lemma AllEqualMultiset<T>(s: seq<T>, t: seq<T>, z: T)
    requires |s| == |t| && forall x | x in t :: x == z
    ensures multiset(s) == multiset(t) <==> forall x | x in s :: x == z
  {
    if multiset(s) == multiset(t) {
      forall x | x in s
        ensures x == z
      {
        assert multiset(t)[x] > 0;
        assert x in t;
      }
    }
    if forall x | x in s :: x == z {
      forall k | 0 <= k < |s|
        ensures s[k] == t[k]
      {
        assert s[k] in s && t[k] in t;
      }
      assert s == t;
    }
  }

  /**
   A successful sort keeps the event's manifests exactly when no isolated one is
   lost, that is, when every isolated manifest already was the zero value.
   */
  lemma SortIsPermutation(ms: seq<Manifest>, out: seq<Manifest>, outcome: SortOutcome)
    requires SortResult(ms, out, outcome)
    requires |ms| > 1 && UniqueIds(ms) && Closed(ms) && Acyclic(ms) && AllDependencies(ms) != {}
    ensures multiset(out) == multiset(ms) <==>
            forall m | m in ms && Isolated(ms, m) :: m == ZERO_MANIFEST
  {
    var order :| Arranges(ms, order, out);
    ArrangedParts(ms, order, out);
    FilterPartition(ms, Elements(ms) - IsolatedSet(ms), IsolatedSet(ms));
    var tail := out[|order|..];
    assert out == out[..|order|] + tail;
    AllEqualMultiset(IsolatedOnes(ms), tail, ZERO_MANIFEST);
    forall m
      ensures m in IsolatedOnes(ms) <==> m in ms && Isolated(ms, m)
    {
      FilterMember(ms, IsolatedSet(ms), m);
    }
    var front := multiset(Connected(ms));
    assert multiset(out) == front + multiset(tail);
    assert multiset(ms) == front + multiset(IsolatedOnes(ms));
    CancelFront(front, multiset(tail), multiset(IsolatedOnes(ms)));
  }

  lemma CancelFront<T>(a: multiset<T>, b: multiset<T>, c: multiset<T>)
    ensures a + b == a + c <==> b == c
  {
    if a + b == a + c {
      assert a + b - a == b && a + c - a == c;
    }
  }

  // -------- the last manifest --------

  lemma TailIsNotLast<T(!new)>(g: Graph<T>, order: seq<T>, u: T, v: T)
    requires NoDuplicates(order) && TailsFirst(g, order)
    requires Edge(g, u, v) && v in order
    ensures order[|order| - 1] != u
  {
    var j :| 0 <= j < |order| && order[j] == v;
    var i :| 0 <= i < j && order[i] == u;
  }

  lemma LastOfOrderDepends(ms: seq<Manifest>, order: seq<Uuid>, m: Manifest)
    requires NoDuplicates(order) && TailsFirst(DependencyGraph(ms), order)
    requires forall v | v in Nodes(DependencyGraph(ms)) :: v in order
    requires order != [] && m.id == order[|order| - 1] && !Isolated(ms, m)
    ensures m.dependencies != []
  {
    if m.dependencies == [] {
      var w :| w in ms && m.id in Elements(w.dependencies);
      assert Names(ms, w.id, m.id);
      GraphEdges(ms, m.id, w.id);
      EdgeEndsAreNodes(DependencyGraph(ms), m.id, w.id);
      TailIsNotLast(DependencyGraph(ms), order, m.id, w.id);
    }
  }

  /**
   A sorted event that loses nothing ends with a manifest that has dependencies.
   */
  lemma SortedEventEndsDependent(ms: seq<Manifest>, out: seq<Manifest>, outcome: SortOutcome)
    requires SortResult(ms, out, outcome)
    requires |ms| > 1 && UniqueIds(ms) && Closed(ms) && Acyclic(ms) && AllDependencies(ms) != {}
    requires forall m | m in ms :: !Isolated(ms, m)
    ensures out[|out| - 1].dependencies != []
  {
    var order :| Arranges(ms, order, out);
    ArrangedParts(ms, order, out);
    if IsolatedOnes(ms) != [] {
      FilterMember(ms, IsolatedSet(ms), IsolatedOnes(ms)[0]);
    }
    var last := |out| - 1;
    assert Lookup(ms, order[last]) == Some(out[last]);
    LastOfOrderDepends(ms, order, out[last]);
  }

  // Three manifests, the second depending on the first and the third isolated.
  const EXAMPLE := [Manifest(1, [], "a"), Manifest(2, [1], "b"), Manifest(3, [], "c")]

  lemma ExampleIsWellFormed()
    ensures UniqueIds(EXAMPLE) && Closed(EXAMPLE) && Acyclic(EXAMPLE)
    ensures AllDependencies(EXAMPLE) == {1}
  {
    var g := DependencyGraph(EXAMPLE);
    assert 1 in Elements(EXAMPLE[1].dependencies) && EXAMPLE[1] in EXAMPLE && EXAMPLE[0] in EXAMPLE;
    if c :| IsCycle(g, c) {
      assert Edge(g, c[0], c[1]) && Edge(g, c[|c| - 2], c[|c| - 1]);
      GraphEdges(EXAMPLE, c[0], c[1]);
      GraphEdges(EXAMPLE, c[|c| - 2], c[|c| - 1]);
    }
  }

  // The sort reports success on it and loses the third manifest.
  lemma IsolatedManifestIsLost(out: seq<Manifest>, outcome: SortOutcome)
    requires SortResult(EXAMPLE, out, outcome)
    ensures outcome == Ordered && multiset(out) != multiset(EXAMPLE)
  {
    ExampleIsWellFormed();
    SortIsPermutation(EXAMPLE, out, outcome);
    assert EXAMPLE[2] in EXAMPLE && Isolated(EXAMPLE, EXAMPLE[2]);
  }
}

/** Manifests and the dependency graph they span. */
module Manifests {
  import opened Digraph

  // A 128-bit identifier, of which only equality and the zero value matter.
  type Uuid = nat

  datatype Manifest = Manifest(id: Uuid, dependencies: seq<Uuid>, plugin: string)

  // The value a fresh slice element of the manifest type has.
  const ZERO_MANIFEST := Manifest(0, [], "")

  // -------- the dependency graph --------

  ghost function AllDependencies(ms: seq<Manifest>): set<Uuid> {
    set m, d | m in ms && d in Elements(m.dependencies) :: d
  }

  // id, once for every occurrence of d in the list.
  ghost function OncePerOccurrence(deps: seq<Uuid>, d: Uuid, id: Uuid): seq<Uuid> {
    if deps == [] then []
    else OncePerOccurrence(deps[..|deps| - 1], d, id) + if deps[|deps| - 1] == d then [id] else []
  }

  // The manifests that name d, in list order, once per naming.
  ghost function Dependents(ms: seq<Manifest>, d: Uuid): seq<Uuid> {
    if ms == [] then []
    else
      var last := ms[|ms| - 1];
      Dependents(ms[..|ms| - 1], d) + OncePerOccurrence(last.dependencies, d, last.id)
  }

  ghost function DependencyGraph(ms: seq<Manifest>): Graph<Uuid> {
    map d | d in AllDependencies(ms) :: Dependents(ms, d)
  }

  ghost predicate Names(ms: seq<Manifest>, n: Uuid, d: Uuid) {
    exists m :: m in ms && m.id == n && d in m.dependencies
  }

  lemma {:induction false} OccurrenceMember(deps: seq<Uuid>, d: Uuid, id: Uuid, n: Uuid)
    ensures n in OncePerOccurrence(deps, d, id) <==> n == id && d in deps
  {
    if deps == [] {
    } else {
      OccurrenceMember(deps[..|deps| - 1], d, id, n);
      assert deps == deps[..|deps| - 1] + [deps[|deps| - 1]];
    }
  }

  lemma {:induction false} DependentsMember(ms: seq<Manifest>, d: Uuid, n: Uuid)
    ensures n in Dependents(ms, d) <==> Names(ms, n, d)
  {
    if ms == [] {
    } else {
      var init, last := ms[..|ms| - 1], ms[|ms| - 1];
      DependentsMember(init, d, n);
      OccurrenceMember(last.dependencies, d, last.id, n);
      assert ms == init + [last];
    }
  }

  // -------- one entry for each naming, in order --------

  // The k-th dependency of manifest i is d.
  ghost predicate NamedAt(ms: seq<Manifest>, d: Uuid, place: (nat, nat)) {
    && place.0 < |ms| && place.1 < |ms[place.0].dependencies|
    && ms[place.0].dependencies[place.1] == d
  }

  predicate Before(p: (nat, nat), q: (nat, nat)) {
    p.0 < q.0 || (p.0 == q.0 && p.1 < q.1)
  }

  // All places where d is named, from first to last, and who names it there.
  ghost predicate ReadsOff(ms: seq<Manifest>, d: Uuid, places: seq<(nat, nat)>, names: seq<Uuid>) {
    && |names| == |places|
    && (forall t | 0 <= t < |places| :: NamedAt(ms, d, places[t]) && names[t] == ms[places[t].0].id)
    && (forall t, u | 0 <= t < u < |places| :: Before(places[t], places[u]))
    && (forall place | NamedAt(ms, d, place) :: place in places)
  }

  lemma ReadOffNext(ms: seq<Manifest>, m: Manifest, dep: Uuid, d: Uuid, places: seq<(nat, nat)>, names: seq<Uuid>)
    requires ReadsOff(ms + [m], d, places, names)
    ensures var longer := m.(dependencies := m.dependencies + [dep]);
            if dep == d then ReadsOff(ms + [longer], d, places + [(|ms|, |m.dependencies|)], names + [m.id])
            else ReadsOff(ms + [longer], d, places, names)
  {
    var longer := m.(dependencies := m.dependencies + [dep]);
    forall place | NamedAt(ms + [longer], d, place) && place != (|ms|, |m.dependencies|)
      ensures place in places
    {
      assert NamedAt(ms + [m], d, place);
    }
    forall t | 0 <= t < |places|
      ensures NamedAt(ms + [longer], d, places[t])
      ensures Before(places[t], (|ms|, |m.dependencies|))
    {
      assert NamedAt(ms + [m], d, places[t]);
    }
  }

  lemma {:induction false} ReadOffDependencies(ms: seq<Manifest>, m: Manifest, d: Uuid,
                                               places0: seq<(nat, nat)>, names: seq<Uuid>)
    returns (places: seq<(nat, nat)>)
    requires ReadsOff(ms, d, places0, names)
    ensures ReadsOff(ms + [m], d, places, names + OncePerOccurrence(m.dependencies, d, m.id))
    decreases |m.dependencies|
  {
    var deps := m.dependencies;
    if deps == [] {
      places := places0;
      forall place | NamedAt(ms + [m], d, place)
        ensures place in places
      {
        assert NamedAt(ms, d, place);
      }
      forall t | 0 <= t < |places|
        ensures NamedAt(ms + [m], d, places[t])
      {
        assert NamedAt(ms, d, places[t]);
      }
      assert names + [] == names;
    } else {
      var n := |deps| - 1;
      var shorter := m.(dependencies := deps[..n]);
      places := ReadOffDependencies(ms, shorter, d, places0, names);
      var before := names + OncePerOccurrence(deps[..n], d, m.id);
      assert deps == deps[..n] + [deps[n]];
      ReadOffNext(ms, shorter, deps[n], d, places, before);
      if deps[n] == d {
        places := places + [(|ms|, n)];
        assert before + [m.id] == names + OncePerOccurrence(deps, d, m.id);
      } else {
        assert before == names + OncePerOccurrence(deps, d, m.id);
      }
    }
  }

  /**
   The graph has one entry for each naming: the manifests' dependency lists read from
   first to last.
   */
  lemma {:induction false} DependentsReadOff(ms: seq<Manifest>, d: Uuid) returns (places: seq<(nat, nat)>)
    ensures ReadsOff(ms, d, places, Dependents(ms, d))
  {
    if ms == [] {
      places := [];
    } else {
      var init, last := ms[..|ms| - 1], ms[|ms| - 1];
      places := DependentsReadOff(init, d);
      places := ReadOffDependencies(init, last, d, places, Dependents(init, d));
      assert ms == init + [last];
    }
  }

  // The graph's edges are exactly the declared dependencies.
  lemma GraphEdges(ms: seq<Manifest>, d: Uuid, n: Uuid)
    ensures Edge(DependencyGraph(ms), d, n) <==> Names(ms, n, d)
  {
    DependentsMember(ms, d, n);
    if Names(ms, n, d) {
      var m :| m in ms && m.id == n && d in m.dependencies;
      assert d in Elements(m.dependencies);
    }
  }

  // Nodes are the manifests that depend on something and whatever is depended on.
  lemma GraphNodes(ms: seq<Manifest>, v: Uuid)
    ensures v in Nodes(DependencyGraph(ms)) <==>
            v in AllDependencies(ms) || exists m :: m in ms && m.id == v && m.dependencies != []
  {
    var g := DependencyGraph(ms);
    NodeIsKeyOrHead(g, v);
    if m :| m in ms && m.id == v && m.dependencies != [] {
      var d := m.dependencies[0];
      assert Names(ms, v, d);
      GraphEdges(ms, d, v);
    }
    if u :| u in g.Keys && v in g[u] {
      DependentsMember(ms, u, v);
      var m :| m in ms && m.id == v && u in m.dependencies;
      assert m.dependencies != [];
    }
  }

  lemma {:induction false} DependentsEmpty(ms: seq<Manifest>, d: Uuid)
    ensures d in AllDependencies(ms) <==> Dependents(ms, d) != []
  {
    if d in AllDependencies(ms) {
      var m :| m in ms && d in Elements(m.dependencies);
      assert Names(ms, m.id, d);
      DependentsMember(ms, d, m.id);
    }
    if Dependents(ms, d) != [] {
      DependentsMember(ms, d, Dependents(ms, d)[0]);
      var m :| m in ms && d in m.dependencies;
      assert d in Elements(m.dependencies);
    }
  }

  // The list a partly built graph must hold for d: the manifests already read,
  // plus what the current one has added.
  ghost function ListSoFar(ms: seq<Manifest>, deps: seq<Uuid>, id: Uuid, d: Uuid): seq<Uuid> {
    Dependents(ms, d) + OncePerOccurrence(deps, d, id)
  }

  ghost predicate Listed(g: Graph<Uuid>, ms: seq<Manifest>, deps: seq<Uuid>, id: Uuid) {
    forall d :: Entry(g, d) == ListSoFar(ms, deps, id, d) && (d in g <==> Entry(g, d) != [])
  }

  function Entry(g: Graph<Uuid>, d: Uuid): seq<Uuid> {
    if d in g then g[d] else []
  }

  lemma ListedIsGraph(g: Graph<Uuid>, ms: seq<Manifest>, id: Uuid)
    requires Listed(g, ms, [], id)
    ensures g == DependencyGraph(ms)
  {
    forall d
      ensures d in g <==> d in AllDependencies(ms)
      ensures d in g ==> g[d] == Dependents(ms, d)
    {
      DependentsEmpty(ms, d);
      assert ListSoFar(ms, [], id, d) == Dependents(ms, d);
      assert Entry(g, d) == Dependents(ms, d);
    }
  }

  lemma ListSoFarGrows(ms: seq<Manifest>, deps: seq<Uuid>, id: Uuid, d: Uuid, x: Uuid)
    ensures ListSoFar(ms, deps + [d], id, x) == ListSoFar(ms, deps, id, x) + if x == d then [id] else []
  {
    assert (deps + [d])[..|deps|] == deps;
  }

  lemma NextOccurrence(g: Graph<Uuid>, ms: seq<Manifest>, deps: seq<Uuid>, id: Uuid, d: Uuid)
    requires Listed(g, ms, deps, id)
    ensures Listed(g[d := Entry(g, d) + [id]], ms, deps + [d], id)
  {
    var g' := g[d := Entry(g, d) + [id]];
    forall x
      ensures Entry(g', x) == ListSoFar(ms, deps + [d], id, x) && (x in g' <==> Entry(g', x) != [])
    {
      ListSoFarGrows(ms, deps, id, d, x);
      assert Entry(g, x) == ListSoFar(ms, deps, id, x);
    }
  }

  // The graph of a whole prefix: no manifest is half read.
  ghost predicate Complete(g: Graph<Uuid>, ms: seq<Manifest>) {
    forall id :: Listed(g, ms, [], id)
  }

  lemma NextManifest(g: Graph<Uuid>, ms: seq<Manifest>, m: Manifest)
    requires Listed(g, ms, m.dependencies, m.id)
    ensures Complete(g, ms + [m])
  {
    forall id, x
      ensures ListSoFar(ms + [m], [], id, x) == ListSoFar(ms, m.dependencies, m.id, x)
    {
      assert (ms + [m])[..|ms|] == ms;
    }
    assert forall x :: Entry(g, x) == ListSoFar(ms, m.dependencies, m.id, x);
  }

  method AddDependencies(digraph0: Graph<Uuid>, ghost before: seq<Manifest>, m: Manifest)
    returns (digraph: Graph<Uuid>)
    requires Listed(digraph0, before, [], m.id)
    ensures Listed(digraph, before, m.dependencies, m.id)
  {
    digraph := digraph0;
    var deps := m.dependencies;
    for k := 0 to |deps|
      invariant Listed(digraph, before, deps[..k], m.id)
    {
      var d := deps[k];
      NextOccurrence(digraph, before, deps[..k], m.id, d);
      assert deps[..k + 1] == deps[..k] + [d];
      if d in digraph {
        digraph := digraph[d := digraph[d] + [m.id]];
      } else {
        assert [] + [m.id] == [m.id];
        digraph := digraph[d := [m.id]];
      }
    }
    assert deps[..|deps|] == deps;
  }

  method DepsToGraph(ms: seq<Manifest>) returns (digraph: Graph<Uuid>)
    ensures digraph == DependencyGraph(ms)
  {
    digraph := map[];
    assert Complete(digraph, ms[..0]);
    for i := 0 to |ms|
      invariant Complete(digraph, ms[..i])
    {
      assert Listed(digraph, ms[..i], [], ms[i].id);
      digraph := AddDependencies(digraph, ms[..i], ms[i]);
      NextManifest(digraph, ms[..i], ms[i]);
      assert ms[..i + 1] == ms[..i] + [ms[i]];
    }
    assert ms[..|ms|] == ms;
    assert Listed(digraph, ms, [], 0);
    ListedIsGraph(digraph, ms, 0);
  }
}

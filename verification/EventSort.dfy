/** Event.SortManifests: what the reordered manifest list holds, and when it fails. */
module EventSort {
  import opened Digraph
  import opened Manifests
  import opened Wrappers
  import TopologicalSort

  ghost function Ids(ms: seq<Manifest>): set<Uuid> {
    set m | m in ms :: m.id
  }

  ghost predicate UniqueIds(ms: seq<Manifest>) {
    forall i, j | 0 <= i < j < |ms| :: ms[i].id != ms[j].id
  }

  // Every dependency is a manifest of the same event.
  ghost predicate Closed(ms: seq<Manifest>) {
    AllDependencies(ms) <= Ids(ms)
  }

  ghost predicate Acyclic(ms: seq<Manifest>) {
    !HasCycle(DependencyGraph(ms))
  }

  // Depends on nothing, and nothing depends on it.
  ghost predicate Isolated(ms: seq<Manifest>, m: Manifest) {
    m.dependencies == [] && m.id !in AllDependencies(ms)
  }

  // Every dependency of a manifest belongs to one listed before it.
  ghost predicate DependenciesFirst(ms: seq<Manifest>) {
    forall i, d | 0 <= i < |ms| && d in ms[i].dependencies :: d in Ids(ms[..i])
  }

  // -------- getManifest --------

  function Lookup(ms: seq<Manifest>, id: Uuid): (found: Option<Manifest>)
    ensures found.Some? ==> found.value in ms && found.value.id == id
    ensures found.None? ==> forall m | m in ms :: m.id != id
  {
    if ms == [] then None
    else if ms[0].id == id then Some(ms[0])
    else Lookup(ms[1..], id)
  }

  ghost predicate IsFirstWith(ms: seq<Manifest>, i: nat, id: Uuid) {
    i < |ms| && ms[i].id == id && forall j | 0 <= j < i :: ms[j].id != id
  }

  lemma {:induction false} LookupIsFirst(ms: seq<Manifest>, i: nat, id: Uuid)
    requires IsFirstWith(ms, i, id)
    ensures Lookup(ms, id) == Some(ms[i])
  {
    if i == 0 {
    } else {
      LookupIsFirst(ms[1..], i - 1, id);
    }
  }

  method GetManifest(ms: seq<Manifest>, id: Uuid) returns (found: Option<Manifest>)
    ensures found == Lookup(ms, id)
    ensures forall i: nat | IsFirstWith(ms, i, id) :: found == Some(ms[i])
    ensures found.None? <==> forall m | m in ms :: m.id != id
  {
    forall i: nat | IsFirstWith(ms, i, id)
      ensures Lookup(ms, id) == Some(ms[i])
    {
      LookupIsFirst(ms, i, id);
    }
    for i := 0 to |ms|
      invariant Lookup(ms, id) == Lookup(ms[i..], id)
    {
      if ms[i].id == id {
        return Some(ms[i]);
      }
    }
    return None;
  }

  // -------- the write stays in range --------

  lemma {:induction false} IdsFit(ms: seq<Manifest>)
    ensures |Ids(ms)| <= |ms|
  {
    if ms == [] {
    } else {
      IdsFit(ms[1..]);
      assert Ids(ms) == {ms[0].id} + Ids(ms[1..]);
    }
  }

  /**
   The k-th id of the order, found or not, has a slot: when it belongs to no
   manifest, whoever depends on it comes later and still owns a slot.
   */
  lemma SlotExists(ms: seq<Manifest>, order: seq<Uuid>, k: nat)
    requires NoDuplicates(order) && TailsFirst(DependencyGraph(ms), order)
    requires k < |order| && order[k] in Nodes(DependencyGraph(ms))
    requires forall i | 0 <= i < k :: order[i] in Ids(ms)
    ensures k < |ms|
  {
    var id := order[k];
    var owner := id;
    if id !in Ids(ms) {
      GraphNodes(ms, id);
      var m :| m in ms && id in Elements(m.dependencies);
      owner := m.id;
      assert Names(ms, m.id, id);
      GraphEdges(ms, id, m.id);
      forall j | 0 <= j < k
        ensures order[j] != m.id
      {
        assert id !in order[..j];
      }
    }
    var slots := order[..k] + [owner];
    DistinctFit(slots, Ids(ms));
    IdsFit(ms);
  }

  // -------- the sort --------

  datatype SortOutcome =
    | Ordered
    | NoDependencies
    | NotADag
    | MissingManifest(index: nat)

  // out lists the manifests of the given ids and fills up with zero values.
  ghost predicate Arranges(ms: seq<Manifest>, order: seq<Uuid>, out: seq<Manifest>) {
    && |order| <= |ms| == |out|
    && NoDuplicates(order)
    && TailsFirst(DependencyGraph(ms), order)
    && (forall v :: v in order <==> v in Nodes(DependencyGraph(ms)))
    && (forall i | 0 <= i < |order| :: Lookup(ms, order[i]) == Some(out[i]))
    && (forall i | |order| <= i < |out| :: out[i] == ZERO_MANIFEST)
  }

  ghost predicate SortResult(ms: seq<Manifest>, out: seq<Manifest>, outcome: SortOutcome) {
    if |ms| <= 1 then outcome == Ordered && out == ms
    else if AllDependencies(ms) == {} then outcome == NoDependencies && out == ms
    else if !Acyclic(ms) then outcome == NotADag && out == ms
    else if !Closed(ms) then outcome.MissingManifest? && outcome.index < |ms| && out == ms
    else outcome == Ordered && exists order :: Arranges(ms, order, out)
  }

  class Event {
    var manifests: seq<Manifest>

    constructor (ms: seq<Manifest>)
      ensures manifests == ms
    {
      manifests := ms;
    }

    // None when no manifest names a dependency.
    method TopoSort() returns (order: Option<seq<Uuid>>, notADag: bool)
      ensures order.None? <==> AllDependencies(manifests) == {}
      ensures order.Some? ==>
        var g := DependencyGraph(manifests);
        && NoDuplicates(order.value)
        && TailsFirst(g, order.value)
        && (forall v :: v in order.value <==> v in Nodes(g) && !OnOrBelowCycle(g, v))
        && (notADag <==> HasCycle(g))
    {
      var digraph := DepsToGraph(manifests);
      if |digraph| == 0 {
        assert digraph.Keys == {};
        return None, false;
      }
      var ids;
      ids, notADag := TopologicalSort.Sort(digraph);
      order := Some(ids);
    }

    /**
     Every outcome, decided by the manifests alone. The slice write below is
     checked to be in range for every input, duplicate and unknown ids included.
     */
    method SortManifests() returns (outcome: SortOutcome)
      modifies this
      ensures SortResult(old(manifests), manifests, outcome)
    {
      if |manifests| <= 1 {
        return Ordered;
      }
      var order, notADag := TopoSort();
      if order.None? {
        return NoDependencies;
      }
      if notADag {
        return NotADag;
      }
      outcome := Reorder(order.value);
    }

    method Reorder(orderedIds: seq<Uuid>) returns (outcome: SortOutcome)
      requires |manifests| > 1 && AllDependencies(manifests) != {} && Acyclic(manifests)
      requires NoDuplicates(orderedIds) && TailsFirst(DependencyGraph(manifests), orderedIds)
      requires forall v :: v in orderedIds <==> v in Nodes(DependencyGraph(manifests))
      modifies this
      ensures SortResult(old(manifests), manifests, outcome)
    {
      var slots := new Manifest[|manifests|](_ => ZERO_MANIFEST);
      for i := 0 to |orderedIds|
        modifies slots
        invariant i <= |manifests|
        invariant forall j | 0 <= j < i :: Lookup(manifests, orderedIds[j]) == Some(slots[j])
        invariant forall j | i <= j < slots.Length :: slots[j] == ZERO_MANIFEST
      {
        var found := GetManifest(manifests, orderedIds[i]);
        SlotExists(manifests, orderedIds, i);
        slots[i] := if found.Some? then found.value else ZERO_MANIFEST;
        if found.None? {
          UnknownIsDangling(manifests, orderedIds[i]);
          return MissingManifest(i);
        }
      }
      AllFoundIsClosed(manifests, orderedIds);
      assert Arranges(manifests, orderedIds, slots[..]);
      manifests := slots[..];
      outcome := Ordered;
    }
  }

  lemma UnknownIsDangling(ms: seq<Manifest>, id: Uuid)
    requires id in Nodes(DependencyGraph(ms)) && id !in Ids(ms)
    ensures !Closed(ms)
  {
    GraphNodes(ms, id);
  }

  lemma AllFoundIsClosed(ms: seq<Manifest>, order: seq<Uuid>)
    requires forall v | v in Nodes(DependencyGraph(ms)) :: v in order
    requires forall i | 0 <= i < |order| :: Lookup(ms, order[i]).Some?
    ensures Closed(ms)
  {
    forall d | d in AllDependencies(ms)
      ensures d in Ids(ms)
    {
      GraphNodes(ms, d);
      var i :| 0 <= i < |order| && order[i] == d;
      assert Lookup(ms, order[i]).value in ms;
    }
  }
}

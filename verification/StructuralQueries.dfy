/** Structural dependency queries over the graph store (`backend/graph/queries.py`). */
module StructuralQueries {
  import opened Domain
  import opened GraphStore
  import opened BreadthFirst

  function KeysOf(refs: seq<NodeRef>): seq<string> {
    seq(|refs|, i requires 0 <= i < |refs| => refs[i].key)
  }

  /** The keys one step away from a service; the kind of the neighbour is not looked at. */
  function NextKeys(adj: Adjacency, rel: EdgeKind, key: string): seq<string> {
    KeysOf(At(adj, Slot(NodeRef(NodeKind.Service, key), rel)))
  }

  function Stepper(adj: Adjacency, rel: EdgeKind): Next { key => NextKeys(adj, rel, key) }

  /** Every key some adjacency list mentions. */
  ghost function Universe(adj: Adjacency, start: string): set<string> {
    (set slot, r | slot in adj && r in adj[slot] :: r.key) + {start}
  }

  lemma StepsStayInUniverse(adj: Adjacency, rel: EdgeKind, start: string)
    ensures forall key, y <- Stepper(adj, rel)(key) :: y in Universe(adj, start)
  {
    forall key, y <- Stepper(adj, rel)(key) ensures y in Universe(adj, start) {
      var slot := Slot(NodeRef(NodeKind.Service, key), rel);
      var i :| 0 <= i < |At(adj, slot)| && At(adj, slot)[i].key == y;
      assert At(adj, slot)[i] in adj[slot];
    }
  }

  /** Breadth-first search over one relationship, out or in; an unknown service yields nothing. */
  method BfsServices(store: InMemoryGraphStore, start: string, rel: EdgeKind, outgoing: bool,
                     maxHops: int) returns (byHop: Buckets)
    requires store.Valid()
    ensures NodeRef(NodeKind.Service, start) !in store.nodes ==> byHop == map[]
    ensures NodeRef(NodeKind.Service, start) in store.nodes ==>
              ExactBuckets(Stepper(if outgoing then store.outAdj else store.inAdj, rel), start, maxHops, byHop)
  {
    if NodeRef(NodeKind.Service, start) !in store.nodes {
      return map[];
    }
    var adj := if outgoing then store.outAdj else store.inAdj;
    StepsStayInUniverse(adj, rel, start);
    byHop := Search(Stepper(adj, rel), start, maxHops, Universe(adj, start));
  }

  method ServiceDependencies(store: InMemoryGraphStore, service: string, maxHops: int) returns (byHop: Buckets)
    requires store.Valid()
    ensures NodeRef(NodeKind.Service, service) !in store.nodes ==> byHop == map[]
    ensures NodeRef(NodeKind.Service, service) in store.nodes ==>
              ExactBuckets(Stepper(store.outAdj, CALLS), service, maxHops, byHop)
  {
    byHop := BfsServices(store, service, CALLS, true, maxHops);
  }

  method ServiceDependents(store: InMemoryGraphStore, service: string, maxHops: int) returns (byHop: Buckets)
    requires store.Valid()
    ensures NodeRef(NodeKind.Service, service) !in store.nodes ==> byHop == map[]
    ensures NodeRef(NodeKind.Service, service) in store.nodes ==>
              ExactBuckets(Stepper(store.inAdj, CALLS), service, maxHops, byHop)
  {
    byHop := BfsServices(store, service, CALLS, false, maxHops);
  }

  /** The relationship joins services only, as the graph builder emits CALLS. */
  ghost predicate BetweenServices(adj: Adjacency, rel: EdgeKind) {
    forall s, d | Adjacent(adj, s, rel, d) :: s.kind.Service? && d.kind.Service?
  }

  lemma StepIsAdjacency(adj: Adjacency, rel: EdgeKind, x: string, y: string)
    requires BetweenServices(adj, rel)
    ensures y in Stepper(adj, rel)(x) <==>
        Adjacent(adj, NodeRef(NodeKind.Service, x), rel, NodeRef(NodeKind.Service, y))
  {
    var s, d := NodeRef(NodeKind.Service, x), NodeRef(NodeKind.Service, y);
    var refs := At(adj, Slot(s, rel));
    if y in NextKeys(adj, rel, x) {
      var i :| 0 <= i < |refs| && refs[i].key == y;
      assert Adjacent(adj, s, rel, refs[i]);
    }
    if Adjacent(adj, s, rel, d) {
      var i :| 0 <= i < |refs| && refs[i] == d;
      assert NextKeys(adj, rel, x)[i] == y;
    }
  }

  /** The mirrored tables step through each other's converse. */
  lemma MirrorsAreConverse(out: Adjacency, into: Adjacency, rel: EdgeKind)
    requires Mirrors(out, into) && BetweenServices(out, rel)
    ensures Converse(Stepper(out, rel), Stepper(into, rel))
  {
    forall s, d | Adjacent(into, s, rel, d) ensures s.kind.Service? && d.kind.Service? {
      assert Adjacent(out, d, rel, s);
    }
    forall x, y ensures y in Stepper(out, rel)(x) <==> x in Stepper(into, rel)(y) {
      StepIsAdjacency(out, rel, x, y);
      StepIsAdjacency(into, rel, y, x);
    }
  }

  /** y is among x's dependencies at hop h exactly when x is among y's dependents at hop h. */
  lemma DependenciesAndDependentsAgree(store: InMemoryGraphStore, x: string, y: string, h: nat, maxHops: int,
                                       dependencies: Buckets, dependents: Buckets)
    requires store.Valid() && BetweenServices(store.outAdj, CALLS)
    requires ExactBuckets(Stepper(store.outAdj, CALLS), x, maxHops, dependencies)
    requires ExactBuckets(Stepper(store.inAdj, CALLS), y, maxHops, dependents)
    ensures InBucket(dependencies, h, y) <==> InBucket(dependents, h, x)
  {
    MirrorsAreConverse(store.outAdj, store.inAdj, CALLS);
    DistanceReverses(Stepper(store.outAdj, CALLS), Stepper(store.inAdj, CALLS), h, x, y);
  }

  /** One hop is one CALLS relationship of the graph, out of the service for its dependencies, into it for its
      dependents. */
  lemma HopIsACall(store: InMemoryGraphStore, x: string, y: string)
    requires store.Valid() && BetweenServices(store.outAdj, CALLS)
    ensures y in Stepper(store.outAdj, CALLS)(x) <==>
              Link(NodeRef(NodeKind.Service, x), CALLS, NodeRef(NodeKind.Service, y)) in Links(store.outAdj)
    ensures y in Stepper(store.inAdj, CALLS)(x) <==>
              Link(NodeRef(NodeKind.Service, y), CALLS, NodeRef(NodeKind.Service, x)) in Links(store.outAdj)
  {
    StepIsAdjacency(store.outAdj, CALLS, x, y);
    StepIsAdjacency(store.outAdj, CALLS, y, x);
    MirrorsAreConverse(store.outAdj, store.inAdj, CALLS);
  }
}

/** Loading the partitioned estate into the graph database (`backend/orchestration/activities.py`,
    `backend/orchestration/worker.py`), against loading the whole graph at once. The database is what
    the MERGE and MATCH statements of `backend/graph/neo4j_store.py` make of it. */
module EstateLoad {
  import opened Domain
  import opened EstatePartition
  import opened GraphStore
  import Workflow
  import CrashMachine
  import CrashSafety

  datatype Database = Database(nodes: map<NodeRef, Properties>, rels: map<Link, Properties>)

  function PropertiesAt<K>(rows: map<K, Properties>, k: K): Properties { if k in rows then rows[k] else map[] }

  function Merged<K>(rows: map<K, Properties>, k: K, more: Properties): map<K, Properties> {
    rows[k := PropertiesAt(rows, k) + more]
  }

  /** Create or update the node; properties it had and the row does not mention stay. */
  function UpsertNodes(db: Database, nodes: seq<Node>): Database {
    if nodes == [] then db
    else
      var before := UpsertNodes(db, nodes[..|nodes| - 1]);
      var n := nodes[|nodes| - 1];
      before.(nodes := Merged(before.nodes, n.ref, n.properties))
  }

  /** Create or update the relationship, if both endpoints exist; otherwise the row is dropped silently. */
  function UpsertEdge(db: Database, e: Edge): Database {
    if e.link.src in db.nodes && e.link.dst in db.nodes then
      db.(rels := Merged(db.rels, e.link, e.properties))
    else db
  }

  function UpsertEdges(db: Database, edges: seq<Edge>): Database {
    if edges == [] then db
    else UpsertEdge(UpsertEdges(db, edges[..|edges| - 1]), edges[|edges| - 1])
  }

  function BulkLoad(db: Database, g: GraphBuild): Database { UpsertEdges(UpsertNodes(db, g.nodes), g.edges) }

  /** The two graph writes of one service's activity; a worker may die between them. */
  datatype LoadStep = OwnNodes(service: string) | OwnEdges(service: string)

  function RunStep(db: Database, work: EstateWork, step: LoadStep): Database {
    var unit := WorkAt(work.byService, step.service);
    if step.OwnNodes? then UpsertNodes(db, unit.nodes) else UpsertEdges(db, unit.edges)
  }

  function RunSteps(db: Database, work: EstateWork, steps: seq<LoadStep>): Database {
    if steps == [] then db
    else RunStep(RunSteps(db, work, steps[..|steps| - 1]), work, steps[|steps| - 1])
  }

  /** After the last service: global nodes, then the edges that cross services. */
  function Finalise(db: Database, work: EstateWork): Database {
    UpsertEdges(UpsertNodes(db, work.sharedNodes), work.crossServiceEdges)
  }

  /** No service's edges are written before its nodes; anything may be repeated or interleaved. */
  ghost predicate Orderly(steps: seq<LoadStep>) {
    forall i :: 0 <= i < |steps| && steps[i].OwnEdges? ==> OwnNodes(steps[i].service) in steps[..i]
  }

  ghost predicate CoversEstate(work: EstateWork, steps: seq<LoadStep>) {
    forall s <- work.byService :: OwnEdges(s) in steps
  }

  /** One row per node key and per edge key. */
  ghost predicate UniqueKeys(g: GraphBuild) {
    && (forall a, b | a in g.nodes && b in g.nodes && a.ref == b.ref :: a == b)
    && (forall a, b | a in g.edges && b in g.edges && a.link == b.link :: a == b)
  }

  // ----- What a set of writes amounts to -----

  ghost function NodeRows(g: GraphBuild): map<NodeRef, Properties>
    requires UniqueKeys(g)
  {
    map r | r in RefsOf(g.nodes) :: (var n :| n in g.nodes && n.ref == r; n).properties
  }

  ghost function EdgeRows(g: GraphBuild): map<Link, Properties>
    requires UniqueKeys(g)
  {
    map l | l in LinksOf(g.edges) :: (var e :| e in g.edges && e.link == l; e).properties
  }

  /** The rows with those in `keys` merged in. */
  ghost function Stamped<K>(before: map<K, Properties>, rows: map<K, Properties>, keys: set<K>): map<K, Properties>
    requires keys <= rows.Keys
  {
    map k | k in before.Keys + keys :: if k in keys then PropertiesAt(before, k) + rows[k] else before[k]
  }

  lemma StampOnceMore<K>(before: map<K, Properties>, rows: map<K, Properties>, keys: set<K>, k: K)
    requires keys <= rows.Keys && k in rows
    ensures Merged(Stamped(before, rows, keys), k, rows[k]) == Stamped(before, rows, keys + {k})
  {
    assert PropertiesAt(before, k) + rows[k] + rows[k] == PropertiesAt(before, k) + rows[k];
  }

  /** The database after exactly these nodes and relationships have been written, at least once each. */
  ghost function Written(db: Database, g: GraphBuild, refs: set<NodeRef>, links: set<Link>): Database
    requires UniqueKeys(g) && refs <= RefsOf(g.nodes) && links <= LinksOf(g.edges)
  {
    Database(Stamped(db.nodes, NodeRows(g), refs), Stamped(db.rels, EdgeRows(g), links))
  }

  /** The edges whose endpoints are among `present`. */
  ghost function Landing(edges: seq<Edge>, present: set<NodeRef>): set<Link> {
    set e | e in edges && e.link.src in present && e.link.dst in present :: e.link
  }

  lemma NodeWrites(db: Database, g: GraphBuild, refs: set<NodeRef>, links: set<Link>, n: Node)
    requires UniqueKeys(g) && refs <= RefsOf(g.nodes) && links <= LinksOf(g.edges) && n in g.nodes
    ensures refs + {n.ref} <= RefsOf(g.nodes)
    ensures var before := Written(db, g, refs, links);
            before.(nodes := Merged(before.nodes, n.ref, n.properties)) == Written(db, g, refs + {n.ref}, links)
  {
    StampOnceMore(db.nodes, NodeRows(g), refs, n.ref);
  }

  lemma UpsertOneMore(db: Database, rest: seq<Node>, n: Node)
    ensures var before := UpsertNodes(db, rest);
            UpsertNodes(db, rest + [n]) == before.(nodes := Merged(before.nodes, n.ref, n.properties))
  {
    assert (rest + [n])[..|rest|] == rest;
  }

  lemma RefsOfOneMore(refs: set<NodeRef>, rest: seq<Node>, n: Node)
    ensures refs + RefsOf(rest + [n]) == refs + RefsOf(rest) + {n.ref}
  {
    assert forall x :: x in rest + [n] <==> x in rest || x == n;
  }

  lemma {:induction false} NodesWrite(db: Database, g: GraphBuild, refs: set<NodeRef>, links: set<Link>,
                                      nodes: seq<Node>)
    requires UniqueKeys(g) && refs <= RefsOf(g.nodes) && links <= LinksOf(g.edges)
    requires forall n <- nodes :: n in g.nodes
    ensures refs + RefsOf(nodes) <= RefsOf(g.nodes)
    ensures UpsertNodes(Written(db, g, refs, links), nodes) == Written(db, g, refs + RefsOf(nodes), links)
  {
    if nodes == [] {
      assert refs + RefsOf([]) == refs;
    } else {
      var n, rest := nodes[|nodes| - 1], nodes[..|nodes| - 1];
      NodesWrite(db, g, refs, links, rest);
      assert nodes == rest + [n];
      RefsOfOneMore(refs, rest, n);
      UpsertOneMore(Written(db, g, refs, links), rest, n);
      NodeWrites(db, g, refs + RefsOf(rest), links, n);
    }
  }

  lemma EdgeWrites(db: Database, g: GraphBuild, refs: set<NodeRef>, links: set<Link>, e: Edge)
    requires UniqueKeys(g) && refs <= RefsOf(g.nodes) && links <= LinksOf(g.edges) && e in g.edges
    ensures UpsertEdge(Written(db, g, refs, links), e) == Written(db, g, refs,
        links + Landing([e], db.nodes.Keys + refs))
  {
    var lands := Landing([e], db.nodes.Keys + refs);
    if e.link.src in db.nodes.Keys + refs && e.link.dst in db.nodes.Keys + refs {
      StampOnceMore(db.rels, EdgeRows(g), links, e.link);
      assert lands == {e.link};
    } else {
      assert links + lands == links;
    }
  }

  lemma {:induction false} EdgesWrite(db: Database, g: GraphBuild, refs: set<NodeRef>, links: set<Link>,
                                      edges: seq<Edge>)
    requires UniqueKeys(g) && refs <= RefsOf(g.nodes) && links <= LinksOf(g.edges)
    requires forall e <- edges :: e in g.edges
    ensures links + Landing(edges, db.nodes.Keys + refs) <= LinksOf(g.edges)
    ensures UpsertEdges(Written(db, g, refs, links), edges)
         == Written(db, g, refs, links + Landing(edges, db.nodes.Keys + refs))
  {
    var present := db.nodes.Keys + refs;
    if edges == [] {
      assert links + Landing(edges, present) == links;
    } else {
      var e, rest := edges[|edges| - 1], edges[..|edges| - 1];
      assert edges == rest + [e];
      assert e in edges;
      EdgesWrite(db, g, refs, links, rest);
      EdgeWrites(db, g, refs, links + Landing(rest, present), e);
      assert links + Landing(edges, present) == links + Landing(rest, present) + Landing([e], present);
    }
  }

  // ----- The partitioned load -----

  ghost function RefsWritten(work: EstateWork, steps: seq<LoadStep>): set<NodeRef> {
    set st, n | st in steps && st.OwnNodes? && n in WorkAt(work.byService, st.service).nodes :: n.ref
  }

  ghost function LinksWritten(work: EstateWork, steps: seq<LoadStep>): set<Link> {
    set st, e | st in steps && st.OwnEdges? && e in WorkAt(work.byService, st.service).edges :: e.link
  }

  /** Both endpoints of a service's own edges are among its own nodes, so they are never dropped. */
  lemma OwnEdgesFindEndpoints(g: GraphBuild, service: string, e: Edge)
    requires e in Of(g.edges, HomeIn(OwnersOf(g.nodes)), Some(service))
    ensures e.link.src in RefsOf(Of(g.nodes, NodeService, Some(service)))
    ensures e.link.dst in RefsOf(Of(g.nodes, NodeService, Some(service)))
  {
    OfMembers(g.edges, HomeIn(OwnersOf(g.nodes)), Some(service));
    OwnedIsListed(g.nodes, e.link.src, service);
    OwnedIsListed(g.nodes, e.link.dst, service);
  }

  lemma SharesComeFromGraph(g: GraphBuild, catalogue: seq<SourceFile>, service: string)
    ensures var unit := WorkAt(Partition(g, catalogue).byService, service);
            (forall n <- unit.nodes :: n in g.nodes) && (forall e <- unit.edges :: e in g.edges)
  {
    OfMembers(g.nodes, NodeService, Some(service));
    OfMembers(g.edges, HomeIn(OwnersOf(g.nodes)), Some(service));
  }

  /** One more step on a database where its service's nodes are, if it writes edges. */
  lemma OneStepOn(db: Database, g: GraphBuild, catalogue: seq<SourceFile>, prior: seq<LoadStep>, refs: set<NodeRef>,
                  links: set<Link>, step: LoadStep)
    requires UniqueKeys(g) && refs <= RefsOf(g.nodes) && links <= LinksOf(g.edges)
    requires RefsWritten(Partition(g, catalogue), prior) <= refs
    requires step.OwnEdges? ==> OwnNodes(step.service) in prior
    ensures var work := Partition(g, catalogue);
            var unit := WorkAt(work.byService, step.service);
            && (step.OwnNodes? ==>
                  refs + RefsOf(unit.nodes) <= RefsOf(g.nodes)
                  && RunStep(Written(db, g, refs, links), work, step) == Written(db, g, refs + RefsOf(unit.nodes),
                      links))
            && (step.OwnEdges? ==>
                  links + LinksOf(unit.edges) <= LinksOf(g.edges)
                  && RunStep(Written(db, g, refs, links), work, step) == Written(db, g, refs,
                      links + LinksOf(unit.edges)))
  {
    var work := Partition(g, catalogue);
    var unit := WorkAt(work.byService, step.service);
    SharesComeFromGraph(g, catalogue, step.service);
    if step.OwnNodes? {
      NodesWrite(db, g, refs, links, unit.nodes);
    } else {
      EdgesWrite(db, g, refs, links, unit.edges);
      OwnEdgesLand(db, g, catalogue, prior, step.service);
      assert Landing(unit.edges, db.nodes.Keys + refs) == LinksOf(unit.edges);
    }
  }

  lemma {:induction false} StepsWrite(db: Database, g: GraphBuild, catalogue: seq<SourceFile>, steps: seq<LoadStep>)
    requires UniqueKeys(g) && Orderly(steps)
    ensures var work := Partition(g, catalogue);
            && RefsWritten(work, steps) <= RefsOf(g.nodes) && LinksWritten(work, steps) <= LinksOf(g.edges)
            && RunSteps(db, work, steps) == Written(db, g, RefsWritten(work, steps), LinksWritten(work, steps))
  {
    var work := Partition(g, catalogue);
    if steps == [] {
      assert RefsWritten(work, steps) == {} && LinksWritten(work, steps) == {};
    } else {
      var rest, step := steps[..|steps| - 1], steps[|steps| - 1];
      assert steps == rest + [step];
      OrderlyPrefix(steps);
      StepsWrite(db, g, catalogue, rest);
      StepWrites(g, catalogue, rest, step);
      OneStepOn(db, g, catalogue, rest, RefsWritten(work, rest), LinksWritten(work, rest), step);
    }
  }

  lemma StepWrites(g: GraphBuild, catalogue: seq<SourceFile>, before: seq<LoadStep>, step: LoadStep)
    ensures var work := Partition(g, catalogue);
            var unit := WorkAt(work.byService, step.service);
            var refs, links := RefsWritten(work, before), LinksWritten(work, before);
            && RefsWritten(work, before + [step]) == (if step.OwnNodes? then refs + RefsOf(unit.nodes) else refs)
            && LinksWritten(work, before + [step]) == (if step.OwnNodes? then links else links + LinksOf(unit.edges))
  {}

  lemma OrderlyPrefix(steps: seq<LoadStep>)
    requires Orderly(steps) && steps != []
    ensures Orderly(steps[..|steps| - 1])
    ensures var last := steps[|steps| - 1]; last.OwnEdges? ==> OwnNodes(last.service) in steps[..|steps| - 1]
  {
    forall i | 0 <= i < |steps| - 1 && steps[i].OwnEdges?
      ensures OwnNodes(steps[i].service) in steps[..|steps| - 1][..i]
    {
      assert steps[..|steps| - 1][..i] == steps[..i];
    }
  }

  lemma OwnEdgesLand(db: Database, g: GraphBuild, catalogue: seq<SourceFile>, before: seq<LoadStep>, service: string)
    requires OwnNodes(service) in before
    ensures var work := Partition(g, catalogue);
            var unit := WorkAt(work.byService, service);
            Landing(unit.edges, db.nodes.Keys + RefsWritten(work, before)) == LinksOf(unit.edges)
  {
    var work := Partition(g, catalogue);
    var unit := WorkAt(work.byService, service);
    forall e <- unit.edges
      ensures e.link.src in RefsWritten(work, before) && e.link.dst in RefsWritten(work, before)
    {
      OwnEdgesFindEndpoints(g, service, e);
    }
  }

  lemma BulkWrites(db: Database, g: GraphBuild)
    requires UniqueKeys(g)
    ensures Landing(g.edges, db.nodes.Keys + RefsOf(g.nodes)) <= LinksOf(g.edges)
    ensures BulkLoad(db, g) == Written(db, g, RefsOf(g.nodes), Landing(g.edges, db.nodes.Keys + RefsOf(g.nodes)))
  {
    var all := RefsOf(g.nodes);
    assert Written(db, g, {}, {}) == db;
    NodesWrite(db, g, {}, {}, g.nodes);
    assert {} + all == all;
    EdgesWrite(db, g, all, {}, g.edges);
    assert {} + Landing(g.edges, db.nodes.Keys + all) == Landing(g.edges, db.nodes.Keys + all);
  }

  lemma FinaliseWrites(db: Database, g: GraphBuild, catalogue: seq<SourceFile>, refs: set<NodeRef>, links: set<Link>)
    requires UniqueKeys(g) && refs <= RefsOf(g.nodes) && links <= LinksOf(g.edges)
    requires refs + RefsOf(Partition(g, catalogue).sharedNodes) == RefsOf(g.nodes)
    requires links + Landing(Partition(g, catalogue).crossServiceEdges,
        db.nodes.Keys + RefsOf(g.nodes)) <= LinksOf(g.edges)
    ensures Finalise(Written(db, g, refs, links), Partition(g, catalogue))
         == Written(db, g, RefsOf(g.nodes),
                    links + Landing(Partition(g, catalogue).crossServiceEdges, db.nodes.Keys + RefsOf(g.nodes)))
  {
    var work := Partition(g, catalogue);
    OfMembers(g.nodes, NodeService, None);
    OfMembers(g.edges, HomeIn(OwnersOf(g.nodes)), None);
    NodesWrite(db, g, refs, links, work.sharedNodes);
    EdgesWrite(db, g, RefsOf(g.nodes), links, work.crossServiceEdges);
  }

  /** Any orderly run over all services, then the finalise step, leaves the very database that loading the
      whole graph at once does, whatever the database held before. */
  lemma PartitionedEqualsBulk(db: Database, g: GraphBuild, catalogue: seq<SourceFile>, steps: seq<LoadStep>)
    requires UniqueKeys(g) && Orderly(steps) && CoversEstate(Partition(g, catalogue), steps)
    ensures Finalise(RunSteps(db, Partition(g, catalogue), steps), Partition(g, catalogue)) == BulkLoad(db, g)
  {
    var work := Partition(g, catalogue);
    StepsWrite(db, g, catalogue, steps);
    AllNodesWritten(g, catalogue, steps);
    AllEdgesWritten(db, g, catalogue, steps);
    BulkWrites(db, g);
    FinaliseWrites(db, g, catalogue, RefsWritten(work, steps), LinksWritten(work, steps));
  }

  lemma AllNodesWritten(g: GraphBuild, catalogue: seq<SourceFile>, steps: seq<LoadStep>)
    requires Orderly(steps) && CoversEstate(Partition(g, catalogue), steps)
    ensures var work := Partition(g, catalogue);
            RefsWritten(work, steps) + RefsOf(work.sharedNodes) == RefsOf(g.nodes)
  {
    var work := Partition(g, catalogue);
    OfMembers(g.nodes, NodeService, None);
    forall n <- g.nodes ensures n.ref in RefsWritten(work, steps) + RefsOf(work.sharedNodes) {
      var owner := NodeService(n);
      OfMembers(g.nodes, NodeService, owner);
      if owner.Some? {
        assert OwnEdges(owner.value) in steps;
        NodesPrecede(steps, owner.value);
        assert n in WorkAt(work.byService, owner.value).nodes;
      } else {
        assert n in work.sharedNodes;
      }
    }
    forall r <- RefsWritten(work, steps) ensures r in RefsOf(g.nodes) {
      var st, n :| st in steps && st.OwnNodes? && n in WorkAt(work.byService, st.service).nodes && n.ref == r;
      SharesComeFromGraph(g, catalogue, st.service);
    }
  }

  lemma NodesPrecede(steps: seq<LoadStep>, service: string)
    requires Orderly(steps) && OwnEdges(service) in steps
    ensures OwnNodes(service) in steps
  {
    var i :| 0 <= i < |steps| && steps[i] == OwnEdges(service);
    assert OwnNodes(service) in steps[..i];
  }

  lemma AllEdgesWritten(db: Database, g: GraphBuild, catalogue: seq<SourceFile>, steps: seq<LoadStep>)
    requires CoversEstate(Partition(g, catalogue), steps)
    ensures var work := Partition(g, catalogue);
            var present := db.nodes.Keys + RefsOf(g.nodes);
            LinksWritten(work, steps) + Landing(work.crossServiceEdges, present) == Landing(g.edges, present)
  {
    var work := Partition(g, catalogue);
    var present := db.nodes.Keys + RefsOf(g.nodes);
    var home := HomeIn(OwnersOf(g.nodes));
    OfMembers(g.edges, home, None);
    forall e <- g.edges | e.link in Landing([e], present)
      ensures e.link in LinksWritten(work, steps) + Landing(work.crossServiceEdges, present)
    {
      OfMembers(g.edges, home, home(e));
      if home(e).Some? {
        EdgeOwnerIsAService(g, e);
        assert OwnEdges(home(e).value) in steps;
        assert e in WorkAt(work.byService, home(e).value).edges;
      } else {
        assert e in work.crossServiceEdges;
      }
    }
    forall l <- LinksWritten(work, steps) ensures l in Landing(g.edges, present) {
      var st, e :| st in steps && st.OwnEdges? && e in WorkAt(work.byService, st.service).edges && e.link == l;
      SharesComeFromGraph(g, catalogue, st.service);
      OwnEdgesFindEndpoints(g, st.service, e);
      OfMembers(g.nodes, NodeService, Some(st.service));
    }
  }

  lemma EdgeOwnerIsAService(g: GraphBuild, e: Edge)
    requires e in g.edges && Home(OwnersOf(g.nodes), e).Some?
    ensures Home(OwnersOf(g.nodes), e).value in Services(g)
  {
    var s := Home(OwnersOf(g.nodes), e).value;
    OwnedIsListed(g.nodes, e.link.src, s);
    var n :| n in Of(g.nodes, NodeService, Some(s)) && n.ref == e.link.src;
    OfMembers(g.nodes, NodeService, Some(s));
  }

  /** Why finalising comes last: done first, an edge between services is lost for good, where the bulk
      load has it. */
  lemma FinalisingFirstLosesEdges(db: Database, g: GraphBuild, catalogue: seq<SourceFile>, steps: seq<LoadStep>,
                                  e: Edge)
    requires UniqueKeys(g) && Orderly(steps) && e in g.edges && Home(OwnersOf(g.nodes), e).None?
    requires e.link.src in RefsOf(g.nodes) && e.link.dst in RefsOf(g.nodes) && e.link !in db.rels
    requires e.link.src !in db.nodes && OwnerAt(OwnersOf(g.nodes), e.link.src).Some?
    ensures e.link in BulkLoad(db, g).rels
    ensures e.link !in RunSteps(Finalise(db, Partition(g, catalogue)), Partition(g, catalogue), steps).rels
  {
    BulkWrites(db, g);
    assert e.link in Landing(g.edges, db.nodes.Keys + RefsOf(g.nodes));
    EarlyFinaliseMisses(db, g, catalogue, e);
    StepsWrite(Finalise(db, Partition(g, catalogue)), g, catalogue, steps);
    CrossEdgeIsNoOnesOwn(g, catalogue, steps, e);
  }

  lemma EarlyFinaliseMisses(db: Database, g: GraphBuild, catalogue: seq<SourceFile>, e: Edge)
    requires UniqueKeys(g) && e in g.edges && e.link !in db.rels
    requires e.link.src !in db.nodes && OwnerAt(OwnersOf(g.nodes), e.link.src).Some?
    ensures e.link !in Finalise(db, Partition(g, catalogue)).rels
  {
    var work := Partition(g, catalogue);
    OfMembers(g.nodes, NodeService, None);
    OfMembers(g.edges, HomeIn(OwnersOf(g.nodes)), None);
    assert Written(db, g, {}, {}) == db;
    NodesWrite(db, g, {}, {}, work.sharedNodes);
    var refs := {} + RefsOf(work.sharedNodes);
    EdgesWrite(db, g, refs, {}, work.crossServiceEdges);
    SharedNodesHaveNoOwner(g, e.link.src);
    assert e.link !in Landing(work.crossServiceEdges, db.nodes.Keys + refs);
  }

  lemma SharedNodesHaveNoOwner(g: GraphBuild, ref: NodeRef)
    requires UniqueKeys(g) && OwnerAt(OwnersOf(g.nodes), ref).Some?
    ensures ref !in RefsOf(Of(g.nodes, NodeService, None))
  {
    OwnedIsListed(g.nodes, ref, OwnerAt(OwnersOf(g.nodes), ref).value);
    OfMembers(g.nodes, NodeService, None);
    OfMembers(g.nodes, NodeService, OwnerAt(OwnersOf(g.nodes), ref));
  }

  lemma CrossEdgeIsNoOnesOwn(g: GraphBuild, catalogue: seq<SourceFile>, steps: seq<LoadStep>, e: Edge)
    requires UniqueKeys(g) && e in g.edges && Home(OwnersOf(g.nodes), e).None?
    ensures e.link !in LinksWritten(Partition(g, catalogue), steps)
  {
    forall st, own | st in steps && own in WorkAt(Partition(g, catalogue).byService, st.service).edges
      ensures own.link != e.link
    {
      OfMembers(g.edges, HomeIn(OwnersOf(g.nodes)), Some(st.service));
    }
  }

  // ----- The work as the workflow's estate -----

  function FilesByService(works: Works): Workflow.Estate { map s | s in works :: works[s].files }

  /** The partition gives the workflow what its guarantees ask for: distinct file keys, and a catalogue
      of exactly the files it will treat. */
  lemma PartitionIsCatalogued(c: CrashMachine.Config, g: GraphBuild, catalogue: seq<SourceFile>)
    requires IsCatalogue(catalogue, g.chunks) && c.estate == FilesByService(Partition(g, catalogue).byService)
    ensures CrashSafety.Catalogued(c, catalogue)
    ensures forall f <- catalogue :: f.service in c.estate && f in c.estate[f.service]
  {
    forall s <- c.estate, f <- c.estate[s] ensures f in catalogue {
      OfMembers(catalogue, FileService, s);
    }
    forall f <- catalogue ensures f.service in c.estate && f in c.estate[f.service] {
      OfMembers(catalogue, FileService, f.service);
      var chunk :| chunk in g.chunks && f == FileOf(g.chunks, ChunkFile(chunk));
      assert f.service in Services(g);
    }
  }

  // ----- What a bulk load leaves -----

  /** The properties a row sets are set, and those it does not mention are as they were. */
  ghost predicate Sets(was: Properties, row: Properties, now: Properties) {
    && (forall p <- row :: p in now && now[p] == row[p])
    && (forall p | p !in row :: (p in now <==> p in was) && (p in now ==> now[p] == was[p]))
  }

  lemma StampedSets<K>(before: map<K, Properties>, rows: map<K, Properties>, keys: set<K>, k: K)
    requires keys <= rows.Keys
    ensures var after := Stamped(before, rows, keys);
            if k in keys then k in after && Sets(PropertiesAt(before, k), rows[k], after[k])
            else (k in after <==> k in before) && (k in before ==> after[k] == before[k])
  {}

  /** Every node of the graph is there with its properties; every other node is as it was. */
  lemma BulkLoadSetsNodes(db: Database, g: GraphBuild, ref: NodeRef)
    requires UniqueKeys(g)
    ensures var after := BulkLoad(db, g);
            && (forall n <- g.nodes | n.ref == ref ::
                  ref in after.nodes && Sets(PropertiesAt(db.nodes, ref), n.properties, after.nodes[ref]))
            && (ref !in RefsOf(g.nodes) ==>
                  (ref in after.nodes <==> ref in db.nodes)
                  && (ref in db.nodes ==> after.nodes[ref] == db.nodes[ref]))
            && PropertiesAt(db.nodes, ref) == if ref in db.nodes then db.nodes[ref] else map[]
  {
    BulkWrites(db, g);
    StampedSets(db.nodes, NodeRows(g), RefsOf(g.nodes), ref);
  }

  /** Every edge of the graph whose ends are there then is there with its properties; every other is as it was. */
  lemma BulkLoadSetsEdges(db: Database, g: GraphBuild, l: Link)
    requires UniqueKeys(g)
    ensures var after := BulkLoad(db, g);
            var lands := l in LinksOf(g.edges) && l.src in after.nodes && l.dst in after.nodes;
            && (lands ==> forall e <- g.edges | e.link == l ::
                  l in after.rels && Sets(PropertiesAt(db.rels, l), e.properties, after.rels[l]))
            && (!lands ==>
                  (l in after.rels <==> l in db.rels) && (l in db.rels ==> after.rels[l] == db.rels[l]))
  {
    var present := db.nodes.Keys + RefsOf(g.nodes);
    BulkLoadKeys(db, g);
    StampedSets(db.rels, EdgeRows(g), Landing(g.edges, present), l);
    LandsWhereEndsAre(g.edges, present, l);
    forall e <- g.edges | e.link == l ensures EdgeRows(g)[l] == e.properties {
      EdgeRowOf(g, e);
    }
  }

  lemma BulkLoadKeys(db: Database, g: GraphBuild)
    requires UniqueKeys(g)
    ensures var present := db.nodes.Keys + RefsOf(g.nodes);
            && BulkLoad(db, g).nodes.Keys == present && Landing(g.edges, present) <= EdgeRows(g).Keys
            && BulkLoad(db, g).rels == Stamped(db.rels, EdgeRows(g), Landing(g.edges, present))
  {
    BulkWrites(db, g);
  }

  lemma EdgeRowOf(g: GraphBuild, e: Edge)
    requires UniqueKeys(g) && e in g.edges
    ensures e.link in EdgeRows(g) && EdgeRows(g)[e.link] == e.properties
  {}

  lemma LandsWhereEndsAre(edges: seq<Edge>, present: set<NodeRef>, l: Link)
    ensures l in Landing(edges, present) <==> l in LinksOf(edges) && l.src in present && l.dst in present
  {}
}

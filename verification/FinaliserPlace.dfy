/** Where in the load the finalizer may run (`backend/orchestration/worker.py`, `_make_finalizer`): it runs last
    there, and this says exactly when another place would do as well. */
module FinaliserPlace {
  import opened Domain
  import opened GraphStore
  import opened EstatePartition
  import opened EstateLoad

  /** The finalizer after some of the steps. */
  function RunAround(db: Database, work: EstateWork, before: seq<LoadStep>, after: seq<LoadStep>): Database {
    RunSteps(Finalise(RunSteps(db, work, before), work), work, after)
  }

  /** Both ends are in the database when the finalizer runs: from the start, from the steps before, or global. */
  ghost predicate EndsPresent(db: Database, work: EstateWork, before: seq<LoadStep>, e: Edge) {
    var present := db.nodes.Keys + RefsWritten(work, before) + RefsOf(work.sharedNodes);
    e.link.src in present && e.link.dst in present
  }

  /** The relationship is there already, with these properties. */
  predicate AlreadyThere(db: Database, e: Edge) {
    e.link in db.rels && db.rels[e.link] + e.properties == db.rels[e.link]
  }

  /** The exact condition, read off the database, the graph and the steps before the finalizer. */
  ghost predicate LosesNothing(db: Database, g: GraphBuild, work: EstateWork, before: seq<LoadStep>) {
    forall e <- work.crossServiceEdges | e.link in Landing([e], db.nodes.Keys + RefsOf(g.nodes)) ::
      EndsPresent(db, work, before, e) || AlreadyThere(db, e)
  }

  /** Steps go on writing what they would from the start, when each service's nodes come first in the whole run. */
  lemma {:induction false} StepsWriteOn(db: Database, g: GraphBuild, catalogue: seq<SourceFile>, prior: seq<LoadStep>,
                                        refs: set<NodeRef>, links: set<Link>, steps: seq<LoadStep>)
    requires UniqueKeys(g) && refs <= RefsOf(g.nodes) && links <= LinksOf(g.edges) && Orderly(prior + steps)
    requires RefsWritten(Partition(g, catalogue), prior) <= refs
    ensures var work := Partition(g, catalogue);
            && refs + RefsWritten(work, steps) <= RefsOf(g.nodes)
                && links + LinksWritten(work, steps) <= LinksOf(g.edges)
            && RunSteps(Written(db, g, refs, links), work, steps)
               == Written(db, g, refs + RefsWritten(work, steps), links + LinksWritten(work, steps))
  {
    var work := Partition(g, catalogue);
    if steps == [] {
      assert refs + RefsWritten(work, steps) == refs && links + LinksWritten(work, steps) == links;
    } else {
      var rest, step := steps[..|steps| - 1], steps[|steps| - 1];
      assert steps == rest + [step] && (prior + steps)[..|prior + steps| - 1] == prior + rest;
      OrderlyPrefix(prior + steps);
      StepsWriteOn(db, g, catalogue, prior, refs, links, rest);
      LastStepOn(db, g, catalogue, prior, refs, links, rest, step);
    }
  }

  lemma LastStepOn(db: Database, g: GraphBuild, catalogue: seq<SourceFile>, prior: seq<LoadStep>, refs: set<NodeRef>,
                   links: set<Link>, rest: seq<LoadStep>, step: LoadStep)
    requires UniqueKeys(g) && RefsWritten(Partition(g, catalogue), prior) <= refs
    requires refs + RefsWritten(Partition(g, catalogue), rest) <= RefsOf(g.nodes)
    requires links + LinksWritten(Partition(g, catalogue), rest) <= LinksOf(g.edges)
    requires step.OwnEdges? ==> OwnNodes(step.service) in prior + rest
    ensures var work := Partition(g, catalogue);
            var nowRefs, nowLinks := refs + RefsWritten(work, rest + [step]), links + LinksWritten(work, rest + [step]);
            && nowRefs <= RefsOf(g.nodes) && nowLinks <= LinksOf(g.edges)
            && RunStep(Written(db, g, refs + RefsWritten(work, rest), links + LinksWritten(work, rest)), work, step)
               == Written(db, g, nowRefs, nowLinks)
  {
    var work := Partition(g, catalogue);
    var unit := WorkAt(work.byService, step.service);
    var r, l := RefsWritten(work, rest), LinksWritten(work, rest);
    var nowRefs, nowLinks := refs + RefsWritten(work, rest + [step]), links + LinksWritten(work, rest + [step]);
    PriorOn(work, prior, rest, refs);
    OneStepOn(db, g, catalogue, prior + rest, refs + r, links + l, step);
    StepAdds(g, catalogue, rest, step, refs, links);
    if step.OwnNodes? {
      assert nowRefs == refs + r + RefsOf(unit.nodes) && nowLinks == links + l;
    } else {
      assert nowRefs == refs + r && nowLinks == links + l + LinksOf(unit.edges);
    }
  }

  lemma PriorOn(work: EstateWork, prior: seq<LoadStep>, rest: seq<LoadStep>, refs: set<NodeRef>)
    requires RefsWritten(work, prior) <= refs
    ensures RefsWritten(work, prior + rest) <= refs + RefsWritten(work, rest)
  {
    WrittenByBoth(work, prior, rest);
  }

  lemma StepAdds(g: GraphBuild, catalogue: seq<SourceFile>, rest: seq<LoadStep>, step: LoadStep, refs: set<NodeRef>,
                 links: set<Link>)
    ensures var work := Partition(g, catalogue);
            var unit := WorkAt(work.byService, step.service);
            var r, l := refs + RefsWritten(work, rest), links + LinksWritten(work, rest);
            && refs + RefsWritten(work, rest + [step]) == (if step.OwnNodes? then r + RefsOf(unit.nodes) else r)
            && links + LinksWritten(work, rest + [step]) == (if step.OwnNodes? then l else l + LinksOf(unit.edges))
  {
    var work := Partition(g, catalogue);
    var unit := WorkAt(work.byService, step.service);
    StepWrites(g, catalogue, rest, step);
    assert refs + (RefsWritten(work, rest) + RefsOf(unit.nodes)) == refs + RefsWritten(work, rest) + RefsOf(unit.nodes);
    assert links + (LinksWritten(work, rest) + LinksOf(unit.edges))
        == links + LinksWritten(work, rest) + LinksOf(unit.edges);
  }

  lemma WrittenByBoth(work: EstateWork, a: seq<LoadStep>, b: seq<LoadStep>)
    ensures RefsWritten(work, a + b) == RefsWritten(work, a) + RefsWritten(work, b)
    ensures LinksWritten(work, a + b) == LinksWritten(work, a) + LinksWritten(work, b)
  {}

  /** Stamping more keys changes nothing exactly when the further ones hold their rows already. */
  lemma StampedAlike<K>(was: map<K, Properties>, rows: map<K, Properties>, a: set<K>, b: set<K>)
    requires a <= b <= rows.Keys
    ensures Stamped(was, rows, a) == Stamped(was, rows, b) <==>
        forall k <- b - a :: k in was && was[k] + rows[k] == was[k]
  {
    var x, y := Stamped(was, rows, a), Stamped(was, rows, b);
    if x == y {
      forall k <- b - a ensures k in was && was[k] + rows[k] == was[k] {
        assert k in y && k in x;
        assert x[k] == y[k];
      }
    }
  }

  /** What a run with the finalizer in the middle leaves. */
  lemma AroundWrites(db: Database, g: GraphBuild, catalogue: seq<SourceFile>, before: seq<LoadStep>,
                     after: seq<LoadStep>)
    requires UniqueKeys(g) && Orderly(before + after) && CoversEstate(Partition(g, catalogue), before + after)
    ensures var work := Partition(g, catalogue);
            var mid := Landing(work.crossServiceEdges,
                db.nodes.Keys + (RefsWritten(work, before) + RefsOf(work.sharedNodes)));
            && LinksWritten(work, before + after) + mid <= LinksOf(g.edges)
            && RunAround(db, work, before, after)
               == Written(db, g, RefsOf(g.nodes), LinksWritten(work, before + after) + mid)
  {
    var work := Partition(g, catalogue);
    var refs, links := RefsWritten(work, before), LinksWritten(work, before);
    OrderlyStart(before, after);
    StepsWrite(db, g, catalogue, before);
    OfMembers(g.nodes, NodeService, None);
    OfMembers(g.edges, HomeIn(OwnersOf(g.nodes)), None);
    NodesWrite(db, g, refs, links, work.sharedNodes);
    var here := refs + RefsOf(work.sharedNodes);
    EdgesWrite(db, g, here, links, work.crossServiceEdges);
    var mid := Landing(work.crossServiceEdges, db.nodes.Keys + here);
    StepsWriteOn(db, g, catalogue, before, here, links + mid, after);
    WrittenByBoth(work, before, after);
    AllNodesWritten(g, catalogue, before + after);
    assert here + RefsWritten(work, after) == RefsOf(g.nodes);
    assert links + mid + LinksWritten(work, after) == LinksWritten(work, before + after) + mid;
  }

  lemma OrderlyStart(before: seq<LoadStep>, after: seq<LoadStep>)
    requires Orderly(before + after)
    ensures Orderly(before)
  {
    forall i | 0 <= i < |before| && before[i].OwnEdges? ensures OwnNodes(before[i].service) in before[..i] {
      assert (before + after)[i] == before[i] && (before + after)[..i] == before[..i];
    }
  }

  /** With the finalizer at any place in an orderly run over all services, the result is the bulk load exactly when
      every edge between services that a bulk load has finds both its ends, or is there already. */
  lemma FinaliserLosesNothingIff(db: Database, g: GraphBuild, catalogue: seq<SourceFile>, before: seq<LoadStep>,
                                 after: seq<LoadStep>)
    requires UniqueKeys(g) && Orderly(before + after) && CoversEstate(Partition(g, catalogue), before + after)
    ensures var work := Partition(g, catalogue);
            RunAround(db, work, before, after) == BulkLoad(db, g) <==> LosesNothing(db, g, work, before)
  {
    var work := Partition(g, catalogue);
    var all := db.nodes.Keys + RefsOf(g.nodes);
    var own := LinksWritten(work, before + after);
    var mid := Landing(work.crossServiceEdges, db.nodes.Keys + (RefsWritten(work, before) + RefsOf(work.sharedNodes)));
    AroundWrites(db, g, catalogue, before, after);
    BulkWrites(db, g);
    AllEdgesWritten(db, g, catalogue, before + after);
    MidIsPart(g, catalogue, db, before, after);
    StampedAlike(db.rels, EdgeRows(g), own + mid, own + Landing(work.crossServiceEdges, all));
    MissingAreLost(db, g, catalogue, before, after);
  }

  lemma MidIsPart(g: GraphBuild, catalogue: seq<SourceFile>, db: Database, before: seq<LoadStep>, after: seq<LoadStep>)
    requires Orderly(before + after) && CoversEstate(Partition(g, catalogue), before + after)
    ensures var work := Partition(g, catalogue);
            Landing(work.crossServiceEdges, db.nodes.Keys + (RefsWritten(work, before) + RefsOf(work.sharedNodes)))
            <= Landing(work.crossServiceEdges, db.nodes.Keys + RefsOf(g.nodes))
  {
    AllNodesWritten(g, catalogue, before + after);
    WrittenByBoth(Partition(g, catalogue), before, after);
  }

  /** A crossing edge is no service's own, has its own row, and lands where its ends are. */
  lemma CrossEdgeLands(g: GraphBuild, catalogue: seq<SourceFile>, steps: seq<LoadStep>, present: set<NodeRef>, e: Edge)
    requires UniqueKeys(g) && e in Partition(g, catalogue).crossServiceEdges
    ensures var work := Partition(g, catalogue);
            && e.link !in LinksWritten(work, steps) && e.link in EdgeRows(g) && EdgeRows(g)[e.link] == e.properties
            && (e.link in Landing(work.crossServiceEdges, present) <==> e.link in Landing([e], present))
  {
    OfMembers(g.edges, HomeIn(OwnersOf(g.nodes)), None);
    CrossEdgeIsNoOnesOwn(g, catalogue, steps, e);
  }

  /** The relationships a bulk load has and this run has not are those of the edges that find an end missing. */
  lemma MissingAreLost(db: Database, g: GraphBuild, catalogue: seq<SourceFile>, before: seq<LoadStep>,
                       after: seq<LoadStep>)
    requires UniqueKeys(g)
    ensures var work := Partition(g, catalogue);
            var all := db.nodes.Keys + RefsOf(g.nodes);
            var own := LinksWritten(work, before + after);
            var mid := Landing(work.crossServiceEdges,
                db.nodes.Keys + (RefsWritten(work, before) + RefsOf(work.sharedNodes)));
            (forall k <- (own + Landing(work.crossServiceEdges, all)) - (own + mid) | k in EdgeRows(g) ::
                k in db.rels && db.rels[k] + EdgeRows(g)[k] == db.rels[k])
            <==> LosesNothing(db, g, work, before)
  {
    var work := Partition(g, catalogue);
    var all := db.nodes.Keys + RefsOf(g.nodes);
    var own := LinksWritten(work, before + after);
    var present := db.nodes.Keys + (RefsWritten(work, before) + RefsOf(work.sharedNodes));
    forall e <- work.crossServiceEdges
      ensures e.link !in own && e.link in EdgeRows(g) && EdgeRows(g)[e.link] == e.properties
      ensures e.link in Landing(work.crossServiceEdges, all) <==> e.link in Landing([e], all)
      ensures e.link in Landing(work.crossServiceEdges, present) <==> EndsPresent(db, work, before, e)
    {
      CrossEdgeLands(g, catalogue, before + after, all, e);
      CrossEdgeLands(g, catalogue, before + after, present, e);
    }
  }
}

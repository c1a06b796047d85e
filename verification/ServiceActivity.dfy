/** The whole activity of one service (`backend/orchestration/activities.py`): chunks and graph first, then the
    summaries, then the coverage mark. */
module ServiceActivity {
  import opened Domain
  import opened Persistence
  import opened Driver
  import opened Pyramid
  import opened PyramidRun
  import opened EstatePartition
  import Store = GraphStore
  import Index = SearchIndex

  type Coverage = map<string, nat>

  // ----- Chunks and graph -----

  function Fresh(already: set<(string, string)>, chunks: seq<Chunk>): seq<Chunk> {
    if chunks == [] then []
    else (if (chunks[0].service, chunks[0].path) in already then [] else [chunks[0]]) + Fresh(already, chunks[1..])
  }

  ghost function DocFiles(docs: Index.Docs): set<(string, string)> {
    set id | id in docs :: (docs[id].chunk.service, docs[id].chunk.path)
  }

  /** Search documents, shown nodes and relationships. */
  datatype Structure = Structure(docs: Index.Docs, nodes: set<Node>, links: set<Link>)

  /** Files with no document yet are indexed; nodes and edges are upserted. */
  ghost function Structured(analyzer: Index.Analyzer, was: Structure, unit: ServiceWork): Structure {
    Structure(analyzer.Indexed(was.docs, Fresh(DocFiles(was.docs), unit.chunks)), Store.Showing(was.nodes, unit.nodes),
              was.links + Store.LinksOf(unit.edges))
  }

  /** Chunks that share an id are of one file. */
  ghost predicate IdsTellFiles(chunks: seq<Chunk>) {
    forall i, j :: 0 <= i < |chunks| && 0 <= j < |chunks| && chunks[i].chunkId == chunks[j].chunkId ==>
      chunks[i].service == chunks[j].service && chunks[i].path == chunks[j].path
  }

  lemma {:induction false} FreshMembers(already: set<(string, string)>, chunks: seq<Chunk>)
    ensures forall c :: c in Fresh(already, chunks) <==> c in chunks && (c.service, c.path) !in already
  {
    if chunks != [] {
      FreshMembers(already, chunks[1..]);
      assert chunks == [chunks[0]] + chunks[1..];
    }
  }

  lemma {:induction false} NothingFresh(already: set<(string, string)>, chunks: seq<Chunk>)
    requires forall c | c in chunks :: (c.service, c.path) in already
    ensures Fresh(already, chunks) == []
  {
    if chunks != [] {
      assert chunks[0] in chunks;
      NothingFresh(already, chunks[1..]);
    }
  }

  /** Indexing keeps every file that is indexed and no chunk replaces, and adds the chunks' files. */
  lemma {:induction false} IndexedFilesGrow(analyzer: Index.Analyzer, docs: Index.Docs, chunks: seq<Chunk>)
    requires forall c | c in chunks && c.chunkId in docs ::
               docs[c.chunkId].chunk.service == c.service && docs[c.chunkId].chunk.path == c.path
    requires forall c, d | c in chunks && d in chunks && c.chunkId == d.chunkId ::
        c.service == d.service && c.path == d.path
    ensures DocFiles(analyzer.Indexed(docs, chunks)) == DocFiles(docs) + set c | c in chunks :: (c.service, c.path)
    decreases |chunks|
  {
    if chunks != [] {
      var c := chunks[0];
      var next := docs[c.chunkId := analyzer.DocOf(c)];
      assert c in chunks;
      OneFileMore(docs, c, analyzer.DocOf(c));
      forall d | d in chunks[1..] && d.chunkId in next
        ensures next[d.chunkId].chunk.service == d.service && next[d.chunkId].chunk.path == d.path
      {
        assert d in chunks;
      }
      IndexedFilesGrow(analyzer, next, chunks[1..]);
      assert chunks == [c] + chunks[1..];
    }
  }

  lemma OneFileMore(docs: Index.Docs, c: Chunk, doc: Index.Doc)
    requires doc.chunk == c
    requires c.chunkId in docs ==> docs[c.chunkId].chunk.service == c.service && docs[c.chunkId].chunk.path == c.path
    ensures DocFiles(docs[c.chunkId := doc]) == DocFiles(docs) + {(c.service, c.path)}
  {
    var next := docs[c.chunkId := doc];
    assert c.chunkId in next;
    forall file <- DocFiles(docs) ensures file in DocFiles(next) {
      var id :| id in docs && file == (docs[id].chunk.service, docs[id].chunk.path);
      assert id in next;
    }
  }

  lemma {:induction false} ShowingAgain(shown: set<Node>, more: seq<Node>)
    requires forall i :: 0 <= i < |more| ==> more[i].ref in Store.RefsIn(shown)
    ensures Store.Showing(shown, more) == shown
  {
    if more != [] {
      ShowingAgain(shown, more[1..]);
    }
  }

  lemma {:induction false} ShowingShows(shown: set<Node>, more: seq<Node>)
    ensures Store.RefsIn(shown) <= Store.RefsIn(Store.Showing(shown, more))
    ensures forall i :: 0 <= i < |more| ==> more[i].ref in Store.RefsIn(Store.Showing(shown, more))
    decreases |more|
  {
    if more != [] {
      var next := if more[0].ref in Store.RefsIn(shown) then shown else shown + {more[0]};
      assert more[0].ref in Store.RefsIn(next);
      ShowingShows(next, more[1..]);
    }
  }

  /** Re-running the structural part changes nothing, when ids tell files apart and agree with the index. */
  lemma StructureIsIdempotent(analyzer: Index.Analyzer, was: Structure, unit: ServiceWork)
    requires IdsTellFiles(unit.chunks)
    requires forall c | c in unit.chunks && c.chunkId in was.docs ::
               was.docs[c.chunkId].chunk.service == c.service && was.docs[c.chunkId].chunk.path == c.path
    ensures var once := Structured(analyzer, was, unit); Structured(analyzer, once, unit) == once
  {
    var added := Fresh(DocFiles(was.docs), unit.chunks);
    var once := Structured(analyzer, was, unit);
    FreshMembers(DocFiles(was.docs), unit.chunks);
    IndexedFilesGrow(analyzer, was.docs, added);
    forall c | c in unit.chunks ensures (c.service, c.path) in DocFiles(once.docs) {
      assert c in added || (c.service, c.path) in DocFiles(was.docs);
    }
    NothingFresh(DocFiles(once.docs), unit.chunks);
    ShowingShows(was.nodes, unit.nodes);
    ShowingAgain(once.nodes, unit.nodes);
  }

  // ----- The tier reached -----

  /** The highest tier the service has reached. */
  ghost function TierReached(summaries: SummaryRows, service: string): nat {
    if Tier1Keys(summaries, service) == {} then 1
    else if SummaryKey(3, service) in summaries then 3
    else if WithSummary(summaries, Modules(summaries, service)) != [] then 2
    else 1
  }

  class InMemoryCoverage {
    var tiers: Coverage

    constructor ()
      ensures tiers == map[]
    {
      tiers := map[];
    }

    method MarkIndexed(service: string, tier: nat)
      modifies this
      ensures tiers == old(tiers)[service := tier]
    {
      tiers := tiers[service := tier];
    }
  }

  class FullActivities {
    const works: Works
    const search: Index.InMemorySearchBackend
    const graph: Store.InMemoryGraphStore
    const summariser: IndexServiceActivities
    const coverage: InMemoryCoverage

    constructor (works: Works, search: Index.InMemorySearchBackend, graph: Store.InMemoryGraphStore,
                 summariser: IndexServiceActivities, coverage: InMemoryCoverage)
      requires search.Valid() && graph.Valid() && summariser.Valid()
      ensures Valid() && this.works == works && this.search == search && this.graph == graph
      ensures this.summariser == summariser && this.coverage == coverage
    {
      this.works, this.search, this.graph := works, search, graph;
      this.summariser, this.coverage := summariser, coverage;
    }

    ghost predicate Valid()
      reads search, graph, summariser.tier1.pool
    {
      search.Valid() && graph.Valid() && summariser.Valid()
    }

    ghost function Built(): Structure
      reads search, graph
    {
      Structure(search.docs, Store.Shown(graph.byKind), Store.Links(graph.outAdj))
    }

    /** Index what has no document yet and write the graph; a service without work is passed over. */
    method IndexStructure(service: string)
      requires search.Valid() && graph.Valid()
      modifies search, graph
      ensures search.Valid() && graph.Valid()
      ensures Built() == if service in works then Structured(search.analyzer, old(Built()), works[service])
          else old(Built())
    {
      if service in works {
        var unit := works[service];
        var already := search.IndexedFiles();
        assert already == DocFiles(search.docs);
        var added := Fresh(already, unit.chunks);
        if added != [] {
          search.Index(added);
        }
        graph.UpsertNodes(unit.nodes);
        graph.UpsertEdges(unit.edges);
      }
    }

    method Tier(service: string) returns (tier: nat)
      ensures tier == TierReached(summariser.tier1.summaries.rows, service)
    {
      var rows := summariser.tier1.summaries.rows;
      var keys := summariser.ListTier1(service);
      var order, groups := GroupByModule(service, keys);
      ListedIsDistinct(Tier1Keys(rows, service));
      assert keys == [] <==> Tier1Keys(rows, service) == {} by {
        assert keys != [] ==> keys[0] in Tier1Keys(rows, service);
      }
      if keys == [] {
        return 1;
      }
      if SummaryKey(3, service) in rows {
        return 3;
      }
      return if WithSummary(rows, order) != [] then 2 else 1;
    }

    /** Chunks and graph, the three tiers, then the coverage mark; a fault in the tiers leaves no mark. */
    method SummariseService(service: string, files: seq<SourceFile>, today: int) returns (rows: seq<ResultRow>,
                            fault: bool)
      requires Valid()
      modifies search, graph, coverage
      modifies summariser.tier1.pool, summariser.tier1.router, summariser.tier1.fileLedger
      modifies summariser.tier1.deadLetter, summariser.tier1.summaries
      ensures Valid()
      ensures Built() == if service in works then Structured(search.analyzer, old(Built()), works[service])
          else old(Built())
      ensures var r := Activity(summariser.tiers, summariser.tier1.router.gateway, old(summariser.tier1.Now()),
          service, files, today);
              && summariser.tier1.Now() == r.world && fault == r.fault && (!fault ==> rows == r.files)
              && coverage.tiers == if fault then old(coverage.tiers)
                                   else old(coverage.tiers)[service := TierReached(r.world.summaries, service)]
    {
      IndexStructure(service);
      rows, fault := SummariseTiers(service, files, today);
    }

    /** The three tiers, and the coverage mark with the tier reached. */
    method SummariseTiers(service: string, files: seq<SourceFile>, today: int) returns (rows: seq<ResultRow>,
                          fault: bool)
      requires Valid()
      modifies coverage, summariser.tier1.pool, summariser.tier1.router, summariser.tier1.fileLedger
      modifies summariser.tier1.deadLetter, summariser.tier1.summaries
      ensures Valid()
      ensures var r := Activity(summariser.tiers, summariser.tier1.router.gateway, old(summariser.tier1.Now()),
          service, files, today);
              && summariser.tier1.Now() == r.world && fault == r.fault && (!fault ==> rows == r.files)
              && coverage.tiers == if fault then old(coverage.tiers)
                                   else old(coverage.tiers)[service := TierReached(r.world.summaries, service)]
    {
      var modules, services;
      rows, modules, services, fault := summariser.SummariseService(service, files, today);
      if !fault {
        var tier := Tier(service);
        coverage.MarkIndexed(service, tier);
      }
    }
  }
}

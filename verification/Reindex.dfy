/** Incremental reindex from a diff (`backend/freshness/reindex.py`) over the live index structures, and the
    rebuild it is measured against (`backend/ingestion/pipeline.py`, `ingest_tree`). */
module Reindex {
  import opened Domain
  import opened Persistence
  import opened IndexEntries
  import opened DiffEffect
  import opened IncrementalRebuild
  import opened IndexContents
  import Collection = GraphCollection
  import Store = GraphStore
  import Index = SearchIndex

  class ReindexResult {
    var reindexed: seq<Path>
    var deleted: seq<Path>
    var renamed: seq<(Path, Path)>
    var skippedUnchanged: seq<Path>
    var skippedUnmanifested: seq<Path>
    var carriedForward: seq<Path>
    var resummarise: seq<FileKey>
    var affectedServices: set<string>

    constructor ()
      ensures Value() == EMPTY_REPORT
    {
      reindexed, deleted, renamed := [], [], [];
      skippedUnchanged, skippedUnmanifested, carriedForward, resummarise := [], [], [], [];
      affectedServices := {};
    }

    ghost function Value(): Report
      reads this
    {
      Report(reindexed, deleted, renamed, skippedUnchanged, skippedUnmanifested, carriedForward, resummarise,
          affectedServices)
    }
  }

  /** Whether the index holds a document of the file, told from the tree it reflects. */
  lemma IndexedIffChunks(disk: Disk, analyzer: Index.Analyzer, files: Files, tree: Tree, service: string, path: Path)
    requires disk.estate.Lawful() && Reflects(disk.estate, analyzer, files, tree)
    requires Plain(path) && disk.estate.owner(path) == Some(service)
    ensures Index.OfFile(files.docs, service, path) != {} <==> disk.HasChunks(tree, service, path)
  {
    assert EntryAt(files, path) == Expected(disk.estate, analyzer, tree, path);
    forall id <- DocsAt(files.docs, path) ensures id in Index.OfFile(files.docs, service, path) {
      assert TidyDocs(disk.estate, files.docs);
    }
    assert forall id <- Index.OfFile(files.docs, service, path) :: id in DocsAt(files.docs, path);
    if path in tree {
      var chunks := disk.estate.chunksOf(service, path, tree[path]);
      IngestBelongs(disk.estate, service, path, tree[path]);
      IndexedHasChunks(analyzer, map[], chunks, path);
    }
  }

  lemma {:induction false} IndexedHasChunks(analyzer: Index.Analyzer, docs: Index.Docs, chunks: seq<Chunk>, path: Path)
    requires forall chunk <- chunks :: chunk.path == path
    ensures chunks != [] || DocsAt(docs, path) != map[] ==> DocsAt(analyzer.Indexed(docs, chunks), path) != map[]
    ensures chunks == [] ==> analyzer.Indexed(docs, chunks) == docs
    decreases |chunks|
  {
    if chunks != [] {
      var next := docs[chunks[0].chunkId := analyzer.DocOf(chunks[0])];
      assert chunks[0] in chunks;
      assert chunks[0].chunkId in DocsAt(next, path);
      IndexedHasChunks(analyzer, next, chunks[1..], path);
    }
  }

  lemma PutBack(tree: Tree, path: Path, content: Content)
    ensures (tree - {path})[path := content] == tree[path := content]
  {}

  class Reindexer {
    const estate: Estate
    const onDisk: Tree
    const promptVersion: string
    const searchBackend: Index.InMemorySearchBackend
    const graphStore: Store.InMemoryGraphStore
    const fileLedger: InMemoryFileLedger
    /** The tree the index currently reflects. */
    ghost var indexed: Tree

    constructor (estate: Estate, onDisk: Tree, promptVersion: string, searchBackend: Index.InMemorySearchBackend,
                 graphStore: Store.InMemoryGraphStore, fileLedger: InMemoryFileLedger, ghost indexed: Tree)
      requires estate.Lawful() && (forall path <- onDisk :: Plain(path))
      requires searchBackend.Valid() && graphStore.Valid()
      requires Reflects(estate, searchBackend.analyzer,
                        Files(searchBackend.docs, Store.Shown(graphStore.byKind), Store.Links(graphStore.outAdj)),
                            indexed)
      ensures Valid() && this.indexed == indexed && this.estate == estate && this.onDisk == onDisk
      ensures this.promptVersion == promptVersion
      ensures this.searchBackend == searchBackend && this.graphStore == graphStore && this.fileLedger == fileLedger
    {
      this.estate, this.onDisk, this.promptVersion := estate, onDisk, promptVersion;
      this.searchBackend, this.graphStore, this.fileLedger := searchBackend, graphStore, fileLedger;
      this.indexed := indexed;
    }

    ghost function Snapshot(): Files
      reads searchBackend, graphStore
    {
      Files(searchBackend.docs, Store.Shown(graphStore.byKind), Store.Links(graphStore.outAdj))
    }

    /** The index reflects `indexed`. Nothing is asked of the ledger. */
    ghost predicate Valid()
      reads this, searchBackend, graphStore
    {
      && estate.Lawful() && (forall path <- onDisk :: Plain(path))
      && searchBackend.Valid() && graphStore.Valid()
      && Reflects(estate, searchBackend.analyzer, Snapshot(), indexed)
    }

    ghost function Source(): Disk { Disk(estate, onDisk, promptVersion) }

    ghost function Reached(result: ReindexResult): Progress
      reads this, fileLedger, result
    {
      Progress(indexed, fileLedger.rows, result.Value())
    }

    method DeleteFile(path: Path, result: ReindexResult)
      requires Valid() && Plain(path)
      modifies this, searchBackend, graphStore, fileLedger, result
      ensures Valid() && Reached(result) == Source().AfterDelete(old(Reached(result)), path)
    {
      var owner := estate.owner(path);
      if owner.Some? {
        EraseOwned(path, owner.value);
        var _ := fileLedger.Delete(FileKey(owner.value, path));
        result.affectedServices := result.affectedServices + {owner.value};
      } else {
        EraseUnowned(path);
      }
      if path !in result.deleted {
        result.deleted := result.deleted + [path];
      }
    }

    /** Remove a file's chunks and graph nodes. */
    method EraseOwned(path: Path, owner: string)
      requires Valid() && Plain(path) && estate.owner(path) == Some(owner)
      modifies this, searchBackend, graphStore
      ensures Valid() && indexed == old(indexed) - {path}
    {
      ghost var before := Snapshot();
      EraseReflects(estate, searchBackend.analyzer, before, indexed, owner, path);
      Store.ShownAreFiled(graphStore.nodes, graphStore.byKind);
      var _ := searchBackend.DeleteByFile(owner, path);
      var _ := graphStore.DeleteFile(path);
      assert Snapshot() == Erased(before, owner, path);
      indexed := indexed - {path};
    }

    /** A path no service owns has no nodes to remove. */
    method EraseUnowned(path: Path)
      requires Valid() && Plain(path) && estate.owner(path).None?
      modifies graphStore
      ensures Valid() && Snapshot() == old(Snapshot())
    {
      NothingAtUnowned(estate, searchBackend.analyzer, Snapshot(), indexed, path);
      Store.ShownAreFiled(graphStore.nodes, graphStore.byKind);
      var _ := graphStore.DeleteFile(path);
    }

    /** Replace the file's chunks and graph nodes. */
    method ReplaceFile(path: Path, owner: string)
      requires Valid() && Plain(path) && path in onDisk && estate.owner(path) == Some(owner)
      modifies this, searchBackend, graphStore
      ensures Valid() && indexed == old(indexed)[path := onDisk[path]]
    {
      PutBack(indexed, path, onDisk[path]);
      EraseOwned(path, owner);
      FillOwned(path, owner);
    }

    /** Add a file that is not in the index. */
    method FillOwned(path: Path, owner: string)
      requires Valid() && Plain(path) && path in onDisk && estate.owner(path) == Some(owner) && path !in indexed
      modifies this, searchBackend, graphStore
      ensures Valid() && indexed == old(indexed)[path := onDisk[path]]
    {
      FillReflects(estate, searchBackend.analyzer, Snapshot(), indexed, owner, path, onDisk[path]);
      PutIn(estate.Ingest(owner, path, onDisk[path]));
      indexed := indexed[path := onDisk[path]];
    }

    /** Put what a file contributes into both stores. */
    method PutIn(ingested: Ingested)
      requires searchBackend.Valid() && graphStore.Valid()
      modifies searchBackend, graphStore
      ensures searchBackend.Valid() && graphStore.Valid()
      ensures Snapshot() == Filled(searchBackend.analyzer, old(Snapshot()), ingested)
    {
      searchBackend.Index(ingested.chunks);
      graphStore.UpsertNodes(ingested.nodes);
      graphStore.UpsertEdges(ingested.edges);
    }

    method UpsertFile(path: Path, result: ReindexResult, carry: Option<LedgerRow>)
      requires Valid() && Plain(path)
      modifies this, searchBackend, graphStore, fileLedger, result
      ensures Valid() && Reached(result) == Source().AfterUpsert(old(Reached(result)), path, carry)
    {
      var owner := estate.owner(path);
      if owner.None? {
        result.skippedUnmanifested := result.skippedUnmanifested + [path];
      } else if path !in onDisk {
        DeleteFile(path, result);
      } else {
        RefreshFile(path, owner.value, result, carry);
      }
    }

    function RowAt(path: Path): Option<LedgerRow>
      reads fileLedger
    {
      var owner := estate.owner(path);
      if owner.Some? then fileLedger.Get(FileKey(owner.value, path)) else None
    }

    /** A file present on disk: skip it when its row has the hash of what is on disk and it is indexed, else
        re-ingest it. A skip leaves all three stores as they were. */
    method RefreshFile(path: Path, owner: string, result: ReindexResult, carry: Option<LedgerRow>)
      requires Valid() && Plain(path) && path in onDisk && estate.owner(path) == Some(owner)
      modifies this, searchBackend, graphStore, fileLedger, result
      ensures Valid() && Reached(result) == Source().AfterUpsert(old(Reached(result)), path, carry)
      ensures old(Source().Skips(indexed, fileLedger.rows, path)) ==> Snapshot() == old(Snapshot())
    {
      var skip := IsUnchanged(path, owner);
      if skip {
        result.skippedUnchanged := result.skippedUnchanged + [path];
      } else {
        ReingestFile(path, owner, result, carry);
      }
    }

    /** The row has the hash of what is on disk, and the file is indexed. */
    method IsUnchanged(path: Path, owner: string) returns (skip: bool)
      requires Valid() && Plain(path) && path in onDisk && estate.owner(path) == Some(owner)
      ensures skip == Source().Skips(indexed, fileLedger.rows, path)
    {
      var newHash := estate.hash(onDisk[path]);
      var existing := fileLedger.Get(FileKey(owner, path));
      var alreadyIndexed := (owner, path) in searchBackend.IndexedFiles();
      IndexedIffChunks(Source(), searchBackend.analyzer, Snapshot(), indexed, owner, path);
      skip := existing.Some? && existing.value.contentHash == newHash && alreadyIndexed;
    }

    method ReingestFile(path: Path, owner: string, result: ReindexResult, carry: Option<LedgerRow>)
      requires Valid() && Plain(path) && path in onDisk && estate.owner(path) == Some(owner)
      modifies this, searchBackend, graphStore, fileLedger, result
      ensures Valid() && Reached(result) == Source().AfterIngest(old(Reached(result)), path, owner, carry)
    {
      ReplaceFile(path, owner);
      RecordIngest(path, owner, result, carry);
    }

    /** Report the file; carry the old summary over if it is of this very content, else mark the file for
        summarisation. */
    method RecordIngest(path: Path, owner: string, result: ReindexResult, carry: Option<LedgerRow>)
      requires path in onDisk
      modifies fileLedger, result
      ensures fileLedger.rows == old(fileLedger.rows)[FileKey(owner, path) := Source().RowAfter(path, carry)]
      ensures var told := old(result.Value()).(reindexed := old(result.reindexed) + [path],
                                               affected := old(result.affectedServices) + {owner});
              result.Value() == if CanCarry(carry, estate.hash(onDisk[path]))
                                then told.(carriedForward := old(result.carriedForward) + [path])
                                else told.(resummarise := old(result.resummarise) + [FileKey(owner, path)])
    {
      result.affectedServices := result.affectedServices + {owner};
      result.reindexed := result.reindexed + [path];
      var key, newHash := FileKey(owner, path), estate.hash(onDisk[path]);
      if CanCarry(carry, newHash) {
        fileLedger.Upsert(key, carry.value);
        result.carriedForward := result.carriedForward + [path];
      } else {
        fileLedger.Upsert(key, LedgerRow(newHash, promptVersion, 0, Pending));
        result.resummarise := result.resummarise + [key];
      }
    }

    method MoveFile(oldPath: Path, newPath: Path, result: ReindexResult)
      requires Valid() && Plain(oldPath) && Plain(newPath)
      modifies this, searchBackend, graphStore, fileLedger, result
      ensures Valid()
      ensures var p := old(Reached(result));
              Reached(result)
              == Source().AfterUpsert(Source().AfterDelete(p, oldPath), newPath, Source().RowAt(p.rows, oldPath))
    {
      // The row of the old path is read while it is still there.
      var carry := RowAt(oldPath);
      DeleteFile(oldPath, result);
      UpsertFile(newPath, result, carry);
    }

    method RenameFile(oldPath: Path, newPath: Path, result: ReindexResult)
      requires Valid() && Plain(oldPath) && Plain(newPath)
      modifies this, searchBackend, graphStore, fileLedger, result
      ensures Valid() && Reached(result) == Source().AfterRename(old(Reached(result)), oldPath, newPath)
    {
      MoveFile(oldPath, newPath, result);
      result.renamed := result.renamed + [(oldPath, newPath)];
    }

    method ApplyChange(change: Change, result: ReindexResult)
      requires Valid() && PlainChange(change)
      modifies this, searchBackend, graphStore, fileLedger, result
      ensures Valid() && Reached(result) == Source().Applied(old(Reached(result)), change)
    {
      match change
      case Added(path) => UpsertFile(path, result, None);
      case Modified(path) => UpsertFile(path, result, None);
      case Deleted(path) => DeleteFile(path, result);
      case Renamed(path, oldPath) =>
        if oldPath.Some? {
          RenameFile(oldPath.value, path, result);
        }
    }

    /** Apply a diff. Index, ledger and report are then what the specification of the diff says, and the index
        reflects the resulting tree. */
    method Apply(changes: seq<Change>) returns (result: ReindexResult)
      requires Valid() && forall change <- changes :: PlainChange(change)
      modifies this, searchBackend, graphStore, fileLedger
      ensures fresh(result) && Valid() && Catalogues(estate, searchBackend.analyzer, Snapshot(), indexed)
      ensures Reached(result) == Source().AppliedAll(Progress(old(indexed), old(fileLedger.rows), EMPTY_REPORT),
          changes)
    {
      result := new ReindexResult();
      ghost var start := Reached(result);
      for i := 0 to |changes|
        invariant Valid() && fresh(result)
        invariant Source().AppliedAll(Reached(result), changes[i..]) == Source().AppliedAll(start, changes)
      {
        ApplyChange(changes[i], result);
        assert changes[i..][1..] == changes[i + 1..];
      }
      ReflectingCatalogues(estate, searchBackend.analyzer, Snapshot(), indexed);
    }
  }

  // ----- The rebuild -----

  ghost function Collected(analyzer: Index.Analyzer, chunks: seq<Chunk>, nodes: seq<Node>, edges: seq<Edge>): Files {
    Files(analyzer.Indexed(map[], chunks), AsSet(nodes), Store.LinksOf(edges))
  }

  ghost function AsSet(nodes: seq<Node>): set<Node> { set n | n in nodes }

  lemma {:induction false} IndexedInTwo(analyzer: Index.Analyzer, docs: Index.Docs, a: seq<Chunk>, b: seq<Chunk>)
    ensures analyzer.Indexed(docs, a + b) == analyzer.Indexed(analyzer.Indexed(docs, a), b)
    decreases |a|
  {
    if a == [] {
      assert a + b == b;
    } else {
      assert (a + b)[1..] == a[1..] + b;
      IndexedInTwo(analyzer, docs[a[0].chunkId := analyzer.DocOf(a[0])], a[1..], b);
    }
  }

  lemma {:induction false} ShowingInTwo(shown: set<Node>, a: seq<Node>, b: seq<Node>)
    ensures Store.Showing(shown, a + b) == Store.Showing(Store.Showing(shown, a), b)
    decreases |a|
  {
    if a == [] {
      assert a + b == b;
    } else {
      assert (a + b)[1..] == a[1..] + b;
      ShowingInTwo(if a[0].ref in Store.RefsIn(shown) then shown else shown + {a[0]}, a[1..], b);
    }
  }

  /** Keeping the first node of each key while collecting is what adding nodes one by one shows. */
  lemma {:induction false} CollectedIsShown(have: seq<Node>, more: seq<Node>)
    ensures AsSet(Collection.AddNew(have, more, Collection.NodeKey)) == Store.Showing(AsSet(have), more)
    decreases |more|
  {
    if more != [] {
      var rest, x := more[..|more| - 1], more[|more| - 1];
      CollectedIsShown(have, rest);
      var sofar := Collection.AddNew(have, rest, Collection.NodeKey);
      ShowingInTwo(AsSet(have), rest, [x]);
      assert more == rest + [x];
      var shown := AsSet(sofar);
      assert x.ref in Store.RefsIn(shown) <==> exists i :: 0 <= i < |sofar| && sofar[i].ref == x.ref;
      Store.ShowingOne(shown, x);
    }
  }

  lemma CollectedLinks(have: seq<Edge>, more: seq<Edge>)
    requires Collection.UniqueBy(have, Collection.EdgeKey)
    ensures Store.LinksOf(Collection.AddNew(have, more,
        Collection.EdgeKey)) == Store.LinksOf(have) + Store.LinksOf(more)
  {
    Collection.AddNewIsUnion(have, more, Collection.EdgeKey);
    LinksAreKeys(have);
    LinksAreKeys(more);
    LinksAreKeys(Collection.AddNew(have, more, Collection.EdgeKey));
  }

  lemma LinksAreKeys(edges: seq<Edge>)
    ensures Store.LinksOf(edges) == Collection.KeysIn(edges, Collection.EdgeKey)
  {}

  /** A collected graph, loaded into an empty store, shows its nodes. */
  lemma {:induction false} UniqueNodesAreShown(shown: set<Node>, nodes: seq<Node>)
    requires Collection.UniqueBy(nodes, Collection.NodeKey)
    requires forall n <- nodes :: n.ref !in Store.RefsIn(shown)
    ensures Store.Showing(shown, nodes) == shown + AsSet(nodes)
    decreases |nodes|
  {
    if nodes != [] {
      var next := shown + {nodes[0]};
      assert nodes[0] in nodes && nodes == [nodes[0]] + nodes[1..];
      forall n <- nodes[1..] ensures n.ref !in Store.RefsIn(next) {
        var i :| 0 <= i < |nodes| - 1 && nodes[1..][i] == n;
        assert Collection.NodeKey(nodes[0]) != Collection.NodeKey(nodes[i + 1]);
      }
      forall i, j | 0 <= i < j < |nodes| - 1
        ensures Collection.NodeKey(nodes[1..][i]) != Collection.NodeKey(nodes[1..][j])
      {
        assert nodes[1..][i] == nodes[i + 1] && nodes[1..][j] == nodes[j + 1];
      }
      UniqueNodesAreShown(next, nodes[1..]);
    }
  }

  function ServiceNode(service: string): Node { Node(NodeRef(NodeKind.Service, service), map["name" := service]) }

  lemma EmptyReflects(estate: Estate, analyzer: Index.Analyzer)
    ensures Reflects(estate, analyzer, NOTHING, map[])
  {}

  /** A service node belongs to no file. */
  lemma ServiceNodeReflects(estate: Estate, analyzer: Index.Analyzer, files: Files, tree: Tree, service: string)
    requires Reflects(estate, analyzer, files, tree)
    ensures Reflects(estate, analyzer, files.(nodes := Store.Showing(files.nodes, [ServiceNode(service)])), tree)
  {
    var after := files.(nodes := Store.Showing(files.nodes, [ServiceNode(service)]));
    ShowingRefs(files.nodes, [ServiceNode(service)]);
    forall path ensures EntryAt(after, path) == Expected(estate, analyzer, tree, path) {
      ShowingAt(files.nodes, files.nodes, [ServiceNode(service)], path);
      assert EntryAt(files, path) == Expected(estate, analyzer, tree, path);
    }
    forall path | path in tree ensures AnchoredAt(estate, after, path) {
      assert AnchoredAt(estate, files, path);
    }
  }

  ghost function Holds(analyzer: Index.Analyzer, result: Collection.IngestionResult): Files
    reads result
  {
    Collected(analyzer, result.chunks, result.nodes, result.edges)
  }

  /** Collecting one more file adds what the file contributes. */
  lemma CollectFills(analyzer: Index.Analyzer, chunks: seq<Chunk>, nodes: seq<Node>, edges: seq<Edge>, more: Ingested)
    requires Collection.UniqueBy(edges, Collection.EdgeKey)
    ensures Collected(analyzer, chunks + more.chunks, Collection.AddNew(nodes, more.nodes, Collection.NodeKey),
                      Collection.AddNew(edges, more.edges, Collection.EdgeKey))
         == Filled(analyzer, Collected(analyzer, chunks, nodes, edges), more)
  {
    IndexedInTwo(analyzer, map[], chunks, more.chunks);
    CollectedIsShown(nodes, more.nodes);
    CollectedLinks(edges, more.edges);
  }

  /** Register the services of the manifest. */
  method RegisterServices(estate: Estate, services: seq<string>, ghost analyzer: Index.Analyzer)
    returns (result: Collection.IngestionResult)
    ensures fresh(result) && result.Valid() && Reflects(estate, analyzer, Holds(analyzer, result), map[])
    ensures AllNamed(services, result.nodes)
  {
    result := new Collection.IngestionResult();
    EmptyReflects(estate, analyzer);
    assert Holds(analyzer, result) == NOTHING;
    for i := 0 to |services|
      invariant fresh(result) && result.Valid() && Reflects(estate, analyzer, Holds(analyzer, result), map[])
      invariant AllNamed(services[..i], result.nodes)
    {
      assert services[..i + 1] == services[..i] + [services[i]];
      NamedAfterAdding(services[..i], result.nodes, [ServiceNode(services[i])]);
      var node := ServiceNode(services[i]);
      ghost var before := Holds(analyzer, result);
      CollectFills(analyzer, result.chunks, result.nodes, result.edges, Ingested([], [node], []));
      ServiceNodeReflects(estate, analyzer, before, map[], services[i]);
      NodeAlone(analyzer, before, node);
      result.AddFile([], [node], []);
    }
    assert services[..|services|] == services;
  }

  /** Every service of the manifest has its node, with or without files. */
  ghost predicate AllNamed(services: seq<string>, nodes: seq<Node>) {
    forall i :: 0 <= i < |services| ==> NodeRef(NodeKind.Service, services[i]) in Store.RefsIn(AsSet(nodes))
  }

  /** Collecting more nodes keeps those named, and names those added. */
  lemma NamedAfterAdding(services: seq<string>, have: seq<Node>, more: seq<Node>)
    requires AllNamed(services, have)
    ensures AllNamed(services, Collection.AddNew(have, more, Collection.NodeKey))
    ensures forall i :: 0 <= i < |more| ==>
              more[i].ref in Store.RefsIn(AsSet(Collection.AddNew(have, more, Collection.NodeKey)))
  {
    CollectedIsShown(have, more);
    ShowingRefs(AsSet(have), more);
  }

  lemma NodeAlone(analyzer: Index.Analyzer, files: Files, node: Node)
    ensures Filled(analyzer, files, Ingested([], [node], [])) == files.(nodes := Store.Showing(files.nodes, [node]))
  {}

  /** Register the services of the manifest, then ingest every owned file, in any order. */
  method IngestTree(estate: Estate, services: seq<string>, onDisk: Tree, ghost analyzer: Index.Analyzer)
    returns (result: Collection.IngestionResult)
    requires estate.Lawful() && forall path <- onDisk :: Plain(path)
    ensures fresh(result) && result.Valid() && Reflects(estate, analyzer, Holds(analyzer, result), estate.Owned(onDisk))
    ensures Catalogues(estate, analyzer, Holds(analyzer, result), estate.Owned(onDisk))
    ensures AllNamed(services, result.nodes)
  {
    result := RegisterServices(estate, services, analyzer);
    CollectTree(estate, onDisk, result, analyzer, services);
    ReflectingCatalogues(estate, analyzer, Holds(analyzer, result), estate.Owned(onDisk));
  }

  /** Collect every owned file, in whatever order the tree is walked. */
  method CollectTree(estate: Estate, onDisk: Tree, result: Collection.IngestionResult, ghost analyzer: Index.Analyzer,
                     ghost services: seq<string>)
    requires estate.Lawful() && forall path <- onDisk :: Plain(path)
    requires result.Valid() && Reflects(estate, analyzer, Holds(analyzer, result), map[])
    requires AllNamed(services, result.nodes)
    modifies result
    ensures result.Valid() && Reflects(estate, analyzer, Holds(analyzer, result), estate.Owned(onDisk))
    ensures AllNamed(services, result.nodes)
  {
    var left := onDisk.Keys;
    ghost var done: Tree := map[];
    while left != {}
      invariant result.Valid() && left <= onDisk.Keys && AllNamed(services, result.nodes)
      invariant done == OwnedOutside(estate, onDisk, left)
      invariant Reflects(estate, analyzer, Holds(analyzer, result), done)
    {
      var path :| path in left;
      OwnedNext(estate, onDisk, left, path);
      left := left - {path};
      if estate.owner(path).Some? {
        IngestOne(estate, path, onDisk[path], result, analyzer, done, services);
        done := done[path := onDisk[path]];
      }
    }
  }

  ghost function OwnedOutside(estate: Estate, tree: Tree, left: set<Path>): Tree {
    map path | path in estate.Owned(tree) && path !in left :: tree[path]
  }

  lemma OwnedNext(estate: Estate, tree: Tree, left: set<Path>, path: Path)
    requires path in left && path in tree
    ensures path !in OwnedOutside(estate, tree, left)
    ensures OwnedOutside(estate, tree, left - {path})
         == if estate.owner(path).Some? then OwnedOutside(estate, tree, left)[path := tree[path]]
            else OwnedOutside(estate, tree, left)
  {}

  method IngestOne(estate: Estate, path: Path, content: Content, result: Collection.IngestionResult,
                   ghost analyzer: Index.Analyzer, ghost done: Tree, ghost services: seq<string>)
    requires estate.Lawful() && Plain(path) && estate.owner(path).Some? && path !in done
    requires AllNamed(services, result.nodes)
    requires result.Valid() && Reflects(estate, analyzer, Holds(analyzer, result), done)
    modifies result
    ensures result.Valid() && Reflects(estate, analyzer, Holds(analyzer, result), done[path := content])
    ensures AllNamed(services, result.nodes)
  {
    var owner := estate.owner(path).value;
    var more := estate.Ingest(owner, path, content);
    CollectFills(analyzer, result.chunks, result.nodes, result.edges, more);
    NamedAfterAdding(services, result.nodes, more.nodes);
    FillReflects(estate, analyzer, Holds(analyzer, result), done, owner, path, content);
    result.AddFile(more.chunks, more.nodes, more.edges);
  }

  /** Load a collected graph into an empty store. */
  method LoadGraph(nodes: seq<Node>, edges: seq<Edge>) returns (graph: Store.InMemoryGraphStore)
    requires Collection.UniqueBy(nodes, Collection.NodeKey)
    ensures fresh(graph) && graph.Valid()
    ensures Store.Shown(graph.byKind) == AsSet(nodes) && Store.Links(graph.outAdj) == Store.LinksOf(edges)
  {
    UniqueNodesAreShown({}, nodes);
    graph := new Store.InMemoryGraphStore();
    graph.UpsertNodes(nodes);
    graph.UpsertEdges(edges);
  }

  /** Build the index afresh: collect the whole tree, then load search index and graph. */
  method Rebuild(estate: Estate, services: seq<string>, onDisk: Tree, promptVersion: string,
                 analyzer: Index.Analyzer, scoring: Index.Scoring)
    returns (r: Reindexer)
    requires estate.Lawful() && forall path <- onDisk :: Plain(path)
    ensures fresh(r) && r.Valid() && r.indexed == estate.Owned(onDisk)
    ensures Catalogues(estate, analyzer, r.Snapshot(), estate.Owned(onDisk))
    ensures forall i :: 0 <= i < |services| ==>
              NodeRef(NodeKind.Service, services[i]) in Store.RefsIn(r.Snapshot().nodes)
    ensures r.estate == estate && r.searchBackend.analyzer == analyzer && r.searchBackend.scoring == scoring
  {
    var result := IngestTree(estate, services, onDisk, analyzer);
    var search := new Index.InMemorySearchBackend(analyzer, scoring);
    search.Index(result.chunks);
    var graph := LoadGraph(result.nodes, result.edges);
    var ledger := new InMemoryFileLedger();
    r := new Reindexer(estate, onDisk, promptVersion, search, graph, ledger, estate.Owned(onDisk));
    ReflectingCatalogues(estate, analyzer, r.Snapshot(), estate.Owned(onDisk));
  }

  /** Whatever was done to a live index, it catalogues the tree it reflects. */
  lemma LiveCatalogues(r: Reindexer)
    requires r.Valid()
    ensures Catalogues(r.estate, r.searchBackend.analyzer, r.Snapshot(), r.indexed)
  {
    ReflectingCatalogues(r.estate, r.searchBackend.analyzer, r.Snapshot(), r.indexed);
  }

  /** What the live graph answers for a file: it defines exactly the named functions of its chunks. So it is after a
      rebuild, after any diff, and after any one file is re-ingested. */
  lemma DefinesAreServed(r: Reindexer, path: Path, ref: NodeRef)
    requires r.Valid()
    ensures ref in r.graphStore.OutNeighbors(FileRef(path), DEFINES) <==>
              exists c | IsCut(r.estate, r.indexed, c) && IsNamedFunction(c) && c.path == path :: ref == FunctionRef(c)
  {
    var files := r.Snapshot();
    ReflectingCatalogues(r.estate, r.searchBackend.analyzer, files, r.indexed);
    var defined := r.graphStore.OutNeighbors(FileRef(path), DEFINES);
    assert ref in defined <==> Link(FileRef(path), DEFINES, ref) in files.links;
  }

  /** And exactly those are listed. */
  lemma FunctionsAreServed(r: Reindexer, ref: NodeRef)
    requires r.Valid() && ref.kind.Function?
    ensures (exists n <- r.graphStore.Nodes(NodeKind.Function) :: n.ref == ref) <==>
              exists c | IsCut(r.estate, r.indexed, c) && IsNamedFunction(c) :: ref == FunctionRef(c)
  {
    FunctionsAreListed(r.estate, r.searchBackend.analyzer, r.Snapshot(), r.indexed, ref);
    ListedByKind(r.graphStore, ref);
  }

  lemma ListedByKind(graph: Store.InMemoryGraphStore, ref: NodeRef)
    requires graph.Valid()
    ensures (exists n <- graph.Nodes(ref.kind) :: n.ref == ref) <==> ref in Store.RefsIn(Store.Shown(graph.byKind))
  {
    if ref in Store.RefsIn(Store.Shown(graph.byKind)) {
      var n :| n in Store.Shown(graph.byKind) && n.ref == ref;
      var kind :| kind in graph.byKind && n in graph.byKind[kind];
      assert Store.FiledUnder(graph.byKind[kind], kind, graph.nodes.Keys);
    }
  }

  /** Whatever their histories, two reindexers whose indexes reflect the same tree hold equal documents and
      search statistics, equal File and Function nodes and equal DEFINES relationships; with ledgers in step,
      the same files have rows, with the same hashes. */
  lemma SameTreeSameState(a: Reindexer, b: Reindexer)
    requires a.Valid() && b.Valid()
    requires a.estate == b.estate && a.searchBackend.analyzer == b.searchBackend.analyzer
    requires a.indexed == b.indexed
    ensures SameIndex(a.Snapshot(), b.Snapshot())
    ensures a.searchBackend.df == b.searchBackend.df && a.searchBackend.totalLength == b.searchBackend.totalLength
    ensures (LedgerAgrees(a.estate, a.fileLedger.rows, a.indexed)
             && LedgerAgrees(b.estate, b.fileLedger.rows, b.indexed)) ==>
              SameHashes(a.fileLedger.rows, b.fileLedger.rows)
  {
    SameIndexIffAlike(a.estate, a.searchBackend.analyzer, a.Snapshot(), a.indexed, b.Snapshot(), b.indexed);
    Index.CountsIsFrequencyTable(a.searchBackend.df, a.searchBackend.docs);
    Index.CountsIsFrequencyTable(b.searchBackend.df, b.searchBackend.docs);
    SameLedger(a.estate, a.fileLedger.rows, b.fileLedger.rows, a.indexed);
  }

  /** The same files have rows, with the same content hashes. */
  ghost predicate SameHashes(a: LedgerRows, b: LedgerRows) {
    a.Keys == b.Keys && forall key <- a :: a[key].contentHash == b[key].contentHash
  }

  lemma SameLedger(estate: Estate, a: LedgerRows, b: LedgerRows, tree: Tree)
    ensures LedgerAgrees(estate, a, tree) && LedgerAgrees(estate, b, tree) ==> SameHashes(a, b)
  {
    if LedgerAgrees(estate, a, tree) && LedgerAgrees(estate, b, tree) {
      forall key ensures key in a <==> key in b {
        assert key == FileKey(key.service, key.path);
      }
    }
  }

  /** After a diff, the updated index equals a rebuilt one exactly when the diff was complete. */
  lemma UpdatedEqualsRebuilt(updated: Reindexer, rebuilt: Reindexer, p: Progress, changes: seq<Change>)
    requires updated.Valid() && rebuilt.Valid()
    requires updated.estate == rebuilt.estate && updated.searchBackend.analyzer == rebuilt.searchBackend.analyzer
    requires updated.indexed == updated.Source().AppliedAll(p, changes).tree
    requires rebuilt.indexed == updated.estate.Owned(updated.onDisk)
    ensures SameIndex(updated.Snapshot(), rebuilt.Snapshot())
       <==> Complete(updated.Source(), updated.searchBackend.analyzer, p.tree, p.rows, changes)
  {
    IncrementalEqualsRebuild(updated.Source(), updated.searchBackend.analyzer, p, changes,
                             updated.Snapshot(), rebuilt.Snapshot());
  }
}

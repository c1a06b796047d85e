/** The reconciliation sweep (`backend/freshness/reconcile.py`): it removes what is indexed and no longer on disk. */
module Reconcile {
  import opened Domain
  import opened Ordering
  import opened Persistence
  import opened IndexEntries
  import opened DiffEffect
  import opened Reindex
  import EstatePartition
  import Store = GraphStore
  import Index = SearchIndex

  /** The tree the index reflects after the sweep: what it reflected of the files still on disk. */
  function Swept(disk: Disk, tree: Tree): Tree { map path | path in tree && path in disk.tree :: tree[path] }

  /** Indexed, gone from disk, and with a document in the search index. */
  predicate ChunkedOrphan(disk: Disk, tree: Tree, path: Path) {
    && path in tree && path !in disk.tree && disk.estate.owner(path).Some?
    && disk.HasChunks(tree, disk.estate.owner(path).value, path)
  }

  /** Ledger rows go with the orphans that have documents; the row of any other orphan stays. */
  function SweptRows(disk: Disk, tree: Tree, rows: LedgerRows): LedgerRows {
    map key | key in rows && !(ChunkedOrphan(disk, tree, key.path) && disk.estate.owner(key.path) == Some(key.service))
      :: rows[key]
  }

  /** Every path listed as a File node is indexed, and the other way round. */
  lemma FileNodeIffIndexed(estate: Estate, analyzer: Index.Analyzer, files: Files, tree: Tree, path: Path)
    requires estate.Lawful() && Reflects(estate, analyzer, files, tree)
    ensures NodeRef(NodeKind.File, path) in Store.RefsIn(files.nodes) <==> path in tree
  {
    assert EntryAt(files, path) == Expected(estate, analyzer, tree, path);
    if path in tree {
      IndexedFileHasNode(estate, analyzer, tree, path);
    }
    if NodeRef(NodeKind.File, path) in Store.RefsIn(files.nodes) {
      var n :| n in files.nodes && n.ref == NodeRef(NodeKind.File, path);
      assert n in NodesAt(files.nodes, path);
    }
  }

  /** The documented files on disk no more. */
  lemma OrphanIsOwned(r: Reindexer, key: FileKey)
    requires r.Valid() && (key.service, key.path) in r.searchBackend.IndexedFiles()
    ensures r.estate.owner(key.path) == Some(key.service) && key.path in r.indexed && Plain(key.path)
    ensures r.Source().HasChunks(r.indexed, key.service, key.path)
  {
    var docs := r.searchBackend.docs;
    var id :| id in Index.OfFile(docs, key.service, key.path);
    assert TidyDocs(r.estate, docs);
    assert EntryAt(r.Snapshot(), key.path) == Expected(r.estate, r.searchBackend.analyzer, r.indexed, key.path);
    assert id in DocsAt(docs, key.path);
    IndexedIffChunks(r.Source(), r.searchBackend.analyzer, r.Snapshot(), r.indexed, key.service, key.path);
  }

  method IndexedKeys(r: Reindexer) returns (keys: seq<FileKey>)
    requires r.Valid()
    ensures Distinct(keys)
    ensures forall key :: key in keys <==>
        r.estate.owner(key.path) == Some(key.service) && r.Source().HasChunks(r.indexed, key.service, key.path)
  {
    var files := r.searchBackend.IndexedFiles();
    EstatePartition.KeyOrderIsTotal();
    keys := SortedKeys(set f | f in files :: FileKey(f.0, f.1), EstatePartition.KeyLeq);
    forall key
      ensures key in keys <==>
          r.estate.owner(key.path) == Some(key.service) && r.Source().HasChunks(r.indexed, key.service, key.path)
    {
      if key in keys {
        OrphanIsOwned(r, key);
      }
      if r.estate.owner(key.path) == Some(key.service) && r.Source().HasChunks(r.indexed, key.service, key.path) {
        IndexedIffChunks(r.Source(), r.searchBackend.analyzer, r.Snapshot(), r.indexed, key.service, key.path);
        assert (key.service, key.path) in files;
        assert FileKey(key.service, key.path) == key;
      }
    }
  }

  /** The keys among these whose file is gone from disk, and their paths. */
  ghost function GoneKeys(disk: Disk, keys: seq<FileKey>): set<FileKey> {
    set key | key in keys && key.path !in disk.tree
  }

  ghost function GonePaths(disk: Disk, keys: seq<FileKey>): set<Path> {
    set key | key in keys && key.path !in disk.tree :: key.path
  }

  lemma GoneNext(disk: Disk, keys: seq<FileKey>, i: nat)
    requires i < |keys|
    ensures GoneKeys(disk, keys[..i + 1]) == GoneKeys(disk, keys[..i]) + if keys[i].path in disk.tree then {}
        else {keys[i]}
    ensures GonePaths(disk, keys[..i + 1])
         == GonePaths(disk, keys[..i]) + if keys[i].path in disk.tree then {} else {keys[i].path}
  {
    assert keys[..i + 1] == keys[..i] + [keys[i]];
  }

  lemma MinusMore<K, V>(m: map<K, V>, a: set<K>, k: K)
    ensures m - (a + {k}) == m - a - {k} && m - (a + {}) == m - a
  {
    assert a + {} == a;
  }

  /** Documents, nodes and row of one documented file, if it is gone from disk. */
  method SweepOne(r: Reindexer, key: FileKey) returns (gone: bool)
    requires r.Valid() && r.estate.owner(key.path) == Some(key.service) && Plain(key.path)
    modifies r, r.searchBackend, r.graphStore, r.fileLedger
    ensures r.Valid() && (gone <==> key.path !in r.onDisk)
    ensures r.indexed == if gone then old(r.indexed) - {key.path} else old(r.indexed)
    ensures r.fileLedger.rows == if gone then old(r.fileLedger.rows) - {key} else old(r.fileLedger.rows)
  {
    gone := key.path !in r.onDisk;
    if gone {
      r.EraseOwned(key.path, key.service);
      var _ := r.fileLedger.Delete(key);
    }
  }

  /** The first loop: every documented file that is gone from disk. */
  method SweepChunked(r: Reindexer) returns (orphans: seq<Path>)
    requires r.Valid()
    modifies r, r.searchBackend, r.graphStore, r.fileLedger
    ensures r.Valid()
    ensures forall path :: path in orphans <==> ChunkedOrphan(r.Source(), old(r.indexed), path)
    ensures r.indexed == Unchunked(r.Source(), old(r.indexed))
    ensures r.fileLedger.rows == SweptRows(r.Source(), old(r.indexed), old(r.fileLedger.rows))
  {
    ghost var disk, tree0, rows0 := r.Source(), r.indexed, r.fileLedger.rows;
    var keys := IndexedKeys(r);
    assert forall i :: 0 <= i < |keys| ==>
        r.estate.owner(keys[i].path) == Some(keys[i].service) && Plain(keys[i].path) by {
      assert forall i :: 0 <= i < |keys| ==> keys[i] in keys;
    }
    orphans := [];
    for i := 0 to |keys|
      invariant r.Valid() && r.indexed == tree0 - GonePaths(disk, keys[..i])
      invariant r.fileLedger.rows == rows0 - GoneKeys(disk, keys[..i])
      invariant forall path :: path in orphans <==> path in GonePaths(disk, keys[..i])
    {
      GoneNext(disk, keys, i);
      MinusMore(tree0, GonePaths(disk, keys[..i]), keys[i].path);
      MinusMore(rows0, GoneKeys(disk, keys[..i]), keys[i]);
      var gone := SweepOne(r, keys[i]);
      if gone {
        orphans := orphans + [keys[i].path];
      }
    }
    assert keys[..|keys|] == keys;
    SweptAll(disk, tree0, rows0, keys);
  }

  /** The tree without its documented orphans. */
  function Unchunked(disk: Disk, tree: Tree): Tree {
    map path | path in tree && !ChunkedOrphan(disk, tree, path) :: tree[path]
  }

  lemma SweptAll(disk: Disk, tree0: Tree, rows0: LedgerRows, keys: seq<FileKey>)
    requires forall key :: key in keys <==>
        disk.estate.owner(key.path) == Some(key.service) && disk.HasChunks(tree0, key.service, key.path)
    ensures forall path :: path in GonePaths(disk, keys) <==> ChunkedOrphan(disk, tree0, path)
    ensures tree0 - GonePaths(disk, keys) == Unchunked(disk, tree0)
    ensures rows0 - GoneKeys(disk, keys) == SweptRows(disk, tree0, rows0)
  {
    forall path ensures path in GonePaths(disk, keys) <==> ChunkedOrphan(disk, tree0, path) {
      if ChunkedOrphan(disk, tree0, path) {
        assert FileKey(disk.estate.owner(path).value, path) in keys;
      }
    }
  }

  ghost predicate NoneChunked(disk: Disk, tree: Tree) { forall path <- tree :: !ChunkedOrphan(disk, tree, path) }

  /** The second loop: files without a document that are gone from disk. The ledger is not touched. */
  method SweepNodes(r: Reindexer, orphans0: seq<Path>) returns (orphans: seq<Path>)
    requires r.Valid() && NoneChunked(r.Source(), r.indexed)
    modifies r, r.graphStore
    ensures r.Valid() && r.indexed == Swept(r.Source(), old(r.indexed))
    ensures forall path :: path in orphans <==> path in orphans0 || (path in old(r.indexed) && path !in r.onDisk)
  {
    ghost var tree0 := r.indexed;
    orphans := orphans0;
    var listed := GraphOnly(r);
    for i := 0 to |listed|
      invariant r.Valid() && NoneChunked(r.Source(), r.indexed) && r.indexed == tree0 - Among(listed[..i])
      invariant forall path :: path in orphans <==> path in orphans0 || path in Among(listed[..i])
    {
      var path := listed[i];
      AmongNext(tree0, listed, i);
      EraseNodes(r, path);
      if path !in orphans {
        orphans := orphans + [path];
      }
    }
    assert listed[..|listed|] == listed;
    assert tree0 - Among(listed) == Swept(r.Source(), tree0);
  }

  ghost function Among(paths: seq<Path>): set<Path> { set path | path in paths }

  lemma AmongNext(tree: Tree, paths: seq<Path>, i: nat)
    requires i < |paths| && Distinct(paths)
    ensures Among(paths[..i + 1]) == Among(paths[..i]) + {paths[i]} && paths[i] !in Among(paths[..i])
    ensures tree - Among(paths[..i + 1]) == tree - Among(paths[..i]) - {paths[i]}
    ensures paths[i] in tree ==> paths[i] in tree - Among(paths[..i])
  {
    assert paths[..i + 1] == paths[..i] + [paths[i]];
  }

  /** The paths of File nodes that are not on disk, sorted. */
  method GraphOnly(r: Reindexer) returns (listed: seq<Path>)
    requires r.Valid()
    ensures Distinct(listed) && forall path :: path in listed <==> path in r.indexed && path !in r.onDisk
  {
    var nodes := r.graphStore.Nodes(NodeKind.File);
    var paths := set n | n in nodes && n.ref.key !in r.onDisk :: n.ref.key;
    FilePaths(r, nodes, paths);
    StringOrderIsTotal();
    listed := SortedKeys(paths, StringLeq);
  }

  lemma FilePaths(r: Reindexer, nodes: seq<Node>, paths: set<Path>)
    requires r.Valid() && nodes == r.graphStore.Nodes(NodeKind.File)
    requires paths == set n | n in nodes && n.ref.key !in r.onDisk :: n.ref.key
    ensures forall path :: path in paths <==> path in r.indexed && path !in r.onDisk
  {
    forall path ensures path in paths <==> path in r.indexed && path !in r.onDisk {
      FileNodeIffIndexed(r.estate, r.searchBackend.analyzer, r.Snapshot(), r.indexed, path);
      ListedFile(r.graphStore.nodes, r.graphStore.byKind, path);
    }
  }

  lemma ListedFile(nodes: map<NodeRef, Node>, byKind: map<NodeKind, seq<Node>>, path: Path)
    requires Store.Filed(nodes, byKind)
    ensures NodeRef(NodeKind.File, path) in Store.RefsIn(Store.Shown(byKind)) <==>
        exists n <- Store.ListOf(byKind, NodeKind.File) :: n.ref.key == path
  {
    var kind := NodeKind.File;
    if n :| n in Store.ListOf(byKind, kind) && n.ref.key == path {
      assert Store.FiledUnder(byKind[kind], kind, nodes.Keys);
      assert n in Store.Shown(byKind) && n.ref == NodeRef(kind, path);
    }
    if NodeRef(kind, path) in Store.RefsIn(Store.Shown(byKind)) {
      var n :| n in Store.Shown(byKind) && n.ref == NodeRef(kind, path);
      var k :| k in byKind && n in byKind[k];
      assert Store.FiledUnder(byKind[k], k, nodes.Keys);
    }
  }

  /** Remove the nodes of an indexed file that is gone from disk and has no document. */
  method EraseNodes(r: Reindexer, path: Path)
    requires r.Valid() && NoneChunked(r.Source(), r.indexed) && path in r.indexed && path !in r.onDisk
    modifies r, r.graphStore
    ensures r.Valid() && NoneChunked(r.Source(), r.indexed) && r.indexed == old(r.indexed) - {path}
  {
    var owner := r.estate.owner(path).value;
    ghost var before := r.Snapshot();
    IndexedIffChunks(r.Source(), r.searchBackend.analyzer, before, r.indexed, owner, path);
    EraseReflects(r.estate, r.searchBackend.analyzer, before, r.indexed, owner, path);
    Store.ShownAreFiled(r.graphStore.nodes, r.graphStore.byKind);
    var _ := r.graphStore.DeleteFile(path);
    assert r.Snapshot() == Erased(before, owner, path);
    FewerChunked(r.Source(), r.indexed, path);
    r.indexed := r.indexed - {path};
  }

  lemma FewerChunked(disk: Disk, tree: Tree, path: Path)
    requires NoneChunked(disk, tree)
    ensures NoneChunked(disk, tree - {path})
  {
    forall p <- tree - {path} ensures !ChunkedOrphan(disk, tree - {path}, p) {
      assert !ChunkedOrphan(disk, tree, p);
    }
  }

  lemma UnchunkedHasNone(disk: Disk, tree: Tree)
    ensures NoneChunked(disk, Unchunked(disk, tree)) && Swept(disk, Unchunked(disk, tree)) == Swept(disk, tree)
  {
    forall p <- Unchunked(disk, tree) ensures !ChunkedOrphan(disk, Unchunked(disk, tree), p) {
      assert !ChunkedOrphan(disk, tree, p);
    }
  }

  /** The sweep. The index then reflects what it did of the files on disk, the orphans are exactly the indexed files
      gone from disk, and of the ledger exactly the rows of documented orphans are gone. */
  method ReconcileIndex(r: Reindexer) returns (orphans: seq<Path>)
    requires r.Valid()
    modifies r, r.searchBackend, r.graphStore, r.fileLedger
    ensures r.Valid() && r.indexed == Swept(r.Source(), old(r.indexed))
    ensures forall path :: path in orphans <==> path in old(r.indexed) && path !in r.onDisk
    ensures r.fileLedger.rows == SweptRows(r.Source(), old(r.indexed), old(r.fileLedger.rows))
  {
    UnchunkedHasNone(r.Source(), r.indexed);
    ghost var tree0 := r.indexed;
    assert forall path <- tree0 :: r.estate.owner(path).Some?;
    var chunked := SweepChunked(r);
    orphans := SweepNodes(r, chunked);
  }

  // ----- What the sweep brings back, and what it does not -----

  /** The sweep makes the index a rebuilt one exactly when no added or edited file was missed before. */
  lemma SweepEqualsRebuildIff(disk: Disk, analyzer: Index.Analyzer, tree: Tree, swept: Files, rebuilt: Files)
    requires Reflects(disk.estate, analyzer, swept, Swept(disk, tree))
    requires Reflects(disk.estate, analyzer, rebuilt, disk.estate.Owned(disk.tree))
    ensures SameIndex(swept, rebuilt) <==>
            forall path <- disk.tree | disk.estate.owner(path).Some? ::
                AlikeAt(disk.estate, analyzer, tree, disk.tree, path)
  {
    var goal := disk.estate.Owned(disk.tree);
    SameIndexIffAlike(disk.estate, analyzer, swept, Swept(disk, tree), rebuilt, goal);
    forall path | disk.estate.owner(path).Some?
      ensures path in disk.tree ==>
                (AlikeAt(disk.estate, analyzer, Swept(disk, tree), goal, path)
                 <==> AlikeAt(disk.estate, analyzer, tree, disk.tree, path))
      ensures path !in disk.tree ==> AlikeAt(disk.estate, analyzer, Swept(disk, tree), goal, path)
    {
      SweptAt(disk, analyzer, tree, path);
    }
  }

  lemma SweptAt(disk: Disk, analyzer: Index.Analyzer, tree: Tree, path: Path)
    requires disk.estate.owner(path).Some?
    ensures path in disk.tree ==>
        Expected(disk.estate, analyzer, Swept(disk, tree), path) == Expected(disk.estate, analyzer, tree, path)
    ensures path !in disk.tree ==> Expected(disk.estate, analyzer, Swept(disk, tree), path) == EntryAt(NOTHING, path)
    ensures Expected(disk.estate, analyzer, disk.estate.Owned(disk.tree), path)
         == Expected(disk.estate, analyzer, disk.tree, path)
  {}

  /** The row of an orphan without documents stays, so the ledger speaks of a file no tree has. */
  lemma BlankOrphanKeepsRow(disk: Disk, tree: Tree, rows: LedgerRows, service: string, path: Path)
    requires path in tree && path !in disk.tree && disk.estate.owner(path) == Some(service)
    requires disk.estate.chunksOf(service, path, tree[path]) == [] && FileKey(service, path) in rows
    ensures FileKey(service, path) in SweptRows(disk, tree, rows) && path !in Swept(disk, tree)
    ensures !LedgerAgrees(disk.estate, SweptRows(disk, tree, rows), Swept(disk, tree))
  {}

  /** With a ledger in step, the sweep keeps it in step exactly when every orphan had a document. */
  lemma SweepKeepsStepIff(disk: Disk, tree: Tree, rows: LedgerRows)
    requires LedgerAgrees(disk.estate, rows, tree) && forall path <- tree :: disk.estate.owner(path).Some?
    ensures LedgerAgrees(disk.estate, SweptRows(disk, tree, rows), Swept(disk, tree)) <==>
            forall path <- tree | path !in disk.tree :: ChunkedOrphan(disk, tree, path)
  {
    if LedgerAgrees(disk.estate, SweptRows(disk, tree, rows), Swept(disk, tree)) {
      forall path <- tree | path !in disk.tree ensures ChunkedOrphan(disk, tree, path) {
        var key := FileKey(disk.estate.owner(path).value, path);
        assert key in rows;
        assert key !in SweptRows(disk, tree, rows);
      }
    }
  }
}

/** What an index holds that reflects a tree, said of the tree's own chunks (`backend/ingestion/pipeline.py`,
    `_graph_delta`): which documents, which function, file and module nodes, and which relationships. */
module IndexContents {
  import opened Domain
  import opened Text
  import opened IndexEntries
  import Store = GraphStore
  import Index = SearchIndex

  // ----- What is promised -----

  /** A chunk of an indexed file. */
  ghost predicate IsCut(estate: Estate, tree: Tree, c: Chunk) {
    && c.path in tree && estate.owner(c.path) == Some(c.service)
    && c in estate.chunksOf(c.service, c.path, tree[c.path])
  }

  /** A chunk that is a function or a method with a name. */
  predicate IsNamedFunction(c: Chunk) {
    c.kind in {FUNCTION, METHOD} && c.symbol.Some? && |c.symbol.value| > 0
  }

  function FileRef(path: Path): NodeRef { NodeRef(NodeKind.File, path) }

  function FunctionRef(c: Chunk): NodeRef
    requires c.symbol.Some?
  {
    NodeRef(NodeKind.Function, c.path + "#" + c.symbol.value + "@" + Decimal(c.start))
  }

  predicate Says(n: Node, property: string, value: string) {
    property in n.properties && n.properties[property] == value
  }

  /** Every named function of an indexed file is listed, as one of that file and symbol, and defined by its file. */
  ghost predicate FunctionsKept(estate: Estate, files: Files, tree: Tree) {
    forall c | IsCut(estate, tree, c) && IsNamedFunction(c) ::
      && Link(FileRef(c.path), DEFINES, FunctionRef(c)) in files.links
      && exists n <- files.nodes ::
           && n.ref == FunctionRef(c)
           && Says(n, "service", c.service) && Says(n, "file", c.path) && Says(n, "symbol", c.symbol.value)
  }

  /** No other function is listed, and none is defined: each is at the lines of a chunk. */
  ghost predicate NoOtherFunctions(estate: Estate, files: Files, tree: Tree) {
    && (forall n <- files.nodes | n.ref.kind.Function? ::
          exists c | IsCut(estate, tree, c) && IsNamedFunction(c) ::
            && n.ref == FunctionRef(c) && Says(n, "chunk_id", c.chunkId)
            && Says(n, "lines", Decimal(c.start) + "-" + Decimal(c.end)))
    && (forall l <- files.links | l.rel == DEFINES ::
          exists c | IsCut(estate, tree, c) && IsNamedFunction(c) ::
            l == Link(FileRef(c.path), DEFINES, FunctionRef(c)))
  }

  /** The folder a file is in, or the file itself at the root. */
  function HolderOf(path: Path): NodeRef { NodeRef(NodeKind.Module, ParentOr(path, path)) }

  /** File nodes are those of the indexed files, each with its service, module and language. */
  ghost predicate FilesListed(estate: Estate, files: Files, tree: Tree) {
    && (forall path <- tree :: exists n <- files.nodes :: n.ref == FileRef(path))
    && (forall n <- files.nodes | n.ref.kind.File? ::
          && n.ref.key in tree && estate.owner(n.ref.key).Some?
          && Says(n, "service", estate.owner(n.ref.key).value) && Says(n, "module", HolderOf(n.ref.key).key)
          && Says(n, "language", estate.languageOf(n.ref.key)))
  }

  /** Service, module and file hang together; no other module holds a file. */
  ghost predicate FilesPlaced(estate: Estate, files: Files, tree: Tree) {
    && (forall path <- tree ::
          && estate.owner(path).Some?
          && var service := NodeRef(NodeKind.Service, estate.owner(path).value);
             && Link(service, CONTAINS, HolderOf(path)) in files.links
             && Link(HolderOf(path), CONTAINS, FileRef(path)) in files.links
             && (exists n <- files.nodes :: n.ref == service && Says(n, "name", service.key))
             && (exists n <- files.nodes :: n.ref == HolderOf(path)))
    && (forall l <- files.links | l.rel == CONTAINS && l.dst.kind.File? ::
          l.dst.key in tree && l.src == HolderOf(l.dst.key))
  }

  /** Documents are those of the indexed files' chunks, under their ids. */
  ghost predicate DocumentsKept(estate: Estate, analyzer: Index.Analyzer, files: Files, tree: Tree) {
    && (forall c | IsCut(estate, tree, c) :: c.chunkId in files.docs)
    && (forall id <- files.docs :: exists c | IsCut(estate, tree, c) ::
          c.chunkId == id && files.docs[id] == analyzer.DocOf(c))
  }

  ghost predicate Catalogues(estate: Estate, analyzer: Index.Analyzer, files: Files, tree: Tree) {
    && FunctionsKept(estate, files, tree) && NoOtherFunctions(estate, files, tree)
    && FilesListed(estate, files, tree) && FilesPlaced(estate, files, tree)
    && DocumentsKept(estate, analyzer, files, tree)
  }

  // ----- Why it holds -----

  /** What one file contributes. */
  ghost function Contribution(estate: Estate, tree: Tree, path: Path): Ingested
    requires path in tree && estate.owner(path).Some?
  {
    estate.Ingest(estate.owner(path).value, path, tree[path])
  }

  lemma AtPath(estate: Estate, analyzer: Index.Analyzer, files: Files, tree: Tree, path: Path)
    requires Reflects(estate, analyzer, files, tree) && path in tree
    ensures Plain(path) && estate.owner(path).Some?
    ensures var ing := Contribution(estate, tree, path);
            && DocsAt(files.docs, path) == DocsAt(analyzer.Indexed(map[], ing.chunks), path)
            && NodesAt(files.nodes, path) == NodesAt(Store.Showing({}, ing.nodes), path)
            && LinksAt(files.links, path) == LinksAt(Store.LinksOf(ing.edges), path)
  {
    assert EntryAt(files, path) == Expected(estate, analyzer, tree, path);
    assert {} + Store.LinksOf(Contribution(estate, tree, path).edges)
        == Store.LinksOf(Contribution(estate, tree, path).edges);
  }

  /** Off the tree there is nothing. */
  lemma OffTree(estate: Estate, analyzer: Index.Analyzer, files: Files, tree: Tree, path: Path)
    requires Reflects(estate, analyzer, files, tree) && path !in tree
    ensures DocsAt(files.docs, path) == map[] && NodesAt(files.nodes, path) == {} && LinksAt(files.links, path) == {}
  {
    assert EntryAt(files, path) == Expected(estate, analyzer, tree, path);
  }

  lemma {:induction false} FunctionNodesOf(chunks: seq<Chunk>)
    ensures forall c <- chunks | Functionish(c) :: FunctionNode(c) in FunctionNodes(chunks)
    ensures forall n <- FunctionNodes(chunks) :: exists c <- chunks :: Functionish(c) && n == FunctionNode(c)
  {
    if chunks != [] {
      FunctionNodesOf(chunks[1..]);
      assert chunks == [chunks[0]] + chunks[1..];
      forall n <- FunctionNodes(chunks) ensures exists c <- chunks :: Functionish(c) && n == FunctionNode(c) {
        if n in FunctionNodes(chunks[1..]) {
          var c :| c in chunks[1..] && Functionish(c) && n == FunctionNode(c);
          assert c in chunks;
        } else {
          assert chunks[0] in chunks;
        }
      }
    }
  }

  lemma FunctionKeyTells(c: Chunk, d: Chunk)
    requires c.path == d.path && c.symbol.Some? && d.symbol.Some? && FunctionRef(c) == FunctionRef(d)
    ensures c.symbol == d.symbol && c.start == d.start
  {
    DecimalStandsFor(c.start);
    DecimalStandsFor(d.start);
    var a, b := c.path + "#" + c.symbol.value, d.path + "#" + d.symbol.value;
    assert a + ['@'] + Decimal(c.start) == b + ['@'] + Decimal(d.start);
    SplitAtLast(a, Decimal(c.start), b, Decimal(d.start), '@');
    assert a[|c.path| + 1..] == c.symbol.value && b[|d.path| + 1..] == d.symbol.value;
    DecimalIsInjective(c.start, d.start);
  }

  /** A node a file contributes is listed under its key, and what is listed there was contributed. */
  lemma ShownAt(estate: Estate, analyzer: Index.Analyzer, files: Files, tree: Tree, path: Path, ref: NodeRef)
    requires Reflects(estate, analyzer, files, tree) && path in tree && PathOf(ref) == Some(path)
    requires exists n <- estate.Ingest(estate.owner(path).value, path, tree[path]).nodes :: n.ref == ref
    ensures exists n <- files.nodes :: n.ref == ref
  {
    var ing := Contribution(estate, tree, path);
    AtPath(estate, analyzer, files, tree, path);
    ShowingRefs({}, ing.nodes);
    var shown := Store.Showing({}, ing.nodes);
    assert ref in Store.RefsIn(shown);
    var n :| n in shown && n.ref == ref;
    assert n in NodesAt(shown, path) && n in NodesAt(files.nodes, path);
  }

  lemma FromContribution(estate: Estate, analyzer: Index.Analyzer, files: Files, tree: Tree, n: Node, path: Path)
    requires Reflects(estate, analyzer, files, tree) && n in files.nodes && PathOf(n.ref) == Some(path)
    ensures path in tree && n in Contribution(estate, tree, path).nodes
  {
    assert n in NodesAt(files.nodes, path);
    if path !in tree {
      OffTree(estate, analyzer, files, tree, path);
    } else {
      AtPath(estate, analyzer, files, tree, path);
      ShowingRefs({}, Contribution(estate, tree, path).nodes);
      assert n in NodesAt(Store.Showing({}, Contribution(estate, tree, path).nodes), path);
    }
  }

  lemma FunctionIsFromChunk(estate: Estate, analyzer: Index.Analyzer, files: Files, tree: Tree, n: Node)
      returns (c: Chunk)
    requires estate.Lawful() && Reflects(estate, analyzer, files, tree) && n in files.nodes && n.ref.kind.Function?
    ensures IsCut(estate, tree, c) && Functionish(c) && n == FunctionNode(c) && PathOf(n.ref) == Some(c.path)
  {
    var path := PathOf(n.ref).value;
    FromContribution(estate, analyzer, files, tree, n, path);
    var service := estate.owner(path).value;
    var chunks := estate.chunksOf(service, path, tree[path]);
    FunctionNodesOf(chunks);
    assert n in FunctionNodes(chunks);
    c :| c in chunks && Functionish(c) && n == FunctionNode(c);
  }

  lemma FunctionIsKept(estate: Estate, analyzer: Index.Analyzer, files: Files, tree: Tree, c: Chunk)
    requires estate.Lawful() && Reflects(estate, analyzer, files, tree) && IsCut(estate, tree, c) && IsNamedFunction(c)
    ensures Link(FileRef(c.path), DEFINES, FunctionRef(c)) in files.links
    ensures exists n <- files.nodes ::
              && n.ref == FunctionRef(c)
              && Says(n, "service", c.service) && Says(n, "file", c.path) && Says(n, "symbol", c.symbol.value)
  {
    FunctionIsContributed(estate, tree, c);
    ShownAt(estate, analyzer, files, tree, c.path, FunctionRef(c));
    var n :| n in files.nodes && n.ref == FunctionRef(c);
    ListedSpeaksOf(estate, analyzer, files, tree, c, n);
    DefinesListed(estate, analyzer, files, tree, c.path, FunctionRef(c));
  }

  lemma FunctionIsContributed(estate: Estate, tree: Tree, c: Chunk)
    requires estate.Lawful() && IsCut(estate, tree, c) && IsNamedFunction(c) && Plain(c.path)
    ensures PathOf(FunctionRef(c)) == Some(c.path)
    ensures exists n <- FunctionNodes(estate.chunksOf(c.service, c.path, tree[c.path])) :: n.ref == FunctionRef(c)
    ensures exists n <- Contribution(estate, tree, c.path).nodes :: n.ref == FunctionRef(c)
  {
    var chunks := estate.chunksOf(c.service, c.path, tree[c.path]);
    FunctionNodesOf(chunks);
    FunctionNodesBelong(chunks, c.path);
    assert FunctionNode(c) in FunctionNodes(chunks);
    assert FunctionNode(c) in Contribution(estate, tree, c.path).nodes;
  }

  lemma ListedSpeaksOf(estate: Estate, analyzer: Index.Analyzer, files: Files, tree: Tree, c: Chunk, n: Node)
    requires estate.Lawful() && Reflects(estate, analyzer, files, tree) && IsCut(estate, tree, c) && IsNamedFunction(c)
    requires n in files.nodes && n.ref == FunctionRef(c) && PathOf(FunctionRef(c)) == Some(c.path)
    ensures Says(n, "service", c.service) && Says(n, "file", c.path) && Says(n, "symbol", c.symbol.value)
  {
    var d := FunctionIsFromChunk(estate, analyzer, files, tree, n);
    FunctionKeyTells(c, d);
  }

  lemma DefinesListed(estate: Estate, analyzer: Index.Analyzer, files: Files, tree: Tree, path: Path, ref: NodeRef)
    requires Reflects(estate, analyzer, files, tree) && path in tree
    requires exists n <- FunctionNodes(estate.chunksOf(estate.owner(path).value, path, tree[path])) :: n.ref == ref
    ensures Link(FileRef(path), DEFINES, ref) in files.links
  {
    var functions := FunctionNodes(estate.chunksOf(estate.owner(path).value, path, tree[path]));
    var i :| 0 <= i < |functions| && functions[i].ref == ref;
    var ing, e := Contribution(estate, tree, path), DefinesEdges(path, functions)[i];
    AtPath(estate, analyzer, files, tree, path);
    assert e in DefinesEdges(path, functions) && e in ing.edges && e.link in Store.LinksOf(ing.edges);
    assert e.link in LinksAt(Store.LinksOf(ing.edges), path) && e.link in LinksAt(files.links, path);
  }

  lemma DefinedIsFromChunk(estate: Estate, analyzer: Index.Analyzer, files: Files, tree: Tree, l: Link)
    requires estate.Lawful() && Reflects(estate, analyzer, files, tree) && l in files.links && l.rel == DEFINES
    ensures exists c | IsCut(estate, tree, c) && IsNamedFunction(c) ::
              l == Link(FileRef(c.path), DEFINES, FunctionRef(c))
  {
    var path := l.src.key;
    assert l in LinksAt(files.links, path);
    if path !in tree {
      OffTree(estate, analyzer, files, tree, path);
    } else {
      AtPath(estate, analyzer, files, tree, path);
      var service := estate.owner(path).value;
      var c := ContributedByChunk(estate, service, path, tree[path], l);
      assert IsCut(estate, tree, c) && IsNamedFunction(c);
    }
  }

  lemma ContributedByChunk(estate: Estate, service: string, path: Path, content: Content, l: Link) returns (c: Chunk)
    requires estate.Lawful() && estate.owner(path) == Some(service) && l.rel == DEFINES
    requires l in Store.LinksOf(estate.Ingest(service, path, content).edges)
    ensures c in estate.chunksOf(service, path, content) && Functionish(c) && c.path == path && c.service == service
    ensures l == Link(FileRef(path), DEFINES, FunctionRef(c))
  {
    var chunks := estate.chunksOf(service, path, content);
    var functions := FunctionNodes(chunks);
    var e :| e in estate.Ingest(service, path, content).edges && e.link == l;
    assert e in DefinesEdges(path, functions);
    var i :| 0 <= i < |functions| && e == DefinesEdges(path, functions)[i];
    FunctionNodesOf(chunks);
    assert functions[i] in functions;
    c :| c in chunks && Functionish(c) && functions[i] == FunctionNode(c);
  }

  lemma FilesAreListed(estate: Estate, analyzer: Index.Analyzer, files: Files, tree: Tree)
    requires estate.Lawful() && Reflects(estate, analyzer, files, tree)
    ensures FilesListed(estate, files, tree)
  {
    forall path <- tree ensures exists n <- files.nodes :: n.ref == FileRef(path) {
      FileNodeOf(estate, estate.owner(path).value, path, tree[path]);
      ShownAt(estate, analyzer, files, tree, path, FileRef(path));
    }
    forall n <- files.nodes | n.ref.kind.File?
      ensures n.ref.key in tree && estate.owner(n.ref.key).Some?
      ensures Says(n, "service", estate.owner(n.ref.key).value) && Says(n, "module", HolderOf(n.ref.key).key)
      ensures Says(n, "language", estate.languageOf(n.ref.key))
    {
      var path := n.ref.key;
      FromContribution(estate, analyzer, files, tree, n, path);
      FileNodeOf(estate, estate.owner(path).value, path, tree[path]);
    }
  }

  /** A file contributes one File node. */
  lemma FileNodeOf(estate: Estate, service: string, path: Path, content: Content)
    ensures var ing := estate.Ingest(service, path, content);
            && (exists n <- ing.nodes :: n.ref == FileRef(path))
            && forall n <- ing.nodes | n.ref.kind.File? ::
                 && n.ref == FileRef(path) && Says(n, "service", service) && Says(n, "module", HolderOf(path).key)
                 && Says(n, "language", estate.languageOf(path))
  {
    var ing := estate.Ingest(service, path, content);
    FunctionNodesAreFunctions(estate.chunksOf(service, path, content));
    assert ing.nodes[2] in ing.nodes;
  }

  lemma FilesArePlaced(estate: Estate, analyzer: Index.Analyzer, files: Files, tree: Tree)
    requires estate.Lawful() && Reflects(estate, analyzer, files, tree)
    ensures FilesPlaced(estate, files, tree)
  {
    forall path <- tree ensures Link(HolderOf(path), CONTAINS, FileRef(path)) in files.links {
      var ing := Contribution(estate, tree, path);
      AtPath(estate, analyzer, files, tree, path);
      IngestAnchors(estate, estate.owner(path).value, path, tree[path]);
      assert Link(HolderOf(path), CONTAINS, FileRef(path)) in LinksAt(Store.LinksOf(ing.edges), path);
    }
    forall path <- tree
      ensures var service := NodeRef(NodeKind.Service, estate.owner(path).value);
              && Link(service, CONTAINS, HolderOf(path)) in files.links
              && (exists n <- files.nodes :: n.ref == service && Says(n, "name", service.key))
              && (exists n <- files.nodes :: n.ref == HolderOf(path))
    {
      assert AnchoredAt(estate, files, path);
      var n :| n in files.nodes && n.ref == NodeRef(NodeKind.Service, estate.owner(path).value);
      assert NamesItsService(estate, n);
    }
    forall l <- files.links | l.rel == CONTAINS && l.dst.kind.File?
      ensures l.dst.key in tree && l.src == HolderOf(l.dst.key)
    {
      OnlyHolder(estate, analyzer, files, tree, l);
    }
  }

  lemma OnlyHolder(estate: Estate, analyzer: Index.Analyzer, files: Files, tree: Tree, l: Link)
    requires estate.Lawful() && Reflects(estate, analyzer, files, tree)
    requires l in files.links && l.rel == CONTAINS && l.dst.kind.File?
    ensures l.dst.key in tree && l.src == HolderOf(l.dst.key)
  {
    var path := l.dst.key;
    assert l in LinksAt(files.links, path);
    if path !in tree {
      OffTree(estate, analyzer, files, tree, path);
    } else {
      AtPath(estate, analyzer, files, tree, path);
      assert l in LinksAt(Store.LinksOf(Contribution(estate, tree, path).edges), path);
      IngestPlaces(estate, estate.owner(path).value, path, tree[path]);
    }
  }

  lemma {:induction false} IndexedIds(analyzer: Index.Analyzer, docs: Index.Docs, chunks: seq<Chunk>)
    ensures forall c <- chunks :: c.chunkId in analyzer.Indexed(docs, chunks)
    ensures docs.Keys <= analyzer.Indexed(docs, chunks).Keys
    decreases |chunks|
  {
    if chunks != [] {
      IndexedIds(analyzer, docs[chunks[0].chunkId := analyzer.DocOf(chunks[0])], chunks[1..]);
      assert chunks == [chunks[0]] + chunks[1..];
    }
  }

  lemma {:induction false} IndexedFrom(analyzer: Index.Analyzer, docs: Index.Docs, chunks: seq<Chunk>, id: string)
    requires id in analyzer.Indexed(docs, chunks)
    ensures || (id in docs && analyzer.Indexed(docs, chunks)[id] == docs[id])
            || exists c <- chunks :: c.chunkId == id && analyzer.Indexed(docs, chunks)[id] == analyzer.DocOf(c)
    decreases |chunks|
  {
    if chunks != [] {
      var next := docs[chunks[0].chunkId := analyzer.DocOf(chunks[0])];
      IndexedFrom(analyzer, next, chunks[1..], id);
      assert chunks[0] in chunks && forall c <- chunks[1..] :: c in chunks;
    }
  }

  lemma DocumentsAreKept(estate: Estate, analyzer: Index.Analyzer, files: Files, tree: Tree)
    requires estate.Lawful() && Reflects(estate, analyzer, files, tree)
    ensures DocumentsKept(estate, analyzer, files, tree)
  {
    forall c | IsCut(estate, tree, c) ensures c.chunkId in files.docs {
      var chunks := estate.chunksOf(c.service, c.path, tree[c.path]);
      AtPath(estate, analyzer, files, tree, c.path);
      IndexedIds(analyzer, map[], chunks);
      IndexedFrom(analyzer, map[], chunks, c.chunkId);
      var docs := analyzer.Indexed(map[], chunks);
      var d :| d in chunks && d.chunkId == c.chunkId && docs[c.chunkId] == analyzer.DocOf(d);
      assert c.chunkId in DocsAt(docs, c.path);
      assert c.chunkId in DocsAt(files.docs, c.path);
    }
    forall id <- files.docs ensures exists c | IsCut(estate, tree, c) ::
        c.chunkId == id && files.docs[id] == analyzer.DocOf(c)
    {
      DocumentIsFromChunk(estate, analyzer, files, tree, id);
    }
  }

  lemma DocumentIsFromChunk(estate: Estate, analyzer: Index.Analyzer, files: Files, tree: Tree, id: string)
    requires estate.Lawful() && Reflects(estate, analyzer, files, tree) && id in files.docs
    ensures exists c | IsCut(estate, tree, c) :: c.chunkId == id && files.docs[id] == analyzer.DocOf(c)
  {
    var path := files.docs[id].chunk.path;
    assert id in DocsAt(files.docs, path);
    if path !in tree {
      OffTree(estate, analyzer, files, tree, path);
    } else {
      var chunks := estate.chunksOf(estate.owner(path).value, path, tree[path]);
      AtPath(estate, analyzer, files, tree, path);
      IndexedFrom(analyzer, map[], chunks, id);
      assert id in DocsAt(analyzer.Indexed(map[], chunks), path);
      var c :| c in chunks && c.chunkId == id && files.docs[id] == analyzer.DocOf(c);
      assert IsCut(estate, tree, c);
    }
  }

  /** An index that reflects a tree catalogues it. */
  lemma ReflectingCatalogues(estate: Estate, analyzer: Index.Analyzer, files: Files, tree: Tree)
    requires estate.Lawful() && Reflects(estate, analyzer, files, tree)
    ensures Catalogues(estate, analyzer, files, tree)
  {
    forall c | IsCut(estate, tree, c) && IsNamedFunction(c)
      ensures Link(FileRef(c.path), DEFINES, FunctionRef(c)) in files.links
      ensures exists n <- files.nodes ::
                && n.ref == FunctionRef(c)
                && Says(n, "service", c.service) && Says(n, "file", c.path) && Says(n, "symbol", c.symbol.value)
    {
      FunctionIsKept(estate, analyzer, files, tree, c);
    }
    OthersAreNone(estate, analyzer, files, tree);
    FilesAreListed(estate, analyzer, files, tree);
    FilesArePlaced(estate, analyzer, files, tree);
    DocumentsAreKept(estate, analyzer, files, tree);
  }

  /** The function nodes are those of the named functions. */
  lemma FunctionsAreListed(estate: Estate, analyzer: Index.Analyzer, files: Files, tree: Tree, ref: NodeRef)
    requires estate.Lawful() && Reflects(estate, analyzer, files, tree)
    ensures ref.kind.Function? && ref in Store.RefsIn(files.nodes) <==>
              exists c | IsCut(estate, tree, c) && IsNamedFunction(c) :: ref == FunctionRef(c)
  {
    if ref.kind.Function? && ref in Store.RefsIn(files.nodes) {
      var n :| n in files.nodes && n.ref == ref;
      var c := FunctionIsFromChunk(estate, analyzer, files, tree, n);
      assert IsCut(estate, tree, c) && IsNamedFunction(c);
    }
    if c :| IsCut(estate, tree, c) && IsNamedFunction(c) && ref == FunctionRef(c) {
      FunctionIsKept(estate, analyzer, files, tree, c);
    }
  }

  lemma OthersAreNone(estate: Estate, analyzer: Index.Analyzer, files: Files, tree: Tree)
    requires estate.Lawful() && Reflects(estate, analyzer, files, tree)
    ensures NoOtherFunctions(estate, files, tree)
  {
    forall n <- files.nodes | n.ref.kind.Function?
      ensures exists c | IsCut(estate, tree, c) && IsNamedFunction(c) ::
                && n.ref == FunctionRef(c) && Says(n, "chunk_id", c.chunkId)
                && Says(n, "lines", Decimal(c.start) + "-" + Decimal(c.end))
    {
      var c := FunctionIsFromChunk(estate, analyzer, files, tree, n);
      assert IsCut(estate, tree, c) && IsNamedFunction(c);
    }
    forall l <- files.links | l.rel == DEFINES
      ensures exists c | IsCut(estate, tree, c) && IsNamedFunction(c) ::
                l == Link(FileRef(c.path), DEFINES, FunctionRef(c))
    {
      DefinedIsFromChunk(estate, analyzer, files, tree, l);
    }
  }
}

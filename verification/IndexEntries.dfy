/** What each file contributes to the search index and the graph (`backend/ingestion/pipeline.py`),
    and the part of the live index that belongs to one path. */
module IndexEntries {
  import opened Domain
  import opened Persistence
  import opened Text
  import Store = GraphStore
  import Index = SearchIndex

  type Path = string
  type Content = string
  type Tree = map<Path, Content>

  datatype Ingested = Ingested(chunks: seq<Chunk>, nodes: seq<Node>, edges: seq<Edge>)

  // ----- What a file contributes to the index -----

  /** The parent folder, or the path itself for a file with none. */
  function ModuleKey(path: Path): string {
    ParentOr(path, path)
  }

  predicate Functionish(chunk: Chunk) {
    (chunk.kind == FUNCTION || chunk.kind == METHOD) && chunk.symbol.Some? && chunk.symbol.value != ""
  }

  function FunctionNode(chunk: Chunk): Node
    requires Functionish(chunk)
  {
    Node(NodeRef(NodeKind.Function, chunk.path + "#" + chunk.symbol.value + "@" + Decimal(chunk.start)),
         map["service" := chunk.service, "file" := chunk.path, "symbol" := chunk.symbol.value,
             "lines" := Decimal(chunk.start) + "-" + Decimal(chunk.end), "chunk_id" := chunk.chunkId])
  }

  function FunctionNodes(chunks: seq<Chunk>): seq<Node> {
    if chunks == [] then []
    else (if Functionish(chunks[0]) then [FunctionNode(chunks[0])] else []) + FunctionNodes(chunks[1..])
  }

  function DefinesEdges(path: Path, functions: seq<Node>): seq<Edge> {
    seq(|functions|, i requires 0 <= i < |functions| =>
      Edge(Link(NodeRef(NodeKind.File, path), DEFINES, functions[i].ref), map[]))
  }

  /** The estate: ownership by the manifest, and the pure steps of ingestion. `fileOfId` recovers
      the file from a chunk id; it exists because ids embed service and path. */
  datatype Estate = Estate(
    owner: Path -> Option<string>,
    chunksOf: (string, Path, Content) -> seq<Chunk>,
    languageOf: Path -> string,
    hash: Content -> string,
    fileOfId: string -> FileKey)
  {
    /** Of the files some service owns: chunks carry their file, and their ids identify it. */
    ghost predicate Lawful() {
      forall service, path, content, chunk <- chunksOf(service, path, content) | owner(path) == Some(service) ::
        && chunk.service == service && chunk.path == path
        && fileOfId(chunk.chunkId) == FileKey(service, path)
    }

    ghost predicate HashIsInjective() { forall a, b :: hash(a) == hash(b) ==> a == b }

    function Ingest(service: string, path: Path, content: Content): Ingested {
      var chunks := chunksOf(service, path, content);
      var functions := FunctionNodes(chunks);
      var serviceRef, moduleRef, fileRef :=
        NodeRef(NodeKind.Service, service), NodeRef(NodeKind.Module, ModuleKey(path)), NodeRef(NodeKind.File, path);
      Ingested(
        chunks,
        [ Node(serviceRef, map["name" := service]), Node(moduleRef, map["service" := service]),
          Node(fileRef, map["service" := service, "module" := ModuleKey(path), "language" := languageOf(path)]) ]
        + functions,
        [ Edge(Link(serviceRef, CONTAINS, moduleRef), map[]), Edge(Link(moduleRef, CONTAINS, fileRef), map[]) ]
        + DefinesEdges(path, functions))
    }

    ghost function Owned(tree: Tree): Tree {
      map path | path in tree && owner(path).Some? :: tree[path]
    }
  }

  // ----- The part of the index that belongs to one path -----

  predicate Plain(path: Path) { '#' !in path }

  function FirstHash(s: string): (i: nat)
    ensures i <= |s| && '#' !in s[..i] && (i < |s| ==> s[i] == '#')
  {
    if s == "" || s[0] == '#' then 0 else 1 + FirstHash(s[1..])
  }

  /** The file a File or Function node belongs to. */
  function PathOf(ref: NodeRef): Option<Path> {
    match ref.kind
    case File => Some(ref.key)
    case Function => if FirstHash(ref.key) < |ref.key| then Some(ref.key[..FirstHash(ref.key)]) else None
    case _ => None
  }

  lemma {:induction false} FirstHashAfter(path: Path, rest: string)
    requires Plain(path)
    ensures FirstHash(path + "#" + rest) == |path|
  {
    var key := path + "#" + rest;
    if path != "" {
      assert key[1..] == path[1..] + "#" + rest;
      FirstHashAfter(path[1..], rest);
    }
  }

  lemma PathOfFunctionKey(path: Path, rest: string)
    requires Plain(path)
    ensures PathOf(NodeRef(NodeKind.Function, path + "#" + rest)) == Some(path)
  {
    FirstHashAfter(path, rest);
    assert (path + "#" + rest)[..|path|] == path;
  }

  /** The prefix test used for cascade deletion selects exactly the file's own nodes. */
  lemma OfFileIffPath(ref: NodeRef, path: Path)
    requires Plain(path)
    ensures Store.OfFile(ref, path) <==> PathOf(ref) == Some(path)
  {
    if ref.kind.Function? {
      var i := FirstHash(ref.key);
      if StartsWith(ref.key, path + "#") {
        assert ref.key == path + "#" + ref.key[|path| + 1..];
        PathOfFunctionKey(path, ref.key[|path| + 1..]);
      }
      assert i < |ref.key| ==> ref.key[..i + 1] == ref.key[..i] + "#";
    }
  }

  datatype Entry = Entry(docs: Index.Docs, nodes: set<Node>, links: set<Link>)

  /** A whole index as a value: search documents, the nodes that listing by kind shows, and relationships. */
  datatype Files = Files(docs: Index.Docs, nodes: set<Node>, links: set<Link>)

  ghost function DocsAt(docs: Index.Docs, path: Path): Index.Docs {
    map id | id in docs && docs[id].chunk.path == path :: docs[id]
  }

  ghost function NodesAt(nodes: set<Node>, path: Path): set<Node> {
    set n | n in nodes && PathOf(n.ref) == Some(path)
  }

  /** The relationships that define a file's functions, and those that place it in a module. */
  ghost function LinksAt(links: set<Link>, path: Path): set<Link> {
    var file := NodeRef(NodeKind.File, path);
    set l | l in links && ((l.rel == DEFINES && l.src == file) || (l.rel == CONTAINS && l.dst == file))
  }

  ghost function EntryAt(files: Files, path: Path): Entry {
    Entry(DocsAt(files.docs, path), NodesAt(files.nodes, path), LinksAt(files.links, path))
  }

  const NOTHING := Files(map[], {}, {})

  /** The index after adding what one ingested file contributes. */
  ghost function Filled(analyzer: Index.Analyzer, files: Files, more: Ingested): Files {
    Files(analyzer.Indexed(files.docs, more.chunks), Store.Showing(files.nodes, more.nodes),
          files.links + Store.LinksOf(more.edges))
  }

  /** The index after the cascade delete of a file. */
  ghost function Erased(files: Files, service: string, path: Path): Files {
    var gone := Store.FileRefs(Store.RefsIn(files.nodes), path);
    Files(files.docs - Index.OfFile(files.docs, service, path), Store.Hiding(files.nodes, gone),
          Store.Untouched(files.links, gone))
  }

  /** What a freshly ingested file leaves at its path. */
  ghost function Expected(estate: Estate, analyzer: Index.Analyzer, tree: Tree, path: Path): Entry {
    if path in tree && estate.owner(path).Some?
    then EntryAt(Filled(analyzer, NOTHING, estate.Ingest(estate.owner(path).value, path, tree[path])), path)
    else EntryAt(NOTHING, path)
  }

  /** The index holds, path by path, exactly what ingesting `tree` afresh would put there. */
  ghost predicate Reflects(estate: Estate, analyzer: Index.Analyzer, files: Files, tree: Tree) {
    && (forall path :: EntryAt(files, path) == Expected(estate, analyzer, tree, path))
    && (forall path <- tree :: Plain(path) && estate.owner(path).Some?)
    && Tidy(estate, files) && Anchored(estate, files, tree)
  }

  /** Every file's service and module are in the graph, the one containing the other. */
  ghost predicate Anchored(estate: Estate, files: Files, tree: Tree) {
    forall path {:trigger AnchoredAt(estate, files, path)} | path in tree :: AnchoredAt(estate, files, path)
  }

  ghost predicate AnchoredAt(estate: Estate, files: Files, path: Path) {
    estate.owner(path).Some? ==>
      var service := NodeRef(NodeKind.Service, estate.owner(path).value);
      var holder := NodeRef(NodeKind.Module, ModuleKey(path));
      service in Store.RefsIn(files.nodes) && holder in Store.RefsIn(files.nodes)
      && Link(service, CONTAINS, holder) in files.links
  }

  ghost predicate Tidy(estate: Estate, files: Files) {
    && (forall id <- files.docs ::
          var chunk := files.docs[id].chunk;
          && estate.owner(chunk.path) == Some(chunk.service)
          && estate.fileOfId(id) == FileKey(chunk.service, chunk.path))
    && (forall l <- files.links | l.rel == DEFINES :: l.src.kind.File? && PathOf(l.dst) == Some(l.src.key))
    && (forall l <- files.links | l.rel == CONTAINS :: l.src.kind.Service? || l.src.kind.Module?)
    && (forall n <- files.nodes | n.ref.kind.Function? :: PathOf(n.ref).Some?)
    && (forall n {:trigger NamesItsService(estate, n)} | n in files.nodes :: NamesItsService(estate, n))
  }

  /** A service node has its name; a module node the owner of some file in it. */
  ghost predicate NamesItsService(estate: Estate, n: Node) {
    && (n.ref.kind.Service? ==> n.properties == map["name" := n.ref.key])
    && (n.ref.kind.Module? ==> exists path ::
          estate.owner(path).Some? && ModuleKey(path) == n.ref.key
          && n.properties == map["service" := estate.owner(path).value])
  }

  // ----- Erasing one path touches that path only -----

  lemma ErasedElsewhere(estate: Estate, files: Files, service: string, path: Path, other: Path)
    requires Tidy(estate, files) && Plain(path) && other != path
    ensures EntryAt(Erased(files, service, path), other) == EntryAt(files, other)
  {
    forall ref {
      OfFileIffPath(ref, path);
    }
    var after := Erased(files, service, path);
    assert DocsAt(after.docs, other) == DocsAt(files.docs, other);
    assert NodesAt(after.nodes, other) == NodesAt(files.nodes, other);
    assert LinksAt(after.links, other) == LinksAt(files.links, other);
  }

  lemma ErasedHere(estate: Estate, files: Files, service: string, path: Path)
    requires Tidy(estate, files) && Plain(path)
    requires estate.owner(path) == Some(service) || EntryAt(files, path) == EntryAt(NOTHING, path)
    requires NodeRef(NodeKind.File, path) in Store.RefsIn(files.nodes) || EntryAt(files, path) == EntryAt(NOTHING, path)
    ensures EntryAt(Erased(files, service, path), path) == EntryAt(NOTHING, path)
  {
    forall ref {
      OfFileIffPath(ref, path);
    }
    var after := Erased(files, service, path);
    forall id <- files.docs | files.docs[id].chunk.path == path ensures id !in after.docs {
      assert id in DocsAt(files.docs, path);
    }
    forall l <- LinksAt(files.links, path) ensures l !in after.links {
      assert NodeRef(NodeKind.File, path) in Store.FileRefs(Store.RefsIn(files.nodes), path);
    }
    assert DocsAt(after.docs, path) == map[];
    assert NodesAt(after.nodes, path) == {};
    assert LinksAt(after.links, path) == {};
  }

  // ----- Filling one path touches that path only -----

  ghost predicate OwnChunks(estate: Estate, chunks: seq<Chunk>, service: string, path: Path) {
    forall chunk <- chunks ::
      chunk.service == service && chunk.path == path && estate.fileOfId(chunk.chunkId) == FileKey(service, path)
  }

  ghost predicate TidyDocs(estate: Estate, docs: Index.Docs) {
    forall id <- docs ::
      var chunk := docs[id].chunk;
      && estate.owner(chunk.path) == Some(chunk.service)
      && estate.fileOfId(id) == FileKey(chunk.service, chunk.path)
  }

  lemma {:induction false} IndexedChangesOnePath(estate: Estate, analyzer: Index.Analyzer, docs: Index.Docs,
                                                 chunks: seq<Chunk>, service: string, path: Path, other: Path)
    requires TidyDocs(estate, docs) && OwnChunks(estate, chunks, service, path)
    requires estate.owner(path) == Some(service)
    ensures TidyDocs(estate, analyzer.Indexed(docs, chunks))
    ensures other != path ==> DocsAt(analyzer.Indexed(docs, chunks), other) == DocsAt(docs, other)
    decreases |chunks|
  {
    if chunks != [] {
      var next := docs[chunks[0].chunkId := analyzer.DocOf(chunks[0])];
      assert DocsAt(next, other) == DocsAt(docs, other) || other == path;
      IndexedChangesOnePath(estate, analyzer, next, chunks[1..], service, path, other);
    }
  }

  lemma {:induction false} IndexedFromEqualEntries(estate: Estate, analyzer: Index.Analyzer, a: Index.Docs,
                                                   b: Index.Docs, chunks: seq<Chunk>, service: string, path: Path)
    requires OwnChunks(estate, chunks, service, path)
    requires DocsAt(a, path) == DocsAt(b, path)
    ensures DocsAt(analyzer.Indexed(a, chunks), path) == DocsAt(analyzer.Indexed(b, chunks), path)
    decreases |chunks|
  {
    if chunks != [] {
      var id, doc := chunks[0].chunkId, analyzer.DocOf(chunks[0]);
      assert DocsAt(a[id := doc], path) == DocsAt(a, path)[id := doc];
      assert DocsAt(b[id := doc], path) == DocsAt(b, path)[id := doc];
      IndexedFromEqualEntries(estate, analyzer, a[id := doc], b[id := doc], chunks[1..], service, path);
    }
  }

  lemma NodesAtShowing(nodes: set<Node>, n: Node, path: Path)
    ensures var next := if n.ref in Store.RefsIn(nodes) then nodes else nodes + {n};
            var here := NodesAt(nodes, path);
            NodesAt(next, path)
            == if PathOf(n.ref) != Some(path) || n.ref in Store.RefsIn(here) then here else here + {n}
  {}

  /** What adding nodes shows at a path depends only on what was shown there. */
  lemma {:induction false} ShowingAt(a: set<Node>, b: set<Node>, more: seq<Node>, path: Path)
    requires NodesAt(a, path) == NodesAt(b, path)
    ensures NodesAt(Store.Showing(a, more), path) == NodesAt(Store.Showing(b, more), path)
    ensures (forall n <- more :: PathOf(n.ref) != Some(path)) ==>
        NodesAt(Store.Showing(a, more), path) == NodesAt(a, path)
    decreases |more|
  {
    if more != [] {
      var n := more[0];
      NodesAtShowing(a, n, path);
      NodesAtShowing(b, n, path);
      ShowingAt(if n.ref in Store.RefsIn(a) then a else a + {n}, if n.ref in Store.RefsIn(b) then b
          else b + {n}, more[1..], path);
    }
  }

  lemma {:induction false} ShowingRefs(nodes: set<Node>, more: seq<Node>)
    ensures Store.RefsIn(Store.Showing(nodes, more)) == Store.RefsIn(nodes) + set n | n in more :: n.ref
    ensures forall n <- Store.Showing(nodes, more) :: n in nodes || n in more
    decreases |more|
  {
    if more != [] {
      var next := if more[0].ref in Store.RefsIn(nodes) then nodes else nodes + {more[0]};
      ShowingRefs(next, more[1..]);
      assert Store.RefsIn(next) == Store.RefsIn(nodes) + {more[0].ref};
      assert more == [more[0]] + more[1..];
    }
  }

  lemma {:induction false} FunctionNodesBelong(chunks: seq<Chunk>, path: Path)
    requires Plain(path) && forall chunk <- chunks :: chunk.path == path
    ensures forall n <- FunctionNodes(chunks) :: n.ref.kind.Function? && PathOf(n.ref) == Some(path)
  {
    if chunks != [] {
      FunctionNodesBelong(chunks[1..], path);
      if Functionish(chunks[0]) {
        var rest := chunks[0].symbol.value + "@" + Decimal(chunks[0].start);
        assert path + "#" + chunks[0].symbol.value + "@" + Decimal(chunks[0].start) == path + "#" + rest;
        PathOfFunctionKey(path, rest);
      }
    }
  }

  /** What one file contributes stays within its path, and names its File node. */
  lemma IngestBelongs(estate: Estate, service: string, path: Path, content: Content)
    requires estate.Lawful() && Plain(path) && estate.owner(path) == Some(service)
    ensures var ing := estate.Ingest(service, path, content);
            && OwnChunks(estate, ing.chunks, service, path)
            && (forall n <- ing.nodes :: PathOf(n.ref) == None || PathOf(n.ref) == Some(path))
            && (forall n <- ing.nodes | n.ref.kind.Function? :: PathOf(n.ref) == Some(path))
            && (exists n <- ing.nodes :: n.ref == NodeRef(NodeKind.File, path))
            && (forall l <- Store.LinksOf(ing.edges) | l.rel == DEFINES ::
                  l.src == NodeRef(NodeKind.File, path) && PathOf(l.dst) == Some(path))
  {
    var ing := estate.Ingest(service, path, content);
    FunctionNodesBelong(ing.chunks, path);
    var functions := FunctionNodes(ing.chunks);
    assert ing.nodes[2].ref == NodeRef(NodeKind.File, path);
    forall e <- DefinesEdges(path, functions)
      ensures e.link.src == NodeRef(NodeKind.File, path) && PathOf(e.link.dst) == Some(path)
    {
      var i :| 0 <= i < |functions| && e == DefinesEdges(path, functions)[i];
      assert functions[i] in functions;
    }
  }

  lemma IngestPlaces(estate: Estate, service: string, path: Path, content: Content)
    requires estate.owner(path) == Some(service)
    ensures var ing := estate.Ingest(service, path, content);
            && (forall n <- ing.nodes :: NamesItsService(estate, n))
            && (forall l <- Store.LinksOf(ing.edges) | l.rel == CONTAINS ::
                  (l.src.kind.Service? || l.src.kind.Module?)
                  && (l.dst.kind.File? ==>
                        l.dst == NodeRef(NodeKind.File, path)
                        && l.src == NodeRef(NodeKind.Module, ModuleKey(path))))
  {
    FunctionNodesAreFunctions(estate.chunksOf(service, path, content));
  }

  lemma {:induction false} FunctionNodesAreFunctions(chunks: seq<Chunk>)
    ensures forall n <- FunctionNodes(chunks) :: n.ref.kind.Function?
  {
    if chunks != [] {
      FunctionNodesAreFunctions(chunks[1..]);
    }
  }

  lemma FilledElsewhere(estate: Estate, analyzer: Index.Analyzer, files: Files, service: string, path: Path,
                        content: Content, other: Path)
    requires estate.Lawful() && Plain(path) && estate.owner(path) == Some(service)
    requires Tidy(estate, files) && other != path
    ensures EntryAt(Filled(analyzer, files, estate.Ingest(service, path, content)), other) == EntryAt(files, other)
  {
    var ing := estate.Ingest(service, path, content);
    IngestBelongs(estate, service, path, content);
    IngestPlaces(estate, service, path, content);
    IndexedChangesOnePath(estate, analyzer, files.docs, ing.chunks, service, path, other);
    ShowingAt(files.nodes, files.nodes, ing.nodes, other);
    assert LinksAt(files.links + Store.LinksOf(ing.edges), other) == LinksAt(files.links, other);
  }

  lemma FilledHere(estate: Estate, analyzer: Index.Analyzer, files: Files, service: string, path: Path,
                   content: Content)
    requires estate.Lawful() && Plain(path) && estate.owner(path) == Some(service)
    requires EntryAt(files, path) == EntryAt(NOTHING, path)
    ensures var ing := estate.Ingest(service, path, content);
            EntryAt(Filled(analyzer, files, ing), path) == EntryAt(Filled(analyzer, NOTHING, ing), path)
  {
    var ing := estate.Ingest(service, path, content);
    IngestBelongs(estate, service, path, content);
    IngestPlaces(estate, service, path, content);
    IndexedFromEqualEntries(estate, analyzer, files.docs, map[], ing.chunks, service, path);
    ShowingAt(files.nodes, {}, ing.nodes, path);
    assert LinksAt(files.links + Store.LinksOf(ing.edges), path) == LinksAt(files.links,
        path) + LinksAt(Store.LinksOf(ing.edges), path);
    assert LinksAt({} + Store.LinksOf(ing.edges), path) == LinksAt(Store.LinksOf(ing.edges), path);
  }

  lemma FilledTidy(estate: Estate, analyzer: Index.Analyzer, files: Files, service: string, path: Path,
                   content: Content)
    requires estate.Lawful() && Plain(path) && estate.owner(path) == Some(service)
    requires Tidy(estate, files)
    ensures Tidy(estate, Filled(analyzer, files, estate.Ingest(service, path, content)))
  {
    var ing := estate.Ingest(service, path, content);
    IngestBelongs(estate, service, path, content);
    IngestPlaces(estate, service, path, content);
    IndexedChangesOnePath(estate, analyzer, files.docs, ing.chunks, service, path, path);
    ShowingRefs(files.nodes, ing.nodes);
  }

  lemma IngestAnchors(estate: Estate, service: string, path: Path, content: Content)
    ensures var ing := estate.Ingest(service, path, content);
            var owner, holder := NodeRef(NodeKind.Service, service), NodeRef(NodeKind.Module, ModuleKey(path));
            && (exists n <- ing.nodes :: n.ref == owner) && (exists n <- ing.nodes :: n.ref == holder)
            && Link(owner, CONTAINS, holder) in Store.LinksOf(ing.edges)
            && Link(holder, CONTAINS, NodeRef(NodeKind.File, path)) in Store.LinksOf(ing.edges)
  {
    var ing := estate.Ingest(service, path, content);
    assert ing.nodes[0] in ing.nodes && ing.nodes[1] in ing.nodes;
    assert ing.edges[0] in ing.edges && ing.edges[1] in ing.edges;
  }

  lemma FilledAnchored(estate: Estate, analyzer: Index.Analyzer, files: Files, tree: Tree, service: string, path: Path,
                       content: Content)
    requires estate.owner(path) == Some(service) && Anchored(estate, files, tree)
    ensures Anchored(estate, Filled(analyzer, files, estate.Ingest(service, path, content)), tree[path := content])
  {
    var ing := estate.Ingest(service, path, content);
    IngestAnchors(estate, service, path, content);
    ShowingRefs(files.nodes, ing.nodes);
    var after := Filled(analyzer, files, ing);
    forall p | p in tree[path := content] ensures AnchoredAt(estate, after, p) {
      assert p != path ==> AnchoredAt(estate, files, p);
    }
  }

  lemma FilledAt(estate: Estate, analyzer: Index.Analyzer, files: Files, tree: Tree, service: string, path: Path,
                 content: Content, p: Path)
    requires estate.Lawful() && Plain(path) && estate.owner(path) == Some(service)
    requires Reflects(estate, analyzer, files, tree) && path !in tree
    ensures EntryAt(Filled(analyzer, files, estate.Ingest(service, path, content)), p)
         == Expected(estate, analyzer, tree[path := content], p)
  {
    assert EntryAt(files, p) == Expected(estate, analyzer, tree, p);
    if p == path {
      FilledHere(estate, analyzer, files, service, path, content);
    } else {
      FilledElsewhere(estate, analyzer, files, service, path, content, p);
    }
  }

  /** Ingesting a file that is not in the index adds exactly that file to the reflected tree. */
  lemma FillReflects(estate: Estate, analyzer: Index.Analyzer, files: Files, tree: Tree, service: string, path: Path,
                     content: Content)
    requires estate.Lawful() && Plain(path) && estate.owner(path) == Some(service)
    requires Reflects(estate, analyzer, files, tree) && path !in tree
    ensures Reflects(estate, analyzer, Filled(analyzer, files, estate.Ingest(service, path, content)),
        tree[path := content])
  {
    var after := Filled(analyzer, files, estate.Ingest(service, path, content));
    forall p ensures EntryAt(after, p) == Expected(estate, analyzer, tree[path := content], p) {
      FilledAt(estate, analyzer, files, tree, service, path, content, p);
    }
    FilledTidy(estate, analyzer, files, service, path, content);
    FilledAnchored(estate, analyzer, files, tree, service, path, content);
  }

  /** An indexed file has its File node, whatever its content. */
  lemma IndexedFileHasNode(estate: Estate, analyzer: Index.Analyzer, tree: Tree, path: Path)
    requires estate.Lawful() && Plain(path) && path in tree && estate.owner(path).Some?
    ensures NodeRef(NodeKind.File, path) in Store.RefsIn(Expected(estate, analyzer, tree, path).nodes)
  {
    var ing := estate.Ingest(estate.owner(path).value, path, tree[path]);
    IngestBelongs(estate, estate.owner(path).value, path, tree[path]);
    ShowingRefs({}, ing.nodes);
    var shown := Store.Showing({}, ing.nodes);
    assert NodeRef(NodeKind.File, path) in Store.RefsIn(shown);
    var n :| n in shown && n.ref == NodeRef(NodeKind.File, path);
    assert n in NodesAt(shown, path);
  }

  /** The cascade delete of a file takes exactly that file out of the reflected tree. */
  lemma EraseReflects(estate: Estate, analyzer: Index.Analyzer, files: Files, tree: Tree, service: string, path: Path)
    requires estate.Lawful() && Plain(path) && estate.owner(path) == Some(service)
    requires Reflects(estate, analyzer, files, tree)
    ensures Reflects(estate, analyzer, Erased(files, service, path), tree - {path})
  {
    var after := Erased(files, service, path);
    forall p ensures EntryAt(after, p) == Expected(estate, analyzer, tree - {path}, p) {
      ErasedAt(estate, analyzer, files, tree, service, path, p);
    }
    ErasedTidy(estate, files, tree, service, path);
  }

  lemma ErasedAt(estate: Estate, analyzer: Index.Analyzer, files: Files, tree: Tree, service: string, path: Path,
                 p: Path)
    requires estate.Lawful() && Plain(path) && estate.owner(path) == Some(service)
    requires Reflects(estate, analyzer, files, tree)
    ensures EntryAt(Erased(files, service, path), p) == Expected(estate, analyzer, tree - {path}, p)
  {
    assert EntryAt(files, p) == Expected(estate, analyzer, tree, p);
    if p == path {
      if path in tree {
        IndexedFileHasNode(estate, analyzer, tree, path);
        assert NodesAt(files.nodes, path) <= files.nodes;
      }
      ErasedHere(estate, files, service, path);
    } else {
      ErasedElsewhere(estate, files, service, path, p);
    }
  }

  /** The cascade delete leaves services and modules where they are. */
  lemma ErasedTidy(estate: Estate, files: Files, tree: Tree, service: string, path: Path)
    requires Tidy(estate, files) && Anchored(estate, files, tree)
    ensures var after := Erased(files, service, path);
            Tidy(estate, after) && Anchored(estate, after, tree - {path})
  {
    forall p | p in tree - {path} ensures AnchoredAt(estate, Erased(files, service, path), p) {
      assert AnchoredAt(estate, files, p);
    }
  }

  /** A path without an owner has no nodes, so cascade-deleting it removes nothing. */
  lemma NothingAtUnowned(estate: Estate, analyzer: Index.Analyzer, files: Files, tree: Tree, path: Path)
    requires Reflects(estate, analyzer, files, tree) && Plain(path) && estate.owner(path).None?
    ensures path !in tree
    ensures Store.FileRefs(Store.RefsIn(files.nodes), path) == {}
    ensures Store.Hiding(files.nodes, {}) == files.nodes && Store.Untouched(files.links, {}) == files.links
  {
    assert EntryAt(files, path) == Expected(estate, analyzer, tree, path);
    assert NodesAt(files.nodes, path) == {};
    forall n <- files.nodes ensures !Store.OfFile(n.ref, path) {
      OfFileIffPath(n.ref, path);
      assert PathOf(n.ref) == Some(path) ==> n in NodesAt(files.nodes, path);
    }
  }

  // ----- Whole indexes -----

  /** Equal search documents, equal File and Function nodes as listed by kind, equal relationships that define
      functions or place files in modules. */
  ghost predicate SameIndex(a: Files, b: Files) {
    a.docs == b.docs && FileNodes(a.nodes) == FileNodes(b.nodes) && FileLinks(a.links) == FileLinks(b.links)
  }

  ghost function FileNodes(nodes: set<Node>): set<Node> {
    set n | n in nodes && (n.ref.kind.File? || n.ref.kind.Function?)
  }

  ghost function FileLinks(links: set<Link>): set<Link> {
    set l | l in links && (l.rel == DEFINES || (l.rel == CONTAINS && l.dst.kind.File?))
  }

  /** Two trees put the same into the index at a path. */
  ghost predicate AlikeAt(estate: Estate, analyzer: Index.Analyzer, a: Tree, b: Tree, path: Path) {
    Expected(estate, analyzer, a, path) == Expected(estate, analyzer, b, path)
  }

  /** Indexes that reflect two trees are the same exactly when the trees put the same in at every path;
      so indexes that reflect one tree are always the same. */
  lemma SameIndexIffAlike(estate: Estate, analyzer: Index.Analyzer, a: Files, ta: Tree, b: Files, tb: Tree)
    requires Reflects(estate, analyzer, a, ta) && Reflects(estate, analyzer, b, tb)
    ensures SameIndex(a, b) <==> forall path | estate.owner(path).Some? :: AlikeAt(estate, analyzer, ta, tb, path)
  {
    forall path ensures AlikeAt(estate, analyzer, ta, tb, path) <==> EntryAt(a, path) == EntryAt(b, path) {
      assert EntryAt(a, path) == Expected(estate, analyzer, ta, path);
      assert EntryAt(b, path) == Expected(estate, analyzer, tb, path);
    }
    if SameIndex(a, b) {
      forall path ensures EntryAt(a, path) == EntryAt(b, path) {
        SameIndexSameEntry(a, b, path);
      }
    }
    if forall path | estate.owner(path).Some? :: AlikeAt(estate, analyzer, ta, tb, path) {
      forall path ensures EntryAt(a, path) == EntryAt(b, path) {
        assert AlikeAt(estate, analyzer, ta, tb, path);
      }
      SubIndex(estate, a, b);
      SubIndex(estate, b, a);
    }
  }

  lemma SameIndexSameEntry(a: Files, b: Files, path: Path)
    requires SameIndex(a, b)
    ensures EntryAt(a, path) == EntryAt(b, path)
  {
    assert NodesAt(a.nodes, path) == NodesAt(FileNodes(a.nodes), path);
    assert NodesAt(b.nodes, path) == NodesAt(FileNodes(b.nodes), path);
    assert LinksAt(a.links, path) == LinksAt(FileLinks(a.links), path);
    assert LinksAt(b.links, path) == LinksAt(FileLinks(b.links), path);
  }

  lemma SubIndex(estate: Estate, a: Files, b: Files)
    requires Tidy(estate, a)
    requires forall path :: EntryAt(a, path) == EntryAt(b, path)
    ensures forall id <- a.docs :: id in b.docs && b.docs[id] == a.docs[id]
    ensures FileNodes(a.nodes) <= FileNodes(b.nodes)
    ensures FileLinks(a.links) <= FileLinks(b.links)
  {
    forall id <- a.docs ensures id in b.docs && b.docs[id] == a.docs[id] {
      var path := a.docs[id].chunk.path;
      assert EntryAt(a, path) == EntryAt(b, path);
      assert id in DocsAt(a.docs, path);
      assert id in DocsAt(b.docs, path);
    }
    forall n <- FileNodes(a.nodes) ensures n in b.nodes {
      var path := PathOf(n.ref).value;
      assert EntryAt(a, path) == EntryAt(b, path);
      assert n in NodesAt(a.nodes, path);
    }
    forall l <- FileLinks(a.links) ensures l in FileLinks(b.links) {
      var path := if l.rel == DEFINES then l.src.key else l.dst.key;
      assert EntryAt(a, path) == EntryAt(b, path);
      assert l in LinksAt(a.links, path);
      assert l in LinksAt(b.links, path);
    }
  }
}

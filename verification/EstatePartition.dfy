/** Partition of a built graph into per-service work (`backend/orchestration/work.py`). */
module EstatePartition {
  import opened Domain
  import opened Ordering
  import opened Text
  import opened Persistence
  import Driver

  type SourceFile = Driver.SourceFile

  datatype GraphBuild = GraphBuild(nodes: seq<Node>, edges: seq<Edge>, chunks: seq<Chunk>)

  datatype ServiceWork = ServiceWork(
    service: string, files: seq<SourceFile>, chunks: seq<Chunk>, nodes: seq<Node>, edges: seq<Edge>)

  type Works = map<string, ServiceWork>

  datatype EstateWork = EstateWork(byService: Works, sharedNodes: seq<Node>, crossServiceEdges: seq<Edge>)

  /** The elements of a list with a given label, in order. */
  function Of<T, K(==)>(xs: seq<T>, tag: T -> K, k: K): seq<T> {
    if xs == [] then []
    else Of(xs[..|xs| - 1], tag, k) + if tag(xs[|xs| - 1]) == k then [xs[|xs| - 1]] else []
  }

  lemma {:induction false} OfMembers<T, K>(xs: seq<T>, tag: T -> K, k: K)
    ensures forall x :: x in Of(xs, tag, k) <==> x in xs && tag(x) == k
  {
    if xs != [] {
      OfMembers(xs[..|xs| - 1], tag, k);
      assert xs == xs[..|xs| - 1] + [xs[|xs| - 1]];
    }
  }

  lemma OfNext<T, K>(xs: seq<T>, i: nat, tag: T -> K, k: K)
    requires i < |xs|
    ensures Of(xs[..i + 1], tag, k) == Of(xs[..i], tag, k) + if tag(xs[i]) == k then [xs[i]] else []
  {
    assert xs[..i + 1][..i] == xs[..i];
  }

  lemma CountOneMore<T>(xs: seq<T>, last: T, x: T)
    ensures multiset(xs + [last])[x] == multiset(xs)[x] + if last == x then 1 else 0
  {
    assert multiset(xs + [last]) == multiset(xs) + multiset{last};
  }

  /** Splitting by label loses and repeats nothing. */
  lemma {:induction false} SplitConserves<T, K>(xs: seq<T>, tag: T -> K, x: T)
    ensures multiset(Of(xs, tag, tag(x)))[x] == multiset(xs)[x]
  {
    if xs != [] {
      var rest, last := xs[..|xs| - 1], xs[|xs| - 1];
      SplitConserves(rest, tag, x);
      assert xs == rest + [last];
      CountOneMore(rest, last, x);
      CountOneMore(Of(rest, tag, tag(x)), last, x);
    }
  }

  /** Whose share a node falls into: its own name for a Service node, else its `service` property. */
  function NodeService(node: Node): Option<string> {
    if node.ref.kind.Service? then Some(node.ref.key)
    else if "service" in node.properties && node.properties["service"] != "" then Some(node.properties["service"])
    else None
  }

  type Owners = map<NodeRef, Option<string>>

  /** The owner on record for each node key; a later node replaces an earlier one. */
  function OwnersOf(nodes: seq<Node>): Owners {
    if nodes == [] then map[]
    else OwnersOf(nodes[..|nodes| - 1])[nodes[|nodes| - 1].ref := NodeService(nodes[|nodes| - 1])]
  }

  function OwnerAt(owners: Owners, ref: NodeRef): Option<string> { if ref in owners then owners[ref] else None }

  /** The service that holds both endpoints of an edge, if one does. */
  function Home(owners: Owners, edge: Edge): Option<string> {
    var src := OwnerAt(owners, edge.link.src);
    if src.Some? && src == OwnerAt(owners, edge.link.dst) then src else None
  }

  function HomeIn(owners: Owners): Edge -> Option<string> { e => Home(owners, e) }

  function ChunkService(chunk: Chunk): string { chunk.service }

  function ChunkFile(chunk: Chunk): FileKey { FileKey(chunk.service, chunk.path) }

  function FileService(file: SourceFile): string { file.service }

  function Contents(chunks: seq<Chunk>): seq<string> {
    seq(|chunks|, i requires 0 <= i < |chunks| => chunks[i].content)
  }

  /** The tier-1 input for one file: its chunks' contents, in order. */
  function FileOf(chunks: seq<Chunk>, key: FileKey): SourceFile {
    Driver.SourceFile(key.service, key.path, JoinWith(Contents(Of(chunks, ChunkFile, key)), "\n"), None)
  }

  /** A node of a service is among the nodes it owns. */
  lemma {:induction false} OwnedIsListed(nodes: seq<Node>, ref: NodeRef, service: string)
    requires OwnerAt(OwnersOf(nodes), ref) == Some(service)
    ensures exists n <- Of(nodes, NodeService, Some(service)) :: n.ref == ref
  {
    var last := nodes[|nodes| - 1];
    var rest := nodes[..|nodes| - 1];
    var own := Of(nodes, NodeService, Some(service));
    if last.ref == ref {
      assert own[|own| - 1] == last;
    } else {
      OwnedIsListed(rest, ref, service);
      var n :| n in Of(rest, NodeService, Some(service)) && n.ref == ref;
      assert n in own;
    }
  }

  function Empty(service: string): ServiceWork { ServiceWork(service, [], [], [], []) }

  function WorkAt(works: Works, service: string): ServiceWork {
    if service in works then works[service] else Empty(service)
  }

  // ----- The partition -----

  ghost function Services(g: GraphBuild): set<string> {
    (set n | n in g.nodes && NodeService(n).Some? :: NodeService(n).value) + (set c | c in g.chunks :: c.service)
  }

  ghost function Share(g: GraphBuild, catalogue: seq<SourceFile>, service: string): ServiceWork {
    ServiceWork(service, Of(catalogue, FileService, service), Of(g.chunks, ChunkService, service),
                Of(g.nodes, NodeService, Some(service)), Of(g.edges, HomeIn(OwnersOf(g.nodes)), Some(service)))
  }

  ghost function Partition(g: GraphBuild, catalogue: seq<SourceFile>): EstateWork {
    EstateWork(map s | s in Services(g) :: Share(g, catalogue, s),
               Of(g.nodes, NodeService, None), Of(g.edges, HomeIn(OwnersOf(g.nodes)), None))
  }

  predicate KeyLeq(a: FileKey, b: FileKey) {
    if a.service == b.service then StringLeq(a.path, b.path) else StringLeq(a.service, b.service)
  }

  /** Every chunked file once, by service and path. */
  ghost predicate IsCatalogue(catalogue: seq<SourceFile>, chunks: seq<Chunk>) {
    && (forall i, j :: 0 <= i < j < |catalogue| ==>
          catalogue[i].Key() != catalogue[j].Key() && KeyLeq(catalogue[i].Key(), catalogue[j].Key()))
    && (forall f :: f in catalogue <==> (exists c <- chunks :: f == FileOf(chunks, ChunkFile(c))))
  }

  /** Nodes and edges filed so far; a service is present once it has been given something. */
  ghost predicate Filed(works: Works, catalogue: seq<SourceFile>, chunks: seq<Chunk>, nodes: seq<Node>,
                        edges: seq<Edge>, owners: Owners) {
    && (forall s :: WorkAt(works, s) == ServiceWork(s, Of(catalogue, FileService, s), Of(chunks, ChunkService, s),
                                       Of(nodes, NodeService, Some(s)), Of(edges, HomeIn(owners), Some(s))))
    && (forall s :: s in works <==> WorkAt(works, s) != Empty(s))
  }

  method FileNodes(nodes: seq<Node>) returns (works: Works, shared: seq<Node>, owners: Owners)
    ensures owners == OwnersOf(nodes) && shared == Of(nodes, NodeService, None)
    ensures Filed(works, [], [], nodes, [], owners)
  {
    works, shared, owners := map[], [], map[];
    for i := 0 to |nodes|
      invariant owners == OwnersOf(nodes[..i]) && shared == Of(nodes[..i], NodeService, None)
      invariant Filed(works, [], [], nodes[..i], [], owners)
    {
      var node := nodes[i];
      var svc := NodeService(node);
      assert nodes[..i + 1][..i] == nodes[..i];
      forall k {
        OfNext(nodes, i, NodeService, k);
      }
      owners := owners[node.ref := svc];
      if svc.None? {
        shared := shared + [node];
      } else {
        var w := WorkAt(works, svc.value);
        works := works[svc.value := w.(nodes := w.nodes + [node])];
      }
    }
    assert nodes[..|nodes|] == nodes;
  }

  function WithEdge(works: Works, service: string, edge: Edge): Works {
    var w := WorkAt(works, service);
    works[service := w.(edges := w.edges + [edge])]
  }

  lemma OneMoreEdge(works: Works, nodes: seq<Node>, edges: seq<Edge>, i: nat, owners: Owners)
    requires i < |edges| && Filed(works, [], [], nodes, edges[..i], owners)
    ensures var home := Home(owners, edges[i]);
            && Of(edges[..i + 1], HomeIn(owners), None)
               == Of(edges[..i], HomeIn(owners), None) + (if home.None? then [edges[i]] else [])
            && Filed(if home.Some? then WithEdge(works, home.value, edges[i]) else works,
                     [], [], nodes, edges[..i + 1], owners)
  {
    var home := Home(owners, edges[i]);
    var next := if home.Some? then WithEdge(works, home.value, edges[i]) else works;
    OfNext(edges, i, HomeIn(owners), None);
    forall s
      ensures WorkAt(next, s).edges == Of(edges[..i + 1], HomeIn(owners), Some(s))
      ensures WorkAt(next, s) == WorkAt(works, s).(edges := WorkAt(next, s).edges)
    {
      OfNext(edges, i, HomeIn(owners), Some(s));
    }
  }

  method FileEdges(nodes: seq<Node>, edges: seq<Edge>, owners: Owners, works0: Works) returns (works: Works,
                   cross: seq<Edge>)
    requires owners == OwnersOf(nodes) && Filed(works0, [], [], nodes, [], owners)
    ensures cross == Of(edges, HomeIn(owners), None)
    ensures Filed(works, [], [], nodes, edges, owners)
  {
    works, cross := works0, [];
    for i := 0 to |edges|
      invariant cross == Of(edges[..i], HomeIn(owners), None)
      invariant Filed(works, [], [], nodes, edges[..i], owners)
    {
      OneMoreEdge(works, nodes, edges, i, owners);
      var src, dst := OwnerAt(owners, edges[i].link.src), OwnerAt(owners, edges[i].link.dst);
      if src.Some? && src == dst {
        works := WithEdge(works, src.value, edges[i]);
      } else {
        cross := cross + [edges[i]];
      }
    }
    assert edges[..|edges|] == edges;
  }

  type Parts = map<FileKey, seq<string>>

  /** The content gathered for each file. */
  ghost predicate Gathered(parts: Parts, chunks: seq<Chunk>) {
    && (forall key :: key in parts <==> Of(chunks, ChunkFile, key) != [])
    && (forall key <- parts :: parts[key] == Contents(Of(chunks, ChunkFile, key)))
  }

  function PartAt(parts: Parts, key: FileKey): seq<string> { if key in parts then parts[key] else [] }

  function WithChunk(works: Works, chunk: Chunk): Works {
    var w := WorkAt(works, chunk.service);
    works[chunk.service := w.(chunks := w.chunks + [chunk])]
  }

  lemma OneMoreChunk(works: Works, chunks: seq<Chunk>, i: nat, nodes: seq<Node>, edges: seq<Edge>, owners: Owners)
    requires i < |chunks| && Filed(works, [], chunks[..i], nodes, edges, owners)
    ensures Filed(WithChunk(works, chunks[i]), [], chunks[..i + 1], nodes, edges, owners)
  {
    var next := WithChunk(works, chunks[i]);
    forall s
      ensures WorkAt(next, s).chunks == Of(chunks[..i + 1], ChunkService, s)
      ensures WorkAt(next, s) == WorkAt(works, s).(chunks := WorkAt(next, s).chunks)
    {
      OfNext(chunks, i, ChunkService, s);
    }
  }

  lemma OneMorePart(parts: Parts, chunks: seq<Chunk>, i: nat)
    requires i < |chunks| && Gathered(parts, chunks[..i])
    ensures var key := ChunkFile(chunks[i]);
            Gathered(parts[key := PartAt(parts, key) + [chunks[i].content]], chunks[..i + 1])
  {
    forall key {
      OfNext(chunks, i, ChunkFile, key);
    }
  }

  method FileChunks(chunks: seq<Chunk>, nodes: seq<Node>, edges: seq<Edge>, ghost owners: Owners, works0: Works)
    returns (works: Works, parts: Parts)
    requires Filed(works0, [], [], nodes, edges, owners)
    ensures Filed(works, [], chunks, nodes, edges, owners) && Gathered(parts, chunks)
  {
    works, parts := works0, map[];
    for i := 0 to |chunks|
      invariant Filed(works, [], chunks[..i], nodes, edges, owners) && Gathered(parts, chunks[..i])
    {
      OneMoreChunk(works, chunks, i, nodes, edges, owners);
      OneMorePart(parts, chunks, i);
      works := WithChunk(works, chunks[i]);
      var key := ChunkFile(chunks[i]);
      parts := parts[key := PartAt(parts, key) + [chunks[i].content]];
    }
    assert chunks[..|chunks|] == chunks;
  }

  lemma KeyOrderIsTotal()
    ensures TotalOrder(KeyLeq)
  {
    forall a, b
      ensures KeyLeq(a, b) || KeyLeq(b, a)
      ensures KeyLeq(a, b) && KeyLeq(b, a) ==> a == b
    {
      StringLeqTotal(a.path, b.path);
      StringLeqTotal(a.service, b.service);
    }
    forall a, b, c | KeyLeq(a, b) && KeyLeq(b, c) ensures KeyLeq(a, c) {
      KeyLeqTransitive(a, b, c);
    }
  }

  lemma KeyLeqTransitive(a: FileKey, b: FileKey, c: FileKey)
    requires KeyLeq(a, b) && KeyLeq(b, c)
    ensures KeyLeq(a, c)
  {
    if a.service == b.service == c.service {
      StringLeqTransitive(a.path, b.path, c.path);
    } else if a.service != b.service && b.service != c.service {
      StringLeqTransitive(a.service, b.service, c.service);
      StringLeqTotal(a.service, b.service);
    }
  }

  function FilesAt(parts: Parts, keys: seq<FileKey>): seq<SourceFile> {
    seq(|keys|, i requires 0 <= i < |keys| =>
      Driver.SourceFile(keys[i].service, keys[i].path, JoinWith(PartAt(parts, keys[i]), "\n"), None))
  }

  function WithFile(works: Works, file: SourceFile): Works {
    var w := WorkAt(works, file.service);
    works[file.service := w.(files := w.files + [file])]
  }

  lemma OneMoreFile(works: Works, files: seq<SourceFile>, i: nat, chunks: seq<Chunk>, nodes: seq<Node>,
                    edges: seq<Edge>, owners: Owners)
    requires i < |files| && Filed(works, files[..i], chunks, nodes, edges, owners)
    ensures Filed(WithFile(works, files[i]), files[..i + 1], chunks, nodes, edges, owners)
  {
    var next := WithFile(works, files[i]);
    forall s
      ensures WorkAt(next, s).files == Of(files[..i + 1], FileService, s)
      ensures WorkAt(next, s) == WorkAt(works, s).(files := WorkAt(next, s).files)
    {
      OfNext(files, i, FileService, s);
    }
  }

  lemma KeyIsChunked(parts: Parts, chunks: seq<Chunk>, key: FileKey)
    requires Gathered(parts, chunks)
    ensures key in parts <==> exists c <- chunks :: ChunkFile(c) == key
  {
    var own := Of(chunks, ChunkFile, key);
    OfMembers(chunks, ChunkFile, key);
    assert own != [] ==> own[0] in own;
  }

  lemma KeysMakeCatalogue(parts: Parts, keys: seq<FileKey>, chunks: seq<Chunk>)
    requires Gathered(parts, chunks) && Distinct(keys) && SortedBy(keys, KeyLeq) && forall k :: k in keys <==>
        k in parts
    ensures IsCatalogue(FilesAt(parts, keys), chunks)
  {
    var files := FilesAt(parts, keys);
    forall i | 0 <= i < |keys| ensures files[i].Key() == keys[i] && files[i] == FileOf(chunks, keys[i]) {
      assert keys[i] in parts;
    }
    forall f ensures f in files <==> exists c <- chunks :: f == FileOf(chunks, ChunkFile(c)) {
      KeyIsChunked(parts, chunks, f.Key());
      assert f in files <==> f.Key() in keys && f == FileOf(chunks, f.Key());
    }
  }

  method FileFiles(chunks: seq<Chunk>, nodes: seq<Node>, edges: seq<Edge>, ghost owners: Owners, works0: Works,
                   parts: Parts)
    returns (works: Works, ghost catalogue: seq<SourceFile>)
    requires Filed(works0, [], chunks, nodes, edges, owners) && Gathered(parts, chunks)
    ensures Filed(works, catalogue, chunks, nodes, edges, owners) && IsCatalogue(catalogue, chunks)
  {
    KeyOrderIsTotal();
    var keys := SortedKeys(parts.Keys, KeyLeq);
    KeysMakeCatalogue(parts, keys, chunks);
    works := works0;
    catalogue := FilesAt(parts, keys);
    for i := 0 to |keys|
      invariant Filed(works, catalogue[..i], chunks, nodes, edges, owners)
    {
      OneMoreFile(works, catalogue, i, chunks, nodes, edges, owners);
      var content := JoinWith(PartAt(parts, keys[i]), "\n");
      works := WithFile(works, Driver.SourceFile(keys[i].service, keys[i].path, content, None));
    }
    assert catalogue[..|keys|] == catalogue;
  }

  /** The whole partition: each service's share of nodes, edges, chunks and files, in order, and what
      belongs to no single service. */
  method BuildWorkByService(g: GraphBuild) returns (work: EstateWork)
    ensures exists catalogue :: IsCatalogue(catalogue, g.chunks) && work == Partition(g, catalogue)
  {
    var works, shared, owners := FileNodes(g.nodes);
    var cross;
    works, cross := FileEdges(g.nodes, g.edges, owners, works);
    var parts;
    works, parts := FileChunks(g.chunks, g.nodes, g.edges, owners, works);
    ghost var catalogue;
    works, catalogue := FileFiles(g.chunks, g.nodes, g.edges, owners, works, parts);
    FiledIsPartition(works, g, catalogue);
    work := EstateWork(works, shared, cross);
    assert IsCatalogue(catalogue, g.chunks) && work == Partition(g, catalogue);
  }

  lemma FiledIsPartition(works: Works, g: GraphBuild, catalogue: seq<SourceFile>)
    requires Filed(works, catalogue, g.chunks, g.nodes, g.edges, OwnersOf(g.nodes)) && IsCatalogue(catalogue, g.chunks)
    ensures works == Partition(g, catalogue).byService
  {
    forall s ensures s in works <==> s in Services(g) {
      HasShare(g, catalogue, s);
    }
    forall s <- works ensures works[s] == Share(g, catalogue, s) {
      assert WorkAt(works, s) == works[s];
    }
  }

  lemma FilesComeFromChunks(catalogue: seq<SourceFile>, chunks: seq<Chunk>, s: string)
    requires IsCatalogue(catalogue, chunks) && Of(catalogue, FileService, s) != []
    ensures Of(chunks, ChunkService, s) != []
  {
    OfMembers(catalogue, FileService, s);
    OfMembers(chunks, ChunkService, s);
    var file := Of(catalogue, FileService, s)[0];
    assert file in Of(catalogue, FileService, s);
    var c :| c in chunks && file == FileOf(chunks, ChunkFile(c));
    assert c in Of(chunks, ChunkService, s);
  }

  lemma EdgesJoinOwnedNodes(nodes: seq<Node>, edges: seq<Edge>, s: string)
    requires Of(edges, HomeIn(OwnersOf(nodes)), Some(s)) != []
    ensures Of(nodes, NodeService, Some(s)) != []
  {
    var own := Of(edges, HomeIn(OwnersOf(nodes)), Some(s));
    OfMembers(edges, HomeIn(OwnersOf(nodes)), Some(s));
    assert own[0] in own;
    OwnedIsListed(nodes, own[0].link.src, s);
  }

  lemma HasShare(g: GraphBuild, catalogue: seq<SourceFile>, s: string)
    requires IsCatalogue(catalogue, g.chunks)
    ensures Share(g, catalogue, s) != Empty(s) <==> s in Services(g)
  {
    var work := Share(g, catalogue, s);
    if work.files != [] {
      FilesComeFromChunks(catalogue, g.chunks, s);
    }
    if work.edges != [] {
      EdgesJoinOwnedNodes(g.nodes, g.edges, s);
    }
    OfMembers(g.nodes, NodeService, Some(s));
    OfMembers(g.chunks, ChunkService, s);
    assert work.nodes != [] ==> work.nodes[0] in work.nodes;
    assert work.chunks != [] ==> work.chunks[0] in work.chunks;
    assert s in Services(g) ==> (exists n :: n in work.nodes) || (exists c :: c in work.chunks);
  }

  // ----- Whose share is what -----

  /** A node's owner is its own name for a service node, and its non-empty `service` property for any other. */
  predicate Owns(service: string, n: Node) {
    if n.ref.kind.Service? then n.ref.key == service
    else service != "" && "service" in n.properties && n.properties["service"] == service
  }

  lemma OwnerIsNamed(n: Node, service: string)
    ensures NodeService(n) == Some(service) <==> Owns(service, n)
  {}

  /** The owner on record is that of the last node of the key. */
  lemma {:induction false} OwnerIsOfLast(nodes: seq<Node>, i: nat)
    requires i < |nodes| && forall j :: i < j < |nodes| ==> nodes[j].ref != nodes[i].ref
    ensures forall service :: OwnerAt(OwnersOf(nodes), nodes[i].ref) == Some(service) <==> Owns(service, nodes[i])
  {
    var rest, last := nodes[..|nodes| - 1], nodes[|nodes| - 1];
    if i < |nodes| - 1 {
      OwnerIsOfLast(rest, i);
      assert rest[i] == nodes[i];
    }
  }

  lemma {:induction false} UnknownHasNoOwner(nodes: seq<Node>, ref: NodeRef)
    requires forall j :: 0 <= j < |nodes| ==> nodes[j].ref != ref
    ensures OwnerAt(OwnersOf(nodes), ref) == None
  {
    if nodes != [] {
      UnknownHasNoOwner(nodes[..|nodes| - 1], ref);
    }
  }

  /** A service's share is its own nodes and chunks, and the edges with both ends its own; what is of no service, and
      the edges between services, are kept apart. */
  lemma SharesAreOwn(g: GraphBuild, catalogue: seq<SourceFile>, service: string)
    requires service in Services(g)
    ensures var work := Partition(g, catalogue);
            var owners, share := OwnersOf(g.nodes), work.byService[service];
            && (forall n :: n in share.nodes <==> n in g.nodes && Owns(service, n))
            && (forall c :: c in share.chunks <==> c in g.chunks && c.service == service)
            && (forall e :: e in share.edges <==>
                  && e in g.edges && OwnerAt(owners, e.link.src) == Some(service)
                  && OwnerAt(owners, e.link.dst) == Some(service))
            && (forall f :: f in share.files <==> f in catalogue && f.service == service)
  {
    OfMembers(g.nodes, NodeService, Some(service));
    OfMembers(g.chunks, ChunkService, service);
    OfMembers(g.edges, HomeIn(OwnersOf(g.nodes)), Some(service));
    OfMembers(catalogue, FileService, service);
    forall n {
      OwnerIsNamed(n, service);
    }
  }

  lemma TheRestIsShared(g: GraphBuild, catalogue: seq<SourceFile>)
    ensures var work := Partition(g, catalogue);
            var owners := OwnersOf(g.nodes);
            && (forall n :: n in work.sharedNodes <==> n in g.nodes && forall s :: !Owns(s, n))
            && (forall e :: e in work.crossServiceEdges <==>
                  && e in g.edges
                  && (OwnerAt(owners, e.link.src).None? || OwnerAt(owners, e.link.src) != OwnerAt(owners, e.link.dst)))
  {
    OfMembers(g.nodes, NodeService, None);
    OfMembers(g.edges, HomeIn(OwnersOf(g.nodes)), None);
    forall n ensures NodeService(n).None? <==> forall s :: !Owns(s, n) {
      if NodeService(n).Some? {
        assert Owns(NodeService(n).value, n);
      }
    }
  }

  /** A file's input is its chunks' contents, in order, a line break between them. */
  lemma FileGrowsByChunk(chunks: seq<Chunk>, chunk: Chunk)
    ensures var key := ChunkFile(chunk);
            var was, now := FileOf(chunks, key), FileOf(chunks + [chunk], key);
            && now.service == chunk.service && now.path == chunk.path && now.declaredHash == None
            && now.content == if exists c <- chunks :: c.service == chunk.service && c.path == chunk.path
                              then was.content + "\n" + chunk.content else chunk.content
  {
    var key := ChunkFile(chunk);
    var mine := Of(chunks, ChunkFile, key);
    assert (chunks + [chunk])[..|chunks|] == chunks;
    OfMembers(chunks, ChunkFile, key);
    assert Contents(mine + [chunk]) == Contents(mine) + [chunk.content];
    if mine == [] {
      assert Contents(mine) == [];
      assert forall c <- chunks :: ChunkFile(c) != key;
    } else {
      assert mine[0] in mine;
      JoinOneMore(Contents(mine), "\n", chunk.content);
    }
  }

  /** Files are listed by service, those of one service by path. */
  lemma FilesByServiceThenPath(a: FileKey, b: FileKey)
    ensures KeyLeq(a, b) <==>
              (a.service != b.service && StringLeq(a.service, b.service))
              || (a.service == b.service && StringLeq(a.path, b.path))
  {}

  /** Other files' chunks change nothing. */
  lemma FileStaysWithoutChunk(chunks: seq<Chunk>, chunk: Chunk, key: FileKey)
    requires ChunkFile(chunk) != key
    ensures FileOf(chunks + [chunk], key) == FileOf(chunks, key)
  {
    assert (chunks + [chunk])[..|chunks|] == chunks;
    assert Of(chunks, ChunkFile, key) + [] == Of(chunks, ChunkFile, key);
    assert Of(chunks + [chunk], ChunkFile, key) == Of(chunks, ChunkFile, key);
  }
}

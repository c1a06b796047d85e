/** Where two components disagree on what a ledger row's hash is of: tier 1 hashes a file's joined chunks
    (`backend/orchestration/work.py`), the reindexer the raw file (`backend/freshness/reindex.py`). */
module LedgerHashes {
  import opened Domain
  import opened Persistence
  import opened IndexEntries
  import opened DiffEffect
  import opened IncrementalRebuild
  import opened Residue
  import opened Definitions
  import opened Chunker
  import Driver
  import EstatePartition
  import Index = SearchIndex

  /** What tier 1 summarises for an indexed file: its chunks' contents, joined. */
  function TierOneInput(estate: Estate, service: string, path: Path, content: Content): EstatePartition.SourceFile {
    EstatePartition.FileOf(estate.chunksOf(service, path, content), FileKey(service, path))
  }

  /** After tier 1 has recorded a file, an edit that leaves exactly the joined text is named by the diff and yet
      never read, so the index keeps the old chunks; and the ledger is out of step with the index already. */
  lemma TierOneRowHidesEdit(disk: Disk, analyzer: Index.Analyzer, s: Driver.Settings, p: Progress, service: string,
                            path: Path)
    requires disk.estate.owner(path) == Some(service) && path in p.tree && path in disk.tree
    requires disk.estate.chunksOf(service, path, p.tree[path]) != []
    requires var file := TierOneInput(disk.estate, service, path, p.tree[path]);
             && s.contentHash == disk.estate.hash
             && file.Key() in p.rows && p.rows[file.Key()] == s.DoneRow(file)
             && disk.tree[path] == file.content
    requires !AlikeAt(disk.estate, analyzer, p.tree, disk.tree, path)
    ensures SameAt(disk.AppliedAll(p, [Modified(path)]).tree, p.tree, path)
    ensures !Complete(disk, analyzer, p.tree, p.rows, [Modified(path)])
    ensures disk.estate.HashIsInjective() ==> !LedgerAgrees(disk.estate, p.rows, p.tree)
  {
    StaleRowHidesChange(disk, analyzer, p, path);
    if p.tree[path] == disk.tree[path] {
      SameIsAlike(disk.estate, analyzer, p.tree, disk.tree, path);
    }
  }

  const PADDED := ["", "", "x = 1", ""]
  const BARE := ["x = 1"]

  /** The chunker cuts the padded file to one module chunk for its third line, the bare one to its first. */
  lemma PaddingIsTrimmed(a: Assembly, window: int, padded: seq<Chunk>, bare: seq<Chunk>)
    requires Chunked(a, PADDED, Bare, window, padded) && Chunked(a, BARE, Bare, window, bare)
    ensures padded == [ChunkOf(a, PADDED, ModuleDraft(Span(2, 2)))]
    ensures bare == [ChunkOf(a, BARE, ModuleDraft(Span(0, 0)))]
  {
    assert !IsSpace("x = 1"[0]);
    assert forall r :: 0 <= r < |PADDED| ==> PADDED[r] == if r == 2 then "x = 1" else "";
    OnlyRow(a, PADDED, window, padded, 2);
    OnlyRow(a, BARE, window, bare, 0);
  }

  lemma OnlyRow(a: Assembly, lines: seq<string>, window: int, chunks: seq<Chunk>, row: nat)
    requires Chunked(a, lines, Bare, window, chunks) && row < |lines|
    requires forall r :: 0 <= r < |lines| ==> (IsBlank(lines[r]) <==> r != row)
    ensures chunks == [ChunkOf(a, lines, ModuleDraft(Span(row, row)))]
  {
    assert !Held(Covered(Bare), row);
    forall i | 0 <= i < |chunks| ensures chunks[i] == ChunkOf(a, lines, ModuleDraft(Span(row, row))) {
      OnRowAlone(a, lines, window, chunks, row, i);
    }
    var i := ChunkOnRow(lines, Bare, chunks, row);
    assert OnRow(chunks[0], row) && OnRow(chunks[|chunks| - 1], row);
  }

  lemma OnRowAlone(a: Assembly, lines: seq<string>, window: int, chunks: seq<Chunk>, row: nat, i: nat)
    requires Chunked(a, lines, Bare, window, chunks) && row < |lines| && i < |chunks|
    requires forall r :: 0 <= r < |lines| ==> (IsBlank(lines[r]) <==> r != row)
    ensures chunks[i] == ChunkOf(a, lines, ModuleDraft(Span(row, row)))
  {
    assert Drafts(Bare, false) == [];
    var span: Span :| span.start <= span.end && chunks[i] == ChunkOf(a, lines, ModuleDraft(span));
    assert OnRow(chunks[i], span.start) && OnRow(chunks[i], span.end);
    KeptIsRow(lines, row, span.start);
    KeptIsRow(lines, row, span.end);
  }

  lemma KeptIsRow(lines: seq<string>, row: nat, r: int)
    requires forall r :: 0 <= r < |lines| ==> (IsBlank(lines[r]) <==> r != row)
    requires Kept(lines, Covered(Bare), r)
    ensures r == row
  {
    var a, b :| 0 <= a <= r <= b < |lines| && !IsBlank(lines[a]) && !IsBlank(lines[b]) && Clear(Covered(Bare), a, b);
  }

  /** The failing input: the file "\\n\\nx = 1\\n" is indexed and summarised, then edited to "x = 1". The index
      keeps the chunk at line 3, where a rebuild has line 1. */
  lemma LosingPaddingIsNotSeen(disk: Disk, analyzer: Index.Analyzer, s: Driver.Settings, p: Progress, a: Assembly)
    requires disk.estate.owner(a.path) == Some(a.service)
    requires p.tree == map[a.path := "\n\nx = 1\n"] && disk.tree == map[a.path := "x = 1"]
    requires disk.estate.chunksOf(a.service, a.path, "\n\nx = 1\n") == [ChunkOf(a, PADDED, ModuleDraft(Span(2, 2)))]
    requires disk.estate.chunksOf(a.service, a.path, "x = 1") == [ChunkOf(a, BARE, ModuleDraft(Span(0, 0)))]
    requires var file := TierOneInput(disk.estate, a.service, a.path, "\n\nx = 1\n");
             s.contentHash == disk.estate.hash && p.rows == map[file.Key() := s.DoneRow(file)]
    ensures disk.AppliedAll(p, [Modified(a.path)]).tree == p.tree
    ensures !Complete(disk, analyzer, p.tree, p.rows, [Modified(a.path)])
  {
    var padded, bare := ChunkOf(a, PADDED, ModuleDraft(Span(2, 2))), ChunkOf(a, BARE, ModuleDraft(Span(0, 0)));
    OneLine(a, PADDED, 2);
    OneLine(a, BARE, 0);
    OneChunkJoined(padded, FileKey(a.service, a.path));
    OneChunkIsSeen(disk.estate, analyzer, p.tree, a.service, a.path, padded);
    OneChunkIsSeen(disk.estate, analyzer, disk.tree, a.service, a.path, bare);
    DifferentDocs(analyzer, padded, bare);
    TierOneRowHidesEdit(disk, analyzer, s, p, a.service, a.path);
    OnePathTree(disk.AppliedAll(p, [Modified(a.path)]).tree, p.tree, disk, p, a.path);
  }

  lemma OneLine(a: Assembly, lines: seq<string>, row: nat)
    requires row < |lines|
    ensures ChunkOf(a, lines, ModuleDraft(Span(row, row))).content == lines[row]
    ensures ChunkOf(a, lines, ModuleDraft(Span(row, row))).start == row + 1
  {
    assert lines[row..row + 1] == [lines[row]];
  }

  lemma DifferentDocs(analyzer: Index.Analyzer, a: Chunk, b: Chunk)
    requires a.start != b.start
    ensures map[a.chunkId := analyzer.DocOf(a)] != map[b.chunkId := analyzer.DocOf(b)]
  {
    assert analyzer.DocOf(a).chunk != analyzer.DocOf(b).chunk;
    if a.chunkId == b.chunkId {
      assert map[a.chunkId := analyzer.DocOf(a)][a.chunkId] != map[b.chunkId := analyzer.DocOf(b)][a.chunkId];
    } else {
      assert a.chunkId !in map[b.chunkId := analyzer.DocOf(b)];
    }
  }

  /** The one line of the diff touches one path. */
  lemma OnePathTree(after: Tree, before: Tree, disk: Disk, p: Progress, path: Path)
    requires after == disk.AppliedAll(p, [Modified(path)]).tree && before == p.tree && SameAt(after, before, path)
    requires before.Keys == {path}
    ensures after == before
  {
    assert [Modified(path)][1..] == [];
    assert after == disk.AfterUpsert(p, path, None).tree;
  }

  lemma OneChunkJoined(chunk: Chunk, key: FileKey)
    requires chunk.service == key.service && chunk.path == key.path
    ensures EstatePartition.FileOf([chunk], key).content == chunk.content
  {
    assert [chunk][..0] == [];
    assert EstatePartition.Of([chunk], EstatePartition.ChunkFile, key) == [chunk];
  }

  lemma OneChunkIsSeen(estate: Estate, analyzer: Index.Analyzer, tree: Tree, service: string, path: Path, chunk: Chunk)
    requires estate.owner(path) == Some(service) && path in tree
    requires estate.chunksOf(service, path, tree[path]) == [chunk] && chunk.path == path
    ensures Expected(estate, analyzer, tree, path).docs == map[chunk.chunkId := analyzer.DocOf(chunk)]
  {
    OneIndexed(analyzer, chunk);
    var docs := map[chunk.chunkId := analyzer.DocOf(chunk)];
    assert DocsAt(docs, path) == docs;
  }

  lemma OneIndexed(analyzer: Index.Analyzer, chunk: Chunk)
    ensures analyzer.Indexed(map[], [chunk]) == map[chunk.chunkId := analyzer.DocOf(chunk)]
  {
    assert [chunk][1..] == [];
    assert analyzer.Indexed(map[], [chunk]) == analyzer.Indexed(map[][chunk.chunkId := analyzer.DocOf(chunk)], []);
  }
}

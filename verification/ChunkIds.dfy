/** Chunk ids (`backend/ingestion/chunker.py`, `_build_chunk`): when an id tells which file it belongs to. */
module ChunkIds {
  import opened Domain
  import opened Text
  import opened Persistence
  import opened Chunker
  import opened Definitions
  import IndexEntries
  import Index = SearchIndex

  function UpToFirst(s: string, c: char): string {
    if s == "" || s[0] == c then "" else [s[0]] + UpToFirst(s[1..], c)
  }

  function AfterFirst(s: string, c: char): string {
    if s == "" then "" else if s[0] == c then s[1..] else AfterFirst(s[1..], c)
  }

  function UpToLast(s: string, c: char): string {
    if s == "" then "" else if s[|s| - 1] == c then s[..|s| - 1] else UpToLast(s[..|s| - 1], c)
  }

  /** The service up to the first colon; the path up to the last colon but one. */
  function FileOfId(id: string): FileKey {
    FileKey(UpToFirst(id, ':'), UpToLast(UpToLast(AfterFirst(id, ':'), ':'), ':'))
  }

  lemma {:induction false} FirstOfJoined(a: string, b: string, c: char)
    requires c !in a
    ensures UpToFirst(a + [c] + b, c) == a && AfterFirst(a + [c] + b, c) == b
  {
    var s := a + [c] + b;
    if a == "" {
      assert s[1..] == b;
    } else {
      assert s[0] == a[0] && s[1..] == a[1..] + [c] + b;
      FirstOfJoined(a[1..], b, c);
    }
  }

  lemma {:induction false} LastOfJoined(a: string, b: string, c: char)
    requires c !in b
    ensures UpToLast(a + [c] + b, c) == a
  {
    var s := a + [c] + b;
    if b == "" {
      assert s[..|s| - 1] == a;
    } else {
      assert s[..|s| - 1] == a + [c] + b[..|b| - 1];
      LastOfJoined(a, b[..|b| - 1], c);
    }
  }

  lemma DecimalHasNoColon(n: nat)
    ensures ':' !in Decimal(n) && '-' !in Decimal(n)
  {
    DecimalStandsFor(n);
  }

  /** Chunks of one id have the same rows and, by its digest, the same text; their files run together alike. */
  lemma SameIdSameRows(a: Assembly, x: seq<string>, d: Draft, b: Assembly, y: seq<string>, e: Draft)
    requires (forall text :: ':' !in a.digest(text)) && forall text :: ':' !in b.digest(text)
    requires ChunkOf(a, x, d).chunkId == ChunkOf(b, y, e).chunkId
    ensures d.span == e.span && a.digest(ChunkOf(a, x, d).content) == b.digest(ChunkOf(b, y, e).content)
    ensures a.service + ":" + a.path == b.service + ":" + b.path
  {
    var p, q := Decimal(d.span.start + 1), Decimal(d.span.end + 1);
    var r, t := Decimal(e.span.start + 1), Decimal(e.span.end + 1);
    DecimalHasNoColon(d.span.start + 1);
    DecimalHasNoColon(d.span.end + 1);
    DecimalHasNoColon(e.span.start + 1);
    DecimalHasNoColon(e.span.end + 1);
    var one, two := a.service + ":" + a.path, b.service + ":" + b.path;
    var rows, lines := p + "-" + q, r + "-" + t;
    assert ChunkOf(a, x, d).chunkId == (one + ":" + rows) + [':'] + a.digest(SliceLines(x, d.span));
    assert ChunkOf(b, y, e).chunkId == (two + ":" + lines) + [':'] + b.digest(SliceLines(y, e.span));
    SplitAtLast(one + ":" + rows, a.digest(SliceLines(x, d.span)), two + ":" + lines, b.digest(SliceLines(y, e.span)),
        ':');
    assert one + ":" + rows == one + [':'] + rows && two + ":" + lines == two + [':'] + lines;
    SplitAtLast(one, rows, two, lines, ':');
    assert rows == p + ['-'] + q && lines == r + ['-'] + t;
    SplitAtLast(p, q, r, t, '-');
    DecimalIsInjective(d.span.start + 1, e.span.start + 1);
    DecimalIsInjective(d.span.end + 1, e.span.end + 1);
  }

  /** The id of a chunk gives back its service and path, whatever colons the path holds. */
  lemma IdNamesItsFile(a: Assembly, lines: seq<string>, d: Draft)
    requires ':' !in a.service && forall text :: ':' !in a.digest(text)
    ensures FileOfId(ChunkOf(a, lines, d).chunkId) == FileKey(a.service, a.path)
  {
    var digest := a.digest(SliceLines(lines, d.span));
    var first, last := Decimal(d.span.start + 1), Decimal(d.span.end + 1);
    DecimalHasNoColon(d.span.start + 1);
    DecimalHasNoColon(d.span.end + 1);
    var rows := first + "-" + last;
    var tail := a.path + ":" + rows + ":" + digest;
    assert ChunkOf(a, lines, d).chunkId == a.service + [':'] + tail;
    FirstOfJoined(a.service, tail, ':');
    assert tail == (a.path + ":" + rows) + [':'] + digest;
    LastOfJoined(a.path + ":" + rows, digest, ':');
    assert a.path + ":" + rows == a.path + [':'] + rows;
    LastOfJoined(a.path, rows, ':');
  }

  /** The estate's chunks are those the chunker assembles. */
  ghost predicate CutByChunker(estate: IndexEntries.Estate, digest: string -> string,
                               identifiers: Draft -> seq<string>) {
    forall service, path, content, chunk <- estate.chunksOf(service, path, content) ::
      exists lines, d :: chunk == ChunkOf(Assembly(service, path, digest, identifiers), lines, d)
  }

  // ----- When ids identify files -----

  /** The text an owned file's ids begin with. */
  function Joined(estate: IndexEntries.Estate, path: string): string
    requires estate.owner(path).Some?
  {
    estate.owner(path).value + ":" + path
  }

  /** The text up to the last colon but one. */
  function Head(id: string): string { UpToLast(UpToLast(id, ':'), ':') }

  lemma HeadIsJoined(a: Assembly, lines: seq<string>, d: Draft)
    requires forall text :: ':' !in a.digest(text)
    ensures Head(ChunkOf(a, lines, d).chunkId) == a.service + ":" + a.path
  {
    var digest := a.digest(SliceLines(lines, d.span));
    var first, last := Decimal(d.span.start + 1), Decimal(d.span.end + 1);
    DecimalHasNoColon(d.span.start + 1);
    DecimalHasNoColon(d.span.end + 1);
    var rows, file := first + "-" + last, a.service + ":" + a.path;
    assert ChunkOf(a, lines, d).chunkId == (file + ":" + rows) + [':'] + digest;
    LastOfJoined(file + ":" + rows, digest, ':');
    assert file + ":" + rows == file + [':'] + rows;
    LastOfJoined(file, rows, ':');
  }

  /** No two owned files have service and path run together to the same text. */
  ghost predicate JoinedApart(estate: IndexEntries.Estate) {
    forall p, q | estate.owner(p).Some? && estate.owner(q).Some? && Joined(estate, p) == Joined(estate, q) :: p == q
  }

  /** Some way to read ids makes the estate lawful. */
  ghost predicate IdsTellFiles(estate: IndexEntries.Estate) { exists read :: estate.(fileOfId := read).Lawful() }

  /** Files whose service and path run together alike have some contents that give them a chunk alike in rows
      and text; equal contents do, where the language cuts them alike. */
  ghost predicate CutsAlike(estate: IndexEntries.Estate, digest: string -> string, identifiers: Draft -> seq<string>) {
    forall p, q | estate.owner(p).Some? && estate.owner(q).Some? && Joined(estate, p) == Joined(estate, q) ::
      ShareAChunk(estate, digest, identifiers, p, q)
  }

  ghost predicate ShareAChunk(estate: IndexEntries.Estate, digest: string -> string, identifiers: Draft -> seq<string>,
                              p: string, q: string)
    requires estate.owner(p).Some? && estate.owner(q).Some?
  {
    exists one, two, lines, d ::
      var s, t := estate.owner(p).value, estate.owner(q).value;
      && ChunkOf(Assembly(s, p, digest, identifiers), lines, d) in estate.chunksOf(s, p, one)
      && ChunkOf(Assembly(t, q, digest, identifiers), lines, d) in estate.chunksOf(t, q, two)
  }

  /** The file an id is of, told by the text it begins with. */
  ghost function FileOfHead(estate: IndexEntries.Estate, head: string): FileKey {
    if p :| estate.owner(p).Some? && Joined(estate, p) == head then FileKey(estate.owner(p).value, p)
        else FileKey("", "")
  }

  lemma HeadTellsFile(estate: IndexEntries.Estate, digest: string -> string, identifiers: Draft -> seq<string>,
                      service: string, path: string, content: string, chunk: Chunk)
    requires CutByChunker(estate, digest, identifiers) && (forall text :: ':' !in digest(text)) && JoinedApart(estate)
    requires estate.owner(path) == Some(service) && chunk in estate.chunksOf(service, path, content)
    ensures chunk.service == service && chunk.path == path
    ensures FileOfHead(estate, Head(chunk.chunkId)) == FileKey(service, path)
  {
    var a := Assembly(service, path, digest, identifiers);
    var lines, d :| chunk == ChunkOf(a, lines, d);
    HeadIsJoined(a, lines, d);
    assert Joined(estate, path) == Head(chunk.chunkId);
  }

  /** The chunks cut from one content carry their file, and reading their ids gives it back. */
  ghost predicate Tells(estate: IndexEntries.Estate, read: string -> FileKey, service: string, path: string,
                        content: string) {
    estate.owner(path) == Some(service) ==>
      forall chunk <- estate.chunksOf(service, path, content) ::
        chunk.service == service && chunk.path == path && read(chunk.chunkId) == FileKey(service, path)
  }

  lemma TellingIsLawful(estate: IndexEntries.Estate, read: string -> FileKey)
    requires forall service, path, content :: Tells(estate, read, service, path, content)
    ensures IdsTellFiles(estate)
  {
    var known := estate.(fileOfId := read);
    forall service, path, content,
        chunk <- known.chunksOf(service, path, content) | known.owner(path) == Some(service)
      ensures chunk.service == service && chunk.path == path
      ensures known.fileOfId(chunk.chunkId) == FileKey(service, path)
    {
      assert Tells(estate, read, service, path, content);
    }
    assert known.Lawful();
  }

  lemma ApartIsLawful(estate: IndexEntries.Estate, digest: string -> string, identifiers: Draft -> seq<string>)
    requires CutByChunker(estate, digest, identifiers) && (forall text :: ':' !in digest(text)) && JoinedApart(estate)
    ensures IdsTellFiles(estate)
  {
    var read := id => FileOfHead(estate, Head(id));
    forall service, path, content ensures Tells(estate, read, service, path, content) {
      if estate.owner(path) == Some(service) {
        forall chunk <- estate.chunksOf(service, path, content)
          ensures chunk.service == service && chunk.path == path && read(chunk.chunkId) == FileKey(service, path)
        {
          HeadTellsFile(estate, digest, identifiers, service, path, content, chunk);
        }
      }
    }
    TellingIsLawful(estate, read);
  }

  lemma LawfulIsApart(estate: IndexEntries.Estate, digest: string -> string, identifiers: Draft -> seq<string>)
    requires CutsAlike(estate, digest, identifiers) && IdsTellFiles(estate)
    ensures JoinedApart(estate)
  {
    var read :| estate.(fileOfId := read).Lawful();
    forall p, q | estate.owner(p).Some? && estate.owner(q).Some? && Joined(estate, p) == Joined(estate, q)
      ensures p == q
    {
      assert ShareAChunk(estate, digest, identifiers, p, q);
      var s, t := estate.owner(p).value, estate.owner(q).value;
      var one, two, lines, d :|
        && ChunkOf(Assembly(s, p, digest, identifiers), lines, d) in estate.chunksOf(s, p, one)
        && ChunkOf(Assembly(t, q, digest, identifiers), lines, d) in estate.chunksOf(t, q, two);
      SameIds(Assembly(s, p, digest, identifiers), Assembly(t, q, digest, identifiers), lines, d);
      assert read(ChunkOf(Assembly(s, p, digest, identifiers), lines, d).chunkId) == FileKey(s, p);
    }
  }

  lemma SameIds(a: Assembly, b: Assembly, lines: seq<string>, d: Draft)
    requires a.digest == b.digest && a.service + ":" + a.path == b.service + ":" + b.path
    ensures ChunkOf(a, lines, d).chunkId == ChunkOf(b, lines, d).chunkId
  {}

  /** The exact condition, on the manifest alone: chunk ids identify the files of an estate if and only if no two
      owned files have service and path run together to the same text. */
  lemma IdsTellFilesIffApart(estate: IndexEntries.Estate, digest: string -> string, identifiers: Draft -> seq<string>)
    requires CutByChunker(estate, digest, identifiers) && CutsAlike(estate, digest, identifiers)
    requires forall text :: ':' !in digest(text)
    ensures IdsTellFiles(estate) <==> JoinedApart(estate)
  {
    if JoinedApart(estate) {
      ApartIsLawful(estate, digest, identifiers);
    }
    if IdsTellFiles(estate) {
      LawfulIsApart(estate, digest, identifiers);
    }
  }

  /** Names without colons never run together alike. */
  lemma NoColonIsApart(estate: IndexEntries.Estate)
    requires forall path | estate.owner(path).Some? :: ':' !in estate.owner(path).value
    ensures JoinedApart(estate)
  {
    forall p, q | estate.owner(p).Some? && estate.owner(q).Some? && Joined(estate, p) == Joined(estate, q)
      ensures p == q
    {
      FirstOfJoined(estate.owner(p).value, p, ':');
      FirstOfJoined(estate.owner(q).value, q, ':');
      assert Joined(estate, p) == estate.owner(p).value + [':'] + p;
    }
  }

  /** So the chunker's ids tell files apart when no service name holds a colon, and `FileOfId` reads them. */
  lemma ChunkerIdsAreLawful(estate: IndexEntries.Estate, digest: string -> string, identifiers: Draft -> seq<string>)
    requires CutByChunker(estate, digest, identifiers) && forall text :: ':' !in digest(text)
    requires forall path | estate.owner(path).Some? :: ':' !in estate.owner(path).value
    requires forall id :: estate.fileOfId(id) == FileOfId(id)
    ensures JoinedApart(estate) && estate.Lawful()
  {
    NoColonIsApart(estate);
    forall service, path, content,
        chunk <- estate.chunksOf(service, path, content) | estate.owner(path) == Some(service)
      ensures chunk.service == service && chunk.path == path
      ensures estate.fileOfId(chunk.chunkId) == FileKey(service, path)
    {
      var a := Assembly(service, path, digest, identifiers);
      var lines, d :| chunk == ChunkOf(a, lines, d);
      IdNamesItsFile(a, lines, d);
    }
  }

  /** A failing input: file `c` of service `a:b` and file `b:c` of service `a` with the same text. They get one
      id, and indexing both leaves the document of the one indexed last. */
  lemma TwoFilesOneDocument(analyzer: Index.Analyzer, digest: string -> string, identifiers: Draft -> seq<string>,
                            lines: seq<string>, d: Draft)
    ensures var one := ChunkOf(Assembly("a:b", "c", digest, identifiers), lines, d);
            var two := ChunkOf(Assembly("a", "b:c", digest, identifiers), lines, d);
            && one.chunkId == two.chunkId && (one.service, one.path) != (two.service, two.path)
            && analyzer.Indexed(map[], [one] + [two]) == map[two.chunkId := analyzer.DocOf(two)]
  {
    var a, b := Assembly("a:b", "c", digest, identifiers), Assembly("a", "b:c", digest, identifiers);
    var one, two := ChunkOf(a, lines, d), ChunkOf(b, lines, d);
    assert "a:b" + ":" + "c" == "a" + ":" + "b:c";
    SameIds(a, b, lines, d);
    assert ([one] + [two])[1..] == [two] && [two][1..] == [];
    var docs := map[][one.chunkId := analyzer.DocOf(one)];
    assert analyzer.Indexed(map[], [one] + [two]) == analyzer.Indexed(docs, [two]);
    assert analyzer.Indexed(docs, [two]) == analyzer.Indexed(docs[two.chunkId := analyzer.DocOf(two)], []);
  }

  /** An estate that owns both is not lawful, however ids are read. */
  lemma CollidingNamesBreakTheLaw(estate: IndexEntries.Estate, digest: string -> string,
                                  identifiers: Draft -> seq<string>)
    requires CutsAlike(estate, digest, identifiers)
    requires estate.owner("c") == Some("a:b") && estate.owner("b:c") == Some("a")
    ensures !JoinedApart(estate) && !IdsTellFiles(estate)
  {
    assert Joined(estate, "c") == Joined(estate, "b:c");
    if IdsTellFiles(estate) {
      LawfulIsApart(estate, digest, identifiers);
    }
  }
}

/** Chunking one file (`backend/ingestion/chunker.py`, `chunk_source`): definition chunks, module chunks for
    the rest, sorted, one per span, blank ones dropped. */
module Chunker {
  import opened Domain
  import opened Ordering
  import opened Text
  import opened Residue
  import opened Definitions

  /** What chunk assembly takes from elsewhere: a digest of the content, and the identifiers of a definition. */
  datatype Assembly = Assembly(service: string, path: string, digest: string -> string,
      identifiers: Draft -> seq<string>)

  function SliceLines(lines: seq<string>, span: Span): string {
    var end := if span.end < |lines| - 1 then span.end + 1 else |lines|;
    if span.start < end then JoinWith(lines[span.start..end], "\n") else ""
  }

  function ChunkOf(a: Assembly, lines: seq<string>, d: Draft): Chunk {
    var content := SliceLines(lines, d.span);
    var rows := Decimal(d.span.start + 1) + "-" + Decimal(d.span.end + 1);
    Chunk(a.service + ":" + a.path + ":" + rows + ":" + a.digest(content),
          a.service, a.path, d.kind, d.span.start + 1, d.span.end + 1, content, a.identifiers(d), d.symbol, None)
  }

  function ModuleDraft(span: Span): Draft { Draft(MODULE, span, None) }

  function Modules(spans: seq<Span>): seq<Draft> {
    seq(|spans|, i requires 0 <= i < |spans| => ModuleDraft(spans[i]))
  }

  function SpansOf(drafts: seq<Draft>): seq<Span> {
    seq(|drafts|, i requires 0 <= i < |drafts| => drafts[i].span)
  }

  predicate SpanLeq(a: Draft, b: Draft) {
    a.span.start < b.span.start || (a.span.start == b.span.start && a.span.end <= b.span.end)
  }

  /** The drafts that become chunks: the first of each span, unless its rows are blank. */
  function Emitted(lines: seq<string>, ds: seq<Draft>): seq<Draft> {
    if ds == [] then []
    else
      var rest, d := ds[..|ds| - 1], ds[|ds| - 1];
      Emitted(lines, rest) + if d.span in SpansOf(rest) || IsBlank(SliceLines(lines, d.span)) then [] else [d]
  }

  method Emit(a: Assembly, lines: seq<string>, ds: seq<Draft>) returns (chunks: seq<Chunk>)
    ensures chunks == Assembled(a, lines, Emitted(lines, ds))
  {
    chunks := [];
    var seen: set<Span> := {};
    for i := 0 to |ds|
      invariant forall s :: s in seen <==> s in SpansOf(ds[..i])
      invariant chunks == Assembled(a, lines, Emitted(lines, ds[..i]))
    {
      var d := ds[i];
      assert ds[..i + 1][..i] == ds[..i];
      assert SpansOf(ds[..i + 1]) == SpansOf(ds[..i]) + [d.span];
      if d.span in seen {
        continue;
      }
      seen := seen + {d.span};
      var content := SliceLines(lines, d.span);
      if IsBlank(content) {
        continue;
      }
      assert Assembled(a, lines, Emitted(lines, ds[..i]) + [d]) == chunks + [ChunkOf(a, lines, d)];
      chunks := chunks + [ChunkOf(a, lines, d)];
    }
    assert ds[..|ds|] == ds;
  }

  function Assembled(a: Assembly, lines: seq<string>, ds: seq<Draft>): seq<Chunk> {
    seq(|ds|, i requires 0 <= i < |ds| => ChunkOf(a, lines, ds[i]))
  }

  // ----- What is emitted -----

  /** Emission keeps order, keeps one draft per span, and loses no rows but blank ones. */
  lemma {:induction false} EmittedFacts(lines: seq<string>, ds: seq<Draft>)
    ensures forall x :: x in Emitted(lines, ds) ==> x in ds && !IsBlank(SliceLines(lines, x.span))
    ensures forall x :: x in ds && !IsBlank(SliceLines(lines, x.span)) ==> x.span in SpansOf(Emitted(lines, ds))
    ensures forall i, j :: 0 <= i < j < |Emitted(lines, ds)| ==>
        Emitted(lines, ds)[i].span != Emitted(lines, ds)[j].span
  {
    if ds != [] {
      var rest, d := ds[..|ds| - 1], ds[|ds| - 1];
      EmittedFacts(lines, rest);
      assert ds == rest + [d];
      var kept := Emitted(lines, rest);
      assert SpansOf(Emitted(lines, ds)) == SpansOf(kept) + SpansOf(Emitted(lines, ds)[|kept|..]);
      forall k | 0 <= k < |kept| ensures kept[k].span in SpansOf(rest) {
        SpanListed(rest, kept[k]);
      }
      if d.span in SpansOf(rest) {
        var k :| 0 <= k < |rest| && rest[k].span == d.span;
        assert rest[k] in rest;
      } else if !IsBlank(SliceLines(lines, d.span)) {
        assert SpansOf(kept + [d]) == SpansOf(kept) + [d.span];
      }
    }
  }

  lemma SpanListed(ds: seq<Draft>, d: Draft)
    requires d in ds
    ensures d.span in SpansOf(ds)
  {
    var k :| 0 <= k < |ds| && ds[k] == d;
    assert SpansOf(ds)[k] == d.span;
  }

  lemma {:induction false} JoinIsBlank(parts: seq<string>)
    ensures IsBlank(JoinWith(parts, "\n")) <==> forall i :: 0 <= i < |parts| ==> IsBlank(parts[i])
  {
    if |parts| > 1 {
      JoinIsBlank(parts[1..]);
      BlankTogether(parts[0] + "\n", JoinWith(parts[1..], "\n"));
      BlankTogether(parts[0], "\n");
      assert forall i :: 1 <= i < |parts| ==> parts[i] == parts[1..][i - 1];
    }
  }

  lemma BlankTogether(a: string, b: string)
    ensures IsBlank(a + b) <==> IsBlank(a) && IsBlank(b)
  {
    assert forall i :: 0 <= i < |a| ==> (a + b)[i] == a[i];
    assert forall i :: 0 <= i < |b| ==> (a + b)[|a| + i] == b[i];
  }

  lemma SliceIsBlank(lines: seq<string>, span: Span, row: nat)
    requires Holds(span, row) && row < |lines| && !IsBlank(lines[row])
    ensures !IsBlank(SliceLines(lines, span))
  {
    var end := if span.end < |lines| - 1 then span.end + 1 else |lines|;
    JoinIsBlank(lines[span.start..end]);
    assert lines[span.start..end][row - span.start] == lines[row];
  }

  lemma EarlierIsAbove(ds: seq<Draft>, x: Draft)
    requires SortedBy(ds, SpanLeq) && ds != [] && x in ds[..|ds| - 1]
    requires SameOrApart(x.span, ds[|ds| - 1].span) && ds[|ds| - 1].span.start <= ds[|ds| - 1].span.end
    requires ds[|ds| - 1].span !in SpansOf(ds[..|ds| - 1])
    ensures x.span.end < ds[|ds| - 1].span.start
  {
    SpanListed(ds[..|ds| - 1], x);
    var p :| 0 <= p < |ds| - 1 && ds[p] == x;
    assert SpanLeq(ds[p], ds[|ds| - 1]);
  }

  lemma SpansGrow(ds: seq<Draft>, d: Draft)
    ensures SpansOf(ds + [d]) == SpansOf(ds) + [d.span]
  {}

  /** From sorted drafts with pairwise equal or disjoint rows, the chunks come out in ascending rows. */
  lemma {:induction false} EmittedAscends(lines: seq<string>, ds: seq<Draft>)
    requires SortedBy(ds, SpanLeq)
    requires forall x, y :: x in ds && y in ds ==> SameOrApart(x.span, y.span)
    requires forall x :: x in ds ==> x.span.start <= x.span.end
    ensures Ascending(SpansOf(Emitted(lines, ds)))
  {
    if ds != [] {
      var rest, d := ds[..|ds| - 1], ds[|ds| - 1];
      assert ds == rest + [d];
      EmittedAscends(lines, rest);
      EmittedFacts(lines, rest);
      var kept := Emitted(lines, rest);
      if d.span !in SpansOf(rest) {
        forall i | 0 <= i < |kept| ensures kept[i].span.end < d.span.start {
          assert kept[i] in kept;
          EarlierIsAbove(ds, kept[i]);
        }
        AscendsOneMore(kept, d);
      }
    }
  }

  lemma AscendsOneMore(kept: seq<Draft>, d: Draft)
    requires Ascending(SpansOf(kept)) && d.span.start <= d.span.end
    requires forall i :: 0 <= i < |kept| ==> kept[i].span.end < d.span.start
    ensures Ascending(SpansOf(kept + [d]))
  {
    SpansGrow(kept, d);
  }

  // ----- The chunks of a file -----

  predicate OnRow(c: Chunk, row: int) { c.start <= row + 1 <= c.end }

  /** The rows of all definitions and classes. */
  function Covered(found: Forest): seq<Span> { SpansOf(Drafts(found, false)) + ClassSpans(found) }

  /** Definition chunks are those of the definitions found; every definition with content has one with its rows. */
  ghost predicate DefinitionsChunked(a: Assembly, lines: seq<string>, found: Forest, chunks: seq<Chunk>) {
    && (forall i :: 0 <= i < |chunks| && chunks[i].kind != MODULE ==>
          exists d :: d in Drafts(found, false) && chunks[i] == ChunkOf(a, lines, d))
    && (forall d :: d in Drafts(found, false) && !IsBlank(SliceLines(lines, d.span)) ==>
          exists i :: 0 <= i < |chunks| && chunks[i].start == d.span.start + 1 && chunks[i].end == d.span.end + 1)
  }

  /** Module chunks are cut from the file, fit the window and hold kept rows only. */
  ghost predicate ModulesWithinResidue(a: Assembly, lines: seq<string>, found: Forest, window: int,
                                       chunks: seq<Chunk>) {
    forall i :: 0 <= i < |chunks| && chunks[i].kind == MODULE ==>
      && (exists span: Span :: span.start <= span.end && chunks[i] == ChunkOf(a, lines, ModuleDraft(span)))
      && (window > 0 ==> chunks[i].end - chunks[i].start + 1 <= window)
      && (forall r :: OnRow(chunks[i], r) ==> Kept(lines, Covered(found), r))
  }

  /** A non-blank row outside all definitions and classes is in one module chunk, and in no other chunk. */
  ghost predicate ResidueChunked(lines: seq<string>, found: Forest, chunks: seq<Chunk>) {
    forall r :: 0 <= r < |lines| && !IsBlank(lines[r]) && !Held(Covered(found), r) ==>
      exists i :: 0 <= i < |chunks| && chunks[i].kind == MODULE && OnlyOneOnRow(chunks, i, r)
  }

  ghost predicate OnlyOneOnRow(chunks: seq<Chunk>, i: int, r: int)
    requires 0 <= i < |chunks|
  {
    OnRow(chunks[i], r) && forall j :: 0 <= j < |chunks| && OnRow(chunks[j], r) ==> j == i
  }

  lemma ChunkOnRow(lines: seq<string>, found: Forest, chunks: seq<Chunk>, r: int) returns (i: int)
    requires ResidueChunked(lines, found, chunks) && 0 <= r < |lines| && !IsBlank(lines[r]) && !Held(Covered(found), r)
    ensures 0 <= i < |chunks| && chunks[i].kind == MODULE && OnlyOneOnRow(chunks, i, r)
  {
    i :| 0 <= i < |chunks| && chunks[i].kind == MODULE && OnlyOneOnRow(chunks, i, r);
  }

  /** Chunks come in order of their first rows, those with the same first row in order of their last. */
  ghost predicate InRowOrder(chunks: seq<Chunk>) {
    forall i, j :: 0 <= i < j < |chunks| ==>
      chunks[i].start < chunks[j].start || (chunks[i].start == chunks[j].start && chunks[i].end < chunks[j].end)
  }

  ghost predicate Chunked(a: Assembly, lines: seq<string>, found: Forest, window: int, chunks: seq<Chunk>) {
    && DefinitionsChunked(a, lines, found, chunks)
    && ModulesWithinResidue(a, lines, found, window, chunks)
    && ResidueChunked(lines, found, chunks)
    && (forall i :: 0 <= i < |chunks| ==> !IsBlank(chunks[i].content)) && InRowOrder(chunks)
    && (Layered(found) ==> forall i, j :: 0 <= i < j < |chunks| ==> chunks[i].end < chunks[j].start)
  }

  /** The drafts of a file: those of its definitions and the windows of its residue, in order of rows. */
  ghost predicate Drafted(lines: seq<string>, found: Forest, window: int, ws: seq<Span>, ds: seq<Draft>) {
    && Windowed(ws, window) && (forall r :: Held(ws, r) <==> Kept(lines, Covered(found), r))
    && SortedBy(ds, SpanLeq) && (forall x :: x in ds <==> x in Drafts(found, false) || x in Modules(ws))
  }

  predicate NoModules(ds: seq<Draft>) { forall i :: 0 <= i < |ds| ==> ds[i].kind != MODULE }

  lemma {:induction false} DefinitionsAreNotModules(f: Forest, inside: bool)
    ensures NoModules(Drafts(f, inside))
  {
    if f.Grow? {
      DefinitionsAreNotModules(f.rest, inside);
      DefinitionIsNotModule(f.last, inside);
    }
  }

  lemma {:induction false} DefinitionIsNotModule(d: Definition, inside: bool)
    ensures NoModules(DraftsOf(d, inside))
  {
    if d.Class? {
      DefinitionsAreNotModules(d.members, true);
    }
  }

  /** A definition's rows are covered, so no kept row is among them. */
  lemma DefinitionIsCovered(found: Forest, d: Draft, r: int)
    requires d in Drafts(found, false) && Holds(d.span, r)
    ensures Held(Covered(found), r)
  {
    SpanListed(Drafts(found, false), d);
    var k :| 0 <= k < |Drafts(found, false)| && SpansOf(Drafts(found, false))[k] == d.span;
    assert Holds(Covered(found)[k], r);
  }

  lemma WindowOf(ws: seq<Span>, d: Draft) returns (k: int)
    requires d in Modules(ws)
    ensures 0 <= k < |ws| && d == ModuleDraft(ws[k])
  {
    k :| 0 <= k < |ws| && Modules(ws)[k] == d;
  }

  lemma ResidueIsChunked(a: Assembly, lines: seq<string>, found: Forest, window: int, ws: seq<Span>, ds: seq<Draft>)
    requires Drafted(lines, found, window, ws, ds)
    ensures ResidueChunked(lines, found, Assembled(a, lines, Emitted(lines, ds)))
  {
    var chunks := Assembled(a, lines, Emitted(lines, ds));
    forall r | 0 <= r < |lines| && !IsBlank(lines[r]) && !Held(Covered(found), r)
      ensures exists i :: 0 <= i < |chunks| && chunks[i].kind == MODULE && OnlyOneOnRow(chunks, i, r)
    {
      assert Clear(Covered(found), r, r);
      assert Held(ws, r);
      var k :| 0 <= k < |ws| && Holds(ws[k], r);
      var i := RowEmitted(lines, found, window, ws, ds, k, r);
      forall j | 0 <= j < |chunks| && OnRow(chunks[j], r) ensures j == i {
        RowEmittedOnce(lines, found, window, ws, ds, k, r, j);
        EmittedFacts(lines, ds);
      }
      assert OnlyOneOnRow(chunks, i, r);
    }
  }

  lemma RowEmitted(lines: seq<string>, found: Forest, window: int, ws: seq<Span>, ds: seq<Draft>, k: int,
                   r: int) returns (i: int)
    requires Drafted(lines, found, window, ws, ds) && 0 <= r < |lines| && !IsBlank(lines[r]) && !Held(Covered(found), r)
    requires 0 <= k < |ws| && Holds(ws[k], r)
    ensures 0 <= i < |Emitted(lines, ds)| && Emitted(lines, ds)[i] == ModuleDraft(ws[k])
  {
    var d, kept := ModuleDraft(ws[k]), Emitted(lines, ds);
    assert Modules(ws)[k] == d;
    SliceIsBlank(lines, d.span, r);
    assert d in ds;
    i := SpanEmitted(lines, ds, d);
    EmittedIsDraft(lines, ds, i);
    if kept[i] in Drafts(found, false) {
      DefinitionIsCovered(found, kept[i], r);
    }
    var _ := WindowOf(ws, kept[i]);
  }

  lemma RowEmittedOnce(lines: seq<string>, found: Forest, window: int, ws: seq<Span>, ds: seq<Draft>, k: int, r: int,
                       j: int)
    requires Drafted(lines, found, window, ws, ds) && !Held(Covered(found), r)
    requires 0 <= k < |ws| && Holds(ws[k], r)
    requires 0 <= j < |Emitted(lines, ds)| && Holds(Emitted(lines, ds)[j].span, r)
    ensures Emitted(lines, ds)[j].span == ws[k]
  {
    var d := Emitted(lines, ds)[j];
    EmittedIsDraft(lines, ds, j);
    if d in Drafts(found, false) {
      DefinitionIsCovered(found, d, r);
    }
    var m := WindowOf(ws, d);
    assert Holds(ws[m], r);
  }

  lemma ModulesStayInResidue(a: Assembly, lines: seq<string>, found: Forest, window: int, ws: seq<Span>, ds: seq<Draft>)
    requires Drafted(lines, found, window, ws, ds)
    ensures ModulesWithinResidue(a, lines, found, window, Assembled(a, lines, Emitted(lines, ds)))
  {
    var kept := Emitted(lines, ds);
    forall i | 0 <= i < |kept| && kept[i].kind == MODULE
      ensures kept[i] == ModuleDraft(kept[i].span) && kept[i].span.start <= kept[i].span.end
      ensures window > 0 ==> Size(kept[i].span) <= window
      ensures forall r :: Holds(kept[i].span, r) ==> Kept(lines, Covered(found), r)
    {
      ModuleStaysInResidue(lines, found, window, ws, ds, i);
    }
  }

  lemma ModuleStaysInResidue(lines: seq<string>, found: Forest, window: int, ws: seq<Span>, ds: seq<Draft>, i: int)
    requires Drafted(lines, found, window, ws, ds)
    requires 0 <= i < |Emitted(lines, ds)| && Emitted(lines, ds)[i].kind == MODULE
    ensures var d := Emitted(lines, ds)[i];
            && d == ModuleDraft(d.span) && d.span.start <= d.span.end && (window > 0 ==> Size(d.span) <= window)
            && forall r :: Holds(d.span, r) ==> Kept(lines, Covered(found), r)
  {
    var d := Emitted(lines, ds)[i];
    EmittedIsDraft(lines, ds, i);
    DefinitionsAreNotModules(found, false);
    var m := WindowOf(ws, d);
    forall r | Holds(d.span, r) ensures Kept(lines, Covered(found), r) {
      assert Holds(ws[m], r) && Held(ws, r);
    }
  }

  /** What is emitted of a kind other than a module is a definition. */
  lemma OtherIsDefinition(lines: seq<string>, found: Forest, window: int, ws: seq<Span>, ds: seq<Draft>, i: int)
    requires Drafted(lines, found, window, ws, ds)
    requires 0 <= i < |Emitted(lines, ds)| && Emitted(lines, ds)[i].kind != MODULE
    ensures Emitted(lines, ds)[i] in Drafts(found, false)
  {
    EmittedIsDraft(lines, ds, i);
    assert forall m :: m in Modules(ws) ==> m.kind == MODULE;
  }

  lemma EmittedIsDraft(lines: seq<string>, ds: seq<Draft>, i: int)
    requires 0 <= i < |Emitted(lines, ds)|
    ensures Emitted(lines, ds)[i] in ds
  {
    EmittedFacts(lines, ds);
    assert Emitted(lines, ds)[i] in Emitted(lines, ds);
  }

  /** Every draft with content has a chunk of its rows. */
  lemma SpanEmitted(lines: seq<string>, ds: seq<Draft>, d: Draft) returns (i: int)
    requires d in ds && !IsBlank(SliceLines(lines, d.span))
    ensures 0 <= i < |Emitted(lines, ds)| && Emitted(lines, ds)[i].span == d.span
  {
    EmittedFacts(lines, ds);
    var spans := SpansOf(Emitted(lines, ds));
    assert d.span in spans;
    i :| 0 <= i < |spans| && spans[i] == d.span;
  }

  lemma DefinitionsAreChunked(a: Assembly, lines: seq<string>, found: Forest, window: int, ws: seq<Span>,
                              ds: seq<Draft>)
    requires Drafted(lines, found, window, ws, ds)
    ensures DefinitionsChunked(a, lines, found, Assembled(a, lines, Emitted(lines, ds)))
  {
    var kept := Emitted(lines, ds);
    var chunks := Assembled(a, lines, kept);
    forall i | 0 <= i < |chunks| && chunks[i].kind != MODULE
      ensures exists d :: d in Drafts(found, false) && chunks[i] == ChunkOf(a, lines, d)
    {
      OtherIsDefinition(lines, found, window, ws, ds, i);
      assert chunks[i] == ChunkOf(a, lines, kept[i]);
    }
    forall d | d in Drafts(found, false) && !IsBlank(SliceLines(lines, d.span))
      ensures exists i :: 0 <= i < |chunks| && chunks[i].start == d.span.start + 1 && chunks[i].end == d.span.end + 1
    {
      assert d in ds;
      var i := SpanEmitted(lines, ds, d);
      assert chunks[i].start == d.span.start + 1;
    }
  }

  lemma LayeredDraftsApart(lines: seq<string>, found: Forest, window: int, ws: seq<Span>, ds: seq<Draft>)
    requires Drafted(lines, found, window, ws, ds) && Layered(found)
    ensures forall x, y :: x in ds && y in ds ==> SameOrApart(x.span, y.span)
    ensures forall x :: x in ds ==> x.span.start <= x.span.end
  {
    forall x, y | x in ds && y in ds ensures SameOrApart(x.span, y.span) {
      PairApart(lines, found, window, ws, x, y);
    }
    forall x | x in ds ensures x.span.start <= x.span.end {
      PairApart(lines, found, window, ws, x, x);
    }
  }

  lemma PairApart(lines: seq<string>, found: Forest, window: int, ws: seq<Span>, x: Draft, y: Draft)
    requires Windowed(ws, window) && forall r :: Held(ws, r) <==> Kept(lines, Covered(found), r)
    requires Layered(found)
    requires x in Drafts(found, false) || x in Modules(ws)
    requires y in Drafts(found, false) || y in Modules(ws)
    ensures SameOrApart(x.span, y.span) && x.span.start <= x.span.end
  {
    var defs := Drafts(found, false);
    NonEmptyDrafts(found, false);
    if x in defs && y in defs {
      DraftsAreDisjoint(found, false);
    } else if x in defs {
      var m := WindowOf(ws, y);
      DefinitionMissesWindow(lines, found, window, ws, x, m);
    } else if y in defs {
      var m := WindowOf(ws, x);
      DefinitionMissesWindow(lines, found, window, ws, y, m);
    } else {
      var m := WindowOf(ws, x);
      var k := WindowOf(ws, y);
    }
  }

  lemma DefinitionMissesWindow(lines: seq<string>, found: Forest, window: int, ws: seq<Span>, d: Draft, m: int)
    requires Windowed(ws, window) && forall r :: Held(ws, r) <==> Kept(lines, Covered(found), r)
    requires d in Drafts(found, false) && d.span.start <= d.span.end && 0 <= m < |ws|
    ensures Apart(d.span, ws[m])
  {
    if !Apart(d.span, ws[m]) {
      var r := if d.span.start < ws[m].start then ws[m].start else d.span.start;
      assert Holds(ws[m], r) && Held(ws, r);
      DefinitionIsCovered(found, d, r);
    }
  }

  lemma DraftsAreChunked(a: Assembly, lines: seq<string>, found: Forest, window: int, ws: seq<Span>, ds: seq<Draft>)
    requires Drafted(lines, found, window, ws, ds)
    ensures Chunked(a, lines, found, window, Assembled(a, lines, Emitted(lines, ds)))
  {
    DefinitionsAreChunked(a, lines, found, window, ws, ds);
    ModulesStayInResidue(a, lines, found, window, ws, ds);
    ResidueIsChunked(a, lines, found, window, ws, ds);
    ChunksHaveContent(a, lines, ds);
    EmittedInOrder(lines, ds);
    if Layered(found) {
      LayeredDraftsApart(lines, found, window, ws, ds);
      ChunksAscend(a, lines, ds);
    }
  }

  lemma {:induction false} EmittedInOrder(lines: seq<string>, ds: seq<Draft>)
    requires SortedBy(ds, SpanLeq)
    ensures var kept := Emitted(lines, ds);
            forall i, j :: 0 <= i < j < |kept| ==>
              || kept[i].span.start < kept[j].span.start
              || (kept[i].span.start == kept[j].span.start && kept[i].span.end < kept[j].span.end)
  {
    EmittedFacts(lines, ds);
    var kept := Emitted(lines, ds);
    forall i, j | 0 <= i < j < |kept|
      ensures || kept[i].span.start < kept[j].span.start
              || (kept[i].span.start == kept[j].span.start && kept[i].span.end < kept[j].span.end)
    {
      EmittedKeepsOrder(lines, ds, i, j);
    }
  }

  lemma {:induction false} EmittedKeepsOrder(lines: seq<string>, ds: seq<Draft>, i: nat, j: nat)
    requires SortedBy(ds, SpanLeq) && i < j < |Emitted(lines, ds)|
    ensures SpanLeq(Emitted(lines, ds)[i], Emitted(lines, ds)[j])
  {
    var rest, d := ds[..|ds| - 1], ds[|ds| - 1];
    if j < |Emitted(lines, rest)| {
      EmittedKeepsOrder(lines, rest, i, j);
    } else {
      EmittedIsDraft(lines, rest, i);
      var k :| 0 <= k < |rest| && rest[k] == Emitted(lines, rest)[i];
      assert SpanLeq(ds[k], d);
    }
  }

  lemma ChunksHaveContent(a: Assembly, lines: seq<string>, ds: seq<Draft>)
    ensures var chunks := Assembled(a, lines, Emitted(lines, ds));
            forall i :: 0 <= i < |chunks| ==> !IsBlank(chunks[i].content)
  {
    EmittedFacts(lines, ds);
    var kept := Emitted(lines, ds);
    forall i | 0 <= i < |kept| ensures !IsBlank(SliceLines(lines, kept[i].span)) {
      assert kept[i] in kept;
    }
  }

  lemma ChunksAscend(a: Assembly, lines: seq<string>, ds: seq<Draft>)
    requires SortedBy(ds, SpanLeq)
    requires forall x, y :: x in ds && y in ds ==> SameOrApart(x.span, y.span)
    requires forall x :: x in ds ==> x.span.start <= x.span.end
    ensures var chunks := Assembled(a, lines, Emitted(lines, ds));
            forall i, j :: 0 <= i < j < |chunks| ==> chunks[i].end < chunks[j].start
  {
    EmittedAscends(lines, ds);
    var kept := Emitted(lines, ds);
    assert forall i :: 0 <= i < |kept| ==> SpansOf(kept)[i] == kept[i].span;
  }

  function Found(tree: Option<Syntax>): Forest {
    if tree.Some? then Defined(tree.value, |tree.value.children|, Unwrapped) else Bare
  }

  /** Chunk a file; without a grammar there is no tree, and the whole file is residue. */
  method ChunkSource(a: Assembly, lines: seq<string>, tree: Option<Syntax>, window: int) returns (chunks: seq<Chunk>)
    ensures Chunked(a, lines, Found(tree), window, chunks)
  {
    var ws, drafts;
    if tree.None? {
      ws := WholeFileModule(lines, window);
      drafts := Modules(ws);
      WholeIsDrafted(lines, window, ws);
    } else {
      var collector := new Collector();
      var defs := collector.Collect(tree.value, Unwrapped, false);
      assert collector.containers == ClassSpans(Found(tree));
      ws := ModuleResidue(lines, SpansOf(defs) + collector.containers, window);
      drafts := Sort(defs + Modules(ws), SpanLeq);
      StructureIsDrafted(lines, Found(tree), window, ws);
    }
    DraftsAreChunked(a, lines, Found(tree), window, ws, drafts);
    chunks := Emit(a, lines, drafts);
  }

  lemma WholeIsDrafted(lines: seq<string>, window: int, ws: seq<Span>)
    requires Windowed(ws, window) && forall r :: Held(ws, r) <==> Kept(lines, [], r)
    ensures Drafted(lines, Bare, window, ws, Modules(ws))
  {
    assert Covered(Bare) == [];
    forall i, j | 0 <= i < j < |ws| ensures SpanLeq(Modules(ws)[i], Modules(ws)[j]) {
      assert ws[i].end < ws[j].start;
    }
  }

  lemma StructureIsDrafted(lines: seq<string>, found: Forest, window: int, ws: seq<Span>)
    requires Windowed(ws, window) && forall r :: Held(ws, r) <==> Kept(lines, Covered(found), r)
    ensures Drafted(lines, found, window, ws, Sort(Drafts(found, false) + Modules(ws), SpanLeq))
  {
    var all := Drafts(found, false) + Modules(ws);
    SpanOrderIsTotal();
    SortSorts(all, SpanLeq);
    SameMembers(Sort(all, SpanLeq), all);
  }

  lemma SpanOrderIsTotal()
    ensures TotalPreorder(SpanLeq)
  {}

  // ----- What a chunk says -----

  /** A chunk has its file, kind and symbol, its first and last line counted from 1, and the text of its rows. */
  lemma ChunkTells(a: Assembly, lines: seq<string>, d: Draft)
    ensures var c := ChunkOf(a, lines, d);
            && c.service == a.service && c.path == a.path && c.kind == d.kind && c.symbol == d.symbol
            && c.start == d.span.start + 1 && c.end == d.span.end + 1
            && c.identifiers == a.identifiers(d) && c.embedding == None && c.content == SliceLines(lines, d.span)
  {}

  /** The text of one row is that line; a further row adds a line break and its line; rows past the end add nothing. */
  lemma {:induction false} SliceGrowsByLine(lines: seq<string>, start: nat, end: nat)
    requires start <= end < |lines|
    ensures SliceLines(lines, Span(start, start)) == lines[start]
    ensures end + 1 < |lines| ==>
              SliceLines(lines, Span(start, end + 1)) == SliceLines(lines, Span(start, end)) + "\n" + lines[end + 1]
    ensures forall past: nat :: past >= |lines| ==>
              SliceLines(lines, Span(start, past)) == SliceLines(lines, Span(start, |lines| - 1))
  {
    assert lines[start..start + 1] == [lines[start]];
    if end + 1 < |lines| {
      assert lines[start..end + 2] == lines[start..end + 1] + [lines[end + 1]];
      JoinOneMore(lines[start..end + 1], "\n", lines[end + 1]);
    }
  }
}

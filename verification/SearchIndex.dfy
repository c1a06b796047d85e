/** The in-memory hybrid search index (`backend/retrieval/inmemory.py`): documents by chunk id with
    running document-frequency and length statistics, updated in place. */
module SearchIndex {
  import opened Domain
  import opened Ordering
  import opened RankFusion
  import opened Text

  datatype Doc = Doc(chunk: Chunk, tokens: multiset<string>, length: nat, vector: Option<Vector>)

  type Docs = map<string, Doc>

  function SearchableText(chunk: Chunk): string {
    var text := chunk.content + "\n" + JoinWith(chunk.identifiers, " ");
    if chunk.symbol.Some? && chunk.symbol.value != "" then text + "\n" + chunk.symbol.value else text
  }

  /** How chunks become documents: the tokenizer and the optional embedding model. */
  datatype Analyzer = Analyzer(tokens: string -> seq<string>, embedder: Option<string -> Vector>) {
    function DocOf(chunk: Chunk): Doc {
      var text := SearchableText(chunk);
      var counted := multiset(tokens(text));
      var vector := if chunk.embedding.None? && embedder.Some? then Some(embedder.value(text)) else chunk.embedding;
      Doc(chunk, counted, |counted|, vector)
    }

    /** The documents after indexing `chunks` in order, later chunks replacing earlier ones. */
    function Indexed(docs: Docs, chunks: seq<Chunk>): Docs
      decreases |chunks|
    {
      if chunks == [] then docs
      else Indexed(docs[chunks[0].chunkId := DocOf(chunks[0])], chunks[1..])
    }
  }

  /** A chunk can be found by its content, by each of its identifiers and by its symbol. */
  lemma SearchableTextHoldsAll(chunk: Chunk)
    ensures Contains(SearchableText(chunk), chunk.content)
    ensures forall i :: 0 <= i < |chunk.identifiers| ==> Contains(SearchableText(chunk), chunk.identifiers[i])
    ensures chunk.symbol.Some? ==> Contains(SearchableText(chunk), chunk.symbol.value)
  {
    var names := JoinWith(chunk.identifiers, " ");
    var tail := if chunk.symbol.Some? && chunk.symbol.value != "" then "\n" + chunk.symbol.value else "";
    ThreeParts(SearchableText(chunk), chunk.content, names, tail);
    forall i | 0 <= i < |chunk.identifiers| ensures Contains(SearchableText(chunk), chunk.identifiers[i]) {
      JoinKeepsParts(chunk.identifiers, " ", i);
      ContainedFurther(names, chunk.content + "\n", tail, chunk.identifiers[i]);
      assert SearchableText(chunk) == (chunk.content + "\n") + names + tail;
    }
    if chunk.symbol.Some? {
      LastPart(chunk.content + "\n" + names, chunk.symbol.value, tail);
      assert SearchableText(chunk) == chunk.content + "\n" + names + tail;
    }
  }

  lemma ThreeParts(text: string, content: string, names: string, tail: string)
    requires text == content + "\n" + names + tail
    ensures Contains(text, content)
  {
    assert text == "" + content + ("\n" + names + tail);
  }

  lemma LastPart(before: string, symbol: string, tail: string)
    requires tail == if symbol != "" then "\n" + symbol else ""
    ensures Contains(before + tail, symbol)
  {
    if symbol != "" {
      assert before + tail == (before + "\n") + symbol + "";
    } else {
      assert before + tail == (before + tail) + symbol + "";
    }
  }

  /** A document counts the tokens of that text; it keeps the chunk's own embedding, and computes one only if none. */
  lemma DocumentOfChunk(analyzer: Analyzer, chunk: Chunk)
    ensures var doc, tokens := analyzer.DocOf(chunk), analyzer.tokens(SearchableText(chunk));
            && doc.chunk == chunk && doc.length == |tokens|
            && (forall i :: 0 <= i < |tokens| ==> tokens[i] in doc.tokens) && |doc.tokens| == |tokens|
            && (chunk.embedding.Some? ==> doc.vector == chunk.embedding)
            && (chunk.embedding.None? && analyzer.embedder.None? ==> doc.vector == None)
            && (chunk.embedding.None? && analyzer.embedder.Some? ==>
                  doc.vector == Some(analyzer.embedder.value(SearchableText(chunk))))
  {
    var tokens := analyzer.tokens(SearchableText(chunk));
    forall i | 0 <= i < |tokens| ensures tokens[i] in multiset(tokens) {
      assert tokens[i] in tokens;
    }
  }

  // ----- The statistics, recomputed from the documents alone -----

  ghost function Holding(docs: Docs, term: string): set<string> {
    set id | id in docs && term in docs[id].tokens
  }

  ghost function Vocabulary(docs: Docs): set<string> {
    set id, t | id in docs && t in docs[id].tokens :: t
  }

  /** Each occurring term with the number of documents that contain it. */
  ghost function FrequencyTable(docs: Docs): map<string, int> {
    map t | t in Vocabulary(docs) :: |Holding(docs, t)|
  }

  ghost function SumLengths(docs: Docs): nat
    decreases |docs|
  {
    if docs == map[] then 0
    else
      var id :| id in docs;
      docs[id].length + SumLengths(docs - {id})
  }

  lemma {:induction false} SumLengthsSplit(docs: Docs, id: string)
    requires id in docs
    ensures SumLengths(docs) == docs[id].length + SumLengths(docs - {id})
    decreases |docs|
  {
    var first :| first in docs && SumLengths(docs) == docs[first].length + SumLengths(docs - {first});
    if first != id {
      var both := docs - {first} - {id};
      assert both == docs - {id} - {first};
      SumLengthsSplit(docs - {first}, id);
      SumLengthsSplit(docs - {id}, first);
    }
  }

  function Count(df: map<string, int>, term: string): int { if term in df then df[term] else 0 }

  /** `df` is the frequency table of `docs`: a key is present iff its count is positive. */
  ghost predicate Counts(df: map<string, int>, docs: Docs) {
    && (forall t <- df :: df[t] > 0)
    && (forall t :: Count(df, t) == |Holding(docs, t)|)
  }

  lemma CountsIsFrequencyTable(df: map<string, int>, docs: Docs)
    requires Counts(df, docs)
    ensures df == FrequencyTable(docs)
  {
    forall t ensures t in df <==> t in Vocabulary(docs) {
      assert Count(df, t) == |Holding(docs, t)|;
      if t in Vocabulary(docs) {
        var id :| id in docs && t in docs[id].tokens;
        assert id in Holding(docs, t);
      }
      if t in df {
        assert Holding(docs, t) != {};
        var id :| id in Holding(docs, t);
      }
    }
    forall t <- df ensures df[t] == |Holding(docs, t)| {
      assert Count(df, t) == |Holding(docs, t)|;
    }
  }

  function Terms(tokens: multiset<string>): set<string> { set t | t in tokens }

  lemma HoldingWithout(docs: Docs, id: string, t: string)
    requires id in docs
    ensures |Holding(docs - {id}, t)| == |Holding(docs, t)| - if t in docs[id].tokens then 1 else 0
  {
    if t in docs[id].tokens {
      assert Holding(docs, t) == Holding(docs - {id}, t) + {id};
    } else {
      assert Holding(docs, t) == Holding(docs - {id}, t);
    }
  }

  method CountUp(df: map<string, int>, terms: set<string>) returns (df': map<string, int>)
    requires forall t <- df :: df[t] > 0
    ensures forall t <- df' :: df'[t] > 0
    ensures forall t :: Count(df', t) == Count(df, t) + if t in terms then 1 else 0
  {
    df' := df;
    var pending := terms;
    while pending != {}
      invariant pending <= terms
      invariant forall t <- df' :: df'[t] > 0
      invariant forall t :: Count(df', t) == Count(df, t) + if t in terms - pending then 1 else 0
    {
      var term :| term in pending;
      pending := pending - {term};
      df' := df'[term := Count(df', term) + 1];
    }
  }

  method CountDown(df: map<string, int>, terms: set<string>) returns (df': map<string, int>)
    requires terms <= df.Keys && forall t <- df :: df[t] > 0
    ensures forall t <- df' :: df'[t] > 0
    ensures forall t :: Count(df', t) == Count(df, t) - if t in terms then 1 else 0
  {
    df' := df;
    var pending := terms;
    while pending != {}
      invariant pending <= terms && pending <= df'.Keys
      invariant forall t <- df' :: df'[t] > 0
      invariant forall t :: Count(df', t) == Count(df, t) - if t in terms - pending then 1 else 0
    {
      var term :| term in pending;
      pending := pending - {term};
      var count := df'[term] - 1;
      df' := if count <= 0 then df' - {term} else df'[term := count];
    }
  }

  ghost function OfFile(docs: Docs, service: string, path: string): set<string> {
    set id | id in docs && docs[id].chunk.service == service && docs[id].chunk.path == path
  }

  ghost function OfService(docs: Docs, service: string): set<string> {
    set id | id in docs && docs[id].chunk.service == service
  }

  // ----- Searching -----

  /** The scoring formulas: the BM25 sum over query terms and the vector similarity. */
  datatype Scoring = Scoring(
    bm25: (seq<string>, multiset<string>, nat, map<string, int>, nat, real) -> real,
    cosine: (Vector, Vector) -> real)
  {
    /** Lexical score of one document against the corpus statistics. */
    function Lexical(query: seq<string>, doc: Doc, df: map<string, int>, n: nat, total: int): real {
      if query == [] || doc.length == 0 then 0.0
      else
        var average := if n == 0 then 0.0 else total as real / n as real;
        bm25(query, doc.tokens, doc.length, df, n, if average == 0.0 then 1.0 else average)
    }

    function Dense(query: Option<Vector>, doc: Doc): real {
      if query.Some? && doc.vector.Some? && doc.vector.value != [] then cosine(query.value, doc.vector.value) else 0.0
    }
  }

  datatype Query = Query(terms: seq<string>, vector: Option<Vector>, services: Option<set<string>>)

  predicate InScope(doc: Doc, services: Option<set<string>>) {
    services.None? || doc.chunk.service in services.value
  }

  /** Both score maps of a query, from the set of documents alone. */
  ghost function LexicalScores(docs: Docs, scoring: Scoring, q: Query): Scores {
    map id | id in docs && InScope(docs[id], q.services)
      :: scoring.Lexical(q.terms, docs[id], FrequencyTable(docs), |docs|, SumLengths(docs))
  }

  ghost function DenseScores(docs: Docs, scoring: Scoring, q: Query): Scores {
    if q.vector.None? then map[]
    else map id | id in docs && InScope(docs[id], q.services) :: scoring.Dense(q.vector, docs[id])
  }

  /** The complete answer to a query over a set of documents, before cutting at k. */
  ghost predicate IsAnswer(docs: Docs, scoring: Scoring, q: Query, answer: seq<Placed>) {
    IsFusedOrder(LexicalScores(docs, scoring, q), DenseScores(docs, scoring, q), answer)
  }

  /** A result: the stored chunk with its fused, lexical and dense scores. */
  datatype SearchHit = SearchHit(chunk: Chunk, score: real, lexical: real, dense: real)

  function HitOf(docs: Docs, scoring: Scoring, q: Query, p: Placed): SearchHit
    requires p.id in docs
  {
    SearchHit(docs[p.id].chunk, p.score, p.lexical, scoring.Dense(q.vector, docs[p.id]))
  }

  predicate AllStored(placed: seq<Placed>, docs: Docs) { forall i :: 0 <= i < |placed| ==> placed[i].id in docs }

  function HitsOf(docs: Docs, scoring: Scoring, q: Query, placed: seq<Placed>): seq<SearchHit>
    requires AllStored(placed, docs)
  {
    seq(|placed|, i requires 0 <= i < |placed| => HitOf(docs, scoring, q, placed[i]))
  }

  function Best(placed: seq<Placed>, k: int): seq<Placed> {
    if k <= 0 then [] else if k < |placed| then placed[..k] else placed
  }

  /** The hit for an id: its stored chunk, fused score, lexical score and similarity to the query. */
  ghost predicate Shows(docs: Docs, scoring: Scoring, q: Query, hit: SearchHit, id: string) {
    var lexical, dense := LexicalScores(docs, scoring, q), DenseScores(docs, scoring, q);
    && id in docs && hit.chunk == docs[id].chunk
    && hit.score == FusedScore(lexical, dense, id) && hit.lexical == Get(lexical, id) && hit.dense == Get(dense, id)
  }

  /** As many hits as asked for and found, the i-th for the i-th id of the complete answer. */
  ghost predicate ShowsFirst(docs: Docs, scoring: Scoring, q: Query, answer: seq<Placed>, k: int,
                             hits: seq<SearchHit>) {
    && |hits| == (if k <= 0 then 0 else if k < |answer| then k else |answer|)
    && forall i :: 0 <= i < |hits| ==> Shows(docs, scoring, q, hits[i], answer[i].id)
  }

  lemma FirstAreShown(docs: Docs, scoring: Scoring, q: Query, answer: seq<Placed>, k: int)
    requires IsAnswer(docs, scoring, q, answer) && AllStored(answer, docs)
    ensures ShowsFirst(docs, scoring, q, answer, k, HitsOf(docs, scoring, q, Best(answer, k)))
  {
    var hits := HitsOf(docs, scoring, q, Best(answer, k));
    forall i | 0 <= i < |hits| ensures Shows(docs, scoring, q, hits[i], answer[i].id) {
      assert answer[i] in answer && Best(answer, k)[i] == answer[i];
    }
  }

  /** The hits for the first k of the complete answer. */
  ghost predicate IsBest(docs: Docs, scoring: Scoring, q: Query, k: int, hits: seq<SearchHit>) {
    exists answer :: IsAnswer(docs, scoring, q, answer) && ShowsFirst(docs, scoring, q, answer, k, hits)
  }

  /** The hits are determined by the documents and the query. */
  lemma BestIsDetermined(docs: Docs, scoring: Scoring, q: Query, k: int, a: seq<SearchHit>, b: seq<SearchHit>)
    requires IsBest(docs, scoring, q, k, a) && IsBest(docs, scoring, q, k, b)
    ensures a == b
  {
    var x: seq<Placed> :| IsAnswer(docs, scoring, q, x) && ShowsFirst(docs, scoring, q, x, k, a);
    var y: seq<Placed> :| IsAnswer(docs, scoring, q, y) && ShowsFirst(docs, scoring, q, y, k, b);
    AnswerIsDetermined(docs, scoring, q, x, y);
    forall i | 0 <= i < |a| ensures a[i] == b[i] {
      assert Shows(docs, scoring, q, a[i], x[i].id) && Shows(docs, scoring, q, b[i], x[i].id);
    }
  }

  /** What is found and not shown comes after everything shown; a hit comes before the next. */
  lemma OthersComeAfter(docs: Docs, scoring: Scoring, q: Query, k: int, hits: seq<SearchHit>, answer: seq<Placed>,
                        i: nat, id: string)
    requires IsAnswer(docs, scoring, q, answer) && ShowsFirst(docs, scoring, q, answer, k, hits) && i < |hits|
    requires Found(LexicalScores(docs, scoring, q), DenseScores(docs, scoring, q), id)
    requires forall j :: 0 <= j < |hits| ==> answer[j].id != id
    ensures PlacedLeq(answer[i], PlaceOf(LexicalScores(docs, scoring, q), DenseScores(docs, scoring, q), id))
    ensures forall j :: i < j < |hits| ==> PlacedLeq(answer[i], answer[j])
  {
    var p := PlaceOf(LexicalScores(docs, scoring, q), DenseScores(docs, scoring, q), id);
    var j :| 0 <= j < |answer| && answer[j] == p;
  }

  /** The hits descend: by fused score, then by lexical score, then by id. */
  lemma HitsDescend(docs: Docs, scoring: Scoring, q: Query, k: int, hits: seq<SearchHit>, answer: seq<Placed>, i: nat,
                    j: nat)
    requires IsAnswer(docs, scoring, q, answer) && ShowsFirst(docs, scoring, q, answer, k, hits) && i < j < |hits|
    ensures || hits[i].score > hits[j].score
            || (hits[i].score == hits[j].score && hits[i].lexical > hits[j].lexical)
            || (hits[i].score == hits[j].score && hits[i].lexical == hits[j].lexical
                && answer[i].id != answer[j].id && StringLeq(answer[i].id, answer[j].id))
  {
    assert answer[i] in answer && answer[j] in answer && PlacedLeq(answer[i], answer[j]) && answer[i] != answer[j];
    assert Shows(docs, scoring, q, hits[i], answer[i].id) && Shows(docs, scoring, q, hits[j], answer[j].id);
  }

  /** The answer depends on nothing but the set of documents and the query: any two backends that
      store the same documents, whatever their histories, answer alike. */
  lemma AnswerIsDetermined(docs: Docs, scoring: Scoring, q: Query, a: seq<Placed>, b: seq<Placed>)
    requires IsAnswer(docs, scoring, q, a) && IsAnswer(docs, scoring, q, b)
    ensures a == b
  {
    FusedOrderUnique(LexicalScores(docs, scoring, q), DenseScores(docs, scoring, q), a, b);
  }

  /** Every answered chunk is a stored document of a service in scope. */
  lemma AnswerStaysInScope(docs: Docs, scoring: Scoring, q: Query, answer: seq<Placed>, i: nat)
    requires IsAnswer(docs, scoring, q, answer) && i < |answer|
    ensures answer[i].id in docs
    ensures q.services.Some? ==> docs[answer[i].id].chunk.service in q.services.value
  {
    assert answer[i] in answer;
  }

  /** And every such document that matches, in words or in meaning, is answered. */
  lemma MatchesAreAnswered(docs: Docs, scoring: Scoring, q: Query, answer: seq<Placed>, id: string)
    requires IsAnswer(docs, scoring, q, answer) && id in docs
    requires q.services.None? || docs[id].chunk.service in q.services.value
    requires || scoring.Lexical(q.terms, docs[id], FrequencyTable(docs), |docs|, SumLengths(docs)) > 0.0
             || scoring.Dense(q.vector, docs[id]) > 0.0
    ensures exists p <- answer :: p.id == id
  {
    var lexical, dense := LexicalScores(docs, scoring, q), DenseScores(docs, scoring, q);
    assert Found(lexical, dense, id);
    assert PlaceOf(lexical, dense, id) in answer;
  }

  /** The lexical score is taken against the mean length of the documents; nothing to compare scores nothing. */
  lemma LexicalIsAgainstMean(scoring: Scoring, query: seq<string>, doc: Doc, df: map<string, int>, n: nat, total: int,
                             mean: real)
    requires n > 0 && total > 0 && mean * n as real == total as real
    ensures scoring.Lexical(query, doc, df, n, total)
         == if |query| > 0 && doc.length > 0 then scoring.bm25(query, doc.tokens, doc.length, df, n, mean) else 0.0
  {
    assert total as real / n as real == mean;
    assert mean != 0.0;
  }

  /** Without an embedding on either side there is no similarity. */
  lemma DenseNeedsBoth(scoring: Scoring, query: Option<Vector>, doc: Doc)
    ensures query.None? || doc.vector.None? || doc.vector == Some([]) ==> scoring.Dense(query, doc) == 0.0
    ensures query.Some? && doc.vector.Some? && |doc.vector.value| > 0 ==>
              scoring.Dense(query, doc) == scoring.cosine(query.value, doc.vector.value)
  {}

  lemma AnswerIsStored(docs: Docs, scoring: Scoring, q: Query, answer: seq<Placed>)
    requires IsAnswer(docs, scoring, q, answer)
    ensures AllStored(answer, docs)
  {
    forall i: nat | i < |answer| ensures answer[i].id in docs {
      AnswerStaysInScope(docs, scoring, q, answer, i);
    }
  }

  class InMemorySearchBackend {
    const analyzer: Analyzer
    const scoring: Scoring
    var docs: Docs
    var df: map<string, int>
    var totalLength: int

    /** The running statistics are exactly those recomputed from the stored documents. */
    ghost predicate Valid()
      reads this
    {
      && Counts(df, docs)
      && totalLength == SumLengths(docs)
    }

    constructor (analyzer: Analyzer, scoring: Scoring)
      ensures Valid() && docs == map[] && this.analyzer == analyzer && this.scoring == scoring
    {
      this.analyzer, this.scoring := analyzer, scoring;
      docs, df, totalLength := map[], map[], 0;
    }

    method Index(chunks: seq<Chunk>)
      requires Valid()
      modifies this
      ensures Valid() && docs == analyzer.Indexed(old(docs), chunks)
    {
      for i := 0 to |chunks|
        invariant Valid()
        invariant analyzer.Indexed(docs, chunks[i..]) == analyzer.Indexed(old(docs), chunks)
      {
        ghost var before := docs;
        var doc := analyzer.DocOf(chunks[i]);
        if chunks[i].chunkId in docs {
          Remove(chunks[i].chunkId);
        }
        Add(chunks[i].chunkId, doc);
        assert docs == before[chunks[i].chunkId := doc];
        assert chunks[i..][1..] == chunks[i + 1..];
      }
    }

    method Add(id: string, doc: Doc)
      requires Valid() && id !in docs
      modifies this
      ensures Valid() && docs == old(docs)[id := doc]
    {
      docs := docs[id := doc];
      totalLength := totalLength + doc.length;
      df := CountUp(df, Terms(doc.tokens));
      assert docs - {id} == old(docs);
      SumLengthsSplit(docs, id);
      forall t {
        HoldingWithout(docs, id, t);
      }
    }

    method Remove(id: string)
      requires Valid() && id in docs
      modifies this
      ensures Valid() && docs == old(docs) - {id}
    {
      var doc := docs[id];
      SumLengthsSplit(docs, id);
      forall t ensures t in doc.tokens ==> t in df {
        assert Count(df, t) == |Holding(docs, t)|;
        HoldingWithout(docs, id, t);
      }
      docs := docs - {id};
      totalLength := totalLength - doc.length;
      df := CountDown(df, Terms(doc.tokens));
      forall t ensures Count(df, t) == |Holding(docs, t)| {
        HoldingWithout(old(docs), id, t);
        assert Count(old(df), t) == |Holding(old(docs), t)|;
      }
    }

    method RemoveAll(ids: set<string>)
      requires Valid() && ids <= docs.Keys
      modifies this
      ensures Valid() && docs == old(docs) - ids
    {
      var left := ids;
      while left != {}
        invariant Valid() && left <= ids <= old(docs).Keys && docs == old(docs) - (ids - left)
      {
        var id :| id in left;
        left := left - {id};
        Remove(id);
      }
    }

    method DeleteByFile(service: string, path: string) returns (count: nat)
      requires Valid()
      modifies this
      ensures Valid() && docs == old(docs) - OfFile(old(docs), service, path)
      ensures count == |OfFile(old(docs), service, path)|
    {
      var ids := set id | id in docs && docs[id].chunk.service == service && docs[id].chunk.path == path;
      assert ids == OfFile(docs, service, path);
      RemoveAll(ids);
      count := |ids|;
    }

    method DeleteService(service: string) returns (count: nat)
      requires Valid()
      modifies this
      ensures Valid() && docs == old(docs) - OfService(old(docs), service)
      ensures count == |OfService(old(docs), service)|
    {
      var ids := set id | id in docs && docs[id].chunk.service == service;
      assert ids == OfService(docs, service);
      RemoveAll(ids);
      count := |ids|;
    }

    function IndexedFiles(): (files: set<(string, string)>)
      reads this
      ensures forall service, path :: (service, path) in files <==> OfFile(docs, service, path) != {}
    {
      var files := set id | id in docs :: (docs[id].chunk.service, docs[id].chunk.path);
      assert forall service, path :: (service, path) in files <==> OfFile(docs, service, path) != {} by {
        forall service, path ensures (service, path) in files <==> OfFile(docs, service, path) != {} {
          if (service, path) in files {
            var id :| id in docs && (docs[id].chunk.service, docs[id].chunk.path) == (service, path);
            assert id in OfFile(docs, service, path);
          }
        }
      }
      files
    }

    /** The best k hits of the complete answer; nothing for k not positive. */
    method HybridSearch(queryText: string, queryVector: Option<Vector>, k: int, services: Option<set<string>>)
      returns (hits: seq<SearchHit>)
      requires Valid()
      ensures IsBest(docs, scoring, Query(analyzer.tokens(queryText), queryVector, services), k, hits)
    {
      var q := Query(analyzer.tokens(queryText), queryVector, services);
      var full := CompleteAnswer(q);
      AnswerIsStored(docs, scoring, q, full);
      hits := HitsOf(docs, scoring, q, Best(full, k));
      FirstAreShown(docs, scoring, q, full, k);
    }

    /** Everything either half finds, fused and ordered. */
    method CompleteAnswer(q: Query) returns (full: seq<Placed>)
      requires Valid()
      ensures IsAnswer(docs, scoring, q, full)
    {
      var lexical: Scores := map id | id in docs && InScope(docs[id], q.services)
        :: scoring.Lexical(q.terms, docs[id], df, |docs|, totalLength);
      var dense: Scores := map id | id in docs && InScope(docs[id], q.services) :: scoring.Dense(q.vector, docs[id]);
      CountsIsFrequencyTable(df, docs);
      assert lexical == LexicalScores(docs, scoring, q);
      if q.vector.None? {
        dense := map[];
      }
      assert dense == DenseScores(docs, scoring, q);
      var lexicalRanking := RankedIds(lexical);
      var denseRanking := RankedIds(dense);
      var fused := Fuse(lexicalRanking, denseRanking, lexical, dense);
      var order := RankedIds(fused);
      var unsorted := seq(|order|, i requires 0 <= i < |order| =>
        Placed(Get(fused, order[i]), Get(lexical, order[i]), order[i]));
      PlacementIsFusedOrder(lexical, dense, fused, order, unsorted);
      full := Sort(unsorted, PlacedLeq);
    }
  }
}

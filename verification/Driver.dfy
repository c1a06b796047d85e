/** The tier-1 spend loop (`backend/summarise/driver.py`) with the router's accounting order
    (`backend/llm/router.py`): usage is charged to the pool before the reply is parsed. */
module Driver {
  import opened Domain
  import opened Persistence
  import opened Quota

  datatype SourceFile = SourceFile(service: string, path: string, content: string, declaredHash: Option<string>) {
    function Key(): FileKey { FileKey(service, path) }
  }

  /** Each (service, path) key once. */
  ghost predicate DistinctKeys(files: seq<SourceFile>) {
    forall i, j :: 0 <= i < j < |files| ==> files[i].Key() != files[j].Key()
  }

  lemma SameKeySameFile(files: seq<SourceFile>, f: SourceFile, h: SourceFile)
    requires DistinctKeys(files) && f in files && h in files && f.Key() == h.Key()
    ensures f == h
  {
    var i :| 0 <= i < |files| && files[i] == f;
    var j :| 0 <= j < |files| && files[j] == h;
    assert i < j ==> files[i].Key() != files[j].Key();
  }

  /** What a structured reply turns out to be once parsed. */
  datatype Body = NotJson | BadShape | Summary(text: string)

  /** One gateway call after retries: an answer with usage, a rejected request, a quota signal, or
      any other exception, which ends the worker. */
  datatype Reply =
    | Answer(tokens: nat, body: Body)
    | Rejected(kind: string)
    | Exhausted
    | Fault

  /** The gateway: a reply for each prompt and number of calls made so far. */
  type Gateway = (string, nat) -> Reply

  const PROMPT_OVERHEAD_TOKENS := 120

  function Max(a: int, b: int): int { if a < b then b else a }

  /** Three characters a token, rounded up. */
  function EstimatePromptTokens(prompt: string): nat { (|prompt| + 2) / 3 }

  datatype Settings = Settings(
    quota: QuotaConfig, periodStart: int, contentHash: string -> string, words: string -> nat,
    instructions: string, promptVersion: string, maxInputTokens: int)
  {
    function HashOf(file: SourceFile): string {
      if file.declaredHash.Some? && file.declaredHash.value != "" then file.declaredHash.value
      else contentHash(file.content)
    }

    function RenderTier1Prompt(file: SourceFile): string {
      instructions + "# file: " + file.path + "\n" + file.content
    }

    function Estimate(file: SourceFile): nat { Max(1, words(file.content)) + PROMPT_OVERHEAD_TOKENS + 40 }

    predicate Oversized(file: SourceFile) {
      0 < maxInputTokens < EstimatePromptTokens(RenderTier1Prompt(file))
    }

    predicate Approves(spent: int, cost: int, today: int)
      requires quota.Valid()
    {
      cost <= quota.Available(periodStart, spent, today)
    }

    /** The ledger shows this very content summarised at this prompt version. */
    predicate IsDone(rows: LedgerRows, file: SourceFile) {
      file.Key() in rows && rows[file.Key()].Matches(HashOf(file), promptVersion)
    }

    function DoneRow(file: SourceFile): LedgerRow { LedgerRow(HashOf(file), promptVersion, 1, Summarised) }

    function DeadRow(file: SourceFile): LedgerRow { LedgerRow(HashOf(file), promptVersion, 0, DeadLettered) }

    function RecordOf(file: SourceFile, text: string): SummaryRecord {
      SummaryRecord("file", text, HashOf(file), promptVersion)
    }
  }

  /** A content hash given with the file is taken, unless it is empty; else the content is hashed. */
  lemma DeclaredHashIsTaken(s: Settings, file: SourceFile)
    ensures file.declaredHash.Some? && |file.declaredHash.value| > 0 ==> Some(s.HashOf(file)) == file.declaredHash
    ensures file.declaredHash.None? || file.declaredHash.value == "" ==> s.HashOf(file) == s.contentHash(file.content)
  {}

  /** A call is reserved at 160 tokens and one for each word of the file, of which an empty file counts one. */
  lemma EstimateCountsWords(s: Settings, file: SourceFile)
    ensures s.Estimate(file) == if s.words(file.content) > 1 then 160 + s.words(file.content) else 161
  {}

  /** A prompt is too large when it has more than three characters for each token of the limit; 0 is no limit. */
  lemma OversizedByLength(s: Settings, file: SourceFile)
    ensures s.Oversized(file) <==> s.maxInputTokens > 0 && |s.RenderTier1Prompt(file)| > 3 * s.maxInputTokens
  {}

  /** Spending is approved exactly when it stays within what is unlocked. */
  lemma ApprovedWithinAllowance(s: Settings, spent: int, cost: int, today: int)
    requires s.quota.Valid() && cost > 0
    ensures s.Approves(spent, cost, today) <==> spent + cost <= s.quota.Allowance(s.periodStart, today)
  {}

  /** A prompt tells the file: its path, in one line, and its whole content. */
  lemma PromptTellsFile(s: Settings, f: SourceFile, h: SourceFile)
    requires '\n' !in f.path && '\n' !in h.path && s.RenderTier1Prompt(f) == s.RenderTier1Prompt(h)
    ensures f.path == h.path && f.content == h.content
  {
    var head := s.instructions + "# file: ";
    var a, b := f.path + "\n" + f.content, h.path + "\n" + h.content;
    assert s.RenderTier1Prompt(f) == head + a && s.RenderTier1Prompt(h) == head + b;
    assert a == (head + a)[|head|..] && b == (head + b)[|head|..];
    assert a[|f.path|] == '\n' && b[|h.path|] == '\n';
    assert forall i :: 0 <= i < |f.path| ==> a[i] == f.path[i];
    assert forall i :: 0 <= i < |h.path| ==> b[i] == h.path[i];
    assert |f.path| == |h.path|;
    assert f.path == a[..|f.path|] && h.path == b[..|h.path|];
    assert f.content == a[|f.path| + 1..] && h.content == b[|h.path| + 1..];
  }

  /** What the ledger shows of a file after a call, and that only the first makes it done. */
  lemma RowsTellOutcome(s: Settings, rows: LedgerRows, file: SourceFile)
    ensures s.IsDone(rows, file) <==>
              && file.Key() in rows && rows[file.Key()].status == Summarised
              && rows[file.Key()].contentHash == s.HashOf(file) && rows[file.Key()].promptVersion == s.promptVersion
    ensures s.IsDone(rows[file.Key() := s.DoneRow(file)], file) && s.DoneRow(file).tier == 1
    ensures !s.IsDone(rows[file.Key() := s.DeadRow(file)], file)
    ensures s.DeadRow(file).status == DeadLettered && s.DeadRow(file).tier == 0
    ensures s.DeadRow(file).contentHash == s.HashOf(file) && s.DeadRow(file).promptVersion == s.promptVersion
  {}

  function SummaryKeyOf(file: SourceFile): SummaryKey { SummaryKey(1, file.service + ":" + file.path) }

  /** Everything that survives a crash, and the number of gateway calls made. */
  datatype World = World(
    spent: int, rows: LedgerRows, summaries: SummaryRows, deadLetters: seq<DeadLetterEntry>, calls: nat)

  datatype Outcome = WasSummarised | WasSkipped | WasDeadLettered | WasHeld

  datatype ResultRow = ResultRow(file: FileKey, outcome: Outcome, tokens: nat)

  // ----- What the loop computes -----

  function Buried(s: Settings, w: World, file: SourceFile, kind: string): World {
    w.(deadLetters := w.deadLetters + [DeadLetterEntry(file.Key(), kind)], rows :=
        w.rows[file.Key() := s.DeadRow(file)])
  }

  function Stored(s: Settings, w: World, file: SourceFile, text: string): World {
    w.(summaries := w.summaries[SummaryKeyOf(file) := s.RecordOf(file, text)], rows :=
        w.rows[file.Key() := s.DoneRow(file)])
  }

  datatype One = One(world: World, outcome: Outcome, tokens: nat, fault: bool)

  function SummarisedOne(s: Settings, g: Gateway, w: World, file: SourceFile): One {
    if s.Oversized(file) then One(Buried(s, w, file, "oversized_file"), WasDeadLettered, 0, false)
    else
      var called := w.(calls := w.calls + 1);
      match g(s.RenderTier1Prompt(file), w.calls)
      case Rejected(kind) => One(Buried(s, called, file, kind), WasDeadLettered, 0, false)
      case Exhausted => One(called, WasHeld, 0, false)
      case Fault => One(called, WasHeld, 0, true)
      case Answer(tokens, body) =>
        var charged := called.(spent := w.spent + tokens);
        match body
        case NotJson => One(Buried(s, charged, file, "malformed_json"), WasDeadLettered, 0, false)
        case BadShape => One(Buried(s, charged, file, "schema_mismatch"), WasDeadLettered, tokens, false)
        case Summary(text) => One(Stored(s, charged, file, text), WasSummarised, tokens, false)
  }

  /** One pass of the loop body; `held` is the flag it leaves behind. */
  datatype Pass = Pass(world: World, row: ResultRow, held: bool, fault: bool)

  function Treated(s: Settings, g: Gateway, w: World, file: SourceFile, today: int, held: bool): Pass
    requires s.quota.Valid()
  {
    if held then Pass(w, ResultRow(file.Key(), WasHeld, 0), true, false)
    else if s.IsDone(w.rows, file) then Pass(w, ResultRow(file.Key(), WasSkipped, 0), false, false)
    else if !s.Approves(w.spent, s.Estimate(file), today) then Pass(w, ResultRow(file.Key(), WasHeld, 0), true, false)
    else
      var one := SummarisedOne(s, g, w, file);
      Pass(one.world, ResultRow(file.Key(), one.outcome, one.tokens), false, one.fault)
  }

  datatype Batch = Batch(world: World, rows: seq<ResultRow>, fault: bool)

  function SummarisedAll(s: Settings, g: Gateway, w: World, files: seq<SourceFile>, today: int, held: bool): Batch
    requires s.quota.Valid()
    decreases |files|
  {
    if files == [] then Batch(w, [], false)
    else
      var pass := Treated(s, g, w, files[0], today, held);
      if pass.fault then Batch(pass.world, [], true)
      else
        var rest := SummarisedAll(s, g, pass.world, files[1..], today, pass.held);
        rest.(rows := [pass.row] + rest.rows)
  }

  function TokensSpent(rows: seq<ResultRow>): nat {
    if rows == [] then 0 else rows[0].tokens + TokensSpent(rows[1..])
  }

  // ----- The loop over the live stores -----

  datatype Routed = Parsed(tokens: nat, body: Body) | ContentFailure(kind: string) | QuotaExhausted | Raised

  /** Usage charged for a reply. */
  function Charge(reply: Reply): nat { if reply.Answer? then reply.tokens else 0 }

  function Seen(reply: Reply): Routed {
    match reply
    case Answer(tokens, body) => if body.NotJson? then ContentFailure("malformed_json") else Parsed(tokens, body)
    case Rejected(kind) => ContentFailure(kind)
    case Exhausted => QuotaExhausted
    case Fault => Raised
  }

  class LLMRouter {
    const gateway: Gateway
    const pool: QuotaPool
    var calls: nat

    constructor (gateway: Gateway, pool: QuotaPool)
      ensures this.gateway == gateway && this.pool == pool && calls == 0
    {
      this.gateway, this.pool := gateway, pool;
      calls := 0;
    }

    /** Call the gateway, charge the pool, then parse. */
    method Route(prompt: string) returns (r: Routed)
      modifies this, pool
      ensures calls == old(calls) + 1
      ensures pool.spentIndexing == old(pool.spentIndexing) + Charge(gateway(prompt, old(calls)))
      ensures pool.spentServing == old(pool.spentServing) && pool.periodStart == old(pool.periodStart)
      ensures r == Seen(gateway(prompt, old(calls)))
    {
      var reply := gateway(prompt, calls);
      calls := calls + 1;
      match reply
      case Answer(tokens, body) =>
        pool.Record(tokens, true);
        r := if body.NotJson? then ContentFailure("malformed_json") else Parsed(tokens, body);
      case Rejected(kind) => r := ContentFailure(kind);
      case Exhausted => r := QuotaExhausted;
      case Fault => r := Raised;
    }
  }

  class SummariseActivities {
    const settings: Settings
    const pool: QuotaPool
    const router: LLMRouter
    const fileLedger: InMemoryFileLedger
    const deadLetter: InMemoryDeadLetter
    const summaries: InMemorySummaryStore

    constructor (settings: Settings, router: LLMRouter, fileLedger: InMemoryFileLedger,
                 deadLetter: InMemoryDeadLetter, summaries: InMemorySummaryStore)
      requires settings.quota.Valid() && router.pool.config == settings.quota
          && router.pool.periodStart == settings.periodStart
      ensures Valid() && this.settings == settings && this.router == router && this.fileLedger == fileLedger
      ensures this.deadLetter == deadLetter && this.summaries == summaries && pool == router.pool
    {
      this.settings, this.router, this.pool := settings, router, router.pool;
      this.fileLedger, this.deadLetter, this.summaries := fileLedger, deadLetter, summaries;
    }

    ghost predicate Valid()
      reads pool
    {
      && settings.quota.Valid() && router.pool == pool
      && pool.config == settings.quota && pool.periodStart == settings.periodStart
    }

    ghost function Now(): World
      reads pool, router, fileLedger, deadLetter, summaries
    {
      World(pool.spentIndexing, fileLedger.rows, summaries.rows, deadLetter.entries, router.calls)
    }

    /** Append the dead-letter row, then write the ledger row. */
    method DeadLetter(file: SourceFile, kind: string)
      requires Valid()
      modifies fileLedger, deadLetter
      ensures Now() == Buried(settings, old(Now()), file, kind)
    {
      deadLetter.Add(DeadLetterEntry(file.Key(), kind));
      fileLedger.Upsert(file.Key(), settings.DeadRow(file));
    }

    method SummariseOne(file: SourceFile) returns (outcome: Outcome, tokens: nat, fault: bool)
      requires Valid()
      modifies pool, router, fileLedger, deadLetter, summaries
      ensures Valid() && pool.spentServing == old(pool.spentServing)
      ensures One(Now(), outcome, tokens, fault) == SummarisedOne(settings, router.gateway, old(Now()), file)
    {
      if settings.Oversized(file) {
        DeadLetter(file, "oversized_file");
        return WasDeadLettered, 0, false;
      }
      var routed := router.Route(settings.RenderTier1Prompt(file));
      match routed
      case ContentFailure(kind) =>
        DeadLetter(file, kind);
        return WasDeadLettered, 0, false;
      case QuotaExhausted => return WasHeld, 0, false;
      case Raised => return WasHeld, 0, true;
      case Parsed(used, body) =>
        if body.Summary? {
          // Text first, row second: a crash between the two costs a call and no summary.
          summaries.Upsert(SummaryKeyOf(file), settings.RecordOf(file, body.text));
          fileLedger.Upsert(file.Key(), settings.DoneRow(file));
          return WasSummarised, used, false;
        } else {
          DeadLetter(file, "schema_mismatch");
          return WasDeadLettered, used, false;
        }
    }

    /** The loop body: skip, hold, spend or dead-letter one file. */
    method TreatFile(file: SourceFile, today: int, held: bool) returns (row: ResultRow, held': bool, fault: bool)
      requires Valid()
      modifies pool, router, fileLedger, deadLetter, summaries
      ensures Valid() && pool.spentServing == old(pool.spentServing)
      ensures Pass(Now(), row, held', fault) == Treated(settings, router.gateway, old(Now()), file, today, held)
    {
      row, held', fault := ResultRow(file.Key(), WasHeld, 0), held, false;
      if held {
        return;
      }
      var existing := fileLedger.Get(file.Key());
      if existing.Some? && existing.value.Matches(settings.HashOf(file), settings.promptVersion) {
        row := ResultRow(file.Key(), WasSkipped, 0);
        return;
      }
      var decision := pool.RequestIndexingBudget(settings.Estimate(file), today);
      if !decision.proceed {
        held' := true;
        return;
      }
      var outcome, tokens, failed := SummariseOne(file);
      row, fault := ResultRow(file.Key(), outcome, tokens), failed;
    }

    /** Treat each file in order; once indexing pauses, the rest are held. */
    method SummariseFiles(files: seq<SourceFile>, today: int) returns (rows: seq<ResultRow>, tokensSpent: nat,
                          fault: bool)
      requires Valid()
      modifies pool, router, fileLedger, deadLetter, summaries
      ensures Valid() && pool.spentServing == old(pool.spentServing)
      ensures var batch := SummarisedAll(settings, router.gateway, old(Now()), files, today, false);
              Now() == batch.world && fault == batch.fault
                  && (!fault ==> rows == batch.rows && tokensSpent == TokensSpent(rows))
    {
      rows, tokensSpent, fault := [], 0, false;
      var held := false;
      ghost var all := SummarisedAll(settings, router.gateway, Now(), files, today, false);
      assert [] + all.rows == all.rows;
      for i := 0 to |files|
        invariant Valid() && pool.spentServing == old(pool.spentServing)
        invariant tokensSpent == TokensSpent(rows)
        invariant Extends(all, rows, SummarisedAll(settings, router.gateway, Now(), files[i..], today, held))
      {
        assert files[i..][1..] == files[i + 1..];
        var row, held', failed := TreatFile(files[i], today, held);
        if failed {
          return rows, tokensSpent, true;
        }
        held := held';
        AppendTokens(rows, row);
        AppendRow(rows, row, SummarisedAll(settings, router.gateway, Now(), files[i + 1..], today, held).rows);
        rows := rows + [row];
        tokensSpent := tokensSpent + row.tokens;
      }
    }
  }

  /** A whole batch is the rows so far followed by what the rest yields. */
  ghost predicate Extends(all: Batch, rows: seq<ResultRow>, rest: Batch) {
    all.world == rest.world && all.fault == rest.fault && all.rows == rows + rest.rows
  }

  lemma AppendRow(rows: seq<ResultRow>, row: ResultRow, rest: seq<ResultRow>)
    ensures rows + ([row] + rest) == (rows + [row]) + rest
  {}

  lemma {:induction false} AppendTokens(rows: seq<ResultRow>, row: ResultRow)
    ensures TokensSpent(rows + [row]) == TokensSpent(rows) + row.tokens
  {
    if rows != [] {
      AppendTokens(rows[1..], row);
      assert (rows + [row])[1..] == rows[1..] + [row];
    }
  }

  /** Tokens of the calls of this batch whose answer was not JSON. */
  function Unreported(s: Settings, g: Gateway, w: World, files: seq<SourceFile>, today: int, held: bool): nat
    requires s.quota.Valid()
    decreases |files|
  {
    if files == [] then 0
    else
      var pass, f := Treated(s, g, w, files[0], today, held), files[0];
      var called := !held && !s.IsDone(w.rows, f) && s.Approves(w.spent, s.Estimate(f), today) && !s.Oversized(f);
      var reply := g(s.RenderTier1Prompt(f), w.calls);
      (if called && reply.Answer? && reply.body.NotJson? then reply.tokens else 0)
      + if pass.fault then 0 else Unreported(s, g, pass.world, files[1..], today, pass.held)
  }

  /** The report counts what the pool was charged less exactly the calls of the batch whose answer was not JSON;
      so it never counts too much, and is exact if and only if those calls cost nothing. */
  lemma {:induction false} ReportMissesOnlyNonJson(s: Settings, g: Gateway, w: World, files: seq<SourceFile>,
                                                   today: int, held: bool)
    requires s.quota.Valid()
    ensures var batch := SummarisedAll(s, g, w, files, today, held);
            var missed := Unreported(s, g, w, files, today, held);
            !batch.fault ==> TokensSpent(batch.rows) + missed == batch.world.spent - w.spent
    decreases |files|
  {
    if files != [] {
      var pass := Treated(s, g, w, files[0], today, held);
      if !pass.fault {
        ReportMissesOnlyNonJson(s, g, pass.world, files[1..], today, pass.held);
        var rest := SummarisedAll(s, g, pass.world, files[1..], today, pass.held);
        assert ([pass.row] + rest.rows)[1..] == rest.rows;
      }
    }
  }
}

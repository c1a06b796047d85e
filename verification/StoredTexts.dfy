/** Which text a tier-1 summary holds: the gateway's answer to that file's own call, after one batch and after every
    crashed and resumed run (`backend/summarise/driver.py`). */
module StoredTexts {
  import opened Persistence
  import opened Driver
  import opened PyramidCascade
  import opened CrashMachine
  import Workflow

  /** The key a file's summary is stored under. */
  function KeyOf(file: SourceFile): SummaryKey { SummaryKey(1, file.service + ":" + file.path) }

  ghost predicate DistinctSummaryKeys(files: seq<SourceFile>) {
    forall i, j :: 0 <= i < j < |files| ==> KeyOf(files[i]) != KeyOf(files[j])
  }

  /** Files of one service are told apart by their summary keys when they are by their paths. */
  lemma OneServiceApart(files: seq<SourceFile>, service: string)
    requires DistinctKeys(files) && forall i :: 0 <= i < |files| ==> files[i].service == service
    ensures DistinctSummaryKeys(files)
  {
    forall i, j | 0 <= i < j < |files| ensures KeyOf(files[i]) != KeyOf(files[j]) {
      assert files[i].Key() != files[j].Key();
      assert KeyOf(files[i]).key[|service| + 1..] == files[i].path;
      assert KeyOf(files[j]).key[|service| + 1..] == files[j].path;
    }
  }

  // ----- One batch -----

  /** How many calls were made before the i-th file. */
  function CallsBefore(s: Settings, g: Gateway, w: World, files: seq<SourceFile>, today: int, held: bool, i: nat): nat
    requires s.quota.Valid() && i <= |files|
  {
    SummarisedAll(s, g, w, files[..i], today, held).world.calls
  }

  lemma CallsBeforeRest(s: Settings, g: Gateway, w: World, files: seq<SourceFile>, today: int, held: bool, i: nat)
    requires s.quota.Valid() && 0 < i <= |files| && !Treated(s, g, w, files[0], today, held).fault
    ensures var pass := Treated(s, g, w, files[0], today, held);
            CallsBefore(s, g, w, files, today, held, i)
            == CallsBefore(s, g, pass.world, files[1..], today, pass.held, i - 1)
  {
    assert files[..i][0] == files[0] && files[..i][1..] == files[1..][..i - 1];
  }

  /** One pass stores the text answered to it, under its file's key, or stores nothing. */
  lemma PassStoresAnswer(s: Settings, g: Gateway, w: World, file: SourceFile, today: int, held: bool)
    requires s.quota.Valid()
    ensures var pass, reply := Treated(s, g, w, file, today, held), g(s.RenderTier1Prompt(file), w.calls);
            if pass.row.outcome.WasSummarised? then
              && reply.Answer? && reply.body.Summary? && pass.row.tokens == reply.tokens && !pass.fault
              && pass.world.summaries == w.summaries[KeyOf(file) :=
                  SummaryRecord("file", reply.body.text, s.HashOf(file),
                  s.promptVersion)]
            else pass.world.summaries == w.summaries
  {}

  lemma RowsOfRest(s: Settings, g: Gateway, w: World, files: seq<SourceFile>, today: int, held: bool)
    requires s.quota.Valid() && files != []
    ensures var pass := Treated(s, g, w, files[0], today, held);
            var rest := SummarisedAll(s, g, pass.world, files[1..], today, pass.held);
            var batch := SummarisedAll(s, g, w, files, today, held);
            if pass.fault then batch.rows == [] && batch.world == pass.world
            else batch.world == rest.world && |batch.rows| == |rest.rows| + 1 && batch.rows[0] == pass.row
                 && (forall i :: 0 <= i < |rest.rows| ==> batch.rows[i + 1] == rest.rows[i]) && |rest.rows| < |files|
    decreases |files|
  {
    var pass := Treated(s, g, w, files[0], today, held);
    RowsAreFew(s, g, pass.world, files[1..], today, pass.held);
    if !pass.fault {
      var rest := SummarisedAll(s, g, pass.world, files[1..], today, pass.held);
      assert SummarisedAll(s, g, w, files, today, held) == rest.(rows := [pass.row] + rest.rows);
      HeadThenRest(pass.row, rest.rows);
    }
  }

  lemma HeadThenRest(row: ResultRow, rows: seq<ResultRow>)
    ensures ([row] + rows)[0] == row && forall i :: 0 <= i < |rows| ==> ([row] + rows)[i + 1] == rows[i]
  {}

  lemma {:induction false} RowsAreFew(s: Settings, g: Gateway, w: World, files: seq<SourceFile>, today: int, held: bool)
    requires s.quota.Valid()
    ensures |SummarisedAll(s, g, w, files, today, held).rows| <= |files|
    decreases |files|
  {
    if files != [] {
      var pass := Treated(s, g, w, files[0], today, held);
      RowsAreFew(s, g, pass.world, files[1..], today, pass.held);
    }
  }

  /** A key under which no file was summarised holds what it held. */
  lemma {:induction false} OtherTextsStay(s: Settings, g: Gateway, w: World, files: seq<SourceFile>, today: int,
                                          held: bool, key: SummaryKey)
    requires s.quota.Valid()
    requires var rows := SummarisedAll(s, g, w, files, today, held).rows;
             forall i :: 0 <= i < |rows| && i < |files| && rows[i].outcome.WasSummarised? ==> KeyOf(files[i]) != key
    ensures SameSummary(w.summaries, SummarisedAll(s, g, w, files, today, held).world.summaries, key)
    decreases |files|
  {
    if files != [] {
      var pass := Treated(s, g, w, files[0], today, held);
      PassStoresAnswer(s, g, w, files[0], today, held);
      RowsOfRest(s, g, w, files, today, held);
      if !pass.fault {
        var rest, rows := SummarisedAll(s, g, pass.world, files[1..], today, pass.held),
            SummarisedAll(s, g, w, files, today, held).rows;
        forall i | 0 <= i < |rest.rows| && i < |files| - 1 && rest.rows[i].outcome.WasSummarised?
          ensures KeyOf(files[1..][i]) != key
        {
          assert rows[i + 1] == rest.rows[i] && files[1..][i] == files[i + 1];
        }
        OtherTextsStay(s, g, pass.world, files[1..], today, pass.held, key);
      }
    }
  }

  /** A file reported as summarised has stored, under its key, exactly the text of the gateway's answer to its own
      call, which is the first after those of the files before it. */
  lemma {:induction false} BatchStoresAnswers(s: Settings, g: Gateway, w: World, files: seq<SourceFile>, today: int,
                                              held: bool, i: nat)
    requires s.quota.Valid() && DistinctSummaryKeys(files) && i < |files|
    requires var rows := SummarisedAll(s, g, w, files, today, held).rows; i < |rows| && rows[i].outcome.WasSummarised?
    ensures var batch := SummarisedAll(s, g, w, files, today, held);
            var reply := g(s.RenderTier1Prompt(files[i]), CallsBefore(s, g, w, files, today, held, i));
            && reply.Answer? && reply.body.Summary? && batch.rows[i].tokens == reply.tokens
            && KeyOf(files[i]) in batch.world.summaries
            && batch.world.summaries[KeyOf(files[i])]
               == SummaryRecord("file", reply.body.text, s.HashOf(files[i]), s.promptVersion)
    decreases |files|
  {
    var pass := Treated(s, g, w, files[0], today, held);
    PassStoresAnswer(s, g, w, files[0], today, held);
    RowsOfRest(s, g, w, files, today, held);
    var rest := SummarisedAll(s, g, pass.world, files[1..], today, pass.held);
    if i == 0 {
      assert files[..0] == [];
      forall j | 0 <= j < |rest.rows| && j < |files| - 1 && rest.rows[j].outcome.WasSummarised?
        ensures KeyOf(files[1..][j]) != KeyOf(files[0])
      {
        assert files[1..][j] == files[j + 1];
      }
      OtherTextsStay(s, g, pass.world, files[1..], today, pass.held, KeyOf(files[0]));
    } else {
      assert rest.rows[i - 1] == SummarisedAll(s, g, w, files, today, held).rows[i] && files[1..][i - 1] == files[i];
      BatchStoresAnswers(s, g, pass.world, files[1..], today, pass.held, i - 1);
      CallsBeforeRest(s, g, w, files, today, held, i);
    }
  }

  // ----- Every run -----

  /** The machine is at the call for a file, and is answered this summary. */
  ghost predicate Answers(c: Config, m: Machine, a: Action, key: SummaryKey, record: SummaryRecord) {
    && WellPlaced(c, m) && m.phase.Calling? && a.Go? && a.reply.Answer? && a.reply.body.Summary?
    && var file := CurrentFiles(c, m)[m.phase.k];
       key == KeyOf(file)
       && record == SummaryRecord("file", a.reply.body.text, c.settings.HashOf(file), c.settings.promptVersion)
  }

  /** An answer charged for and not yet stored. */
  ghost predicate Unstored(c: Config, m: Machine, key: SummaryKey, record: SummaryRecord) {
    && WellPlaced(c, m) && m.phase.Charged? && m.phase.body.Summary?
    && var file := CurrentFiles(c, m)[m.phase.k];
       key == KeyOf(file)
       && record == SummaryRecord("file", m.phase.body.text, c.settings.HashOf(file), c.settings.promptVersion)
  }

  ghost predicate Stored(m: Machine, key: SummaryKey, record: SummaryRecord) {
    key in m.world.summaries && m.world.summaries[key] == record
  }

  /** One step stores nothing but the answer in flight, and what comes in flight is the answer given now. */
  lemma StepStoresAnswer(c: Config, m: Machine, a: Action, key: SummaryKey, record: SummaryRecord)
    requires c.settings.quota.Valid() && WellPlaced(c, m)
    ensures Stored(Step(c, m, a), key, record) ==> Stored(m, key, record) || Unstored(c, m, key, record)
    ensures Unstored(c, Step(c, m, a), key, record) ==> Answers(c, m, a, key, record) || Unstored(c, m, key, record)
  {}

  ghost predicate AnsweredInRun(c: Config, m: Machine, actions: seq<Action>, key: SummaryKey, record: SummaryRecord)
    requires c.settings.quota.Valid() && WellPlaced(c, m)
  {
    exists i :: 0 <= i < |actions| && Answers(c, Execute(c, m, actions[..i]), actions[i], key, record)
  }

  /** Over every run with any crashes: a stored summary was there at the start, or is the answer given, at some step of
      the run, to the call for the very file it is stored under. */
  lemma {:induction false} RunStoresAnswers(c: Config, m: Machine, actions: seq<Action>, key: SummaryKey,
                                            record: SummaryRecord)
    requires c.settings.quota.Valid() && WellPlaced(c, m)
    ensures Stored(Execute(c, m, actions), key, record) || Unstored(c, Execute(c, m, actions), key, record) ==>
              Stored(m, key, record) || Unstored(c, m, key, record) || AnsweredInRun(c, m, actions, key, record)
    decreases |actions|
  {
    if actions != [] {
      var a, rest := actions[0], actions[1..];
      StepWellPlaced(c, m, a);
      var next := Step(c, m, a);
      StepStoresAnswer(c, m, a, key, record);
      RunStoresAnswers(c, next, rest, key, record);
      if Answers(c, m, a, key, record) {
        assert Execute(c, m, actions[..0]) == m;
      } else if AnsweredInRun(c, next, rest, key, record) {
        var i :| 0 <= i < |rest| && Answers(c, Execute(c, next, rest[..i]), rest[i], key, record);
        assert actions[..i + 1][0] == a && actions[..i + 1][1..] == rest[..i];
        assert Execute(c, m, actions[..i + 1]) == Execute(c, next, rest[..i]);
      }
    }
  }

  /** From a start: nothing is in flight. */
  lemma StoredWasAnswered(c: Config, w: World, checkpoint: Workflow.State, today: int, actions: seq<Action>,
                          key: SummaryKey)
    requires c.settings.quota.Valid() && key in Execute(c, Start(w, checkpoint, today), actions).world.summaries
    ensures var n := Execute(c, Start(w, checkpoint, today), actions);
            || (key in w.summaries && w.summaries[key] == n.world.summaries[key])
            || AnsweredInRun(c, Start(w, checkpoint, today), actions, key, n.world.summaries[key])
  {
    var m := Start(w, checkpoint, today);
    RunStoresAnswers(c, m, actions, key, Execute(c, m, actions).world.summaries[key]);
  }

  /** No step removes a summary. */
  lemma {:induction false} SummariesStay(c: Config, m: Machine, actions: seq<Action>)
    requires c.settings.quota.Valid() && WellPlaced(c, m)
    ensures m.world.summaries.Keys <= Execute(c, m, actions).world.summaries.Keys
    decreases |actions|
  {
    if actions != [] {
      StepWellPlaced(c, m, actions[0]);
      SummariesStay(c, Step(c, m, actions[0]), actions[1..]);
    }
  }
}

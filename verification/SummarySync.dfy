/** The ledger and the summary store agree: a file shown as done has a stored summary of its content. Every
    indexing run keeps this, whatever crashes it has (`backend/summarise/driver.py`). */
module SummarySync {
  import opened Driver
  import opened Workflow
  import opened CrashMachine
  import opened CrashSafety
  import opened EditCascade
  import TieredMachine

  // ----- Every crashed and resumed run keeps it -----

  /** Files are told apart by the key their summary is stored under. */
  ghost predicate DistinctSummaries(catalogue: seq<SourceFile>) {
    forall f, h | f in catalogue && h in catalogue && SummaryKeyOf(f) == SummaryKeyOf(h) :: f == h
  }

  ghost predicate Synced(c: Config, catalogue: seq<SourceFile>, m: Machine)
    requires WellPlaced(c, m)
  {
    && InSync(c.settings, m.world, catalogue)
    && (m.phase.Saved? ==> HasSummary(c.settings, m.world.summaries, CurrentFiles(c, m)[m.phase.k]))
  }

  /** Storing the summary of a file's content keeps every file in sync exactly when no file with another content is
      done under the same summary key. */
  lemma StoringKeepsSyncIff(s: Settings, catalogue: seq<SourceFile>, w: World, file: SourceFile, text: string)
    requires InSync(s, w, catalogue)
    ensures var after := w.(summaries := w.summaries[SummaryKeyOf(file) := s.RecordOf(file, text)]);
            && HasSummary(s, after.summaries, file)
            && (InSync(s, after, catalogue) <==>
                forall f <- catalogue | s.IsDone(w.rows, f) && SummaryKeyOf(f) == SummaryKeyOf(file) ::
                  s.HashOf(f) == s.HashOf(file))
  {
    var after := w.(summaries := w.summaries[SummaryKeyOf(file) := s.RecordOf(file, text)]);
    forall f <- catalogue | s.IsDone(w.rows, f)
      ensures HasSummary(s, after.summaries, f) <==>
          (SummaryKeyOf(f) == SummaryKeyOf(file) ==> s.HashOf(f) == s.HashOf(file))
    {
      assert HasSummary(s, w.summaries, f);
    }
  }

  /** Recording a file whose summary is stored keeps it, and so does burying any file. */
  lemma RecordingKeepsSync(s: Settings, catalogue: seq<SourceFile>, w: World, file: SourceFile)
    requires DistinctKeys(catalogue) && file in catalogue && InSync(s, w, catalogue)
    ensures HasSummary(s, w.summaries, file) ==> InSync(s, w.(rows := w.rows[file.Key() := s.DoneRow(file)]), catalogue)
    ensures InSync(s, w.(rows := w.rows[file.Key() := s.DeadRow(file)]), catalogue)
  {
    forall f <- catalogue | f.Key() == file.Key() ensures f == file {
      SameKeySameFile(catalogue, f, file);
    }
  }

  lemma AdvanceKeepsSync(c: Config, catalogue: seq<SourceFile>, m: Machine, reply: Reply)
    requires c.settings.quota.Valid() && WellPlaced(c, m) && Catalogued(c, catalogue) && DistinctSummaries(catalogue)
    requires Synced(c, catalogue, m) && WellPlaced(c, Advanced(c, m, reply))
    ensures Synced(c, catalogue, Advanced(c, m, reply))
  {
    CurrentInCatalogue(c, catalogue, m);
    if InGap(m.phase) {
      var file := CurrentFiles(c, m)[m.phase.k];
      RecordingKeepsSync(c.settings, catalogue, m.world, file);
      if m.phase.Charged? && m.phase.body.Summary? {
        StoringKeepsSyncIff(c.settings, catalogue, m.world, file, m.phase.body.text);
      }
    } else if m.phase.Calling? {
      CallStep(c, m, reply);
    } else {
      QuietStep(c, m, reply);
    }
  }

  /** Over every run with any crashes, a file the ledger shows as done has a stored summary of its content. */
  lemma {:induction false} EveryRunKeepsSync(c: Config, catalogue: seq<SourceFile>, m: Machine, actions: seq<Action>)
    requires c.settings.quota.Valid() && WellPlaced(c, m) && Catalogued(c, catalogue) && DistinctSummaries(catalogue)
    requires Synced(c, catalogue, m)
    ensures Synced(c, catalogue, Execute(c, m, actions))
    decreases |actions|
  {
    if actions != [] {
      StepWellPlaced(c, m, actions[0]);
      if actions[0].Go? {
        AdvanceKeepsSync(c, catalogue, m, actions[0].reply);
      }
      EveryRunKeepsSync(c, catalogue, Step(c, m, actions[0]), actions[1..]);
    }
  }

  /** The production activity's unit steps touch no file's row and no file's summary. */
  lemma UnitStepKeepsSync(c: TieredMachine.Setup, catalogue: seq<SourceFile>, x: TieredMachine.Tiered, reply: Reply)
    requires c.Valid() && TieredMachine.Placed(c, x) && !x.upper.Below? && TieredMachine.UpperKeys(x.upper)
    requires Synced(c.base, catalogue, x.m)
    ensures var y := TieredMachine.UnitStep(c, x, reply);
            WellPlaced(c.base, y.m) ==> Synced(c.base, catalogue, y.m)
  {
    var y := TieredMachine.UnitStep(c, x, reply);
    assert y.m.world.rows == x.m.world.rows;
    forall f <- catalogue
      ensures HasSummary(c.base.settings, y.m.world.summaries, f) <==>
          HasSummary(c.base.settings, x.m.world.summaries, f)
    {
      assert SummaryKeyOf(f).tier == 1;
    }
  }

  /** The same over every run of the production activity. */
  lemma {:induction false} EveryTieredRunKeepsSync(c: TieredMachine.Setup, catalogue: seq<SourceFile>, before: int,
                                                   x: TieredMachine.Tiered, actions: seq<Action>)
    requires c.Valid() && TieredMachine.Placed(c, x) && Catalogued(c.base, catalogue) && DistinctSummaries(catalogue)
    requires TieredMachine.Accounted(c, catalogue, before, x) && Synced(c.base, catalogue, x.m)
    ensures Synced(c.base, catalogue, TieredMachine.Execute(c, x, actions).m)
    decreases |actions|
  {
    if actions != [] {
      var a := actions[0];
      TieredMachine.StepKeepsAccount(c, catalogue, before, x, a);
      if a.Go? && !x.upper.Below? {
        UnitStepKeepsSync(c, catalogue, x, a.reply);
      } else if a.Go? && !TieredMachine.FilesTreated(c.base, x.m) {
        AdvanceKeepsSync(c.base, catalogue, x.m, a.reply);
      }
      EveryTieredRunKeepsSync(c, catalogue, before, TieredMachine.Step(c, x, a), actions[1..]);
    }
  }

  /** From a start in sync, whatever is crashed and resumed, the production activity leaves ledger and summaries so. */
  lemma InSyncFromStart(c: TieredMachine.Setup, catalogue: seq<SourceFile>, w: World, checkpoint: State, today: int,
                        actions: seq<Action>)
    requires c.Valid() && Catalogued(c.base, catalogue) && DistinctSummaries(catalogue)
    requires InSync(c.base.settings, w, catalogue)
    ensures var x := TieredMachine.Execute(c, TieredMachine.Begin(w, checkpoint, today), actions);
            InSync(c.base.settings, x.m.world, catalogue)
  {
    TieredMachine.BeginIsAccounted(c, catalogue, w, checkpoint, today);
    EveryTieredRunKeepsSync(c, catalogue, w.spent, TieredMachine.Begin(w, checkpoint, today), actions);
  }
}

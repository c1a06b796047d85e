/** Service atomicity over every run: no file of a completed service is left held. */
module ServiceAtomicity {
  import opened Persistence
  import opened Driver
  import opened Workflow
  import opened CrashMachine
  import opened CrashSafety

  /** The ledger shows the file's current content as summarised or, in runs that are not `clean`,
      as dead-lettered. */
  predicate Settled(s: Settings, rows: LedgerRows, f: SourceFile, clean: bool) {
    && f.Key() in rows && rows[f.Key()].contentHash == s.HashOf(f) && rows[f.Key()].promptVersion == s.promptVersion
    && (rows[f.Key()].status.Summarised? || (!clean && rows[f.Key()].status.DeadLettered?))
  }

  ghost predicate AllSettled(s: Settings, rows: LedgerRows, files: seq<SourceFile>, clean: bool) {
    forall f <- files :: Settled(s, rows, f, clean)
  }

  ghost predicate ServicesSettled(c: Config, rows: LedgerRows, services: seq<string>, clean: bool) {
    forall service <- services :: AllSettled(c.settings, rows, FilesOf(c.estate, service), clean)
  }

  /** The gateway never reports exhausted quota and never charges more than the estimate; in a clean
      run every answer also parses. Faults are always possible. */
  ghost predicate WithinEstimate(c: Config, m: Machine, a: Action, clean: bool)
    requires WellPlaced(c, m)
  {
    a.Go? && m.phase.Calling? ==>
      && !a.reply.Exhausted?
      && (a.reply.Answer? ==> a.reply.tokens <= c.settings.Estimate(CurrentFiles(c, m)[m.phase.k]))
      && (clean ==> a.reply.Fault? || (a.reply.Answer? && a.reply.body.Summary?))
  }

  ghost predicate RunWithinEstimate(c: Config, m: Machine, actions: seq<Action>, clean: bool)
    requires c.settings.quota.Valid() && WellPlaced(c, m)
    decreases |actions|
  {
    actions == [] || (WithinEstimate(c, m, actions[0], clean) && (StepWellPlaced(c, m, actions[0]);
                      RunWithinEstimate(c, Step(c, m, actions[0]), actions[1..], clean)))
  }

  /** A catalogue for the estate; in a clean run none of its prompts is oversized. */
  ghost predicate Admissible(c: Config, catalogue: seq<SourceFile>, clean: bool) {
    Catalogued(c, catalogue) && (clean ==> forall f <- catalogue :: !c.settings.Oversized(f))
  }

  function Budget(c: Config, m: Machine): int
    requires c.settings.quota.Valid()
  {
    c.settings.quota.Allowance(c.settings.periodStart, m.today) - m.world.spent
  }

  /** The approved service can still afford every file it has not treated, and nothing is held. */
  ghost predicate Reserved(c: Config, m: Machine, clean: bool)
    requires c.settings.quota.Valid() && WellPlaced(c, m)
  {
    InService(m.phase) ==>
      var files := CurrentFiles(c, m);
      && AllSettled(c.settings, m.world.rows, files[..m.phase.k], clean)
      && (m.phase.Working? ==> !m.phase.held)
      && (clean ==> !m.phase.Failed? && !m.phase.LedgerDue? && (m.phase.Charged? ==> m.phase.body.Summary?))
      && SumEstimates(c.settings, files[if InGap(m.phase) then m.phase.k + 1 else m.phase.k..]) <= Budget(c, m)
  }

  ghost predicate Atomic(c: Config, m: Machine, clean: bool)
    requires c.settings.quota.Valid() && WellPlaced(c, m)
  {
    && Reserved(c, m, clean)
    && ServicesSettled(c, m.world.rows, m.mem.completed, clean)
    && ServicesSettled(c, m.world.rows, m.checkpoint.completed, clean)
  }

  /** Writing the row of one file leaves every settled file of the catalogue settled. */
  lemma WriteKeepsSettled(c: Config, catalogue: seq<SourceFile>, rows: LedgerRows, file: SourceFile, row: LedgerRow,
                          clean: bool)
    requires Catalogued(c, catalogue) && file in catalogue
    requires row == c.settings.DoneRow(file) || (!clean && row == c.settings.DeadRow(file))
    ensures forall f <- catalogue | Settled(c.settings, rows, f, clean) ::
        Settled(c.settings, rows[file.Key() := row], f, clean)
    ensures forall services | ServicesSettled(c, rows, services, clean) ::
        ServicesSettled(c, rows[file.Key() := row], services, clean)
    ensures Settled(c.settings, rows[file.Key() := row], file, clean)
  {
    forall f <- catalogue | Settled(c.settings, rows, f, clean) ensures Settled(c.settings, rows[file.Key() := row], f,
        clean) {
      if f.Key() == file.Key() {
        SameKeySameFile(catalogue, f, file);
      }
    }
    forall services, service <- services | ServicesSettled(c, rows, services, clean)
      ensures AllSettled(c.settings, rows[file.Key() := row], FilesOf(c.estate, service), clean)
    {
      assert AllSettled(c.settings, rows, FilesOf(c.estate, service), clean);
      forall f <- FilesOf(c.estate, service) ensures f in catalogue {
        assert service in c.estate && f in c.estate[service];
      }
    }
  }

  lemma SuffixEstimate(s: Settings, files: seq<SourceFile>, k: nat)
    requires k < |files|
    ensures SumEstimates(s, files[k..]) == s.Estimate(files[k]) + SumEstimates(s, files[k + 1..])
    ensures s.Estimate(files[k]) > 0
  {
    assert files[k..][0] == files[k] && files[k..][1..] == files[k + 1..];
  }

  lemma OneMoreTreated(s: Settings, rows: LedgerRows, files: seq<SourceFile>, k: nat, clean: bool)
    requires k < |files| && AllSettled(s, rows, files[..k], clean) && Settled(s, rows, files[k], clean)
    ensures AllSettled(s, rows, files[..k + 1], clean)
  {
    assert files[..k + 1] == files[..k] + [files[k]];
  }

  lemma ReadyKeepsAtomic(c: Config, m: Machine, reply: Reply, clean: bool)
    requires c.settings.quota.Valid() && WellPlaced(c, m) && m.phase.Ready? && Atomic(c, m, clean)
    ensures WellPlaced(c, Advanced(c, m, reply)) && Atomic(c, Advanced(c, m, reply), clean)
  {
    var files := CurrentFiles(c, m);
    assert files[0..] == files && files[..0] == [];
  }

  lemma WorkingKeepsAtomic(c: Config, catalogue: seq<SourceFile>, m: Machine, reply: Reply, clean: bool)
    requires c.settings.quota.Valid() && WellPlaced(c, m) && m.phase.Working? && Atomic(c, m, clean)
    requires Admissible(c, catalogue, clean)
    ensures WellPlaced(c, Advanced(c, m, reply)) && Atomic(c, Advanced(c, m, reply), clean)
  {
    var files, k := CurrentFiles(c, m), m.phase.k;
    if k == |files| {
      assert files[..k] == files;
    } else {
      SuffixEstimate(c.settings, files, k);
      assert m.mem.pending[0] in c.estate && files[k] in c.estate[m.mem.pending[0]];
      if c.settings.IsDone(m.world.rows, files[k]) {
        OneMoreTreated(c.settings, m.world.rows, files, k, clean);
      }
    }
  }

  lemma CallingKeepsAtomic(c: Config, m: Machine, reply: Reply, clean: bool)
    requires c.settings.quota.Valid() && WellPlaced(c, m) && m.phase.Calling? && Atomic(c, m, clean)
    requires WithinEstimate(c, m, Go(reply), clean)
    ensures WellPlaced(c, Advanced(c, m, reply)) && Atomic(c, Advanced(c, m, reply), clean)
  {
    SuffixEstimate(c.settings, CurrentFiles(c, m), m.phase.k);
  }

  lemma GapKeepsAtomic(c: Config, catalogue: seq<SourceFile>, m: Machine, reply: Reply, clean: bool)
    requires c.settings.quota.Valid() && WellPlaced(c, m) && InGap(m.phase) && Atomic(c, m, clean)
    requires Admissible(c, catalogue, clean)
    ensures WellPlaced(c, Advanced(c, m, reply)) && Atomic(c, Advanced(c, m, reply), clean)
  {
    var files, k := CurrentFiles(c, m), m.phase.k;
    var n := Advanced(c, m, reply);
    StepWellPlaced(c, m, Go(reply));
    CurrentInCatalogue(c, catalogue, m);
    GapAdvances(c, m, reply);
    if !InGap(n.phase) {
      WriteKeepsSettled(c, catalogue, m.world.rows, files[k], n.world.rows[files[k].Key()], clean);
      forall f <- files ensures f in catalogue {
        assert m.mem.pending[0] in c.estate && f in c.estate[m.mem.pending[0]];
      }
      OneMoreTreated(c.settings, n.world.rows, files, k, clean);
    }
  }

  /** A gap step stays in the gap with the ledger untouched, or writes the file's row and moves on. */
  lemma GapAdvances(c: Config, m: Machine, reply: Reply)
    requires c.settings.quota.Valid() && WellPlaced(c, m) && InGap(m.phase)
    ensures var n, file, s := Advanced(c, m, reply), CurrentFiles(c, m)[m.phase.k], c.settings;
            && n.world.spent == m.world.spent && n.today == m.today && n.mem == m.mem && n.checkpoint == m.checkpoint
            && (InGap(n.phase) ==> n.phase.k == m.phase.k && n.world.rows == m.world.rows)
            && (m.phase.Charged? && m.phase.body.Summary? ==> n.phase.Saved?)
            && (m.phase.Saved? ==> n.world.rows == m.world.rows[file.Key() := s.DoneRow(file)])
            && (!InGap(n.phase) ==>
                  && n.phase == Working(m.phase.k + 1, false)
                  && (n.world.rows == m.world.rows[file.Key() := s.DoneRow(file)]
                      || n.world.rows == m.world.rows[file.Key() := s.DeadRow(file)]))
  {}

  lemma BookkeepingKeepsAtomic(c: Config, m: Machine, reply: Reply, clean: bool)
    requires c.settings.quota.Valid() && WellPlaced(c, m) && !InService(m.phase) && !m.phase.Ready?
        && Atomic(c, m, clean)
    ensures WellPlaced(c, Advanced(c, m, reply)) && Atomic(c, Advanced(c, m, reply), clean)
  {}

  lemma StepKeepsAtomic(c: Config, catalogue: seq<SourceFile>, m: Machine, a: Action, clean: bool)
    requires c.settings.quota.Valid() && WellPlaced(c, m) && Admissible(c, catalogue, clean)
    requires Atomic(c, m, clean) && WithinEstimate(c, m, a, clean)
    ensures WellPlaced(c, Step(c, m, a)) && Atomic(c, Step(c, m, a), clean)
  {
    if a.Go? {
      if m.phase.Ready? {
        ReadyKeepsAtomic(c, m, a.reply, clean);
      } else if m.phase.Working? {
        WorkingKeepsAtomic(c, catalogue, m, a.reply, clean);
      } else if m.phase.Calling? {
        CallingKeepsAtomic(c, m, a.reply, clean);
      } else if InGap(m.phase) {
        GapKeepsAtomic(c, catalogue, m, a.reply, clean);
      } else {
        BookkeepingKeepsAtomic(c, m, a.reply, clean);
      }
    }
  }

  /** In every run whose calls stay within their estimates, with any crashes and resumptions, every
      file of every completed service is summarised at its content or dead-lettered, and no file of
      an approved service is ever held. */
  lemma {:induction false} CompletedServicesAreSettled(c: Config, catalogue: seq<SourceFile>, m: Machine,
                                                       actions: seq<Action>, clean: bool)
    requires c.settings.quota.Valid() && WellPlaced(c, m) && Admissible(c, catalogue, clean)
    requires Atomic(c, m, clean) && RunWithinEstimate(c, m, actions, clean)
    ensures Atomic(c, Execute(c, m, actions), clean)
    decreases |actions|
  {
    if actions != [] {
      StepKeepsAtomic(c, catalogue, m, actions[0], clean);
      CompletedServicesAreSettled(c, catalogue, Step(c, m, actions[0]), actions[1..], clean);
    }
  }

  /** Without that bound the promise fails: when the first call of an approved two-file service
      overruns so far that the second file no longer fits, the second file is held, the service is
      checkpointed as completed, and nothing ever returns to it. */
  lemma OverrunLeavesServiceHalfIndexed(s: Settings, g: Gateway, w: World, service: string, first: SourceFile,
                                        second: SourceFile, tokens: nat, text: string, today: int, perRun: int)
    requires s.quota.Valid() && first.Key() != second.Key()
    requires !s.IsDone(w.rows, first) && !s.IsDone(w.rows, second) && !s.Oversized(first)
    requires s.Approves(w.spent, CostOf(s, [first, second]), today)
    requires g(s.RenderTier1Prompt(first), w.calls) == Answer(tokens, Summary(text))
    requires !s.Approves(w.spent + tokens, s.Estimate(second), today)
    ensures var r := Drive(s, g, map[service := [first, second]], perRun, today, w, Initial([service]),
        Initial([service]), 0);
            && r.outcome == Done && r.state.pending == [] && r.checkpoint.completed == [service]
            && !s.IsDone(r.world.rows, second)
  {
    var files := [first, second];
    assert files[1..] == [second] && [second][1..] == [];
    assert SumEstimates(s, files) == s.Estimate(first) + SumEstimates(s, [second]);
    var one := Stored(s, w.(calls := w.calls + 1, spent := w.spent + tokens), first, text);
    assert SummarisedOne(s, g, w, first) == One(one, WasSummarised, tokens, false);
    assert s.Approves(w.spent, s.Estimate(first), today);
    assert Treated(s, g, one, second, today, false) == Pass(one, ResultRow(second.Key(), WasHeld, 0), true, false);
    assert SummarisedAll(s, g, one, [second][1..], today, true) == Batch(one, [], false);
    var rest := SummarisedAll(s, g, one, [second], today, false);
    assert rest.world == one && !rest.fault;
    var batch := SummarisedAll(s, g, w, files, today, false);
    assert batch.world == one && !batch.fault;
    assert FilesOf(map[service := files], service) == files;
    DriveUnfolds(s, g, map[service := files], perRun, today, w, Initial([service]), Initial([service]), 0);
  }
}

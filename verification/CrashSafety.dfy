/** What every run of the crash machine keeps: exact accounting of spend across crashes. */
module CrashSafety {
  import opened Persistence
  import opened Driver
  import opened Workflow
  import opened CrashMachine

  /** All files the workflow may meet, each (service, path) key once. */
  ghost predicate Catalogued(c: Config, catalogue: seq<SourceFile>) {
    && DistinctKeys(catalogue)
    && (forall service <- c.estate, f <- c.estate[service] :: f in catalogue)
  }

  function TotalTokens(charges: seq<Charge>): nat {
    if charges == [] then 0 else TotalTokens(charges[..|charges| - 1]) + charges[|charges| - 1].tokens
  }

  lemma TotalOfOneMore(charges: seq<Charge>, charge: Charge)
    ensures TotalTokens(charges + [charge]) == TotalTokens(charges) + charge.tokens
  {
    assert (charges + [charge])[..|charges|] == charges;
  }

  function PaidFor(paid: map<FileKey, nat>, key: FileKey): nat { if key in paid then paid[key] else 0 }

  /** What this run paid for the files the ledger now shows as summarised. */
  function RecordedSpend(s: Settings, catalogue: seq<SourceFile>, rows: LedgerRows, paid: map<FileKey, nat>): nat {
    if catalogue == [] then 0
    else (if s.IsDone(rows, catalogue[0]) then PaidFor(paid, catalogue[0].Key()) else 0)
         + RecordedSpend(s, catalogue[1..], rows, paid)
  }

  lemma {:induction false} RecordedSpendElsewhere(s: Settings, catalogue: seq<SourceFile>, rows: LedgerRows,
                                                  paid: map<FileKey, nat>, key: FileKey, row: LedgerRow, tokens: nat)
    requires forall f <- catalogue :: f.Key() != key
    ensures RecordedSpend(s, catalogue, rows[key := row], paid) == RecordedSpend(s, catalogue, rows, paid)
    ensures RecordedSpend(s, catalogue, rows[key := row], paid[key := tokens]) == RecordedSpend(s, catalogue, rows,
        paid)
  {
    if catalogue != [] {
      RecordedSpendElsewhere(s, catalogue[1..], rows, paid, key, row, tokens);
    }
  }

  /** Recording a file not yet summarised adds exactly its tokens; burying it adds nothing. */
  lemma {:induction false} RecordedSpendAfterWrite(s: Settings, catalogue: seq<SourceFile>, rows: LedgerRows,
                                                   paid: map<FileKey, nat>, file: SourceFile, tokens: nat)
    requires DistinctKeys(catalogue) && file in catalogue && !s.IsDone(rows, file)
    ensures RecordedSpend(s, catalogue, rows[file.Key() := s.DoneRow(file)], paid[file.Key() := tokens])
         == RecordedSpend(s, catalogue, rows, paid) + tokens
    ensures RecordedSpend(s, catalogue, rows[file.Key() := s.DeadRow(file)], paid) == RecordedSpend(s, catalogue, rows,
        paid)
  {
    if file == catalogue[0] {
      RecordedSpendElsewhere(s, catalogue[1..], rows, paid, file.Key(), s.DoneRow(file), tokens);
      RecordedSpendElsewhere(s, catalogue[1..], rows, paid, file.Key(), s.DeadRow(file), tokens);
    } else {
      var i :| 0 < i < |catalogue| && catalogue[i] == file;
      assert catalogue[1..][i - 1] == file;
      RecordedSpendAfterWrite(s, catalogue[1..], rows, paid, file, tokens);
    }
  }

  lemma {:induction false} NothingRecordedAtStart(s: Settings, catalogue: seq<SourceFile>, rows: LedgerRows)
    ensures RecordedSpend(s, catalogue, rows, map[]) == 0
  {
    if catalogue != [] {
      NothingRecordedAtStart(s, catalogue[1..], rows);
    }
  }

  /** Pool spend is exactly what the summarised files cost, plus what went to dead letters, plus what
      was charged by calls a crash cut off before the ledger write, plus the call in the gap now. */
  ghost predicate Accounted(c: Config, catalogue: seq<SourceFile>, spentBefore: int, m: Machine)
    requires WellPlaced(c, m)
  {
    && m.world.spent == spentBefore + RecordedSpend(c.settings, catalogue, m.world.rows, m.paid)
                        + TotalTokens(m.buried) + TotalTokens(m.lost) + InFlight(m.phase)
    && (m.phase.Calling? || InGap(m.phase) ==> !c.settings.IsDone(m.world.rows, CurrentFiles(c, m)[m.phase.k]))
    && |m.lost| <= m.crashes
  }

  lemma CurrentInCatalogue(c: Config, catalogue: seq<SourceFile>, m: Machine)
    requires Catalogued(c, catalogue) && WellPlaced(c, m)
    ensures m.phase.Calling? || InGap(m.phase) ==> CurrentFiles(c, m)[m.phase.k] in catalogue
  {
    if m.phase.Calling? || InGap(m.phase) {
      var service := m.mem.pending[0];
      assert service in c.estate;
      assert c.estate[service][m.phase.k] in c.estate[service];
    }
  }

  /** Outside the gap and the call, a step moves no token and no ledger row. */
  lemma QuietStep(c: Config, m: Machine, reply: Reply)
    requires c.settings.quota.Valid() && WellPlaced(c, m) && !InGap(m.phase) && !m.phase.Calling?
    ensures var n := Advanced(c, m, reply);
            && n.world == m.world && n.paid == m.paid && n.buried == m.buried && n.lost == m.lost
                && n.crashes == m.crashes
            && (!InGap(n.phase) || (n.phase.Failed? && n.phase.tokens == 0))
            && (n.phase.Calling? || n.phase.Failed? ==>
                  && m.phase.Working? && n.mem == m.mem && n.phase.k == m.phase.k < |CurrentFiles(c, m)|
                  && !c.settings.IsDone(m.world.rows, CurrentFiles(c, m)[n.phase.k]))
  {}

  /** The call charges exactly its tokens and enters the gap, or charges nothing. */
  lemma CallStep(c: Config, m: Machine, reply: Reply)
    requires c.settings.quota.Valid() && WellPlaced(c, m) && m.phase.Calling?
    ensures var n := Advanced(c, m, reply);
            && n.world.spent == m.world.spent + InFlight(n.phase) && n.world.rows == m.world.rows
            && n.paid == m.paid && n.buried == m.buried && n.lost == m.lost && n.crashes >= m.crashes
            && n.mem == m.mem && !n.phase.Calling? && (InGap(n.phase) ==> n.phase.k == m.phase.k)
  {}

  /** A gap step either keeps the charge in flight for the same file, or writes the ledger row and
      settles the charge as paid or as buried. */
  lemma GapStep(c: Config, m: Machine, reply: Reply)
    requires c.settings.quota.Valid() && WellPlaced(c, m) && InGap(m.phase)
    ensures var n, file := Advanced(c, m, reply), CurrentFiles(c, m)[m.phase.k];
            && n.world.spent == m.world.spent && n.lost == m.lost && n.crashes == m.crashes && n.mem == m.mem
            && !n.phase.Calling?
            && (InGap(n.phase) ==>
                  && n.phase.k == m.phase.k && n.phase.tokens == m.phase.tokens
                  && n.world.rows == m.world.rows && n.paid == m.paid && n.buried == m.buried)
            && (!InGap(n.phase) ==>
                  || (&& n.world.rows == m.world.rows[file.Key() := c.settings.DoneRow(file)]
                      && n.paid == m.paid[file.Key() := m.phase.tokens] && n.buried == m.buried)
                  || (&& n.world.rows == m.world.rows[file.Key() := c.settings.DeadRow(file)]
                      && n.paid == m.paid && n.buried == m.buried + [Charge(file.Key(), m.phase.tokens)]))
  {}

  lemma AdvanceKeepsAccount(c: Config, catalogue: seq<SourceFile>, spentBefore: int, m: Machine, reply: Reply)
    requires c.settings.quota.Valid() && WellPlaced(c, m) && Catalogued(c, catalogue)
    requires Accounted(c, catalogue, spentBefore, m)
    requires WellPlaced(c, Advanced(c, m, reply))
    ensures Accounted(c, catalogue, spentBefore, Advanced(c, m, reply))
  {
    if InGap(m.phase) {
      var file := CurrentFiles(c, m)[m.phase.k];
      CurrentInCatalogue(c, catalogue, m);
      GapStep(c, m, reply);
      TotalOfOneMore(m.buried, Charge(file.Key(), m.phase.tokens));
      RecordedSpendAfterWrite(c.settings, catalogue, m.world.rows, m.paid, file, m.phase.tokens);
    } else if m.phase.Calling? {
      CallStep(c, m, reply);
    } else {
      QuietStep(c, m, reply);
    }
  }

  lemma StepKeepsAccount(c: Config, catalogue: seq<SourceFile>, spentBefore: int, m: Machine, a: Action)
    requires c.settings.quota.Valid() && WellPlaced(c, m) && Catalogued(c, catalogue)
    requires Accounted(c, catalogue, spentBefore, m)
    ensures WellPlaced(c, Step(c, m, a)) && Accounted(c, catalogue, spentBefore, Step(c, m, a))
  {
    StepWellPlaced(c, m, a);
    match a
    case Go(reply) =>
      AdvanceKeepsAccount(c, catalogue, spentBefore, m, reply);
    case Crash =>
      if InGap(m.phase) {
        TotalOfOneMore(m.lost, Charge(CurrentFiles(c, m)[m.phase.k].Key(), m.phase.tokens));
      }
    case Resume(_) =>
  }

  /** Crash-safe spend, for every sequence of steps, crashes and resumptions. */
  lemma {:induction false} SpendIsAccountedForInEveryRun(c: Config, catalogue: seq<SourceFile>, spentBefore: int,
                                                         m: Machine, actions: seq<Action>)
    requires c.settings.quota.Valid() && WellPlaced(c, m) && Catalogued(c, catalogue)
    requires Accounted(c, catalogue, spentBefore, m)
    ensures Accounted(c, catalogue, spentBefore, Execute(c, m, actions))
    decreases |actions|
  {
    if actions != [] {
      StepKeepsAccount(c, catalogue, spentBefore, m, actions[0]);
      SpendIsAccountedForInEveryRun(c, catalogue, spentBefore, Step(c, m, actions[0]), actions[1..]);
    }
  }

  lemma StartIsAccounted(c: Config, catalogue: seq<SourceFile>, w: World, checkpoint: State, today: int)
    ensures Accounted(c, catalogue, w.spent, Start(w, checkpoint, today))
  {
    NothingRecordedAtStart(c.settings, catalogue, w.rows);
  }

  /** A crash duplicates at most the one call in the gap; anywhere else, and at the gateway call
      itself, it duplicates nothing. */
  lemma CrashLosesOnlyTheGap(c: Config, m: Machine)
    requires c.settings.quota.Valid() && WellPlaced(c, m)
    ensures var after := Step(c, m, Crash);
            && after.world == m.world && after.checkpoint == m.checkpoint
            && TotalTokens(after.lost) == TotalTokens(m.lost) + InFlight(m.phase)
            && (InGap(m.phase) ==> |after.lost| == |m.lost| + 1)
            && (!InGap(m.phase) ==> after.lost == m.lost)
  {
    if InGap(m.phase) {
      TotalOfOneMore(m.lost, Charge(CurrentFiles(c, m)[m.phase.k].Key(), m.phase.tokens));
    }
  }
}

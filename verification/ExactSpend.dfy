/** Resuming after crashes spends what a clean run spends, plus the calls lost in the gap. */
module ExactSpend {
  import opened Persistence
  import opened Driver
  import opened Workflow
  import opened CrashMachine
  import opened CrashSafety
  import opened ServiceAtomicity

  type Cost = SourceFile -> nat

  /** Every answer for a file costs the same. */
  ghost predicate FixedCost(c: Config, m: Machine, a: Action, cost: Cost)
    requires WellPlaced(c, m)
  {
    a.Go? && m.phase.Calling? && a.reply.Answer? ==> a.reply.tokens == cost(CurrentFiles(c, m)[m.phase.k])
  }

  ghost predicate RunFixedCost(c: Config, m: Machine, actions: seq<Action>, cost: Cost)
    requires c.settings.quota.Valid() && WellPlaced(c, m)
    decreases |actions|
  {
    actions == [] || (FixedCost(c, m, actions[0], cost) && (StepWellPlaced(c, m, actions[0]);
                      RunFixedCost(c, Step(c, m, actions[0]), actions[1..], cost)))
  }

  /** Cost of the catalogue files that `rows` does not show as summarised. */
  function DueCost(s: Settings, catalogue: seq<SourceFile>, rows: LedgerRows, cost: Cost): nat {
    if catalogue == [] then 0
    else (if s.IsDone(rows, catalogue[0]) then 0 else cost(catalogue[0])) + DueCost(s, catalogue[1..], rows, cost)
  }

  /** In a clean run each file newly summarised was paid for once, at its cost. */
  ghost predicate PaidExactly(s: Settings, catalogue: seq<SourceFile>, rows0: LedgerRows, cost: Cost, m: Machine) {
    && m.buried == []
    && (forall f <- catalogue ::
          && (s.IsDone(m.world.rows, f) <==> s.IsDone(rows0, f) || f.Key() in m.paid)
          && (f.Key() in m.paid ==> m.paid[f.Key()] == cost(f) && !s.IsDone(rows0, f)))
    && (forall charge <- m.lost :: IsCallOf(catalogue, cost, charge))
  }

  ghost predicate IsCallOf(catalogue: seq<SourceFile>, cost: Cost, charge: Charge) {
    exists f <- catalogue :: charge == Charge(f.Key(), cost(f))
  }

  /** Every call is answered with a summary, or ends without a charge: with an exhausted quota or a fault. */
  ghost predicate Parseable(m: Machine, a: Action) {
    a.Go? && m.phase.Calling? ==> a.reply.Fault? || a.reply.Exhausted? || (a.reply.Answer? && a.reply.body.Summary?)
  }

  ghost predicate RunParseable(c: Config, m: Machine, actions: seq<Action>)
    requires c.settings.quota.Valid() && WellPlaced(c, m)
    decreases |actions|
  {
    actions == [] || (Parseable(m, actions[0]) && (StepWellPlaced(c, m, actions[0]);
                      RunParseable(c, Step(c, m, actions[0]), actions[1..])))
  }

  /** Nothing is on its way to the dead letters. */
  ghost predicate CleanPhase(m: Machine) {
    !m.phase.Failed? && !m.phase.LedgerDue? && (m.phase.Charged? ==> m.phase.body.Summary?)
  }

  ghost predicate Exact(c: Config, catalogue: seq<SourceFile>, rows0: LedgerRows, cost: Cost, spentBefore: int,
                        m: Machine)
    requires WellPlaced(c, m)
  {
    && CleanPhase(m) && Accounted(c, catalogue, spentBefore, m)
    && PaidExactly(c.settings, catalogue, rows0, cost, m)
    && (InGap(m.phase) ==> m.phase.tokens == cost(CurrentFiles(c, m)[m.phase.k]))
  }

  lemma RecordingKeepsPaidExactly(s: Settings, catalogue: seq<SourceFile>, rows0: LedgerRows, cost: Cost, m: Machine,
                                  n: Machine, file: SourceFile)
    requires DistinctKeys(catalogue) && file in catalogue && PaidExactly(s, catalogue, rows0, cost, m)
    requires !s.IsDone(m.world.rows, file)
    requires n.world.rows == m.world.rows[file.Key() := s.DoneRow(file)] && n.paid == m.paid[file.Key() := cost(file)]
    requires n.buried == m.buried && n.lost == m.lost
    ensures PaidExactly(s, catalogue, rows0, cost, n)
  {
    forall f <- catalogue | f.Key() == file.Key() ensures f == file {
      SameKeySameFile(catalogue, f, file);
    }
  }

  lemma AdvanceKeepsExact(c: Config, catalogue: seq<SourceFile>, rows0: LedgerRows, cost: Cost, spentBefore: int,
                          m: Machine, reply: Reply)
    requires c.settings.quota.Valid() && WellPlaced(c, m) && Admissible(c, catalogue, true)
    requires Exact(c, catalogue, rows0, cost, spentBefore, m)
    requires Parseable(m, Go(reply)) && FixedCost(c, m, Go(reply), cost)
    ensures WellPlaced(c, Advanced(c, m, reply)) && Exact(c, catalogue, rows0, cost, spentBefore, Advanced(c, m, reply))
  {
    StepKeepsAccount(c, catalogue, spentBefore, m, Go(reply));
    if InGap(m.phase) {
      GapKeepsPaidExactly(c, catalogue, rows0, cost, m, reply);
    } else if m.phase.Calling? {
      CallStep(c, m, reply);
      CallKeepsCost(c, m, reply, cost);
    } else {
      QuietStep(c, m, reply);
      if m.phase.Working? && m.phase.k < |CurrentFiles(c, m)| {
        CurrentFileIsListed(c, catalogue, m);
      }
    }
  }

  /** In the gap the charge stays at its cost, and the ledger write records it. */
  lemma GapKeepsPaidExactly(c: Config, catalogue: seq<SourceFile>, rows0: LedgerRows, cost: Cost, m: Machine,
                            reply: Reply)
    requires c.settings.quota.Valid() && WellPlaced(c, m) && InGap(m.phase) && CleanPhase(m) && Catalogued(c, catalogue)
    requires PaidExactly(c.settings, catalogue, rows0, cost, m)
    requires m.phase.tokens == cost(CurrentFiles(c, m)[m.phase.k])
    requires !c.settings.IsDone(m.world.rows, CurrentFiles(c, m)[m.phase.k])
    ensures var n := Advanced(c, m, reply);
            && CleanPhase(n) && PaidExactly(c.settings, catalogue, rows0, cost, n)
            && (InGap(n.phase) ==> n.mem == m.mem && n.phase.k == m.phase.k && n.phase.tokens == m.phase.tokens)
  {
    CurrentInCatalogue(c, catalogue, m);
    GapStep(c, m, reply);
    if m.phase.Saved? {
      RecordingKeepsPaidExactly(c.settings, catalogue, rows0, cost, m, Advanced(c, m, reply),
                                CurrentFiles(c, m)[m.phase.k]);
    }
  }

  lemma CallKeepsCost(c: Config, m: Machine, reply: Reply, cost: Cost)
    requires c.settings.quota.Valid() && WellPlaced(c, m) && m.phase.Calling?
    requires Parseable(m, Go(reply)) && FixedCost(c, m, Go(reply), cost)
    ensures var n := Advanced(c, m, reply);
            CleanPhase(n) && (InGap(n.phase) ==> n.phase.tokens == cost(CurrentFiles(c, m)[m.phase.k]))
  {}

  lemma CurrentFileIsListed(c: Config, catalogue: seq<SourceFile>, m: Machine)
    requires Catalogued(c, catalogue) && WellPlaced(c, m) && m.phase.Working? && m.phase.k < |CurrentFiles(c, m)|
    ensures CurrentFiles(c, m)[m.phase.k] in catalogue
  {
    var service := m.mem.pending[0];
    assert service in c.estate && c.estate[service][m.phase.k] in c.estate[service];
  }

  lemma StepKeepsExact(c: Config, catalogue: seq<SourceFile>, rows0: LedgerRows, cost: Cost, spentBefore: int,
                       m: Machine, a: Action)
    requires c.settings.quota.Valid() && WellPlaced(c, m) && Admissible(c, catalogue, true)
    requires Exact(c, catalogue, rows0, cost, spentBefore, m)
    requires Parseable(m, a) && FixedCost(c, m, a, cost)
    ensures WellPlaced(c, Step(c, m, a)) && Exact(c, catalogue, rows0, cost, spentBefore, Step(c, m, a))
  {
    if a.Go? {
      AdvanceKeepsExact(c, catalogue, rows0, cost, spentBefore, m, a.reply);
    } else {
      StepKeepsAccount(c, catalogue, spentBefore, m, a);
      CurrentInCatalogue(c, catalogue, m);
      assert InGap(m.phase) ==> IsCallOf(catalogue, cost, Charge(CurrentFiles(c, m)[m.phase.k].Key(), m.phase.tokens));
    }
  }

  lemma {:induction false} RunKeepsExact(c: Config, catalogue: seq<SourceFile>, rows0: LedgerRows, cost: Cost,
                                         spentBefore: int, m: Machine, actions: seq<Action>)
    requires c.settings.quota.Valid() && WellPlaced(c, m) && Admissible(c, catalogue, true)
    requires Exact(c, catalogue, rows0, cost, spentBefore, m)
    requires RunParseable(c, m, actions) && RunFixedCost(c, m, actions, cost)
    ensures Exact(c, catalogue, rows0, cost, spentBefore, Execute(c, m, actions))
    decreases |actions|
  {
    if actions != [] {
      StepKeepsExact(c, catalogue, rows0, cost, spentBefore, m, actions[0]);
      RunKeepsExact(c, catalogue, rows0, cost, spentBefore, Step(c, m, actions[0]), actions[1..]);
    }
  }

  /** Cost of the catalogue files summarised since `rows0`. */
  function NewCost(s: Settings, catalogue: seq<SourceFile>, rows0: LedgerRows, rows: LedgerRows, cost: Cost): nat {
    if catalogue == [] then 0
    else (if s.IsDone(rows, catalogue[0]) && !s.IsDone(rows0, catalogue[0]) then cost(catalogue[0]) else 0)
         + NewCost(s, catalogue[1..], rows0, rows, cost)
  }

  lemma {:induction false} RecordedIsNew(s: Settings, catalogue: seq<SourceFile>, rows0: LedgerRows, rows: LedgerRows,
                                         paid: map<FileKey, nat>, cost: Cost)
    requires forall i :: 0 <= i < |catalogue| && s.IsDone(rows, catalogue[i]) ==>
               PaidFor(paid, catalogue[i].Key()) == if s.IsDone(rows0, catalogue[i]) then 0 else cost(catalogue[i])
    ensures RecordedSpend(s, catalogue, rows, paid) == NewCost(s, catalogue, rows0, rows, cost)
  {
    if catalogue != [] {
      RecordedIsNew(s, catalogue[1..], rows0, rows, paid, cost);
    }
  }

  lemma ExactIsNew(c: Config, catalogue: seq<SourceFile>, rows0: LedgerRows, cost: Cost, before: int, m: Machine)
    requires WellPlaced(c, m) && Exact(c, catalogue, rows0, cost, before, m)
    ensures m.world.spent == before + NewCost(c.settings, catalogue, rows0, m.world.rows, cost) + TotalTokens(m.lost)
                             + InFlight(m.phase)
  {
    forall i | 0 <= i < |catalogue| && c.settings.IsDone(m.world.rows, catalogue[i])
      ensures PaidFor(m.paid, catalogue[i].Key()) == if c.settings.IsDone(rows0, catalogue[i]) then 0
          else cost(catalogue[i])
    {
      assert catalogue[i] in catalogue;
    }
    RecordedIsNew(c.settings, catalogue, rows0, m.world.rows, m.paid, cost);
  }

  /** Crash-safe spend, in full: over every run with fixed costs and parseable replies, whatever crashes, holds,
      exhausted quotas and overruns it has, the pool has been charged the cost of the files newly summarised,
      plus one call's cost for each crash between a charge and its ledger write, plus the call in that gap. */
  lemma SpendIsExactInEveryRun(c: Config, catalogue: seq<SourceFile>, cost: Cost, w: World, checkpoint: State,
                               today: int, actions: seq<Action>)
    requires c.settings.quota.Valid() && Admissible(c, catalogue, true)
    requires RunParseable(c, Start(w, checkpoint, today), actions)
    requires RunFixedCost(c, Start(w, checkpoint, today), actions, cost)
    ensures var n := Execute(c, Start(w, checkpoint, today), actions);
            && n.world.spent == w.spent + NewCost(c.settings, catalogue, w.rows, n.world.rows, cost)
                                + TotalTokens(n.lost) + InFlight(n.phase)
            && |n.lost| <= n.crashes
            && (forall charge <- n.lost :: IsCallOf(catalogue, cost, charge))
            && (InGap(n.phase) ==> n.phase.tokens == cost(CurrentFiles(c, n)[n.phase.k]))
  {
    var m := Start(w, checkpoint, today);
    var n := Execute(c, m, actions);
    StartIsAccounted(c, catalogue, w, checkpoint, today);
    RunKeepsExact(c, catalogue, w.rows, cost, w.spent, m, actions);
    ExactIsNew(c, catalogue, w.rows, cost, w.spent, n);
  }

  lemma {:induction false} AllNewIsDue(s: Settings, catalogue: seq<SourceFile>, rows0: LedgerRows, rows: LedgerRows,
                                       cost: Cost)
    requires forall i :: 0 <= i < |catalogue| ==> s.IsDone(rows, catalogue[i])
    ensures NewCost(s, catalogue, rows0, rows, cost) == DueCost(s, catalogue, rows0, cost)
  {
    if catalogue != [] {
      AllNewIsDue(s, catalogue[1..], rows0, rows, cost);
    }
  }

  lemma {:induction false} WithinEstimateIsParseable(c: Config, m: Machine, actions: seq<Action>)
    requires c.settings.quota.Valid() && WellPlaced(c, m) && RunWithinEstimate(c, m, actions, true)
    ensures RunParseable(c, m, actions)
    decreases |actions|
  {
    if actions != [] {
      StepWellPlaced(c, m, actions[0]);
      WithinEstimateIsParseable(c, Step(c, m, actions[0]), actions[1..]);
    }
  }

  // ----- The queue is conserved by every step -----

  lemma StepConservesQueue(c: Config, m: Machine, a: Action, queue: seq<string>)
    requires c.settings.quota.Valid() && WellPlaced(c, m)
    requires m.mem.Queue() == queue && m.checkpoint.Queue() == queue
    ensures Step(c, m, a).mem.Queue() == queue && Step(c, m, a).checkpoint.Queue() == queue
  {
    if m.phase.Working? {
      CompletingKeepsQueue(m.mem);
    }
  }

  lemma {:induction false} RunConservesQueue(c: Config, m: Machine, actions: seq<Action>, queue: seq<string>)
    requires c.settings.quota.Valid() && WellPlaced(c, m)
    requires m.mem.Queue() == queue && m.checkpoint.Queue() == queue
    ensures Execute(c, m, actions).mem.Queue() == queue && Execute(c, m, actions).checkpoint.Queue() == queue
    decreases |actions|
  {
    if actions != [] {
      StepWellPlaced(c, m, actions[0]);
      StepConservesQueue(c, m, actions[0], queue);
      RunConservesQueue(c, Step(c, m, actions[0]), actions[1..], queue);
    }
  }

  /** Done means nothing is pending. */
  ghost predicate DoneIsEmpty(m: Machine) { m.phase == Stopped(Done) ==> m.mem.pending == [] }

  lemma {:induction false} RunKeepsDoneIsEmpty(c: Config, m: Machine, actions: seq<Action>)
    requires c.settings.quota.Valid() && WellPlaced(c, m) && DoneIsEmpty(m)
    ensures DoneIsEmpty(Execute(c, m, actions))
    decreases |actions|
  {
    if actions != [] {
      StepWellPlaced(c, m, actions[0]);
      RunKeepsDoneIsEmpty(c, Step(c, m, actions[0]), actions[1..]);
    }
  }

  /** The catalogue lists nothing but files of queued services. */
  ghost predicate Covers(c: Config, catalogue: seq<SourceFile>, queue: seq<string>) {
    forall f <- catalogue :: exists service <- queue :: f in FilesOf(c.estate, service)
  }

  /** Start a fresh queue, crash and resume any number of times, and finish: the pool has been
      charged for every file not already summarised exactly once, plus one call for each crash that
      fell between a charge and its ledger write. */
  lemma FinishedRunSpendsExactly(c: Config, catalogue: seq<SourceFile>, cost: Cost, w: World, queue: seq<string>,
                                 today: int, actions: seq<Action>)
    requires c.settings.quota.Valid() && Admissible(c, catalogue, true) && Covers(c, catalogue, queue)
    requires var m := Start(w, Initial(queue), today);
             RunWithinEstimate(c, m, actions, true) && RunFixedCost(c, m, actions, cost)
    requires Execute(c, Start(w, Initial(queue), today), actions).phase == Stopped(Done)
    ensures var n := Execute(c, Start(w, Initial(queue), today), actions);
            && n.mem.completed == queue
            && (forall f <- catalogue :: c.settings.IsDone(n.world.rows, f))
            && n.world.spent == w.spent + DueCost(c.settings, catalogue, w.rows, cost) + TotalTokens(n.lost)
            && |n.lost| <= n.crashes
            && (forall charge <- n.lost :: IsCallOf(catalogue, cost, charge))
  {
    var m := Start(w, Initial(queue), today);
    var n := Execute(c, m, actions);
    WithinEstimateIsParseable(c, m, actions);
    SpendIsExactInEveryRun(c, catalogue, cost, w, Initial(queue), today, actions);
    CompletedServicesAreSettled(c, catalogue, m, actions, true);
    RunConservesQueue(c, m, actions, queue);
    RunKeepsDoneIsEmpty(c, m, actions);
    assert n.mem.completed + [] == n.mem.completed;
    forall f <- catalogue ensures c.settings.IsDone(n.world.rows, f) {
      var service :| service in queue && f in FilesOf(c.estate, service);
      assert AllSettled(c.settings, n.world.rows, FilesOf(c.estate, service), true);
      assert Settled(c.settings, n.world.rows, f, true);
    }
    AllNewIsDue(c.settings, catalogue, w.rows, n.world.rows, cost);
  }
}

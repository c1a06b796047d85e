/** The durable workflow (`backend/orchestration/workflow.py`, `backend/orchestration/state.py`):
    one service at a time, approved as a whole, checkpointed when complete. */
module Workflow {
  import opened Domain
  import opened Quota
  import opened Driver

  /** Why a run parked: the cost asked for and the tokens available. */
  datatype ParkReason = TrancheExhausted(need: int, have: int)

  datatype State = State(
    pending: seq<string>, completed: seq<string>, parked: bool, parkReason: Option<ParkReason>, runCount: nat)
  {
    function CompleteCurrent(): State
      requires pending != []
    {
      State(pending[1..], completed + [pending[0]], false, None, runCount)
    }

    /** All services, done and to do, in queue order. */
    function Queue(): seq<string> { completed + pending }

    function Parked(reason: ParkReason): State { this.(parked := true, parkReason := Some(reason)) }
  }

  function Initial(services: seq<string>): State { State(services, [], false, None, 0) }

  type Estate = map<string, seq<SourceFile>>

  function FilesOf(estate: Estate, service: string): seq<SourceFile> {
    if service in estate then estate[service] else []
  }

  function SumEstimates(s: Settings, files: seq<SourceFile>): nat {
    if files == [] then 0 else s.Estimate(files[0]) + SumEstimates(s, files[1..])
  }

  /** The cost reserved for a whole service; an empty service still asks for one token. */
  function CostOf(s: Settings, files: seq<SourceFile>): nat {
    if SumEstimates(s, files) == 0 then 1 else SumEstimates(s, files)
  }

  /** A service is reserved at the sum of its files' estimates, one without files at one token; files not queued have
      none. */
  lemma CostAddsUp(s: Settings, files: seq<SourceFile>, file: SourceFile, estate: Estate, service: string)
    ensures CostOf(s, []) == 1 && CostOf(s, [file]) == s.Estimate(file)
    ensures files != [] ==> CostOf(s, [file] + files) == s.Estimate(file) + CostOf(s, files)
    ensures service !in estate ==> FilesOf(estate, service) == []
    ensures service in estate ==> FilesOf(estate, service) == estate[service]
  {
    assert [file][1..] == [] && ([file] + files)[1..] == files;
  }

  datatype WorkflowOutcome = Done | ParkedOnQuota | Continue | Crashed

  /** Durable state, in-memory state, last checkpoint and outcome of a run. */
  datatype Run = Run(world: World, state: State, checkpoint: State, outcome: WorkflowOutcome)

  /** One run of the workflow: until the tranche is full, the quota holds or the queue is empty. */
  function RunTranche(s: Settings, g: Gateway, estate: Estate, perRun: int, today: int,
                       w: World, state: State, checkpoint: State, processed: nat): (r: Run)
    requires s.quota.Valid()
    ensures |r.state.pending| <= |state.pending|
    ensures r.outcome.Continue? ==> |r.state.pending| < |state.pending|
    decreases |state.pending|
  {
    if state.pending == [] then Run(w, state, checkpoint, Done)
    else
      var files := FilesOf(estate, state.pending[0]);
      var cost := CostOf(s, files);
      if !s.Approves(w.spent, cost, today) then
        var parked := state.Parked(TrancheExhausted(cost, s.quota.Available(s.periodStart, w.spent, today)));
        Run(w, parked, parked, ParkedOnQuota)
      else
        var batch := SummarisedAll(s, g, w, files, today, false);
        if batch.fault then Run(batch.world, state, checkpoint, Crashed)
        else
          var next := state.CompleteCurrent();
          if processed + 1 >= perRun && next.pending != [] then
            var counted := next.(runCount := next.runCount + 1);
            Run(batch.world, counted, counted, Continue)
          else
            RunTranche(s, g, estate, perRun, today, batch.world, next, next, processed + 1)
  }

  /** Runs chained until one does not ask to continue. Each run that continues has shortened the queue, so the
      chain ends, even for a `perRun` that is zero or negative. */
  function Drive(s: Settings, g: Gateway, estate: Estate, perRun: int, today: int,
                 w: World, state: State, checkpoint: State, processed: nat): (r: Run)
    requires s.quota.Valid()
    ensures !r.outcome.Continue?
    decreases |state.pending|
  {
    var r := RunTranche(s, g, estate, perRun, today, w, state, checkpoint, processed);
    if r.outcome.Continue? then Drive(s, g, estate, perRun, today, r.world, r.state, r.checkpoint, 0) else r
  }

  // ----- Continue-as-new is invisible -----

  /** The run ends after this service, and another follows. */
  predicate AtBoundary(perRun: int, state: State, processed: nat)
    requires state.pending != []
  {
    processed + 1 >= perRun && state.CompleteCurrent().pending != []
  }

  /** The state after a completed service, with the continuation counted at the boundary. */
  function Onward(perRun: int, state: State, processed: nat): State
    requires state.pending != []
  {
    var next := state.CompleteCurrent();
    if AtBoundary(perRun, state, processed) then next.(runCount := next.runCount + 1) else next
  }

  function ProcessedAfter(perRun: int, state: State, processed: nat): nat
    requires state.pending != []
  {
    if AtBoundary(perRun, state, processed) then 0 else processed + 1
  }

  /** What one approved, fault-free service leads to in a run. */
  lemma RunUnfolds(s: Settings, g: Gateway, estate: Estate, perRun: int, today: int,
                   w: World, state: State, checkpoint: State, processed: nat)
    requires s.quota.Valid() && state.pending != []
    requires s.Approves(w.spent, CostOf(s, FilesOf(estate, state.pending[0])), today)
    requires !SummarisedAll(s, g, w, FilesOf(estate, state.pending[0]), today, false).fault
    ensures var batch := SummarisedAll(s, g, w, FilesOf(estate, state.pending[0]), today, false);
            var onward := Onward(perRun, state, processed);
            RunTranche(s, g, estate, perRun, today, w, state, checkpoint, processed)
            == if AtBoundary(perRun, state, processed) then Run(batch.world, onward, onward, Continue)
               else RunTranche(s, g, estate, perRun, today, batch.world, onward, onward, processed + 1)
  {}

  /** What one approved, fault-free service leads to in `Drive`. */
  lemma DriveUnfolds(s: Settings, g: Gateway, estate: Estate, perRun: int, today: int,
                     w: World, state: State, checkpoint: State, processed: nat)
    requires s.quota.Valid() && state.pending != []
    requires s.Approves(w.spent, CostOf(s, FilesOf(estate, state.pending[0])), today)
    requires !SummarisedAll(s, g, w, FilesOf(estate, state.pending[0]), today, false).fault
    ensures var batch := SummarisedAll(s, g, w, FilesOf(estate, state.pending[0]), today, false);
            var onward := Onward(perRun, state, processed);
            Drive(s, g, estate, perRun, today, w, state, checkpoint, processed)
            == Drive(s, g, estate, perRun, today, batch.world, onward, onward, ProcessedAfter(perRun, state, processed))
  {
    RunUnfolds(s, g, estate, perRun, today, w, state, checkpoint, processed);
  }

  /** Where `Drive` stops: nothing pending, the budget denied, or a fault. */
  lemma DriveStops(s: Settings, g: Gateway, estate: Estate, perRun: int, today: int,
                   w: World, state: State, checkpoint: State, processed: nat)
    requires s.quota.Valid()
    ensures var r := Drive(s, g, estate, perRun, today, w, state, checkpoint, processed);
            if state.pending == [] then r == Run(w, state, checkpoint, Done)
            else
              var files := FilesOf(estate, state.pending[0]);
              var cost, batch := CostOf(s, files), SummarisedAll(s, g, w, files, today, false);
              if !s.Approves(w.spent, cost, today) then
                var parked := state.Parked(TrancheExhausted(cost, s.quota.Available(s.periodStart, w.spent, today)));
                r == Run(w, parked, parked, ParkedOnQuota)
              else batch.fault ==> r == Run(batch.world, state, checkpoint, Crashed)
  {}

  /** Equal up to the number of continue-as-new generations. */
  ghost predicate SameButRunCount(a: State, b: State) { a.(runCount := 0) == b.(runCount := 0) }

  /** However services are split into runs, `Drive` ends with the same outcome, the same durable
      state and the same queue: the cadence shows only in `runCount`. */
  lemma {:induction false} ContinueAsNewInvisible(s: Settings, g: Gateway, estate: Estate, today: int, w: World,
      perRunA: int, a: State, checkpointA: State, processedA: nat,
      perRunB: int, b: State, checkpointB: State, processedB: nat)
    requires s.quota.Valid()
    requires SameButRunCount(a, b) && SameButRunCount(checkpointA, checkpointB)
    ensures var ra := Drive(s, g, estate, perRunA, today, w, a, checkpointA, processedA);
            var rb := Drive(s, g, estate, perRunB, today, w, b, checkpointB, processedB);
            && ra.world == rb.world && ra.outcome == rb.outcome
            && SameButRunCount(ra.state, rb.state) && SameButRunCount(ra.checkpoint, rb.checkpoint)
    decreases |a.pending|
  {
    DriveStops(s, g, estate, perRunA, today, w, a, checkpointA, processedA);
    DriveStops(s, g, estate, perRunB, today, w, b, checkpointB, processedB);
    if a.pending != [] {
      var files := FilesOf(estate, a.pending[0]);
      var batch := SummarisedAll(s, g, w, files, today, false);
      if s.Approves(w.spent, CostOf(s, files), today) && !batch.fault {
        DriveUnfolds(s, g, estate, perRunA, today, w, a, checkpointA, processedA);
        DriveUnfolds(s, g, estate, perRunB, today, w, b, checkpointB, processedB);
        var onA, onB := Onward(perRunA, a, processedA), Onward(perRunB, b, processedB);
        ContinueAsNewInvisible(s, g, estate, today, batch.world,
                               perRunA, onA, onA, ProcessedAfter(perRunA, a, processedA),
                               perRunB, onB, onB, ProcessedAfter(perRunB, b, processedB));
      }
    }
  }

  lemma CompletingKeepsQueue(state: State)
    requires state.pending != []
    ensures state.CompleteCurrent().Queue() == state.Queue()
    ensures state.completed <= state.CompleteCurrent().completed
  {
    assert state.pending == [state.pending[0]] + state.pending[1..];
  }

  lemma PrefixTransitive(a: seq<string>, b: seq<string>, c: seq<string>)
    requires a <= b <= c
    ensures a <= c
  {}

  /** Completed services followed by pending ones are always the initial queue, and what is
      completed is never undone; a finished run has nothing pending. */
  lemma {:induction false} DriveConservesQueue(s: Settings, g: Gateway, estate: Estate, perRun: int, today: int,
                                               w: World, state: State, checkpoint: State, processed: nat)
    requires s.quota.Valid()
    ensures var r := Drive(s, g, estate, perRun, today, w, state, checkpoint, processed);
            && r.state.Queue() == state.Queue()
            && state.completed <= r.state.completed
            && (r.outcome.Done? ==> r.state.pending == [])
            && (r.outcome.ParkedOnQuota? ==> r.state.parked && r.checkpoint == r.state)
            && (checkpoint.Queue() == state.Queue() ==> r.checkpoint.Queue() == state.Queue())
    decreases |state.pending|
  {
    DriveStops(s, g, estate, perRun, today, w, state, checkpoint, processed);
    if state.pending != [] {
      var files := FilesOf(estate, state.pending[0]);
      var batch := SummarisedAll(s, g, w, files, today, false);
      if s.Approves(w.spent, CostOf(s, files), today) && !batch.fault {
        DriveUnfolds(s, g, estate, perRun, today, w, state, checkpoint, processed);
        var onward, count := Onward(perRun, state, processed), ProcessedAfter(perRun, state, processed);
        CompletingKeepsQueue(state);
        DriveConservesQueue(s, g, estate, perRun, today, batch.world, onward, onward, count);
        var r := Drive(s, g, estate, perRun, today, batch.world, onward, onward, count);
        PrefixTransitive(state.completed, onward.completed, r.state.completed);
      }
    }
  }

  lemma QuotientUnique(x: nat, r: nat, q: int, m: int)
    requires r > 0 && x == q * r + m && 0 <= m < r
    ensures x / r == q
  {
    var k := x / r;
    assert r * k <= x < r * (k + 1);
    if k < q {
      TimesMonotone(r, k + 1, q);
    } else if k > q {
      TimesMonotone(r, q + 1, k);
    }
  }

  lemma QuotientStep(x: nat, r: nat)
    requires r > 0
    ensures (x + r) / r == x / r + 1
  {
    var q, m := x / r, x % r;
    assert x == q * r + m;
    assert (q + 1) * r == q * r + r;
    QuotientUnique(x + r, r, q + 1, m);
  }

  /** A finished run of n services at r per run has continued as new floor((n - 1) / r) times. */
  lemma {:induction false} RunCountOfFinishedDrive(s: Settings, g: Gateway, estate: Estate, perRun: int, today: int,
                                                   w: World, state: State, checkpoint: State, processed: nat)
    requires s.quota.Valid() && state.pending != []
    requires processed < Max(1, perRun)
    requires Drive(s, g, estate, perRun, today, w, state, checkpoint, processed).outcome.Done?
    ensures Drive(s, g, estate, perRun, today, w, state, checkpoint, processed).state.runCount
         == state.runCount + (|state.pending| - 1 + processed) / Max(1, perRun)
    decreases |state.pending|
  {
    var r := Max(1, perRun);
    DriveUnfolds(s, g, estate, perRun, today, w, state, checkpoint, processed);
    var batch := SummarisedAll(s, g, w, FilesOf(estate, state.pending[0]), today, false);
    if state.CompleteCurrent().pending != [] {
      var onward, count := Onward(perRun, state, processed), ProcessedAfter(perRun, state, processed);
      RunCountOfFinishedDrive(s, g, estate, perRun, today, batch.world, onward, onward, count);
      if AtBoundary(perRun, state, processed) {
        QuotientStep(|state.pending| - 2, r);
      }
    } else {
      assert processed / r == 0;
    }
  }

  // ----- The workflow over live state -----

  class WorkflowState {
    var pendingServices: seq<string>
    var completedServices: seq<string>
    var parked: bool
    var parkReason: Option<ParkReason>
    var runCount: nat

    constructor (start: State)
      ensures Value() == start
    {
      pendingServices, completedServices := start.pending, start.completed;
      parked, parkReason, runCount := start.parked, start.parkReason, start.runCount;
    }

    function Value(): State
      reads this
    {
      State(pendingServices, completedServices, parked, parkReason, runCount)
    }

    method CompleteCurrent()
      requires pendingServices != []
      modifies this
      ensures Value() == old(Value()).CompleteCurrent()
    {
      var service := pendingServices[0];
      pendingServices := pendingServices[1..];
      completedServices := completedServices + [service];
      parked, parkReason := false, None;
    }
  }

  /** Checkpoints are copies: mutating the live state later does not alter a saved one. */
  class InMemoryWorkflowStore {
    var rows: map<string, State>

    constructor ()
      ensures rows == map[]
    {
      rows := map[];
    }

    method Save(workflowId: string, state: WorkflowState)
      modifies this
      ensures rows == old(rows)[workflowId := state.Value()]
    {
      rows := rows[workflowId := state.Value()];
    }

    method Load(workflowId: string) returns (state: WorkflowState?)
      ensures state == null <==> workflowId !in rows
      ensures state != null ==> fresh(state) && state.Value() == rows[workflowId]
    {
      state := null;
      if workflowId in rows {
        state := new WorkflowState(rows[workflowId]);
      }
    }
  }

  class IndexingWorkflow {
    const workflowId: string
    const estate: Estate
    const servicesPerRun: int
    const activities: SummariseActivities
    const store: InMemoryWorkflowStore

    constructor (workflowId: string, estate: Estate, servicesPerRun: int, activities: SummariseActivities,
                 store: InMemoryWorkflowStore)
      ensures this.workflowId == workflowId && this.estate == estate && this.servicesPerRun == servicesPerRun
      ensures this.activities == activities && this.store == store
    {
      this.workflowId, this.estate, this.servicesPerRun := workflowId, estate, servicesPerRun;
      this.activities, this.store := activities, store;
    }

    ghost predicate Valid()
      reads activities.pool, store
    {
      activities.Valid() && workflowId in store.rows
    }

    /** The state of the world, of the live workflow and of its checkpoint, with an outcome. */
    ghost function Reached(state: WorkflowState, outcome: WorkflowOutcome): Run
      requires workflowId in store.rows
      reads store, state, activities.pool, activities.router, activities.fileLedger, activities.deadLetter,
          activities.summaries
    {
      Run(activities.Now(), state.Value(), store.rows[workflowId], outcome)
    }

    /** Park the workflow and save it so. */
    method Park(state: WorkflowState, reason: ParkReason)
      modifies state, store
      ensures state.Value() == old(state.Value()).Parked(reason)
      ensures store.rows == old(store.rows)[workflowId := state.Value()]
    {
      state.parked, state.parkReason := true, Some(reason);
      store.Save(workflowId, state);
    }

    /** One approved service: the activity, then completion and checkpoint unless it ended in a fault. */
    method IndexService(state: WorkflowState, files: seq<SourceFile>, today: int) returns (fault: bool)
      requires Valid() && state.pendingServices != []
      modifies state, store, activities.pool, activities.router, activities.fileLedger, activities.deadLetter,
          activities.summaries
      ensures Valid()
      ensures var batch := SummarisedAll(activities.settings, activities.router.gateway, old(activities.Now()), files,
                  today, false);
              var before := old(state.Value());
              && activities.Now() == batch.world && fault == batch.fault
              && state.Value() == (if fault then before else before.CompleteCurrent())
              && store.rows == if fault then old(store.rows) else old(store.rows)[workflowId := state.Value()]
    {
      var _, _, failed := activities.SummariseFiles(files, today);
      fault := failed;
      if !fault {
        state.CompleteCurrent();
        store.Save(workflowId, state);
      }
    }

    method RunIndexing(state: WorkflowState, today: int) returns (outcome: WorkflowOutcome)
      requires Valid()
      modifies state, store, activities.pool, activities.router, activities.fileLedger, activities.deadLetter,
          activities.summaries
      ensures Valid()
      ensures Reached(state, outcome) == RunTranche(activities.settings, activities.router.gateway, estate,
          servicesPerRun, today, old(activities.Now()), old(state.Value()), old(store.rows[workflowId]), 0)
    {
      ghost var goal := RunTranche(activities.settings, activities.router.gateway, estate, servicesPerRun,
        today, activities.Now(), state.Value(), store.rows[workflowId], 0);
      var processed := 0;
      while state.pendingServices != []
        invariant Valid() && 0 <= processed
        invariant goal == RunTranche(activities.settings, activities.router.gateway, estate, servicesPerRun,
          today, activities.Now(), state.Value(), store.rows[workflowId], processed)
        decreases |state.pendingServices|
      {
        var files := FilesOf(estate, state.pendingServices[0]);
        var cost := CostOf(activities.settings, files);
        var decision := activities.pool.RequestIndexingBudget(cost, today);
        if !decision.proceed {
          Park(state, TrancheExhausted(cost, decision.available));
          return ParkedOnQuota;
        }
        var fault := IndexService(state, files, today);
        if fault {
          return Crashed;
        }
        processed := processed + 1;
        if processed >= servicesPerRun && state.pendingServices != [] {
          state.runCount := state.runCount + 1;
          store.Save(workflowId, state);
          return Continue;
        }
      }
      return Done;
    }

    method DriveToEnd(state: WorkflowState, today: int) returns (outcome: WorkflowOutcome)
      requires Valid()
      modifies state, store, activities.pool, activities.router, activities.fileLedger, activities.deadLetter,
          activities.summaries
      ensures Valid()
      ensures Reached(state, outcome) == Drive(activities.settings, activities.router.gateway, estate, servicesPerRun,
                today, old(activities.Now()), old(state.Value()), old(store.rows[workflowId]), 0)
    {
      ghost var goal := Drive(activities.settings, activities.router.gateway, estate, servicesPerRun,
        today, activities.Now(), state.Value(), store.rows[workflowId], 0);
      outcome := RunIndexing(state, today);
      while outcome == Continue
        invariant Valid()
        invariant goal == if outcome == Continue
                          then Drive(activities.settings, activities.router.gateway, estate, servicesPerRun,
                                     today, activities.Now(), state.Value(), store.rows[workflowId], 0)
                          else Reached(state, outcome)
        decreases |state.pendingServices|, outcome == Continue
      {
        outcome := RunIndexing(state, today);
      }
    }
  }
}

/** The workflow with the production activity is an uninterrupted run of the tiered machine, and what such a machine
    spends, exactly (`backend/orchestration/workflow.py`, `backend/orchestration/activities.py`). */
module TieredDrive {
  import opened Persistence
  import opened Driver
  import opened Workflow
  import opened Tiers
  import opened Pyramid
  import opened CrashMachine
  import opened WorkflowIsARun
  import opened CrashSafety
  import opened ExactSpend
  import ServiceAtomicity
  import T = TieredMachine

  /** `Workflow.Drive` unfolded service by service, each treated by the activity with its three tiers. */
  ghost function Drive(c: T.Setup, g: Gateway, today: int, w: World, state: State, checkpoint: State,
                       processed: nat): Run
    requires c.Valid()
    decreases |state.pending|
  {
    if state.pending == [] then Run(w, state, checkpoint, Done)
    else
      var s, files := c.base.settings, FilesOf(c.base.estate, state.pending[0]);
      var cost := CostOf(s, files);
      if !s.Approves(w.spent, cost, today) then
        var parked := state.Parked(TrancheExhausted(cost, s.quota.Available(s.periodStart, w.spent, today)));
        Run(w, parked, parked, ParkedOnQuota)
      else
        var r := Activity(c.tiers, g, w, state.pending[0], files, today);
        if r.fault then Run(r.world, state, checkpoint, Workflow.Crashed)
        else
          var onward := Onward(c.base.perRun, state, processed);
          Drive(c, g, today, r.world, onward, onward, ProcessedAfter(c.base.perRun, state, processed))
  }

  // ----- Steps of the files' machine, in the tiered one -----

  /** None of the next n steps begins where the upper tiers take over. */
  predicate Clear(c: Config, m: Machine, reply: Reply, n: nat)
    requires c.settings.quota.Valid() && WellPlaced(c, m)
    decreases n
  {
    n == 0 || (!T.FilesTreated(c, m)
        && (StepWellPlaced(c, m, Go(reply)); Clear(c, Advanced(c, m, reply), reply, n - 1)))
  }

  lemma {:induction false} StepsLift(c: T.Setup, x: T.Tiered, reply: Reply, n: nat)
    requires c.Valid() && T.Placed(c, x) && x.upper.Below? && Clear(c.base, x.m, reply, n)
    ensures T.Execute(c, x, Repeat(reply, n)) == x.(m := Steps(c.base, x.m, reply, n))
    decreases n
  {
    if n > 0 {
      StepWellPlaced(c.base, x.m, Go(reply));
      StepsLift(c, x.(m := Advanced(c.base, x.m, reply)), reply, n - 1);
      T.ExecuteCons(c, x, Go(reply), Repeat(reply, n - 1));
    }
  }

  predicate Inner(phase: Phase) { phase.Calling? || InGap(phase) }

  /** Steps from inside the loop body to its next head. */
  function Left(phase: Phase, reply: Reply): nat {
    match phase
    case Calling(_) => if reply.Answer? then (if reply.body.Summary? then 3 else 4) else if reply.Rejected? then 3
        else 1
    case Charged(_, _, body) => if body.Summary? then 2 else 3
    case Failed(_, _, _) => 2
    case LedgerDue(_, _) => 1
    case Saved(_, _) => 1
    case _ => 0
  }

  lemma InnerStep(c: Config, m: Machine, reply: Reply)
    requires c.settings.quota.Valid() && WellPlaced(c, m) && Inner(m.phase)
    ensures Left(m.phase, reply) == Left(Advanced(c, m, reply).phase, reply) + 1
    ensures Left(Advanced(c, m, reply).phase, reply) > 0 ==> Inner(Advanced(c, m, reply).phase)
  {}

  lemma {:induction false} InnerIsClear(c: Config, m: Machine, reply: Reply, n: nat)
    requires c.settings.quota.Valid() && WellPlaced(c, m) && n <= Left(m.phase, reply) && (n > 0 ==> Inner(m.phase))
    ensures Clear(c, m, reply, n)
    decreases n
  {
    if n > 0 {
      StepWellPlaced(c, m, Go(reply));
      InnerStep(c, m, reply);
      InnerIsClear(c, Advanced(c, m, reply), reply, n - 1);
    }
  }

  lemma FileIsClear(c: Config, m: Machine, reply: Reply)
    requires c.settings.quota.Valid() && WellPlaced(c, m) && m.phase.Working? && m.phase.k < |CurrentFiles(c, m)|
    ensures Clear(c, m, reply, StepsOfFile(c.settings, m.world, CurrentFiles(c, m)[m.phase.k], reply, m.today,
                                           m.phase.held))
  {
    var n := StepsOfFile(c.settings, m.world, CurrentFiles(c, m)[m.phase.k], reply, m.today, m.phase.held);
    StepWellPlaced(c, m, Go(reply));
    FirstStepOfFile(c, m, reply);
    InnerIsClear(c, Advanced(c, m, reply), reply, n - 1);
  }

  /** The file loop, in the tiered machine. */
  lemma {:induction false} FilesAreARun(c: T.Setup, g: Gateway, x: T.Tiered) returns (actions: seq<Action>)
    requires c.Valid() && T.Placed(c, x) && x.upper.Below? && x.m.phase.Working?
    ensures Uninterrupted(actions)
    ensures var files, y := CurrentFiles(c.base, x.m), T.Execute(c, x, actions);
            var batch := SummarisedAll(c.base.settings, g, x.m.world, files[x.m.phase.k..], x.m.today, x.m.phase.held);
            && y.upper.Below? && SamePlace(x.m, y.m) && y.m.world == batch.world
            && (batch.fault ==> y.m.phase == Down)
            && (!batch.fault ==> T.FilesTreated(c.base, y.m))
    decreases |CurrentFiles(c.base, x.m)| - x.m.phase.k
  {
    var m, files, k := x.m, CurrentFiles(c.base, x.m), x.m.phase.k;
    if k == |files| {
      return [];
    }
    var reply := g(c.base.settings.RenderTier1Prompt(files[k]), m.world.calls);
    var count := StepsOfFile(c.base.settings, m.world, files[k], reply, m.today, m.phase.held);
    FileIsSteps(c.base, g, m);
    FileIsClear(c.base, m, reply);
    StepsLift(c, x, reply, count);
    RepeatUninterrupted(reply, count);
    actions := Repeat(reply, count);
    var y := T.Execute(c, x, actions);
    assert files[k..][0] == files[k] && files[k..][1..] == files[k + 1..];
    if y.m.phase.Working? {
      var rest := FilesAreARun(c, g, y);
      T.ExecuteAppend(c, x, actions, rest);
      actions := actions + rest;
    }
  }

  // ----- The upper tiers -----

  /** One step where the upper tiers are entered, changed or left. */
  lemma HandOver(c: T.Setup, x: T.Tiered)
    requires c.Valid() && T.Placed(c, x)
    ensures T.Placed(c, T.Step(c, x, Go(Fault))) && T.Execute(c, x, [Go(Fault)]) == T.Step(c, x, Go(Fault))
    ensures Uninterrupted([Go(Fault)])
  {
    T.ExecuteOne(c, x, Go(Fault));
  }

  /** After `first`, either the run is down or `second` goes on from there. */
  lemma Joined(c: T.Setup, x: T.Tiered, first: seq<Action>, second: seq<Action>)
    requires c.Valid() && T.Placed(c, x) && Uninterrupted(first) && Uninterrupted(second)
    ensures Uninterrupted(first + second)
    ensures T.Execute(c, x, first + second) == T.Execute(c, T.Execute(c, x, first), second)
  {
    T.ExecuteAppend(c, x, first, second);
  }

  lemma ServiceTierIsARun(c: T.Setup, g: Gateway, x: T.Tiered) returns (actions: seq<Action>)
    requires c.Valid() && T.Placed(c, x) && x.upper.AtUnit? && x.upper.tier == 2 && x.upper.k == |x.upper.units|
    ensures Uninterrupted(actions)
    ensures var y, w := T.Execute(c, x, actions), x.m.world;
            var b := TreatedUnits(c.tiers, g, w, ServiceUnits(c.tiers, w.summaries, x.m.mem.pending[0]),
                                  c.tiers.serviceVersion, x.m.today, false);
            && y.upper.Below? && y.m.world == b.world && y.m.today == x.m.today
            && y.m.checkpoint == x.m.checkpoint && y.m.processed == x.m.processed
            && (b.fault ==> y.m.phase == Down && y.m.mem == x.m.mem)
            && (!b.fault ==> y.m.phase == Completed && y.m.mem == x.m.mem.CompleteCurrent())
  {
    HandOver(c, x);
    var at := T.Step(c, x, Go(Fault));
    assert at.upper.units[0..] == at.upper.units;
    var units := T.UnitsAreARun(c, g, at);
    var y := T.Execute(c, at, units);
    Joined(c, x, [Go(Fault)], units);
    actions := [Go(Fault)] + units;
    if !y.upper.Below? {
      HandOver(c, y);
      Joined(c, x, actions, [Go(Fault)]);
      actions := actions + [Go(Fault)];
    }
  }

  /** The whole activity on an approved service. */
  lemma ActivityIsARun(c: T.Setup, g: Gateway, x: T.Tiered) returns (actions: seq<Action>)
    requires c.Valid() && T.Placed(c, x) && x.upper.Below? && x.m.phase == Working(0, false)
    ensures Uninterrupted(actions)
    ensures var y := T.Execute(c, x, actions);
            var r := Activity(c.tiers, g, x.m.world, x.m.mem.pending[0], CurrentFiles(c.base, x.m), x.m.today);
            && y.upper.Below? && y.m.world == r.world && y.m.today == x.m.today
            && y.m.checkpoint == x.m.checkpoint && y.m.processed == x.m.processed
            && (r.fault ==> y.m.phase == Down && y.m.mem == x.m.mem)
            && (!r.fault ==> y.m.phase == Completed && y.m.mem == x.m.mem.CompleteCurrent())
  {
    var files := CurrentFiles(c.base, x.m);
    assert files[0..] == files;
    actions := FilesAreARun(c, g, x);
    var treated := T.Execute(c, x, actions);
    if T.FilesTreated(c.base, treated.m) {
      var rest := UpperTiersAreARun(c, g, treated);
      Joined(c, x, actions, rest);
      actions := actions + rest;
    }
  }

  lemma UpperTiersAreARun(c: T.Setup, g: Gateway, x: T.Tiered) returns (actions: seq<Action>)
    requires c.Valid() && T.Placed(c, x) && x.upper.Below? && T.FilesTreated(c.base, x.m)
    ensures Uninterrupted(actions)
    ensures var y, w, service := T.Execute(c, x, actions), x.m.world, x.m.mem.pending[0];
            var b2 := TreatedUnits(c.tiers, g, w, ModuleUnits(c.tiers, w.summaries, service), c.tiers.moduleVersion,
                                   x.m.today, false);
            var b3 := TreatedUnits(c.tiers, g, b2.world, ServiceUnits(c.tiers, b2.world.summaries, service),
                                   c.tiers.serviceVersion, x.m.today, false);
            && y.upper.Below? && y.m.world == (if b2.fault then b2.world else b3.world) && y.m.today == x.m.today
            && y.m.checkpoint == x.m.checkpoint && y.m.processed == x.m.processed
            && (b2.fault || b3.fault ==> y.m.phase == Down && y.m.mem == x.m.mem)
            && (!b2.fault && !b3.fault ==> y.m.phase == Completed && y.m.mem == x.m.mem.CompleteCurrent())
  {
    HandOver(c, x);
    var at := T.Step(c, x, Go(Fault));
    assert at.upper.units[0..] == at.upper.units;
    var units := T.UnitsAreARun(c, g, at);
    var y := T.Execute(c, at, units);
    Joined(c, x, [Go(Fault)], units);
    actions := [Go(Fault)] + units;
    if !y.upper.Below? {
      var rest := ServiceTierIsARun(c, g, y);
      Joined(c, x, actions, rest);
      actions := actions + rest;
    }
  }

  // ----- The workflow -----

  /** Checkpointing a completed service and, at the boundary, counting a continue-as-new. */
  lemma CheckpointIsARun(c: T.Setup, x: T.Tiered, before: State) returns (actions: seq<Action>)
    requires c.Valid() && T.Placed(c, x) && x.upper.Below? && x.m.phase == Completed
    requires before.pending != [] && x.m.mem == before.CompleteCurrent()
    ensures Uninterrupted(actions)
    ensures var onward := Onward(c.base.perRun, before, x.m.processed);
            T.Execute(c, x, actions) == x.(m := x.m.(mem := onward, checkpoint := onward, phase := Ready,
                processed := ProcessedAfter(c.base.perRun, before, x.m.processed)))
  {
    HandOver(c, x);
    actions := [Go(Fault)];
    var y := T.Step(c, x, Go(Fault));
    if y.m.phase.Counted? {
      HandOver(c, y);
      Joined(c, x, actions, [Go(Fault)]);
      actions := actions + [Go(Fault)];
    }
  }

  /** One approved service: activity, checkpoint, continuation. */
  lemma ServiceIsARun(c: T.Setup, g: Gateway, x: T.Tiered) returns (actions: seq<Action>)
    requires c.Valid() && T.Placed(c, x) && x.upper.Below? && x.m.phase.Ready? && x.m.mem.pending != []
    requires c.base.settings.Approves(x.m.world.spent, CostOf(c.base.settings, CurrentFiles(c.base, x.m)), x.m.today)
    ensures Uninterrupted(actions)
    ensures var y := T.Execute(c, x, actions);
            var r := Activity(c.tiers, g, x.m.world, x.m.mem.pending[0], CurrentFiles(c.base, x.m), x.m.today);
            var onward := Onward(c.base.perRun, x.m.mem, x.m.processed);
            && y.upper.Below? && y.m.world == r.world && y.m.today == x.m.today
            && (r.fault ==> y.m.phase == Down && y.m.mem == x.m.mem && y.m.checkpoint == x.m.checkpoint)
            && (!r.fault ==> y.m.phase == Ready && y.m.mem == onward && y.m.checkpoint == onward
                             && y.m.processed == ProcessedAfter(c.base.perRun, x.m.mem, x.m.processed))
  {
    HandOver(c, x);
    var begun := T.Step(c, x, Go(Fault));
    var activity := ActivityIsARun(c, g, begun);
    Joined(c, x, [Go(Fault)], activity);
    actions := [Go(Fault)] + activity;
    var y := T.Execute(c, begun, activity);
    if y.m.phase.Completed? {
      var rest := CheckpointIsARun(c, y, x.m.mem);
      Joined(c, x, actions, rest);
      actions := actions + rest;
    }
  }

  /** A drive of the workflow with the production activity, for every gateway, cadence and starting state, is an
      uninterrupted run of the tiered machine. */
  lemma {:induction false} TieredDriveIsARun(c: T.Setup, g: Gateway, x: T.Tiered) returns (actions: seq<Action>)
    requires c.Valid() && T.Placed(c, x) && x.upper.Below? && x.m.phase.Ready?
    ensures Uninterrupted(actions)
    ensures var y := T.Execute(c, x, actions);
            var r := Drive(c, g, x.m.today, x.m.world, x.m.mem, x.m.checkpoint, x.m.processed);
            && y.upper.Below? && y.m.world == r.world && y.m.checkpoint == r.checkpoint && y.m.mem == r.state
            && y.m.phase == if r.outcome.Crashed? then Down else Stopped(r.outcome)
    decreases |x.m.mem.pending|
  {
    if x.m.mem.pending == [] {
      HandOver(c, x);
      actions := [Go(Fault)];
    } else if !c.base.settings.Approves(x.m.world.spent, CostOf(c.base.settings, CurrentFiles(c.base, x.m)),
        x.m.today) {
      actions := ParkIsARun(c, x);
    } else {
      actions := ServiceIsARun(c, g, x);
      var y := T.Execute(c, x, actions);
      if y.m.phase.Ready? {
        var rest := TieredDriveIsARun(c, g, y);
        Joined(c, x, actions, rest);
        actions := actions + rest;
      }
    }
  }

  lemma ParkIsARun(c: T.Setup, x: T.Tiered) returns (actions: seq<Action>)
    requires c.Valid() && T.Placed(c, x) && x.upper.Below? && x.m.phase.Ready? && x.m.mem.pending != []
    requires var s, cost := c.base.settings, CostOf(c.base.settings, CurrentFiles(c.base, x.m));
             !s.Approves(x.m.world.spent, cost, x.m.today)
    ensures Uninterrupted(actions)
    ensures var s, cost := c.base.settings, CostOf(c.base.settings, CurrentFiles(c.base, x.m));
            var parked := x.m.mem.Parked(TrancheExhausted(cost,
                s.quota.Available(s.periodStart, x.m.world.spent, x.m.today)));
            T.Execute(c, x, actions)
            == x.(m := x.m.(mem := parked, checkpoint := parked, phase := Stopped(ParkedOnQuota)))
  {
    HandOver(c, x);
    var y := T.Step(c, x, Go(Fault));
    HandOver(c, y);
    Joined(c, x, [Go(Fault)], [Go(Fault)]);
    actions := [Go(Fault)] + [Go(Fault)];
  }

  // ----- Exact spend -----

  /** What a call for a unit costs, given its key and the hash of its children. */
  type UnitCost = (SummaryKey, string) -> nat

  function HashOf(c: T.Setup, unit: Unit, tier: nat): string {
    HigherContentHash(c.tiers.sha, unit.childHashes, c.Version(tier))
  }

  /** Every answer for a file costs the same and is a summary, and so does every answer for a unit. */
  ghost predicate Steady(c: T.Setup, x: T.Tiered, a: Action, cost: Cost, unitCost: UnitCost)
    requires T.Placed(c, x)
  {
    && Parseable(x.m, a) && FixedCost(c.base, x.m, a, cost)
    && (a.Go? && x.upper.CallingUnit? && a.reply.Answer? ==>
          var unit := x.upper.units[x.upper.k];
          a.reply.body.Summary? && a.reply.tokens == unitCost(unit.key, HashOf(c, unit, x.upper.tier)))
  }

  ghost predicate RunSteady(c: T.Setup, x: T.Tiered, actions: seq<Action>, cost: Cost, unitCost: UnitCost)
    requires c.Valid() && T.Placed(c, x)
    decreases |actions|
  {
    actions == [] || (Steady(c, x, actions[0], cost, unitCost) && (T.StepPlaced(c, x, actions[0]);
                      RunSteady(c, T.Step(c, x, actions[0]), actions[1..], cost, unitCost)))
  }

  ghost predicate IsUnitCost(unitCost: UnitCost, n: nat) { exists key, hash :: n == unitCost(key, hash) }

  /** Every summary stored cost what it costs, nothing is wasted, and what a crash cut off is the cost of a call. */
  ghost predicate UnitsExact(c: T.Setup, x: T.Tiered, unitCost: UnitCost)
    requires T.Placed(c, x)
  {
    && x.wasted == []
    && (forall i :: 0 <= i < |x.made| ==> x.made[i].tokens == unitCost(x.made[i].key, x.made[i].hash))
    && (forall i :: 0 <= i < |x.cut| ==> IsUnitCost(unitCost, x.cut[i]))
    && (x.upper.ChargedUnit? ==>
          && x.upper.body.Summary?
          && x.upper.tokens == unitCost(x.upper.units[x.upper.k].key,
                                        HashOf(c, x.upper.units[x.upper.k], x.upper.tier)))
  }

  lemma StepKeepsUnitsExact(c: T.Setup, x: T.Tiered, a: Action, cost: Cost, unitCost: UnitCost)
    requires c.Valid() && T.Placed(c, x) && UnitsExact(c, x, unitCost) && Steady(c, x, a, cost, unitCost)
    ensures T.Placed(c, T.Step(c, x, a)) && UnitsExact(c, T.Step(c, x, a), unitCost)
  {
    T.StepPlaced(c, x, a);
    if x.upper.ChargedUnit? && a.Go? {
      StoreKeepsUnitsExact(c, x, a.reply, unitCost);
    } else if x.upper.ChargedUnit? {
      assert IsUnitCost(unitCost, x.upper.tokens);
    }
  }

  /** A charge in flight is stored at its cost. */
  lemma StoreKeepsUnitsExact(c: T.Setup, x: T.Tiered, reply: Reply, unitCost: UnitCost)
    requires c.Valid() && T.Placed(c, x) && x.upper.ChargedUnit? && UnitsExact(c, x, unitCost)
    requires T.Placed(c, T.UnitStep(c, x, reply))
    ensures UnitsExact(c, T.UnitStep(c, x, reply), unitCost)
  {}

  /** The account of the files, with what the units have cost set aside. */
  ghost predicate FilesExact(c: T.Setup, catalogue: seq<SourceFile>, rows0: LedgerRows, cost: Cost, before: int,
                             x: T.Tiered)
    requires T.Placed(c, x)
  {
    Exact(c.base, catalogue, rows0, cost, before + T.UnitSpend(x), x.m)
  }

  /** A step that moves no row and no charge of a file, and charges what the account says, keeps the account. */
  lemma ExactShifts(c: Config, catalogue: seq<SourceFile>, rows0: LedgerRows, cost: Cost, before: int, m: Machine,
                    after: int, n: Machine)
    requires WellPlaced(c, m) && WellPlaced(c, n) && Exact(c, catalogue, rows0, cost, before, m)
    requires n.world.rows == m.world.rows && n.paid == m.paid && n.buried == m.buried && n.lost == m.lost
    requires !m.phase.Calling? && !InGap(m.phase) && !n.phase.Calling? && !InGap(n.phase)
    requires n.world.spent - after == m.world.spent - before && n.crashes >= m.crashes
    ensures Exact(c, catalogue, rows0, cost, after, n)
  {
    T.AccountShifts(c, catalogue, before, m, after, n);
  }

  lemma UnitStepKeepsFilesExact(c: T.Setup, catalogue: seq<SourceFile>, rows0: LedgerRows, cost: Cost, before: int,
                                x: T.Tiered, reply: Reply)
    requires c.Valid() && T.Placed(c, x) && !x.upper.Below? && FilesExact(c, catalogue, rows0, cost, before, x)
    requires T.Placed(c, T.UnitStep(c, x, reply))
    ensures FilesExact(c, catalogue, rows0, cost, before, T.UnitStep(c, x, reply))
  {
    var y := T.UnitStep(c, x, reply);
    T.UnitStepSpends(c, x, reply);
    ExactShifts(c.base, catalogue, rows0, cost, before + T.UnitSpend(x), x.m, before + T.UnitSpend(y), y.m);
  }

  lemma StepKeepsFilesExact(c: T.Setup, catalogue: seq<SourceFile>, rows0: LedgerRows, cost: Cost, before: int,
                            x: T.Tiered, a: Action)
    requires c.Valid() && T.Placed(c, x) && ServiceAtomicity.Admissible(c.base, catalogue, true)
    requires FilesExact(c, catalogue, rows0, cost, before, x)
    requires Parseable(x.m, a) && FixedCost(c.base, x.m, a, cost)
    ensures T.Placed(c, T.Step(c, x, a)) && FilesExact(c, catalogue, rows0, cost, before, T.Step(c, x, a))
  {
    T.StepPlaced(c, x, a);
    if a.Go? && !x.upper.Below? {
      UnitStepKeepsFilesExact(c, catalogue, rows0, cost, before, x, a.reply);
    } else if !(a.Go? && T.FilesTreated(c.base, x.m)) {
      StepKeepsExact(c.base, catalogue, rows0, cost, before + T.UnitSpend(x), x.m, a);
      BaseStepKeepsUnitSpend(c, x, a);
    }
  }

  /** Outside the unit calls no unit is charged; a crash there only moves the charge in flight to those cut off. */
  lemma BaseStepKeepsUnitSpend(c: T.Setup, x: T.Tiered, a: Action)
    requires c.Valid() && T.Placed(c, x) && (a.Go? ==> x.upper.Below? && !T.FilesTreated(c.base, x.m))
    ensures T.UnitSpend(T.Step(c, x, a)) == T.UnitSpend(x)
    ensures T.Step(c, x, a).m == if a.Resume? && !x.upper.Below? then x.m else CrashMachine.Step(c.base, x.m, a)
  {
    T.TotalsGrow(x.cut, T.InUnit(x.upper), x.made, T.Made(SummaryKey(2, ""), "", 0));
  }

  lemma {:induction false} TieredRunKeepsExact(c: T.Setup, catalogue: seq<SourceFile>, rows0: LedgerRows, cost: Cost,
                                               unitCost: UnitCost, before: int, x: T.Tiered, actions: seq<Action>)
    requires c.Valid() && T.Placed(c, x) && ServiceAtomicity.Admissible(c.base, catalogue, true)
    requires FilesExact(c, catalogue, rows0, cost, before, x) && UnitsExact(c, x, unitCost)
    requires RunSteady(c, x, actions, cost, unitCost)
    ensures var y := T.Execute(c, x, actions);
            FilesExact(c, catalogue, rows0, cost, before, y) && UnitsExact(c, y, unitCost)
    decreases |actions|
  {
    if actions != [] {
      StepKeepsFilesExact(c, catalogue, rows0, cost, before, x, actions[0]);
      StepKeepsUnitsExact(c, x, actions[0], cost, unitCost);
      TieredRunKeepsExact(c, catalogue, rows0, cost, unitCost, before, T.Step(c, x, actions[0]), actions[1..]);
    }
  }

  /** Cost of the unit summaries stored, from their keys and the hashes of their children. */
  function MadeCost(made: seq<T.Made>, unitCost: UnitCost): nat {
    if made == [] then 0
    else MadeCost(made[..|made| - 1], unitCost) + unitCost(made[|made| - 1].key, made[|made| - 1].hash)
  }

  lemma {:induction false} MadeAtCost(made: seq<T.Made>, unitCost: UnitCost)
    requires forall i :: 0 <= i < |made| ==> made[i].tokens == unitCost(made[i].key, made[i].hash)
    ensures T.TotalMade(made) == MadeCost(made, unitCost)
  {
    if made != [] {
      MadeAtCost(made[..|made| - 1], unitCost);
    }
  }

  /** Exact spend of the production activity over every run with fixed costs and parseable answers, whatever it has of
      holds, exhausted quotas and crashes: each file newly summarised once, each unit summary stored once, none of them
      from the children of the one before it, one call for each crash between a charge and what records it, and the
      call in that gap now. */
  lemma TieredSpendIsExact(c: T.Setup, catalogue: seq<SourceFile>, cost: Cost, unitCost: UnitCost, w: World,
                           checkpoint: State, today: int, actions: seq<Action>)
    requires c.Valid() && ServiceAtomicity.Admissible(c.base, catalogue, true)
    requires RunSteady(c, T.Begin(w, checkpoint, today), actions, cost, unitCost)
    ensures var y := T.Execute(c, T.Begin(w, checkpoint, today), actions);
            && y.m.world.spent == w.spent + NewCost(c.base.settings, catalogue, w.rows, y.m.world.rows, cost)
                                  + MadeCost(y.made, unitCost) + TotalTokens(y.m.lost) + T.Total(y.cut)
                                  + InFlight(y.m.phase) + T.InUnit(y.upper)
            && T.NeverRemade(y.made) && |y.m.lost| + |y.cut| <= y.m.crashes
            && (forall charge <- y.m.lost :: IsCallOf(catalogue, cost, charge))
            && (forall i :: 0 <= i < |y.cut| ==> IsUnitCost(unitCost, y.cut[i]))
  {
    var x := T.Begin(w, checkpoint, today);
    var y := T.Execute(c, x, actions);
    StartIsAccounted(c.base, catalogue, w, checkpoint, today);
    T.BeginIsAccounted(c, catalogue, w, checkpoint, today);
    T.TieredSpendIsAccountedFor(c, catalogue, w.spent, x, actions);
    TieredRunKeepsExact(c, catalogue, w.rows, cost, unitCost, w.spent, x, actions);
    MadeAtCost(y.made, unitCost);
    ExactIsNew(c.base, catalogue, w.rows, cost, w.spent + T.UnitSpend(y), y.m);
  }
}

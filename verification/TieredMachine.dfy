/** The durable run with the production activity (`backend/orchestration/activities.py`,
    `backend/summarise/higher.py`): between the last file of a service and its checkpoint, the module and service
    units are called, one effect per step, with a crash possible between any two. */
module TieredMachine {
  import opened Domain
  import opened Persistence
  import opened Quota
  import opened Driver
  import opened Workflow
  import opened Tiers
  import opened Pyramid
  import opened CrashMachine
  import opened CrashSafety
  import PyramidCascade
  import TrancheBudget
  import WorkflowIsARun

  datatype Setup = Setup(base: Config, tiers: TierSettings) {
    ghost predicate Valid() { base.settings == tiers.base && base.settings.quota.Valid() }

    function Version(tier: nat): string { if tier == 2 then tiers.moduleVersion else tiers.serviceVersion }
  }

  /** Where the worker stands in the upper tiers, if it does. */
  datatype Upper =
    | Below
    | AtUnit(tier: nat, units: seq<Unit>, k: nat, held: bool)                     // at the head of the unit loop
    | CallingUnit(tier: nat, units: seq<Unit>, k: nat)                            // approved, call in flight
    | ChargedUnit(tier: nat, units: seq<Unit>, k: nat, tokens: nat, body: Body)   // charged, nothing stored yet

  /** A summary stored for a unit: its key, the hash of its children, and what the call cost. */
  datatype Made = Made(key: SummaryKey, hash: string, tokens: nat)

  /** `made`, `wasted` and `cut` are the history of the unit calls: stored, answered without a summary, and
      cut off by a crash. */
  datatype Tiered = Tiered(m: Machine, upper: Upper, made: seq<Made>, wasted: seq<nat>, cut: seq<nat>)

  function Begin(w: World, checkpoint: State, today: int): Tiered {
    Tiered(Start(w, checkpoint, today), Below, [], [], [])
  }

  /** All files of the current service are treated. */
  predicate FilesTreated(c: Config, m: Machine) {
    m.phase.Working? && m.mem.pending != [] && m.phase.k == |CurrentFiles(c, m)|
  }

  ghost predicate Placed(c: Setup, x: Tiered) {
    && WellPlaced(c.base, x.m)
    && (!x.upper.Below? ==> FilesTreated(c.base, x.m) && x.upper.k <= |x.upper.units|)
    && (x.upper.CallingUnit? || x.upper.ChargedUnit? ==> x.upper.k < |x.upper.units|)
  }

  ghost function Step(c: Setup, x: Tiered, a: Action): Tiered
    requires c.Valid() && Placed(c, x)
  {
    match a
    case Crash =>
      if x.m.phase.Down? then x
      else x.(m := CrashMachine.Crashed(c.base, x.m), upper := Below, cut := x.cut + CutOff(x.upper))
    case Resume(_) => if x.upper.Below? then x.(m := CrashMachine.Step(c.base, x.m, a)) else x
    case Go(reply) =>
      if !x.upper.Below? then UnitStep(c, x, reply)
      else if FilesTreated(c.base, x.m) then
        x.(upper := AtUnit(2, ModuleUnits(c.tiers, x.m.world.summaries, x.m.mem.pending[0]), 0, false))
      else x.(m := Advanced(c.base, x.m, reply))
  }

  function CutOff(upper: Upper): seq<nat> { if upper.ChargedUnit? then [upper.tokens] else [] }

  /** The next effect of the worker in the upper tiers. */
  ghost function UnitStep(c: Setup, x: Tiered, reply: Reply): Tiered
    requires c.Valid() && Placed(c, x) && !x.upper.Below?
  {
    var w := x.m.world;
    match x.upper
    case AtUnit(tier, units, k, held) =>
      if k == |units| then
        if tier == 2 then
          x.(upper := AtUnit(3, ServiceUnits(c.tiers, w.summaries, x.m.mem.pending[0]), 0, false))
        else x.(m := x.m.(mem := x.m.mem.CompleteCurrent(), phase := Completed), upper := Below)
      else if held then x.(upper := AtUnit(tier, units, k + 1, true))
      else if UpToDate(c.tiers, w.summaries, units[k], c.Version(tier))
          then x.(upper := AtUnit(tier, units, k + 1, false))
      else if !c.base.settings.Approves(w.spent, units[k].cost, x.m.today)
          then x.(upper := AtUnit(tier, units, k + 1, true))
      else x.(upper := CallingUnit(tier, units, k))
    case CallingUnit(tier, units, k) =>
      var called := w.(calls := w.calls + 1);
      (match reply
       case Answer(tokens, body) =>
         x.(m := x.m.(world := called.(spent := w.spent + tokens)), upper := ChargedUnit(tier, units, k, tokens, body))
       case Rejected(_) => x.(m := x.m.(world := called), upper := AtUnit(tier, units, k + 1, false))
       // Only content failures are caught here: anything else ends the worker.
       case Exhausted => x.(m := x.m.(world := called, phase := Down, crashes := x.m.crashes + 1), upper := Below)
       case Fault => x.(m := x.m.(world := called, phase := Down, crashes := x.m.crashes + 1), upper := Below))
    case ChargedUnit(tier, units, k, tokens, body) =>
      if body.Summary? then
        var hash := HigherContentHash(c.tiers.sha, units[k].childHashes, c.Version(tier));
        var record := SummaryRecord(units[k].kind, body.text, hash, c.Version(tier));
        x.(m := x.m.(world := w.(summaries := w.summaries[units[k].key := record])),
           upper := AtUnit(tier, units, k + 1, false), made := x.made + [Made(units[k].key, hash, tokens)])
      else x.(upper := AtUnit(tier, units, k + 1, false), wasted := x.wasted + [tokens])
  }

  /** With the upper tiers, an exhausted quota there ends the worker as well. */
  lemma CrashesAreCounted(c: Setup, x: Tiered, a: Action)
    requires c.Valid() && Placed(c, x)
    ensures var calls := if x.upper.Below? then x.m.phase.Calling? else x.upper.CallingUnit?;
            var ends := || (a.Crash? && !x.m.phase.Down?)
                        || (a.Go? && calls && (a.reply.Fault? || (a.reply.Exhausted? && !x.upper.Below?)));
            Step(c, x, a).m.crashes == x.m.crashes + if ends then 1 else 0
  {}

  lemma StepPlaced(c: Setup, x: Tiered, a: Action)
    requires c.Valid() && Placed(c, x)
    ensures Placed(c, Step(c, x, a))
  {
    if a.Resume? {
      StepWellPlaced(c.base, x.m, a);
    } else if a.Go? {
      StepWellPlaced(c.base, x.m, a);
    }
  }

  ghost function Execute(c: Setup, x: Tiered, actions: seq<Action>): (r: Tiered)
    requires c.Valid() && Placed(c, x)
    ensures Placed(c, r)
    decreases |actions|
  {
    if actions == [] then x
    else
      StepPlaced(c, x, actions[0]);
      Execute(c, Step(c, x, actions[0]), actions[1..])
  }

  // ----- Crash-safe spend -----

  function Total(xs: seq<nat>): nat { if xs == [] then 0 else Total(xs[..|xs| - 1]) + xs[|xs| - 1] }

  function TotalMade(made: seq<Made>): nat {
    if made == [] then 0 else TotalMade(made[..|made| - 1]) + made[|made| - 1].tokens
  }

  function InUnit(upper: Upper): nat { if upper.ChargedUnit? then upper.tokens else 0 }

  /** Everything the unit calls have charged. */
  function UnitSpend(x: Tiered): nat { TotalMade(x.made) + Total(x.wasted) + Total(x.cut) + InUnit(x.upper) }

  lemma TotalsGrow(xs: seq<nat>, n: nat, made: seq<Made>, one: Made)
    ensures Total(xs + [n]) == Total(xs) + n && Total(xs + []) == Total(xs)
    ensures TotalMade(made + [one]) == TotalMade(made) + one.tokens
  {
    assert (xs + [n])[..|xs|] == xs && xs + [] == xs && (made + [one])[..|made|] == made;
  }

  /** The hash of the last summary stored for a key in this run. */
  function LastMade(made: seq<Made>, key: SummaryKey): Option<string> {
    if made == [] then None
    else if made[|made| - 1].key == key then Some(made[|made| - 1].hash)
    else LastMade(made[..|made| - 1], key)
  }

  /** No summary was made again from the very children the one before it was made from. */
  predicate NeverRemade(made: seq<Made>) {
    made == [] || (NeverRemade(made[..|made| - 1])
                   && LastMade(made[..|made| - 1], made[|made| - 1].key) != Some(made[|made| - 1].hash))
  }

  ghost predicate Recorded(made: seq<Made>, summaries: SummaryRows) {
    forall key | LastMade(made, key).Some? ::
      key in summaries && summaries[key].contentHash == LastMade(made, key).value
  }

  /** Pool spend is what `CrashSafety` accounts for, plus every unit call: stored, wasted, cut off or in flight.
      A crash cuts off at most one charge, of a file or of a unit. */
  ghost predicate Accounted(c: Setup, catalogue: seq<SourceFile>, spentBefore: int, x: Tiered)
    requires Placed(c, x)
  {
    && CrashSafety.Accounted(c.base, catalogue, spentBefore + UnitSpend(x), x.m)
    && |x.m.lost| + |x.cut| <= x.m.crashes
    && History(c, x)
  }

  /** Upper-tier keys are not those of files. */
  ghost predicate UpperKeys(upper: Upper) {
    !upper.Below? ==> forall i :: 0 <= i < |upper.units| ==> upper.units[i].key.tier != 1
  }

  ghost predicate OnlyUpperMade(made: seq<Made>) { forall i :: 0 <= i < |made| ==> made[i].key.tier != 1 }

  lemma {:induction false} LastIsUpper(made: seq<Made>, key: SummaryKey)
    requires OnlyUpperMade(made) && key.tier == 1
    ensures LastMade(made, key) == None
  {
    if made != [] {
      LastIsUpper(made[..|made| - 1], key);
    }
  }

  /** Steps of the files' machine lose at most one charge to each crash, and touch tier-1 summaries only. */
  lemma BaseStep(c: Config, m: Machine, a: Action)
    requires c.settings.quota.Valid() && WellPlaced(c, m)
    ensures var n := CrashMachine.Step(c, m, a);
            |n.lost| - |m.lost| <= n.crashes - m.crashes
  {}

  lemma BaseStepStaysBelow(c: Config, m: Machine, a: Action)
    requires c.settings.quota.Valid() && WellPlaced(c, m)
    ensures var n := CrashMachine.Step(c, m, a);
            forall k: SummaryKey | k.tier != 1 :: PyramidCascade.SameSummary(m.world.summaries, n.world.summaries, k)
  {
    if m.phase.Charged? {
      var file := CurrentFiles(c, m)[m.phase.k];
      assert SummaryKeyOf(file).tier == 1;
    }
  }

  lemma RecordedElsewhere(made: seq<Made>, a: SummaryRows, b: SummaryRows)
    requires OnlyUpperMade(made) && Recorded(made, a)
    requires forall k: SummaryKey | k.tier != 1 :: PyramidCascade.SameSummary(a, b, k)
    ensures Recorded(made, b)
  {
    forall key | LastMade(made, key).Some? ensures key in b && b[key].contentHash == LastMade(made, key).value {
      if key.tier == 1 {
        LastIsUpper(made, key);
      } else {
        assert PyramidCascade.SameSummary(a, b, key);
      }
    }
  }

  lemma RecordedAfter(made: seq<Made>, summaries: SummaryRows, one: Made, record: SummaryRecord)
    requires Recorded(made, summaries) && record.contentHash == one.hash && OnlyUpperMade(made) && one.key.tier != 1
    ensures Recorded(made + [one], summaries[one.key := record]) && OnlyUpperMade(made + [one])
  {
    assert (made + [one])[..|made|] == made;
  }

  lemma MadeAnew(made: seq<Made>, summaries: SummaryRows, one: Made)
    requires Recorded(made, summaries) && NeverRemade(made)
    requires !(one.key in summaries && summaries[one.key].contentHash == one.hash)
    ensures NeverRemade(made + [one])
  {
    assert (made + [one])[..|made|] == made;
  }

  /** A step at the head of the unit loop calls nothing and stores nothing: it goes on in the tier, approves the unit
      it stands at, hands over to the next tier or completes the service. */
  lemma AtUnitStep(c: Setup, x: Tiered, reply: Reply)
    requires c.Valid() && Placed(c, x) && x.upper.AtUnit?
    ensures var y, u := UnitStep(c, x, reply), x.upper;
            && y.made == x.made && y.wasted == x.wasted && y.cut == x.cut && !y.upper.ChargedUnit?
            && (y.m == x.m || (y.upper.Below? && y.m == x.m.(mem := x.m.mem.CompleteCurrent(), phase := Completed)))
            && (y.upper.CallingUnit? ==>
                  && u.k < |u.units| && y.upper == CallingUnit(u.tier, u.units, u.k)
                  && !UpToDate(c.tiers, x.m.world.summaries, u.units[u.k], c.Version(u.tier))
                  && c.base.settings.Approves(x.m.world.spent, u.units[u.k].cost, x.m.today))
            && (y.upper.AtUnit? ==>
                  || y.upper.units == u.units
                  || y.upper.units == ServiceUnits(c.tiers, x.m.world.summaries, x.m.mem.pending[0]))
  {}

  /** From x to y spend and the unit calls' account move together, and nothing of the files' account moves. */
  predicate SpendsAlike(x: Tiered, y: Tiered) {
    && y.m.world.spent - UnitSpend(y) == x.m.world.spent - UnitSpend(x)
    && y.m.world.rows == x.m.world.rows && y.m.paid == x.m.paid && y.m.buried == x.m.buried && y.m.lost == x.m.lost
    && !y.m.phase.Calling? && !InGap(y.m.phase)
    && |y.cut| - |x.cut| <= y.m.crashes - x.m.crashes && y.m.crashes >= x.m.crashes
  }

  /** A unit step charges what it says, and moves no ledger row. */
  lemma UnitStepSpends(c: Setup, x: Tiered, reply: Reply)
    requires c.Valid() && Placed(c, x) && !x.upper.Below?
    ensures SpendsAlike(x, UnitStep(c, x, reply))
  {
    if x.upper.ChargedUnit? {
      StoreSpends(c, x, reply);
    } else if x.upper.CallingUnit? {
      CallSpends(c, x, reply);
    } else {
      AtUnitSpends(c, x, reply);
    }
  }

  lemma AtUnitSpends(c: Setup, x: Tiered, reply: Reply)
    requires c.Valid() && Placed(c, x) && x.upper.AtUnit?
    ensures SpendsAlike(x, UnitStep(c, x, reply))
  {
    AtUnitStep(c, x, reply);
  }

  lemma CallSpends(c: Setup, x: Tiered, reply: Reply)
    requires c.Valid() && Placed(c, x) && x.upper.CallingUnit?
    ensures SpendsAlike(x, UnitStep(c, x, reply))
  {}

  lemma StoreSpends(c: Setup, x: Tiered, reply: Reply)
    requires c.Valid() && Placed(c, x) && x.upper.ChargedUnit?
    ensures SpendsAlike(x, UnitStep(c, x, reply))
  {
    var ChargedUnit(tier, units, k, tokens, body) := x.upper;
    var one := Made(units[k].key, HigherContentHash(c.tiers.sha, units[k].childHashes, c.Version(tier)), tokens);
    var y := UnitStep(c, x, reply);
    assert y.made == (if body.Summary? then x.made + [one] else x.made) && y.cut == x.cut && !y.upper.ChargedUnit?;
    assert y.wasted == if body.Summary? then x.wasted else x.wasted + [tokens];
    assert y.m == x.m.(world := x.m.world.(summaries := y.m.world.summaries));
    ChargeMoves(x, y, one, body.Summary?);
  }

  /** A charge in flight becomes one of the stored or of the wasted. */
  lemma ChargeMoves(x: Tiered, y: Tiered, one: Made, stored: bool)
    requires x.upper.ChargedUnit? && !y.upper.ChargedUnit? && one.tokens == x.upper.tokens && y.cut == x.cut
    requires y.made == if stored then x.made + [one] else x.made
    requires y.wasted == if stored then x.wasted else x.wasted + [one.tokens]
    ensures UnitSpend(y) == UnitSpend(x)
  {
    TotalsGrow(x.wasted, one.tokens, x.made, one);
  }

  lemma AccountShifts(c: Config, catalogue: seq<SourceFile>, before: int, m: Machine, after: int, n: Machine)
    requires WellPlaced(c, m) && WellPlaced(c, n) && CrashSafety.Accounted(c, catalogue, before, m)
    requires n.world.rows == m.world.rows && n.paid == m.paid && n.buried == m.buried && n.lost == m.lost
    requires !m.phase.Calling? && !InGap(m.phase) && !n.phase.Calling? && !InGap(n.phase)
    requires n.world.spent - after == m.world.spent - before && n.crashes >= m.crashes
    ensures CrashSafety.Accounted(c, catalogue, after, n)
  {}

  /** What `Accounted` says of the unit calls. */
  ghost predicate History(c: Setup, x: Tiered)
    requires Placed(c, x)
  {
    && NeverRemade(x.made) && OnlyUpperMade(x.made) && Recorded(x.made, x.m.world.summaries) && UpperKeys(x.upper)
    && (x.upper.CallingUnit? || x.upper.ChargedUnit? ==>
          !UpToDate(c.tiers, x.m.world.summaries, x.upper.units[x.upper.k], c.Version(x.upper.tier)))
  }

  /** Storing a unit's summary: its key was not up to date. */
  lemma StoreKeepsHistory(c: Setup, x: Tiered, reply: Reply)
    requires c.Valid() && Placed(c, x) && x.upper.ChargedUnit? && x.upper.body.Summary? && History(c, x)
    requires Placed(c, UnitStep(c, x, reply))
    ensures History(c, UnitStep(c, x, reply))
  {
    var ChargedUnit(tier, units, k, tokens, body) := x.upper;
    var hash := HigherContentHash(c.tiers.sha, units[k].childHashes, c.Version(tier));
    var one := Made(units[k].key, hash, tokens);
    MadeAnew(x.made, x.m.world.summaries, one);
    RecordedAfter(x.made, x.m.world.summaries, one, SummaryRecord(units[k].kind, body.text, hash, c.Version(tier)));
  }

  lemma UnitStepKeepsHistory(c: Setup, x: Tiered, reply: Reply)
    requires c.Valid() && Placed(c, x) && !x.upper.Below? && Placed(c, UnitStep(c, x, reply)) && History(c, x)
    ensures History(c, UnitStep(c, x, reply))
  {
    if x.upper.ChargedUnit? && x.upper.body.Summary? {
      StoreKeepsHistory(c, x, reply);
    } else if x.upper.AtUnit? {
      AtUnitKeepsHistory(c, x, reply);
    }
  }

  lemma AtUnitKeepsHistory(c: Setup, x: Tiered, reply: Reply)
    requires c.Valid() && Placed(c, x) && x.upper.AtUnit? && Placed(c, UnitStep(c, x, reply)) && History(c, x)
    ensures History(c, UnitStep(c, x, reply))
  {
    AtUnitStep(c, x, reply);
    PyramidCascade.ModuleUnitsAreDistinct(c.tiers, x.m.world.summaries, x.m.mem.pending[0]);
  }

  lemma StepKeepsAccount(c: Setup, catalogue: seq<SourceFile>, spentBefore: int, x: Tiered, a: Action)
    requires c.Valid() && Placed(c, x) && Catalogued(c.base, catalogue) && Accounted(c, catalogue, spentBefore, x)
    ensures Placed(c, Step(c, x, a)) && Accounted(c, catalogue, spentBefore, Step(c, x, a))
  {
    StepPlaced(c, x, a);
    if a.Go? && !x.upper.Below? {
      var y := UnitStep(c, x, a.reply);
      UnitStepSpends(c, x, a.reply);
      AccountShifts(c.base, catalogue, spentBefore + UnitSpend(x), x.m, spentBefore + UnitSpend(y), y.m);
      UnitStepKeepsHistory(c, x, a.reply);
    } else if a.Go? && FilesTreated(c.base, x.m) {
      PyramidCascade.ModuleUnitsAreDistinct(c.tiers, x.m.world.summaries, x.m.mem.pending[0]);
    } else {
      BelowStepKeepsAccount(c, catalogue, spentBefore, x, a);
    }
  }

  lemma BelowStepKeepsAccount(c: Setup, catalogue: seq<SourceFile>, spentBefore: int, x: Tiered, a: Action)
    requires c.Valid() && Placed(c, x) && Catalogued(c.base, catalogue) && Accounted(c, catalogue, spentBefore, x)
    requires a.Go? ==> x.upper.Below? && !FilesTreated(c.base, x.m)
    requires Placed(c, Step(c, x, a))
    ensures Accounted(c, catalogue, spentBefore, Step(c, x, a))
  {
    CrashSafety.StepKeepsAccount(c.base, catalogue, spentBefore + UnitSpend(x), x.m, a);
    BaseStep(c.base, x.m, a);
    BaseStepStaysBelow(c.base, x.m, a);
    RecordedElsewhere(x.made, x.m.world.summaries, CrashMachine.Step(c.base, x.m, a).world.summaries);
    TotalsGrow(x.cut, InUnit(x.upper), x.made, Made(SummaryKey(2, ""), "", 0));
  }

  /** Crash-safe spend of the production activity, for every sequence of steps, crashes and resumptions. */
  lemma {:induction false} TieredSpendIsAccountedFor(c: Setup, catalogue: seq<SourceFile>, spentBefore: int, x: Tiered,
                                                     actions: seq<Action>)
    requires c.Valid() && Placed(c, x) && Catalogued(c.base, catalogue) && Accounted(c, catalogue, spentBefore, x)
    ensures Accounted(c, catalogue, spentBefore, Execute(c, x, actions))
    decreases |actions|
  {
    if actions != [] {
      StepKeepsAccount(c, catalogue, spentBefore, x, actions[0]);
      TieredSpendIsAccountedFor(c, catalogue, spentBefore, Step(c, x, actions[0]), actions[1..]);
    }
  }

  lemma BeginIsAccounted(c: Setup, catalogue: seq<SourceFile>, w: World, checkpoint: State, today: int)
    requires c.Valid() && Catalogued(c.base, catalogue)
    ensures Accounted(c, catalogue, w.spent, Begin(w, checkpoint, today))
  {
    StartIsAccounted(c.base, catalogue, w, checkpoint, today);
  }

  // ----- Tranches -----

  /** No call costs more than its estimate plus `slack`, and resumptions do not go back in time. */
  ghost predicate Disciplined(c: Setup, x: Tiered, a: Action, slack: nat)
    requires Placed(c, x)
  {
    && TrancheBudget.Disciplined(c.base, x.m, a, slack)
    && (a.Go? && x.upper.CallingUnit? && a.reply.Answer? ==> a.reply.tokens <= x.upper.units[x.upper.k].cost + slack)
  }

  ghost predicate RunDisciplined(c: Setup, x: Tiered, actions: seq<Action>, slack: nat)
    requires c.Valid() && Placed(c, x)
    decreases |actions|
  {
    actions == [] || (Disciplined(c, x, actions[0], slack) && (StepPlaced(c, x, actions[0]);
                      RunDisciplined(c, Step(c, x, actions[0]), actions[1..], slack)))
  }

  ghost predicate NotBorrowed(c: Setup, x: Tiered, slack: nat)
    requires c.Valid() && Placed(c, x)
  {
    && TrancheBudget.NotBorrowed(c.base, x.m, slack)
    && (!x.upper.Below? ==> forall i :: 0 <= i < |x.upper.units| ==> x.upper.units[i].cost > 0)
    && (x.upper.CallingUnit? ==>
          x.m.world.spent + x.upper.units[x.upper.k].cost <= TrancheBudget.Unlocked(c.base, x.m.today))
  }

  lemma UnitsCostSomething(t: TierSettings, summaries: SummaryRows, service: string)
    ensures forall i :: 0 <= i < |ModuleUnits(t, summaries, service)| ==> ModuleUnits(t, summaries, service)[i].cost > 0
    ensures forall i :: 0 <= i < |ServiceUnits(t, summaries, service)| ==>
        ServiceUnits(t, summaries, service)[i].cost > 0
  {}

  lemma UnitStepNeverBorrows(c: Setup, x: Tiered, reply: Reply, slack: nat)
    requires c.Valid() && Placed(c, x) && !x.upper.Below? && Placed(c, UnitStep(c, x, reply))
    requires NotBorrowed(c, x, slack) && Disciplined(c, x, Go(reply), slack)
    ensures NotBorrowed(c, UnitStep(c, x, reply), slack)
  {
    if x.upper.AtUnit? {
      AtUnitStep(c, x, reply);
      UnitsCostSomething(c.tiers, x.m.world.summaries, x.m.mem.pending[0]);
    } else {
      CallNeverBorrows(c, x, reply, slack);
    }
  }

  lemma CallNeverBorrows(c: Setup, x: Tiered, reply: Reply, slack: nat)
    requires c.Valid() && Placed(c, x) && !x.upper.Below? && !x.upper.AtUnit? && Placed(c, UnitStep(c, x, reply))
    requires NotBorrowed(c, x, slack) && Disciplined(c, x, Go(reply), slack)
    ensures NotBorrowed(c, UnitStep(c, x, reply), slack)
  {}

  lemma BelowStepNeverBorrows(c: Setup, x: Tiered, a: Action, slack: nat)
    requires c.Valid() && Placed(c, x) && NotBorrowed(c, x, slack) && Disciplined(c, x, a, slack)
    requires a.Go? ==> x.upper.Below? && !FilesTreated(c.base, x.m)
    requires Placed(c, Step(c, x, a))
    ensures NotBorrowed(c, Step(c, x, a), slack)
  {
    TrancheBudget.StepNeverBorrows(c.base, x.m, a, slack);
  }

  lemma StepNeverBorrows(c: Setup, x: Tiered, a: Action, slack: nat)
    requires c.Valid() && Placed(c, x) && NotBorrowed(c, x, slack) && Disciplined(c, x, a, slack)
    ensures Placed(c, Step(c, x, a)) && NotBorrowed(c, Step(c, x, a), slack)
  {
    StepPlaced(c, x, a);
    if a.Go? && !x.upper.Below? {
      UnitStepNeverBorrows(c, x, a.reply, slack);
    } else if a.Go? && FilesTreated(c.base, x.m) {
      UnitsCostSomething(c.tiers, x.m.world.summaries, x.m.mem.pending[0]);
    } else {
      BelowStepNeverBorrows(c, x, a, slack);
    }
  }

  /** With the module and service calls in the run, tranches are still never borrowed: spend exceeds what is
      unlocked, and the month's indexing budget, by at most one call's overrun. */
  lemma {:induction false} TieredRunNeverBorrows(c: Setup, x: Tiered, actions: seq<Action>, slack: nat)
    requires c.Valid() && Placed(c, x) && NotBorrowed(c, x, slack) && RunDisciplined(c, x, actions, slack)
    ensures var y := Execute(c, x, actions);
            && NotBorrowed(c, y, slack)
            && y.m.world.spent <= c.base.settings.quota.IndexingBudget() + slack
    decreases |actions|
  {
    if actions == [] {
      AllowanceGrowsWithinBudget(c.base.settings.quota, c.base.settings.periodStart, x.m.today, x.m.today);
    } else {
      StepNeverBorrows(c, x, actions[0], slack);
      TieredRunNeverBorrows(c, Step(c, x, actions[0]), actions[1..], slack);
    }
  }

  // ----- The unit loop is a run of the machine -----

  lemma ExecuteCons(c: Setup, x: Tiered, a: Action, rest: seq<Action>)
    requires c.Valid() && Placed(c, x) && Placed(c, Step(c, x, a))
    ensures Execute(c, x, [a] + rest) == Execute(c, Step(c, x, a), rest)
  {
    assert ([a] + rest)[1..] == rest;
  }

  lemma {:induction false} ExecuteAppend(c: Setup, x: Tiered, a: seq<Action>, b: seq<Action>)
    requires c.Valid() && Placed(c, x)
    ensures Execute(c, x, a + b) == Execute(c, Execute(c, x, a), b)
    decreases |a|
  {
    if a == [] {
      assert [] + b == b;
    } else {
      StepPlaced(c, x, a[0]);
      ExecuteAppend(c, Step(c, x, a[0]), a[1..], b);
      assert a + b == [a[0]] + (a[1..] + b);
      ExecuteCons(c, x, a[0], a[1..] + b);
    }
  }

  lemma ExecuteOne(c: Setup, x: Tiered, a: Action)
    requires c.Valid() && Placed(c, x)
    ensures Placed(c, Step(c, x, a)) && Execute(c, x, [a]) == Step(c, x, a)
  {
    StepPlaced(c, x, a);
    assert [a] + [] == [a];
    ExecuteCons(c, x, a, []);
  }

  /** From x, at one unit, the machine comes to where `pass` leaves it. */
  ghost predicate ComesTo(x: Tiered, y: Tiered, pass: UnitPass)
    requires !x.upper.Below?
  {
    && y.m.world == pass.world && WorkflowIsARun.SamePlace(x.m, y.m)
    && (pass.fault ==> y.m.phase == Down && y.upper == Below)
    && (!pass.fault ==>
          && y.m == x.m.(world := pass.world)
          && y.upper == AtUnit(x.upper.tier, x.upper.units, x.upper.k + 1, pass.held))
  }

  /** A call in flight, as `CalledUnit` says. */
  lemma CallIsSteps(c: Setup, x: Tiered, reply: Reply) returns (actions: seq<Action>)
    requires c.Valid() && Placed(c, x) && x.upper.CallingUnit?
    ensures WorkflowIsARun.Uninterrupted(actions)
    ensures ComesTo(x, Execute(c, x, actions),
                    CalledUnit(c.tiers, reply, x.m.world, x.upper.units[x.upper.k], c.Version(x.upper.tier)))
  {
    var go := Go(reply);
    ExecuteOne(c, x, go);
    actions := [go];
    if reply.Answer? {
      ExecuteOne(c, Step(c, x, go), go);
      ExecuteCons(c, x, go, [go]);
      actions := [go] + [go];
    }
  }

  /** One unit, as `TreatedUnit` treats it. */
  lemma UnitIsSteps(c: Setup, g: Gateway, x: Tiered) returns (actions: seq<Action>)
    requires c.Valid() && Placed(c, x) && x.upper.AtUnit? && x.upper.k < |x.upper.units|
    ensures WorkflowIsARun.Uninterrupted(actions)
    ensures var u := x.upper;
            ComesTo(x, Execute(c, x, actions),
                    TreatedUnit(c.tiers, g, x.m.world, u.units[u.k], c.Version(u.tier), x.m.today, u.held))
  {
    var reply := g(x.upper.units[x.upper.k].prompt, x.m.world.calls);
    ExecuteOne(c, x, Go(reply));
    actions := [Go(reply)];
    var y := Step(c, x, Go(reply));
    if y.upper.CallingUnit? {
      var call := CallIsSteps(c, y, reply);
      ExecuteCons(c, x, Go(reply), call);
      actions := actions + call;
    }
  }

  /** The loop over the units of a tier, for every gateway, is an uninterrupted run. */
  lemma {:induction false} UnitsAreARun(c: Setup, g: Gateway, x: Tiered) returns (actions: seq<Action>)
    requires c.Valid() && Placed(c, x) && x.upper.AtUnit?
    ensures WorkflowIsARun.Uninterrupted(actions)
    ensures var y := Execute(c, x, actions);
            var u := x.upper;
            var batch := TreatedUnits(c.tiers, g, x.m.world, u.units[u.k..], c.Version(u.tier), x.m.today, u.held);
            && y.m.world == batch.world && WorkflowIsARun.SamePlace(x.m, y.m)
            && (batch.fault ==> y.m.phase == Down && y.upper == Below)
            && (!batch.fault ==> y.m == x.m.(world := batch.world) && y.upper.AtUnit? && y.upper.tier == u.tier
                                 && y.upper.units == u.units && y.upper.k == |u.units|)
    decreases |x.upper.units| - x.upper.k
  {
    var u := x.upper;
    if u.k == |u.units| {
      actions := [];
    } else {
      actions := UnitIsSteps(c, g, x);
      var y := Execute(c, x, actions);
      assert u.units[u.k..][0] == u.units[u.k] && u.units[u.k..][1..] == u.units[u.k + 1..];
      if !y.upper.Below? {
        var rest := UnitsAreARun(c, g, y);
        ExecuteAppend(c, x, actions, rest);
        actions := actions + rest;
      }
    }
  }
}

/** When the governor's own checks of the upper tiers pass (`backend/summarise/higher.py`,
    `backend/orchestration/activities.py`). */
module UnitBound {
  import opened Persistence
  import opened Driver
  import opened Pyramid
  import opened PyramidCascade
  import OverrunBound
  import Workflow

  /** In order, every unit without an up-to-date summary fits the room left when each call before it overran by o. */
  predicate UnitsFit(t: TierSettings, summaries: SummaryRows, units: seq<Unit>, version: string, room: int, o: nat) {
    if units == [] then true
    else if UpToDate(t, summaries, units[0], version) then UnitsFit(t, summaries, units[1..], version, room, o)
    else units[0].cost <= room && UnitsFit(t, summaries, units[1..], version, room - units[0].cost - o, o)
  }

  /** Costs of the units that will be called, in order. */
  function CallCosts(t: TierSettings, summaries: SummaryRows, units: seq<Unit>, version: string): seq<nat> {
    if units == [] then []
    else (if UpToDate(t, summaries, units[0], version) then [] else [units[0].cost])
         + CallCosts(t, summaries, units[1..], version)
  }

  /** Every call of the batch is answered or rejected, and charges at most o beyond the unit's cost. */
  ghost predicate UnitsOverrun(t: TierSettings, g: Gateway, w: World, units: seq<Unit>, version: string, today: int,
                               held: bool, o: nat)
    requires t.base.quota.Valid()
    decreases |units|
  {
    units == [] ||
    (&& (CallsUnit(t, w, units[0], version, today, held) ==> Within(g(units[0].prompt, w.calls), units[0].cost, o))
     && var pass := TreatedUnit(t, g, w, units[0], version, today, held);
        !pass.fault ==> UnitsOverrun(t, g, pass.world, units[1..], version, today, pass.held, o))
  }

  ghost predicate Within(reply: Reply, cost: nat, o: nat) {
    !reply.Fault? && !reply.Exhausted? && (reply.Answer? ==> reply.tokens <= cost + o)
  }

  predicate CallsUnit(t: TierSettings, w: World, unit: Unit, version: string, today: int, held: bool)
    requires t.base.quota.Valid()
  {
    !held && !UpToDate(t, w.summaries, unit, version) && t.base.Approves(w.spent, unit.cost, today)
  }

  ghost predicate NoUnitHeld(batch: UnitBatch) {
    !batch.fault && forall i :: 0 <= i < |batch.rows| ==> batch.rows[i].outcome != UnitHeld
  }

  lemma HeadAndRest(row: UnitRow, rest: seq<UnitRow>, world: World)
    ensures NoUnitHeld(UnitBatch(world, [row] + rest, false)) <==>
        row.outcome != UnitHeld && NoUnitHeld(UnitBatch(world, rest, false))
  {
    var all := [row] + rest;
    assert all[0] == row && forall i :: 0 <= i < |rest| ==> all[i + 1] == rest[i];
  }

  /** Summaries are the same at every key but one. */
  ghost predicate SameButAt(a: SummaryRows, b: SummaryRows, own: SummaryKey) {
    forall key | key != own :: SameSummary(a, b, key)
  }

  ghost predicate NoneHasKey(units: seq<Unit>, own: SummaryKey) {
    forall i :: 0 <= i < |units| ==> units[i].key != own
  }

  /** Each unit's key once; a unit costs something. */
  ghost predicate Proper(units: seq<Unit>) {
    && (forall i, j :: 0 <= i < j < |units| ==> units[i].key != units[j].key)
    && (forall i :: 0 <= i < |units| ==> units[i].cost > 0)
  }

  lemma RestIsProper(units: seq<Unit>)
    requires units != [] && Proper(units)
    ensures Proper(units[1..]) && NoneHasKey(units[1..], units[0].key)
  {
    forall i | 0 <= i < |units| - 1 ensures units[1..][i].key != units[0].key {
      assert units[0].key != units[i + 1].key;
    }
  }

  lemma {:induction false} OthersStayStale(t: TierSettings, a: SummaryRows, b: SummaryRows, own: SummaryKey,
                                           units: seq<Unit>, version: string, room: int, o: nat)
    requires NoneHasKey(units, own) && SameButAt(a, b, own)
    ensures UnitsFit(t, a, units, version, room, o) <==> UnitsFit(t, b, units, version, room, o)
    ensures CallCosts(t, a, units, version) == CallCosts(t, b, units, version)
  {
    if units != [] {
      assert SameSummary(a, b, units[0].key);
      assert NoneHasKey(units[1..], own);
      OthersStayStale(t, a, b, own, units[1..], version, room, o);
      OthersStayStale(t, a, b, own, units[1..], version, room - units[0].cost - o, o);
    }
  }

  /** One pass, not after a hold. */
  lemma PassOf(t: TierSettings, g: Gateway, w: World, unit: Unit, version: string, today: int)
    requires t.base.quota.Valid() && unit.cost > 0
    ensures var pass, stale := TreatedUnit(t, g, w, unit, version, today, false),
        !UpToDate(t, w.summaries, unit, version);
            var fits, reply := unit.cost <= OverrunBound.Room(t.base, w.spent, today), g(unit.prompt, w.calls);
            && SameButAt(w.summaries, pass.world.summaries, unit.key)
            && (stale && !fits ==> pass.outcome == UnitHeld && !pass.fault && pass.held && pass.world == w)
            && (!stale ==> pass.outcome == UnitSkipped && !pass.held && !pass.fault && pass.world == w)
            && (stale && fits ==>
                  && CallsUnit(t, w, unit, version, today, false) && pass.world.calls == w.calls + 1 && !pass.held
                  && pass.world.spent == w.spent + Charge(reply)
                  && (pass.fault <==> reply.Fault? || reply.Exhausted?)
                  && (!pass.fault ==> pass.outcome != UnitHeld))
  {}

  lemma {:induction false} MoreRoomFits(t: TierSettings, summaries: SummaryRows, units: seq<Unit>, version: string,
                                        room: int, more: int, o: nat)
    requires UnitsFit(t, summaries, units, version, room, o) && room <= more
    ensures UnitsFit(t, summaries, units, version, more, o)
  {
    if units != [] {
      if UpToDate(t, summaries, units[0], version) {
        MoreRoomFits(t, summaries, units[1..], version, room, more, o);
      } else {
        MoreRoomFits(t, summaries, units[1..], version, room - units[0].cost - o, more - units[0].cost - o, o);
      }
    }
  }

  /** With room for the worst case no unit is held, whatever the gateway. */
  lemma {:induction false} FittingHoldsNoUnit(t: TierSettings, g: Gateway, w: World, units: seq<Unit>, version: string,
                                              today: int, o: nat)
    requires t.base.quota.Valid() && Proper(units) && UnitsOverrun(t, g, w, units, version, today, false, o)
    requires UnitsFit(t, w.summaries, units, version, OverrunBound.Room(t.base, w.spent, today), o)
    ensures NoUnitHeld(TreatedUnits(t, g, w, units, version, today, false))
    decreases |units|
  {
    if units != [] {
      var pass := TreatedUnit(t, g, w, units[0], version, today, false);
      FittingPass(t, g, w, units, version, today, o);
      FittingHoldsNoUnit(t, g, pass.world, units[1..], version, today, o);
      var rest := TreatedUnits(t, g, pass.world, units[1..], version, today, false);
      HeadAndRest(UnitRow(units[0].key, pass.outcome), rest.rows, rest.world);
    }
  }

  lemma FittingPass(t: TierSettings, g: Gateway, w: World, units: seq<Unit>, version: string, today: int, o: nat)
    requires t.base.quota.Valid() && units != [] && Proper(units)
    requires UnitsOverrun(t, g, w, units, version, today, false, o)
    requires UnitsFit(t, w.summaries, units, version, OverrunBound.Room(t.base, w.spent, today), o)
    ensures var pass := TreatedUnit(t, g, w, units[0], version, today, false);
            && pass.outcome != UnitHeld && !pass.held && !pass.fault && Proper(units[1..])
            && UnitsFit(t, pass.world.summaries, units[1..], version,
                        OverrunBound.Room(t.base, pass.world.spent, today), o)
  {
    var pass := TreatedUnit(t, g, w, units[0], version, today, false);
    var room, after := OverrunBound.Room(t.base, w.spent, today), OverrunBound.Room(t.base, pass.world.spent, today);
    PassOf(t, g, w, units[0], version, today);
    RestIsProper(units);
    OthersStayStale(t, w.summaries, pass.world.summaries, units[0].key, units[1..], version, after, o);
    if !UpToDate(t, w.summaries, units[0], version) {
      MoreRoomFits(t, w.summaries, units[1..], version, room - units[0].cost - o, after, o);
    }
  }

  // ----- The worst gateway -----

  ghost predicate OnCourse(t: TierSettings, costs: seq<nat>, base: nat, w: World, units: seq<Unit>, version: string) {
    && base <= w.calls <= base + |costs|
    && costs[w.calls - base..] == CallCosts(t, w.summaries, units, version)
  }

  lemma FirstOfCosts(t: TierSettings, costs: seq<nat>, base: nat, w: World, units: seq<Unit>, version: string)
    requires units != [] && OnCourse(t, costs, base, w, units, version) && !UpToDate(t, w.summaries, units[0], version)
    ensures w.calls < base + |costs| && costs[w.calls - base] == units[0].cost
    ensures costs[w.calls + 1 - base..] == CallCosts(t, w.summaries, units[1..], version)
  {
    var here := costs[w.calls - base..];
    assert here == [units[0].cost] + CallCosts(t, w.summaries, units[1..], version);
    assert here[0] == units[0].cost && here[1..] == CallCosts(t, w.summaries, units[1..], version);
    assert costs[w.calls + 1 - base..] == here[1..];
  }

  lemma WorstPass(t: TierSettings, costs: seq<nat>, base: nat, w: World, units: seq<Unit>, version: string, today: int,
                  o: nat)
    requires t.base.quota.Valid() && Proper(units) && units != [] && OnCourse(t, costs, base, w, units, version)
    ensures var pass := TreatedUnit(t, OverrunBound.WorstGateway(costs, base, o), w, units[0], version, today, false);
            var stale := !UpToDate(t, w.summaries, units[0], version);
            && !pass.fault && (pass.outcome == UnitHeld <==> pass.held) && Proper(units[1..])
            && SameButAt(w.summaries, pass.world.summaries, units[0].key) && NoneHasKey(units[1..], units[0].key)
            && (pass.held <==> stale && units[0].cost > OverrunBound.Room(t.base, w.spent, today))
            && (!pass.held ==>
                  && OnCourse(t, costs, base, pass.world, units[1..], version)
                  && pass.world.spent == w.spent + if stale then units[0].cost + o else 0)
  {
    var g := OverrunBound.WorstGateway(costs, base, o);
    var pass := TreatedUnit(t, g, w, units[0], version, today, false);
    PassOf(t, g, w, units[0], version, today);
    RestIsProper(units);
    OthersStayStale(t, w.summaries, pass.world.summaries, units[0].key, units[1..], version, 0, o);
    if !UpToDate(t, w.summaries, units[0], version) {
      FirstOfCosts(t, costs, base, w, units, version);
    }
  }

  lemma {:induction false} WorstGatewayOverruns(t: TierSettings, costs: seq<nat>, base: nat, w: World, units: seq<Unit>,
                                                version: string, today: int, o: nat)
    requires t.base.quota.Valid() && Proper(units) && OnCourse(t, costs, base, w, units, version)
    ensures UnitsOverrun(t, OverrunBound.WorstGateway(costs, base, o), w, units, version, today, false, o)
    decreases |units|
  {
    if units != [] {
      var g := OverrunBound.WorstGateway(costs, base, o);
      var pass := TreatedUnit(t, g, w, units[0], version, today, false);
      WorstPass(t, costs, base, w, units, version, today, o);
      if pass.held {
        HeldCallsNothing(t, g, pass.world, units[1..], version, today, o);
      } else {
        WorstGatewayOverruns(t, costs, base, pass.world, units[1..], version, today, o);
      }
      if CallsUnit(t, w, units[0], version, today, false) {
        FirstOfCosts(t, costs, base, w, units, version);
      }
    }
  }

  /** When the rest fits the room the worst gateway leaves, the whole fits the room before it. */
  lemma WorstPassFits(t: TierSettings, costs: seq<nat>, base: nat, w: World, units: seq<Unit>, version: string,
                      today: int, o: nat)
    requires t.base.quota.Valid() && Proper(units) && units != [] && OnCourse(t, costs, base, w, units, version)
    requires var pass := TreatedUnit(t, OverrunBound.WorstGateway(costs, base, o), w, units[0], version, today, false);
             !pass.held && UnitsFit(t, pass.world.summaries, units[1..], version,
                                    OverrunBound.Room(t.base, pass.world.spent, today), o)
    ensures UnitsFit(t, w.summaries, units, version, OverrunBound.Room(t.base, w.spent, today), o)
  {
    var pass := TreatedUnit(t, OverrunBound.WorstGateway(costs, base, o), w, units[0], version, today, false);
    WorstPass(t, costs, base, w, units, version, today, o);
    OthersStayStale(t, w.summaries, pass.world.summaries, units[0].key, units[1..], version,
                    OverrunBound.Room(t.base, pass.world.spent, today), o);
  }

  lemma {:induction false} WorstGatewayHolds(t: TierSettings, costs: seq<nat>, base: nat, w: World, units: seq<Unit>,
                                             version: string, today: int, o: nat)
    requires t.base.quota.Valid() && Proper(units) && OnCourse(t, costs, base, w, units, version)
    ensures NoUnitHeld(TreatedUnits(t, OverrunBound.WorstGateway(costs, base, o), w, units, version, today, false)) ==>
              UnitsFit(t, w.summaries, units, version, OverrunBound.Room(t.base, w.spent, today), o)
    decreases |units|
  {
    if units != [] {
      var g := OverrunBound.WorstGateway(costs, base, o);
      var pass := TreatedUnit(t, g, w, units[0], version, today, false);
      WorstPass(t, costs, base, w, units, version, today, o);
      var rest := TreatedUnits(t, g, pass.world, units[1..], version, today, pass.held);
      HeadAndRest(UnitRow(units[0].key, pass.outcome), rest.rows, rest.world);
      if !pass.held {
        WorstGatewayHolds(t, costs, base, pass.world, units[1..], version, today, o);
        if NoUnitHeld(rest) {
          WorstPassFits(t, costs, base, w, units, version, today, o);
        }
      }
    }
  }

  lemma {:induction false} HeldCallsNothing(t: TierSettings, g: Gateway, w: World, units: seq<Unit>, version: string,
                                            today: int, o: nat)
    requires t.base.quota.Valid()
    ensures UnitsOverrun(t, g, w, units, version, today, true, o)
    ensures !TreatedUnits(t, g, w, units, version, today, true).fault
    decreases |units|
  {
    if units != [] {
      HeldCallsNothing(t, g, w, units[1..], version, today, o);
    }
  }

  /** The exact condition when a tier begins: no unit of it is held by ANY gateway whose calls overrun by at most o, if
      and only if the units still to make fit the room left, each call but the last with its overrun. */
  lemma NoUnitHeldIffFits(t: TierSettings, w: World, units: seq<Unit>, version: string, today: int, o: nat)
    requires t.base.quota.Valid() && Proper(units)
    ensures (forall g | UnitsOverrun(t, g, w, units, version, today, false, o) ::
                NoUnitHeld(TreatedUnits(t, g, w, units, version, today, false)))
            <==> UnitsFit(t, w.summaries, units, version, OverrunBound.Room(t.base, w.spent, today), o)
  {
    if UnitsFit(t, w.summaries, units, version, OverrunBound.Room(t.base, w.spent, today), o) {
      forall g | UnitsOverrun(t, g, w, units, version, today, false, o)
        ensures NoUnitHeld(TreatedUnits(t, g, w, units, version, today, false))
      {
        FittingHoldsNoUnit(t, g, w, units, version, today, o);
      }
    } else {
      SomeGatewayHolds(t, w, units, version, today, o);
    }
  }

  lemma SomeGatewayHolds(t: TierSettings, w: World, units: seq<Unit>, version: string, today: int, o: nat)
    requires t.base.quota.Valid() && Proper(units)
    requires !UnitsFit(t, w.summaries, units, version, OverrunBound.Room(t.base, w.spent, today), o)
    ensures exists g :: UnitsOverrun(t, g, w, units, version, today, false, o)
                     && !NoUnitHeld(TreatedUnits(t, g, w, units, version, today, false))
  {
    var costs := CallCosts(t, w.summaries, units, version);
    assert costs[w.calls - w.calls..] == costs;
    WorstGatewayHolds(t, costs, w.calls, w, units, version, today, o);
    WorstGatewayOverruns(t, costs, w.calls, w, units, version, today, o);
    assert UnitsOverrun(t, OverrunBound.WorstGateway(costs, w.calls, o), w, units, version, today, false, o);
  }

  /** The units of a service meet what is asked of them. */
  lemma ServiceUnitsAreProper(t: TierSettings, summaries: SummaryRows, service: string)
    ensures Proper(ModuleUnits(t, summaries, service)) && Proper(ServiceUnits(t, summaries, service))
  {}

  // ----- A reserve for all tiers -----

  /** What calls of these costs may charge when each overruns by o. */
  function Reserve(costs: seq<nat>, o: nat): nat { if costs == [] then 0 else costs[0] + o + Reserve(costs[1..], o) }

  lemma {:induction false} UnitsFitByCosts(t: TierSettings, summaries: SummaryRows, units: seq<Unit>, version: string,
                                           room: int, o: nat)
    ensures UnitsFit(t, summaries, units, version, room, o)
       <==> OverrunBound.EstimatesFit(CallCosts(t, summaries, units, version), room, o)
  {
    if units != [] {
      var rest := CallCosts(t, summaries, units[1..], version);
      if UpToDate(t, summaries, units[0], version) {
        UnitsFitByCosts(t, summaries, units[1..], version, room, o);
        assert [] + rest == rest;
      } else {
        UnitsFitByCosts(t, summaries, units[1..], version, room - units[0].cost - o, o);
        OverrunBound.FirstEstimateFits(units[0].cost, rest, room, o);
      }
    }
  }

  lemma {:induction false} ReserveFits(costs: seq<nat>, room: int, o: nat)
    requires costs == [] || Reserve(costs, o) <= room + o
    ensures OverrunBound.EstimatesFit(costs, room, o)
  {
    if costs != [] {
      ReserveFits(costs[1..], room - costs[0] - o, o);
    }
  }

  lemma ReserveOfOneMore(cost: nat, rest: seq<nat>, o: nat)
    ensures Reserve([cost] + rest, o) == cost + o + Reserve(rest, o) && [] + rest == rest
  {
    assert ([cost] + rest)[1..] == rest;
  }

  /** The files of a batch charge no more than their reserve. */
  lemma {:induction false} FilesWithinReserve(s: Settings, g: Gateway, w: World, files: seq<SourceFile>, today: int,
                                              held: bool, o: nat)
    requires s.quota.Valid() && DistinctKeys(files) && OverrunBound.Overruns(s, g, w, files, today, held, o)
    ensures var b := SummarisedAll(s, g, w, files, today, held);
            !b.fault && b.world.spent <= w.spent + Reserve(OverrunBound.CallEstimates(s, w.rows, files), o)
    decreases |files|
  {
    if files != [] {
      var pass := Treated(s, g, w, files[0], today, held);
      var rest := OverrunBound.CallEstimates(s, w.rows, files[1..]);
      FilePassWithinReserve(s, g, w, files, today, held, o);
      FilesWithinReserve(s, g, pass.world, files[1..], today, pass.held, o);
      ReserveOfOneMore(s.Estimate(files[0]), rest, o);
    }
  }

  lemma FilePassWithinReserve(s: Settings, g: Gateway, w: World, files: seq<SourceFile>, today: int, held: bool, o: nat)
    requires s.quota.Valid() && files != [] && DistinctKeys(files)
    requires OverrunBound.Overruns(s, g, w, files, today, held, o)
    ensures var pass := Treated(s, g, w, files[0], today, held);
            var called := !s.IsDone(w.rows, files[0]) && !s.Oversized(files[0]);
            && !pass.fault && DistinctKeys(files[1..])
            && pass.world.spent <= w.spent + (if called then s.Estimate(files[0]) + o else 0)
            && OverrunBound.CallEstimates(s, pass.world.rows, files[1..])
               == OverrunBound.CallEstimates(s, w.rows, files[1..])
  {
    var pass := Treated(s, g, w, files[0], today, held);
    OverrunBound.RestHasOtherKeys(files);
    if !held {
      OverrunBound.PassOf(s, g, w, files[0], today);
      if OverrunBound.Calls(s, w, files[0], today, held) {
        OverrunBound.CallOf(s, g, w, files[0], today);
      }
    }
    OverrunBound.OthersStayDue(s, w.rows, pass.world.rows, files[0].Key(), files[1..], 0, o);
  }

  /** So do the units of a tier. */
  lemma {:induction false} UnitsWithinReserve(t: TierSettings, g: Gateway, w: World, units: seq<Unit>, version: string,
                                              today: int, held: bool, o: nat)
    requires t.base.quota.Valid() && Proper(units) && UnitsOverrun(t, g, w, units, version, today, held, o)
    ensures var b := TreatedUnits(t, g, w, units, version, today, held);
            !b.fault && b.world.spent <= w.spent + Reserve(CallCosts(t, w.summaries, units, version), o)
    decreases |units|
  {
    if units != [] {
      var pass := TreatedUnit(t, g, w, units[0], version, today, held);
      UnitPassWithinReserve(t, g, w, units, version, today, held, o);
      UnitsWithinReserve(t, g, pass.world, units[1..], version, today, pass.held, o);
      ReserveOfOneMore(units[0].cost, CallCosts(t, w.summaries, units[1..], version), o);
    }
  }

  lemma UnitPassWithinReserve(t: TierSettings, g: Gateway, w: World, units: seq<Unit>, version: string, today: int,
                              held: bool, o: nat)
    requires t.base.quota.Valid() && units != [] && Proper(units)
    requires UnitsOverrun(t, g, w, units, version, today, held, o)
    ensures var pass := TreatedUnit(t, g, w, units[0], version, today, held);
            var stale := !UpToDate(t, w.summaries, units[0], version);
            && !pass.fault && Proper(units[1..])
            && pass.world.spent <= w.spent + (if stale then units[0].cost + o else 0)
            && CallCosts(t, pass.world.summaries, units[1..], version) == CallCosts(t, w.summaries, units[1..], version)
  {
    var pass := TreatedUnit(t, g, w, units[0], version, today, held);
    RestIsProper(units);
    if !held {
      PassOf(t, g, w, units[0], version, today);
    }
    OthersStayStale(t, w.summaries, pass.world.summaries, units[0].key, units[1..], version, 0, o);
  }

  /** Every call of the activity, of a file or of a unit, is answered or rejected, and overruns by at most o. */
  ghost predicate ActivityOverruns(t: TierSettings, g: Gateway, w: World, service: string, files: seq<SourceFile>,
                                   today: int, o: nat)
    requires t.base.quota.Valid()
  {
    var w1 := AfterTier1(t, g, w, files, today);
    var w2 := AfterTier2(t, g, w, service, files, today);
    && OverrunBound.Overruns(t.base, g, w, files, today, false, o)
    && UnitsOverrun(t, g, w1, ModuleUnits(t, w1.summaries, service), t.moduleVersion, today, false, o)
    && UnitsOverrun(t, g, w2, ServiceUnits(t, w2.summaries, service), t.serviceVersion, today, false, o)
  }

  /** The calls of all three tiers, with their overruns. */
  ghost function FullReserve(t: TierSettings, g: Gateway, w: World, service: string, files: seq<SourceFile>,
                             today: int, o: nat): nat
    requires t.base.quota.Valid()
  {
    var w1 := AfterTier1(t, g, w, files, today);
    var w2 := AfterTier2(t, g, w, service, files, today);
    Reserve(OverrunBound.CallEstimates(t.base, w.rows, files), o)
    + Reserve(CallCosts(t, w1.summaries, ModuleUnits(t, w1.summaries, service), t.moduleVersion), o)
    + Reserve(CallCosts(t, w2.summaries, ServiceUnits(t, w2.summaries, service), t.serviceVersion), o)
  }

  /** A service approved with the full cost of its three tiers available, the overruns of all calls but one included,
      has no module and no service summary held: the governor's own checks of the upper tiers pass. */
  lemma FullReserveHoldsNoUnit(t: TierSettings, g: Gateway, w: World, service: string, files: seq<SourceFile>,
                               today: int, o: nat)
    requires t.base.quota.Valid() && DistinctKeys(files) && ActivityOverruns(t, g, w, service, files, today, o)
    requires FullReserve(t, g, w, service, files, today, o) <= OverrunBound.Room(t.base, w.spent, today) + o
    ensures var r := Activity(t, g, w, service, files, today);
            !r.fault && forall row <- r.modules + r.services :: row.outcome != UnitHeld
  {
    var w1 := AfterTier1(t, g, w, files, today);
    var w2 := AfterTier2(t, g, w, service, files, today);
    var files1 := Reserve(OverrunBound.CallEstimates(t.base, w.rows, files), o);
    var modules2 := CallCosts(t, w1.summaries, ModuleUnits(t, w1.summaries, service), t.moduleVersion);
    var services3 := CallCosts(t, w2.summaries, ServiceUnits(t, w2.summaries, service), t.serviceVersion);
    assert files1 + Reserve(modules2, o) + Reserve(services3, o) == FullReserve(t, g, w, service, files, today, o);
    FilesWithinReserve(t.base, g, w, files, today, false, o);
    ServiceUnitsAreProper(t, w1.summaries, service);
    ServiceUnitsAreProper(t, w2.summaries, service);
    TierFits(t, g, w1, ModuleUnits(t, w1.summaries, service), t.moduleVersion, today, o,
             Reserve(modules2, o) + Reserve(services3, o));
    TierFits(t, g, w2, ServiceUnits(t, w2.summaries, service), t.serviceVersion, today, o, Reserve(services3, o));
    TiersOfActivity(t, g, w, service, files, today);
  }

  lemma TiersOfActivity(t: TierSettings, g: Gateway, w: World, service: string, files: seq<SourceFile>, today: int)
    requires t.base.quota.Valid() && !SummarisedAll(t.base, g, w, files, today, false).fault
    requires var w1 := AfterTier1(t, g, w, files, today);
             NoUnitHeld(TreatedUnits(t, g, w1, ModuleUnits(t, w1.summaries, service), t.moduleVersion, today, false))
    requires var w2 := AfterTier2(t, g, w, service, files, today);
             NoUnitHeld(TreatedUnits(t, g, w2, ServiceUnits(t, w2.summaries, service), t.serviceVersion, today, false))
    ensures var r := Activity(t, g, w, service, files, today);
            !r.fault && forall row <- r.modules + r.services :: row.outcome != UnitHeld
  {}

  /** A tier whose reserve, and what comes after it, fits the room holds none of its units and leaves room for that. */
  lemma TierFits(t: TierSettings, g: Gateway, w: World, units: seq<Unit>, version: string, today: int, o: nat,
                 reserve: nat)
    requires t.base.quota.Valid() && Proper(units) && UnitsOverrun(t, g, w, units, version, today, false, o)
    requires Reserve(CallCosts(t, w.summaries, units, version), o) <= reserve
    requires reserve <= OverrunBound.Room(t.base, w.spent, today) + o
    ensures var b := TreatedUnits(t, g, w, units, version, today, false);
            && NoUnitHeld(b)
            && reserve - Reserve(CallCosts(t, w.summaries, units, version), o)
               <= OverrunBound.Room(t.base, b.world.spent, today) + o
  {
    var room := OverrunBound.Room(t.base, w.spent, today);
    ReserveFits(CallCosts(t, w.summaries, units, version), room, o);
    UnitsFitByCosts(t, w.summaries, units, version, room, o);
    FittingHoldsNoUnit(t, g, w, units, version, today, o);
    UnitsWithinReserve(t, g, w, units, version, today, false, o);
  }

  // ----- A reserve for tier 1 only -----

  /** The default cost of a service is that of its files alone. A service approved with exactly that available, whose
      one file costs what was estimated, has its module held: the checks of the tiers above need not pass. */
  lemma DefaultReserveHoldsModule(t: TierSettings, g: Gateway, w: World, service: string, f: SourceFile, today: int,
                                  text: string)
    requires t.base.quota.Valid() && f.service == service && w.summaries == map[]
    requires !t.base.IsDone(w.rows, f) && !t.base.Oversized(f)
    requires Workflow.CostOf(t.base, [f]) == t.base.quota.Available(t.base.periodStart, w.spent, today)
    requires g(t.base.RenderTier1Prompt(f), w.calls) == Answer(t.base.Estimate(f), Summary(text))
    ensures t.base.Approves(w.spent, Workflow.CostOf(t.base, [f]), today)
    ensures var r := Activity(t, g, w, service, [f], today);
            && !r.fault && r.files == [ResultRow(f.Key(), WasSummarised, t.base.Estimate(f))]
            && r.modules != [] && r.modules[0].outcome == UnitHeld
  {
    var w1 := AfterFile(t.base, w, f, text);
    CostOfOne(t.base, f);
    OneFileBatch(t.base, g, w, f, today, text);
    ReserveIsSpent(t.base, w, f, today, text);
    OneModule(t.base, w1.summaries, service, f);
    ModuleIsHeld(t, g, w1, service, today);
    NothingAbove(t, g, w1, service, today);
  }

  /** The world once the file is summarised at its estimate. */
  function AfterFile(s: Settings, w: World, f: SourceFile, text: string): World {
    Stored(s, w.(calls := w.calls + 1, spent := w.spent + s.Estimate(f)), f, text)
  }

  lemma CostOfOne(s: Settings, f: SourceFile)
    ensures Workflow.CostOf(s, [f]) == s.Estimate(f) > 0
  {
    assert [f][1..] == [];
    assert Workflow.SumEstimates(s, [f]) == s.Estimate(f) + Workflow.SumEstimates(s, [f][1..]);
  }

  lemma ReserveIsSpent(s: Settings, w: World, f: SourceFile, today: int, text: string)
    requires s.quota.Valid() && s.Estimate(f) == s.quota.Available(s.periodStart, w.spent, today) > 0
    ensures OverrunBound.Room(s, AfterFile(s, w, f, text).spent, today) == 0
    ensures s.Approves(w.spent, s.Estimate(f), today)
  {}

  /** With no room and no module summary, the first module of the service is held. */
  lemma ModuleIsHeld(t: TierSettings, g: Gateway, w: World, service: string, today: int)
    requires t.base.quota.Valid() && OverrunBound.Room(t.base, w.spent, today) == 0
    requires Modules(w.summaries, service) != [] && forall k: SummaryKey | k.tier == 2 :: k !in w.summaries
    ensures var b := TreatedUnits(t, g, w, ModuleUnits(t, w.summaries, service), t.moduleVersion, today, false);
            b.world == w && !b.fault && b.rows != [] && b.rows[0].outcome == UnitHeld
  {
    var units := ModuleUnits(t, w.summaries, service);
    ServiceUnitsAreProper(t, w.summaries, service);
    PassOf(t, g, w, units[0], t.moduleVersion, today);
    HeldBatch(t, g, w, units, t.moduleVersion, today);
  }

  lemma OneFileBatch(s: Settings, g: Gateway, w: World, f: SourceFile, today: int, text: string)
    requires s.quota.Valid() && !s.IsDone(w.rows, f) && !s.Oversized(f) && s.Approves(w.spent, s.Estimate(f), today)
    requires g(s.RenderTier1Prompt(f), w.calls) == Answer(s.Estimate(f), Summary(text))
    ensures SummarisedAll(s, g, w, [f], today, false)
         == Batch(AfterFile(s, w, f, text), [ResultRow(f.Key(), WasSummarised, s.Estimate(f))], false)
  {
    assert [f][1..] == [];
    var one := AfterFile(s, w, f, text);
    assert SummarisedAll(s, g, one, [f][1..], today, false) == Batch(one, [], false);
  }

  lemma OneModule(s: Settings, summaries: SummaryRows, service: string, f: SourceFile)
    requires f.service == service && SummaryKeyOf(f) in summaries
    ensures Modules(summaries, service) != []
  {
    var keys := Tier1Keys(summaries, service);
    assert SummaryKeyOf(f).key[..|service| + 1] == service + ":";
    assert SummaryKey(1, SummaryKeyOf(f).key) in summaries;
    assert SummaryKeyOf(f).key in keys;
    ListedIsDistinct(keys);
    assert Listed(keys) != [];
  }

  /** Without room for the first unit every unit is held and nothing changes. */
  lemma HeldBatch(t: TierSettings, g: Gateway, w: World, units: seq<Unit>, version: string, today: int)
    requires t.base.quota.Valid() && units != [] && TreatedUnit(t, g, w, units[0], version, today, false).held
    requires TreatedUnit(t, g, w, units[0], version, today, false).outcome == UnitHeld
    requires !TreatedUnit(t, g, w, units[0], version, today, false).fault
    requires TreatedUnit(t, g, w, units[0], version, today, false).world == w
    ensures var b := TreatedUnits(t, g, w, units, version, today, false);
            b.world == w && !b.fault && b.rows != [] && b.rows[0].outcome == UnitHeld
  {
    HeldChangesNothing(t, g, w, units[1..], version, today);
  }

  lemma {:induction false} HeldChangesNothing(t: TierSettings, g: Gateway, w: World, units: seq<Unit>, version: string,
                                              today: int)
    requires t.base.quota.Valid()
    ensures var b := TreatedUnits(t, g, w, units, version, today, true); b.world == w && !b.fault
    decreases |units|
  {
    if units != [] {
      HeldChangesNothing(t, g, w, units[1..], version, today);
    }
  }

  lemma {:induction false} NoneStored(summaries: SummaryRows, modules: seq<string>)
    requires forall k: SummaryKey | k.tier == 2 :: k !in summaries
    ensures WithSummary(summaries, modules) == []
  {
    if modules != [] {
      NoneStored(summaries, modules[1..]);
    }
  }

  /** Without module summaries there is no service unit. */
  lemma NothingAbove(t: TierSettings, g: Gateway, w: World, service: string, today: int)
    requires t.base.quota.Valid() && forall k: SummaryKey | k.tier == 2 :: k !in w.summaries
    ensures TreatedUnits(t, g, w, ServiceUnits(t, w.summaries, service), t.serviceVersion, today, false)
         == UnitBatch(w, [], false)
  {
    NoneStored(w.summaries, Modules(w.summaries, service));
  }
}

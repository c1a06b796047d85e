/** The service activity over the live stores (`backend/orchestration/activities.py`,
    `backend/summarise/higher.py`): tier 1, then modules, then the service. */
module PyramidRun {
  import opened Ordering
  import opened Text
  import opened Persistence
  import opened Driver
  import opened Tiers
  import opened Pyramid
  import opened PyramidCascade

  class IndexServiceActivities {
    const tiers: TierSettings
    const tier1: SummariseActivities

    constructor (tiers: TierSettings, tier1: SummariseActivities)
      requires tier1.Valid() && tiers.base == tier1.settings
      ensures Valid() && this.tiers == tiers && this.tier1 == tier1
    {
      this.tiers, this.tier1 := tiers, tier1;
    }

    ghost predicate Valid()
      reads tier1.pool
    {
      tier1.Valid() && tiers.base == tier1.settings
    }

    /** Skip, hold, spend or dead-letter one module or service. */
    method TreatUnit(unit: Unit, version: string, today: int, held: bool) returns (outcome: UnitOutcome, held': bool,
                     fault: bool)
      requires Valid()
      modifies tier1.pool, tier1.router, tier1.summaries
      ensures Valid() && tier1.pool.spentServing == old(tier1.pool.spentServing)
      ensures UnitPass(tier1.Now(), outcome, held', fault)
           == TreatedUnit(tiers, tier1.router.gateway, old(tier1.Now()), unit, version, today, held)
    {
      if held {
        return UnitHeld, true, false;
      }
      var newHash := HigherContentHash(tiers.sha, unit.childHashes, version);
      if unit.key in tier1.summaries.rows && tier1.summaries.rows[unit.key].contentHash == newHash {
        return UnitSkipped, false, false;
      }
      var decision := tier1.pool.RequestIndexingBudget(unit.cost, today);
      if !decision.proceed {
        return UnitHeld, true, false;
      }
      held' := false;
      outcome, fault := CallUnit(unit, version, newHash);
    }

    /** The call for an approved unit, and what its reply leads to. */
    method CallUnit(unit: Unit, version: string, newHash: string) returns (outcome: UnitOutcome, fault: bool)
      requires Valid() && newHash == HigherContentHash(tiers.sha, unit.childHashes, version)
      modifies tier1.pool, tier1.router, tier1.summaries
      ensures Valid() && tier1.pool.spentServing == old(tier1.pool.spentServing)
      ensures var w := old(tier1.Now());
              UnitPass(tier1.Now(), outcome, false, fault)
              == CalledUnit(tiers, tier1.router.gateway(unit.prompt, w.calls), w, unit, version)
    {
      var routed := tier1.router.Route(unit.prompt);
      match routed
      case ContentFailure(_) => return UnitDeadLettered, false;
      case QuotaExhausted => return UnitHeld, true;
      case Raised => return UnitHeld, true;
      case Parsed(_, body) =>
        if body.Summary? {
          tier1.summaries.Upsert(unit.key, SummaryRecord(unit.kind, body.text, newHash, version));
          return Generated, false;
        } else {
          return UnitDeadLettered, false;
        }
    }

    method RunUnits(units: seq<Unit>, version: string, today: int) returns (rows: seq<UnitRow>, fault: bool)
      requires Valid()
      modifies tier1.pool, tier1.router, tier1.summaries
      ensures Valid() && tier1.pool.spentServing == old(tier1.pool.spentServing)
      ensures var batch := TreatedUnits(tiers, tier1.router.gateway, old(tier1.Now()), units, version, today, false);
              tier1.Now() == batch.world && fault == batch.fault && (!fault ==> rows == batch.rows)
    {
      rows, fault := [], false;
      var held := false;
      ghost var all := TreatedUnits(tiers, tier1.router.gateway, tier1.Now(), units, version, today, false);
      assert [] + all.rows == all.rows;
      for i := 0 to |units|
        invariant Valid() && tier1.pool.spentServing == old(tier1.pool.spentServing)
        invariant ExtendsUnits(all, rows,
            TreatedUnits(tiers, tier1.router.gateway, tier1.Now(), units[i..], version, today, held))
      {
        assert units[i..][1..] == units[i + 1..];
        var outcome, held', failed := TreatUnit(units[i], version, today, held);
        if failed {
          return rows, true;
        }
        held := held';
        AppendUnitRow(rows, UnitRow(units[i].key, outcome),
                      TreatedUnits(tiers, tier1.router.gateway, tier1.Now(), units[i + 1..], version, today,
                          held).rows);
        rows := rows + [UnitRow(units[i].key, outcome)];
      }
    }

    /** Tier-1 keys of the service, sorted, whatever order the store is walked in. */
    method ListTier1(service: string) returns (keys: seq<string>)
      ensures keys == Listed(Tier1Keys(tier1.summaries.rows, service))
      ensures forall k <- keys :: SummaryKey(1, k) in tier1.summaries.rows
    {
      var found: seq<string> := [];
      var left := tier1.summaries.rows.Keys;
      while left != {}
        invariant left <= tier1.summaries.rows.Keys
        invariant forall k :: k in found <==>
            SummaryKey(1, k) in tier1.summaries.rows.Keys - left && StartsWith(k, service + ":")
        invariant Distinct(found)
      {
        var key :| key in left;
        left := left - {key};
        if key.tier == 1 && StartsWith(key.key, service + ":") {
          found := found + [key.key];
        }
      }
      forall k ensures k in found <==> k in Tier1Keys(tier1.summaries.rows, service) {}
      AnyEnumerationLists(Tier1Keys(tier1.summaries.rows, service), found);
      ListedIsDistinct(Tier1Keys(tier1.summaries.rows, service));
      keys := Sort(found, StringLeq);
    }

    /** Tier 2 from the durable tier-1 summaries, then tier 3 from the stored modules. */
    method SummariseHigherTiers(service: string, today: int) returns (modules: seq<UnitRow>, services: seq<UnitRow>,
                                fault: bool)
      requires Valid()
      modifies tier1.pool, tier1.router, tier1.summaries
      ensures Valid() && tier1.pool.spentServing == old(tier1.pool.spentServing)
      ensures var w := old(tier1.Now());
              var two := TreatedUnits(tiers, tier1.router.gateway, w, ModuleUnits(tiers, w.summaries, service),
                  tiers.moduleVersion, today, false);
              if two.fault then fault && tier1.Now() == two.world
              else
                var three := TreatedUnits(tiers, tier1.router.gateway, two.world,
                    ServiceUnits(tiers, two.world.summaries, service),
                                          tiers.serviceVersion, today, false);
                modules == two.rows && tier1.Now() == three.world && fault == three.fault
                    && (!fault ==> services == three.rows)
    {
      services := [];
      ghost var w := tier1.Now();
      var keys := ListTier1(service);
      var order, groups := GroupByModule(service, keys);
      GroupedUnits(tiers, w.summaries, service, keys, order, groups);
      var units := UnitsOf(tiers, tier1.summaries.rows, order, groups);
      modules, fault := RunUnits(units, tiers.moduleVersion, today);
      if fault {
        return;
      }
      TierTwoKeepsTierOne(tiers, tier1.router.gateway, w, units, tiers.moduleVersion, today, service);
      var stored := WithSummary(tier1.summaries.rows, order);
      if stored != [] {
        services, fault := RunUnits([ServiceUnit(tiers, tier1.summaries.rows, service, stored)], tiers.serviceVersion,
            today);
      }
    }

    /** All three tiers of one service. */
    method SummariseService(service: string, files: seq<SourceFile>, today: int)
      returns (rows: seq<ResultRow>, modules: seq<UnitRow>, services: seq<UnitRow>, fault: bool)
      requires Valid()
      modifies tier1.pool, tier1.router, tier1.fileLedger, tier1.deadLetter, tier1.summaries
      ensures Valid() && tier1.pool.spentServing == old(tier1.pool.spentServing)
      ensures var r := Activity(tiers, tier1.router.gateway, old(tier1.Now()), service, files, today);
              tier1.Now() == r.world && fault == r.fault
              && (!fault ==> ActivityResult(tier1.Now(), rows, modules, services, fault) == r)
    {
      modules, services := [], [];
      var tokensSpent;
      rows, tokensSpent, fault := tier1.SummariseFiles(files, today);
      if !fault {
        modules, services, fault := SummariseHigherTiers(service, today);
      }
    }
  }

  /** Module summaries do not disturb the tier below, so the modules stay the same. */
  lemma TierTwoKeepsTierOne(t: TierSettings, g: Gateway, w: World, units: seq<Unit>, version: string, today: int,
                            service: string)
    requires t.base.quota.Valid() && units == ModuleUnits(t, w.summaries, service)
    ensures Modules(TreatedUnits(t, g, w, units, version, today, false).world.summaries,
        service) == Modules(w.summaries, service)
  {
    var after := TreatedUnits(t, g, w, units, version, today, false).world.summaries;
    ModuleUnitsAreDistinct(t, w.summaries, service);
    forall k: SummaryKey | k.tier == 1 ensures SameSummary(w.summaries, after, k) {
      UnitsElsewhere(t, g, w, units, version, today, false, k);
    }
    SameTier1SameKeys(w.summaries, after, service);
  }

  ghost predicate ExtendsUnits(all: UnitBatch, rows: seq<UnitRow>, rest: UnitBatch) {
    all.world == rest.world && all.fault == rest.fault && all.rows == rows + rest.rows
  }

  lemma AppendUnitRow(rows: seq<UnitRow>, row: UnitRow, rest: seq<UnitRow>)
    ensures rows + ([row] + rest) == (rows + [row]) + rest
  {}

  lemma OneMoreKey(service: string, keys: seq<string>, i: nat)
    requires i < |keys|
    ensures var before, m := ModulesOf(service, keys[..i]), ModuleOf(service, keys[i]);
            ModulesOf(service, keys[..i + 1]) == if m in before then before else before + [m]
    ensures forall m :: FilesIn(service, keys[..i + 1], m)
                     == if ModuleOf(service, keys[i]) == m then FilesIn(service, keys[..i], m) + [keys[i]]
                         else FilesIn(service, keys[..i], m)
  {
    assert keys[..i + 1][..i] == keys[..i] && keys[..i + 1][i] == keys[i];
  }

  lemma {:induction false} NewModuleHasNoFiles(service: string, keys: seq<string>, m: string)
    requires m !in ModulesOf(service, keys)
    ensures FilesIn(service, keys, m) == []
  {
    if keys != [] {
      NewModuleHasNoFiles(service, keys[..|keys| - 1], m);
    }
  }

  ghost predicate Grouped(service: string, keys: seq<string>, order: seq<string>, groups: map<string, seq<string>>) {
    order == ModulesOf(service, keys) && forall m <- order :: m in groups && groups[m] == FilesIn(service, keys, m)
  }

  /** Two listed files of folders are in one group exactly when their folders are the same. */
  lemma GroupsAreFolders(service: string, keys: seq<string>, order: seq<string>, groups: map<string, seq<string>>,
                         f: string, a: string, h: string, b: string)
    requires Grouped(service, keys, order, groups) && '/' !in a && '/' !in b && f != "" && h != ""
    requires service + ":" + (f + "/" + a) in keys && service + ":" + (h + "/" + b) in keys
    ensures f in order && service + ":" + (f + "/" + a) in groups[f]
    ensures service + ":" + (h + "/" + b) in groups[f] <==> f == h
    ensures forall m <- order :: service + ":" + (f + "/" + a) in groups[m] <==> m == f
  {
    ModuleOfKey(service, f + "/" + a);
    ModuleOfKey(service, h + "/" + b);
    ModuleIsFolder(service, f, a);
    ModuleIsFolder(service, h, b);
    EveryModuleIsListed(service, keys, service + ":" + (f + "/" + a));
  }

  /** A listed file in no folder is in the group of the service. */
  lemma RootFilesAreOfService(service: string, keys: seq<string>, order: seq<string>,
                              groups: map<string, seq<string>>, a: string)
    requires Grouped(service, keys, order, groups) && '/' !in a && service + ":" + a in keys
    ensures service in order && service + ":" + a in groups[service]
    ensures forall m <- order :: service + ":" + a in groups[m] <==> m == service
  {
    ModuleOfKey(service, a);
    ModuleIsFolder(service, "", a);
    EveryModuleIsListed(service, keys, service + ":" + a);
  }

  lemma {:induction false} EveryModuleIsListed(service: string, keys: seq<string>, key: string)
    requires key in keys
    ensures ModuleOf(service, key) in ModulesOf(service, keys)
  {
    assert keys == keys[..|keys| - 1] + [keys[|keys| - 1]];
    if key != keys[|keys| - 1] {
      EveryModuleIsListed(service, keys[..|keys| - 1], key);
    }
  }

  /** Groups hold the listed files, each once for each time it is listed, and modules come as their files do. */
  lemma GroupsHoldListed(service: string, keys: seq<string>, order: seq<string>, groups: map<string, seq<string>>)
    requires Grouped(service, keys, order, groups)
    ensures Distinct(order) && forall m <- order, k <- groups[m] :: k in keys
    ensures forall k <- keys :: exists m <- order :: k in groups[m]
  {
    forall k <- keys ensures exists m <- order :: k in groups[m] {
      EveryModuleIsListed(service, keys, k);
      assert ModuleOf(service, k) in order && k in groups[ModuleOf(service, k)];
    }
  }

  /** What filing one more key under its module leads to. */
  lemma FiledKeyIsGrouped(service: string, keys: seq<string>, i: nat, order: seq<string>, groups: map<string,
                          seq<string>>)
    requires i < |keys| && Grouped(service, keys[..i], order, groups)
    ensures var m := ModuleOf(service, keys[i]);
            if m in order then Grouped(service, keys[..i + 1], order, groups[m := groups[m] + [keys[i]]])
            else Grouped(service, keys[..i + 1], order + [m], groups[m := [keys[i]]])
  {
    var m := ModuleOf(service, keys[i]);
    OneMoreKey(service, keys, i);
    if m !in order {
      NewModuleHasNoFiles(service, keys[..i], m);
      var more := groups[m := [keys[i]]];
      forall k <- order + [m] ensures k in more && more[k] == FilesIn(service, keys[..i + 1], k) {
        assert k == m || k in order;
      }
    }
  }

  ghost predicate GroupsStored(rows: SummaryRows, order: seq<string>, groups: map<string, seq<string>>) {
    forall i :: 0 <= i < |order| ==> order[i] in groups && forall k <- groups[order[i]] :: SummaryKey(1, k) in rows
  }

  function UnitsOf(t: TierSettings, rows: SummaryRows, order: seq<string>, groups: map<string, seq<string>>): seq<Unit>
    requires GroupsStored(rows, order, groups)
  {
    seq(|order|, i requires 0 <= i < |order| && order[i] in groups && forall k <- groups[order[i]] ::
        SummaryKey(1, k) in rows
                 => ModuleUnit(t, rows, order[i], groups[order[i]]))
  }

  lemma GroupedUnits(t: TierSettings, rows: SummaryRows, service: string, keys: seq<string>, order: seq<string>,
                     groups: map<string, seq<string>>)
    requires keys == Listed(Tier1Keys(rows, service)) && (forall k <- keys :: SummaryKey(1, k) in rows)
    requires Grouped(service, keys, order, groups)
    ensures GroupsStored(rows, order, groups) && UnitsOf(t, rows, order, groups) == ModuleUnits(t, rows, service)
  {
    forall i | 0 <= i < |order| ensures order[i] in groups && groups[order[i]] == FilesIn(service, keys, order[i]) {
      assert order[i] in order;
    }
  }

  /** Group listed files by module, modules in the order their first file comes. */
  method GroupByModule(service: string, keys: seq<string>) returns (order: seq<string>, groups: map<string,
                       seq<string>>)
    ensures Grouped(service, keys, order, groups)
  {
    order, groups := [], map[];
    for i := 0 to |keys|
      invariant Grouped(service, keys[..i], order, groups)
    {
      FiledKeyIsGrouped(service, keys, i, order, groups);
      var m := ModuleOf(service, keys[i]);
      if m !in order {
        order := order + [m];
        groups := groups[m := [keys[i]]];
      } else {
        groups := groups[m := groups[m] + [keys[i]]];
      }
    }
    assert keys[..|keys|] == keys;
  }
}

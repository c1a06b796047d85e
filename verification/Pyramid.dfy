/** The upper tiers of the summary pyramid (`backend/summarise/higher.py`) and the service activity
    that runs all three (`backend/orchestration/activities.py`), as values. */
module Pyramid {
  import opened Ordering
  import opened Text
  import opened Persistence
  import opened Driver
  import opened Tiers

  /** `renderModule` and `renderService` turn (key, (child, text) list) into a prompt. */
  datatype TierSettings = TierSettings(
    base: Settings, sha: string -> string, moduleVersion: string, serviceVersion: string,
    renderModule: (string, seq<(string, string)>) -> string,
    renderService: (string, seq<(string, string)>) -> string)

  /** One module or service to summarise from its children. */
  datatype Unit = Unit(key: SummaryKey, kind: string, childHashes: seq<string>, prompt: string, cost: nat)

  datatype UnitOutcome = Generated | UnitSkipped | UnitDeadLettered | UnitHeld

  datatype UnitRow = UnitRow(key: SummaryKey, outcome: UnitOutcome) {
    /** Whether the gateway was called for the unit. */
    predicate Called() { outcome.Generated? || outcome.UnitDeadLettered? }
  }

  /** The stored summary of a unit was made from these very children. */
  predicate UpToDate(t: TierSettings, summaries: SummaryRows, unit: Unit, version: string) {
    unit.key in summaries && summaries[unit.key].contentHash == HigherContentHash(t.sha, unit.childHashes, version)
  }

  datatype UnitPass = UnitPass(world: World, outcome: UnitOutcome, held: bool, fault: bool)

  /** Only content failures are caught: an exhausted quota or a fault ends the activity. */
  function TreatedUnit(t: TierSettings, g: Gateway, w: World, unit: Unit, version: string, today: int,
                       held: bool): UnitPass
    requires t.base.quota.Valid()
  {
    if held then UnitPass(w, UnitHeld, true, false)
    else if UpToDate(t, w.summaries, unit, version) then UnitPass(w, UnitSkipped, false, false)
    else if !t.base.Approves(w.spent, unit.cost, today) then UnitPass(w, UnitHeld, true, false)
    else CalledUnit(t, g(unit.prompt, w.calls), w, unit, version)
  }

  /** What becomes of an approved unit, by the reply. */
  function CalledUnit(t: TierSettings, reply: Reply, w: World, unit: Unit, version: string): UnitPass {
    var called := w.(calls := w.calls + 1);
    match reply
    case Rejected(_) => UnitPass(called, UnitDeadLettered, false, false)
    case Exhausted => UnitPass(called, UnitHeld, false, true)
    case Fault => UnitPass(called, UnitHeld, false, true)
    case Answer(tokens, body) =>
      var charged := called.(spent := w.spent + tokens);
      if body.Summary? then
        var record := SummaryRecord(unit.kind, body.text, HigherContentHash(t.sha, unit.childHashes, version), version);
        UnitPass(charged.(summaries := w.summaries[unit.key := record]), Generated, false, false)
      else UnitPass(charged, UnitDeadLettered, false, false)
  }

  datatype UnitBatch = UnitBatch(world: World, rows: seq<UnitRow>, fault: bool)

  function TreatedUnits(t: TierSettings, g: Gateway, w: World, units: seq<Unit>, version: string, today: int,
                        held: bool): UnitBatch
    requires t.base.quota.Valid()
    decreases |units|
  {
    if units == [] then UnitBatch(w, [], false)
    else
      var pass := TreatedUnit(t, g, w, units[0], version, today, held);
      if pass.fault then UnitBatch(pass.world, [], true)
      else
        var rest := TreatedUnits(t, g, pass.world, units[1..], version, today, pass.held);
        rest.(rows := [UnitRow(units[0].key, pass.outcome)] + rest.rows)
  }

  // ----- The units of one service -----

  /** Some enumeration of a set, and the sorted one, which does not depend on it. */
  ghost function Enumerated(keys: set<string>): (r: seq<string>)
    ensures Distinct(r) && forall k :: k in r <==> k in keys
  {
    if keys == {} then []
    else
      var k :| k in keys;
      [k] + Enumerated(keys - {k})
  }

  ghost function Listed(keys: set<string>): seq<string> { Sort(Enumerated(keys), StringLeq) }

  lemma ListedIsDistinct(keys: set<string>)
    ensures Distinct(Listed(keys)) && forall k :: k in Listed(keys) <==> k in keys
  {
    SortKeepsDistinct(Enumerated(keys), StringLeq);
    SameMembers(Listed(keys), Enumerated(keys));
  }

  /** Any duplicate-free enumeration sorts to the listing. */
  lemma AnyEnumerationLists(keys: set<string>, s: seq<string>)
    requires Distinct(s) && forall k :: k in s <==> k in keys
    ensures Sort(s, StringLeq) == Listed(keys)
  {
    StringOrderIsTotal();
    DistinctSameContents(s, Enumerated(keys));
    SortDependsOnlyOnContents(s, Enumerated(keys), StringLeq);
  }

  /** Tier-1 keys of a service, in key order. */
  ghost function Tier1Keys(summaries: SummaryRows, service: string): set<string> {
    set k | k in summaries && k.tier == 1 && StartsWith(k.key, service + ":") :: k.key
  }

  function PathOfKey(service: string, key: string): string
    requires StartsWith(key, service + ":")
  {
    key[|service| + 1..]
  }

  function ModuleOf(service: string, key: string): string {
    if StartsWith(key, service + ":") then ModuleKey(service, PathOfKey(service, key)) else service
  }

  /** A tier-1 key of the service gives back the path, and so the module. */
  lemma ModuleOfKey(service: string, path: string)
    ensures ModuleOf(service, service + ":" + path) == ModuleKey(service, path)
  {
    var key := service + ":" + path;
    assert key[..|service| + 1] == service + ":" && key[|service| + 1..] == path;
  }

  /** Modules in the order their first file is listed. */
  function ModulesOf(service: string, keys: seq<string>): (r: seq<string>)
    ensures Distinct(r)
  {
    if keys == [] then []
    else
      var before := ModulesOf(service, keys[..|keys| - 1]);
      var last := keys[|keys| - 1];
      var m := ModuleOf(service, last);
      if m in before then before else before + [m]
  }

  function FilesIn(service: string, keys: seq<string>, m: string): (r: seq<string>)
    ensures forall k :: k in r <==> k in keys && ModuleOf(service, k) == m
  {
    if keys == [] then []
    else
      var before := FilesIn(service, keys[..|keys| - 1], m);
      var last := keys[|keys| - 1];
      assert keys == keys[..|keys| - 1] + [last];
      if ModuleOf(service, last) == m then before + [last] else before
  }

  function Hashes(summaries: SummaryRows, tier: nat, keys: seq<string>): seq<string>
    requires forall k <- keys :: SummaryKey(tier, k) in summaries
  {
    seq(|keys|, i requires 0 <= i < |keys| => summaries[SummaryKey(tier, keys[i])].contentHash)
  }

  function Texts(summaries: SummaryRows, tier: nat, keys: seq<string>): seq<(string, string)>
    requires forall k <- keys :: SummaryKey(tier, k) in summaries
  {
    seq(|keys|, i requires 0 <= i < |keys| => (keys[i], summaries[SummaryKey(tier, keys[i])].text))
  }

  function SumWords(words: string -> nat, texts: seq<(string, string)>): nat {
    if texts == [] then 0 else Max(1, words(texts[0].1)) + SumWords(words, texts[1..])
  }

  function ModuleUnit(t: TierSettings, summaries: SummaryRows, m: string, keys: seq<string>): Unit
    requires forall k <- keys :: SummaryKey(1, k) in summaries
  {
    var texts := Texts(summaries, 1, keys);
    Unit(SummaryKey(2, m), "module", Hashes(summaries, 1, keys), t.renderModule(m, texts),
         SumWords(t.base.words, texts) + PROMPT_OVERHEAD_TOKENS + 40)
  }

  function ServiceUnit(t: TierSettings, summaries: SummaryRows, service: string, modules: seq<string>): Unit
    requires forall m <- modules :: SummaryKey(2, m) in summaries
  {
    var texts := Texts(summaries, 2, modules);
    Unit(SummaryKey(3, service), "service", Hashes(summaries, 2, modules), t.renderService(service, texts),
         SumWords(t.base.words, texts) + PROMPT_OVERHEAD_TOKENS + 60)
  }

  /** Words are counted text by text, an empty text as one. */
  lemma {:induction false} WordsAddUp(words: string -> nat, texts: seq<(string, string)>, name: string, text: string)
    ensures SumWords(words, []) == 0
    ensures SumWords(words, texts + [(name, text)])
         == SumWords(words, texts) + if words(text) == 0 then 1 else words(text)
  {
    var more := texts + [(name, text)];
    if texts == [] {
      assert more[1..] == [];
    } else {
      assert more[1..] == texts[1..] + [(name, text)];
      WordsAddUp(words, texts[1..], name, text);
    }
  }

  /** A module's call speaks of its files' stored texts, is keyed by their hashes, and is reserved at 160 tokens and
      their words. */
  lemma ModuleUnitSpeaksOf(t: TierSettings, summaries: SummaryRows, m: string, keys: seq<string>,
                           texts: seq<(string, string)>)
    requires forall k <- keys :: SummaryKey(1, k) in summaries
    requires |texts| == |keys|
    requires forall i :: 0 <= i < |keys| ==> texts[i] == (keys[i], summaries[SummaryKey(1, keys[i])].text)
    ensures var unit := ModuleUnit(t, summaries, m, keys);
            && unit.key == SummaryKey(2, m) && unit.kind == "module" && unit.prompt == t.renderModule(m, texts)
            && unit.cost == 160 + SumWords(t.base.words, texts) && |unit.childHashes| == |keys|
            && forall i :: 0 <= i < |keys| ==>
                 unit.childHashes[i] == summaries[SummaryKey(1, keys[i])].contentHash
  {
    assert Texts(summaries, 1, keys) == texts;
  }

  /** A service's call speaks of its modules' stored texts, likewise, and is reserved at 180 tokens and their words. */
  lemma ServiceUnitSpeaksOf(t: TierSettings, summaries: SummaryRows, service: string, modules: seq<string>,
                            texts: seq<(string, string)>)
    requires forall m <- modules :: SummaryKey(2, m) in summaries
    requires |texts| == |modules|
    requires forall i :: 0 <= i < |modules| ==> texts[i] == (modules[i], summaries[SummaryKey(2, modules[i])].text)
    ensures var unit := ServiceUnit(t, summaries, service, modules);
            && unit.key == SummaryKey(3, service) && unit.kind == "service"
            && unit.prompt == t.renderService(service, texts)
            && unit.cost == 180 + SumWords(t.base.words, texts) && |unit.childHashes| == |modules|
            && forall i :: 0 <= i < |modules| ==>
                 unit.childHashes[i] == summaries[SummaryKey(2, modules[i])].contentHash
  {
    assert Texts(summaries, 2, modules) == texts;
  }

  /** Modules that have a stored summary. */
  function WithSummary(summaries: SummaryRows, modules: seq<string>): (r: seq<string>)
    ensures forall m :: m in r <==> m in modules && SummaryKey(2, m) in summaries
  {
    if modules == [] then []
    else (if SummaryKey(2, modules[0]) in summaries then [modules[0]] else []) + WithSummary(summaries, modules[1..])
  }

  ghost function Modules(summaries: SummaryRows, service: string): seq<string> {
    ModulesOf(service, Listed(Tier1Keys(summaries, service)))
  }

  /** The child hashes of a module: those of its files' tier-1 summaries. */
  ghost function ChildHashes(summaries: SummaryRows, service: string, m: string): seq<string> {
    ListedIsDistinct(Tier1Keys(summaries, service));
    Hashes(summaries, 1, FilesIn(service, Listed(Tier1Keys(summaries, service)), m))
  }

  ghost function ModuleUnits(t: TierSettings, summaries: SummaryRows, service: string): seq<Unit> {
    ListedIsDistinct(Tier1Keys(summaries, service));
    var keys := Listed(Tier1Keys(summaries, service));
    var modules := Modules(summaries, service);
    seq(|modules|, i requires 0 <= i < |modules| => ModuleUnit(t, summaries, modules[i],
        FilesIn(service, keys, modules[i])))
  }

  /** At most one unit: the service, once it has a summarised module. */
  ghost function ServiceUnits(t: TierSettings, summaries: SummaryRows, service: string): seq<Unit> {
    var modules := WithSummary(summaries, Modules(summaries, service));
    if modules == [] then [] else [ServiceUnit(t, summaries, service, modules)]
  }

  /** The outcome of one service activity: the rows of its three tiers. */
  datatype ActivityResult = ActivityResult(world: World, files: seq<ResultRow>, modules: seq<UnitRow>,
      services: seq<UnitRow>, fault: bool)

  ghost function Activity(t: TierSettings, g: Gateway, w: World, service: string, files: seq<SourceFile>,
                          today: int): ActivityResult
    requires t.base.quota.Valid()
  {
    var tier1 := SummarisedAll(t.base, g, w, files, today, false);
    if tier1.fault then ActivityResult(tier1.world, [], [], [], true)
    else
      var tier2 := TreatedUnits(t, g, tier1.world, ModuleUnits(t, tier1.world.summaries, service), t.moduleVersion,
          today, false);
      if tier2.fault then ActivityResult(tier2.world, tier1.rows, [], [], true)
      else
        var tier3 := TreatedUnits(t, g, tier2.world, ServiceUnits(t, tier2.world.summaries, service), t.serviceVersion,
            today, false);
        ActivityResult(tier3.world, tier1.rows, tier2.rows, tier3.rows, tier3.fault)
  }
}

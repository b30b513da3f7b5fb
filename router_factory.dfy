/** The factory bean that builds a `ShardInternalRouter` from rule
    configuration resources: `AbstractShardInternalRouterConfigurationFactoryBean`
    with the classification of `ShardInteralRouterXmlFactoryBean`. Rules of
    all namespaces go into four shared tiers, which become the router's
    rule sequences once every resource has been read. */
module RouterFactory {
  import opened Wrappers
  import opened Rules
  import opened RuleRecords
  import opened BoundedCache
  import opened InternalRouter
  import opened Sequences

  /** A configuration resource as the XML reader yields it: its list of
      rule records, or `null` when the document has none. */
  datatype Resource = Resource(rules: Option<seq<InternalRule>>)

  /** The records a resource contributes. */
  function RecordsOf(res: Resource): seq<InternalRule> {
    if res.rules.Some? then res.rules.value else []
  }

  /** The four tiers, one per rule kind. */
  const FreshTiers: seq<seq<Rule>> := [[], [], [], []]

  /** Each tier holds only rules of its own kind. */
  predicate TiersByKind(tiers: seq<seq<Rule>>) {
    |tiers| == 4 && forall k, i :: 0 <= k < 4 && 0 <= i < |tiers[k]| ==> tiers[k][i].Tier() == k
  }

  /** Where an assembly stands: whether it has failed, and the tiers. */
  datatype AssemblyState = AssemblyState(outcome: Outcome, tiers: seq<seq<Rule>>)

  /** One record: classified, then added to the tier of its kind. */
  function AssembleOne(tiers: seq<seq<Rule>>, rec: InternalRule, functionsMap: FunctionMap): (s: AssemblyState)
    requires |tiers| == 4
    ensures |s.tiers| == 4
    ensures s.outcome.Fail? <==> Classify(rec, Some(functionsMap)).Failure?
    ensures s.outcome.Fail? ==> s.outcome.error == Classify(rec, Some(functionsMap)).error && s.tiers == tiers
    ensures s.outcome.Pass? ==>
      var rule := Classify(rec, Some(functionsMap)).value;
      && s.tiers[rule.Tier()] == tiers[rule.Tier()] + [rule]
      && forall k :: 0 <= k < 4 && k != rule.Tier() ==> s.tiers[k] == tiers[k]
  {
    match Classify(rec, Some(functionsMap))
    case Failure(e) => AssemblyState(Fail(e), tiers)
    case Success(rule) => AssemblyState(Pass, tiers[rule.Tier() := tiers[rule.Tier()] + [rule]])
  }

  /** The records in order, stopping at the first bad one. */
  function AssembleSpec(tiers: seq<seq<Rule>>, recs: seq<InternalRule>, functionsMap: FunctionMap): (s: AssemblyState)
    requires |tiers| == 4
    ensures |s.tiers| == 4
  {
    if recs == [] then AssemblyState(Pass, tiers)
    else
      var before := AssembleSpec(tiers, recs[..|recs| - 1], functionsMap);
      if before.outcome.Fail? then before else AssembleOne(before.tiers, recs[|recs| - 1], functionsMap)
  }

  /** The four tier sets `afterPropertiesSet` hands to every assembly. */
  class TierSets {
    var tiers: seq<seq<Rule>>

    constructor()
      ensures tiers == FreshTiers
    {
      tiers := FreshTiers;
    }
  }

  lemma AssembleGoodOrBad(tiers: seq<seq<Rule>>, recs: seq<InternalRule>, i: nat, functionsMap: FunctionMap,
                          current: seq<seq<Rule>>)
    requires |tiers| == 4 && i < |recs|
    requires AssembleSpec(tiers, recs[..i], functionsMap) == AssemblyState(Pass, current)
    ensures AssembleSpec(tiers, recs[..i + 1], functionsMap) == AssembleOne(current, recs[i], functionsMap)
  {
    TakeTake(recs, i + 1, i);
  }

  /** A good record extends the tiers read so far. */
  lemma AssembleGoodRecord(tiers: seq<seq<Rule>>, recs: seq<InternalRule>, i: nat, functionsMap: FunctionMap,
                           current: seq<seq<Rule>>)
    requires |tiers| == 4 && i < |recs|
    requires AssembleSpec(tiers, recs[..i], functionsMap) == AssemblyState(Pass, current)
    requires Classify(recs[i], Some(functionsMap)).Success?
    ensures var rule := Classify(recs[i], Some(functionsMap)).value;
      AssembleSpec(tiers, recs[..i + 1], functionsMap) ==
        AssemblyState(Pass, current[rule.Tier() := current[rule.Tier()] + [rule]])
  {
    AssembleGoodOrBad(tiers, recs, i, functionsMap, current);
  }

  /** A bad record ends the assembly with its error and the tiers read so
      far. */
  lemma AssembleBadRecord(tiers: seq<seq<Rule>>, recs: seq<InternalRule>, i: nat, functionsMap: FunctionMap,
                          current: seq<seq<Rule>>)
    requires |tiers| == 4 && i < |recs|
    requires AssembleSpec(tiers, recs[..i], functionsMap) == AssemblyState(Pass, current)
    requires Classify(recs[i], Some(functionsMap)).Failure?
    ensures AssembleSpec(tiers, recs, functionsMap) ==
      AssemblyState(Fail(Classify(recs[i], Some(functionsMap)).error), current)
  {
    SplitAt(recs, i + 1);
    AssembleGoodOrBad(tiers, recs, i, functionsMap, current);
    AssemblyFailureSticks(tiers, recs[..i + 1], recs[i + 1..], functionsMap);
  }

  /** `assembleRulesForRouter`: the records of one resource are added to
      the shared tiers in order; a bad record stops the assembly, and the
      rules added before it stay in the tiers. */
  method AssembleRulesForRouter(res: Resource, functionsMap: FunctionMap, sets: TierSets) returns (o: Outcome)
    requires |sets.tiers| == 4
    modifies sets
    ensures AssemblyState(o, sets.tiers) == AssembleSpec(old(sets.tiers), RecordsOf(res), functionsMap)
  {
    var recs := RecordsOf(res);
    if recs == [] {
      return Pass;
    }
    ghost var initial := sets.tiers;
    for i := 0 to |recs|
      invariant |sets.tiers| == 4
      invariant AssembleSpec(initial, recs[..i], functionsMap) == AssemblyState(Pass, sets.tiers)
    {
      var classified := Classify(recs[i], Some(functionsMap));
      if classified.Failure? {
        AssembleBadRecord(initial, recs, i, functionsMap, sets.tiers);
        return Fail(classified.error);
      }
      AssembleGoodRecord(initial, recs, i, functionsMap, sets.tiers);
      var rule := classified.value;
      sets.tiers := sets.tiers[rule.Tier() := sets.tiers[rule.Tier()] + [rule]];
    }
    TakeAll(recs);
    o := Pass;
  }

  /** Reading two record lists one after the other is reading their
      concatenation. */
  lemma {:induction false} AssembleConcat(tiers: seq<seq<Rule>>, a: seq<InternalRule>, b: seq<InternalRule>, functionsMap: FunctionMap)
    requires |tiers| == 4
    ensures var first := AssembleSpec(tiers, a, functionsMap);
      AssembleSpec(tiers, a + b, functionsMap) ==
        if first.outcome.Fail? then first else AssembleSpec(first.tiers, b, functionsMap)
    decreases |b|
  {
    if b == [] {
      assert a + b == a;
    } else {
      var n := |b| - 1;
      assert (a + b)[..|a + b| - 1] == a + b[..n];
      assert (a + b)[|a + b| - 1] == b[n];
      AssembleConcat(tiers, a, b[..n], functionsMap);
    }
  }

  lemma AssemblyFailureSticks(tiers: seq<seq<Rule>>, a: seq<InternalRule>, b: seq<InternalRule>, functionsMap: FunctionMap)
    requires |tiers| == 4 && AssembleSpec(tiers, a, functionsMap).outcome.Fail?
    ensures AssembleSpec(tiers, a + b, functionsMap) == AssembleSpec(tiers, a, functionsMap)
  {
    AssembleConcat(tiers, a, b, functionsMap);
  }

  /** Assembly keeps each tier to its own kind of rule, and can only fail
      on a bad record. */
  lemma {:induction false} AssemblyKeepsTiersByKind(tiers: seq<seq<Rule>>, recs: seq<InternalRule>, functionsMap: FunctionMap)
    requires TiersByKind(tiers)
    ensures TiersByKind(AssembleSpec(tiers, recs, functionsMap).tiers)
    ensures AssembleSpec(tiers, recs, functionsMap).outcome.Fail? ==>
      AssembleSpec(tiers, recs, functionsMap).outcome.error.IllegalArgument?
  {
    if recs != [] {
      var n := |recs| - 1;
      AssemblyKeepsTiersByKind(tiers, recs[..n], functionsMap);
      var before := AssembleSpec(tiers, recs[..n], functionsMap);
      if before.outcome.Pass? && Classify(recs[n], Some(functionsMap)).Success? {
        var rule := Classify(recs[n], Some(functionsMap)).value;
        var after: seq<seq<Rule>> := AssembleOne(before.tiers, recs[n], functionsMap).tiers;
        forall k: int, i: int | 0 <= k < 4 && 0 <= i < |after[k]| ensures after[k][i].Tier() == k {
          if k == rule.Tier() && i == |before.tiers[k]| {
            assert after[k][i] == rule;
          } else {
            assert after[k][i] == before.tiers[k][i];
          }
        }
      }
    }
  }

  /** The resources `afterPropertiesSet` reads, the single location first. */
  function Locations(configLocation: Option<Resource>, configLocations: Option<seq<Resource>>): seq<Resource> {
    (if configLocation.Some? then [configLocation.value] else []) +
    (if configLocations.Some? then configLocations.value else [])
  }

  /** The resources read one after the other, stopping at the first bad
      record. */
  function AssembleResources(tiers: seq<seq<Rule>>, resources: seq<Resource>, functionsMap: FunctionMap): (s: AssemblyState)
    requires |tiers| == 4
    ensures |s.tiers| == 4
  {
    if resources == [] then AssemblyState(Pass, tiers)
    else
      var before := AssembleResources(tiers, resources[..|resources| - 1], functionsMap);
      if before.outcome.Fail? then before
      else AssembleSpec(before.tiers, RecordsOf(resources[|resources| - 1]), functionsMap)
  }

  /** All the records of the resources, in order. */
  function Flatten(resources: seq<Resource>): seq<InternalRule> {
    if resources == [] then [] else Flatten(resources[..|resources| - 1]) + RecordsOf(resources[|resources| - 1])
  }

  /** Reading resource after resource into the same tiers is reading all
      their records as one list: resource boundaries make no difference. */
  lemma {:induction false} ResourceBoundariesInvisible(tiers: seq<seq<Rule>>, resources: seq<Resource>, functionsMap: FunctionMap)
    requires |tiers| == 4
    ensures AssembleResources(tiers, resources, functionsMap) == AssembleSpec(tiers, Flatten(resources), functionsMap)
  {
    if resources != [] {
      var n := |resources| - 1;
      ResourceBoundariesInvisible(tiers, resources[..n], functionsMap);
      AssembleConcat(tiers, Flatten(resources[..n]), RecordsOf(resources[n]), functionsMap);
    }
  }

  lemma ResourceStep(tiers: seq<seq<Rule>>, resources: seq<Resource>, i: nat, functionsMap: FunctionMap,
                     current: seq<seq<Rule>>)
    requires |tiers| == 4 && i < |resources|
    requires AssembleResources(tiers, resources[..i], functionsMap) == AssemblyState(Pass, current)
    ensures AssembleResources(tiers, resources[..i + 1], functionsMap) == AssembleSpec(current, RecordsOf(resources[i]), functionsMap)
  {
    var prefix := resources[..i + 1];
    assert prefix[..|prefix| - 1] == resources[..i];
    assert prefix[|prefix| - 1] == resources[i];
    ResourceUnfold(tiers, prefix, functionsMap);
  }

  lemma ResourceUnfold(tiers: seq<seq<Rule>>, resources: seq<Resource>, functionsMap: FunctionMap)
    requires |tiers| == 4 && resources != []
    ensures var before := AssembleResources(tiers, resources[..|resources| - 1], functionsMap);
      AssembleResources(tiers, resources, functionsMap) ==
        if before.outcome.Fail? then before
        else AssembleSpec(before.tiers, RecordsOf(resources[|resources| - 1]), functionsMap)
  {
  }

  /** Once a resource has failed, later resources are not read. */
  lemma ResourceFailureSticks(tiers: seq<seq<Rule>>, first: seq<Resource>, rest: seq<Resource>, functionsMap: FunctionMap)
    requires |tiers| == 4 && AssembleResources(tiers, first, functionsMap).outcome.Fail?
    ensures AssembleResources(tiers, first + rest, functionsMap) == AssembleResources(tiers, first, functionsMap)
  {
    ResourcesConcat(tiers, first, rest, functionsMap);
  }

  /** Reading two lists of resources one after the other is reading
      their concatenation. */
  lemma {:induction false} ResourcesConcat(tiers: seq<seq<Rule>>, a: seq<Resource>, b: seq<Resource>, functionsMap: FunctionMap)
    requires |tiers| == 4
    ensures var first := AssembleResources(tiers, a, functionsMap);
      AssembleResources(tiers, a + b, functionsMap) ==
        if first.outcome.Fail? then first else AssembleResources(first.tiers, b, functionsMap)
    decreases |b|
  {
    if b == [] {
      assert a + b == a;
    } else {
      var n := |b| - 1;
      assert (a + b)[..|a + b| - 1] == a + b[..n];
      assert (a + b)[|a + b| - 1] == b[n];
      ResourcesConcat(tiers, a, b[..n], functionsMap);
    }
  }

  /** The loop over the location array. */
  method ReadResources(resources: seq<Resource>, functionsMap: FunctionMap, sets: TierSets) returns (o: Outcome)
    requires |sets.tiers| == 4
    modifies sets
    ensures AssemblyState(o, sets.tiers) == AssembleResources(old(sets.tiers), resources, functionsMap)
  {
    ghost var initial := sets.tiers;
    for j := 0 to |resources|
      invariant |sets.tiers| == 4
      invariant AssembleResources(initial, resources[..j], functionsMap) == AssemblyState(Pass, sets.tiers)
    {
      ResourceStep(initial, resources, j, functionsMap, sets.tiers);
      o := AssembleRulesForRouter(resources[j], functionsMap, sets);
      if o.Fail? {
        SplitAt(resources, j + 1);
        ResourceFailureSticks(initial, resources[..j + 1], resources[j + 1..], functionsMap);
        return;
      }
    }
    TakeAll(resources);
    o := Pass;
  }

  /** Whatever the configured locations hold, the router's tiers keep each
      kind of rule apart, and only a bad record can stop the build. */
  lemma BuiltTiersByKind(configLocation: Option<Resource>, configLocations: Option<seq<Resource>>, functionsMap: FunctionMap)
    ensures var built := AssembleResources(FreshTiers, Locations(configLocation, configLocations), functionsMap);
      && TiersByKind(built.tiers)
      && (built.outcome.Fail? ==> built.outcome.error.IllegalArgument?)
  {
    var locations := Locations(configLocation, configLocations);
    ResourceBoundariesInvisible(FreshTiers, locations, functionsMap);
    AssemblyKeepsTiersByKind(FreshTiers, Flatten(locations), functionsMap);
  }

  /** The factory bean's properties and the router it builds. */
  class ShardInternalRouterFactoryBean {
    var router: ShardInternalRouter?
    var enableCache: bool
    var cacheSize: int
    var configLocation: Option<Resource>
    var configLocations: Option<seq<Resource>>
    var functionsMap: FunctionMap

    constructor()
      ensures router == null && !enableCache && cacheSize == 0
      ensures configLocation == None && configLocations == None && functionsMap == map[]
    {
      router := null;
      enableCache := false;
      cacheSize := 0;
      configLocation := None;
      configLocations := None;
      functionsMap := map[];
    }

    /** `setFunctionsMap`: a `null` map is ignored. */
    method SetFunctionsMap(functionMaps: Option<FunctionMap>)
      modifies this
      ensures functionsMap == if functionMaps.Some? then functionMaps.value else old(functionsMap)
      ensures router == old(router) && enableCache == old(enableCache) && cacheSize == old(cacheSize)
      ensures configLocation == old(configLocation) && configLocations == old(configLocations)
    {
      if functionMaps.Some? {
        functionsMap := functionMaps.value;
      }
    }

    /** The reading part of `afterPropertiesSet`: the single location, then
        every location of the array, into the same four tiers. */
    method ReadLocations(sets: TierSets) returns (o: Outcome)
      requires sets.tiers == FreshTiers
      modifies sets
      ensures AssemblyState(o, sets.tiers) == AssembleResources(FreshTiers, Locations(configLocation, configLocations), functionsMap)
    {
      var single := if configLocation.Some? then [configLocation.value] else [];
      var many := if configLocations.Some? then configLocations.value else [];
      ResourcesConcat(FreshTiers, single, many, functionsMap);
      o := Pass;
      if configLocation.Some? {
        o := AssembleRulesForRouter(configLocation.value, functionsMap, sets);
        ResourceStep(FreshTiers, single, 0, functionsMap, FreshTiers);
        assert single[..1] == single;
        if o.Fail? {
          return;
        }
      }
      if configLocations.Some? {
        o := ReadResources(configLocations.value, functionsMap, sets);
      }
    }

    /** `afterPropertiesSet`: a caching router without a usable size gets
        10000 entries; a new router is built; the configured locations are
        read; the tiers become the router's rule sequences only when all
        were read. */
    method AfterPropertiesSet() returns (o: Outcome)
      modifies this
      ensures cacheSize == if enableCache && old(cacheSize) <= 0 then DefaultCacheSize else old(cacheSize)
      ensures enableCache == old(enableCache) && functionsMap == old(functionsMap)
      ensures configLocation == old(configLocation) && configLocations == old(configLocations)
      ensures router != null && fresh(router) && router.Valid() && router.enableCache == enableCache
      ensures enableCache ==> router.localCache == Some(NewBoundedMap(cacheSize))
      ensures var built := AssembleResources(FreshTiers, Locations(configLocation, configLocations), functionsMap);
        && o == built.outcome
        && router.ruleSequences == if o.Pass? then built.tiers else []
    {
      if enableCache && cacheSize <= 0 {
        cacheSize := DefaultCacheSize;
      }
      var built := new ShardInternalRouter(enableCache, cacheSize);
      router := built;
      var sets := new TierSets();
      o := ReadLocations(sets);
      if o.Pass? {
        built.ruleSequences := sets.tiers;
      }
    }
  }
}

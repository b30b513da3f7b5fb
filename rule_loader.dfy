/** `InternalRuleLoader4DefaultInternalRouter`: installs configured rule
    records into a `DefaultShardInternalRouter`, filing each rule in the
    tier of its kind under its namespace. Records are handled one by one;
    the first bad record stops the load, and what was filed before it stays
    filed. */
module RuleLoader {
  import opened Wrappers
  import opened Rules
  import opened RuleRecords
  import opened DefaultRouter
  import opened Sequences

  /** A fresh container: one empty tier per rule kind. */
  const EmptyTiers: seq<seq<Rule>> := [[], [], [], []]

  /** `setUpRuleSequenceContainerIfNecessary`: a missing or empty container
      is replaced by four empty tiers; an existing one is used as it is. */
  function Container(groups: RuleGroups, key: string): (c: seq<seq<Rule>>)
    ensures key in groups && groups[key] != [] ==> c == groups[key]
    ensures key !in groups || groups[key] == [] ==> |c| == 4 && forall k :: 0 <= k < 4 ==> c[k] == []
  {
    if key in groups && groups[key] != [] then groups[key] else EmptyTiers
  }

  /** Adds a rule to the tier of its kind in its namespace's container. A
      container shorter than that makes `get` raise, and then nothing has
      been changed. */
  function FileRule(groups: RuleGroups, rule: Rule): (r: Result<RuleGroups>)
    ensures r.Failure? <==> rule.Tier() >= |Container(groups, rule.GroupKey())|
    ensures r.Failure? ==> r.error == IndexOutOfBounds
    ensures r.Success? ==>
      var key := rule.GroupKey();
      var before := Container(groups, key);
      && r.value.Keys == groups.Keys + {key}
      && (forall ns :: ns in groups && ns != key ==> r.value[ns] == groups[ns])
      && |r.value[key]| == |before|
      && r.value[key][rule.Tier()] == before[rule.Tier()] + [rule]
      && (forall k :: 0 <= k < |before| && k != rule.Tier() ==> r.value[key][k] == before[k])
  {
    var key := rule.GroupKey();
    var container := Container(groups, key);
    var tier := rule.Tier();
    if tier >= |container| then Failure(IndexOutOfBounds)
    else Success(groups[key := container[tier := container[tier] + [rule]]])
  }

  /** Where a load stands: whether it has failed, and the router's map. */
  datatype LoadState = LoadState(outcome: Outcome, groups: RuleGroups)

  /** The classification of every record, in order. Classifying a record
      reads nothing but the record and the function map, so the loop, which
      classifies each record just before filing it, files exactly these
      results. */
  function ClassifyAll(recs: seq<InternalRule>, functionsMap: Option<FunctionMap>): (cs: seq<Result<Rule>>)
    ensures |cs| == |recs|
  {
    if recs == [] then []
    else ClassifyAll(recs[..|recs| - 1], functionsMap) + [Classify(recs[|recs| - 1], functionsMap)]
  }

  lemma {:induction false} ClassifyAllAt(recs: seq<InternalRule>, functionsMap: Option<FunctionMap>, i: nat)
    requires i < |recs|
    ensures ClassifyAll(recs, functionsMap)[i] == Classify(recs[i], functionsMap)
    decreases |recs|
  {
    var n := |recs| - 1;
    if i < n {
      ClassifyAllAt(recs[..n], functionsMap, i);
      assert recs[..n][i] == recs[i];
    }
  }

  /** One pass of the loop body, given the record's classification: a
      refused record stops the load, a rule is filed. */
  function Step(groups: RuleGroups, classified: Result<Rule>): (s: LoadState)
    ensures s.outcome.Fail? ==> s.groups == groups
    ensures s.outcome.Fail? ==>
      s.outcome.error == (if classified.Failure? then classified.error else IndexOutOfBounds)
    ensures s.outcome.Pass? <==> classified.Success? && FileRule(groups, classified.value).Success?
    ensures s.outcome.Pass? ==> FileRule(groups, classified.value) == Success(s.groups)
  {
    match classified
    case Failure(e) => LoadState(Fail(e), groups)
    case Success(rule) =>
      match FileRule(groups, rule)
      case Failure(e) => LoadState(Fail(e), groups)
      case Success(filed) => LoadState(Pass, filed)
  }

  /** The loop over the classified records: each one in order, stopping at
      the first that fails. */
  function LoadSpec(groups: RuleGroups, cs: seq<Result<Rule>>): LoadState
  {
    if cs == [] then LoadState(Pass, groups)
    else
      var before := LoadSpec(groups, cs[..|cs| - 1]);
      if before.outcome.Fail? then before else Step(before.groups, cs[|cs| - 1])
  }

  /** Loading one more record is one more step, unless the load has
      already failed. */
  lemma LoadOneMore(groups: RuleGroups, cs: seq<Result<Rule>>, i: nat)
    requires i < |cs|
    ensures var before := LoadSpec(groups, cs[..i]);
      LoadSpec(groups, cs[..i + 1]) ==
        if before.outcome.Fail? then before else Step(before.groups, cs[i])
  {
    TakeTake(cs, i + 1, i);
  }

  /** `loadRulesAndEquipRouter`: a missing or empty list leaves the router
      as it is; otherwise the router's map becomes what loading the records
      in order gives, up to and excluding the first bad one. */
  method LoadRulesAndEquipRouter(rules: Option<seq<InternalRule>>, router: DefaultShardInternalRouter,
                                 functionsMap: Option<FunctionMap>) returns (o: Outcome)
    modifies router
    ensures rules.None? ==> o == Pass && router.rulesGroupByNamespaces == old(router.rulesGroupByNamespaces)
    ensures rules.Some? ==>
      LoadState(o, router.rulesGroupByNamespaces) ==
        LoadSpec(old(router.rulesGroupByNamespaces), ClassifyAll(rules.value, functionsMap))
  {
    if rules.None? || rules.value == [] {
      return Pass;
    }
    var recs := rules.value;
    ghost var cs := ClassifyAll(recs, functionsMap);
    ghost var initial := router.rulesGroupByNamespaces;
    for i := 0 to |recs|
      invariant LoadSpec(initial, cs[..i]) == LoadState(Pass, router.rulesGroupByNamespaces)
    {
      LoadOneMore(initial, cs, i);
      ClassifyAllAt(recs, functionsMap, i);
      var classified := Classify(recs[i], functionsMap);
      if classified.Failure? {
        o := Fail(classified.error);
        FailureSticks(initial, cs, i + 1);
        return;
      }
      var filed := FileRule(router.rulesGroupByNamespaces, classified.value);
      if filed.Failure? {
        o := Fail(filed.error);
        FailureSticks(initial, cs, i + 1);
        return;
      }
      router.rulesGroupByNamespaces := filed.value;
    }
    TakeAll(cs);
    o := Pass;
  }

  /** Once a record has failed, the records after it change nothing. */
  lemma {:induction false} FailureSticks(groups: RuleGroups, cs: seq<Result<Rule>>, j: nat)
    requires j <= |cs| && LoadSpec(groups, cs[..j]).outcome.Fail?
    ensures LoadSpec(groups, cs) == LoadSpec(groups, cs[..j])
    decreases |cs|
  {
    if j < |cs| {
      var n := |cs| - 1;
      TakeTake(cs, n, j);
      FailureSticks(groups, cs[..n], j);
    } else {
      TakeAll(cs);
    }
  }

  /** No rollback: when record `j` is the first bad one, the load fails
      with its error and the rules of records `0..j-1` stay installed. */
  lemma LoadStopsAtFirstBadRecord(groups: RuleGroups, cs: seq<Result<Rule>>, j: nat)
    requires j < |cs| && LoadSpec(groups, cs[..j]).outcome.Pass?
    requires Step(LoadSpec(groups, cs[..j]).groups, cs[j]).outcome.Fail?
    ensures LoadSpec(groups, cs).outcome.Fail?
    ensures LoadSpec(groups, cs).groups == LoadSpec(groups, cs[..j]).groups
  {
    LoadOneMore(groups, cs, j);
    FailureSticks(groups, cs, j + 1);
  }

  /** Filing into a well-grouped map cannot hit a short container, and
      keeps the map well grouped. */
  lemma FileRuleKeepsWellGrouped(groups: RuleGroups, rule: Rule)
    requires WellGrouped(groups)
    ensures FileRule(groups, rule).Success?
    ensures WellGrouped(FileRule(groups, rule).value)
  {
    var key := rule.GroupKey();
    var before := Container(groups, key);
    var tier := rule.Tier();
    var filed := before[tier := before[tier] + [rule]];
    assert FileRule(groups, rule) == Success(groups[key := filed]);
    forall k, r: Rule | 0 <= k < 4 && r in filed[k] ensures r.Tier() == k && r.GroupKey() == key {
      if k == tier && r !in before[k] {
        assert r == rule;
      }
    }
  }

  /** Filing classified records keeps the router's map well grouped, and
      then the only way the load can fail is a refused record. */
  lemma {:induction false} FilingKeepsWellGrouped(groups: RuleGroups, cs: seq<Result<Rule>>)
    requires WellGrouped(groups)
    requires forall i :: 0 <= i < |cs| && cs[i].Failure? ==> cs[i].error.IllegalArgument?
    ensures WellGrouped(LoadSpec(groups, cs).groups)
    ensures LoadSpec(groups, cs).outcome.Fail? ==> LoadSpec(groups, cs).outcome.error.IllegalArgument?
  {
    if cs != [] {
      var n := |cs| - 1;
      assert forall i :: 0 <= i < n ==> cs[..n][i] == cs[i];
      FilingKeepsWellGrouped(groups, cs[..n]);
      var before := LoadSpec(groups, cs[..n]);
      if before.outcome.Pass? && cs[n].Success? {
        FileRuleKeepsWellGrouped(before.groups, cs[n].value);
      }
    }
  }

  /** Every record is refused, if at all, with an illegal argument. */
  lemma ClassifyAllRefusesIllegalArguments(recs: seq<InternalRule>, functionsMap: Option<FunctionMap>)
    ensures forall i :: 0 <= i < |recs| && ClassifyAll(recs, functionsMap)[i].Failure? ==>
      ClassifyAll(recs, functionsMap)[i].error.IllegalArgument?
  {
    var cs := ClassifyAll(recs, functionsMap);
    forall i | 0 <= i < |cs| && cs[i].Failure? ensures cs[i].error.IllegalArgument? {
      ClassifyAllAt(recs, functionsMap, i);
    }
  }

  /** Loading keeps the router's map well grouped, and then the only way it
      can fail is a bad record. */
  lemma LoadKeepsWellGrouped(groups: RuleGroups, recs: seq<InternalRule>, functionsMap: Option<FunctionMap>)
    requires WellGrouped(groups)
    ensures var result := LoadSpec(groups, ClassifyAll(recs, functionsMap));
      && WellGrouped(result.groups)
      && (result.outcome.Fail? ==> result.outcome.error.IllegalArgument?)
  {
    ClassifyAllRefusesIllegalArguments(recs, functionsMap);
    FilingKeepsWellGrouped(groups, ClassifyAll(recs, functionsMap));
  }

  /** Filing rules of other groups leaves a group's tiers exactly as they
      are. */
  lemma {:induction false} FilingLeavesOtherGroups(groups: RuleGroups, cs: seq<Result<Rule>>, ns: string)
    requires ns in groups
    requires forall i :: 0 <= i < |cs| && cs[i].Success? ==> cs[i].value.GroupKey() != ns
    ensures ns in LoadSpec(groups, cs).groups
    ensures LoadSpec(groups, cs).groups[ns] == groups[ns]
  {
    if cs != [] {
      var n := |cs| - 1;
      assert forall i :: 0 <= i < n ==> cs[..n][i] == cs[i];
      FilingLeavesOtherGroups(groups, cs[..n], ns);
    }
  }

  /** A namespace no record names keeps its tiers exactly. */
  lemma LoadLeavesOtherNamespaces(groups: RuleGroups, recs: seq<InternalRule>,
                                  functionsMap: Option<FunctionMap>, ns: string)
    requires ns in groups
    requires forall j :: 0 <= j < |recs| ==> RecordKey(recs[j]) != ns
    ensures ns in LoadSpec(groups, ClassifyAll(recs, functionsMap)).groups
    ensures LoadSpec(groups, ClassifyAll(recs, functionsMap)).groups[ns] == groups[ns]
  {
    var cs := ClassifyAll(recs, functionsMap);
    forall i | 0 <= i < |cs| && cs[i].Success? ensures cs[i].value.GroupKey() != ns {
      ClassifyAllAt(recs, functionsMap, i);
      ClassifiedRuleKey(recs[i], functionsMap);
    }
    FilingLeavesOtherGroups(groups, cs, ns);
  }

  /** Filing never removes a rule from any group. */
  lemma FileRuleKeepsRules(groups: RuleGroups, rule: Rule, ns: string, other: Rule)
    requires FileRule(groups, rule).Success? && InGroup(groups, ns, other)
    ensures InGroup(FileRule(groups, rule).value, ns, other)
  {
    var after := FileRule(groups, rule).value;
    var k :| 0 <= k < |groups[ns]| && other in groups[ns][k];
    if ns == rule.GroupKey() {
      assert Container(groups, ns) == groups[ns];
      assert other in after[ns][k];
    }
  }

  /** A rule that is filed lands in its own group. */
  lemma FiledRuleIsInGroup(groups: RuleGroups, rule: Rule)
    requires FileRule(groups, rule).Success?
    ensures InGroup(FileRule(groups, rule).value, rule.GroupKey(), rule)
  {
    var after := FileRule(groups, rule).value;
    assert rule in after[rule.GroupKey()][rule.Tier()];
  }

  /** The last step of a load that succeeds: everything before it loaded,
      and the last rule filed on top. */
  lemma LoadLastStep(groups: RuleGroups, cs: seq<Result<Rule>>)
    requires cs != [] && LoadSpec(groups, cs).outcome.Pass?
    ensures var before := LoadSpec(groups, cs[..|cs| - 1]);
      && before.outcome.Pass?
      && cs[|cs| - 1].Success?
      && FileRule(before.groups, cs[|cs| - 1].value) == Success(LoadSpec(groups, cs).groups)
  {
  }

  /** Every prefix of a load that succeeds succeeds too. */
  lemma {:induction false} PrefixLoads(groups: RuleGroups, cs: seq<Result<Rule>>, m: nat)
    requires m <= |cs| && LoadSpec(groups, cs).outcome.Pass?
    ensures LoadSpec(groups, cs[..m]).outcome.Pass?
    decreases |cs|
  {
    if m < |cs| {
      var n := |cs| - 1;
      TakeTake(cs, n, m);
      PrefixLoads(groups, cs[..n], m);
    } else {
      TakeAll(cs);
    }
  }

  /** One more record keeps every rule filed before it, whether it is
      filed itself or fails. */
  lemma LoadStepKeepsFiled(groups: RuleGroups, cs: seq<Result<Rule>>, ns: string, rule: Rule)
    requires cs != [] && InGroup(LoadSpec(groups, cs[..|cs| - 1]).groups, ns, rule)
    ensures InGroup(LoadSpec(groups, cs).groups, ns, rule)
  {
    var n := |cs| - 1;
    var before := LoadSpec(groups, cs[..n]);
    if before.outcome.Pass? && cs[n].Success? && FileRule(before.groups, cs[n].value).Success? {
      FileRuleKeepsRules(before.groups, cs[n].value, ns, rule);
    }
  }

  /** A rule in some group after a prefix of the records stays there
      however the rest of the load goes. */
  lemma {:induction false} LoadKeepsFiled(groups: RuleGroups, cs: seq<Result<Rule>>, m: nat, ns: string, rule: Rule)
    requires m <= |cs| && InGroup(LoadSpec(groups, cs[..m]).groups, ns, rule)
    ensures InGroup(LoadSpec(groups, cs).groups, ns, rule)
    decreases |cs|
  {
    if m < |cs| {
      var n := |cs| - 1;
      TakeTake(cs, n, m);
      LoadKeepsFiled(groups, cs[..n], m, ns, rule);
      LoadStepKeepsFiled(groups, cs, ns, rule);
    } else {
      TakeAll(cs);
    }
  }

  /** After a load that succeeds, every classified rule is in its own
      group. */
  lemma ClassifiedRulesAreFiled(groups: RuleGroups, cs: seq<Result<Rule>>, j: nat)
    requires j < |cs| && LoadSpec(groups, cs).outcome.Pass?
    ensures cs[j].Success?
    ensures InGroup(LoadSpec(groups, cs).groups, cs[j].value.GroupKey(), cs[j].value)
  {
    var prefix := cs[..j + 1];
    PrefixLoads(groups, cs, j + 1);
    LoadLastStep(groups, prefix);
    TakeTake(cs, j + 1, j);
    var rule := prefix[j];
    assert rule == cs[j];
    FiledRuleIsInGroup(LoadSpec(groups, cs[..j]).groups, rule.value);
    LoadKeepsFiled(groups, cs, j + 1, rule.value.GroupKey(), rule.value);
  }

  /** After a load that succeeds, the rule of every record is in the group
      of that record's namespace, where routing looks for it. */
  lemma LoadedRulesAreFiled(groups: RuleGroups, recs: seq<InternalRule>,
                            functionsMap: Option<FunctionMap>, j: nat)
    requires j < |recs| && LoadSpec(groups, ClassifyAll(recs, functionsMap)).outcome.Pass?
    ensures Classify(recs[j], functionsMap).Success?
    ensures InGroup(LoadSpec(groups, ClassifyAll(recs, functionsMap)).groups, RecordKey(recs[j]),
                    Classify(recs[j], functionsMap).value)
  {
    ClassifiedRulesAreFiled(groups, ClassifyAll(recs, functionsMap), j);
    ClassifyAllAt(recs, functionsMap, j);
    ClassifiedRuleKey(recs[j], functionsMap);
  }
}

/** `DefaultShardInternalRouter`: rules grouped by statement namespace,
    each group holding four tiers (statement sharding, statement,
    namespace sharding, namespace). Routing consults only the group of the
    statement's own namespace. */
module DefaultRouter {
  import opened Wrappers
  import opened StringUtils
  import opened Rules
  import opened TierSearch

  /** `rulesGroupByNamespaces`: namespace to its list of tiers. */
  type RuleGroups = map<string, seq<seq<Rule>>>

  /** The router object; the rule loader fills its map in place. */
  class DefaultShardInternalRouter {
    var rulesGroupByNamespaces: RuleGroups

    constructor()
      ensures rulesGroupByNamespaces == map[]
    {
      rulesGroupByNamespaces := map[];
    }
  }

  /** Rule `rule` sits in some tier of group `ns`. */
  ghost predicate InGroup(groups: RuleGroups, ns: string, rule: Rule) {
    ns in groups && exists k :: 0 <= k < |groups[ns]| && rule in groups[ns][k]
  }

  /** `doRoute` over the router's map: the fact and its statement id must
      be given; the group of the id's namespace is scanned tier by tier and
      the first matching rule's shards are the result; no group, or no
      match, gives no shards. */
  function DoRoute(groups: RuleGroups, fact: Option<Fact>, eval: Evaluator): (r: Result<seq<string>>)
    ensures r.Failure? <==> fact.None? || !IsNonEmpty(fact.value.action)
    ensures r.Failure? ==> r.error == IllegalArgument(if fact.None? then NullArgument else EmptyArgument)
    ensures r.Success? && r.value != [] ==>
      exists rule :: InGroup(groups, NamespaceOf(fact.value.action.value), rule) &&
        Matches(rule, fact.value, eval) && r.value == Action(rule)
  {
    if fact.None? then Failure(IllegalArgument(NullArgument))
    else if !IsNonEmpty(fact.value.action) then Failure(IllegalArgument(EmptyArgument))
    else
      var ns := NamespaceOf(fact.value.action.value);
      if ns !in groups || groups[ns] == [] then Success([])
      else
        var found := ScanTiers(groups[ns], fact, eval);
        assert found.value.Some? ==> InGroup(groups, ns, found.value.value) && Matches(found.value.value, fact.value, eval) by {
          if found.value.Some? {
            ScanPicksFirstMatchingTier(groups[ns], fact.value, eval);
            var k :| 0 <= k < |groups[ns]| && NoTierMatches(groups[ns][..k], fact.value, eval) &&
              SearchMatchedRuleAgainst(groups[ns][k], fact, eval) == found;
            var i :| FirstMatchAt(groups[ns][k], i, fact.value, eval) && groups[ns][k][i] == found.value.value;
          }
        }
        Success(Identities(found.value))
  }

  /** Groups of other namespaces have no say in the result. */
  lemma OtherGroupsIrrelevant(groups: RuleGroups, other: string, tiers: seq<seq<Rule>>, fact: Fact, eval: Evaluator)
    requires IsNonEmpty(fact.action) && other != NamespaceOf(fact.action.value)
    ensures DoRoute(groups[other := tiers], Some(fact), eval) == DoRoute(groups, Some(fact), eval)
  {
    var ns := NamespaceOf(fact.action.value);
    assert (ns in groups[other := tiers]) == (ns in groups);
    if ns in groups {
      assert groups[other := tiers][ns] == groups[ns];
    }
  }

  /** A namespace without rules routes nowhere. */
  lemma UnknownNamespaceRoutesNowhere(groups: RuleGroups, fact: Fact, eval: Evaluator)
    requires IsNonEmpty(fact.action) && NamespaceOf(fact.action.value) !in groups
    ensures DoRoute(groups, Some(fact), eval) == Success([])
  {
  }

  /** The first tier of the group with a matching rule decides, and the
      result is that rule's shard list. */
  lemma FirstMatchingTierDecides(groups: RuleGroups, fact: Fact, eval: Evaluator, k: nat, i: nat)
    requires IsNonEmpty(fact.action)
    requires var ns := NamespaceOf(fact.action.value);
      ns in groups && k < |groups[ns]| && NoTierMatches(groups[ns][..k], fact, eval) &&
      FirstMatchAt(groups[ns][k], i, fact, eval)
    ensures DoRoute(groups, Some(fact), eval) == Success(Action(groups[NamespaceOf(fact.action.value)][k][i]))
  {
    ScanFindsFirstMatchingTier(groups[NamespaceOf(fact.action.value)], k, i, fact, eval);
  }

  /** With no applicable rule in the group, the result is empty. */
  lemma NoMatchRoutesNowhere(groups: RuleGroups, fact: Fact, eval: Evaluator)
    requires IsNonEmpty(fact.action) && NamespaceOf(fact.action.value) in groups
    requires NoTierMatches(groups[NamespaceOf(fact.action.value)], fact, eval)
    ensures DoRoute(groups, Some(fact), eval) == Success([])
  {
  }

  // ---------------------------------------------------------------------
  // The shape the rule loader keeps

  /** Every group has the four tiers, and each rule sits in the tier of its
      kind under the namespace it belongs to. */
  ghost predicate WellGrouped(groups: RuleGroups) {
    forall ns :: ns in groups ==>
      && |groups[ns]| == 4
      && forall k, rule :: 0 <= k < 4 && rule in groups[ns][k] ==> rule.Tier() == k && rule.GroupKey() == ns
  }

  /** In a well-grouped map no rule outside the statement's own group
      could have matched, so consulting that group alone loses nothing. */
  lemma GroupingLosesNoMatch(groups: RuleGroups, ns: string, rule: Rule, fact: Fact, eval: Evaluator)
    requires WellGrouped(groups) && InGroup(groups, ns, rule)
    requires Matches(rule, fact, eval)
    ensures fact.action.Some? && ns == NamespaceOf(fact.action.value)
  {
    var k :| 0 <= k < |groups[ns]| && rule in groups[ns][k];
    MatchImpliesGroup(rule, fact, eval);
  }
}

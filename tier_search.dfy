/** The first-match search both routers share: `searchMatchedRuleAgainst`
    over one tier of rules, and the scan that stops at the first tier
    holding a match. A tier is a `HashSet` in the source; its iteration
    order is the order of the sequence here. */
module TierSearch {
  import opened Wrappers
  import opened Rules

  /** No rule of the tier applies to the fact. */
  ghost predicate NoMatch(rules: seq<Rule>, fact: Fact, eval: Evaluator) {
    forall i :: 0 <= i < |rules| ==> !Matches(rules[i], fact, eval)
  }

  /** `rules[i]` applies and no rule before it does. */
  ghost predicate FirstMatchAt(rules: seq<Rule>, i: int, fact: Fact, eval: Evaluator) {
    0 <= i < |rules| && Matches(rules[i], fact, eval) && NoMatch(rules[..i], fact, eval)
  }

  /** `searchMatchedRuleAgainst`: the first rule of the tier that applies,
      if any. A `null` fact makes the first `isDefinedAt` raise. */
  function SearchMatchedRuleAgainst(rules: seq<Rule>, fact: Option<Fact>, eval: Evaluator): (r: Result<Option<Rule>>)
    ensures r.Failure? <==> fact.None? && rules != []
    ensures r.Failure? ==> r.error == IllegalArgument(NullArgument)
    ensures fact.Some? && r.Success? && r.value.Some? ==>
      exists i :: FirstMatchAt(rules, i, fact.value, eval) && rules[i] == r.value.value
    ensures fact.Some? ==> (r == Success(None) <==> NoMatch(rules, fact.value, eval))
  {
    if rules == [] then Success(None)
    else
      var here :- IsDefinedAt(rules[0], fact, eval);
      if here then
        assert FirstMatchAt(rules, 0, fact.value, eval);
        Success(Some(rules[0]))
      else
        var rest := SearchMatchedRuleAgainst(rules[1..], fact, eval);
        assert fact.Some? ==> forall i :: FirstMatchAt(rules[1..], i, fact.value, eval) ==>
          FirstMatchAt(rules, i + 1, fact.value, eval) by {
          if fact.Some? {
            forall i | FirstMatchAt(rules[1..], i, fact.value, eval)
              ensures FirstMatchAt(rules, i + 1, fact.value, eval)
            {
              assert rules[..i + 1] == [rules[0]] + rules[1..][..i];
            }
          }
        }
        rest
  }

  /** No tier holds a rule that applies. */
  ghost predicate NoTierMatches(tiers: seq<seq<Rule>>, fact: Fact, eval: Evaluator) {
    forall k :: 0 <= k < |tiers| ==> NoMatch(tiers[k], fact, eval)
  }

  /** The loop over the rule tiers: the first tier whose search finds a
      rule decides, and later tiers are not consulted. */
  function ScanTiers(tiers: seq<seq<Rule>>, fact: Option<Fact>, eval: Evaluator): (r: Result<Option<Rule>>)
    ensures fact.Some? ==> r.Success?
    ensures r.Failure? ==> r.error == IllegalArgument(NullArgument)
    ensures fact.Some? ==> (r == Success(None) <==> NoTierMatches(tiers, fact.value, eval))
  {
    if tiers == [] then Success(None)
    else
      var found :- SearchMatchedRuleAgainst(tiers[0], fact, eval);
      if found.Some? then Success(found)
      else
        var rest := ScanTiers(tiers[1..], fact, eval);
        assert fact.Some? ==> (NoTierMatches(tiers[1..], fact.value, eval) ==> NoTierMatches(tiers, fact.value, eval)) by {
          if fact.Some? && NoTierMatches(tiers[1..], fact.value, eval) {
            forall k | 0 <= k < |tiers| ensures NoMatch(tiers[k], fact.value, eval) {
              if k > 0 {
                assert tiers[k] == tiers[1..][k - 1];
              }
            }
          }
        }
        rest
  }

  lemma NoTierMatchesExtended(tiers: seq<seq<Rule>>, k: nat, fact: Fact, eval: Evaluator)
    requires 0 < |tiers| && k < |tiers|
    requires NoMatch(tiers[0], fact, eval) && NoTierMatches(tiers[1..][..k], fact, eval)
    ensures NoTierMatches(tiers[..k + 1], fact, eval)
  {
    var before := tiers[..k + 1];
    forall j | 0 <= j < k + 1 ensures NoMatch(before[j], fact, eval) {
      if j > 0 {
        assert before[j] == tiers[1..][..k][j - 1];
      }
    }
  }

  /** What the scan returns is the search result of a tier that every
      earlier tier failed to match. */
  lemma {:induction false} ScanPicksFirstMatchingTier(tiers: seq<seq<Rule>>, fact: Fact, eval: Evaluator)
    requires ScanTiers(tiers, Some(fact), eval).value.Some?
    ensures exists k ::
      && 0 <= k < |tiers|
      && NoTierMatches(tiers[..k], fact, eval)
      && SearchMatchedRuleAgainst(tiers[k], Some(fact), eval) == ScanTiers(tiers, Some(fact), eval)
  {
    if SearchMatchedRuleAgainst(tiers[0], Some(fact), eval).value.Some? {
      assert NoTierMatches(tiers[..0], fact, eval);
    } else {
      var rest := tiers[1..];
      ScanPicksFirstMatchingTier(rest, fact, eval);
      var k :| 0 <= k < |rest| && NoTierMatches(rest[..k], fact, eval) &&
        SearchMatchedRuleAgainst(rest[k], Some(fact), eval) == ScanTiers(rest, Some(fact), eval);
      NoTierMatchesExtended(tiers, k, fact, eval);
      assert tiers[k + 1] == rest[k];
    }
  }

  /** The identities a routing decision yields: the matched rule's
      `action()`, or none. */
  function Identities(found: Option<Rule>): seq<string>
  {
    if found.Some? then Action(found.value) else []
  }

  /** Once some tier has a match, appending further tiers changes nothing. */
  lemma {:induction false} LaterTiersIgnored(tiers: seq<seq<Rule>>, later: seq<seq<Rule>>, fact: Fact, eval: Evaluator)
    requires ScanTiers(tiers, Some(fact), eval).value.Some?
    ensures ScanTiers(tiers + later, Some(fact), eval) == ScanTiers(tiers, Some(fact), eval)
  {
    assert (tiers + later)[0] == tiers[0];
    assert (tiers + later)[1..] == tiers[1..] + later;
    if SearchMatchedRuleAgainst(tiers[0], Some(fact), eval).value.None? {
      LaterTiersIgnored(tiers[1..], later, fact, eval);
    }
  }

  /** A rule that applies in an early tier beats every rule of a later
      tier, however specific. */
  lemma EarlierTierWins(first: seq<Rule>, second: seq<Rule>, fact: Fact, eval: Evaluator)
    requires !NoMatch(first, fact, eval)
    ensures ScanTiers([first, second], Some(fact), eval) == SearchMatchedRuleAgainst(first, Some(fact), eval)
  {
  }

  /** A later tier decides only when every earlier tier has no match. */
  lemma FallBackToLaterTier(first: seq<Rule>, second: seq<Rule>, fact: Fact, eval: Evaluator)
    requires NoMatch(first, fact, eval)
    ensures ScanTiers([first, second], Some(fact), eval) == SearchMatchedRuleAgainst(second, Some(fact), eval)
  {
    assert [first, second][1..] == [second];
    assert [second][1..] == [];
  }

  /** The search over one tier returns the first rule that applies. */
  lemma {:induction false} FirstMatchFound(rules: seq<Rule>, i: nat, fact: Fact, eval: Evaluator)
    requires FirstMatchAt(rules, i, fact, eval)
    ensures SearchMatchedRuleAgainst(rules, Some(fact), eval) == Success(Some(rules[i]))
    decreases i
  {
    if i > 0 {
      assert rules[..i][0] == rules[0];
      assert rules[1..][..i - 1] == rules[1..i];
      assert FirstMatchAt(rules[1..], i - 1, fact, eval) by {
        var before := rules[1..][..i - 1];
        forall j | 0 <= j < i - 1 ensures !Matches(before[j], fact, eval) {
          assert before[j] == rules[..i][j + 1];
        }
      }
      FirstMatchFound(rules[1..], i - 1, fact, eval);
    }
  }

  /** Tiers without a match are passed over. */
  lemma {:induction false} ScanPastEmptyTiers(empty: seq<seq<Rule>>, tier: seq<Rule>, fact: Fact, eval: Evaluator)
    requires NoTierMatches(empty, fact, eval)
    ensures ScanTiers(empty + [tier], Some(fact), eval) == ScanTiers([tier], Some(fact), eval)
  {
    if empty != [] {
      assert (empty + [tier])[0] == empty[0];
      assert (empty + [tier])[1..] == empty[1..] + [tier];
      ScanPastEmptyTiers(empty[1..], tier, fact, eval);
    }
  }

  lemma ScanOneTier(tier: seq<Rule>, fact: Fact, eval: Evaluator)
    ensures ScanTiers([tier], Some(fact), eval) == SearchMatchedRuleAgainst(tier, Some(fact), eval)
  {
    assert [tier][1..] == [];
  }

  lemma ScanUpToMatchingTier(empty: seq<seq<Rule>>, tier: seq<Rule>, i: nat, fact: Fact, eval: Evaluator)
    requires NoTierMatches(empty, fact, eval) && FirstMatchAt(tier, i, fact, eval)
    ensures ScanTiers(empty + [tier], Some(fact), eval) == Success(Some(tier[i]))
  {
    FirstMatchFound(tier, i, fact, eval);
    ScanOneTier(tier, fact, eval);
    ScanPastEmptyTiers(empty, tier, fact, eval);
  }

  /** The scan returns the first applicable rule of the first tier that
      has one. */
  lemma ScanFindsFirstMatchingTier(tiers: seq<seq<Rule>>, k: nat, i: nat, fact: Fact, eval: Evaluator)
    requires k < |tiers| && NoTierMatches(tiers[..k], fact, eval) && FirstMatchAt(tiers[k], i, fact, eval)
    ensures ScanTiers(tiers, Some(fact), eval) == Success(Some(tiers[k][i]))
  {
    var upTo := tiers[..k + 1];
    assert upTo == tiers[..k] + [tiers[k]];
    assert upTo + tiers[k + 1..] == tiers;
    ScanUpToMatchingTier(tiers[..k], tiers[k], i, fact, eval);
    LaterTiersIgnored(upTo, tiers[k + 1..], fact, eval);
  }
}

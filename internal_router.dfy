/** `ShardInternalRouter`: one global list of rule tiers, scanned in order
    without any namespace filtering, with an optional bounded cache of
    routing results keyed by the routing fact. */
module InternalRouter {
  import opened Wrappers
  import opened Rules
  import opened TierSearch
  import opened BoundedCache

  /** Capacity the router uses when only the cache flag is given. */
  const DefaultCacheSize: int := 10000

  /** Routing without the cache: the first matching rule of the first tier
      with a match gives its shards; no match gives none. */
  function Route(tiers: seq<seq<Rule>>, fact: Option<Fact>, eval: Evaluator): (r: Result<seq<string>>)
    ensures fact.Some? ==> r.Success?
    ensures r.Failure? ==> r.error == IllegalArgument(NullArgument)
    ensures fact.Some? && NoTierMatches(tiers, fact.value, eval) ==> r == Success([])
  {
    var found :- ScanTiers(tiers, fact, eval);
    Success(Identities(found))
  }

  class ShardInternalRouter {
    const enableCache: bool
    var localCache: Option<BoundedMap<Option<Fact>, seq<string>>>
    var ruleSequences: seq<seq<Rule>>

    /** A cache exists exactly when caching is on. */
    ghost predicate Valid()
      reads this
    {
      (localCache.Some? <==> enableCache) && (localCache.Some? ==> localCache.value.Valid())
    }

    /** Every cached result is what routing the key over the current tiers
        gives. */
    ghost predicate CacheCoherent(eval: Evaluator)
      reads this
    {
      localCache.Some? ==>
        forall key :: key in localCache.value.entries ==>
          Route(ruleSequences, key, eval) == Success(localCache.value.entries[key])
    }

    /** `ShardInternalRouter(enableCache, cacheSize)`. */
    constructor (enableCache: bool, cacheSize: int)
      ensures Valid() && this.enableCache == enableCache && ruleSequences == []
      ensures enableCache ==> localCache == Some(NewBoundedMap(cacheSize))
    {
      this.enableCache := enableCache;
      localCache := if enableCache then Some(NewBoundedMap(cacheSize)) else None;
      ruleSequences := [];
    }

    /** `ShardInternalRouter(boolean)`: the default capacity. */
    constructor WithCacheFlag(enableCache: bool)
      ensures Valid() && this.enableCache == enableCache && ruleSequences == []
      ensures enableCache ==> localCache == Some(NewBoundedMap(DefaultCacheSize))
    {
      this.enableCache := enableCache;
      localCache := if enableCache then Some(NewBoundedMap(DefaultCacheSize)) else None;
      ruleSequences := [];
    }

    /** `ShardInternalRouter(int)`: caching on, with the given capacity. */
    constructor WithCacheSize(cacheSize: int)
      ensures Valid() && enableCache && ruleSequences == []
      ensures localCache == Some(NewBoundedMap(cacheSize))
    {
      enableCache := true;
      localCache := Some(NewBoundedMap(cacheSize));
      ruleSequences := [];
    }

    /** `doRoute`: a cached result is returned as it is, without looking at
        any rule; otherwise the tiers are scanned and a successful result
        is put into the cache. A coherent cache makes caching invisible. */
    method DoRoute(fact: Option<Fact>, eval: Evaluator) returns (r: Result<seq<string>>, fromCache: bool)
      requires Valid()
      modifies this
      ensures Valid() && ruleSequences == old(ruleSequences)
      ensures fromCache <==> enableCache && fact in old(localCache.value.entries)
      ensures fromCache ==> r == Success(old(localCache.value.entries[fact])) && localCache == old(localCache)
      ensures !fromCache ==> r == Route(ruleSequences, fact, eval)
      ensures r.Failure? ==> localCache == old(localCache)
      ensures enableCache && r.Success? && localCache.value.capacity >= 1 ==>
        fact in localCache.value.entries && localCache.value.entries[fact] == r.value
      ensures enableCache ==> localCache.value.capacity == old(localCache.value.capacity)
      ensures enableCache ==> forall key :: key in localCache.value.entries && key != fact ==>
        key in old(localCache.value.entries) && localCache.value.entries[key] == old(localCache.value.entries)[key]
      ensures enableCache ==> |old(localCache.value.entries).Keys - localCache.value.entries.Keys| <= 1
      ensures enableCache && |old(localCache.value.entries)| < MaxEntries(old(localCache.value.capacity)) ==>
        forall key :: key in old(localCache.value.entries) ==> key in localCache.value.entries
      ensures old(CacheCoherent(eval)) ==> CacheCoherent(eval) && r == Route(ruleSequences, fact, eval)
    {
      if enableCache && fact in localCache.value.entries {
        return Success(localCache.value.entries[fact]), true;
      }
      fromCache := false;
      r := Route(ruleSequences, fact, eval);
      if r.Success? && enableCache {
        var updated := Put(localCache.value, fact, r.value);
        localCache := Some(updated);
      }
    }

    /** `clearLocalCache`: empties the cache; without one it dereferences
        `null`. */
    method ClearLocalCache() returns (o: Outcome)
      requires Valid()
      modifies this
      ensures Valid() && ruleSequences == old(ruleSequences)
      ensures o.Fail? <==> !enableCache
      ensures o.Fail? ==> o.error == NullPointer && localCache == old(localCache)
      ensures o.Pass? ==> localCache == Some(Clear(old(localCache.value)))
    {
      if !enableCache {
        return Fail(NullPointer);
      }
      localCache := Some(Clear(localCache.value));
      o := Pass;
    }
  }

  /** With a `null` fact the scan raises as soon as it reaches a rule, and
      only then. */
  lemma {:induction false} NullFactRaisesIffAnyRule(tiers: seq<seq<Rule>>, eval: Evaluator)
    ensures Route(tiers, None, eval).Failure? <==> exists k :: 0 <= k < |tiers| && tiers[k] != []
  {
    if tiers != [] {
      NullFactRaisesIffAnyRule(tiers[1..], eval);
      if tiers[0] == [] {
        assert forall k :: 1 <= k < |tiers| ==> tiers[k] == tiers[1..][k - 1];
        if exists k :: 0 <= k < |tiers[1..]| && tiers[1..][k] != [] {
          var k :| 0 <= k < |tiers[1..]| && tiers[1..][k] != [];
          assert tiers[k + 1] != [];
        }
      }
    }
  }

  /** No namespace filtering: a matching rule of any namespace in the
      first tier with a match decides. */
  lemma FirstMatchingTierDecides(tiers: seq<seq<Rule>>, k: nat, i: nat, fact: Fact, eval: Evaluator)
    requires k < |tiers| && NoTierMatches(tiers[..k], fact, eval) && FirstMatchAt(tiers[k], i, fact, eval)
    ensures Route(tiers, Some(fact), eval) == Success(Action(tiers[k][i]))
  {
    ScanFindsFirstMatchingTier(tiers, k, i, fact, eval);
  }
}

/** `RoutingResultCacheAspect`: an interceptor that remembers the result
    of a one-argument routing call in a bounded cache keyed by the
    argument. The intercepted call is a function `target` of its argument;
    a result is `Success(v)` (with `None` for `null`) or the exception the
    call throws. */
module CacheAspect {
  import opened Wrappers
  import opened BoundedCache

  /** Capacity of the cache the aspect starts with. */
  const DefaultCapacity: int := 1000

  class RoutingResultCacheAspect<A(==), V> {
    var internalCache: BoundedMap<A, Option<V>>

    ghost predicate Valid()
      reads this
    {
      internalCache.Valid()
    }

    /** The cache is invisible: every entry is what the call would return. */
    ghost predicate Transparent(target: A -> Result<Option<V>>)
      reads this
    {
      forall key :: key in internalCache.entries ==> target(key) == Success(internalCache.entries[key])
    }

    constructor()
      ensures Valid() && internalCache == NewBoundedMap(DefaultCapacity)
    {
      internalCache := NewBoundedMap(DefaultCapacity);
    }

    /** `invoke` as written: anything but one argument is refused; a cached
        value is returned without calling; otherwise the call is made and,
        in a `finally` block, its result is cached, which is `null` when the
        call threw. */
    method Invoke(args: seq<A>, target: A -> Result<Option<V>>) returns (r: Result<Option<V>>, proceeded: bool)
      requires Valid()
      modifies this
      ensures Valid() && internalCache.capacity == old(internalCache.capacity)
      ensures |args| != 1 ==>
        r == Failure(IllegalArgument(UnexpectedArgumentCount)) && !proceeded && internalCache == old(internalCache)
      ensures |args| == 1 && args[0] in old(internalCache.entries) ==>
        r == Success(old(internalCache.entries[args[0]])) && !proceeded && internalCache == old(internalCache)
      ensures proceeded <==> |args| == 1 && args[0] !in old(internalCache.entries)
      ensures proceeded ==> r == target(args[0])
      ensures proceeded && internalCache.capacity >= 1 ==>
        args[0] in internalCache.entries &&
        internalCache.entries[args[0]] == (if r.Success? then r.value else None)
      ensures proceeded && r.Failure? && internalCache.capacity >= 1 ==> !Transparent(target)
      ensures forall key :: key in internalCache.entries && (|args| == 1 ==> key != args[0]) ==>
        key in old(internalCache.entries) && internalCache.entries[key] == old(internalCache.entries)[key]
      ensures |old(internalCache.entries).Keys - internalCache.entries.Keys| <= 1
      ensures |old(internalCache.entries)| < MaxEntries(old(internalCache.capacity)) ==>
        forall key :: key in old(internalCache.entries) ==> key in internalCache.entries
    {
      if |args| != 1 {
        return Failure(IllegalArgument(UnexpectedArgumentCount)), false;
      }
      if args[0] in internalCache.entries {
        return Success(internalCache.entries[args[0]]), false;
      }
      proceeded := true;
      r := target(args[0]);
      var result := if r.Success? then r.value else None;
      internalCache := Put(internalCache, args[0], result);
    }

    /** `invoke` caching only results the call returned: a thrown exception
        propagates and leaves nothing behind, so the cache stays invisible. */
    method InvokeCachingOnlyResults(args: seq<A>, target: A -> Result<Option<V>>) returns (r: Result<Option<V>>, proceeded: bool)
      requires Valid()
      modifies this
      ensures Valid() && internalCache.capacity == old(internalCache.capacity)
      ensures |args| != 1 ==>
        r == Failure(IllegalArgument(UnexpectedArgumentCount)) && !proceeded && internalCache == old(internalCache)
      ensures proceeded <==> |args| == 1 && args[0] !in old(internalCache.entries)
      ensures |args| == 1 && args[0] in old(internalCache.entries) ==>
        r == Success(old(internalCache.entries[args[0]])) && !proceeded && internalCache == old(internalCache)
      ensures proceeded ==> r == target(args[0])
      ensures proceeded && r.Failure? ==> internalCache == old(internalCache)
      ensures proceeded && r.Success? && internalCache.capacity >= 1 ==>
        args[0] in internalCache.entries && internalCache.entries[args[0]] == r.value
      ensures forall key :: key in internalCache.entries && (|args| == 1 ==> key != args[0]) ==>
        key in old(internalCache.entries) && internalCache.entries[key] == old(internalCache.entries)[key]
      ensures |old(internalCache.entries).Keys - internalCache.entries.Keys| <= 1
      ensures |old(internalCache.entries)| < MaxEntries(old(internalCache.capacity)) ==>
        forall key :: key in old(internalCache.entries) ==> key in internalCache.entries
      ensures old(Transparent(target)) ==> Transparent(target) && (|args| == 1 ==> r == target(args[0]))
    {
      if |args| != 1 {
        return Failure(IllegalArgument(UnexpectedArgumentCount)), false;
      }
      if args[0] in internalCache.entries {
        return Success(internalCache.entries[args[0]]), false;
      }
      proceeded := true;
      r := target(args[0]);
      if r.Success? {
        internalCache := Put(internalCache, args[0], r.value);
      }
    }

    /** `setInternalCache`: a `null` cache is refused. */
    method SetInternalCache(cache: Option<BoundedMap<A, Option<V>>>) returns (o: Outcome)
      requires cache.Some? ==> cache.value.Valid()
      modifies this
      ensures cache.None? ==> o == Fail(IllegalArgument(NullCacheMap)) && internalCache == old(internalCache)
      ensures cache.Some? ==> o == Pass && internalCache == cache.value
    {
      if cache.None? {
        return Fail(IllegalArgument(NullCacheMap));
      }
      internalCache := cache.value;
      o := Pass;
    }
  }
}

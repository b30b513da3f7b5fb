/** `ShardSqlSessionTemplate`: the part that decides where a statement goes
    and which worker pools exist. Routing turns a statement and its
    parameter into the data sources its shards name, in a map sorted by
    shard identity. Worker pools ("executors") are created per data source
    and for a default name, recorded in a registry, and shut down on
    `destroy`. Threads are not modelled: an executor is the record of how
    its pool was sized, with the serial number of its creation. */
module SessionTemplate {
  import opened Wrappers
  import opened Rules
  import opened DataSources
  import opened SortedMaps
  import opened Sequences

  /** Name the default executor is registered under unless another is set. */
  const DefaultDataSourceIdentity: string := "_ShardSqlSessionTemplate_default_data_source_name"

  /** What `doRoute` hands back: a `RoutingResult` whose identity list may
      be `null`, or no result object at all (`null`), as a caching aspect in
      front of the router returns for a call that failed before. */
  datatype Routed = NullResult | RoutingResult(resourceIdentities: Option<seq<string>>)

  /** A router: the routing fact to its routing result. A router may raise. */
  type ShardRouter = Fact -> Result<Routed>

  /** What the template reads from the data-source service. */
  datatype ShardDataSourceService = ShardDataSourceService(
    dataSources: map<string, DataSource>,
    descriptors: seq<Descriptor>)

  /** `Map.get`: `null` for an identity the service does not know. */
  function Get(dataSources: map<string, DataSource>, identity: string): Option<DataSource> {
    if identity in dataSources then Some(dataSources[identity]) else None
  }

  /** The loop body of `lookupDataSourcesByRouter`, over the identities in
      the order given. */
  function PutAll(ids: seq<string>, dataSources: map<string, DataSource>): (r: seq<Entry<Option<DataSource>>>)
    ensures Ascending(r)
  {
    if ids == [] then []
    else
      var last := ids[|ids| - 1];
      Put(PutAll(ids[..|ids| - 1], dataSources), last, Get(dataSources, last))
  }

  /** What routing a statement gives: the router's error; a `null` routing
      result is dereferenced (`getResourceIdentities()`) and raises; an empty
      map for no identities; otherwise each identity with its data source. */
  function RoutedDataSources(routed: Result<Routed>, dataSources: map<string, DataSource>)
    : (r: Result<seq<Entry<Option<DataSource>>>>)
    ensures r.Failure? <==> routed.Failure? || routed.value.NullResult?
    ensures r.Failure? ==> r.error == (if routed.Failure? then routed.error else NullPointer)
    ensures routed.Success? && routed.value.RoutingResult? ==>
      var ids := routed.value.resourceIdentities;
      r.Success? && KeysOf(r.value) == (if ids.None? then {} else set id | id in ids.value)
  {
    match routed
    case Failure(e) => Failure(e)
    case Success(NullResult) => Failure(NullPointer)
    case Success(RoutingResult(ids)) =>
      if ids.None? || ids.value == [] then Success([])
      else
        RoutedMapHoldsEveryIdentity(ids.value, dataSources);
        Success(PutAll(ids.value, dataSources))
  }

  /** Every routed identity is a key exactly once, in ascending order, with
      the data source the service has under it; there are no other keys. */
  lemma {:induction false} RoutedMapHoldsEveryIdentity(ids: seq<string>, dataSources: map<string, DataSource>)
    ensures var r := PutAll(ids, dataSources);
      && Ascending(r)
      && KeysOf(r) == (set id | id in ids)
      && forall e :: e in r ==> e.value == Get(dataSources, e.key)
  {
    if ids != [] {
      var n := |ids| - 1;
      var k := ids[n];
      RoutedMapHoldsEveryIdentity(ids[..n], dataSources);
      var before := PutAll(ids[..n], dataSources);
      var r := Put(before, k, Get(dataSources, k));
      assert PutAll(ids, dataSources) == r;
      DropLast(ids);
      ElementsOfSnoc(ids[..n], k);
      forall e | e in r ensures e.value == Get(dataSources, e.key) {
        if e.key != k {
          assert e in before;
        }
      }
    }
  }

  /** The size a pool gets: as many threads as processors, but never more
      than the descriptor's pool size, a queue as long as the core size,
      and up to the pool size threads when the queue is full. */
  datatype Executor = Executor(serial: nat, coreSize: int, maximumPoolSize: int, queueCapacity: int)

  /** `createCustomExecutorService`: a pool whose core size comes out below
      one is refused by the queue, which is made first. */
  function CreateCustomExecutorService(poolSize: int, processors: int, serial: nat): (r: Result<Executor>)
    ensures r.Failure? <==> poolSize < 1 || processors < 1
    ensures r.Failure? ==> r.error == IllegalArgument(InvalidPoolSize)
    ensures r.Success? ==>
      var x := r.value;
      && x.serial == serial
      && x.coreSize <= processors && x.coreSize <= poolSize
      && (x.coreSize == processors || x.coreSize == poolSize)
      && x.queueCapacity == x.coreSize
      && x.maximumPoolSize == poolSize
      && 1 <= x.coreSize <= x.maximumPoolSize
  {
    var coreSize := if poolSize < processors then poolSize else processors;
    if coreSize < 1 then Failure(IllegalArgument(InvalidPoolSize))
    else Success(Executor(serial, coreSize, poolSize, coreSize))
  }

  /** The executors at some point of setting up: whether setting up has
      failed, the registry of created executors, and the executor per data
      source name. */
  datatype Executors = Executors(outcome: Outcome, registry: seq<Executor>, byDataSource: map<Option<string>, Executor>)

  /** One executor created, registered and put under `key`. */
  function CreateFor(st: Executors, key: Option<string>, poolSize: int, processors: int): (s: Executors)
  {
    match CreateCustomExecutorService(poolSize, processors, |st.registry|)
    case Failure(e) => Executors(Fail(e), st.registry, st.byDataSource)
    case Success(x) => Executors(Pass, st.registry + [x], st.byDataSource[key := x])
  }

  /** An executor for each descriptor in turn, stopping at the first that
      cannot be made. */
  function PerDescriptor(st: Executors, ds: seq<Descriptor>, processors: int): Executors
  {
    if ds == [] then st
    else
      var before := PerDescriptor(st, ds[..|ds| - 1], processors);
      var d := ds[|ds| - 1];
      if before.outcome.Fail? then before else CreateFor(before, d.identity, d.poolSize, processors)
  }

  /** `setupDefaultExecutorServicesIfNecessary` when partitioning is on:
      executors per descriptor only when there are none yet, then always
      one for the default name, sized five threads per processor. */
  function SetupSpec(registry: seq<Executor>, byDataSource: map<Option<string>, Executor>, ds: seq<Descriptor>,
                     defaultName: Option<string>, processors: int): Executors
  {
    var st := Executors(Pass, registry, byDataSource);
    var perDescriptor := if byDataSource == map[] then PerDescriptor(st, ds, processors) else st;
    if perDescriptor.outcome.Fail? then perDescriptor
    else CreateFor(perDescriptor, defaultName, processors * 5, processors)
  }

  class ShardSqlSessionTemplate {
    var router: Option<ShardRouter>
    var myShardDataSourceService: Option<ShardDataSourceService>
    var defaultDataSourceName: Option<string>
    var internalExecutorServiceRegistry: seq<Executor>
    var dataSourceSpecificExecutors: map<Option<string>, Executor>

    constructor()
      ensures router == None && myShardDataSourceService == None
      ensures defaultDataSourceName == Some(DefaultDataSourceIdentity)
      ensures internalExecutorServiceRegistry == [] && dataSourceSpecificExecutors == map[]
    {
      router := None;
      myShardDataSourceService := None;
      defaultDataSourceName := Some(DefaultDataSourceIdentity);
      internalExecutorServiceRegistry := [];
      dataSourceSpecificExecutors := map[];
    }

    /** `isPartitioningBehaviorEnabled`: a router and a data-source service
        are both set. */
    predicate IsPartitioningBehaviorEnabled(): (on: bool)
      reads this
      ensures on ==> router.Some? && myShardDataSourceService.Some?
      ensures router.Some? && myShardDataSourceService.Some? ==> on
    {
      router.Some? && myShardDataSourceService.Some?
    }

    /** `lookupDataSourcesByRouter`: without partitioning, or when the
        route names no shard, an empty map; otherwise each routed identity
        with the service's data source for it, in key order. */
    method LookupDataSourcesByRouter(statementName: Option<string>, parameterObject: Payload)
      returns (r: Result<seq<Entry<Option<DataSource>>>>)
      ensures !IsPartitioningBehaviorEnabled() ==> r == Success([])
      ensures IsPartitioningBehaviorEnabled() ==>
        r == RoutedDataSources(router.value(Fact(statementName, parameterObject)), myShardDataSourceService.value.dataSources)
    {
      if router.None? || myShardDataSourceService.None? {
        return Success([]);
      }
      var routed := router.value(Fact(statementName, parameterObject));
      if routed.Failure? {
        return Failure(routed.error);
      }
      if routed.value.NullResult? {
        return Failure(NullPointer);
      }
      var identities := routed.value.resourceIdentities;
      if identities.None? || identities.value == [] {
        return Success([]);
      }
      var ids := identities.value;
      var dataSources := myShardDataSourceService.value.dataSources;
      var resultMap: seq<Entry<Option<DataSource>>> := [];
      for i := 0 to |ids|
        invariant resultMap == PutAll(ids[..i], dataSources)
      {
        TakeTake(ids, i + 1, i);
        resultMap := Put(resultMap, ids[i], Get(dataSources, ids[i]));
      }
      TakeAll(ids);
      r := Success(resultMap);
    }

    /** `createExecutorForSpecificDataSource`: the executor is registered
        for disposal as soon as it exists. */
    method CreateExecutorForSpecificDataSource(descriptor: Descriptor, processors: int) returns (r: Result<Executor>)
      modifies this
      ensures r == CreateCustomExecutorService(descriptor.poolSize, processors, |old(internalExecutorServiceRegistry)|)
      ensures internalExecutorServiceRegistry ==
        if r.Success? then old(internalExecutorServiceRegistry) + [r.value] else old(internalExecutorServiceRegistry)
      ensures dataSourceSpecificExecutors == old(dataSourceSpecificExecutors)
      ensures router == old(router) && myShardDataSourceService == old(myShardDataSourceService)
      ensures defaultDataSourceName == old(defaultDataSourceName)
    {
      r := CreateCustomExecutorService(descriptor.poolSize, processors, |internalExecutorServiceRegistry|);
      if r.Success? {
        internalExecutorServiceRegistry := internalExecutorServiceRegistry + [r.value];
      }
    }

    /** `addDefaultSingleThreadExecutorIfNecessary`: despite its name it
        always adds an executor, under the default name. */
    method AddDefaultSingleThreadExecutorIfNecessary(processors: int) returns (o: Outcome)
      modifies this
      ensures Executors(o, internalExecutorServiceRegistry, dataSourceSpecificExecutors) ==
        CreateFor(Executors(Pass, old(internalExecutorServiceRegistry), old(dataSourceSpecificExecutors)),
                  defaultDataSourceName, processors * 5, processors)
      ensures router == old(router) && myShardDataSourceService == old(myShardDataSourceService)
      ensures defaultDataSourceName == old(defaultDataSourceName)
    {
      var descriptor := Descriptor(defaultDataSourceName, None, None, processors * 5);
      var created := CreateExecutorForSpecificDataSource(descriptor, processors);
      if created.Failure? {
        return Fail(created.error);
      }
      dataSourceSpecificExecutors := dataSourceSpecificExecutors[defaultDataSourceName := created.value];
      o := Pass;
    }

    /** `setupDefaultExecutorServicesIfNecessary`. */
    method SetupDefaultExecutorServicesIfNecessary(processors: int) returns (o: Outcome)
      modifies this
      ensures router == old(router) && myShardDataSourceService == old(myShardDataSourceService)
      ensures defaultDataSourceName == old(defaultDataSourceName)
      ensures !IsPartitioningBehaviorEnabled() ==>
        && o == Pass
        && internalExecutorServiceRegistry == old(internalExecutorServiceRegistry)
        && dataSourceSpecificExecutors == old(dataSourceSpecificExecutors)
      ensures IsPartitioningBehaviorEnabled() ==>
        Executors(o, internalExecutorServiceRegistry, dataSourceSpecificExecutors) ==
        SetupSpec(old(internalExecutorServiceRegistry), old(dataSourceSpecificExecutors),
                  myShardDataSourceService.value.descriptors, defaultDataSourceName, processors)
    {
      if !IsPartitioningBehaviorEnabled() {
        return Pass;
      }
      if dataSourceSpecificExecutors == map[] {
        var ds := myShardDataSourceService.value.descriptors;
        ghost var initial := Executors(Pass, internalExecutorServiceRegistry, dataSourceSpecificExecutors);
        for i := 0 to |ds|
          invariant router == old(router) && myShardDataSourceService == old(myShardDataSourceService)
          invariant defaultDataSourceName == old(defaultDataSourceName)
          invariant PerDescriptor(initial, ds[..i], processors) ==
            Executors(Pass, internalExecutorServiceRegistry, dataSourceSpecificExecutors)
        {
          TakeTake(ds, i + 1, i);
          var created := CreateExecutorForSpecificDataSource(ds[i], processors);
          if created.Failure? {
            PerDescriptorFailureSticks(initial, ds, i + 1, processors);
            return Fail(created.error);
          }
          dataSourceSpecificExecutors := dataSourceSpecificExecutors[ds[i].identity := created.value];
        }
        TakeAll(ds);
      }
      o := AddDefaultSingleThreadExecutorIfNecessary(processors);
    }

    /** `setDataSourceSpecificExecutors`: a `null` or empty map is ignored. */
    method SetDataSourceSpecificExecutors(executors: Option<map<Option<string>, Executor>>)
      modifies this
      ensures executors.None? || executors.value == map[] ==> dataSourceSpecificExecutors == old(dataSourceSpecificExecutors)
      ensures executors.Some? && executors.value != map[] ==> dataSourceSpecificExecutors == executors.value
      ensures internalExecutorServiceRegistry == old(internalExecutorServiceRegistry)
      ensures router == old(router) && myShardDataSourceService == old(myShardDataSourceService)
      ensures defaultDataSourceName == old(defaultDataSourceName)
    {
      if executors.None? || executors.value == map[] {
        return;
      }
      dataSourceSpecificExecutors := executors.value;
    }

    /** `destroy`: with a non-empty registry, every registered executor is
        shut down in registration order and the executor map is cleared;
        the registry itself is kept. With an empty registry nothing
        happens. Shutting a pool down has no effect the model can see, so
        the loop only records, in `shutDown`, which executors were shut
        down and in what order. */
    method Destroy() returns (shutDown: seq<Executor>)
      modifies this
      ensures internalExecutorServiceRegistry == old(internalExecutorServiceRegistry)
      ensures old(internalExecutorServiceRegistry) == [] ==>
        shutDown == [] && dataSourceSpecificExecutors == old(dataSourceSpecificExecutors)
      ensures old(internalExecutorServiceRegistry) != [] ==>
        shutDown == internalExecutorServiceRegistry && dataSourceSpecificExecutors == map[]
      ensures router == old(router) && myShardDataSourceService == old(myShardDataSourceService)
      ensures defaultDataSourceName == old(defaultDataSourceName)
    {
      shutDown := [];
      if internalExecutorServiceRegistry == [] {
        return;
      }
      var registry := internalExecutorServiceRegistry;
      for i := 0 to |registry|
        invariant shutDown == registry[..i]
      {
        assert registry[..i + 1] == registry[..i] + [registry[i]];
        shutDown := shutDown + [registry[i]];
      }
      TakeAll(registry);
      dataSourceSpecificExecutors := map[];
    }
  }

  /** Once an executor cannot be made, the descriptors after it add none. */
  lemma {:induction false} PerDescriptorFailureSticks(st: Executors, ds: seq<Descriptor>, j: nat, processors: int)
    requires j <= |ds| && PerDescriptor(st, ds[..j], processors).outcome.Fail?
    ensures PerDescriptor(st, ds, processors) == PerDescriptor(st, ds[..j], processors)
    decreases |ds|
  {
    if j < |ds| {
      var shorter := ds[..|ds| - 1];
      TakeTake(ds, |ds| - 1, j);
      PerDescriptorFailureSticks(st, shorter, j, processors);
    } else {
      TakeAll(ds);
    }
  }

  /** Creating executors only appends to the registry, and every executor
      put in the map is either one that was there or one just registered;
      no key is lost. */
  ghost predicate Extends(before: Executors, after: Executors) {
    && |before.registry| <= |after.registry|
    && after.registry[..|before.registry|] == before.registry
    && before.byDataSource.Keys <= after.byDataSource.Keys
    && forall k :: k in after.byDataSource ==>
         (k in before.byDataSource && after.byDataSource[k] == before.byDataSource[k]) ||
         after.byDataSource[k] in after.registry[|before.registry|..]
  }

  lemma CreateForExtends(st: Executors, key: Option<string>, poolSize: int, processors: int)
    ensures Extends(st, CreateFor(st, key, poolSize, processors))
  {
    var s := CreateFor(st, key, poolSize, processors);
    if s.outcome.Pass? {
      assert s.registry[|st.registry|..] == [s.registry[|st.registry|]];
    } else {
      assert s.registry[|st.registry|..] == [];
    }
  }

  lemma ExtendsTransitive(a: Executors, b: Executors, c: Executors)
    requires Extends(a, b) && Extends(b, c)
    ensures Extends(a, c)
  {
    assert c.registry[..|a.registry|] == c.registry[..|b.registry|][..|a.registry|];
    forall k | k in c.byDataSource
      ensures (k in a.byDataSource && c.byDataSource[k] == a.byDataSource[k]) ||
              c.byDataSource[k] in c.registry[|a.registry|..]
    {
      if !(k in b.byDataSource && c.byDataSource[k] == b.byDataSource[k]) {
        var j :| 0 <= j < |c.registry[|b.registry|..]| && c.registry[|b.registry|..][j] == c.byDataSource[k];
        assert c.registry[|a.registry|..][j + |b.registry| - |a.registry|] == c.byDataSource[k];
      } else if !(k in a.byDataSource && b.byDataSource[k] == a.byDataSource[k]) {
        var j :| 0 <= j < |b.registry[|a.registry|..]| && b.registry[|a.registry|..][j] == b.byDataSource[k];
        assert c.registry[|a.registry|..][j] == b.registry[|a.registry| + j];
      }
    }
  }

  lemma {:induction false} PerDescriptorExtends(st: Executors, ds: seq<Descriptor>, processors: int)
    ensures Extends(st, PerDescriptor(st, ds, processors))
  {
    if ds == [] {
      assert st.registry[..|st.registry|] == st.registry;
      assert st.registry[|st.registry|..] == [];
    } else {
      var before := PerDescriptor(st, ds[..|ds| - 1], processors);
      PerDescriptorExtends(st, ds[..|ds| - 1], processors);
      if before.outcome.Pass? {
        var d := ds[|ds| - 1];
        CreateForExtends(before, d.identity, d.poolSize, processors);
        ExtendsTransitive(st, before, CreateFor(before, d.identity, d.poolSize, processors));
      }
    }
  }

  /** Setting up registers every executor it creates, so `destroy` shuts
      each of them down; executors already present are left in place. */
  lemma SetupRegistersWhatItCreates(registry: seq<Executor>, byDataSource: map<Option<string>, Executor>,
                                    ds: seq<Descriptor>, defaultName: Option<string>, processors: int)
    ensures Extends(Executors(Pass, registry, byDataSource), SetupSpec(registry, byDataSource, ds, defaultName, processors))
  {
    var st := Executors(Pass, registry, byDataSource);
    var perDescriptor := if byDataSource == map[] then PerDescriptor(st, ds, processors) else st;
    if byDataSource == map[] {
      PerDescriptorExtends(st, ds, processors);
    } else {
      assert registry[..|registry|] == registry;
      assert registry[|registry|..] == [];
    }
    if perDescriptor.outcome.Pass? {
      CreateForExtends(perDescriptor, defaultName, processors * 5, processors);
      ExtendsTransitive(st, perDescriptor, CreateFor(perDescriptor, defaultName, processors * 5, processors));
    }
  }

  /** Executors already present suppress the per-descriptor ones: only the
      default executor is created. */
  lemma ExistingExecutorsSuppressPerDescriptor(registry: seq<Executor>, byDataSource: map<Option<string>, Executor>,
                                               ds: seq<Descriptor>, defaultName: Option<string>, processors: int)
    requires byDataSource != map[] && processors >= 1
    ensures var s := SetupSpec(registry, byDataSource, ds, defaultName, processors);
      && s.outcome.Pass?
      && |s.registry| == |registry| + 1
      && s.registry[..|registry|] == registry
      && s.byDataSource == byDataSource[defaultName := s.registry[|registry|]]
      && s.registry[|registry|].maximumPoolSize == processors * 5
      && s.registry[|registry|].coreSize == processors
  {
    var s := SetupSpec(registry, byDataSource, ds, defaultName, processors);
    assert s.registry == registry + [s.registry[|registry|]];
  }

  /** No descriptor asks for a pool below one thread, and, when there is
      any descriptor, there is a processor. */
  ghost predicate PoolsPositive(ds: seq<Descriptor>, processors: int) {
    ds == [] || (processors >= 1 && forall i :: 0 <= i < |ds| ==> ds[i].poolSize >= 1)
  }

  /** Every descriptor's identity has an executor. */
  ghost predicate Covers(ds: seq<Descriptor>, byDataSource: map<Option<string>, Executor>) {
    forall i :: 0 <= i < |ds| ==> ds[i].identity in byDataSource
  }

  lemma PoolsPositiveSnoc(ds: seq<Descriptor>, processors: int)
    requires ds != []
    ensures PoolsPositive(ds, processors) <==>
      PoolsPositive(ds[..|ds| - 1], processors) && processors >= 1 && ds[|ds| - 1].poolSize >= 1
  {
    assert forall i :: 0 <= i < |ds| - 1 ==> ds[..|ds| - 1][i] == ds[i];
  }

  lemma CoversSnoc(ds: seq<Descriptor>, before: map<Option<string>, Executor>, after: map<Option<string>, Executor>)
    requires ds != [] && before.Keys <= after.Keys
    requires Covers(ds[..|ds| - 1], before) && ds[|ds| - 1].identity in after
    ensures Covers(ds, after)
  {
    assert forall i :: 0 <= i < |ds| - 1 ==> ds[..|ds| - 1][i] == ds[i];
  }

  /** Every descriptor is attempted until one fails: the per-descriptor
      pass succeeds exactly when every pool size is positive (and there is
      a processor), and then every identity has an executor. */
  lemma {:induction false} PerDescriptorCoversEveryDescriptor(st: Executors, ds: seq<Descriptor>, processors: int)
    requires st.outcome.Pass?
    ensures var s := PerDescriptor(st, ds, processors);
      && (s.outcome.Pass? <==> PoolsPositive(ds, processors))
      && (s.outcome.Fail? ==> s.outcome.error == IllegalArgument(InvalidPoolSize))
      && (s.outcome.Pass? ==> Covers(ds, s.byDataSource))
  {
    if ds != [] {
      var n := |ds| - 1;
      var shorter := ds[..n];
      var d := ds[n];
      PerDescriptorCoversEveryDescriptor(st, shorter, processors);
      PoolsPositiveSnoc(ds, processors);
      var before := PerDescriptor(st, shorter, processors);
      if before.outcome.Pass? {
        var s := CreateFor(before, d.identity, d.poolSize, processors);
        assert PerDescriptor(st, ds, processors) == s;
        if s.outcome.Pass? {
          CoversSnoc(ds, before.byDataSource, s.byDataSource);
        }
      } else {
        assert PerDescriptor(st, ds, processors) == before;
      }
    }
  }

  /** A fresh setup that succeeds leaves an executor for every descriptor
      and for the default name, and it succeeds exactly when no pool size
      is below one. */
  lemma FreshSetupCoversEveryDataSource(registry: seq<Executor>, ds: seq<Descriptor>, defaultName: Option<string>, processors: int)
    ensures var s := SetupSpec(registry, map[], ds, defaultName, processors);
      && (s.outcome.Pass? <==> processors >= 1 && forall i :: 0 <= i < |ds| ==> ds[i].poolSize >= 1)
      && (s.outcome.Fail? ==> s.outcome.error == IllegalArgument(InvalidPoolSize))
      && (s.outcome.Pass? ==> defaultName in s.byDataSource && Covers(ds, s.byDataSource))
  {
    var st := Executors(Pass, registry, map[]);
    PerDescriptorCoversEveryDescriptor(st, ds, processors);
    var perDescriptor := PerDescriptor(st, ds, processors);
    if perDescriptor.outcome.Pass? {
      CreateForExtends(perDescriptor, defaultName, processors * 5, processors);
    }
  }
}

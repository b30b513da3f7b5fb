/** `DefaultShardDataSourceService`: turns data source descriptors into the
    identity-to-data-source map the session template routes into. A data
    source is represented by how it was built: the configured target, the
    high-availability wrapper the creator makes from target and standby,
    post-processor wrappers, and the lazy connection proxy put around each. */
module DataSources {
  import opened Wrappers
  import opened Sequences

  /** The high-availability creator: the default non-HA creator, or one the
      configuration supplies (told apart by a number). */
  datatype HaCreator = NonHACreator | ConfiguredCreator(id: nat)

  datatype DataSource =
    | Physical(name: nat)
    | HighAvailability(creator: HaCreator, primary: DataSource, standby: DataSource)
    | PostProcessed(processor: nat, inner: DataSource)
    | LazyProxy(target: DataSource)

  /** `ShardDataSourceDescriptor`, the fields this service and the session
      template read. */
  datatype Descriptor = Descriptor(
    identity: Option<string>,
    targetDataSource: Option<DataSource>,
    standbyDataSource: Option<DataSource>,
    poolSize: int)

  /** `Validate.notEmpty(identity)` then `Validate.notNull(target)`. */
  function ValidateDescriptor(d: Descriptor): (o: Outcome)
    ensures o.Pass? <==> d.identity.Some? && d.identity.value != "" && d.targetDataSource.Some?
    ensures o.Fail? ==> o.error == IllegalArgument(if d.identity.None? || d.identity.value == "" then EmptyArgument else NullArgument)
  {
    if d.identity.None? || d.identity.value == "" then Fail(IllegalArgument(EmptyArgument))
    else if d.targetDataSource.None? then Fail(IllegalArgument(NullArgument))
    else Pass
  }

  /** The post-processors applied in list order, each wrapping the result
      of the one before. */
  function ApplyPostProcessors(ds: DataSource, processors: seq<nat>): (r: DataSource)
    ensures processors == [] ==> r == ds
    ensures processors != [] ==> r.PostProcessed? && r.processor == processors[|processors| - 1]
  {
    if processors == [] then ds
    else PostProcessed(processors[|processors| - 1], ApplyPostProcessors(ds, processors[..|processors| - 1]))
  }

  /** The data source a valid descriptor stands for: its target as it is,
      or, with a standby, the creator's HA data source run through the
      post-processors. */
  function DataSourceToUse(d: Descriptor, creator: HaCreator, processors: Option<seq<nat>>): DataSource
    requires d.targetDataSource.Some?
  {
    if d.standbyDataSource.None? then d.targetDataSource.value
    else
      var ha := HighAvailability(creator, d.targetDataSource.value, d.standbyDataSource.value);
      if processors.Some? then ApplyPostProcessors(ha, processors.value) else ha
  }

  /** Where a registration stands: whether it failed, and the map. */
  datatype Registration = Registration(outcome: Outcome, dataSources: map<string, DataSource>)

  /** One descriptor: validated, then its lazily connecting data source is
      put under its identity, replacing any earlier one. */
  function Register(dataSources: map<string, DataSource>, d: Descriptor, creator: HaCreator,
                    processors: Option<seq<nat>>): Registration
  {
    match ValidateDescriptor(d)
    case Fail(e) => Registration(Fail(e), dataSources)
    case Pass =>
      Registration(Pass, dataSources[d.identity.value := LazyProxy(DataSourceToUse(d, creator, processors))])
  }

  /** The descriptors in order, stopping at the first invalid one. */
  function RegisterAll(dataSources: map<string, DataSource>, ds: seq<Descriptor>, creator: HaCreator,
                       processors: Option<seq<nat>>): Registration
  {
    if ds == [] then Registration(Pass, dataSources)
    else
      var before := RegisterAll(dataSources, ds[..|ds| - 1], creator, processors);
      if before.outcome.Fail? then before else Register(before.dataSources, ds[|ds| - 1], creator, processors)
  }

  lemma RegisterOneMore(dataSources: map<string, DataSource>, ds: seq<Descriptor>, i: nat, creator: HaCreator,
                        processors: Option<seq<nat>>, current: map<string, DataSource>)
    requires i < |ds| && RegisterAll(dataSources, ds[..i], creator, processors) == Registration(Pass, current)
    ensures RegisterAll(dataSources, ds[..i + 1], creator, processors) == Register(current, ds[i], creator, processors)
  {
    TakeTake(ds, i + 1, i);
  }

  lemma {:induction false} RegistrationFailureSticks(dataSources: map<string, DataSource>, ds: seq<Descriptor>, j: nat,
                                                     creator: HaCreator, processors: Option<seq<nat>>)
    requires j <= |ds| && RegisterAll(dataSources, ds[..j], creator, processors).outcome.Fail?
    ensures RegisterAll(dataSources, ds, creator, processors) == RegisterAll(dataSources, ds[..j], creator, processors)
    decreases |ds|
  {
    if j < |ds| {
      var n := |ds| - 1;
      TakeTake(ds, n, j);
      RegistrationFailureSticks(dataSources, ds[..n], j, creator, processors);
    } else {
      TakeAll(ds);
    }
  }

  class DefaultShardDataSourceService {
    var dataSourceDescriptors: Option<seq<Descriptor>>
    var dataSourcePostProcessor: Option<seq<nat>>
    var haDataSourceCreator: Option<HaCreator>
    var dataSources: map<string, DataSource>

    constructor()
      ensures dataSourceDescriptors == Some([]) && dataSourcePostProcessor == Some([])
      ensures haDataSourceCreator == None && dataSources == map[]
    {
      dataSourceDescriptors := Some([]);
      dataSourcePostProcessor := Some([]);
      haDataSourceCreator := None;
      dataSources := map[];
    }

    /** `afterPropertiesSet`: without a creator the non-HA one is used; then
        each descriptor is validated and registered in turn. An invalid
        descriptor stops the loop; the ones before it stay registered. */
    method AfterPropertiesSet() returns (o: Outcome)
      modifies this
      ensures haDataSourceCreator == Some(if old(haDataSourceCreator).Some? then old(haDataSourceCreator).value else NonHACreator)
      ensures dataSourceDescriptors == old(dataSourceDescriptors) && dataSourcePostProcessor == old(dataSourcePostProcessor)
      ensures Registration(o, dataSources) ==
        RegisterAll(old(dataSources), if dataSourceDescriptors.Some? then dataSourceDescriptors.value else [],
                    haDataSourceCreator.value, dataSourcePostProcessor)
    {
      if haDataSourceCreator.None? {
        haDataSourceCreator := Some(NonHACreator);
      }
      if dataSourceDescriptors.None? || dataSourceDescriptors.value == [] {
        return Pass;
      }
      var ds := dataSourceDescriptors.value;
      var creator := haDataSourceCreator.value;
      var postProcessors := dataSourcePostProcessor;
      ghost var initial := dataSources;
      for i := 0 to |ds|
        invariant haDataSourceCreator == Some(creator)
        invariant dataSourceDescriptors == old(dataSourceDescriptors) && dataSourcePostProcessor == postProcessors
        invariant RegisterAll(initial, ds[..i], creator, postProcessors) == Registration(Pass, dataSources)
      {
        RegisterOneMore(initial, ds, i, creator, postProcessors, dataSources);
        var descriptor := ds[i];
        if descriptor.identity.None? || descriptor.identity.value == "" {
          RegistrationFailureSticks(initial, ds, i + 1, creator, postProcessors);
          return Fail(IllegalArgument(EmptyArgument));
        }
        if descriptor.targetDataSource.None? {
          RegistrationFailureSticks(initial, ds, i + 1, creator, postProcessors);
          return Fail(IllegalArgument(NullArgument));
        }
        var dataSourceToUse := descriptor.targetDataSource.value;
        if descriptor.standbyDataSource.Some? {
          dataSourceToUse := HighAvailability(creator, dataSourceToUse, descriptor.standbyDataSource.value);
          if postProcessors.Some? {
            var processors := postProcessors.value;
            ghost var ha := dataSourceToUse;
            for k := 0 to |processors|
              invariant dataSourceToUse == ApplyPostProcessors(ha, processors[..k])
            {
              assert processors[..k + 1][..k] == processors[..k];
              dataSourceToUse := PostProcessed(processors[k], dataSourceToUse);
            }
            TakeAll(processors);
          }
        }
        dataSources := dataSources[descriptor.identity.value := LazyProxy(dataSourceToUse)];
      }
      TakeAll(ds);
      o := Pass;
    }
  }

  /** The identities of some descriptors. */
  function Identities(ds: seq<Descriptor>): set<string> {
    set i | 0 <= i < |ds| && ds[i].identity.Some? :: ds[i].identity.value
  }

  lemma IdentitiesSnoc(ds: seq<Descriptor>)
    requires ds != [] && ds[|ds| - 1].identity.Some?
    ensures Identities(ds) == Identities(ds[..|ds| - 1]) + {ds[|ds| - 1].identity.value}
  {
    var n := |ds| - 1;
    forall id | id in Identities(ds) ensures id in Identities(ds[..n]) + {ds[n].identity.value} {
      var i :| 0 <= i < |ds| && ds[i].identity.Some? && ds[i].identity.value == id;
      if i < n {
        assert ds[..n][i] == ds[i];
      }
    }
    forall id | id in Identities(ds[..n]) ensures id in Identities(ds) {
      var i :| 0 <= i < n && ds[..n][i].identity.Some? && ds[..n][i].identity.value == id;
      assert ds[i] == ds[..n][i];
    }
    assert ds[n].identity.value in Identities(ds);
  }

  /** A registration that succeeds keeps every earlier entry's key and adds
      exactly the descriptors' identities. */
  lemma {:induction false} RegisteredKeys(dataSources: map<string, DataSource>, ds: seq<Descriptor>, creator: HaCreator,
                                          processors: Option<seq<nat>>)
    requires RegisterAll(dataSources, ds, creator, processors).outcome.Pass?
    ensures RegisterAll(dataSources, ds, creator, processors).dataSources.Keys == dataSources.Keys + Identities(ds)
  {
    if ds != [] {
      var n := |ds| - 1;
      var before := RegisterAll(dataSources, ds[..n], creator, processors);
      assert before.outcome.Pass?;
      RegisteredKeys(dataSources, ds[..n], creator, processors);
      IdentitiesSnoc(ds);
    }
  }

  /** A later descriptor with the same identity replaces an earlier one: an
      identity ends up mapped to its last descriptor's data source, behind
      a lazy proxy. */
  lemma {:induction false} LastDescriptorWins(dataSources: map<string, DataSource>, ds: seq<Descriptor>, j: nat,
                                              creator: HaCreator, processors: Option<seq<nat>>)
    requires RegisterAll(dataSources, ds, creator, processors).outcome.Pass?
    requires j < |ds| && ds[j].identity.Some?
    requires forall i :: j < i < |ds| ==> ds[i].identity != ds[j].identity
    ensures ds[j].targetDataSource.Some?
    ensures var result := RegisterAll(dataSources, ds, creator, processors).dataSources;
      ds[j].identity.value in result &&
      result[ds[j].identity.value] == LazyProxy(DataSourceToUse(ds[j], creator, processors))
    decreases |ds|
  {
    var n := |ds| - 1;
    if j < n {
      forall i | j < i < n ensures ds[..n][i].identity != ds[..n][j].identity {
        assert ds[..n][i] == ds[i];
      }
      assert ds[..n][j] == ds[j];
      LastDescriptorWins(dataSources, ds[..n], j, creator, processors);
    }
  }

  /** Post-processors only ever see high-availability data sources: a
      descriptor without a standby keeps its own target untouched. */
  lemma PostProcessorsOnlyForStandby(d: Descriptor, creator: HaCreator, processors: Option<seq<nat>>)
    requires d.targetDataSource.Some?
    ensures d.standbyDataSource.None? ==> DataSourceToUse(d, creator, processors) == d.targetDataSource.value
    ensures d.standbyDataSource.Some? && processors.Some? && processors.value != [] ==>
      DataSourceToUse(d, creator, processors).PostProcessed?
  {
  }

  /** The post-processor chain keeps every step: the innermost data source
      is the one given, and the chain's depth is the number of processors. */
  function Depth(ds: DataSource): nat {
    if ds.PostProcessed? then 1 + Depth(ds.inner) else 0
  }

  lemma {:induction false} PostProcessorChain(ds: DataSource, processors: seq<nat>)
    requires !ds.PostProcessed?
    ensures Depth(ApplyPostProcessors(ds, processors)) == |processors|
    decreases |processors|
  {
    if processors != [] {
      PostProcessorChain(ds, processors[..|processors| - 1]);
    }
  }
}

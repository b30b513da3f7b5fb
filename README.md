# Shard routing and fan-out bookkeeping of the MyBatis sharding layer

This project models the core of `com.gimc.mybatis.db.shard`, a sharding
layer on top of MyBatis and Spring, in Dafny, and proves properties of the
model. The core covers:

- **Routing rules.** There are four kinds of rule. A statement-id rule
  matches one statement exactly. A namespace rule matches every statement of
  one namespace. Each of the two kinds also has a sharding variant that adds
  an expression over the statement's parameter. A rule's `action()` is its
  list of shard identities.
- **The two routers.**
  - `DefaultShardInternalRouter` keeps the four rule tiers per namespace.
  - `ShardInternalRouter` keeps one global list of tiers, with an optional
    bounded result cache in front.
  - Both take the first matching rule of the first tier that has a match.
- **Rule loading.** The loop of `InternalRuleLoader4DefaultInternalRouter`
  and the loop of `ShardInteralRouterXmlFactoryBean` validate configuration
  records and file each one into exactly one of the four tiers. The factory
  bean's `afterPropertiesSet` builds the router from them.
- **`RoutingResultCacheAspect`.** It memoises routing results.
- **`DefaultShardDataSourceService`.** It builds the identity → data
  source registry.
- **`DefaultConcurrentRequestProcessor`.** This is its connection
  discipline: acquire every connection first, run the tasks, give every
  connection back, then report the first failure. The discipline is recorded
  as a trace of events.
- **`ShardSqlSessionTemplate`.** It covers routing to a sorted identity →
  data source map, the sizing of executors, and the lifecycle of the
  executor registry.
- **`ShardSqlSessionDaoSupport`.** These are the partitioned batch loops.
  They count successes, carry on after a data-access failure, and rethrow
  the last such failure at the end.

Modules, one per file:

| file | module | models |
|---|---|---|
| wrappers.dfy | `Wrappers` | `Option`, `Result`, `Outcome` and the Java exceptions the core raises |
| strings.dfy | `StringUtils` | `String.trim`, Apache `trimToEmpty`, `substringBeforeLast` and `split` |
| seqs.dfy | `Sequences` | small sequence lemmas used by the loop proofs |
| rules.dfy | `Rules` | the four rule kinds, their constructors, `isDefinedAt` and `action()` |
| tier_search.dfy | `TierSearch` | `searchMatchedRuleAgainst` and the scan over tiers |
| default_router.dfy | `DefaultRouter` | `DefaultShardInternalRouter.doRoute` |
| bounded_cache.dfy | `BoundedCache` | `LRUMap` as a map with a size bound |
| internal_router.dfy | `InternalRouter` | `ShardInternalRouter` with its cache |
| rule_records.dfy | `RuleRecords` | validation and classification of one configuration record |
| rule_loader.dfy | `RuleLoader` | `loadRulesAndEquipRouter` and the per-namespace tier container |
| router_factory.dfy | `RouterFactory` | `assembleRulesForRouter` and `afterPropertiesSet` of the factory bean |
| cache_aspect.dfy | `CacheAspect` | `RoutingResultCacheAspect` |
| datasource_service.dfy | `DataSources` | `DefaultShardDataSourceService.afterPropertiesSet` |
| request_processor.dfy | `RequestProcessor` | `DefaultConcurrentRequestProcessor` |
| sorted_map.dfy | `SortedMaps` | the `TreeMap<String, _>` the template fills |
| session_template.dfy | `SessionTemplate` | `ShardSqlSessionTemplate` |
| dao_support.dfy | `DaoSupport` | `ShardSqlSessionDaoSupport` and Java `int` wrap-around |

Modelling choices:

- Java `null` is `None` wherever the code tests for it.
- A thrown exception is a `Failure` or `Fail` value carrying the exception
  and the reason for it.
- Objects whose fields the code updates are classes, for example the
  routers, the factory bean, the aspect, the data source service, the
  processor and the template. Their methods state the whole new state.
- Pure searches and validations are functions. The loops are methods proved
  against those functions.
- Expression evaluation (MVEL in the original) is an opaque `Evaluator`
  parameter that either evaluates to a boolean or raises.
- Connections, sessions and statements are parameters. The thread pool is
  modelled as running the tasks one after another, in submission order.

Behaviour of the code that a reader might not expect, and that the model
keeps:

- **Acquisition failure.** When a connection cannot be acquired, `process`
  gives back none of the connections acquired before it, because the
  acquisition happens before the `try` whose `finally` releases them
  (`DefaultConcurrentRequestProcessor.java:45`, `:121-125`; see Findings).
- **Task failures.** `fillResultListWithFutureResults` raises only the
  first failing future, in submission order, wrapped as a concurrency
  failure; the other failures are dropped
  (`DefaultConcurrentRequestProcessor.java:102-112`).
- **Ordering.** A router computes the identities in `action()` order
  (`ShardInternalRouter.java:106`). The template sorts the list it gets back
  in place and then puts the identities into a `TreeMap`
  (`ShardSqlSessionTemplate.java:148-156`). A caching router
  (`ShardInternalRouter.java:111-115`) and the caching aspect keep that same
  `RoutingResult`, so once the template has sorted it, a later cache hit
  returns the identities sorted. The model returns `action()` order on every
  hit; see "Left out".
- **Null facts.** `ShardInternalRouter.doRoute` does not validate the fact.
  A `null` fact raises only once some rule is consulted
  (`ShardInternalRouter.java:120-131`).
- **Batch failures.** The swallow-then-rethrow-last loop is the partitioned
  branch of the batch methods (`ShardSqlSessionDaoSupport.java:26-39`).
- **Duplicate identities.** Nothing checks that descriptor identities are
  unique. The registry's `put` lets a later descriptor with the same
  identity replace an earlier one (`DefaultShardDataSourceService.java:73`,
  `LastDescriptorWins`).
- **Pool size.** With a pool size below 1 the core size is below 1 as well,
  so constructing the work queue (`new LinkedBlockingQueue(coreSize)`,
  `ShardSqlSessionTemplate.java:343`) throws IllegalArgumentException. The
  model refuses it with `IllegalArgument(InvalidPoolSize)`.
- **Failed calls in the aspect.** The aspect caches `null` for a call that
  failed (`RoutingResultCacheAspect.java:53-60`; see Findings). A template
  routed through it then dereferences that `null` result
  (`ShardSqlSessionTemplate.java:151`) and raises NullPointerException.
- **Post-processors.** `DefaultShardDataSourceService` keeps a list of
  data-source post-processors (`DefaultShardDataSourceService.java:42`)
  but has setters only for the descriptors and the HA creator (`:77-91`).
  So the list is always empty in the code as it stands, and the processor
  chain (`ApplyPostProcessors`, `PostProcessorChain`) is not reachable
  from outside the class. The model keeps the list as a field so the chain
  can be stated.
- **Executor setup.** `setupDefaultExecutorServicesIfNecessary`
  (`ShardSqlSessionTemplate.java:188`) is private and nothing in the class
  calls it. So the template, as written, never creates or registers an
  executor, and `destroy` always finds an empty registry. The model of
  setup, and lemmas such as `SetupRegistersWhatItCreates`, describe what
  the method would do if it were called.

## Model

| member | source | states |
|---|---|---|
| Rules.NewPlainRule | src/test/java/com/gimc/mybatis/db/shard/router/rules/MyBatisNamespaceRuleTest.java:56-83 | a plain rule is built iff the pattern and the shard list are both non-null and non-empty, otherwise IllegalArgument; the rule keeps both fields and the default `,` separator |
| Rules.NewShardingRule | src/test/java/com/gimc/mybatis/db/shard/router/rules/MyBatisSqlActionShardingRuleTest.java:49-91 | a sharding rule is built iff pattern, shards and expression are all non-empty, otherwise IllegalArgument; no functions are attached |
| Rules.SetActionPatternSeparator | src/test/java/com/gimc/mybatis/db/shard/router/rules/MyBatisSqlActionRuleTest.java:80-86 | a null separator is refused with IllegalArgument; otherwise only the separator changes |
| Rules.Action | src/test/java/com/gimc/mybatis/db/shard/router/rules/MyBatisSqlActionRuleTest.java:37-45 | every shard identity is trimmed and holds no separator character |
| Rules.IsDefinedAt | src/main/java/com/gimc/mybatis/db/shard/router/rules/mybatis/MyBatisSqlActionRule.java:32-35 | fails with IllegalArgument iff the fact is null; true only when the pattern matches the fact's statement |
| Rules.SqlActionRuleMatchesExactly | src/main/java/com/gimc/mybatis/db/shard/router/rules/mybatis/MyBatisSqlActionRule.java:34 | a statement-id rule matches a fact iff the fact's statement id equals the pattern |
| Rules.NamespaceRuleMatches | src/test/java/com/gimc/mybatis/db/shard/router/rules/MyBatisNamespaceRuleTest.java:20-32 | a namespace rule matches iff the statement is the pattern followed by a dot and a dot-free name, or is the dot-free pattern itself |
| Rules.ShardingRuleRefinesPlainRule | src/test/java/com/gimc/mybatis/db/shard/router/rules/MyBatisSqlActionShardingRuleTest.java:93-119 | a sharding rule matches iff its plain counterpart matches and the expression evaluates to true |
| Rules.RaisingExpressionNeverMatches | src/test/java/com/gimc/mybatis/db/shard/router/rules/MyBatisNamespaceShardingRuleTest.java:134-155 | an expression that raises (for example over a null payload) makes `isDefinedAt` false, never an exception |
| Rules.MatchImpliesGroup | src/main/java/com/gimc/mybatis/db/shard/router/config/support/InternalRuleLoader4DefaultInternalRouter.java:57-73 | a rule only ever matches statements of the namespace it is filed under |
| Rules.ActionOfJoinedList | src/test/java/com/gimc/mybatis/db/shard/router/rules/MyBatisSqlActionRuleTest.java:68-77 | a shard list written as trimmed ids joined by the separator and blanks yields exactly those ids |
| Rules.ActionWithoutSeparator | src/test/java/com/gimc/mybatis/db/shard/router/rules/MyBatisSqlActionRuleTest.java:61-66 | a trimmed shard list without the separator yields one identity, the whole list |
| Rules.SqlActionRuleExamples | src/test/java/com/gimc/mybatis/db/shard/router/rules/MyBatisSqlActionRuleTest.java:88-109 | the rule for `...Tweet.delete` matches it, not `...Tweet.del`, not the bare namespace, not a null statement; a null fact raises |
| Rules.NamespaceRuleMatchesStatements | src/test/java/com/gimc/mybatis/db/shard/router/rules/MyBatisNamespaceRuleTest.java:26-27 | a namespace rule matches a statement of its namespace |
| Rules.NamespaceRuleRejectsOtherNamespace | src/test/java/com/gimc/mybatis/db/shard/router/rules/MyBatisNamespaceRuleTest.java:30-31 | a namespace rule does not match a statement of a misspelt namespace |
| Rules.SeparatedShards | src/test/java/com/gimc/mybatis/db/shard/router/rules/MyBatisSqlActionRuleTest.java:68-77 | `shard1<sep> shard2<sep> shard3` with `,` or `;` as separator gives the three ids |
| Rules.CommaSeparatedShards | src/test/java/com/gimc/mybatis/db/shard/router/rules/MyBatisSqlActionRuleTest.java:29-45 | the default separator splits `"shard1, shard2, shard3"` into three trimmed ids |
| Rules.ForeignSeparatorGivesOneShard | src/test/java/com/gimc/mybatis/db/shard/router/rules/MyBatisSqlActionRuleTest.java:61-66 | with separator `;` a comma list is one identity |
| Rules.SemicolonSeparatedShards | src/test/java/com/gimc/mybatis/db/shard/router/rules/MyBatisSqlActionRuleTest.java:68-77 | with separator `;` a semicolon list gives three trimmed ids |
| StringUtils.Trim | src/main/java/com/gimc/mybatis/db/shard/router/config/support/InternalRuleLoader4DefaultInternalRouter.java:43-46 | the result has no blank at either end and is no longer than the input; an input with no blank at either end is returned unchanged |
| StringUtils.TrimStripsBlankEnds | src/main/java/com/gimc/mybatis/db/shard/router/config/support/InternalRuleLoader4DefaultInternalRouter.java:43-46 | `trim` cuts a blank prefix and a blank suffix off the input; with `Trim`'s own contract (no blank at either end, the input itself when already trimmed) the result is the input minus all its leading and trailing blanks |
| StringUtils.TrimToEmpty | src/main/java/com/gimc/mybatis/db/shard/router/config/support/InternalRuleLoader4DefaultInternalRouter.java:43-46 | null becomes the empty string; the result is trimmed |
| StringUtils.LastIndexOfIsLast | src/main/java/com/gimc/mybatis/db/shard/router/DefaultShardInternalRouter.java:54 | none iff the character is absent; otherwise the found position holds it and no later one does |
| StringUtils.SubstringBeforeLastSplits | src/main/java/com/gimc/mybatis/db/shard/router/DefaultShardInternalRouter.java:54 | the namespace is a prefix: the whole statement when it has no dot, otherwise the part before the last dot |
| StringUtils.SubstringBeforeLastOfQualified | src/main/java/com/gimc/mybatis/db/shard/router/DefaultShardInternalRouter.java:54 | the namespace of `ns.name` is `ns` when `name` has no dot |
| StringUtils.Split | src/test/java/com/gimc/mybatis/db/shard/router/rules/MyBatisSqlActionRuleTest.java:37-45 | every token is non-empty and free of separators |
| StringUtils.SplitJoin | src/test/java/com/gimc/mybatis/db/shard/router/rules/MyBatisSqlActionRuleTest.java:61-77 | splitting then trimming a blank-padded join of trimmed ids gives back the ids (the round trip) |
| TierSearch.SearchMatchedRuleAgainst | src/main/java/com/gimc/mybatis/db/shard/router/DefaultShardInternalRouter.java:80-91 | raises only for a null fact against a non-empty tier; a found rule is the first applicable one; none iff no rule applies |
| TierSearch.ScanTiers | src/main/java/com/gimc/mybatis/db/shard/router/DefaultShardInternalRouter.java:62-67 | never fails for a non-null fact; finds nothing iff no tier has a matching rule |
| TierSearch.ScanPicksFirstMatchingTier | src/main/java/com/gimc/mybatis/db/shard/router/DefaultShardInternalRouter.java:62-67 | a found rule comes from the first tier with a match, searched on its own |
| TierSearch.LaterTiersIgnored | src/main/java/com/gimc/mybatis/db/shard/router/DefaultShardInternalRouter.java:62-67 | once a tier matches, tiers added after it change nothing |
| TierSearch.EarlierTierWins | src/main/java/com/gimc/mybatis/db/shard/router/ShardInternalRouter.java:95-102 | with two tiers, a match in the first decides |
| TierSearch.FallBackToLaterTier | src/main/java/com/gimc/mybatis/db/shard/router/ShardInternalRouter.java:95-102 | with two tiers, no match in the first hands the decision to the second |
| TierSearch.FirstMatchFound | src/main/java/com/gimc/mybatis/db/shard/router/ShardInternalRouter.java:120-131 | the search returns the first rule of the tier that applies |
| TierSearch.ScanFindsFirstMatchingTier | src/main/java/com/gimc/mybatis/db/shard/router/ShardInternalRouter.java:94-102 | the scan returns the first match of the first matching tier |
| DefaultRouter.DefaultShardInternalRouter.constructor | src/main/java/com/gimc/mybatis/db/shard/router/DefaultShardInternalRouter.java:48 | a new router has no namespace groups |
| DefaultRouter.DoRoute | src/main/java/com/gimc/mybatis/db/shard/router/DefaultShardInternalRouter.java:50-78 | IllegalArgument iff the fact is null or its statement empty; non-empty shards come from a matching rule in the statement's namespace group |
| DefaultRouter.OtherGroupsIrrelevant | src/main/java/com/gimc/mybatis/db/shard/router/DefaultShardInternalRouter.java:55 | replacing another namespace's group does not change the result |
| DefaultRouter.UnknownNamespaceRoutesNowhere | src/main/java/com/gimc/mybatis/db/shard/router/DefaultShardInternalRouter.java:55-60 | no group for the namespace gives no shards |
| DefaultRouter.FirstMatchingTierDecides | src/main/java/com/gimc/mybatis/db/shard/router/DefaultShardInternalRouter.java:62-74 | the result is `action()` of the first match in the first matching tier of the group |
| DefaultRouter.NoMatchRoutesNowhere | src/main/java/com/gimc/mybatis/db/shard/router/DefaultShardInternalRouter.java:69-74 | no matching rule in the group gives no shards |
| DefaultRouter.GroupingLosesNoMatch | src/main/java/com/gimc/mybatis/db/shard/router/DefaultShardInternalRouter.java:54-55 | in a well-grouped map every matching rule sits in the statement's own group |
| InternalRouter.Route | src/main/java/com/gimc/mybatis/db/shard/router/ShardInternalRouter.java:91-109 | a non-null fact never fails; no match anywhere gives no shards; failures are IllegalArgument |
| InternalRouter.ShardInternalRouter.constructor | src/main/java/com/gimc/mybatis/db/shard/router/ShardInternalRouter.java:71-76 | keeps the flag; a cache of the given capacity exists when caching is on; no rules yet |
| InternalRouter.ShardInternalRouter.WithCacheFlag | src/main/java/com/gimc/mybatis/db/shard/router/ShardInternalRouter.java:63-65 | the flag is kept and the capacity is 10000 |
| InternalRouter.ShardInternalRouter.WithCacheSize | src/main/java/com/gimc/mybatis/db/shard/router/ShardInternalRouter.java:67-69 | caching is on with the given capacity |
| InternalRouter.ShardInternalRouter.DoRoute | src/main/java/com/gimc/mybatis/db/shard/router/ShardInternalRouter.java:80-118 | a hit iff caching is on and the fact is cached, and then the cached value is returned untouched; otherwise the scan's result, stored in the cache on success; no other entry changes its value, at most one other entry is evicted and none while the cache has room; a coherent cache stays coherent and the result equals the uncached route |
| InternalRouter.ShardInternalRouter.ClearLocalCache | src/main/java/com/gimc/mybatis/db/shard/router/ShardInternalRouter.java:137-139 | NullPointer iff caching is off; otherwise the cache is emptied with its capacity kept |
| InternalRouter.NullFactRaisesIffAnyRule | src/main/java/com/gimc/mybatis/db/shard/router/ShardInternalRouter.java:120-131 | a null fact raises iff some tier holds a rule |
| InternalRouter.FirstMatchingTierDecides | src/main/java/com/gimc/mybatis/db/shard/router/ShardInternalRouter.java:95-106 | the result is `action()` of the first match of the first matching tier, with no namespace filtering |
| BoundedCache.NewBoundedMap | src/main/java/com/gimc/mybatis/db/shard/router/ShardInternalRouter.java:74 | a new cache is empty and within its bound |
| BoundedCache.Put | src/main/java/com/gimc/mybatis/db/shard/router/ShardInternalRouter.java:111-115 | stays within its bound; the key maps to the value when the capacity is positive; other entries are kept or at most one is evicted |
| BoundedCache.Clear | src/main/java/com/gimc/mybatis/db/shard/router/ShardInternalRouter.java:137-139 | empty, same capacity |
| CacheAspect.RoutingResultCacheAspect.constructor | src/main/java/com/gimc/mybatis/db/shard/router/aspects/RoutingResultCacheAspect.java:39 | the cache starts empty with capacity 1000 |
| CacheAspect.RoutingResultCacheAspect.Invoke | src/main/java/com/gimc/mybatis/db/shard/router/aspects/RoutingResultCacheAspect.java:41-63 | wrong argument count is refused with the cache untouched; a hit returns the cached value without proceeding; a miss proceeds and caches the result, or null when the call failed, which breaks transparency; no other entry changes its value, at most one is evicted and none while there is room |
| CacheAspect.RoutingResultCacheAspect.InvokeCachingOnlyResults | src/main/java/com/gimc/mybatis/db/shard/router/aspects/RoutingResultCacheAspect.java:53-63 | as `invoke`: a hit returns the cached value without proceeding, a successful call is stored and returned, other entries keep their values with at most one evicted; but a failed call leaves the cache unchanged, so a transparent cache stays transparent and every call returns what the target returns |
| CacheAspect.RoutingResultCacheAspect.SetInternalCache | src/main/java/com/gimc/mybatis/db/shard/router/aspects/RoutingResultCacheAspect.java:65-70 | a null cache is refused and the old one kept; otherwise the cache is replaced |
| RuleRecords.AttachedFunctions | src/main/java/com/gimc/mybatis/db/shard/router/config/support/InternalRuleLoader4DefaultInternalRouter.java:65-67 | the functions map is attached only when it is non-empty |
| RuleRecords.Classify | src/main/java/com/gimc/mybatis/db/shard/router/config/support/InternalRuleLoader4DefaultInternalRouter.java:43-84 | refused iff the trimmed shards are empty or not exactly one of namespace and statement id is given; otherwise the rule kind follows the given field and the presence of an expression, with all fields trimmed |
| RuleRecords.ClassifiedRuleIsWellFormed | src/main/java/com/gimc/mybatis/db/shard/router/config/support/InternalRuleLoader4DefaultInternalRouter.java:57-84 | a classified rule is one the rule constructors accept, filed under the record's key |
| RuleRecords.ClassifiedRuleKey | src/main/java/com/gimc/mybatis/db/shard/router/config/support/InternalRuleLoader4DefaultInternalRouter.java:72-73 | a statement-id rule is filed under the text before the statement's last dot |
| RuleRecords.TierOfRecord | src/main/java/com/gimc/mybatis/db/shard/router/config/support/InternalRuleLoader4DefaultInternalRouter.java:57-84 | tier 0 or 1 for statement ids, 2 or 3 for namespaces, the lower one when there is an expression |
| RuleLoader.Container | src/main/java/com/gimc/mybatis/db/shard/router/config/support/InternalRuleLoader4DefaultInternalRouter.java:88-104 | an existing non-empty container is reused; otherwise four empty tiers |
| RuleLoader.FileRule | src/main/java/com/gimc/mybatis/db/shard/router/config/support/InternalRuleLoader4DefaultInternalRouter.java:58-83 | the rule is appended to its tier of its namespace's container; other namespaces and tiers are unchanged; a container too short fails with IndexOutOfBounds |
| RuleLoader.Step | src/main/java/com/gimc/mybatis/db/shard/router/config/support/InternalRuleLoader4DefaultInternalRouter.java:42-85 | a refused record stops the load with its error and the map unchanged; otherwise the rule is filed |
| RuleLoader.LoadRulesAndEquipRouter | src/main/java/com/gimc/mybatis/db/shard/router/config/support/InternalRuleLoader4DefaultInternalRouter.java:37-86 | a null list changes nothing; otherwise the outcome and the router's map are those of filing the records in order |
| RuleLoader.FailureSticks | src/main/java/com/gimc/mybatis/db/shard/router/config/support/InternalRuleLoader4DefaultInternalRouter.java:42-85 | once a record fails, later records change nothing |
| RuleLoader.LoadStopsAtFirstBadRecord | src/main/java/com/gimc/mybatis/db/shard/router/config/support/InternalRuleLoader4DefaultInternalRouter.java:42-85 | a bad record fails the load and the records before it stay installed (no rollback) |
| RuleLoader.FileRuleKeepsWellGrouped | src/main/java/com/gimc/mybatis/db/shard/router/config/support/InternalRuleLoader4DefaultInternalRouter.java:88-104 | filing into a well-grouped map succeeds and keeps every rule in its own tier and namespace |
| RuleLoader.FilingKeepsWellGrouped | src/main/java/com/gimc/mybatis/db/shard/router/config/support/InternalRuleLoader4DefaultInternalRouter.java:42-85 | a load keeps the map well grouped and can fail only with IllegalArgument |
| RuleLoader.ClassifyAllRefusesIllegalArguments | src/main/java/com/gimc/mybatis/db/shard/router/config/support/InternalRuleLoader4DefaultInternalRouter.java:48-55 | every refused record is refused with IllegalArgument |
| RuleLoader.LoadKeepsWellGrouped | src/main/java/com/gimc/mybatis/db/shard/router/config/support/InternalRuleLoader4DefaultInternalRouter.java:42-85 | loading records keeps the map well grouped; failures are IllegalArgument |
| RuleLoader.FilingLeavesOtherGroups | src/main/java/com/gimc/mybatis/db/shard/router/config/support/InternalRuleLoader4DefaultInternalRouter.java:88-104 | a group no rule is filed under stays as it was |
| RuleLoader.LoadLeavesOtherNamespaces | src/main/java/com/gimc/mybatis/db/shard/router/config/support/InternalRuleLoader4DefaultInternalRouter.java:88-104 | a namespace no record names keeps its entry |
| RuleLoader.FileRuleKeepsRules | src/main/java/com/gimc/mybatis/db/shard/router/config/support/InternalRuleLoader4DefaultInternalRouter.java:58-83 | filing a rule removes no rule already filed |
| RuleLoader.FiledRuleIsInGroup | src/main/java/com/gimc/mybatis/db/shard/router/config/support/InternalRuleLoader4DefaultInternalRouter.java:58-83 | the filed rule is in its namespace's group |
| RuleLoader.LoadKeepsFiled | src/main/java/com/gimc/mybatis/db/shard/router/config/support/InternalRuleLoader4DefaultInternalRouter.java:42-85 | a rule filed by an earlier record is still there at the end |
| RuleLoader.ClassifiedRulesAreFiled | src/main/java/com/gimc/mybatis/db/shard/router/config/support/InternalRuleLoader4DefaultInternalRouter.java:42-85 | after a successful load every classified rule is in its group |
| RuleLoader.LoadedRulesAreFiled | src/main/java/com/gimc/mybatis/db/shard/router/config/support/InternalRuleLoader4DefaultInternalRouter.java:42-85 | after a successful load every record was accepted and its rule is filed under the record's key |
| RouterFactory.AssembleOne | src/main/java/com/gimc/mybatis/db/shard/router/config/ShardInteralRouterXmlFactoryBean.java:55-91 | a refused record fails with its error and the sets unchanged; otherwise the rule is added to exactly the set of its kind |
| RouterFactory.TierSets.constructor | src/main/java/com/gimc/mybatis/db/shard/router/config/AbstractShardInternalRouterConfigurationFactoryBean.java:65-68 | four empty sets |
| RouterFactory.AssembleGoodRecord | src/main/java/com/gimc/mybatis/db/shard/router/config/ShardInteralRouterXmlFactoryBean.java:70-91 | an accepted record adds its rule to its own set only |
| RouterFactory.AssembleBadRecord | src/main/java/com/gimc/mybatis/db/shard/router/config/ShardInteralRouterXmlFactoryBean.java:55-68 | a refused record ends the assembly with its error; the sets keep what came before |
| RouterFactory.AssembleRulesForRouter | src/main/java/com/gimc/mybatis/db/shard/router/config/ShardInteralRouterXmlFactoryBean.java:51-92 | the outcome and the four sets are those of assembling the records in order; an empty list changes nothing |
| RouterFactory.AssembleConcat | src/main/java/com/gimc/mybatis/db/shard/router/config/AbstractShardInternalRouterConfigurationFactoryBean.java:70-78 | assembling two lists is assembling the first, then the second into its sets |
| RouterFactory.AssemblyFailureSticks | src/main/java/com/gimc/mybatis/db/shard/router/config/ShardInteralRouterXmlFactoryBean.java:55-92 | after a failure, further records change nothing |
| RouterFactory.AssemblyKeepsTiersByKind | src/main/java/com/gimc/mybatis/db/shard/router/config/ShardInteralRouterXmlFactoryBean.java:70-91 | each set holds only rules of its own kind; failures are IllegalArgument |
| RouterFactory.ResourceBoundariesInvisible | src/main/java/com/gimc/mybatis/db/shard/router/config/AbstractShardInternalRouterConfigurationFactoryBean.java:70-78 | reading resource after resource is reading all their records as one list |
| RouterFactory.ResourcesConcat | src/main/java/com/gimc/mybatis/db/shard/router/config/AbstractShardInternalRouterConfigurationFactoryBean.java:70-78 | reading two lists of resources is reading the first, then the second |
| RouterFactory.ResourceFailureSticks | src/main/java/com/gimc/mybatis/db/shard/router/config/AbstractShardInternalRouterConfigurationFactoryBean.java:74-78 | a failing resource ends the reading |
| RouterFactory.ReadResources | src/main/java/com/gimc/mybatis/db/shard/router/config/AbstractShardInternalRouterConfigurationFactoryBean.java:74-78 | the sets and outcome are those of reading the resources in order |
| RouterFactory.BuiltTiersByKind | src/main/java/com/gimc/mybatis/db/shard/router/config/ShardInteralRouterXmlFactoryBean.java:70-91 | the built tiers each hold only their own kind; failures are IllegalArgument |
| RouterFactory.ShardInternalRouterFactoryBean.constructor | src/main/java/com/gimc/mybatis/db/shard/router/config/AbstractShardInternalRouterConfigurationFactoryBean.java:34-42 | no router, caching off, size 0, no locations, empty functions map |
| RouterFactory.ShardInternalRouterFactoryBean.SetFunctionsMap | src/main/java/com/gimc/mybatis/db/shard/router/config/AbstractShardInternalRouterConfigurationFactoryBean.java:141-146 | a null map keeps the existing one; nothing else changes |
| RouterFactory.ShardInternalRouterFactoryBean.ReadLocations | src/main/java/com/gimc/mybatis/db/shard/router/config/AbstractShardInternalRouterConfigurationFactoryBean.java:70-78 | the single location first, then the array in order, into the same sets |
| RouterFactory.ShardInternalRouterFactoryBean.AfterPropertiesSet | src/main/java/com/gimc/mybatis/db/shard/router/config/AbstractShardInternalRouterConfigurationFactoryBean.java:57-92 | a non-positive size becomes 10000 when caching is on; a fresh router gets the final cache settings and, on success, the tiers in the order sharding statement, statement, sharding namespace, namespace |
| DataSources.ValidateDescriptor | src/main/java/com/gimc/mybatis/db/shard/datasources/DefaultShardDataSourceService.java:59-60 | accepted iff the identity is non-empty and the target is given; otherwise IllegalArgument |
| DataSources.ApplyPostProcessors | src/main/java/com/gimc/mybatis/db/shard/datasources/DefaultShardDataSourceService.java:66-70 | no processors keep the data source; otherwise the last processor wraps it last |
| DataSources.RegistrationFailureSticks | src/main/java/com/gimc/mybatis/db/shard/datasources/DefaultShardDataSourceService.java:58-74 | after a refused descriptor, later ones change nothing |
| DataSources.DefaultShardDataSourceService.constructor | src/main/java/com/gimc/mybatis/db/shard/datasources/DefaultShardDataSourceService.java:41-44 | empty descriptors, processors and registry; no creator |
| DataSources.DefaultShardDataSourceService.AfterPropertiesSet | src/main/java/com/gimc/mybatis/db/shard/datasources/DefaultShardDataSourceService.java:50-75 | the creator defaults to the non-HA creator; outcome and registry are those of registering the descriptors in order |
| DataSources.RegisteredKeys | src/main/java/com/gimc/mybatis/db/shard/datasources/DefaultShardDataSourceService.java:58-74 | after success the keys are the old keys plus every descriptor identity |
| DataSources.LastDescriptorWins | src/main/java/com/gimc/mybatis/db/shard/datasources/DefaultShardDataSourceService.java:73 | the last descriptor with an identity decides its lazily wrapped data source |
| DataSources.PostProcessorsOnlyForStandby | src/main/java/com/gimc/mybatis/db/shard/datasources/DefaultShardDataSourceService.java:62-71 | without a standby the target is used as is; with one, the processors are applied |
| DataSources.PostProcessorChain | src/main/java/com/gimc/mybatis/db/shard/datasources/DefaultShardDataSourceService.java:66-70 | each processor is applied once |
| RequestProcessor.FirstRefused | src/main/java/com/gimc/mybatis/db/shard/support/execution/DefaultConcurrentRequestProcessor.java:114-135 | every earlier request connected and the found one was refused |
| RequestProcessor.TaskResult | src/main/java/com/gimc/mybatis/db/shard/support/execution/DefaultConcurrentRequestProcessor.java:91-100 | no session factory is a NullPointer; an SQL error becomes a concurrency failure; other results pass through |
| RequestProcessor.Releases | src/main/java/com/gimc/mybatis/db/shard/support/execution/DefaultConcurrentRequestProcessor.java:70-85 | connection i is closed when transaction-aware, otherwise released, in request order |
| RequestProcessor.FillSpecMeaning | src/main/java/com/gimc/mybatis/db/shard/support/execution/DefaultConcurrentRequestProcessor.java:102-112 | success iff every task succeeded, with the results in submission order; otherwise the first failure in order, wrapped |
| RequestProcessor.DefaultConcurrentRequestProcessor.constructor | src/main/java/com/gimc/mybatis/db/shard/support/execution/DefaultConcurrentRequestProcessor.java:31-36 | keeps the given session factory |
| RequestProcessor.DefaultConcurrentRequestProcessor.SetSessionFactory | src/main/java/com/gimc/mybatis/db/shard/support/execution/DefaultConcurrentRequestProcessor.java:141-144 | a null factory is refused and the old one kept |
| RequestProcessor.DefaultConcurrentRequestProcessor.ExecuteWith | src/main/java/com/gimc/mybatis/db/shard/support/execution/DefaultConcurrentRequestProcessor.java:91-100 | the task's result, with its session opened and then closed |
| RequestProcessor.DefaultConcurrentRequestProcessor.FillResultListWithFutureResults | src/main/java/com/gimc/mybatis/db/shard/support/execution/DefaultConcurrentRequestProcessor.java:102-112 | the loop computes the fill specification |
| RequestProcessor.DefaultConcurrentRequestProcessor.FetchConnectionsAndDepositForLaterUse | src/main/java/com/gimc/mybatis/db/shard/support/execution/DefaultConcurrentRequestProcessor.java:114-135 | connections are taken in request order up to the first refusal, which is reported with its SQL code |
| RequestProcessor.DefaultConcurrentRequestProcessor.Dispatch | src/main/java/com/gimc/mybatis/db/shard/support/execution/DefaultConcurrentRequestProcessor.java:48-63 | one result per request, in order, each on its own connection |
| RequestProcessor.DefaultConcurrentRequestProcessor.ReleaseConnections | src/main/java/com/gimc/mybatis/db/shard/support/execution/DefaultConcurrentRequestProcessor.java:70-85 | gives back each connection in order |
| RequestProcessor.DefaultConcurrentRequestProcessor.Process | src/main/java/com/gimc/mybatis/db/shard/support/execution/DefaultConcurrentRequestProcessor.java:38-89 | an empty or null list acquires nothing; a refusal raises CannotGetJdbcConnection having only acquired; otherwise acquire all, run all, release all, then the filled result |
| RequestProcessor.DefaultConcurrentRequestProcessor.ProcessReleasingOnRefusal | src/main/java/com/gimc/mybatis/db/shard/support/execution/DefaultConcurrentRequestProcessor.java:38-89 | as `process`, but a refusal gives back every connection acquired before it |
| RequestProcessor.TasksOnlyTouchSessions | src/main/java/com/gimc/mybatis/db/shard/support/execution/DefaultConcurrentRequestProcessor.java:54-62 | tasks only open and close sessions of their own requests, each once |
| RequestProcessor.SessionsOpenedThenClosed | src/main/java/com/gimc/mybatis/db/shard/support/execution/DefaultConcurrentRequestProcessor.java:91-100 | every task opens its session and then closes it |
| RequestProcessor.NoFactoryNoSessions | src/main/java/com/gimc/mybatis/db/shard/support/execution/DefaultConcurrentRequestProcessor.java:91-92 | without a session factory no session is opened |
| RequestProcessor.AcquisitionsAndReleasesDistinct | src/main/java/com/gimc/mybatis/db/shard/support/execution/DefaultConcurrentRequestProcessor.java:70-85 | no connection is acquired or given back twice |
| RequestProcessor.EveryConnectionGivenBackOnce | src/main/java/com/gimc/mybatis/db/shard/support/execution/DefaultConcurrentRequestProcessor.java:45-86 | on the connected path every acquired connection is given back exactly once, after all tasks |
| RequestProcessor.RefusalLeaksEarlierConnections | src/main/java/com/gimc/mybatis/db/shard/support/execution/DefaultConcurrentRequestProcessor.java:121-125 | when a later request is refused, the first connection is acquired and never given back |
| RequestProcessor.RefusalGivesBackEveryConnection | src/main/java/com/gimc/mybatis/db/shard/support/execution/DefaultConcurrentRequestProcessor.java:121-125 | with the correction, every connection acquired before a refusal is given back once |
| SortedMaps.Put | src/main/java/com/gimc/mybatis/db/shard/ShardSqlSessionTemplate.java:148-156 | keeps the entries ascending; the key now maps to the value; every other entry is kept |
| SessionTemplate.RoutedMapHoldsEveryIdentity | src/main/java/com/gimc/mybatis/db/shard/ShardSqlSessionTemplate.java:153-156 | the map's keys are exactly the routed identities, ascending, each with the service's data source |
| SessionTemplate.CreateCustomExecutorService | src/main/java/com/gimc/mybatis/db/shard/ShardSqlSessionTemplate.java:331-345 | refused iff the pool size or processor count is below 1; core size is the smaller of the two, queue capacity the core size, maximum the pool size |
| SessionTemplate.ShardSqlSessionTemplate.constructor | src/main/java/com/gimc/mybatis/db/shard/ShardSqlSessionTemplate.java:73-102 | no router or service, the default name, an empty registry and executor map |
| SessionTemplate.ShardSqlSessionTemplate.IsPartitioningBehaviorEnabled | src/main/java/com/gimc/mybatis/db/shard/ShardSqlSessionTemplate.java:236-238 | partitioning is on iff a router and a data-source service are both set |
| SessionTemplate.ShardSqlSessionTemplate.LookupDataSourcesByRouter | src/main/java/com/gimc/mybatis/db/shard/ShardSqlSessionTemplate.java:147-160 | empty when partitioning is off; otherwise what routing the fact gives, built into the sorted map by the loop |
| SessionTemplate.RoutedDataSources | src/main/java/com/gimc/mybatis/db/shard/ShardSqlSessionTemplate.java:150-156 | the router's error propagates; a `null` routing result raises NullPointer; otherwise the keys are exactly the routed identities (none for a `null` list) |
| SessionTemplate.ShardSqlSessionTemplate.CreateExecutorForSpecificDataSource | src/main/java/com/gimc/mybatis/db/shard/ShardSqlSessionTemplate.java:202-223 | a created executor is appended to the registry; nothing else changes |
| SessionTemplate.ShardSqlSessionTemplate.AddDefaultSingleThreadExecutorIfNecessary | src/main/java/com/gimc/mybatis/db/shard/ShardSqlSessionTemplate.java:225-231 | an executor of pool size processors × 5 is registered under the default name |
| SessionTemplate.ShardSqlSessionTemplate.SetupDefaultExecutorServicesIfNecessary | src/main/java/com/gimc/mybatis/db/shard/ShardSqlSessionTemplate.java:188-199 | nothing when partitioning is off; otherwise per-descriptor executors when the map is empty, then the default executor |
| SessionTemplate.ShardSqlSessionTemplate.SetDataSourceSpecificExecutors | src/main/java/com/gimc/mybatis/db/shard/ShardSqlSessionTemplate.java:256-261 | a null or empty map is ignored, any other replaces the executor map; the registry, router, data-source service and default name keep their values |
| SessionTemplate.ShardSqlSessionTemplate.Destroy | src/main/java/com/gimc/mybatis/db/shard/ShardSqlSessionTemplate.java:162-180 | nothing when the registry is empty; otherwise every registered executor is shut down in order and the executor map cleared; the registry, router, data-source service and default name keep their values |
| SessionTemplate.PerDescriptorFailureSticks | src/main/java/com/gimc/mybatis/db/shard/ShardSqlSessionTemplate.java:192-195 | after a refused pool size, later descriptors change nothing |
| SessionTemplate.PerDescriptorExtends | src/main/java/com/gimc/mybatis/db/shard/ShardSqlSessionTemplate.java:192-195 | the registry only grows, and every new map entry is a newly registered executor |
| SessionTemplate.CreateForExtends | src/main/java/com/gimc/mybatis/db/shard/ShardSqlSessionTemplate.java:202-206 | creating one executor registers it before it is mapped |
| SessionTemplate.SetupRegistersWhatItCreates | src/main/java/com/gimc/mybatis/db/shard/ShardSqlSessionTemplate.java:188-199 | every executor setup maps is registered, so `destroy` shuts it down |
| SessionTemplate.ExistingExecutorsSuppressPerDescriptor | src/main/java/com/gimc/mybatis/db/shard/ShardSqlSessionTemplate.java:189-197 | with executors already given, only the default one is added, of core size processors and maximum processors × 5 |
| SessionTemplate.PerDescriptorCoversEveryDescriptor | src/main/java/com/gimc/mybatis/db/shard/ShardSqlSessionTemplate.java:192-195 | succeeds iff every pool size is positive, and then every descriptor has an executor |
| SessionTemplate.FreshSetupCoversEveryDataSource | src/main/java/com/gimc/mybatis/db/shard/ShardSqlSessionTemplate.java:188-199 | from an empty map, setup succeeds iff all pool sizes and the processor count are positive, and then every descriptor and the default name have an executor |
| DaoSupport.Wrap32 | src/main/java/com/gimc/mybatis/db/shard/ShardSqlSessionDaoSupport.java:59 | values in the Java `int` range are unchanged |
| DaoSupport.Wrap32Add | src/main/java/com/gimc/mybatis/db/shard/ShardSqlSessionDaoSupport.java:59 | wrapping after every addition is wrapping the total once |
| DaoSupport.FirstEscape | src/main/java/com/gimc/mybatis/db/shard/ShardSqlSessionDaoSupport.java:28-35 | the first outcome the loop does not catch |
| DaoSupport.LastFailure | src/main/java/com/gimc/mybatis/db/shard/ShardSqlSessionDaoSupport.java:32-34 | none iff every entity succeeded; otherwise a failure with only successes after it |
| DaoSupport.TallyAddsUp | src/main/java/com/gimc/mybatis/db/shard/ShardSqlSessionDaoSupport.java:26-39 | when nothing escapes, the counter is the wrapped sum of the successes and the remembered error is the last failure |
| DaoSupport.BatchResult | src/main/java/com/gimc/mybatis/db/shard/ShardSqlSessionDaoSupport.java:36-39 | the last failure is thrown if there was one, otherwise the wrapped count |
| DaoSupport.EscapeSticks | src/main/java/com/gimc/mybatis/db/shard/ShardSqlSessionDaoSupport.java:28-35 | an escaping error ends the loop |
| DaoSupport.FirstEscapeIsThrown | src/main/java/com/gimc/mybatis/db/shard/ShardSqlSessionDaoSupport.java:28-35 | an error that is not a data-access error propagates at once |
| DaoSupport.RunPartitioned | src/main/java/com/gimc/mybatis/db/shard/ShardSqlSessionDaoSupport.java:25-39 | null entities are a NullPointer, none give 0; otherwise the loop computes the batch specification and attempts every entity up to the first escaping error |
| DaoSupport.ShardSqlSessionDaoSupport.IsPartitionBehaviorEnabled | src/main/java/com/gimc/mybatis/db/shard/ShardSqlSessionDaoSupport.java:110-115 | partitioned iff the session is a sharding template whose router and data-source service are both set; any other session is never partitioned |
| DaoSupport.ShardSqlSessionDaoSupport.BatchInsert | src/main/java/com/gimc/mybatis/db/shard/ShardSqlSessionDaoSupport.java:24-51 | partitioned: counts the inserts that did not fail; otherwise the batch executor's result |
| DaoSupport.ShardSqlSessionDaoSupport.BatchDelete | src/main/java/com/gimc/mybatis/db/shard/ShardSqlSessionDaoSupport.java:53-79 | partitioned: sums the deleted rows of the successful calls |
| DaoSupport.ShardSqlSessionDaoSupport.BatchUpdate | src/main/java/com/gimc/mybatis/db/shard/ShardSqlSessionDaoSupport.java:81-108 | partitioned: sums the updated rows of the successful calls |

## Left out

- XML parsing with XStream (`ShardInteralRouterXmlFactoryBean.java:43-49`): a parsed resource is given as a list of records, or none.
- The Spring AOP wiring of the aspect and the factory beans: it is framework configuration.
- Threads, `CountDownLatch`, futures, the executors' own behaviour and JVM shutdown hooks: tasks run one after another in submission order, and an executor is an opaque token.
- Interrupted waits on the latch or a future are not modelled.
- JDBC connections, `DataSourceUtils`, MyBatis sessions and statements: they are opaque handles and parameters. Their effects are recorded as events.
- Release errors in `process` (`DefaultConcurrentRequestProcessor.java:82-84`) are swallowed in the code. The model records each release as an event that cannot fail.
- Sharding-expression evaluation (MVEL and its functions): an opaque `Evaluator` parameter.
- `AbstractIBatisOrientedRule` and the other three rule classes are not part of this model. Their constructors, `isDefinedAt` and `action()` are modelled as the tests fix them: `action()` is Apache `split` on the separator characters, then `trim` of every token.
- BoundedCache.Put: `LRUMap` eviction order is not modelled. When the map is full, some other entry is evicted.
- BoundedCache.NewBoundedMap: `LRUMap` is not part of this model, so its behaviour for a capacity below 1 is not known; the model accepts such a capacity, as a map that keeps nothing.
- SortedMaps.Below compares characters as Unicode scalar values; `String.compareTo` compares UTF-16 code units, and the two orders differ between supplementary characters and U+E000–U+FFFF.
- HA data source creation, the post-processors' internals and `LazyConnectionDataSourceProxy`: they are modelled as constructors of a `DataSource` value.
- A descriptor set's iteration order: descriptors are a sequence in the order given.
- Tier sets (`HashSet`) are sequences that rules are appended to, in record order. Duplicates are not removed.
- A `null` router passed to the rule loader, and a `null` entry in `configLocations`, are not modelled.
- Getters, `getObject`, `isSingleton` and logging: they only return or record fields.
- The functions map is attached by value: later changes to the caller's map are not seen by the rules.
- The sort in place done by `Collections.sort` (`ShardSqlSessionTemplate.java:152`) is not modelled. That sort reaches the list held by a caching router's local cache or by the caching aspect, because the cached `RoutingResult` is the one the template sorts. The model's cached results are values, so it does not capture that aliasing: after a template call, the code returns a cached hit sorted, and the model returns it in `action()` order.
- The non-partitioned batch branches (`ShardSqlSessionDaoSupport.java:41-49, 69-77, 97-106`) hand the batch to an iBatis `SqlMapClientCallback` outside this code. Their result is an `executeBatch` parameter.
- SessionTemplate.ShardSqlSessionTemplate.AddDefaultSingleThreadExecutorIfNecessary: `processors * 5` is not wrapped to 32 bits; the overflow needs more than 400 million processors.
- Executors the user supplies through `setDataSourceSpecificExecutors` are not added to the registry, as in the code. The model proves nothing about shutting them down.
- `ShardSqlSessionTemplate` defines no `insert`, `update`, `select` or merge bodies of its own; they are not modelled.
- `DroolsBasedShardRouter.doRoute` returns `null`; `ConcurrentSqlAuditor.audit` and the DSL and Xls factory beans' `assembleRulesForRouter` are empty stubs. The interfaces and test fixtures carry no behaviour either.

## Findings

| source | as written | input that shows it | evidently intended | confidence | as-written member | corrected member |
|---|---|---|---|---|---|---|
| src/main/java/com/gimc/mybatis/db/shard/router/aspects/RoutingResultCacheAspect.java:53-60 | the `finally` block puts the result under the key even when `proceed()` threw, so `null` is cached | one call whose target throws, then the same call again: the second returns `null` without calling the target | a failed call leaves the cache unchanged, so the next call retries | not executed | CacheAspect.RoutingResultCacheAspect.Invoke | CacheAspect.RoutingResultCacheAspect.InvokeCachingOnlyResults |
| src/main/java/com/gimc/mybatis/db/shard/support/execution/DefaultConcurrentRequestProcessor.java:121-125 | connections are acquired before the `try` whose `finally` releases them, so a refusal leaves earlier connections held | two requests: the first connects, the second is refused; the first connection is never given back | every connection acquired before the refusal is given back once | not executed | RequestProcessor.RefusalLeaksEarlierConnections | RequestProcessor.RefusalGivesBackEveryConnection |

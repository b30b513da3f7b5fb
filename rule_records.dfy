/** A configured rule record (`InternalRule`) and how both rule loaders
    turn one into a routing rule of exactly one of the four kinds. */
module RuleRecords {
  import opened Wrappers
  import opened StringUtils
  import opened Rules

  /** The four text fields of a rule record; any may be missing. */
  datatype InternalRule = InternalRule(
    namespace: Option<string>,
    sqlmap: Option<string>,
    shardingExpression: Option<string>,
    shards: Option<string>)

  /** The functions a sharding rule gets: the configured map when it is
      non-empty, otherwise the rule keeps its own empty map. */
  function AttachedFunctions(functionsMap: Option<FunctionMap>): (fs: FunctionMap)
    ensures fs == map[] || Some(fs) == functionsMap
    ensures functionsMap.Some? && functionsMap.value != map[] ==> fs == functionsMap.value
  {
    if functionsMap.Some? && functionsMap.value != map[] then functionsMap.value else map[]
  }

  /** Why a record is refused, in the order the checks are made. */
  function RecordProblem(rec: InternalRule): Option<Reason> {
    var namespace := TrimToEmpty(rec.namespace);
    var sqlAction := TrimToEmpty(rec.sqlmap);
    if TrimToEmpty(rec.shards) == "" then Some(NoDestinationShards)
    else if namespace == "" && sqlAction == "" then Some(NeitherNamespaceNorSqlAction)
    else if namespace != "" && sqlAction != "" then Some(BothNamespaceAndSqlAction)
    else None
  }

  /** The classification in the loop body of both loaders: all four fields
      trimmed; shards required; exactly one of namespace and statement id;
      an expression makes it a sharding rule. */
  function Classify(rec: InternalRule, functionsMap: Option<FunctionMap>): (r: Result<Rule>)
    ensures r.Failure? <==> RecordProblem(rec).Some?
    ensures r.Failure? ==> r.error == IllegalArgument(RecordProblem(rec).value)
    ensures r.Success? ==> r.value.shards == TrimToEmpty(rec.shards) && r.value.separator == DefaultSeparator
    ensures r.Success? ==> (r.value.OnSqlAction() <==> TrimToEmpty(rec.sqlmap) != "")
    ensures r.Success? ==> (r.value.IsSharding() <==> TrimToEmpty(rec.shardingExpression) != "")
    ensures r.Success? ==> r.value.pattern == TrimToEmpty(if r.value.OnSqlAction() then rec.sqlmap else rec.namespace)
    ensures r.Success? && r.value.IsSharding() ==>
      r.value.expression == TrimToEmpty(rec.shardingExpression) && r.value.functions == AttachedFunctions(functionsMap)
  {
    var namespace := TrimToEmpty(rec.namespace);
    var sqlAction := TrimToEmpty(rec.sqlmap);
    var expression := TrimToEmpty(rec.shardingExpression);
    var destinations := TrimToEmpty(rec.shards);
    var problem := RecordProblem(rec);
    if problem.Some? then Failure(IllegalArgument(problem.value))
    else if namespace != "" then
      if expression == "" then Success(NamespaceRule(namespace, destinations, DefaultSeparator))
      else Success(NamespaceShardingRule(namespace, destinations, DefaultSeparator, expression, AttachedFunctions(functionsMap)))
    else
      if expression == "" then Success(SqlActionRule(sqlAction, destinations, DefaultSeparator))
      else Success(SqlActionShardingRule(sqlAction, destinations, DefaultSeparator, expression, AttachedFunctions(functionsMap)))
  }

  /** The namespace a valid record is filed under. */
  function RecordKey(rec: InternalRule): string {
    var namespace := TrimToEmpty(rec.namespace);
    if namespace != "" then namespace else NamespaceOf(TrimToEmpty(rec.sqlmap))
  }

  /** A classified record is filed under its own key, and the rule is one
      the rule constructors accept with the same fields, so building it
      cannot fail. */
  lemma ClassifiedRuleIsWellFormed(rec: InternalRule, functionsMap: Option<FunctionMap>)
    requires Classify(rec, functionsMap).Success?
    ensures var rule := Classify(rec, functionsMap).value;
      && rule.GroupKey() == RecordKey(rec)
      && (rule.IsSharding() ==>
            NewShardingRule(rule.OnSqlAction(), Some(rule.pattern), Some(rule.shards), Some(rule.expression))
              == Success(WithFunctions(rule, map[])))
      && (!rule.IsSharding() ==>
            NewPlainRule(rule.OnSqlAction(), Some(rule.pattern), Some(rule.shards)) == Success(rule))
  {
  }

  /** The group key part of `ClassifiedRuleIsWellFormed` on its own. */
  lemma ClassifiedRuleKey(rec: InternalRule, functionsMap: Option<FunctionMap>)
    requires Classify(rec, functionsMap).Success?
    ensures Classify(rec, functionsMap).value.GroupKey() == RecordKey(rec)
  {
  }

  /** The tier is fixed by the two choices: statement id or namespace,
      with or without an expression. */
  lemma TierOfRecord(rec: InternalRule, functionsMap: Option<FunctionMap>)
    requires Classify(rec, functionsMap).Success?
    ensures Classify(rec, functionsMap).value.Tier() ==
      (if TrimToEmpty(rec.sqlmap) != "" then 0 else 2) + (if TrimToEmpty(rec.shardingExpression) == "" then 1 else 0)
  {
  }
}

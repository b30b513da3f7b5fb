/** The four routing-rule kinds of the MyBatis sharding router and how a
    rule decides whether it applies to a statement (`isDefinedAt`) and
    which shards it names (`action()`). */
module Rules {
  import opened Wrappers
  import opened StringUtils

  /** The functions a sharding expression may call, by name; the function
      objects themselves are opaque handles. */
  type FunctionMap = map<string, nat>

  /** The parameter object of a statement: `null` or some object. */
  datatype Payload = NullPayload | Payload(handle: nat)

  /** `MyBatisRoutingFact`: the statement id ("action") and its parameter. */
  datatype Fact = Fact(action: Option<string>, payload: Payload)

  /** Evaluating a sharding expression gives a boolean or raises. */
  datatype EvalOutcome = Evaluated(value: bool) | Raised

  /** The expression engine: expression text, visible functions, root object. */
  type Evaluator = (string, FunctionMap, Payload) -> EvalOutcome

  /** The shard list separator a rule starts with. */
  const DefaultSeparator: string := ","

  /** Statement ids are "<namespace>.<statement>". */
  const Dot: char := '.'

  datatype Rule =
    | SqlActionShardingRule(pattern: string, shards: string, separator: string, expression: string, functions: FunctionMap)
    | SqlActionRule(pattern: string, shards: string, separator: string)
    | NamespaceShardingRule(pattern: string, shards: string, separator: string, expression: string, functions: FunctionMap)
    | NamespaceRule(pattern: string, shards: string, separator: string)
  {
    predicate IsSharding() {
      SqlActionShardingRule? || NamespaceShardingRule?
    }

    predicate OnSqlAction() {
      SqlActionShardingRule? || SqlActionRule?
    }

    /** Position of the rule's kind in the router's tier order. */
    function Tier(): nat {
      match this
      case SqlActionShardingRule(_, _, _, _, _) => 0
      case SqlActionRule(_, _, _) => 1
      case NamespaceShardingRule(_, _, _, _, _) => 2
      case NamespaceRule(_, _, _) => 3
    }

    /** The namespace the rule can only ever match statements of. */
    function GroupKey(): string {
      if OnSqlAction() then NamespaceOf(pattern) else pattern
    }
  }

  /** `StringUtils.substringBeforeLast(action, ".")`. */
  function NamespaceOf(action: string): string {
    SubstringBeforeLast(action, Dot)
  }

  predicate IsNonEmpty(s: Option<string>) {
    s.Some? && s.value != ""
  }

  /** `new MyBatisSqlActionRule(pattern, shards)` / `new MyBatisNamespaceRule(...)`:
      pattern and shard list must both be non-empty. */
  function NewPlainRule(onSqlAction: bool, pattern: Option<string>, shards: Option<string>): (r: Result<Rule>)
    ensures r.Success? <==> IsNonEmpty(pattern) && IsNonEmpty(shards)
    ensures r.Failure? ==> r.error == IllegalArgument(EmptyArgument)
    ensures r.Success? ==> !r.value.IsSharding() && r.value.OnSqlAction() == onSqlAction
    ensures r.Success? ==> r.value.pattern == pattern.value && r.value.shards == shards.value
    ensures r.Success? ==> r.value.separator == DefaultSeparator
  {
    if !IsNonEmpty(pattern) || !IsNonEmpty(shards) then Failure(IllegalArgument(EmptyArgument))
    else if onSqlAction then Success(SqlActionRule(pattern.value, shards.value, DefaultSeparator))
    else Success(NamespaceRule(pattern.value, shards.value, DefaultSeparator))
  }

  /** `new MyBatisSqlActionShardingRule(pattern, shards, expression)` /
      `new MyBatisNamespaceShardingRule(...)`: all three must be non-empty;
      the rule starts with no functions. */
  function NewShardingRule(onSqlAction: bool, pattern: Option<string>, shards: Option<string>, expression: Option<string>): (r: Result<Rule>)
    ensures r.Success? <==> IsNonEmpty(pattern) && IsNonEmpty(shards) && IsNonEmpty(expression)
    ensures r.Failure? ==> r.error == IllegalArgument(EmptyArgument)
    ensures r.Success? ==> r.value.IsSharding() && r.value.OnSqlAction() == onSqlAction
    ensures r.Success? ==> r.value.pattern == pattern.value && r.value.shards == shards.value
    ensures r.Success? ==> r.value.expression == expression.value && r.value.functions == map[]
    ensures r.Success? ==> r.value.separator == DefaultSeparator
  {
    if !IsNonEmpty(pattern) || !IsNonEmpty(shards) || !IsNonEmpty(expression) then
      Failure(IllegalArgument(EmptyArgument))
    else if onSqlAction then
      Success(SqlActionShardingRule(pattern.value, shards.value, DefaultSeparator, expression.value, map[]))
    else
      Success(NamespaceShardingRule(pattern.value, shards.value, DefaultSeparator, expression.value, map[]))
  }

  /** `setActionPatternSeparator`: `null` is refused. */
  function SetActionPatternSeparator(rule: Rule, separator: Option<string>): (r: Result<Rule>)
    ensures r.Failure? <==> separator.None?
    ensures r.Failure? ==> r.error == IllegalArgument(NullArgument)
    ensures r.Success? ==> r.value.separator == separator.value
    ensures r.Success? ==> r.value.(separator := rule.separator) == rule
  {
    if separator.None? then Failure(IllegalArgument(NullArgument))
    else Success(rule.(separator := separator.value))
  }

  /** `setFunctionMap` on a sharding rule. */
  function WithFunctions(rule: Rule, functions: FunctionMap): Rule
    requires rule.IsSharding()
  {
    rule.(functions := functions)
  }

  /** `action()`: the shard list split at any separator character, empty
      pieces dropped, every identity trimmed. */
  function Action(rule: Rule): (ids: seq<string>)
    ensures forall i :: 0 <= i < |ids| ==> Trimmed(ids[i])
    ensures forall i :: 0 <= i < |ids| ==> forall c :: c in ids[i] ==> c !in rule.separator
  {
    var tokens := Split(rule.shards, rule.separator);
    var ids := TrimAll(tokens);
    assert forall i :: 0 <= i < |ids| ==> forall c :: c in ids[i] ==> c in tokens[i];
    ids
  }

  /** Does the statement id fit the rule's pattern? Statement rules compare
      the whole id, namespace rules the text before its last dot. */
  predicate PatternMatches(rule: Rule, action: Option<string>) {
    if rule.OnSqlAction() then action == Some(rule.pattern)
    else action.Some? && NamespaceOf(action.value) == rule.pattern
  }

  /** `isDefinedAt`: a `null` fact is refused; a sharding rule also needs
      its expression to evaluate to true, and an expression that raises
      counts as false. */
  function IsDefinedAt(rule: Rule, fact: Option<Fact>, eval: Evaluator): (r: Result<bool>)
    ensures r.Failure? <==> fact.None?
    ensures r.Failure? ==> r.error == IllegalArgument(NullArgument)
    ensures r == Success(true) ==> PatternMatches(rule, fact.value.action)
  {
    if fact.None? then Failure(IllegalArgument(NullArgument))
    else if !PatternMatches(rule, fact.value.action) then Success(false)
    else if !rule.IsSharding() then Success(true)
    else Success(eval(rule.expression, rule.functions, fact.value.payload) == Evaluated(true))
  }

  predicate Matches(rule: Rule, fact: Fact, eval: Evaluator) {
    IsDefinedAt(rule, Some(fact), eval) == Success(true)
  }

  // ---------------------------------------------------------------------
  // What matching means

  /** A statement rule applies exactly to its own statement id. */
  lemma SqlActionRuleMatchesExactly(pattern: string, shards: string, sep: string, fact: Fact, eval: Evaluator)
    ensures Matches(SqlActionRule(pattern, shards, sep), fact, eval) <==> fact.action == Some(pattern)
  {
  }

  /** A namespace rule applies to "<pattern>.<name>" for every dot-free
      name, and to the dot-free id equal to the pattern itself, and to
      nothing else. */
  lemma NamespaceRuleMatches(pattern: string, shards: string, sep: string, fact: Fact, eval: Evaluator)
    ensures Matches(NamespaceRule(pattern, shards, sep), fact, eval) <==>
      fact.action.Some? &&
      ((Dot !in fact.action.value && fact.action.value == pattern) ||
       (exists name :: Dot !in name && fact.action.value == pattern + [Dot] + name))
  {
    var rule := NamespaceRule(pattern, shards, sep);
    if fact.action.Some? {
      var a := fact.action.value;
      SubstringBeforeLastSplits(a, Dot);
      if Dot in a {
        var ns := NamespaceOf(a);
        var name := a[|ns| + 1..];
        assert a == ns + [Dot] + name;
        if Matches(rule, fact, eval) {
          assert Dot !in name && a == pattern + [Dot] + name;
        }
        if exists name' :: Dot !in name' && a == pattern + [Dot] + name' {
          var name' :| Dot !in name' && a == pattern + [Dot] + name';
          SubstringBeforeLastOfQualified(pattern, Dot, name');
        }
      }
    }
  }

  /** A sharding rule applies exactly when its non-sharding counterpart
      applies and its expression evaluates to true. */
  lemma ShardingRuleRefinesPlainRule(rule: Rule, fact: Fact, eval: Evaluator)
    requires rule.IsSharding()
    ensures Matches(rule, fact, eval) <==>
      Matches(if rule.OnSqlAction() then SqlActionRule(rule.pattern, rule.shards, rule.separator)
              else NamespaceRule(rule.pattern, rule.shards, rule.separator), fact, eval) &&
      eval(rule.expression, rule.functions, fact.payload) == Evaluated(true)
  {
  }

  /** An expression that raises makes the rule not apply; it never makes
      `isDefinedAt` raise. */
  lemma RaisingExpressionNeverMatches(rule: Rule, fact: Fact, eval: Evaluator)
    requires rule.IsSharding()
    requires eval(rule.expression, rule.functions, fact.payload) == Raised
    ensures IsDefinedAt(rule, Some(fact), eval) == Success(false)
  {
  }

  /** Every rule only ever matches statements of its own group. */
  lemma MatchImpliesGroup(rule: Rule, fact: Fact, eval: Evaluator)
    requires Matches(rule, fact, eval)
    ensures fact.action.Some? && NamespaceOf(fact.action.value) == rule.GroupKey()
  {
  }

  // ---------------------------------------------------------------------
  // The shard list

  /** Writing shard identities with `sep` and blank padding and reading
      them back with `action()` gives the identities again. */
  lemma ActionOfJoinedList(rule: Rule, ids: seq<string>, sep: char, pad: string)
    requires rule.separator == [sep] && rule.shards == Join(ids, sep, pad)
    requires ids != [] && !IsBlank(sep) && AllBlank(pad)
    requires forall i :: 0 <= i < |ids| ==> ids[i] != [] && Trimmed(ids[i]) && sep !in ids[i]
    ensures Action(rule) == ids
  {
    SplitJoin(ids, sep, pad, "");
    assert "" + Join(ids, sep, pad) == Join(ids, sep, pad);
  }

  /** A shard list without any separator character is one identity. */
  lemma ActionWithoutSeparator(rule: Rule)
    requires rule.shards != [] && Trimmed(rule.shards) && NoSeparator(rule.shards, rule.separator)
    ensures Action(rule) == [rule.shards]
  {
    SplitWord(rule.shards, rule.separator);
  }

  // ---------------------------------------------------------------------
  // Cases from the rule tests

  const TweetNamespace: string := "com.alibaba.cobar.client.entity.Tweet"
  const TweetDelete: string := "com.alibaba.cobar.client.entity.Tweet.delete"

  lemma SqlActionRuleExamples(eval: Evaluator)
    ensures var rule := SqlActionRule(TweetDelete, "shard1, shard2, shard3", DefaultSeparator);
      && Matches(rule, Fact(Some(TweetDelete), NullPayload), eval)
      && !Matches(rule, Fact(Some("com.alibaba.cobar.client.entity.Tweet.del"), NullPayload), eval)
      && !Matches(rule, Fact(Some(TweetNamespace), NullPayload), eval)
      && !Matches(rule, Fact(None, NullPayload), eval)
      && IsDefinedAt(rule, None, eval).Failure?
  {
  }

  lemma NamespaceRuleMatchesStatements(eval: Evaluator)
    ensures Matches(NamespaceRule(TweetNamespace, "p1, p2", DefaultSeparator), Fact(Some(TweetNamespace + ".update"), NullPayload), eval)
  {
    SubstringBeforeLastOfQualified(TweetNamespace, Dot, "update");
    assert TweetNamespace + ".update" == TweetNamespace + [Dot] + "update";
  }

  lemma NamespaceRuleRejectsOtherNamespace(eval: Evaluator)
    ensures !Matches(NamespaceRule(TweetNamespace, "p1, p2", DefaultSeparator), Fact(Some("com.alibaba.cobar.client.entity.Twet.delete"), NullPayload), eval)
  {
    SubstringBeforeLastOfQualified("com.alibaba.cobar.client.entity.Twet", Dot, "delete");
    assert "com.alibaba.cobar.client.entity.Twet.delete" == "com.alibaba.cobar.client.entity.Twet" + [Dot] + "delete";
  }

  /** The three shard names of the rule tests, joined by `sep` and a blank. */
  lemma JoinedShards(sep: char)
    ensures Join(["shard1", "shard2", "shard3"], sep, " ") == "shard1" + [sep] + " shard2" + [sep] + " shard3"
  {
    var three := ["shard1", "shard2", "shard3"];
    var two := ["shard2", "shard3"];
    assert three[1..] == two && two[1..] == ["shard3"];
    assert Join(["shard3"], sep, " ") == "shard3";
    var tail := "shard2" + [sep] + " " + "shard3";
    assert Join(two, sep, " ") == tail;
    assert Join(three, sep, " ") == "shard1" + [sep] + " " + tail;
    assert "shard1" + [sep] + " " + tail == "shard1" + [sep] + " shard2" + [sep] + " shard3";
  }

  lemma ShardNameOk(name: string, sep: char)
    requires name in {"shard1", "shard2", "shard3"} && (sep == ',' || sep == ';')
    ensures name != [] && Trimmed(name) && sep !in name
  {
  }

  /** The shard list of the rule tests, with `sep` and a blank between
      names, reads back as the three names. */
  lemma SeparatedShards(sep: char)
    requires sep == ',' || sep == ';'
    ensures Action(SqlActionRule(TweetDelete, "shard1" + [sep] + " shard2" + [sep] + " shard3", [sep])) ==
      ["shard1", "shard2", "shard3"]
  {
    var three := ["shard1", "shard2", "shard3"];
    JoinedShards(sep);
    forall i | 0 <= i < 3 ensures three[i] != [] && Trimmed(three[i]) && sep !in three[i] {
      ShardNameOk(three[i], sep);
    }
    ActionOfJoinedList(SqlActionRule(TweetDelete, "shard1" + [sep] + " shard2" + [sep] + " shard3", [sep]), three, sep, " ");
  }

  lemma CommaSeparatedShards()
    ensures Action(SqlActionRule(TweetDelete, "shard1, shard2, shard3", ",")) == ["shard1", "shard2", "shard3"]
  {
    assert "shard1, shard2, shard3" == "shard1" + [','] + " shard2" + [','] + " shard3";
    SeparatedShards(',');
  }

  lemma ForeignSeparatorGivesOneShard()
    ensures Action(SqlActionRule(TweetDelete, "shard1, shard2, shard3", ";")) == ["shard1, shard2, shard3"]
  {
    ActionWithoutSeparator(SqlActionRule(TweetDelete, "shard1, shard2, shard3", ";"));
  }

  lemma SemicolonSeparatedShards()
    ensures Action(SqlActionRule(TweetDelete, "shard1; shard2; shard3", ";")) == ["shard1", "shard2", "shard3"]
  {
    assert "shard1; shard2; shard3" == "shard1" + [';'] + " shard2" + [';'] + " shard3";
    SeparatedShards(';');
  }
}

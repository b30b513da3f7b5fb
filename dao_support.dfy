/** `ShardSqlSessionDaoSupport`: batch insert, delete and update over a
    collection of entities. When the session is a sharding template with
    partitioning on, each entity is sent through the session on its own:
    a data-access failure is remembered and the loop goes on, any other
    error ends the call at once, and after the loop the last remembered
    failure is thrown or the counter returned. */
module DaoSupport {
  import opened Wrappers
  import opened Rules
  import opened SessionTemplate
  import opened Sequences

  /** Java `int`. */
  type Int32 = x: int | -0x8000_0000 <= x < 0x8000_0000

  /** Java `int` addition wraps around modulo 2^32. */
  function Wrap32(x: int): (r: Int32)
    ensures -0x8000_0000 <= x < 0x8000_0000 ==> r == x
  {
    (x + 0x8000_0000) % 0x1_0000_0000 - 0x8000_0000
  }

  /** Wrapping changes a value by a multiple of 2^32. */
  lemma Wrap32Congruent(x: int)
    ensures (Wrap32(x) - x) % 0x1_0000_0000 == 0
  {
  }

  lemma ModShift(x: int, k: int)
    ensures (x + k * 0x1_0000_0000) % 0x1_0000_0000 == x % 0x1_0000_0000
  {
  }

  /** Wrapping after every step is wrapping once at the end. */
  lemma Wrap32Add(a: int, b: int)
    ensures Wrap32(Wrap32(a) + b) == Wrap32(a + b)
  {
    Wrap32Congruent(a);
    var d := Wrap32(a) - a;
    var k := d / 0x1_0000_0000;
    assert d == k * 0x1_0000_0000;
    ModShift(a + b + 0x8000_0000, k);
  }

  /** The session a DAO works through: the sharding template or any other
      `SqlSession`. */
  datatype SqlSession = ShardTemplate(template: ShardSqlSessionTemplate) | OtherSession

  /** `insert`, `delete` or `update` of one entity through the session:
      the number of rows it reports, or what it throws. */
  type Statement = (Option<string>, Payload) -> Result<Int32>

  /** The non-partitioned branch: the whole collection in one JDBC batch,
      done by code that is not part of this model. */
  type BatchExecutor = Option<seq<Payload>> -> Result<Int32>

  /** What an entity that went through adds to the counter: one for an
      insert, the reported row count for a delete or an update. */
  datatype Counting = CountCalls | SumRows

  function Contribution(counting: Counting, rows: Int32): int {
    if counting == CountCalls then 1 else rows
  }

  /** A failure the loop does not catch. */
  predicate Escapes(o: Result<Int32>) {
    o.Failure? && !IsDataAccess(o.error)
  }

  /** The counter and the last data-access failure after some entities. */
  datatype Tally = Tally(counter: Int32, lastEx: Option<Exception>)

  /** One entity's outcome taken into the tally: rows counted, a
      data-access failure remembered, any other error escaping. */
  function Count(t: Tally, o: Result<Int32>, counting: Counting): Result<Tally> {
    match o
    case Success(rows) => Success(Tally(Wrap32(t.counter + Contribution(counting, rows)), t.lastEx))
    case Failure(e) => if IsDataAccess(e) then Success(Tally(t.counter, Some(e))) else Failure(e)
  }

  /** The loop over the outcomes in order; an escaping error ends it. */
  function TallySpec(outcomes: seq<Result<Int32>>, counting: Counting): Result<Tally>
  {
    if outcomes == [] then Success(Tally(0, None))
    else
      var before := TallySpec(outcomes[..|outcomes| - 1], counting);
      if before.Failure? then before else Count(before.value, outcomes[|outcomes| - 1], counting)
  }

  lemma TallyStep(outcomes: seq<Result<Int32>>, i: nat, counting: Counting, t: Tally)
    requires i < |outcomes| && TallySpec(outcomes[..i], counting) == Success(t)
    ensures TallySpec(outcomes[..i + 1], counting) == Count(t, outcomes[i], counting)
  {
    TakeTake(outcomes, i + 1, i);
  }

  /** After the loop: the last data-access failure is thrown, otherwise the
      counter is returned. */
  function Finish(t: Result<Tally>): Result<Int32> {
    match t
    case Failure(e) => Failure(e)
    case Success(tally) => if tally.lastEx.Some? then Failure(tally.lastEx.value) else Success(tally.counter)
  }

  function PartitionedBatch(outcomes: seq<Result<Int32>>, counting: Counting): Result<Int32> {
    Finish(TallySpec(outcomes, counting))
  }

  /** What the statement gives for each entity. */
  function Outcomes(statement: Statement, statementName: Option<string>, entities: seq<Payload>): (o: seq<Result<Int32>>)
    ensures |o| == |entities|
  {
    seq(|entities|, i requires 0 <= i < |entities| => statement(statementName, entities[i]))
  }

  /** The position of the first escaping outcome, or the number of outcomes
      when none escapes. */
  function FirstEscape(outcomes: seq<Result<Int32>>): (k: nat)
    ensures k <= |outcomes|
    ensures forall j :: 0 <= j < k ==> !Escapes(outcomes[j])
    ensures k < |outcomes| ==> Escapes(outcomes[k])
  {
    if outcomes == [] then 0
    else if Escapes(outcomes[0]) then 0
    else
      var k := 1 + FirstEscape(outcomes[1..]);
      assert forall j :: 1 <= j < k ==> outcomes[j] == outcomes[1..][j - 1];
      k
  }

  /** `FirstEscape` is the first escaping position. */
  lemma FirstEscapeAt(outcomes: seq<Result<Int32>>, k: nat)
    requires k <= |outcomes| && forall j :: 0 <= j < k ==> !Escapes(outcomes[j])
    requires k < |outcomes| ==> Escapes(outcomes[k])
    ensures FirstEscape(outcomes) == k
  {
  }

  /** How many entities are sent: all of them, unless one escapes, and then
      up to and including that one. */
  function Attempted(outcomes: seq<Result<Int32>>): nat {
    var k := FirstEscape(outcomes);
    if k < |outcomes| then k + 1 else |outcomes|
  }

  /** The sum of what the entities that went through add, unbounded. */
  function SuccessTotal(outcomes: seq<Result<Int32>>, counting: Counting): int {
    if outcomes == [] then 0
    else
      var last := outcomes[|outcomes| - 1];
      SuccessTotal(outcomes[..|outcomes| - 1], counting) + (if last.Success? then Contribution(counting, last.value) else 0)
  }

  /** The error of the last failed entity. */
  function LastFailure(outcomes: seq<Result<Int32>>): (e: Option<Exception>)
    ensures e.None? <==> forall i :: 0 <= i < |outcomes| ==> outcomes[i].Success?
    ensures e.Some? ==> exists k ::
      && 0 <= k < |outcomes|
      && outcomes[k] == Failure(e.value)
      && forall j :: k < j < |outcomes| ==> outcomes[j].Success?
  {
    if outcomes == [] then None
    else
      var n := |outcomes| - 1;
      if outcomes[n].Failure? then Some(outcomes[n].error)
      else
        var before := LastFailure(outcomes[..n]);
        assert forall j :: 0 <= j < n ==> outcomes[..n][j] == outcomes[j];
        if before.None? then before
        else
          var k :| 0 <= k < n && outcomes[..n][k] == Failure(before.value) && forall j :: k < j < n ==> outcomes[..n][j].Success?;
          assert outcomes[k] == Failure(before.value) && forall j :: k < j < |outcomes| ==> outcomes[j].Success?;
          before
  }

  /** When nothing escapes, the loop's counter is the wrapped total of the
      entities that went through and its remembered failure is the last
      one. */
  lemma {:induction false} TallyAddsUp(outcomes: seq<Result<Int32>>, counting: Counting)
    requires forall i :: 0 <= i < |outcomes| ==> !Escapes(outcomes[i])
    ensures TallySpec(outcomes, counting) == Success(Tally(Wrap32(SuccessTotal(outcomes, counting)), LastFailure(outcomes)))
  {
    if outcomes != [] {
      var n := |outcomes| - 1;
      assert forall i :: 0 <= i < n ==> outcomes[..n][i] == outcomes[i];
      TallyAddsUp(outcomes[..n], counting);
      if outcomes[n].Success? {
        Wrap32Add(SuccessTotal(outcomes[..n], counting), Contribution(counting, outcomes[n].value));
      }
    }
  }

  /** The batch result when nothing escapes: the last failure if any
      entity failed, however many went through; otherwise the wrapped
      total, which is the exact total while it fits in an `int`. For an
      insert the total is the number of entities that went through. */
  lemma BatchResult(outcomes: seq<Result<Int32>>, counting: Counting)
    requires forall i :: 0 <= i < |outcomes| ==> !Escapes(outcomes[i])
    ensures LastFailure(outcomes).Some? ==> PartitionedBatch(outcomes, counting) == Failure(LastFailure(outcomes).value)
    ensures LastFailure(outcomes).None? ==> PartitionedBatch(outcomes, counting) == Success(Wrap32(SuccessTotal(outcomes, counting)))
  {
    TallyAddsUp(outcomes, counting);
  }

  /** Once an error has escaped, later entities change nothing. */
  lemma {:induction false} EscapeSticks(outcomes: seq<Result<Int32>>, j: nat, counting: Counting)
    requires j <= |outcomes| && TallySpec(outcomes[..j], counting).Failure?
    ensures TallySpec(outcomes, counting) == TallySpec(outcomes[..j], counting)
    decreases |outcomes|
  {
    if j < |outcomes| {
      var shorter := outcomes[..|outcomes| - 1];
      TakeTake(outcomes, |outcomes| - 1, j);
      EscapeSticks(shorter, j, counting);
    } else {
      TakeAll(outcomes);
    }
  }

  /** The first error that is not a data-access error is what the batch
      throws, whatever failed before it. */
  lemma FirstEscapeIsThrown(outcomes: seq<Result<Int32>>, counting: Counting)
    requires FirstEscape(outcomes) < |outcomes|
    ensures PartitionedBatch(outcomes, counting) == Failure(outcomes[FirstEscape(outcomes)].error)
  {
    var k := FirstEscape(outcomes);
    assert forall i :: 0 <= i < k ==> outcomes[..k][i] == outcomes[i];
    TallyAddsUp(outcomes[..k], counting);
    TallyStep(outcomes, k, counting, TallySpec(outcomes[..k], counting).value);
    EscapeSticks(outcomes, k + 1, counting);
  }

  /** The partitioned loop: each entity through the session in turn. A
      `null` collection fails when the loop starts. */
  method RunPartitioned(statementName: Option<string>, entities: Option<seq<Payload>>, statement: Statement, counting: Counting)
    returns (r: Result<Int32>, attempted: nat)
    ensures entities.None? ==> r == Failure(NullPointer) && attempted == 0
    ensures entities == Some([]) ==> r == Success(0) && attempted == 0
    ensures entities.Some? ==>
      var outcomes := Outcomes(statement, statementName, entities.value);
      r == PartitionedBatch(outcomes, counting) && attempted == Attempted(outcomes)
  {
    if entities.None? {
      return Failure(NullPointer), 0;
    }
    var items := entities.value;
    ghost var outcomes := Outcomes(statement, statementName, items);
    var counter: Int32 := 0;
    var lastEx: Option<Exception> := None;
    for i := 0 to |items|
      invariant TallySpec(outcomes[..i], counting) == Success(Tally(counter, lastEx))
      invariant forall j :: 0 <= j < i ==> !Escapes(outcomes[j])
    {
      TallyStep(outcomes, i, counting, Tally(counter, lastEx));
      var outcome := statement(statementName, items[i]);
      assert outcome == outcomes[i];
      if outcome.Success? {
        counter := Wrap32(counter + Contribution(counting, outcome.value));
      } else if IsDataAccess(outcome.error) {
        lastEx := Some(outcome.error);
      } else {
        EscapeSticks(outcomes, i + 1, counting);
        FirstEscapeAt(outcomes, i);
        return Failure(outcome.error), i + 1;
      }
    }
    TakeAll(outcomes);
    FirstEscapeAt(outcomes, |items|);
    attempted := |items|;
    if lastEx.Some? {
      return Failure(lastEx.value), attempted;
    }
    r := Success(counter);
  }

  class ShardSqlSessionDaoSupport {
    var sqlSession: SqlSession

    constructor(sqlSession: SqlSession)
      ensures this.sqlSession == sqlSession
    {
      this.sqlSession := sqlSession;
    }

    function SessionObjects(): set<object>
      reads this
    {
      if sqlSession.ShardTemplate? then {sqlSession.template} else {}
    }

    /** `isPartitionBehaviorEnabled`: the session is a sharding template
        whose partitioning is on. */
    predicate IsPartitionBehaviorEnabled(): (on: bool)
      reads this, SessionObjects()
      ensures on <==> sqlSession.ShardTemplate? && sqlSession.template.router.Some?
                      && sqlSession.template.myShardDataSourceService.Some?
      ensures !sqlSession.ShardTemplate? ==> !on
    {
      sqlSession.ShardTemplate? && sqlSession.template.IsPartitioningBehaviorEnabled()
    }

    /** `batchInsert`: in partitioned mode, the number of entities inserted
        without an error. */
    method BatchInsert(statementName: Option<string>, entities: Option<seq<Payload>>, insert: Statement,
                       executeBatch: BatchExecutor) returns (r: Result<Int32>, attempted: nat)
      ensures !IsPartitionBehaviorEnabled() ==> r == executeBatch(entities) && attempted == 0
      ensures IsPartitionBehaviorEnabled() && entities.None? ==> r == Failure(NullPointer)
      ensures IsPartitionBehaviorEnabled() && entities.Some? ==>
        var outcomes := Outcomes(insert, statementName, entities.value);
        r == PartitionedBatch(outcomes, CountCalls) && attempted == Attempted(outcomes)
    {
      if !IsPartitionBehaviorEnabled() {
        return executeBatch(entities), 0;
      }
      r, attempted := RunPartitioned(statementName, entities, insert, CountCalls);
    }

    /** `batchDelete`: in partitioned mode, the rows the deletes that did
        not fail report. */
    method BatchDelete(statementName: Option<string>, entities: Option<seq<Payload>>, delete: Statement,
                       executeBatch: BatchExecutor) returns (r: Result<Int32>, attempted: nat)
      ensures !IsPartitionBehaviorEnabled() ==> r == executeBatch(entities) && attempted == 0
      ensures IsPartitionBehaviorEnabled() && entities.None? ==> r == Failure(NullPointer)
      ensures IsPartitionBehaviorEnabled() && entities.Some? ==>
        var outcomes := Outcomes(delete, statementName, entities.value);
        r == PartitionedBatch(outcomes, SumRows) && attempted == Attempted(outcomes)
    {
      if !IsPartitionBehaviorEnabled() {
        return executeBatch(entities), 0;
      }
      r, attempted := RunPartitioned(statementName, entities, delete, SumRows);
    }

    /** `batchUpdate`: in partitioned mode, the rows the updates that did
        not fail report. */
    method BatchUpdate(statementName: Option<string>, entities: Option<seq<Payload>>, update: Statement,
                       executeBatch: BatchExecutor) returns (r: Result<Int32>, attempted: nat)
      ensures !IsPartitionBehaviorEnabled() ==> r == executeBatch(entities) && attempted == 0
      ensures IsPartitionBehaviorEnabled() && entities.None? ==> r == Failure(NullPointer)
      ensures IsPartitionBehaviorEnabled() && entities.Some? ==>
        var outcomes := Outcomes(update, statementName, entities.value);
        r == PartitionedBatch(outcomes, SumRows) && attempted == Attempted(outcomes)
    {
      if !IsPartitionBehaviorEnabled() {
        return executeBatch(entities), 0;
      }
      r, attempted := RunPartitioned(statementName, entities, update, SumRows);
    }
  }
}

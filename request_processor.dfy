/** `DefaultConcurrentRequestProcessor`: runs one data-access action per
    shard. It first takes a connection for every request, then hands each
    action with its connection to a worker, releases every connection, and
    finally collects the results in request order.

    Workers are not modelled as threads: the tasks run one after the other
    in submission order, which is one of the interleavings the source
    allows, since a task touches only its own connection and session. What
    the processor does to connections and sessions is recorded as a trace
    of events naming the request by its position. */
module RequestProcessor {
  import opened Wrappers

  /** `ConcurrentRequest`: the data source (whether it is a transaction
      aware proxy decides how its connection is given back), the action and
      the worker pool it runs on. */
  datatype Request = Request(dataSource: nat, transactionAware: bool, action: nat, executor: nat)

  /** What asking a data source for a connection gives. */
  datatype Acquisition = Connected(connection: nat) | Refused(sqlCode: int)

  datatype Event =
    | Acquired(request: nat)
    | SessionOpened(request: nat)
    | SessionClosed(request: nat)
    | ConnectionClosed(request: nat)     // `close()` on a transaction-aware connection
    | ConnectionReleased(request: nat)   // `DataSourceUtils.doReleaseConnection`

  /** Data sources: `connect` answers a request's connection attempt. */
  type Connector = Request -> Acquisition
  /** Actions: `execute` runs a request's action on a session over the
      given connection. */
  type Action<V> = (Request, nat) -> Result<V>

  // ---------------------------------------------------------------------
  // Phase 1: taking connections

  /** The position of the first request whose connection is refused, or
      the number of requests when none is. */
  function FirstRefused(reqs: seq<Request>, connect: Connector): (k: nat)
    ensures k <= |reqs|
    ensures forall j :: 0 <= j < k ==> connect(reqs[j]).Connected?
    ensures k < |reqs| ==> connect(reqs[k]).Refused?
  {
    if reqs == [] then 0
    else if connect(reqs[0]).Refused? then 0
    else
      var k := 1 + FirstRefused(reqs[1..], connect);
      assert forall j :: 1 <= j < k ==> reqs[j] == reqs[1..][j - 1];
      k
  }

  function ConnectionOf(a: Acquisition): nat {
    if a.Connected? then a.connection else 0
  }

  /** `Acquired(0)`, …, `Acquired(n - 1)`. */
  function Acquisitions(n: nat): (t: seq<Event>)
    ensures |t| == n && forall i :: 0 <= i < n ==> t[i] == Acquired(i)
  {
    if n == 0 then [] else Acquisitions(n - 1) + [Acquired(n - 1)]
  }

  // ---------------------------------------------------------------------
  // Phase 2: the tasks

  /** `executeWith`: opening a session on a `null` factory raises before
      anything is opened; an `SQLException` of the action comes out as a
      `ConcurrencyFailureException`, any other error as it is. */
  function TaskResult<V>(factory: Option<nat>, req: Request, connection: nat, execute: Action<V>): (r: Result<V>)
    ensures factory.None? ==> r == Failure(NullPointer)
    ensures factory.Some? && execute(req, connection).Success? ==> r == execute(req, connection)
    ensures factory.Some? && execute(req, connection).Failure? ==>
      var e := execute(req, connection).error;
      r == Failure(if e.SqlException? then ConcurrencyFailure(e) else e)
  {
    if factory.None? then Failure(NullPointer)
    else
      match execute(req, connection)
      case Success(v) => Success(v)
      case Failure(e) => if e.SqlException? then Failure(ConcurrencyFailure(e)) else Failure(e)
  }

  /** The session a task opens is closed whatever the action does. */
  function TaskEvents(factory: Option<nat>, i: nat): seq<Event> {
    if factory.Some? then [SessionOpened(i), SessionClosed(i)] else []
  }

  function DispatchEvents(factory: Option<nat>, n: nat): seq<Event> {
    if n == 0 then [] else DispatchEvents(factory, n - 1) + TaskEvents(factory, n - 1)
  }

  // ---------------------------------------------------------------------
  // Phase 3: giving connections back

  function ReleaseEvent(req: Request, i: nat): Event {
    if req.transactionAware then ConnectionClosed(i) else ConnectionReleased(i)
  }

  /** The connections of the first `n` requests given back in order. */
  function Releases(reqs: seq<Request>, n: nat): (t: seq<Event>)
    requires n <= |reqs|
    ensures |t| == n && forall i :: 0 <= i < n ==> t[i] == ReleaseEvent(reqs[i], i)
  {
    if n == 0 then [] else Releases(reqs, n - 1) + [ReleaseEvent(reqs[n - 1], n - 1)]
  }

  // ---------------------------------------------------------------------
  // Phase 4: collecting the results

  /** `fillResultListWithFutureResults`: the results in request order; the
      first task that failed, in that order, makes the whole call fail
      with its error wrapped in a `ConcurrencyFailureException`. */
  function FillSpec<V>(outcomes: seq<Result<V>>): (r: Result<seq<V>>)
    ensures r.Success? ==> |r.value| == |outcomes|
  {
    if outcomes == [] then Success([])
    else if outcomes[0].Failure? then
      Failure(ConcurrencyFailure(outcomes[0].error))
    else
      var rest := FillSpec(outcomes[1..]);
      if rest.Failure? then rest else Success([outcomes[0].value] + rest.value)
  }

  /** What the collected results mean: success exactly when every task
      succeeded, and then each result is its task's value; otherwise the
      error is that of the first task, in request order, that failed. */
  lemma {:induction false} FillSpecMeaning<V>(outcomes: seq<Result<V>>)
    ensures var r := FillSpec(outcomes);
      && (r.Success? <==> forall i :: 0 <= i < |outcomes| ==> outcomes[i].Success?)
      && (r.Success? ==> forall i :: 0 <= i < |outcomes| ==> outcomes[i] == Success(r.value[i]))
      && (r.Failure? ==> exists k ::
        && 0 <= k < |outcomes|
        && outcomes[k].Failure?
        && r.error == ConcurrencyFailure(outcomes[k].error)
        && forall j :: 0 <= j < k ==> outcomes[j].Success?)
    decreases |outcomes|
  {
    if outcomes != [] && outcomes[0].Success? {
      var tail := outcomes[1..];
      FillSpecMeaning(tail);
      assert forall i :: 1 <= i < |outcomes| ==> outcomes[i] == tail[i - 1];
      var rest := FillSpec(tail);
      if rest.Failure? {
        var k :| 0 <= k < |tail| && tail[k].Failure? &&
          rest.error == ConcurrencyFailure(tail[k].error) && forall j :: 0 <= j < k ==> tail[j].Success?;
        assert outcomes[k + 1] == tail[k];
      }
    }
  }

  /** One step of the collection: the results from position `i` on. */
  lemma FillStep<V>(outcomes: seq<Result<V>>, i: nat)
    requires i < |outcomes|
    ensures FillSpec(outcomes[i..]) ==
      if outcomes[i].Failure? then Failure(ConcurrencyFailure(outcomes[i].error))
      else Prepend([outcomes[i].value], FillSpec(outcomes[i + 1..]))
  {
    assert outcomes[i..][1..] == outcomes[i + 1..];
  }

  lemma PrependTwice<V>(a: seq<V>, b: seq<V>, rest: Result<seq<V>>)
    ensures Prepend(a, Prepend(b, rest)) == Prepend(a + b, rest)
  {
    if rest.Success? {
      assert a + (b + rest.value) == (a + b) + rest.value;
    }
  }

  /** The task outcomes of all requests, each on its own connection. */
  function Outcomes<V>(factory: Option<nat>, reqs: seq<Request>, connect: Connector, execute: Action<V>): (o: seq<Result<V>>)
    ensures |o| == |reqs|
  {
    seq(|reqs|, i requires 0 <= i < |reqs| => TaskResult(factory, reqs[i], ConnectionOf(connect(reqs[i])), execute))
  }

  class DefaultConcurrentRequestProcessor {
    var sessionFactory: Option<nat>

    constructor(sessionFactory: Option<nat>)
      ensures this.sessionFactory == sessionFactory
    {
      this.sessionFactory := sessionFactory;
    }

    /** `setSessionFactory`: a `null` factory is refused. */
    method SetSessionFactory(factory: Option<nat>) returns (o: Outcome)
      modifies this
      ensures factory.None? ==> o == Fail(IllegalArgument(NullArgument)) && sessionFactory == old(sessionFactory)
      ensures factory.Some? ==> o == Pass && sessionFactory == factory
    {
      if factory.None? {
        return Fail(IllegalArgument(NullArgument));
      }
      sessionFactory := factory;
      o := Pass;
    }

    /** `executeWith`: one task's session, opened and always closed. */
    method ExecuteWith<V>(req: Request, i: nat, connection: nat, execute: Action<V>) returns (r: Result<V>, events: seq<Event>)
      ensures r == TaskResult(sessionFactory, req, connection, execute)
      ensures events == TaskEvents(sessionFactory, i)
    {
      if sessionFactory.None? {
        return Failure(NullPointer), [];
      }
      events := [SessionOpened(i)];
      var outcome := execute(req, connection);
      if outcome.Failure? && outcome.error.SqlException? {
        r := Failure(ConcurrencyFailure(outcome.error));
      } else {
        r := outcome;
      }
      events := events + [SessionClosed(i)];
    }

    /** The loop that waits on every future in submission order. */
    method FillResultListWithFutureResults<V>(outcomes: seq<Result<V>>) returns (r: Result<seq<V>>)
      ensures r == FillSpec(outcomes)
    {
      var resultList: seq<V> := [];
      assert outcomes[0..] == outcomes;
      assert FillSpec(outcomes).Success? ==> [] + FillSpec(outcomes).value == FillSpec(outcomes).value;
      for i := 0 to |outcomes|
        invariant |resultList| == i
        invariant FillSpec(outcomes) == Prepend(resultList, FillSpec(outcomes[i..]))
      {
        FillStep(outcomes, i);
        if outcomes[i].Failure? {
          return Failure(ConcurrencyFailure(outcomes[i].error));
        }
        PrependTwice(resultList, [outcomes[i].value], FillSpec(outcomes[i + 1..]));
        resultList := resultList + [outcomes[i].value];
      }
      assert outcomes[|outcomes|..] == [];
      assert resultList + [] == resultList;
      r := Success(resultList);
    }

    /** `fetchConnectionsAndDepositForLaterUse`: a connection for each
        request in turn, until one is refused. */
    method FetchConnectionsAndDepositForLaterUse(reqs: seq<Request>, connect: Connector)
      returns (connections: seq<nat>, trace: seq<Event>, refusal: Option<int>)
      ensures var k := FirstRefused(reqs, connect);
        && |connections| == k
        && trace == Acquisitions(k)
        && (forall j :: 0 <= j < k ==> connections[j] == ConnectionOf(connect(reqs[j])))
        && (refusal.Some? <==> k < |reqs|)
        && (refusal.Some? ==> refusal.value == connect(reqs[k]).sqlCode)
    {
      connections := [];
      trace := [];
      for i := 0 to |reqs|
        invariant |connections| == i && trace == Acquisitions(i)
        invariant forall j :: 0 <= j < i ==> connect(reqs[j]).Connected? && connections[j] == connect(reqs[j]).connection
      {
        var attempt := connect(reqs[i]);
        if attempt.Refused? {
          FirstRefusedAt(reqs, connect, i);
          return connections, trace, Some(attempt.sqlCode);
        }
        connections := connections + [attempt.connection];
        trace := trace + [Acquired(i)];
      }
      FirstRefusedAt(reqs, connect, |reqs|);
      refusal := None;
    }

    /** The submission loop: every request's action on its own connection. */
    method Dispatch<V>(reqs: seq<Request>, connections: seq<nat>, execute: Action<V>)
      returns (outcomes: seq<Result<V>>, events: seq<Event>)
      requires |connections| == |reqs|
      ensures |outcomes| == |reqs|
      ensures forall j :: 0 <= j < |reqs| ==> outcomes[j] == TaskResult(sessionFactory, reqs[j], connections[j], execute)
      ensures events == DispatchEvents(sessionFactory, |reqs|)
    {
      outcomes := [];
      events := [];
      for i := 0 to |reqs|
        invariant |outcomes| == i && events == DispatchEvents(sessionFactory, i)
        invariant forall j :: 0 <= j < i ==> outcomes[j] == TaskResult(sessionFactory, reqs[j], connections[j], execute)
      {
        var result, taskEvents := ExecuteWith(reqs[i], i, connections[i], execute);
        outcomes := outcomes + [result];
        events := events + taskEvents;
      }
    }

    /** The `finally` loop: each of the first `n` connections is given
        back, closed when transaction aware, released otherwise. */
    method ReleaseConnections(reqs: seq<Request>, n: nat) returns (events: seq<Event>)
      requires n <= |reqs|
      ensures events == Releases(reqs, n)
    {
      events := [];
      for i := 0 to n
        invariant events == Releases(reqs, i)
      {
        events := events + [ReleaseEvent(reqs[i], i)];
      }
    }

    /** `process` as written. No requests, no work. Otherwise a connection
        is taken for every request; a refused one ends the call at once with
        `CannotGetJdbcConnectionException`, before the block that gives
        connections back. When all are taken, every task runs, every
        connection is given back, and then the results are collected. */
    method Process<V>(requests: Option<seq<Request>>, connect: Connector, execute: Action<V>)
      returns (r: Result<seq<V>>, trace: seq<Event>)
      ensures requests.None? || requests.value == [] ==> r == Success([]) && trace == []
      ensures requests.Some? && FirstRefused(requests.value, connect) < |requests.value| ==>
        var k := FirstRefused(requests.value, connect);
        r == Failure(CannotGetJdbcConnection(SqlException(connect(requests.value[k]).sqlCode))) &&
        trace == Acquisitions(k)
      ensures requests.Some? && FirstRefused(requests.value, connect) == |requests.value| ==>
        var n := |requests.value|;
        r == FillSpec(Outcomes(sessionFactory, requests.value, connect, execute)) &&
        trace == Acquisitions(n) + DispatchEvents(sessionFactory, n) + Releases(requests.value, n)
    {
      if requests.None? || requests.value == [] {
        return Success([]), [];
      }
      var reqs := requests.value;
      var connections, acquired, refusal := FetchConnectionsAndDepositForLaterUse(reqs, connect);
      if refusal.Some? {
        return Failure(CannotGetJdbcConnection(SqlException(refusal.value))), acquired;
      }
      var outcomes, dispatched := Dispatch(reqs, connections, execute);
      var released := ReleaseConnections(reqs, |reqs|);
      trace := acquired + dispatched + released;
      assert outcomes == Outcomes(sessionFactory, reqs, connect, execute);
      r := FillResultListWithFutureResults(outcomes);
    }

    /** `process` giving back the connections already taken when a later
        one is refused. */
    method ProcessReleasingOnRefusal<V>(requests: Option<seq<Request>>, connect: Connector, execute: Action<V>)
      returns (r: Result<seq<V>>, trace: seq<Event>)
      ensures requests.None? || requests.value == [] ==> r == Success([]) && trace == []
      ensures requests.Some? && FirstRefused(requests.value, connect) < |requests.value| ==>
        var k := FirstRefused(requests.value, connect);
        r == Failure(CannotGetJdbcConnection(SqlException(connect(requests.value[k]).sqlCode))) &&
        trace == Acquisitions(k) + Releases(requests.value, k)
      ensures requests.Some? && FirstRefused(requests.value, connect) == |requests.value| ==>
        var n := |requests.value|;
        r == FillSpec(Outcomes(sessionFactory, requests.value, connect, execute)) &&
        trace == Acquisitions(n) + DispatchEvents(sessionFactory, n) + Releases(requests.value, n)
    {
      if requests.None? || requests.value == [] {
        return Success([]), [];
      }
      var reqs := requests.value;
      var connections, acquired, refusal := FetchConnectionsAndDepositForLaterUse(reqs, connect);
      if refusal.Some? {
        var released := ReleaseConnections(reqs, |connections|);
        return Failure(CannotGetJdbcConnection(SqlException(refusal.value))), acquired + released;
      }
      var outcomes, dispatched := Dispatch(reqs, connections, execute);
      var released := ReleaseConnections(reqs, |reqs|);
      trace := acquired + dispatched + released;
      assert outcomes == Outcomes(sessionFactory, reqs, connect, execute);
      r := FillResultListWithFutureResults(outcomes);
    }
  }

  /** Results already gathered, in front of what the rest gives. */
  function Prepend<V>(gathered: seq<V>, rest: Result<seq<V>>): Result<seq<V>> {
    if rest.Success? then Success(gathered + rest.value) else rest
  }

  /** `FirstRefused` is the first refused position. */
  lemma FirstRefusedAt(reqs: seq<Request>, connect: Connector, k: nat)
    requires k <= |reqs| && forall j :: 0 <= j < k ==> connect(reqs[j]).Connected?
    requires k < |reqs| ==> connect(reqs[k]).Refused?
    ensures FirstRefused(reqs, connect) == k
  {
  }

  // ---------------------------------------------------------------------
  // Connection and session bookkeeping

  /** No event happens twice. */
  ghost predicate Distinct(t: seq<Event>) {
    forall p, q :: 0 <= p < q < |t| ==> t[p] != t[q]
  }

  lemma DistinctJoin(a: seq<Event>, b: seq<Event>)
    requires Distinct(a) && Distinct(b)
    requires forall x :: x in a ==> x !in b
    ensures Distinct(a + b)
  {
    var t := a + b;
    forall p, q | 0 <= p < q < |t| ensures t[p] != t[q] {
      if p < |a| && |a| <= q {
        assert t[p] in a && t[q] == b[q - |a|];
      } else if |a| <= p {
        assert t[p] == b[p - |a|] && t[q] == b[q - |a|];
      }
    }
  }

  /** Tasks only open and close their own sessions, never twice, and never
      touch a connection. */
  lemma {:induction false} TasksOnlyTouchSessions(factory: Option<nat>, n: nat)
    ensures forall e :: e in DispatchEvents(factory, n) ==> (e.SessionOpened? || e.SessionClosed?) && e.request < n
    ensures Distinct(DispatchEvents(factory, n))
  {
    if n > 0 {
      TasksOnlyTouchSessions(factory, n - 1);
      DistinctJoin(DispatchEvents(factory, n - 1), TaskEvents(factory, n - 1));
    }
  }

  /** With a session factory, the tasks' events are, in submission order,
      each task opening its session and closing that same session, and
      nothing else. */
  lemma {:induction false} SessionsOpenedThenClosed(factory: nat, n: nat)
    ensures |DispatchEvents(Some(factory), n)| == 2 * n
    ensures forall i :: 0 <= i < n ==>
      DispatchEvents(Some(factory), n)[2 * i] == SessionOpened(i) &&
      DispatchEvents(Some(factory), n)[2 * i + 1] == SessionClosed(i)
  {
    if n > 0 {
      SessionsOpenedThenClosed(factory, n - 1);
      var before := DispatchEvents(Some(factory), n - 1);
      assert DispatchEvents(Some(factory), n) == before + [SessionOpened(n - 1), SessionClosed(n - 1)];
      forall i | 0 <= i < n
        ensures DispatchEvents(Some(factory), n)[2 * i] == SessionOpened(i)
        ensures DispatchEvents(Some(factory), n)[2 * i + 1] == SessionClosed(i)
      {
        if i < n - 1 {
          assert DispatchEvents(Some(factory), n)[2 * i] == before[2 * i];
        }
      }
    }
  }

  /** Without one, no session is ever opened. */
  lemma {:induction false} NoFactoryNoSessions(n: nat)
    ensures DispatchEvents(None, n) == []
  {
    if n > 0 {
      NoFactoryNoSessions(n - 1);
    }
  }

  /** Taking connections and giving them back never repeats an event. */
  lemma AcquisitionsAndReleasesDistinct(reqs: seq<Request>, n: nat)
    requires n <= |reqs|
    ensures Distinct(Acquisitions(n)) && Distinct(Releases(reqs, n))
    ensures forall x :: x in Acquisitions(n) ==> x.Acquired? && x.request < n
    ensures forall x :: x in Releases(reqs, n) ==> (x.ConnectionClosed? || x.ConnectionReleased?) && x.request < n
  {
    var a := Acquisitions(n);
    var r := Releases(reqs, n);
    forall p, q | 0 <= p < q < n ensures a[p] != a[q] && r[p] != r[q] {
      assert a[p].request == p && r[p].request == p && a[q].request == q && r[q].request == q;
    }
    forall x | x in a ensures x.Acquired? && x.request < n {
      var p :| 0 <= p < n && a[p] == x;
    }
    forall x | x in r ensures (x.ConnectionClosed? || x.ConnectionReleased?) && x.request < n {
      var p :| 0 <= p < n && r[p] == x;
    }
  }

  /** When every connection is taken: each connection is taken before any
      task runs and given back, the right way for its data source, after
      every task has run, and no event happens twice, so each is taken
      exactly once and given back exactly once. */
  lemma EveryConnectionGivenBackOnce(reqs: seq<Request>, factory: Option<nat>)
    ensures var n := |reqs|;
      var trace := Acquisitions(n) + DispatchEvents(factory, n) + Releases(reqs, n);
      && Distinct(trace)
      && forall i :: 0 <= i < n ==>
           trace[i] == Acquired(i) && trace[n + |DispatchEvents(factory, n)| + i] == ReleaseEvent(reqs[i], i)
  {
    var n := |reqs|;
    var acquired := Acquisitions(n);
    var dispatched := DispatchEvents(factory, n);
    var released := Releases(reqs, n);
    AcquisitionsAndReleasesDistinct(reqs, n);
    TasksOnlyTouchSessions(factory, n);
    DistinctJoin(acquired, dispatched);
    forall x | x in acquired + dispatched ensures x !in released {
      assert x in acquired || x in dispatched;
    }
    DistinctJoin(acquired + dispatched, released);
  }

  /** As written, a refused connection leaks the ones taken before it: the
      first request's connection is taken and never given back. */
  lemma RefusalLeaksEarlierConnections(reqs: seq<Request>, connect: Connector)
    requires 0 < FirstRefused(reqs, connect) < |reqs|
    ensures var trace := Acquisitions(FirstRefused(reqs, connect));
      Acquired(0) in trace && ReleaseEvent(reqs[0], 0) !in trace
  {
    var k := FirstRefused(reqs, connect);
    AcquisitionsAndReleasesDistinct(reqs, k);
    assert Acquisitions(k)[0] == Acquired(0);
  }

  /** Giving back what was taken before the refusal, every connection
      taken is given back exactly once on that path too. */
  lemma RefusalGivesBackEveryConnection(reqs: seq<Request>, connect: Connector)
    requires FirstRefused(reqs, connect) < |reqs|
    ensures var k := FirstRefused(reqs, connect);
      var trace := Acquisitions(k) + Releases(reqs, k);
      && Distinct(trace)
      && forall i :: 0 <= i < k ==> trace[i] == Acquired(i) && trace[k + i] == ReleaseEvent(reqs[i], i)
  {
    var k := FirstRefused(reqs, connect);
    AcquisitionsAndReleasesDistinct(reqs, k);
    DistinctJoin(Acquisitions(k), Releases(reqs, k));
  }
}

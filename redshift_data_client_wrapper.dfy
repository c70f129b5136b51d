/** The blocking client wrapper: statement submission, the status-poll loop,
    and the presence guard on fetched results. The remote service is an
    oracle: a function from request to response, or the sequence of answers
    the service gives to successive status polls. */
module RedshiftData {
  import opened Wrappers
  import opened QueryResults

  /** What `executeStatement` is sent. */
  datatype ExecuteStatementRequest = ExecuteStatementRequest(
    clusterIdentifier: string,
    database: string,
    dbUser: string,
    sql: string)

  /** One `describeStatement` answer; `error` is `None` when the service sent none. */
  datatype DescribeResponse = DescribeResponse(status: string, error: Option<string>)

  /** One turn of the poll loop as the outside world plays it: the service's
      answer to `describeStatement` (or the error that call raised), and
      whether the sleep that would follow it is interrupted. */
  datatype Round = Round(response: Result<DescribeResponse, string>, sleepInterrupted: bool)

  /** How the poll loop ends. `ServiceError`: `describeStatement` raised an
      error, which leaves the loop as it is. `StillPolling`: the rounds ran out
      and the loop has not returned yet. `NullClient`: the static synchronous
      client was never built, so the first `describeStatement` call
      dereferences null. */
  datatype PollOutcome =
    | Finished
    | QueryFailed(message: string)
    | ServiceError(message: string)
    | Interrupted(message: string)
    | NullClient
    | StillPolling

  datatype PollResult = PollResult(outcome: PollOutcome, polls: nat)

  /** What `getStatementResult` returns; `None` is a null list. */
  datatype StatementResult = StatementResult(
    columnMetadata: Option<seq<ColumnMetadata>>,
    records: Option<seq<Row>>)

  const FinishedStatus: string := "FINISHED"
  const FailedStatus: string := "FAILED"
  const InterruptedMessage: string := "Thread interrupted while waiting for query completion."
  const NoResultsMessage: string := "No results found for query."

  const FailurePrefix: string := "Query failed: "

  /** Java's string concatenation writes a null reference as "null". */
  function ErrorText(error: Option<string>): (r: string)
    ensures error.Some? ==> r == error.value
    ensures error.None? ==> r == "null"
  {
    match error
    case None => "null"
    case Some(e) => e
  }

  /** The message of the exception thrown on "FAILED": the fixed prefix, then
      the service's error text, or "null" when the service sent none. */
  function FailureMessage(error: Option<string>): (r: string)
    ensures |r| >= |FailurePrefix| && r[..|FailurePrefix|] == FailurePrefix
    ensures error.Some? ==> r[|FailurePrefix|..] == error.value
    ensures error.None? ==> r[|FailurePrefix|..] == "null"
  {
    FailurePrefix + ErrorText(error)
  }

  /** The round's status call succeeded and reported status `status`. */
  predicate StatusIs(round: Round, status: string) {
    round.response.Success? && round.response.value.status == status
  }

  /** A round after which the loop makes no further poll. */
  predicate Stops(round: Round) {
    round.response.Failure?
    || StatusIs(round, FinishedStatus)
    || StatusIs(round, FailedStatus)
    || round.sleepInterrupted
  }

  /** The poll loop over the given rounds, as a reference definition: an error
      from the status call ends it; stop on "FINISHED", fail on "FAILED",
      otherwise sleep (which may be interrupted) and poll again. Every other
      status, "ABORTED" included, is polled past. */
  function Poll(rounds: seq<Round>): (r: PollResult)
    ensures r.polls <= |rounds|
    ensures r.outcome != NullClient
    ensures forall j | 0 <= j < r.polls - 1 :: !Stops(rounds[j])
    ensures r.outcome == StillPolling <==> r.polls == |rounds| && forall j | 0 <= j < |rounds| :: !Stops(rounds[j])
    ensures r.outcome != StillPolling ==> 1 <= r.polls && Stops(rounds[r.polls - 1])
    ensures r.outcome.ServiceError? <==> 1 <= r.polls && rounds[r.polls - 1].response.Failure?
    ensures r.outcome.ServiceError? ==> r.outcome.message == rounds[r.polls - 1].response.error
    ensures r.outcome == Finished <==> 1 <= r.polls && StatusIs(rounds[r.polls - 1], FinishedStatus)
    ensures r.outcome.QueryFailed? <==> 1 <= r.polls && StatusIs(rounds[r.polls - 1], FailedStatus)
    ensures r.outcome.QueryFailed? ==> r.outcome.message == FailureMessage(rounds[r.polls - 1].response.value.error)
    ensures r.outcome.Interrupted? ==> r.outcome.message == InterruptedMessage
    decreases |rounds|
  {
    if rounds == [] then PollResult(StillPolling, 0)
    else if rounds[0].response.Failure? then PollResult(ServiceError(rounds[0].response.error), 1)
    else
      var response := rounds[0].response.value;
      if response.status == FinishedStatus then PollResult(Finished, 1)
      else if response.status == FailedStatus then PollResult(QueryFailed(FailureMessage(response.error)), 1)
      else if rounds[0].sleepInterrupted then PollResult(Interrupted(InterruptedMessage), 1)
      else
        var rest := Poll(rounds[1..]);
        PollResult(rest.outcome, rest.polls + 1)
  }

  /** If round `k` is the first that stops the loop, exactly `k + 1` polls are made. */
  lemma PollCount(rounds: seq<Round>, k: nat)
    requires k < |rounds| && Stops(rounds[k])
    requires forall j | 0 <= j < k :: !Stops(rounds[j])
    ensures Poll(rounds).polls == k + 1
  {
  }

  /** Once a terminal status is seen, later answers of the service are never
      read: the outcome and the number of polls are those of the prefix. */
  lemma {:induction false} NoPollAfterStop(rounds: seq<Round>, later: seq<Round>)
    requires Poll(rounds).outcome != StillPolling
    ensures Poll(rounds + later) == Poll(rounds)
  {
    assert (rounds + later)[0] == rounds[0];
    if !Stops(rounds[0]) {
      assert (rounds + later)[1..] == rounds[1..] + later;
      NoPollAfterStop(rounds[1..], later);
    }
  }

  /** A pending status followed by an uninterrupted sleep costs one poll and
      leaves the outcome to the rounds that follow. */
  lemma PendingRoundPolledPast(round: Round, rest: seq<Round>)
    requires !Stops(round)
    ensures Poll([round] + rest) == PollResult(Poll(rest).outcome, Poll(rest).polls + 1)
  {
    assert ([round] + rest)[1..] == rest;
  }

  /** A statement the service reports as "ABORTED" is never given up on: the
      loop polls through any number of such answers without an outcome. */
  lemma AbortedIsNotTerminal(rounds: seq<Round>)
    requires forall j | 0 <= j < |rounds| :: StatusIs(rounds[j], "ABORTED") && !rounds[j].sleepInterrupted
    ensures Poll(rounds) == PollResult(StillPolling, |rounds|)
  {
  }

  /** Two pending answers and then "FINISHED": three polls, no error. A
      "FAILED" answer carries the service's error text into the message. An
      error from the status call ends the loop at once, passed on unchanged. */
  lemma PollScenarios()
    ensures var pending := Success(DescribeResponse("SUBMITTED", None));
      var started := Success(DescribeResponse("STARTED", None));
      var done := Success(DescribeResponse(FinishedStatus, None));
      Poll([Round(pending, false), Round(started, false), Round(done, false)]) == PollResult(Finished, 3)
    ensures Poll([Round(Success(DescribeResponse(FailedStatus, Some("syntax error"))), false)])
      == PollResult(QueryFailed("Query failed: syntax error"), 1)
    ensures Poll([Round(Failure("Invalid statement id"), false), Round(Success(DescribeResponse(FinishedStatus, None)), false)])
      == PollResult(ServiceError("Invalid statement id"), 1)
  {
    var rounds := [Round(Success(DescribeResponse("SUBMITTED", None)), false),
                   Round(Success(DescribeResponse("STARTED", None)), false),
                   Round(Success(DescribeResponse(FinishedStatus, None)), false)];
    assert rounds[1..][1..] == [rounds[2]];
  }

  /** The two lazily built static clients, shared by every wrapper; `true`
      once the corresponding `get...Client` call has built it. */
  class SdkClients {
    var syncBuilt: bool
    var asyncBuilt: bool

    constructor ()
      ensures !syncBuilt && !asyncBuilt
    {
      syncBuilt, asyncBuilt := false, false;
    }
  }

  class RedshiftDataClientWrapper {
    const clusterId: string
    const databaseName: string
    const dbUser: string
    /** Stands for the class's static client fields. */
    const clients: SdkClients

    constructor (clusterId: string, databaseName: string, dbUser: string, clients: SdkClients)
      ensures this.clusterId == clusterId && this.databaseName == databaseName && this.dbUser == dbUser
      ensures this.clients == clients
    {
      this.clusterId := clusterId;
      this.databaseName := databaseName;
      this.dbUser := dbUser;
      this.clients := clients;
    }

    /** The request built for a statement: the wrapper's routing fields and
        the SQL text, unchanged. */
    function StatementRequest(sqlStatement: string): (r: ExecuteStatementRequest)
      ensures r.sql == sqlStatement
      ensures r.clusterIdentifier == clusterId && r.database == databaseName && r.dbUser == dbUser
    {
      ExecuteStatementRequest(clusterId, databaseName, dbUser, sqlStatement)
    }

    /** `getDataClient`: builds the synchronous client on first use. */
    method GetDataClient()
      modifies clients
      ensures clients.syncBuilt && clients.asyncBuilt == old(clients.asyncBuilt)
    {
      if !clients.syncBuilt {
        clients.syncBuilt := true;
      }
    }

    /** `getAsyncDataClient`: builds the asynchronous client on first use. */
    method GetAsyncDataClient()
      modifies clients
      ensures clients.asyncBuilt && clients.syncBuilt == old(clients.syncBuilt)
    {
      if !clients.asyncBuilt {
        clients.asyncBuilt := true;
      }
    }

    /** Submits a statement; the service's answer (an id or an error) reaches
        the caller as it is. */
    method QueryRequest(sqlStatement: string, execute: ExecuteStatementRequest -> Result<string, string>)
      returns (id: Result<string, string>)
      modifies clients
      ensures clients.syncBuilt && clients.asyncBuilt == old(clients.asyncBuilt)
      ensures id == execute(StatementRequest(sqlStatement))
    {
      var statementRequest := StatementRequest(sqlStatement);
      GetDataClient();
      id := execute(statementRequest);
    }

    /** Submits a statement on the asynchronous path, where every failure is
        replaced by the empty id. */
    method QueryRequestAsync(sqlStatement: string, execute: ExecuteStatementRequest -> Result<string, string>)
      returns (id: string)
      modifies clients
      ensures clients.asyncBuilt && clients.syncBuilt == old(clients.syncBuilt)
      ensures execute(StatementRequest(sqlStatement)).Success? ==> id == execute(StatementRequest(sqlStatement)).value
      ensures execute(StatementRequest(sqlStatement)).Failure? ==> id == ""
    {
      var statementRequest := StatementRequest(sqlStatement);
      GetAsyncDataClient();
      var response := execute(statementRequest);
      match response
      case Success(statementId) => id := statementId;
      case Failure(_) => id := "";
    }

    /** The blocking poll loop, one round per iteration. `reinterrupted`
        reports that the thread's interrupt flag was set again. */
    method CheckStatement(statementId: string, rounds: seq<Round>)
      returns (outcome: PollOutcome, polls: nat, reinterrupted: bool)
      ensures !clients.syncBuilt ==> outcome == NullClient && polls == 0
      ensures clients.syncBuilt ==> PollResult(outcome, polls) == Poll(rounds)
      ensures reinterrupted <==> outcome.Interrupted?
    {
      reinterrupted := false;
      if !clients.syncBuilt {
        return NullClient, 0, false;
      }
      var i := 0;
      while i < |rounds|
        invariant 0 <= i <= |rounds|
        invariant forall j | 0 <= j < i :: !Stops(rounds[j])
        invariant Poll(rounds) == PollResult(Poll(rounds[i..]).outcome, Poll(rounds[i..]).polls + i)
      {
        polls := i + 1;
        var describeResponse := rounds[i].response;
        if describeResponse.Failure? {
          return ServiceError(describeResponse.error), polls, false;
        }
        var response := describeResponse.value;
        if response.status == FinishedStatus {
          return Finished, polls, false;
        } else if response.status == FailedStatus {
          return QueryFailed(FailureMessage(response.error)), polls, false;
        }
        if rounds[i].sleepInterrupted {
          return Interrupted(InterruptedMessage), polls, true;
        }
        assert rounds[i..][1..] == rounds[i + 1..];
        i := i + 1;
      }
      outcome, polls := StillPolling, |rounds|;
    }

    /** Fetches a statement's result and rejects it only when the column
        metadata or the records are absent; nothing else is checked. */
    method GetResults(statementId: string, fetch: string -> Result<StatementResult, string>)
      returns (outcome: Outcome<string>)
      modifies clients
      ensures clients.syncBuilt && clients.asyncBuilt == old(clients.asyncBuilt)
      ensures fetch(statementId).Failure? ==> outcome == Fail(fetch(statementId).error)
      ensures fetch(statementId).Success? ==> outcome == ResultsPresent(fetch(statementId).value)
    {
      GetDataClient();
      var resultResponse := fetch(statementId);
      match resultResponse
      case Failure(e) => outcome := Fail(e);
      case Success(response) => outcome := ResultsPresent(response);
    }
  }

  /** The guard of `getResults`: fails exactly when the metadata or the records are null. */
  function ResultsPresent(response: StatementResult): (o: Outcome<string>)
    ensures o.Fail? <==> response.columnMetadata.None? || response.records.None?
    ensures o.Fail? ==> o.error == NoResultsMessage
  {
    if response.columnMetadata.None? || response.records.None? then Fail(NoResultsMessage) else Pass
  }

  /** The guard admits results the materialiser cannot build: passing it says
      nothing about whether the rows fit the column metadata. */
  lemma GuardAdmitsMisshapenResult()
    ensures var response := StatementResult(Some([]), Some([[None]]));
      && ResultsPresent(response) == Pass
      && Materialize(response.columnMetadata.value, response.records.value).Failure?
  {
    var rows: seq<Row> := [[None]];
    assert |rows[0]| > 0;
  }
}

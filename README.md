# Redshift Data API client wrapper, modelled in Dafny

This project models the two parts of a small Amazon Redshift Data API client
whose behaviour can be stated:

- **Result materialisation** (`QueryResult`). Column metadata plus rows of
  fields become an ordered list of records. Each record maps a column name to
  the field's decoded text. Decoding follows a fixed precedence: a null
  element gives `"NULL"`, then the string value, then the boolean as text,
  then the long as decimal text, and otherwise `""`.
- **Submission, status polling and the result guard**
  (`RedshiftDataClientWrapper`). A statement is submitted with the wrapper's
  fixed cluster, database and user. The blocking loop then asks for the
  statement's status: it returns on `"FINISHED"`, throws on `"FAILED"`, and
  sleeps and polls again on anything else. `getResults` only rejects a result
  whose column metadata or records are null.

The remote service is never called. It is modelled as an oracle:
- a function from the submission request to an id or an error;
- a sequence of rounds for the poll loop, each holding a `describeStatement`
  answer (or the error that call raised) and whether the sleep after it is
  interrupted;
- a function from statement id to a fetched result or an error.

When the rounds run out before a terminal status, the outcome is
`StillPolling`: the real loop has not returned yet.

Files:
- `wrappers.dfy`: `Option`, `Result`, `Outcome`.
- `java_text.dfy`: the text of `Boolean.toString` and `Long.toString`, plus a
  decimal parser that proves the long text can be read back.
- `query_result.dfy`: fields, decoding, records, `Materialize` (the constructor's
  behaviour, error included) and the `QueryResult` class.
- `redshift_data_client_wrapper.dfy`: the poll loop's reference definition
  `Poll`, its lemmas, and the wrapper class.

The model reproduces these behaviours of the code as written, including where a
reader might expect otherwise:
- `"ABORTED"` is not terminal in the code and is polled past (`AbortedIsNotTerminal`).
- A non-null field with no string, boolean or long decodes to `""`, not
  `"NULL"`. This includes a field the service flags with `isNull`, which is
  how the Data API reports an SQL NULL.
- `getResults` fetches, checks for null lists and discards the result. It
  does not build a table and does not check that the status was `"FINISHED"`.
- `queryRequestAsync` replaces any submission failure by the id `""`
  instead of propagating it.
- `checkStatement` uses the static synchronous client field directly, not
  `getDataClient()`. If no earlier call built that client, the first poll
  dereferences null (`NullClient`).

## Model

| member | source | states |
|---|---|---|
| `QueryResults.FieldValue` | src/main/java/org/example/QueryResult.java:32-43 | null element gives "NULL"; a present string wins over everything; the boolean's text ("true" exactly when true) is used only without a string; the long's `Long.toString` text, which parses back to the long, only without string and boolean; otherwise "" |
| `QueryResults.FieldValueIgnoresOtherSlots` | src/main/java/org/example/QueryResult.java:35-42 | the double value and the isNull flag never affect the decoded text |
| `QueryResults.NullElementDiffersFromEmptyField` | src/main/java/org/example/QueryResult.java:33-42 | a null element decodes to "NULL" but a field with none of string, boolean or long set (double-only or flagged isNull) decodes to "" |
| `QueryResults.RowRecord` | src/main/java/org/example/QueryResult.java:21-26 | the record filled for one row has at most one entry per field, and the last field's value is always stored under its column's name; the full key and value description is in `RowRecordKeys`, `RowRecordValues` and `RowRecordPositional` |
| `QueryResults.Materialize` | src/main/java/org/example/QueryResult.java:16-29 | succeeds exactly when every row fits the column metadata; then one record per row, same count and order, record k built from row k; otherwise the index error is raised at the first too-long row, at index = number of columns |
| `QueryResults.RowRecordKeys` | src/main/java/org/example/QueryResult.java:21-26 | a record's keys are exactly the names of the row's columns |
| `QueryResults.RowRecordValues` | src/main/java/org/example/QueryResult.java:22-25 | a column name maps to the decoded field of the last column carrying that name |
| `QueryResults.RowRecordPositional` | src/main/java/org/example/QueryResult.java:22-26 | with distinct column names, entry i sits under column i's name and the record has exactly one entry per field |
| `QueryResults.LaterColumnWins` | src/main/java/org/example/QueryResult.java:25 | of two columns sharing a name, the later column's value is kept |
| `QueryResults.FirstnameScenario` | src/main/java/org/example/QueryResult.java:16-43 | one "firstname" column with rows "Alice" and "Bob" gives [{"firstname": "Alice"}, {"firstname": "Bob"}] |
| `QueryResults.QueryResult.constructor` | src/main/java/org/example/QueryResult.java:16-30 | the nested loops store exactly the table `Materialize` describes |
| `QueryResults.MaterializeTwice` | src/main/java/org/example/QueryResult.java:16-43 | building a result twice from the same rows gives identical tables, one record per row |
| `JavaText.BoolText` | src/main/java/org/example/QueryResult.java:38 | the boolean's text is "true" or "false", and "true" exactly for true |
| `JavaText.Digits` | src/main/java/org/example/QueryResult.java:40 | a non-empty run of decimal digits with no leading zero |
| `JavaText.LongText` | src/main/java/org/example/QueryResult.java:40 | a leading minus sign exactly for negative values, then digits with no leading zero; zero is exactly "0" |
| `JavaText.DigitsRoundTrip` | src/main/java/org/example/QueryResult.java:40 | the value of the digit text of n is n |
| `JavaText.LongTextRoundTrip` | src/main/java/org/example/QueryResult.java:39-40 | parsing the long's text gives the long back |
| `JavaText.LongTextIsNoMarker` | src/main/java/org/example/QueryResult.java:34-42 | a long's text is never "true", "false", "NULL" or "" |
| `RedshiftData.ErrorText` | src/main/java/org/example/RedshiftDataClientWrapper.java:78 | the service's error text as concatenated by Java: the text itself, or "null" when the service sent none |
| `RedshiftData.FailureMessage` | src/main/java/org/example/RedshiftDataClientWrapper.java:78 | the exception message on "FAILED" is "Query failed: " followed by the error text, or by "null" when there is none |
| `RedshiftData.Poll` | src/main/java/org/example/RedshiftDataClientWrapper.java:70-89 | at most one poll per round; every round before the last poll is pending; the loop stops exactly at the first status-call error, "FINISHED", "FAILED" or interrupted sleep; a status-call error is passed on unchanged; Finished iff the last status seen is "FINISHED"; failure iff it is "FAILED", with message "Query failed: " + error; with no stopping round it polls every round and has no outcome |
| `RedshiftData.PollCount` | src/main/java/org/example/RedshiftDataClientWrapper.java:70-89 | when round k is the first to stop the loop, exactly k + 1 polls are made |
| `RedshiftData.NoPollAfterStop` | src/main/java/org/example/RedshiftDataClientWrapper.java:75-78 | after a terminal status no further answer is read: appending rounds changes neither outcome nor poll count |
| `RedshiftData.PendingRoundPolledPast` | src/main/java/org/example/RedshiftDataClientWrapper.java:79-88 | any other status followed by an uninterrupted sleep costs one poll and leaves the outcome to the next rounds |
| `RedshiftData.AbortedIsNotTerminal` | src/main/java/org/example/RedshiftDataClientWrapper.java:79-81 | any number of "ABORTED" answers are polled through without an outcome |
| `RedshiftData.PollScenarios` | src/main/java/org/example/RedshiftDataClientWrapper.java:74-81 | SUBMITTED, STARTED, FINISHED gives Finished after 3 polls; FAILED with "syntax error" gives "Query failed: syntax error" after 1 poll; a status-call error ends the loop after 1 poll with that error |
| `RedshiftData.RedshiftDataClientWrapper.CheckStatement` | src/main/java/org/example/RedshiftDataClientWrapper.java:69-90 | the loop's outcome and poll count are those of `Poll`, including an error raised by the status call; an unbuilt static client fails before any poll; the interrupt flag is set again exactly when the sleep was interrupted |
| `RedshiftData.RedshiftDataClientWrapper.constructor` | src/main/java/org/example/RedshiftDataClientWrapper.java:25-29 | the cluster id, database name and user are fixed at construction (constant fields) |
| `RedshiftData.RedshiftDataClientWrapper.StatementRequest` | src/main/java/org/example/RedshiftDataClientWrapper.java:58-63 | the request carries the wrapper's cluster, database and user and the SQL text unchanged |
| `RedshiftData.RedshiftDataClientWrapper.QueryRequest` | src/main/java/org/example/RedshiftDataClientWrapper.java:56-67 | the service sees exactly that request; its id or error reaches the caller unchanged; the synchronous client is built |
| `RedshiftData.RedshiftDataClientWrapper.QueryRequestAsync` | src/main/java/org/example/RedshiftDataClientWrapper.java:138-157 | the service's id is returned on success, and any failure becomes the id "" |
| `RedshiftData.RedshiftDataClientWrapper.GetDataClient` | src/main/java/org/example/RedshiftDataClientWrapper.java:31-46 | the synchronous client exists afterwards and the asynchronous one is untouched |
| `RedshiftData.RedshiftDataClientWrapper.GetAsyncDataClient` | src/main/java/org/example/RedshiftDataClientWrapper.java:114-136 | the asynchronous client exists afterwards and the synchronous one is untouched |
| `RedshiftData.RedshiftDataClientWrapper.GetResults` | src/main/java/org/example/RedshiftDataClientWrapper.java:93-103 | a fetch error propagates; otherwise the outcome is the presence guard's |
| `RedshiftData.ResultsPresent` | src/main/java/org/example/RedshiftDataClientWrapper.java:99-101 | fails with "No results found for query." exactly when the column metadata or the records are null |
| `RedshiftData.GuardAdmitsMisshapenResult` | src/main/java/org/example/RedshiftDataClientWrapper.java:99-101 | the guard lets through a result whose rows do not fit its column metadata, a result that `Materialize` would reject |

## Left out

- QueryResults.QueryResult.constructor: a row longer than the column metadata makes the source throw an index error. The constructor therefore requires every row to fit. The error itself is modelled by `Materialize`.
- `QueryResult.toJson` and `toString`: they delegate to Gson pretty-printing and Java collection formatting, which are foreign libraries.
- Field slots other than string, boolean, long, double and isNull (blob, array): the decoder never reads them. Like the double, they yield "" when they are the only slot set. The double is a `real`; it is carried but never read.
- Client configuration in `getDataClient`, `getAsyncDataClient` and `DependencyFactory.redshiftClient` (region, credentials, timeouts, retry mode, HTTP clients): SDK configuration. Only "the client now exists" is modelled. The two static fields become one shared `SdkClients` object passed to the wrapper.
- The network calls `executeStatement`, `describeStatement` and `getStatementResult`: replaced by oracle parameters. Each oracle answer is either a response or the error the call raised.
- `Thread.sleep` timing and all console output.
- `checkStatementAsync` and `getResultsAsync`: `CompletableFuture` chaining and scheduling. The async status rule is the same as the blocking loop's, except that its failure message is "The Query Failed. Ending program".
- `query` and `queryAsync`: they only call the submission methods, because the poll and fetch calls are commented out. `App.main` is an entry point with timing, and `Handler` is an empty stub.
- RedshiftData.RedshiftDataClientWrapper.QueryRequestAsync: the source returns a `CompletableFuture` and builds the asynchronous client inside the task it schedules. The model treats that future as already completed: the id and the built client are settled when the method returns.
- RedshiftData.RedshiftDataClientWrapper.CheckStatement: the real loop can run forever. The model sees a finite sequence of rounds and reports `StillPolling` when it runs out.

# Benchmark reporter core, modelled in Dafny

`cloudtest.js` reports benchmark results to a BigQuery-style table store.
This project models the deterministic part of that file:

- **Schema derivation** (`createTableConfig`, `HEADER_FIELDS`). A benchmark
  configuration and a table id become a table configuration. Its field list
  is the five header columns, then one `p_`-prefixed FLOAT column per
  parameter, then one `m_`-prefixed FLOAT column per metric
  (`schema.dfy`, module `Schema`).
- **Request shapes** for `tables.get`, `tables.insert` and
  `tabledata.insertAll`. Rows travel as `{json: row}` envelopes
  (`requests.dfy`, module `Requests`).
- **Lookup-or-create provisioning** (`getOrCreateTable`) and the
  `run` pipeline, against an abstract store (`provisioning.dfy`, module
  `Provisioning`). The store is a value: the existing tables with their
  fields, plus a log of every request received. Whether a call meets a
  transport or authorisation failure is a parameter of the call. The store's
  replies follow the BigQuery conventions: 404 for a missing table, 409 for a
  duplicate create.
- **Row insertion and error aggregation** (`insertRows`) (`insert.dfy`,
  module `Insert`). The store's reply is a parameter.
  A reply with `insertErrors` becomes one failure. Its message joins each
  entry's messages with line breaks, then joins the entries with line breaks.
- `Array.prototype.join` and its inverse `split` (`text.dfy`, module `Text`),
  plus the shared `Option`/`Result`/`Outcome` values (`results.dfy`) and
  opaque JSON rows (`json.dfy`).

Three behaviours of the code are easy to misread; the model follows the code:

- A lookup that fails for **any** reason leads to a create (`cloudtest.js:80`),
  not only a not-found. So a transient lookup failure on an existing table
  leads to a create that fails as a duplicate (`Provisioning.LookupFailureCreatesOnce`).
- An `insertErrors` array that is present but empty is truthy in JavaScript.
  The insert therefore fails with the empty message
  (`Insert.EmptyInsertErrorsFail`) rather than succeeding.
- Schema derivation does not check that names are unique. Instead,
  `Schema.ColumnNamesDistinct` states exactly when the column names come out
  distinct.

## Model

| member | source | states |
|---|---|---|
| Schema.CreateTableConfig | cloudtest.js:56-77 | project and dataset come from the reporter and the table id from the argument; the field list has 5 + params + metrics entries; its first five are exactly the header fields |
| Schema.DerivedColumnLayout | cloudtest.js:62-74 | after the header, parameter i is the FLOAT column `p_`+name and metric j the FLOAT column `m_`+name, with no description, all parameters before all metrics, in declaration order |
| Schema.HeaderColumnsInOrder | cloudtest.js:5-30 | the header columns are runId (STRING), index (INTEGER), creationTime (TIMESTAMP), browser (STRING), forceGc (BOOLEAN), in that order, and only creationTime has no description |
| Schema.HeaderNamesUnprefixed | cloudtest.js:5-30 | the five header names are distinct and none begins with `p_` or `m_` |
| Schema.DerivedNamePrefixed | cloudtest.js:65-71 | every derived name is its declared name behind the parameter prefix or the metric prefix |
| Schema.DerivedColumnsAvoidHeaders | cloudtest.js:5-74 | no parameter or metric column has the name of a header column |
| Schema.DerivedPairDiffers | cloudtest.js:63-74 | with distinct parameter names and distinct metric names, two derived columns at different positions have different names |
| Schema.ColumnPairDiffers | cloudtest.js:5-74 | with distinct declared names, any two columns of the table at different positions have different names |
| Schema.DistinctDeclaredGivesDistinctColumns | cloudtest.js:5-74 | distinct parameter names and distinct metric names make all column names distinct |
| Schema.DistinctColumnsGivesDistinctDeclared | cloudtest.js:63-74 | distinct column names imply distinct parameter names and distinct metric names |
| Schema.ColumnNamesDistinct | cloudtest.js:5-74 | column names are distinct if and only if the parameter names are distinct and the metric names are distinct |
| Schema.RecoverNamesRoundTrip | cloudtest.js:62-74 | the parameter names and metric names can be read back from the derived field list, in order: the derivation loses nothing |
| Schema.FieldsDeterminedByNames | cloudtest.js:56-77 | two configurations give the same field list if and only if they have the same parameter names and the same metrics; values, reporter and table id do not matter |
| Requests.GetTableRequest | cloudtest.js:102-109 | the lookup addresses (projectId, datasetId, table id) of the configuration |
| Requests.CreateTableRequest | cloudtest.js:115-133 | kind `bigquery#table`; the tableReference is the configured table; the URL project and dataset match it; `schema.fields` is the configured field list unchanged; the configuration can be read back from the request |
| Requests.WrapRows | cloudtest.js:148-152 | one `{json: row}` envelope per row, same length, same order |
| Requests.WrapRowsRoundTrip | cloudtest.js:148-152 | unwrapping the envelopes gives back the rows, and every envelope list is the wrapping of its rows |
| Requests.InsertAllRequest | cloudtest.js:139-154 | the insertAll request addresses the configured table, has kind `bigquery#tableDataInsertAllRequest` and carries exactly the given rows in order |
| Text.Join | cloudtest.js:159-163 | `Array.prototype.join`: an empty list joins to ""; otherwise the result is as long as all parts together plus one separator between each pair of neighbours |
| Text.JoinSplit | cloudtest.js:159-163 | splitting at the separator and joining again gives back any string |
| Text.SplitJoin | cloudtest.js:159-163 | joining a non-empty list of separator-free strings and splitting again gives back the list |
| Text.JoinContains | cloudtest.js:159-163 | every element of a joined list occurs inside the joined string |
| Insert.EntryMessage | cloudtest.js:160-162 | one entry's messages joined by line breaks: every message occurs in it, and when the entry has messages and none contains a line break, splitting at line breaks gives them back in order |
| Insert.CompositeMessage | cloudtest.js:159-163 | the failure message: no entries give ""; every message of every entry occurs in it |
| Insert.CompositeIsFlatJoin | cloudtest.js:159-163 | when no entry is empty, the two-level join equals one line-break join of all messages in order |
| Insert.CompositeMessageRecoverable | cloudtest.js:159-163 | when no entry is empty and no message contains a line break, splitting the failure message at line breaks gives back every message in order |
| Insert.InsertReplyOutcome | cloudtest.js:155-165 | the insert succeeds if and only if the reply arrives and has no `insertErrors`; a transport error passes through unchanged; otherwise the failure carries the composite message |
| Insert.TwoMessagesOneEntry | cloudtest.js:157-163 | `[{errors:[{message:'A'},{message:'B'}]}]` fails with `"A\nB"` |
| Insert.EmptyInsertErrorsFail | cloudtest.js:158-163 | a present but empty `insertErrors` fails with the empty message |
| Insert.InsertRows | cloudtest.js:139-166 | one request of kind `bigquery#tableDataInsertAllRequest` to the configured table carrying exactly the given rows in order; success if and only if the reply has no `insertErrors`; transport errors pass through; a reply with `insertErrors` fails with the composite message |
| Provisioning.GetOrCreateTable | cloudtest.js:79-84 | the request log only grows; existing tables are untouched; success means the table exists afterwards; success if and only if the lookup finds the table, or the table is absent and the create meets no failure |
| Provisioning.ProvisioningRequestCounts | cloudtest.js:79-84 | each call issues exactly one lookup, and one create exactly when the lookup did not find the table |
| Provisioning.LookupHitIssuesNoCreate | cloudtest.js:80 | a lookup that finds the table ends the call: no create, no table change, and the stored table (not compared with the configuration) is the result |
| Provisioning.LookupFailureCreatesOnce | cloudtest.js:80-83 | a lookup failing for any reason is followed by exactly one create with the configured reference and fields; the create's failure or success is the result |
| Provisioning.ProvisioningIdempotent | cloudtest.js:79-84 | after a successful call, a second call whose lookup meets no failure succeeds without a create; together they issue at most one create |
| Provisioning.FirstRunCreatesExactlyOnce | cloudtest.js:79-84 | two fault-free calls on a store without the table issue exactly one create, and the second returns the configured fields |
| Provisioning.Run | cloudtest.js:49-54 | the table id is `test`; a failed authentication is the result and no request reaches the store; otherwise provisioning runs, and on a fresh store without a create failure the table exists with the derived fields |

## Left out

- `authenticate` and JWT credentials (`cloudtest.js:86-100`) are foreign library calls. `Run` takes the authentication outcome as a parameter. The client object is not carried in the request records.
- The network calls `bigquery.tables.get`, `bigquery.tables.insert` and `bigquery.tabledata.insertAll` are not modelled as calls. The store's reaction is a function of an abstract store state plus a fault parameter, and the insertAll reply is a parameter.
- `makeNodeJsResolver` and the Q deferreds (`cloudtest.js:168-183`) are not modelled. In the source every error that passes through `makeNodeJsResolver` (the authorisation failure and the transport errors of `tables.get`, `tables.insert` and `insertAll`) is rejected as a `JSON.stringify` string (`cloudtest.js:178`). The `insertErrors` failure is thrown as the plain joined string (`cloudtest.js:159-163`), and a malformed entry throws a TypeError object. Here an error is an opaque `RemoteError` value that passes through unchanged, and row rejections are a separate `RowsRejected` case.
- The top-level `run({...})` invocation reads `CLOUD_SECRET_PATH` and logs to the console (`cloudtest.js:32-47`). This is I/O.
- Row values are opaque JSON maps. Numbers are integers and floating point is not modelled, because no arithmetic happens on them.
- The source has no concurrency control, so concurrent runs racing to create the same table are modelled only as a duplicate-create failure on a store where the table already exists. It also never checks that an existing table's schema matches, so the model does not either.
- Insert.InsertReplyOutcome: an `insertErrors` entry without an `errors` array, or an error without a `message`, is not modelled. In JavaScript the first throws a TypeError and the second joins as an empty line. Here every entry has an error list and every error has a message string.
- `Run` models only the provisioning in `run`. The source's `run` never calls `insertRows`, so the model does not chain them either.

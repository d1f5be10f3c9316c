# rptrc client core in Dafny

This project models the core of `rptrc`, the command-line client of the RPT
pooling-tooling service. It covers the following parts:

- **Retrying HTTP requests.** `request_retry` tries a request until it succeeds, until the
  service answers 400 or 500, or until a sleep budget runs out. The sleeps grow
  linearly (5, 10, 15 … seconds).
- **The `Base` error check.** A decoded response that mentions `"error"` is rejected.
- **The `Crud` helpers.** Each of GET, PUT, PATCH, POST and DELETE goes through the
  retry loop, and each response is decoded as JSON.
- **The `Requests` operator.**
  - Look up and abort a queued request.
  - Create a queued request: its `executionId` is cut down to one path segment.
  - Poll a request until it leaves the `Queued` state.
- **The `TestEnvironments` operator.**
  - Look up an environment by name or by id.
  - Three state changes.
  - Update the stage and the pool list.
  - Scan for environments in standby.
  - Find the freshest environment.
  - Compare versions.
- **The `Pools` operator.** Look up the environments of a pool, and replace one pool
  name by another in a list.
- **The `PropertyConverter`.**
  - Rename keys between `camelCase` and `UPPER_SNAKE_CASE`.
  - Rename the keys of nested dictionaries one level down.
- **The `ArtifactProperties` file.** It writes and reads a `key=value` file.
- **The exception classes** and the text they render.

The outside world becomes parameters:

- **The network** is a `Wire`: a function from attempt number to `Outcome`. An outcome
  is a received response, a proxy failure, or a raised exception. An operator that
  makes several requests gets a `Network`, which is one wire per request.
- **Effects.** Every operation returns an `Effect`: its result together with the
  `trace` of events it caused. An event is an HTTP call sent or a sleep of some
  seconds. The properties about calls and back-off are stated over this trace.
- **JSON decoding and encoding** is a `Codec` oracle (`loads`, `dumps`). Where a
  property needs it, it is assumed to round-trip on well-formed values, those whose
  objects have distinct keys at every depth (`RoundTrips`, `WellFormed`), as every
  value `json.loads` returns and every dict a Python caller builds does.
- **The file system** is a `FileSystem` object: a set of directories and a map from
  file path to contents. `generate` and `read` update it and the operator in place.

Python's exceptions become the `Error` datatype of `Exceptions`. An operation that
can raise returns a `Result`. Python dictionaries are insertion-ordered
association lists (`Dicts.Dict`); assigning an existing key keeps its position.

### Where the model follows the code rather than the documented design

- `handle_response_exception` (`request_retry.py:78-92`) raises on both 400 and 500.
  So a 500 aborts the retry loop instead of being retried.
- `calculate_max_retry_based_on_retry_timeout` (`request_retry.py:63-75`) counts
  attempts while the total sleep is `<=` the budget. It returns 0 for a negative
  budget. Otherwise it returns the least `k >= 1` with `5k(k+1)/2 >` budget.
- An unsupported verb raises `FatalException` inside the `try` of `request_retry`.
  That exception is absorbed as a failed attempt. So such a call sleeps through
  the whole budget and then reports the retries as exhausted.
- `update_list_of_pools` checks removal before addition. When the pool to remove
  and the pool to add are the same name, the result is the removal error if the
  name is absent, and the addition error if it is present.
- `convert_camelcase_to_uppercase` inserts `_` after a digit that is followed by a
  capital. So it leaves an `UPPER_SNAKE` string unchanged only when no digit
  comes right before a capital (`IsUpperSnake`).
- `convert_properties` on an empty dictionary never checks the conversion type.
  It returns the empty dictionary even for an invalid type.

## Model

| member | source | states |
|---|---|---|
| Exceptions.Render | rptrc/src/etc/exceptions.py:6-58 | A custom exception renders as "<Kind> Exception, <message>", or as "<Kind> Exception has been raised" without a message; a `FatalException` renders as its message |
| Exceptions.RenderParses | rptrc/src/etc/exceptions.py:6-51 | The rendered text of every custom exception can be parsed back to its kind and its message |
| Exceptions.RenderCustomInjective | rptrc/src/etc/exceptions.py:6-51 | Two custom exceptions with the same text have the same kind and the same (non-empty) message |
| Exceptions.ParseHit | rptrc/src/etc/exceptions.py:12-15 | Parsing the text of an exception as its own kind recovers its message |
| Exceptions.ParseSkip | rptrc/src/etc/exceptions.py:24-27 | A text that differs from a kind's prefix is never parsed as that kind |
| RequestRetry.VerbTimeout | rptrc/src/etc/request_retry.py:108-126 | Exactly GET, PATCH, PUT, POST and DELETE have a timeout; any other verb has none |
| RequestRetry.DispatchTable | rptrc/src/etc/request_retry.py:95-126 | GET and DELETE are sent without a body and with a 10 s timeout, PATCH and POST with the body and 20 s, PUT with the body and 5 s; any other verb sends nothing |
| RequestRetry.MakeRequestBasedOnInput | rptrc/src/etc/request_retry.py:95-129 | An unsupported verb raises the "not supported" fatal error; a proxy failure yields no response; a raised exception propagates; otherwise the received response is returned |
| RequestRetry.HandleResponseException | rptrc/src/etc/request_retry.py:78-92 | An error is raised exactly for status 400 or 500, with the bad-request and internal-server-error messages respectively |
| RequestRetry.Classify | rptrc/src/etc/request_retry.py:37-58 | An attempt succeeds exactly when a supported verb receives a success status, aborts exactly when it receives 400 or 500, and fails otherwise |
| RequestRetry.TotalSleepClosedForm | rptrc/src/etc/request_retry.py:59 | The first n back-off sleeps add up to 5·n(n+1)/2 seconds |
| RequestRetry.TotalSleepMonotonic | rptrc/src/etc/request_retry.py:71-74 | The total sleep grows strictly with the number of attempts |
| RequestRetry.MaxRetry | rptrc/src/etc/request_retry.py:63-75 | For a negative budget no attempt is made; otherwise the attempt count k is at least 1 and the budget lies in [TotalSleep(k-1), TotalSleep(k)) |
| RequestRetry.MaxRetryFrom | rptrc/src/etc/request_retry.py:71-74 | Counting on from any k whose previous sleeps fit the budget reaches the band that holds the budget |
| RequestRetry.MaxRetryUnique | rptrc/src/etc/request_retry.py:63-75 | The attempt count is the only k whose band holds the budget |
| RequestRetry.MaxRetryLeast | rptrc/src/etc/request_retry.py:71-74 | Every smaller attempt count still has its sleeps within the budget |
| RequestRetry.MaxRetryBands | rptrc/src/etc/request_retry.py:63-75 | Budgets 0-4 give one attempt, 5-14 two, 15-29 three |
| RequestRetry.CalculateMaxRetryBasedOnRetryTimeout | rptrc/src/etc/request_retry.py:63-75 | The loop returns 0 for a negative budget and otherwise the count whose band holds the budget |
| RequestRetry.FirstDecisive | rptrc/src/etc/request_retry.py:37-58 | Finds the first attempt that is not a plain failure; all earlier attempts failed |
| RequestRetry.RetryEffect | rptrc/src/etc/request_retry.py:19-60 | Definition without a contract of its own: `request_retry` as a value, the first attempt that succeeds or aborts decides, all attempts failing is exhaustion, no attempt allowed returns None; RequestRetry is proved equal to it and the Retry lemmas below state its properties |
| RequestRetry.RequestRetry | rptrc/src/etc/request_retry.py:19-60 | The imperative retry loop produces exactly the result and event trace of the specification `RetryEffect` |
| RequestRetry.Attempts | rptrc/src/etc/request_retry.py:37 | The number of attempts never exceeds the maximum, and is zero exactly when the budget is negative |
| RequestRetry.Backoff | rptrc/src/etc/request_retry.py:59 | There is one sleep per failed attempt |
| RequestRetry.BackoffGeometric | rptrc/src/etc/request_retry.py:59 | The i-th sleep lasts 5·(i+1) seconds, and the sleeps sum to the closed form |
| RequestRetry.TraceAppend | rptrc/src/etc/request_retry.py:37-59 | Calls and sleeps of a concatenated trace are the concatenation of each part's |
| RequestRetry.FailedAttemptsTrace | rptrc/src/etc/request_retry.py:37-59 | k failed attempts send the same call k times (none for an unsupported verb) and sleep the first k back-off steps |
| RequestRetry.RetryTraceShape | rptrc/src/etc/request_retry.py:19-60 | The trace is the failed attempts, each followed by its sleep, then the last call, with no sleep after it |
| RequestRetry.AttemptsSleeps | rptrc/src/etc/request_retry.py:59 | The sleeps of n failed attempts plus the final call are the first n back-off steps |
| RequestRetry.RetrySleeps | rptrc/src/etc/request_retry.py:37-59 | The loop sleeps the back-off of every attempt but the last, and never sleeps longer than the budget in total |
| RequestRetry.RetryCalls | rptrc/src/etc/request_retry.py:37-59 | Every attempt sends the same call, at most the maximum number of times, and an unsupported verb sends nothing |
| RequestRetry.RetrySucceedsOnlyOnSuccessStatus | rptrc/src/etc/request_retry.py:40-41 | A returned response has a success status, came from the last attempt, and every earlier attempt failed |
| RequestRetry.RetryReturnsNone | rptrc/src/etc/request_retry.py:35-60 | The result is "no response" exactly when the budget is negative, and then nothing is sent |
| RequestRetry.RetryAbortsOnErrorStatus | rptrc/src/etc/request_retry.py:45-49 | A 400 or 500 after k failures aborts with the matching error after exactly k+1 calls |
| RequestRetry.RetryExhausted | rptrc/src/etc/request_retry.py:52-55 | The "retries exhausted" error occurs exactly when every one of the (non-zero) attempts failed |
| RequestRetry.RetryUnsupportedVerb | rptrc/src/etc/request_retry.py:123-126 | An unsupported verb sends nothing, sleeps the whole back-off and ends with the exhausted error |
| RequestRetry.RetryFirstTrySucceeds | rptrc/src/etc/request_retry.py:40-41 | A success on the first attempt is returned after one call and no sleep |
| RequestRetry.ServerErrorWithOneSecondBudget | rptrc/src/etc/request_retry.py:89-92 | A GET answered 500 with a budget of one second aborts after one call with the server-error message |
| Base.RaiseExceptionIfErrorInResponse | rptrc/src/operators/base.py:16-26 | A response passes exactly when it does not contain "error"; one that contains it gives the "Error found" fatal error; a value `in` cannot search gives a type error |
| Base.ErrorCheckOnCollections | rptrc/src/operators/base.py:23-26 | An object is rejected exactly when it has an "error" key, a list exactly when it holds the string "error", with the "Error found in the request response." text |
| Base.ErrorBesideDataIsRejected | rptrc/src/operators/base.py:23-26 | An object with data and an "error" key is rejected |
| Base.CheckedOutcomes | rptrc/src/operators/base.py:16-26 | The check adds no events, passes errors through, and keeps a response only when it does not contain "error" |
| Base.Checked | rptrc/src/operators/pools.py:36-37 | Definition without a contract of its own: an operator's request followed by the "error" check with the operator's message; CheckedOutcomes states its properties |
| Crud.DetermineTargetHost | rptrc/src/operators/crud.py:24-34 | Development mode targets the staging host, otherwise the production host |
| Crud.NewCrud | rptrc/src/operators/crud.py:18-22 | A new helper targets the host for its mode and keeps the retry budget and the proxy |
| Crud.ConvertResponseToJson | rptrc/src/operators/crud.py:37-53 | No response gives an attribute error; an undecodable body gives the invalid-response error; otherwise the decoded body |
| Crud.ConvertRequestBodyStringToDict | rptrc/src/operators/crud.py:56-72 | A body string is accepted exactly when it decodes, and then as what it decodes to |
| Crud.InvalidBodySendsNothing | rptrc/src/operators/crud.py:86-126 | PUT, PATCH and POST with an undecodable body fail before sending anything |
| Crud.FetchCalls | rptrc/src/operators/crud.py:74-135 | Every call a helper sends is the dispatch of its verb, URL and body, at most the maximum number of times |
| Crud.SendBodyCalls | rptrc/src/operators/crud.py:86-126 | PUT, PATCH and POST send the decoded body |
| Crud.HelperCalls | rptrc/src/operators/crud.py:74-135 | get, delete, put, patch and post send their own verb, the URL, the right body and the right timeout |
| Crud.FetchResults | rptrc/src/operators/crud.py:74-84 | A decoded result comes from a success response of the last attempt; a negative budget fails with an attribute error before sending |
| Crud.Fetch | rptrc/src/operators/crud.py:74-84 | Definition without a contract of its own: one retry run with the verb, then the decoding of what it returns; FetchCalls and FetchResults state its properties |
| Crud.SendBody | rptrc/src/operators/crud.py:86-126 | Definition without a contract of its own: the body string is decoded first and nothing is sent when that fails; InvalidBodySendsNothing and SendBodyCalls state its properties |
| Crud.Get | rptrc/src/operators/crud.py:74-84 | Definition without a contract of its own: a GET run through Fetch with no body; HelperCalls states what it sends |
| Crud.Put | rptrc/src/operators/crud.py:86-98 | Definition without a contract of its own: a PUT run through SendBody; HelperCalls states what it sends |
| Crud.Patch | rptrc/src/operators/crud.py:100-112 | Definition without a contract of its own: a PATCH run through SendBody; HelperCalls states what it sends |
| Crud.Post | rptrc/src/operators/crud.py:114-126 | Definition without a contract of its own: a POST run through SendBody; HelperCalls states what it sends |
| Crud.Delete | rptrc/src/operators/crud.py:128-135 | Definition without a contract of its own: a DELETE run whose response is dropped undecoded; HelperCalls states what it sends |
| Requests.NewRequests | rptrc/src/operators/requests.py:17-22 | The requests and pipeline-function URLs hang off the target host, and the poll interval is 10 s |
| Requests.GetRequestWithId | rptrc/src/operators/requests.py:24-43 | Definition without a contract of its own: a GET of the request URL, an empty answer raising the not-found error, otherwise its first element; GetRequestWithIdOutcomes states its properties |
| Requests.AbortRequestById | rptrc/src/operators/requests.py:45-62 | Definition without a contract of its own: a PATCH of `{}` to the abort function followed by the error check; AbortRequestByIdOutcomes states its properties |
| Requests.GetRequestWithIdOutcomes | rptrc/src/operators/requests.py:24-43 | An empty list gives the not-found error, a non-empty list gives its first element, and only a non-empty answer is returned |
| Requests.GetRequestFirstTry | rptrc/src/operators/requests.py:24-43 | A one-element answer on the first try returns the element after one GET |
| Requests.AbortRequestByIdOutcomes | rptrc/src/operators/requests.py:45-62 | Aborting PATCHes `{}` to the queued-to-aborted function; an answer containing "error" gives the abort-failed error |
| Requests.WithExecutionId | rptrc/src/operators/requests.py:73-80 | The rewrite succeeds only on an object |
| Requests.ExecutionIdOf | rptrc/src/operators/requests.py:74-75 | Definition without a contract of its own: `body['requestorDetails']['executionId']`, a KeyError or TypeError when a level is missing; WithExecutionIdRejects states its failures |
| Requests.WithExecutionIdTakesSegment | rptrc/src/operators/requests.py:73-80 | The new executionId is the path segment at index 8 of the old one |
| Requests.WithExecutionIdChangesNothingElse | rptrc/src/operators/requests.py:73-80 | Every other key of the body and of its requestorDetails is unchanged, and no key is added |
| Requests.WithExecutionIdRejects | rptrc/src/operators/requests.py:73-80 | A missing executionId is a key error; one with fewer than eight slashes is an index error |
| Requests.PostQueuedRequest | rptrc/src/operators/requests.py:84-90 | Definition without a contract of its own: the rewritten body POSTed and an "error" answer rejected; PostQueuedRequestOutcomes states its properties |
| Requests.PostQueuedRequestOutcomes | rptrc/src/operators/requests.py:84-90 | For a well-formed body, the body is POSTed to the requests URL; an answer containing "error" gives the create-failed error, and a success is the unchecked answer |
| Requests.CreateQueuedRequest | rptrc/src/operators/requests.py:64-95 | A bad executionId leaves the body unchanged, sends nothing and gives the bad-body error; otherwise the body is rewritten in place and posted |
| Requests.Settle | rptrc/src/operators/requests.py:115-126 | A Timeout status gives the timed-out error, Aborted the aborted error, any other status the request itself |
| Requests.StillQueued | rptrc/src/operators/requests.py:108 | Definition without a contract of its own: the loop condition, a fetch that succeeded with the status `Queued`; PollWhileQueued states that the loop stops at the first fetch where it fails, and Settle what follows |
| Requests.PollWhileQueued | rptrc/src/operators/requests.py:108-112 | The loop stops at the first fetch that is not Queued, sleeping the poll interval between fetches |
| Requests.WaitForTheQueuedRequestBeResolved | rptrc/src/operators/requests.py:97-126 | The request is fetched until it is not Queued, and the last fetch is settled |
| Requests.PollTraceOfThree | rptrc/src/operators/requests.py:108-112 | Three fetches interleave with two sleeps |
| Requests.PollQueuedQueuedReserved | rptrc/src/operators/requests.py:97-126 | Queued, Queued, Reserved gives three GETs, two 10 s sleeps and the Reserved request |
| TestEnvironments.SelectCardinality | rptrc/src/operators/test_environments.py:24-70 | By name: none is not-found, several is ambiguous, one is returned; by id: none is not-found, otherwise the first |
| TestEnvironments.LookupsCheckErrorFirst | rptrc/src/operators/test_environments.py:24-70 | A lookup whose answer contains "error" fails with the retrieve-failed error |
| TestEnvironments.ChangeStateOutcomes | rptrc/src/operators/test_environments.py:72-127 | A state change PATCHes `{}` to its function with the environment's name; an "error" answer gives that change's failure message |
| TestEnvironments.StateChangesDistinct | rptrc/src/operators/test_environments.py:72-127 | The three state changes use distinct functions and distinct failure messages |
| TestEnvironments.PatchFieldBody | rptrc/src/operators/test_environments.py:129-154 | For a well-formed value, a field update PATCHes the one-key body holding it to the environment's URL |
| TestEnvironments.UpdateFieldLooksUpOnlyWithoutId | rptrc/src/operators/test_environments.py:129-154 | With an id only the PATCH is sent; without one the environment is looked up by name first, and a failed lookup stops there |
| TestEnvironments.RetrieveFreshestOutcomes | rptrc/src/operators/test_environments.py:180-202 | An empty answer gives the no-freshest error; a success is a non-empty answer without "error" |
| TestEnvironments.CheckVersionOutcomes | rptrc/src/operators/test_environments.py:232-243 | "true" exactly when the version matches, "false" exactly when it differs |
| TestEnvironments.ScanFindsStandby | rptrc/src/operators/test_environments.py:156-178 | The scan succeeds exactly when every lookup does, and then yields the standby ids |
| TestEnvironments.StandbyIdsMembers | rptrc/src/operators/test_environments.py:167-174 | An id is reported exactly when its lookup says it is in standby |
| TestEnvironments.ScanStep | rptrc/src/operators/test_environments.py:167-174 | Each step looks up one id, appends its events, and keeps it if it is in standby |
| TestEnvironments.ScanStopsAtError | rptrc/src/operators/test_environments.py:167-174 | The scan stops at the first failed lookup |
| TestEnvironments.SelectByName | rptrc/src/operators/test_environments.py:24-48 | Definition without a contract of its own: exactly one match is returned, none or several raise; SelectCardinality states its properties |
| TestEnvironments.SelectById | rptrc/src/operators/test_environments.py:50-70 | Definition without a contract of its own: the first match is returned, none raises; SelectCardinality states its properties |
| TestEnvironments.LookupByName | rptrc/src/operators/test_environments.py:24-48 | Definition without a contract of its own: a checked GET by name, then SelectByName; LookupsCheckErrorFirst states its properties |
| TestEnvironments.LookupById | rptrc/src/operators/test_environments.py:50-70 | Definition without a contract of its own: a checked GET by id, then SelectById; LookupsCheckErrorFirst states its properties |
| TestEnvironments.ChangeState | rptrc/src/operators/test_environments.py:72-127 | Definition without a contract of its own: a PATCH of `{}` to a pipeline function for the named environment, then the error check; ChangeStateOutcomes states its properties |
| TestEnvironments.PatchField | rptrc/src/operators/test_environments.py:129-154 | Definition without a contract of its own: a PATCH of a one-key body to the environment, then the error check; PatchFieldBody states its properties |
| TestEnvironments.UpdateField | rptrc/src/operators/test_environments.py:204-230 | Definition without a contract of its own: with no id the by-name lookup comes first and its id is used, then PatchField; UpdateFieldLooksUpOnlyWithoutId states its properties |
| TestEnvironments.RetrieveFreshest | rptrc/src/operators/test_environments.py:180-202 | Definition without a contract of its own: a checked GET of the freshest environment, an empty answer raising; RetrieveFreshestOutcomes states its properties |
| TestEnvironments.CheckVersion | rptrc/src/operators/test_environments.py:232-243 | Definition without a contract of its own: "true" or "false" from comparing the found environment's version; CheckVersionOutcomes states its properties |
| TestEnvironments.Scan | rptrc/src/operators/test_environments.py:166-174 | Definition without a contract of its own: the ids looked up in order, keeping the Standby ones, stopping at the first error; ScanFindsStandby and StandbyIdsMembers state its properties |
| TestEnvironments.FirstFailureSpec | rptrc/src/operators/test_environments.py:166-170 | Every id before the first failing index has a lookup that yields a status, and the one at that index, if any, does not |
| TestEnvironments.FailsAfterScannedPrefix | rptrc/src/operators/test_environments.py:166-170 | A failed lookup right after a prefix that scanned cleanly is the first failure |
| TestEnvironments.ScanFailsAtFirstFailure | rptrc/src/operators/test_environments.py:166-170 | The scan fails exactly when some lookup fails to yield a status |
| TestEnvironments.ScanAdvance | rptrc/src/operators/test_environments.py:166-174 | After a clean prefix, a failed lookup or a missing status ends the retrieval with that error and leaves that id stored; otherwise the id is kept exactly when it is Standby |
| TestEnvironments.ScanCompletes | rptrc/src/operators/test_environments.py:176-178 | A scan through all ids gives the no-standby error when none was kept, otherwise the kept ids, and leaves the last id stored |
| TestEnvironments.StandbyRetrievalOutcomes | rptrc/src/operators/test_environments.py:156-178 | The retrieval fails exactly at the first failing lookup with the scan's error; otherwise it gives the standby ids, or the no-standby error when there are none; the stored id is the failing id, the last id, or unchanged for an empty list |
| TestEnvironments.TestEnvironments.constructor | rptrc/src/operators/test_environments.py:16-22 | The environment and pipeline-function URLs hang off the target host, and the name and id are stored |
| TestEnvironments.TestEnvironments.RetrieveStandbyTestEnvironments | rptrc/src/operators/test_environments.py:156-178 | The result and the calls it makes are exactly StandbyRetrieval's; the stored id is StoredId, so a failed lookup leaves the failing id stored, a full scan the last id; the name is unchanged |
| TestEnvironments.TestEnvironments.RetrieveTestEnvironmentByName | rptrc/src/operators/test_environments.py:24-48 | Definition without a contract of its own: LookupByName with the stored URL and name; SelectCardinality and LookupsCheckErrorFirst state its properties |
| TestEnvironments.TestEnvironments.RetrieveTestEnvironmentById | rptrc/src/operators/test_environments.py:50-70 | Definition without a contract of its own: LookupById with the stored URL and id; SelectCardinality and LookupsCheckErrorFirst state its properties |
| TestEnvironments.TestEnvironments.UnreserveTestEnvironment | rptrc/src/operators/test_environments.py:72-89 | Definition without a contract of its own: ChangeState with the reserved-to-available function and its failure message; ChangeStateOutcomes and StateChangesDistinct state its properties |
| TestEnvironments.TestEnvironments.QuarantineTestEnvironment | rptrc/src/operators/test_environments.py:91-108 | Definition without a contract of its own: ChangeState with the reserved-to-quarantined function and its failure message; ChangeStateOutcomes and StateChangesDistinct state its properties |
| TestEnvironments.TestEnvironments.SetStandbyTestEnvironmentToAvailable | rptrc/src/operators/test_environments.py:110-127 | Definition without a contract of its own: ChangeState with the standby-to-available function and its failure message; ChangeStateOutcomes and StateChangesDistinct state its properties |
| TestEnvironments.TestEnvironments.UpdateTestEnvironmentStage | rptrc/src/operators/test_environments.py:129-154 | Definition without a contract of its own: UpdateField of the "stage" key with its failure message; PatchFieldBody and UpdateFieldLooksUpOnlyWithoutId state its properties |
| TestEnvironments.TestEnvironments.UpdateTestEnvironmentPool | rptrc/src/operators/test_environments.py:204-230 | Definition without a contract of its own: UpdateField of the "pools" key with its failure message; PatchFieldBody and UpdateFieldLooksUpOnlyWithoutId state its properties |
| TestEnvironments.TestEnvironments.RetrieveFreshestTestEnvironment | rptrc/src/operators/test_environments.py:180-202 | Definition without a contract of its own: RetrieveFreshest with the stored URL; RetrieveFreshestOutcomes states its properties |
| TestEnvironments.TestEnvironments.CheckIfTestEnvironmentOnSpecifiedVersion | rptrc/src/operators/test_environments.py:232-243 | Definition without a contract of its own: CheckVersion with the stored URL and name; CheckVersionOutcomes states its properties |
| TestEnvironments.StandbyRetrieval | rptrc/src/operators/test_environments.py:156-178 | Definition without a contract of its own: the scan, with the no-standby error when it finds none; StandbyRetrievalOutcomes states its properties |
| TestEnvironments.StoredId | rptrc/src/operators/test_environments.py:166-170 | Definition without a contract of its own: the id the loop leaves stored, the first failing id, else the last id, else the one stored before; StandbyRetrievalOutcomes states that it is one of the ids and which one |
| TestEnvironments.FirstFailure | rptrc/src/operators/test_environments.py:166-170 | The index of the first lookup that fails to yield a status lies between the start and the end of the id list |
| TestEnvironments.FirstFailureIs | rptrc/src/operators/test_environments.py:166-170 | A failing lookup preceded only by lookups that yield a status is the first failure |
| Pools.NewPools | rptrc/src/operators/pools.py:15-20 | The pool and pipeline-function URLs hang off the target host, and the pool name is kept |
| Pools.SelectAssigned | rptrc/src/operators/pools.py:22-51 | Succeeds exactly when the first pool has assigned environments, and returns them; no pool and no environments give their errors |
| Pools.RetrieveTestEnvironmentsByPoolOutcomes | rptrc/src/operators/pools.py:22-51 | One GET by pool name; an "error" answer gives the retrieve-failed error; a success is the assigned environments |
| Pools.SelectAssignedExamples | rptrc/src/operators/pools.py:22-51 | One pool with one environment, no pool, and an empty pool |
| Pools.RetrieveTestEnvironmentsByPool | rptrc/src/operators/pools.py:22-51 | Definition without a contract of its own: a checked GET of the pool by name, then its assigned ids; RetrieveTestEnvironmentsByPoolOutcomes states its properties |
| Pools.IndexOf | rptrc/src/operators/pools.py:76 | Finds the first occurrence of a present name |
| Pools.UpdatedPools | rptrc/src/operators/pools.py:54-78 | Definition without a contract of its own: the remove check, the add check, then the first pool to remove dropped and the new one appended; UpdatedPoolsContents, SamePoolFails and RepeatedUpdateFails state its properties |
| Pools.UpdatedPoolsContents | rptrc/src/operators/pools.py:65-78 | The new list has the same length, drops the first occurrence of the removed pool and ends with the added one |
| Pools.SamePoolFails | rptrc/src/operators/pools.py:65-74 | Replacing a pool by itself always fails |
| Pools.RepeatedUpdateFails | rptrc/src/operators/pools.py:65-74 | Repeating a successful update fails |
| Pools.UpdatedPoolsExamples | rptrc/src/operators/pools.py:65-78 | A replacement, a missing pool, and a pool that is already present |
| Pools.UpdateListOfPools | rptrc/src/operators/pools.py:53-78 | The array is updated in place to the new list and returned, or left unchanged with the error |
| Pools.RemoveAtAndAppend | rptrc/src/operators/pools.py:76-77 | Removing the element at a position and appending a new one leaves the elements before it, then those after it in their order, then the new element |
| PropertyConverter.MakeFirstLetterLowercase | rptrc/src/operators/property_converter.py:20-27 | Only the first character changes, and it is no longer a capital |
| PropertyConverter.EnsureValidConversionType | rptrc/src/operators/property_converter.py:30-38 | Accepts exactly the two conversion types |
| PropertyConverter.EnsureValueIsAString | rptrc/src/operators/property_converter.py:41-48 | Accepts exactly strings |
| PropertyConverter.DropUnderscores | rptrc/src/operators/property_converter.py:58-59 | The result has no underscores |
| PropertyConverter.LowerRun | rptrc/src/operators/property_converter.py:58 | Measures the maximal run of lower-case letters |
| PropertyConverter.SeparateWords | rptrc/src/operators/property_converter.py:58 | Definition without a contract of its own: the first substitution, `_` before a capital that starts a lowercase run; SeparateWordsOnlyInserts and SeparateWordsKeepsUpper state its properties |
| PropertyConverter.SeparateLowerUpper | rptrc/src/operators/property_converter.py:59 | Definition without a contract of its own: the second substitution, `_` between a lowercase letter or digit and a capital; SeparateLowerUpperOnlyInserts and SeparateLowerUpperKeepsUpper state its properties |
| PropertyConverter.CamelToUpper | rptrc/src/operators/property_converter.py:51-59 | Definition without a contract of its own: both substitutions, then upper-casing; CamelToUpperOnlyInserts, CamelToUpperKeepsUpperSnake and CamelToUpperOfWords state its properties |
| PropertyConverter.SeparateWordsOnlyInserts | rptrc/src/operators/property_converter.py:58 | The first substitution only inserts underscores |
| PropertyConverter.SeparateLowerUpperOnlyInserts | rptrc/src/operators/property_converter.py:59 | The second substitution only inserts underscores |
| PropertyConverter.CamelToUpperOnlyInserts | rptrc/src/operators/property_converter.py:51-59 | Apart from inserted underscores the result is the upper-cased input |
| PropertyConverter.CamelToUpperKeepsUpperSnake | rptrc/src/operators/property_converter.py:51-59 | An UPPER_SNAKE string with no digit before a capital is left unchanged |
| PropertyConverter.SeparateWordsKeepsUpper | rptrc/src/operators/property_converter.py:58 | A string without lower-case letters passes the first substitution unchanged |
| PropertyConverter.SeparateLowerUpperKeepsUpper | rptrc/src/operators/property_converter.py:59 | Such an UPPER_SNAKE string passes the second substitution unchanged |
| PropertyConverter.TitleFrom | rptrc/src/operators/property_converter.py:77 | Title-casing keeps the length, the non-letters and which characters are letters |
| PropertyConverter.Title | rptrc/src/operators/property_converter.py:77 | A titled word has the same length and no new non-letters |
| PropertyConverter.UpperToCamel | rptrc/src/operators/property_converter.py:61-78 | Definition without a contract of its own: a camel-case string is returned as is, otherwise the `_`-separated words are title-cased, joined and the first letter lowered; UpperToCamelShape, UpperToCamelOfSnake and UpperToCamelOfWords state its properties |
| PropertyConverter.UpperToCamelShape | rptrc/src/operators/property_converter.py:61-78 | A camelCase string is returned unchanged; anything else comes back without underscores and without a leading capital |
| PropertyConverter.ConcatAvoids | rptrc/src/operators/property_converter.py:77 | Joining parts without a character gives a string without it |
| PropertyConverter.ConvertString | rptrc/src/operators/property_converter.py:80-96 | A non-string gives the not-a-string error, then an invalid type gives the invalid-type error, otherwise the chosen conversion |
| PropertyConverter.ConversionErrorRendering | rptrc/src/operators/property_converter.py:80-96 | A conversion error renders as "Property Conversion Exception, <message>" |
| PropertyConverter.ConvertStringRenames | rptrc/src/operators/property_converter.py:80-96 | A key converts exactly when the type is valid, and converts by the type's renaming |
| PropertyConverter.PropertyConverter.constructor | rptrc/src/operators/property_converter.py:16-17 | Stores the properties |
| PropertyConverter.PropertyConverter.ConvertProperties | rptrc/src/operators/property_converter.py:98-118 | The loop computes `ConvertedProperties`; on success the properties are replaced by the result, on error they are unchanged |
| PropertyConverter.ConvertSubproperties | rptrc/src/operators/property_converter.py:110-115 | The keys of a nested dictionary are renamed and its values kept |
| PropertyConverter.RenameEntries | rptrc/src/operators/property_converter.py:107-115 | Definition without a contract of its own: the entries assigned in order into an empty dict under their new keys; RenameEntriesEntrywise and RenameEntriesStep state its properties |
| PropertyConverter.ConvertedProperties | rptrc/src/operators/property_converter.py:98-118 | Definition without a contract of its own: an empty dict converts to itself, an invalid type is an error, otherwise keys and nested keys are renamed; ConvertProperties is proved equal to it and ConvertTopEntrywise states its properties |
| PropertyConverter.RenameEntriesEntrywise | rptrc/src/operators/property_converter.py:107-116 | When renaming is injective on the keys, the result is the input renamed entry by entry, in order |
| PropertyConverter.ConvertTopEntrywise | rptrc/src/operators/property_converter.py:107-116 | The top level is renamed entry by entry, and nested dictionaries one level down |
| PropertyConverter.LastKeyFresh | rptrc/src/operators/property_converter.py:107-116 | Under injective renaming the last key's new name is not yet present |
| PropertyConverter.KeysAreFirsts | rptrc/src/operators/property_converter.py:107 | The keys of a dictionary are the first components of its entries |
| PropertyConverter.SetTwice | rptrc/src/operators/property_converter.py:113-116 | Assigning a key twice keeps the second value |
| PropertyConverter.RenameEntriesStep | rptrc/src/operators/property_converter.py:107-116 | One step of the loop assigns one renamed entry |
| PropertyConverter.ConvertTopStep | rptrc/src/operators/property_converter.py:107-116 | One step of the outer loop assigns one renamed and converted entry |
| PropertyConverter.ConvertKeysStep | rptrc/src/operators/property_converter.py:112-115 | One step of the inner loop assigns one renamed entry |
| PropertyConverter.CamelToUpperOfWords | rptrc/src/operators/property_converter.py:51-59 | A camelCase word sequence becomes its words upper-cased and joined by `_` |
| PropertyConverter.UpperToCamelOfSnake | rptrc/src/operators/property_converter.py:61-78 | Upper-cased words joined by `_` become the camelCase string |
| PropertyConverter.UpperToCamelOfWords | rptrc/src/operators/property_converter.py:51-78 | The two conversions are inverse on camelCase strings and on their UPPER_SNAKE forms |
| PropertyConverter.ConversionExamples | rptrc/src/operators/property_converter.py:51-78 | myStringToConvert and MY_STRING_TO_CONVERT convert into each other |
| ArtifactProperties.ArtifactProperties.constructor | rptrc/src/operators/artifact_properties.py:15-20 | Defaults: no pairs, /usr/src/app/out, artifact.properties, mode "w" |
| ArtifactProperties.ArtifactProperties.Generate | rptrc/src/operators/artifact_properties.py:22-39 | No or empty pairs give the key/value error and touch nothing; an empty directory name is an OS error that touches nothing; otherwise the directory is created if missing and the file gains one "key=value" line per pair, or the open fails: when the directory the file path lies in (the output directory, or the subdirectory a file name with `/` names) is not a directory, when the path is a directory or ends with `/` (an empty file name), or for another mode |
| ArtifactProperties.DirectoryOfPath | rptrc/src/operators/artifact_properties.py:34-35 | A file name without `/` is opened in the output directory it is joined to |
| ArtifactProperties.DirectoryOfSubdirectory | rptrc/src/operators/artifact_properties.py:34-35 | A file name naming a subdirectory is opened in that subdirectory of the output directory, so Generate needs it to exist |
| ArtifactProperties.DirectoryOf | rptrc/src/operators/artifact_properties.py:34-35 | Definition without a contract of its own: the text of a path before its last `/`; DirectoryOfPath and DirectoryOfSubdirectory state its properties |
| ArtifactProperties.WriteLines | rptrc/src/operators/artifact_properties.py:35-39 | The write loop leaves exactly the kept text plus the serialized pairs at the path |
| ArtifactProperties.Serialize | rptrc/src/operators/artifact_properties.py:37-39 | Definition without a contract of its own: one `key=value` line per pair in order, the value as `str()` writes it (a nested string by `repr`, with its quote choice and escapes); LinesOfSerialized and ReadBackWritten state its properties, and EntryOneLine that a pair stays on one line |
| ArtifactProperties.EntryOneLine | rptrc/src/operators/artifact_properties.py:39 | A pair is written on one line when its key and a string value hold no line break: nested values never add one |
| ArtifactProperties.ArtifactProperties.Read | rptrc/src/operators/artifact_properties.py:41-70 | Missing names and missing paths give their errors in the source's order; otherwise each line is stored as a pair, and a line without "=" stops with an index error |
| ArtifactProperties.ArtifactProperties.StoreLines | rptrc/src/operators/artifact_properties.py:63-68 | The read loop stores the specification `Merge` of the lines and reports whether every line parsed |
| ArtifactProperties.Lines | rptrc/src/operators/artifact_properties.py:65 | Iterating a file yields no empty line |
| ArtifactProperties.LinesConcat | rptrc/src/operators/artifact_properties.py:65 | The lines of a file join back to its text |
| ArtifactProperties.ParseLine | rptrc/src/operators/artifact_properties.py:66-68 | A line parses exactly when it has "=": the key is the text before the first "=", the value has no "=" |
| ArtifactProperties.ParseLineOfPair | rptrc/src/operators/artifact_properties.py:66-68 | A key, "=" and a value without "=" or trailing whitespace read back as exactly that key and value |
| ArtifactProperties.Merge | rptrc/src/operators/artifact_properties.py:65-68 | Definition without a contract of its own: the lines stored one after the other, stopping at the first without `=`; MergeEntries, MergeKeeps and MergeOverrides state its properties |
| ArtifactProperties.WrittenStep | rptrc/src/operators/artifact_properties.py:37-39 | Each write appends one line |
| ArtifactProperties.MergeStep | rptrc/src/operators/artifact_properties.py:65-68 | Each read step assigns one key |
| ArtifactProperties.NotAllParse | rptrc/src/operators/artifact_properties.py:66-67 | One bad line makes the read fail |
| ArtifactProperties.LinesOfSerialized | rptrc/src/operators/artifact_properties.py:35-39 | A written file reads back as exactly the lines written |
| ArtifactProperties.ParseEntry | rptrc/src/operators/artifact_properties.py:39 | A written line parses back to its key and its value text |
| ArtifactProperties.RStripNewline | rptrc/src/operators/artifact_properties.py:68 | Stripping removes the line end |
| ArtifactProperties.MergeEntries | rptrc/src/operators/artifact_properties.py:63-68 | Reading written lines with fresh keys appends them in order |
| ArtifactProperties.ReadBackWritten | rptrc/src/operators/artifact_properties.py:22-70 | Reading a generated file gives back every pair, its value as text, in order |
| ArtifactProperties.MergeKeeps | rptrc/src/operators/artifact_properties.py:68 | A key that no line names keeps its value |
| ArtifactProperties.MergeOverrides | rptrc/src/operators/artifact_properties.py:68 | The last line for a key sets its value |
| ArtifactProperties.GenerateExample | rptrc/src/operators/artifact_properties.py:39 | RESOURCE_NAME=env1 is written as one line |
| ArtifactProperties.ReadExample | rptrc/src/operators/artifact_properties.py:63-68 | KEY=VALUE is read as the pair (KEY, VALUE) |
| Text.Split | rptrc/src/operators/artifact_properties.py:66 | `str.split` gives at least one part and no part holds the separator |
| Text.SplitJoin | rptrc/src/operators/property_converter.py:77 | Splitting then joining gives back the string |
| Text.JoinSplit | rptrc/src/operators/property_converter.py:77 | Joining parts without the separator and then splitting gives back the parts |
| Text.RStrip | rptrc/src/operators/artifact_properties.py:68 | `rstrip` removes exactly the trailing whitespace, the characters Python's `str.isspace` accepts, Unicode spaces and separators included |
| Text.IsSpace | rptrc/src/operators/artifact_properties.py:68 | Definition without a contract of its own: the characters `str.isspace` accepts, Unicode spaces and separators included; RStrip states what is stripped |
| Text.Lower | rptrc/src/operators/property_converter.py:72 | Definition without a contract of its own: `str.lower` over ASCII letters; LowerOfUpper states that it undoes Upper on lowercase text |
| Text.Upper | rptrc/src/operators/property_converter.py:59 | Definition without a contract of its own: `str.upper` over ASCII letters; CamelToUpperOnlyInserts and CamelToUpperOfWords state the results |
| Dicts.Get | rptrc/src/operators/artifact_properties.py:68 | A lookup is absent exactly for a missing key |
| Dicts.Set | rptrc/src/operators/artifact_properties.py:68 | Assignment sets the key, keeps the others, and appends only a new key |
| Json.Contains | rptrc/src/operators/base.py:23 | `in` searches an object's keys, a list's items or a string's substrings, and raises on other values |
| Json.Truthy | rptrc/src/operators/requests.py:35 | Definition without a contract of its own: Python's truth value of a decoded value; GetRequestWithIdOutcomes states how an empty answer is treated |
| Json.Len | rptrc/src/operators/test_environments.py:40-44 | Definition without a contract of its own: `len` of an object, a list or a string, a TypeError otherwise; SelectCardinality and RetrieveFreshestOutcomes use it |
| Json.First | rptrc/src/operators/test_environments.py:48 | `value[0]` of a non-empty list is its first item |
| Json.Field | rptrc/src/operators/test_environments.py:170 | `value[key]` succeeds exactly for an object holding the key, and gives that key's value |
| Json.ToStr | rptrc/src/operators/artifact_properties.py:39 | Definition without a contract of its own: `str(value)`, a string as itself and any other value as its repr; EntryOneLine, QuoteExample and LineBreakItemExample state its text |
| Json.Repr | rptrc/src/operators/artifact_properties.py:39 | Definition without a contract of its own: `repr` of None, booleans, integers, strings, lists and dicts with Python's separators; ReprUnescaped, SingleMemberRepr and LineBreakItemExample state its properties |
| Json.StrRepr | rptrc/src/operators/artifact_properties.py:39 | A string's repr starts and ends with the quote Python picks (double only for a single quote without a double one), holds only printable characters, and is the string in single quotes when it needs no escape |
| Json.EscapeAll | rptrc/src/operators/artifact_properties.py:39 | Every escaped character is printable, and a string needing no escape is kept as is |
| Json.EscapeChar | rptrc/src/operators/artifact_properties.py:39 | Each character's escape holds only printable characters |
| Json.ReprUnescaped | rptrc/src/operators/artifact_properties.py:39 | Every character of any value's repr is printable, so a nested value never writes a line break |
| Json.SingleMemberRepr | rptrc/src/operators/artifact_properties.py:39 | A one-entry dict is `{` key repr `: ` value repr `}` |
| Json.QuoteExample | rptrc/src/operators/artifact_properties.py:39 | `repr("it's")` is `"it's"`, between double quotes |
| Json.LineBreakExample | rptrc/src/operators/artifact_properties.py:39 | A line break inside a string's repr is the two characters `\n` |
| Json.LineBreakItemExample | rptrc/src/operators/artifact_properties.py:39 | A list holding a string with a line break is written on one line |

## Left out

- Logging: it has no effect on results.
- Real network, time and file I/O. The network is the `Wire`/`Network` oracle, sleeping is a `Slept` event, and the file system is an object holding a set of directories and a map of files.
- JSON decoding and encoding is the `Codec` oracle. Its round trip is a stated assumption.
- Host configuration: `rptrc/src/configuration.py` is not part of this model. The hosts are parameters.
- The command-line front end `rptrc/src/app_cli.py` is not part of this model.
- Requests.WaitForTheQueuedRequestBeResolved: requires that some fetch is eventually not Queued. The source loops forever otherwise.
- Requests.PollWhileQueued: requires that some fetch is eventually not Queued, for the same reason.
- Case mapping covers ASCII letters only. Unicode case rules of `str.lower`, `str.upper`, `str.title` and the regex classes are not modelled.
- JSON numbers are integers (`Json.Num`). Floats that `json.loads` can return, and the text `str()` gives them when `generate` writes them, are not modelled.
- Dictionary keys are strings. Python allows other hashable keys; the service only sends strings.
- ArtifactProperties.ArtifactProperties.Generate: creates only the output directory itself, not missing parent directories as `os.makedirs` does.
- ArtifactProperties.ArtifactProperties.Generate: paths are compared as text and not normalised, so an output directory named with a trailing `/` or with `.` and `..` segments is a different directory from the same one named without them.
- ArtifactProperties.ArtifactProperties.Generate: open modes other than "w" and "a" are modelled as an OS error.
- Json.Repr: characters above U+00FF are written as themselves; `repr` writes those that Unicode does not class printable (U+2028, unassigned code points, …) as `\u` or `\U` escapes. Below U+0100 the escapes are Python's.
- ArtifactProperties.Serialize: a nested string holding a non-printable character above U+00FF is written with that character itself, where `str()` writes an escape (see Json.Repr); a key or a top-level string value holding a line break splits its pair over two lines, as in Python.
- ArtifactProperties.ArtifactProperties.Read: universal-newline translation of "\r" is not modelled.
- Exceptions raised by the HTTP library are one `Raised` outcome, whatever their class.

# Outbound email queue: job lifecycle model

A Dafny model of the queue core of an outbound-email service. Clients
enqueue emails as rows of one table; a long-running driver claims batches
of QUEUED rows, sends each through a provider and records the outcome;
a reconciliation pass asks the provider what became of every SENT row; two
sweeps rescue rows stuck in PROCESSING or SENT. The row lifecycle is
QUEUED → PROCESSING → SENT → DELIVERED, with FAILED reachable from the
send and from reconciliation, and QUEUED re-entered on a retryable failure.

The model is a set of pure functions over immutable values:

- `Statuses` — the five-case status enum and its string codes.
- `Php` — the few PHP semantics the core depends on: truthiness, the loose
  comparison a `switch` uses, `empty()` on strings, and int-to-string
  coercion with its parse round trip.
- `Store` — the emails table as `map<int, Job>` plus the next AUTO_INCREMENT
  value, and every repository statement: the five single-row UPDATEs, the
  INSERT, the two SELECTs and the two timeout sweeps. `NOW()` is the
  parameter `now`. A pass over a list of rows is a plan (one list of
  updates per row) applied in list order.
- `Providers` — the shared retry classifier, the result arrays of the mock
  and Brevo `send`, their delivery-status checks, and the inherited default
  check.
- `Worker` — `sendEmail`'s decision, the switch on a reported event, and
  the two reconciliation passes: the one in `src/` (queries by message id
  and stops at the first row without one) and the one in `Service/`
  (queries by idempotency key and skips a row without one).
- `StatusCache` — the in-memory status lookup by code and by id.
- `MockApi` — the mock provider's HTTP endpoint, with its own table keyed
  by idempotency key.
- `RoundTrip` — the mock client and endpoint together, seen from the
  reconciliation switch.
- `Driver` — the loop in `scripts/process-queue.php`: the three counters,
  the fixed order of steps in a cycle, and the claim-then-send of each
  fetched row.

Two consequences of the code that a reader might not expect:

- The retry budget. The worker requeues while `retries < QUEUE_MAX_RETRIES`
  and fails on the next failure, so a budget of `m` allows `m + 1` sends
  (`Worker.RetryBudget`).
- Terminal rows. No UPDATE checks the current status, so FAILED and
  DELIVERED rows are not guarded (`Store.UpdatesIgnoreStatus`). Within one
  sequential driver cycle, though, no step reaches a terminal row
  (`Driver.Cycle`).

The comment in the driver says the delivery check runs "every 2 cycles".
The counter test `$c++ >= 2` runs it on every third cycle, and the model
follows the test (`Driver.DriverCadence`).

## Model

| member | source | states |
|---|---|---|
| Statuses.CodeRoundTrip | constants/status_code.php:3-10 | each status has exactly one backing code, and the code maps back to that status |
| Php.ParseIntToString | src/EmailWorker.php:54 | an HTTP code stored as error text is a decimal string that reads back as the same integer |
| Php.IntToStringInjective | src/EmailWorker.php:54 | different codes give different error texts |
| Store.Transit | Repository/EmailRepository.php:25-99 | an update never touches the INSERT-only columns, sets the target status and `updated_at`, and adds at most one retry |
| Store.Apply | Repository/EmailRepository.php:25-99 | `WHERE id = ?` changes only that row, does nothing for an unknown id, and keeps keys, table validity, key uniqueness and retry counts |
| Store.SetSent | Repository/EmailRepository.php:25-40 | the row becomes SENT with one more retry and the given provider and message id, and nothing else changes |
| Store.SetFailed | Repository/EmailRepository.php:42-61 | the row becomes FAILED with one more retry and the given error, provider and message id (null by default), and nothing else changes |
| Store.SetQueued | Repository/EmailRepository.php:63-74 | the row goes back to QUEUED with one more retry, and nothing else changes |
| Store.SetProcessing | Repository/EmailRepository.php:76-87 | the row is claimed as PROCESSING and its retry count is kept |
| Store.SetDelivered | Repository/EmailRepository.php:89-99 | the row becomes DELIVERED and its retry count is kept |
| Store.UpdatesIgnoreStatus | Repository/EmailRepository.php:25-99 | the row an update writes does not depend on the status it had |
| Store.TerminalRowsAreNotGuarded | Repository/EmailRepository.php:63-87 | a FAILED or DELIVERED row can be requeued or claimed again |
| Store.AddEmail | Repository/EmailRepository.php:101-114 | a new key gives a fresh id holding a QUEUED row with zero retries and null provider columns; a key already present is rejected; validity and key uniqueness are kept |
| Store.EnqueueTwice | Repository/EmailRepository.php:101-114 | a second enqueue with the same key fails, and exactly one row carries the key |
| Store.Select | Repository/EmailRepository.php:12-23 | it lists the rows in the given status from a lower id upward, each stored as listed, in strictly increasing id order, with none missing |
| Store.GetTenEmails | Repository/EmailRepository.php:12-23 | at most ten QUEUED rows, each stored as listed, with distinct ids, and every QUEUED row when fewer than ten are returned |
| Store.SortPermutes | Repository/EmailRepository.php:116-126 | ordering by `updated_at` is a permutation of its input |
| Store.SortByUpdate | Repository/EmailRepository.php:116-126 | the result is ordered by `updated_at` and has the same length and members as the input |
| Store.SortKeepsDistinct | Repository/EmailRepository.php:116-126 | ordering keeps ids distinct |
| Store.GetSentEmails | Repository/EmailRepository.php:116-126 | every SENT row, each once and as stored, in ascending `updated_at` order |
| Store.CleanupProcessing | Repository/EmailRepository.php:128-149 | exactly the PROCESSING rows older than the timeout (60 seconds by default) go back to QUEUED without a retry; the count returned is the number of rows changed |
| Store.CleanupSent | Repository/EmailRepository.php:151-174 | exactly the SENT rows older than the timeout (9000 seconds by default) become FAILED with the timeout message and no retry; the count returned is the number of rows changed |
| Store.CleanupProcessingIdempotent | Repository/EmailRepository.php:128-149 | a second PROCESSING sweep at the same instant changes nothing and counts 0 |
| Store.CleanupSentIdempotent | Repository/EmailRepository.php:151-174 | a second SENT sweep at the same instant changes nothing and counts 0 |
| Store.ApplyPlan | src/EmailWorker.php:109-143 | a pass over listed rows touches only the rows it reached, and keeps validity, key uniqueness and retry counts |
| Store.ApplyPlanRow | src/EmailWorker.php:109-143 | with distinct ids, one reached row ends as its own updates applied in order, and a row past the end of the plan is left as it was |
| Store.ApplyPlanEffect | src/EmailWorker.php:109-143 | with distinct ids, each reached row ends as its own updates applied in order, and each row past the end is left as it was |
| Providers.ShouldRetry | EmailProvider/AbstractEmailProvider.php:17-38 | a code is retried exactly when it is not a 4xx other than 429 |
| Providers.ShouldRetryTable | EmailProvider/AbstractEmailProvider.php:17-38 | 429, 5xx, 3xx, 0, 2xx and negative codes are retried; 400, 404 and 499 are not |
| Providers.SendResultOf | EmailProvider/BrevoProvider.php:42-48 | success exactly on 201; the message id falls back to "unknown"; `errors` is `message`, else `error`; the provider name and HTTP code are carried |
| Providers.MockSendResult | EmailProvider/MockProvider.php:46-52 | the mock result succeeds exactly on 201 and always names the mock provider and a message id |
| Providers.BrevoSendResult | EmailProvider/BrevoProvider.php:42-48 | the Brevo result succeeds exactly on 201 and always names Brevo and a message id |
| Providers.SendResultsDifferOnlyInName | EmailProvider/MockProvider.php:46-52 | the mock and Brevo send results agree in every key but the provider name |
| Providers.DefaultCheckDeliveryStatus | EmailProvider/AbstractEmailProvider.php:41-49 | the inherited check always fails with the not-supported error and reports no event |
| Providers.MockProcessResponse | EmailProvider/MockProvider.php:84-101 | the result is the first terminal event, with its reason defaulted, and there is no event exactly when no event is terminal |
| Providers.BrevoProcessResponse | EmailProvider/BrevoProvider.php:80-95 | the result is the first event whatever its name, and there is no event for an empty list |
| Providers.CheckAfterHttp | EmailProvider/MockProvider.php:71-81 | a non-200 answer is a failed query with no event; a 200 answer is processed |
| Providers.MockCheckDeliveryStatus | EmailProvider/MockProvider.php:55-82 | the mock check succeeds exactly on HTTP 200 |
| Providers.BrevoCheckDeliveryStatus | EmailProvider/BrevoProvider.php:51-78 | the Brevo check succeeds exactly on HTTP 200 |
| Providers.ProvidersAgreeOnTerminalHead | EmailProvider/BrevoProvider.php:80-95 | when the first event is terminal, the two providers report the same |
| Providers.MockReportsOnlyTerminal | EmailProvider/MockProvider.php:84-97 | any event the mock reports is delivered, blocked or a bounce |
| Providers.BrevoHidesLaterDelivery | EmailProvider/BrevoProvider.php:82-88 | for every event list whose first event is not terminal but a later one is, Brevo reports the first event and the mock a terminal one, so the two differ |
| Providers.OpenedThenDelivered | EmailProvider/BrevoProvider.php:82-88 | example: on "opened" then "delivered", Brevo reports "opened" and the mock "delivered" |
| Worker.ErrorMessage | src/EmailWorker.php:44 | the error text is the first present of `errors`, `error` and `message`, else "unknown error" |
| Worker.Dispatch | src/EmailWorker.php:34-59 | SENT exactly when the success value loosely equals true; otherwise requeue exactly while the code is retryable and budget remains, and fail with the error text or with the HTTP code |
| Worker.SendEmail | src/EmailWorker.php:30-60 | one row changes and gains one retry; it is SENT exactly when the result succeeded, and never left PROCESSING |
| Worker.DispatchOnFailure | src/EmailWorker.php:42-55 | a 4xx other than 429 fails at once with its code as text; any other failure requeues exactly while budget remains |
| Worker.RetryBudget | src/EmailWorker.php:47-52 | under repeated retryable failures a fresh job is requeued until its count reaches the budget, then fails with count budget + 1 |
| Worker.EventOutcome | src/EmailWorker.php:125-139 | a failed query decides nothing; "delivered" delivers; a bounce fails with the reason, else "delivery failed"; other events decide nothing |
| Worker.SrcPlan | src/EmailWorker.php:109-143 | one decision per listed row in order, stopping after the first row without a message id |
| Worker.ServicePlan | Service/EmailWorker.php:110-146 | one decision per listed row, every row included |
| Worker.CheckDeliverySrc | src/EmailWorker.php:98-144 | only SENT rows change; validity, key uniqueness and retry counts are kept; with no SENT rows nothing changes |
| Worker.CheckDeliveryService | Service/EmailWorker.php:99-147 | only SENT rows change; validity, key uniqueness and retry counts are kept; with no SENT rows nothing changes |
| Worker.CheckDeliverySrcEffect | src/EmailWorker.php:109-143 | each SENT row up to the first without a message id gets its own decision, and later rows are untouched |
| Worker.MissingMessageIdStopsPass | src/EmailWorker.php:112-116 | the first SENT row without a message id is failed with the missing-id message, and no later row is touched |
| Worker.CheckDeliveryServiceEffect | Service/EmailWorker.php:110-146 | every SENT row gets its own decision, a missing key included |
| Worker.ServiceRowEffect | Service/EmailWorker.php:110-146 | one SENT row ends as its own decision, whatever the other rows are |
| Worker.ServiceKeyedByIdempotencyKey | Service/EmailWorker.php:113-119 | the second worker's decision depends only on the idempotency key |
| Worker.SrcKeyedByMessageId | src/EmailWorker.php:112-118 | the first worker's decision depends only on the message id |
| Worker.DefaultDecisions | EmailProvider/AbstractEmailProvider.php:41-49 | under the inherited check a decision is a missing-handle failure or nothing |
| Worker.DefaultServiceRow | Service/EmailWorker.php:113-124 | under the inherited check a SENT row is unchanged by the second worker's pass, or failed for a missing key |
| Worker.DefaultCheckResolvesNothingService | Service/EmailWorker.php:113-124 | under the inherited check the second worker's pass only fails rows without a key |
| Worker.DefaultCheckResolvesNothingSrc | src/EmailWorker.php:112-123 | under the inherited check the first worker's pass only fails rows without a message id |
| Worker.BounceClearsProviderColumns | Service/EmailWorker.php:133-138 | a bounce fails the row with the reported reason and nulls its provider and message id |
| Worker.BreakVersusContinue | src/EmailWorker.php:112-116 | after a row without handles, the first worker stops while the second still delivers the next row |
| StatusCache.Load | Service/StatusCache.php:37-44 | the cache keeps the rows in load order, and each index entry is filed under its own code or id |
| StatusCache.GetIdByCodeIsLast | Service/StatusCache.php:18-21 | a code resolves to the id of the last loaded row with that code, and to null when no row has it |
| StatusCache.GetCodeByIdIsLast | Service/StatusCache.php:23-26 | an id resolves to the code of the last loaded row with that id, and to null when no row has it |
| StatusCache.GetIdByEnumIsLast | Service/StatusCache.php:33-35 | an enum case resolves like its backing code |
| StatusCache.LookupsInverse | Service/StatusCache.php:18-26 | with unique ids and codes, the two lookups are inverse on every loaded row |
| StatusCache.EmptyCacheResolvesNothing | Service/StatusCache.php:13-16 | an empty cache resolves nothing and lists nothing |
| StatusCache.LastWriteWins | Service/StatusCache.php:39-43 | for any earlier rows, the row loaded last wins both the code and the id lookup, and every row stays listed |
| MockApi.MessageIdOf | provider/api.php:44 | a minted message id is non-empty, starts with "<provider-" and ends with ">" |
| MockApi.Serve | provider/api.php:20-85 | POST without a truthy key is a 400; POST with a known key answers 201 with the stored id; a new key is stored and answered; a 201 carries no events and no error; GET reports the stored status as one event or is a 404; anything else is a 400; stored rows never change |
| MockApi.ServeAll | provider/api.php:20-85 | a run of requests gets one response per request, and the i-th response is the endpoint's answer on the rows the first i requests left |
| MockApi.RepeatedPostsAgree | provider/api.php:31-41 | once a key is stored, every later POST with it answers 201 with the same message id, and the row never changes |
| MockApi.PostThenGet | provider/api.php:43-80 | a GET after storing a new key reports the stored status with the default reason, or 404 when the status id has no status row |
| MockApi.GetByOtherHandleNotFound | provider/api.php:57-70 | a GET for a string that is not a stored key is a 404 |
| RoundTrip.QueryByKeyDelivers | EmailProvider/MockProvider.php:55-101 | a row the endpoint accepted and queried by its key is marked delivered |
| RoundTrip.QueryByMessageIdResolvesNothing | src/EmailWorker.php:118 | queried by the message id the endpoint returned, the row is not found and nothing is decided (a hypothetical pairing: the `src/` worker is built from the factory, which has no mock case) |
| Driver.Advance | scripts/process-queue.php:37-41 | the gate fires exactly when the counter has reached the threshold; a firing tick resets the counter to 0 and any other tick adds one |
| Driver.Cadence | scripts/process-queue.php:27-55 | after n cycles a counter holds n mod (threshold + 1), so its step runs on exactly the multiples of threshold + 1 |
| Driver.DriverCadence | scripts/process-queue.php:37-55 | the SENT sweep runs on cycles 6, 12, …; the PROCESSING sweep and the delivery check on cycles 3, 6, … |
| Driver.GatesOf | scripts/process-queue.php:37-55 | each gated step runs exactly when its counter has reached its threshold |
| Driver.Housekeeping | scripts/process-queue.php:36-55 | the gated steps change only SENT and PROCESSING rows, keep validity, key uniqueness and retry counts, and change nothing when no gate fires |
| Driver.BatchSteps | scripts/process-queue.php:62-73 | every fetched row is claimed first; a send that returns adds `sendEmail`'s decision on its result, and a send that throws adds nothing |
| Driver.DispatchBatch | scripts/process-queue.php:57-73 | only QUEUED rows change; validity, key uniqueness and retry counts are kept |
| Driver.Cycle | scripts/process-queue.php:33-77 | a cycle keeps validity, keys, key uniqueness and retry counts, leaves every FAILED and DELIVERED row as it was, and advances the counters |
| Driver.DispatchBatchEffect | scripts/process-queue.php:62-73 | each fetched row is claimed, then carries `sendEmail`'s decision on the row as fetched, or stays PROCESSING when the send threw; unfetched rows are untouched |
| Driver.StaleSentTimesOut | scripts/process-queue.php:37-41 | on a cycle whose SENT sweep runs, a stale SENT row ends FAILED with the timeout message and its retry count |
| Driver.StuckProcessingRequeued | scripts/process-queue.php:44-48 | on a cycle whose PROCESSING sweep runs, a stale PROCESSING row is QUEUED again before the fetch, with its retry count |
| Driver.NoThrowLeavesNoClaim | scripts/process-queue.php:62-73 | when no send throws, no fetched row is left PROCESSING |

## Left out

- Concurrency. The model leaves out `FOR UPDATE SKIP LOCKED`, transactions and several workers sharing the table. It also leaves out the gap between `getTenEmails` and `setProcessing`. Every operation runs alone.
- Store.GetTenEmails: the query has no ORDER BY. The model returns QUEUED rows in ascending id order. Its contract promises only what any order gives: at most ten QUEUED rows, distinct, and all of them when fewer than ten.
- Store.GetSentEmails: rows with equal `updated_at` come in ascending id order. SQL leaves that order open.
- Store.AddEmail: a rejected insert leaves the table and the AUTO_INCREMENT counter unchanged. A real server may still use up an id.
- Store.AddEmail: the INSERT names only the key, address, subject, body, status and `updated_at`. Zero retries and null error, provider and message-id columns on a new row are assumed column defaults. The duplicate-key error assumes a unique index on `idempotency_key` compared byte for byte. No schema is part of this model, and a case-insensitive collation would also reject keys that differ only in case.
- PDO, MySQL and the network. Statement errors other than the duplicate key are not modelled.
- The curl calls, JSON encoding and decoding, and HTTP headers. The HTTP code and the decoded body are inputs.
- A 200 status answer whose body does not decode to an array. That raises a type error in the source and is not modelled.
- The Mailgun and Mailtrap providers and the provider factory. Mailtrap inherits the default check (`Providers.DefaultCheckDeliveryStatus`) and the shared classifier (`Providers.ShouldRetry`). Mailgun overrides both: its status check returns an empty array and it retries every code. Neither provider's `send` is modelled.
- `public/index.php`, `scripts/push-notif.php` and `Repository/StatusRepository.php`. The database loading of the status table and the `Service/` worker's own repository class are not part of this model. The `Service/` pass runs on the same `Store` functions.
- Logging, `prettyPrint`, `echo` and log files.
- `sleep`. One clock reading `now` serves a whole pass or cycle, so time does not advance inside a cycle.
- Environment configuration. `QUEUE_MAX_RETRIES`, `EMAIL_FROM` and the provider name are parameters.
- The exception path of `sendEmail` in the driver is an outcome of the send (`Driver.SendOutcome.Threw`). The exception raised by the unreachable `default:` branch of the switch is not modelled as a separate case.
- MockApi.Serve: the idempotency key in a POST body is taken to be a JSON string. Numbers and other JSON values are not modelled.
- MockApi.Serve: both lookups by `idempotency_key` (the SELECT before the insert and the GET) compare keys byte for byte. No schema or collation is part of this model. Under a case-insensitive collation, keys differing only in case would find the same row: a second POST would answer 201 with the first row's id, and a GET would answer 200 instead of 404. The same applies to MockApi.RepeatedPostsAgree and MockApi.GetByOtherHandleNotFound.
- MockApi.PostThenGet: the INSERT does not name `error_message`, so the column is taken to be NULL on a new row. That is why the GET reports the default reason "Provider delivery successful".
- StatusCache.Load: PHP turns a numeric-string code into an integer array key. Codes are taken to be non-numeric strings, as the enum's codes are.
- The mock provider's `send` result and its message id depend on the clock and a random UUID. These are the parameter `MockApi.Stamp`.

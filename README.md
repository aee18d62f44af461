# Background orchestration of a social-media manager, in Dafny

This project models the two background services of the server:

- the **token refresher** (`server/services/tokenRefresher.js`). Every hour, and once when it starts, it selects the active, unrevoked social accounts whose token expires within 24 hours. It tries to refresh each one through the refresher registered for the account's platform. Then it sends `token_expiring` alerts for accounts expiring within 72 hours. This alert sweep skips an account that already has a `token_expiring` alert from the last 24 hours. The no-refresher path of `refreshAccount` alerts with no such check (see below). It also offers a manual refresh for one user and provider.
- the **post scheduler** (`server/services/scheduler.js`). Every minute, and once when it starts, it moves every due post (`scheduled`, with its publish time reached) to `queued`. Each post is handled on its own: one post's failure does not stop the others.

Files:

- `base.dfy`: module `Base` holds `Option`, `Result` (a value, or a thrown error with its message) and `Millis`, the integer millisecond clock. Module `Timers` holds the `Job` class, which is a cron task or a `setInterval` handle with `stop()`.
- `token_refresher.dfy`: module `TokenRefresher`.
- `scheduler.dfy`: module `Scheduler`.

How the model is built:

- Collections are sequences in collection order.
- A save replaces the stored document with the same id.
- Each cycle is a method on a store class. A pure function specifies it, and the lemmas are stated about that function.
- A timer firing is a call of the service's `Tick`. It runs a cycle only while the job is active.
- Every external call can fail: save, the notification, every query except the manual refresh's account lookup, the provider refresher and `markQueued`. Each is an oracle passed in as a parameter. It either succeeds or throws an error with a message.
- The provider registry maps a platform to a function from an account to a reply. The registry as shipped, `ProviderRefreshers`, is empty.
- JavaScript truthiness is written out. A token counts only if it is present and non-empty. An expiry counts only if it is present and non-zero.

The model follows the code in these places, where it differs from what one might expect:

- With no refresher, the code creates the expiry notification with no look-back for earlier ones. So each hourly cycle alerts again for every refresh candidate (`ShippedRegistryAlertsEveryCandidate`).
- `refreshAccount` can throw: the save in its catch block can fail. That error leaves the cycle's single `try`. It skips the remaining candidates and the alert sweep (`EscapeEndsBatch`, `Cycle`).
- The manual refresh looks up the first account of that user and platform, whether it is active or revoked.
- The manual refresh lowercases the provider but compares it with the stored platform exactly. An account stored with a capital letter in its platform is never found (`CapitalisedPlatformNeverFound`).
- A save after a failed token save stores the new tokens with a `failed` status (`FailedTokenSaveKeepsNewTokens`).
- `stop` never clears the job handle. After a stop, `start` returns the stopped job and runs nothing (`StopIsFinal` in both modules).

Behaviour of code outside these files is stated as an assumption:

- `Post.findDuePosts(now)` returns the posts with status `scheduled` and `scheduledAt <= now`, in collection order.
- `post.markQueued()` sets that post's status to `queued`, or throws and changes nothing.
- `Notification.notifyTokenExpiring` appends one `token_expiring` notification. It names the user, the account (as its reference), the platform and the expiry, and is created now.

## Model

| member | source | states |
|---|---|---|
| `Timers.Job.Stop` | server/services/tokenRefresher.js:117-123 | stopping a job ends its firings; stopping twice is harmless |
| `TokenRefresher.SelectExpiring` | server/services/tokenRefresher.js:67-71 | the account query keeps exactly the active, unrevoked accounts with an expiry at or before the window's end, in collection order with none repeated (a subsequence of the collection) |
| `TokenRefresher.FindAccountsToRefresh` | server/services/tokenRefresher.js:63-72 | an account is a refresh candidate iff it is active, not revoked, and has an expiry at most 24 h from now; expired tokens are included, accounts with no expiry never are |
| `TokenRefresher.FindAccountsExpiringSoon` | server/services/tokenRefresher.js:75-83 | the same selection with a 72 h look-ahead |
| `TokenRefresher.Lookup` | server/services/tokenRefresher.js:14 | the registry lookup finds nothing exactly when the platform has no entry, and otherwise that entry's refresher |
| `TokenRefresher.RefreshCandidatesAreAlertCandidates` | server/services/tokenRefresher.js:63-83 | at one instant every refresh candidate is an alert candidate, and the refresh candidates keep the alert query's order (a subsequence) |
| `TokenRefresher.RefreshStep` | server/services/tokenRefresher.js:12-55 | on every path: owner, platform and flags never change; true iff a refresher returned an access token and it was saved, and then the account is idle, error-free and synced now; every other saved outcome is failed with an error; a notification only on the no-refresher path; an error escapes only from the catch block's save; without new tokens the token fields stay as they were |
| `TokenRefresher.NoRefresherOutcome` | server/services/tokenRefresher.js:16-30 | no refresher: status failed, the error names the provider, an expiry notification is created, result false |
| `TokenRefresher.RenewedOutcome` | server/services/tokenRefresher.js:33-43 | tokens returned: the access token is replaced; the refresh token and expiry change only when supplied; idle, error cleared, synced now, result true; a refresh selection at any later instant whose 24 h window ends before the new expiry does not pick the account |
| `TokenRefresher.NoTokensOutcome` | server/services/tokenRefresher.js:45-48 | no access token returned: failed with 'Refresher returned no tokens', tokens untouched, result false |
| `TokenRefresher.ThrewOutcome` | server/services/tokenRefresher.js:49-54 | the refresher throws: failed with the thrown message, no notification, result false |
| `TokenRefresher.FailedTokenSaveKeepsNewTokens` | server/services/tokenRefresher.js:35-53 | when the save of new tokens fails, the catch block stores the new tokens marked failed with the save's error, and returns false |
| `TokenRefresher.ShippedRegistryNeverRenews` | server/services/tokenRefresher.js:8-16 | with the empty registry no refresh ever succeeds, and every saved account is failed |
| `TokenRefresher.Put` | server/services/tokenRefresher.js:20 | a save keeps every stored id in place, stores the document under its own id, and leaves every other document as it was |
| `TokenRefresher.Lower` | server/services/tokenRefresher.js:58 | lowercasing keeps the length, turns each capital A-Z into its lowercase letter, keeps every other character, and leaves no capital letter |
| `TokenRefresher.LowerIsLowercase` | server/services/tokenRefresher.js:58 | a lowercased provider name has no capital letter, and lowercasing it again changes nothing |
| `TokenRefresher.FindOwned` | server/services/tokenRefresher.js:58 | the lookup finds the first account of that user on that platform, whatever its active and revoked flags, or reports that none exists |
| `TokenRefresher.CapitalisedPlatformNeverFound` | server/services/tokenRefresher.js:58 | an account stored with a capital letter in its platform is never found by a manual refresh |
| `TokenRefresher.CaseVariantFound` | server/services/tokenRefresher.js:58 | a requested provider that differs from a lowercase stored platform only in the case of its letters finds an account of that user |
| `TokenRefresher.ManualRefresh` | server/services/tokenRefresher.js:57-61 | no match gives the error 'Social account not found' and changes nothing, which is distinct from a false result; otherwise the first account of that user on the lowercased platform, in collection order, is refreshed and its result returned |
| `TokenRefresher.FindRecentAlert` | server/services/tokenRefresher.js:93-98 | the look-back query returns a stored token-expiring alert for that account and user from the last 24 h, and returns nothing exactly when none exists |
| `TokenRefresher.AlertLoop` | server/services/tokenRefresher.js:91-109 | the alert loop only appends: the earlier notifications stay as they were |
| `TokenRefresher.AlertLoopAlertsOnlyCandidates` | server/services/tokenRefresher.js:100-107 | every notification the alert loop adds is an expiry alert created now for one of the candidates |
| `TokenRefresher.AlertLoopAlertsOnlyUnalerted` | server/services/tokenRefresher.js:93-106 | each alert the loop adds is for an account that had no token-expiring alert from the last 24 h before it |
| `TokenRefresher.NoAlertForRecentlyAlerted` | server/services/tokenRefresher.js:93-100 | an account that already has an alert from the last 24 h gets no new alert from the loop |
| `TokenRefresher.AlertLoopAlertsEachAccountOnce` | server/services/tokenRefresher.js:91-109 | one sweep alerts each account at most once: no two added alerts name the same user and account |
| `TokenRefresher.AlertSweep` | server/services/tokenRefresher.js:86-113 | the sweep never throws; an error in the candidate query creates nothing; otherwise alerts are only appended, and none is added for an account alerted in the last 24 h |
| `TokenRefresher.SweepCoversCandidates` | server/services/tokenRefresher.js:93-108 | after a sweep with no errors, every candidate has a token-expiring alert from the last 24 h |
| `TokenRefresher.SweepOfAlertedIsIdle` | server/services/tokenRefresher.js:93-100 | candidates that all have a recent alert get no new one, whatever errors occur |
| `TokenRefresher.AlertSweepIsIdempotent` | server/services/tokenRefresher.js:86-113 | a second alert sweep at the same instant creates nothing |
| `TokenRefresher.LookupErrorStopsSweep` | server/services/tokenRefresher.js:91-112 | an error looking up one candidate ends the sweep there, and later candidates get no alert |
| `TokenRefresher.NotifyErrorStopsSweep` | server/services/tokenRefresher.js:100-112 | a failing notification for one candidate ends the sweep there, and later candidates get no alert |
| `TokenRefresher.RefreshBatch` | server/services/tokenRefresher.js:133-135 | the refresh loop keeps every stored id in place and only appends notifications; with no candidates it changes nothing |
| `TokenRefresher.RefreshBatchKeepsOthers` | server/services/tokenRefresher.js:133-135 | accounts that are not refresh candidates are never written |
| `TokenRefresher.RefreshBatchWritesEachCandidate` | server/services/tokenRefresher.js:133-135 | after a batch from which no error escaped, each candidate's stored document is exactly the one its own refresh step saved, whatever happened to the others |
| `TokenRefresher.EscapeEndsBatch` | server/services/tokenRefresher.js:129-142 | an error escaping one candidate's refresh ends the batch at that candidate |
| `TokenRefresher.ShippedRegistryAlertsEveryCandidate` | server/services/tokenRefresher.js:23-28 | with the empty registry and no errors, every refresh candidate gets a new alert, in order, whatever alerts already exist |
| `TokenRefresher.Cycle` | server/services/tokenRefresher.js:128-143 | a cycle keeps every stored id in place; a query error changes nothing; otherwise the candidates are refreshed, an error escaping a refresh ends the cycle before the alerts, and with no escape the alert sweep runs on the refreshed collection; nothing propagates |
| `TokenRefresher.CycleWritesEachCandidate` | server/services/tokenRefresher.js:129-139 | with unique account ids, a cycle that reaches the alert sweep has stored, for every refresh candidate, the document its own refresh step saved |
| `TokenRefresher.AccountStore.Save` | server/services/tokenRefresher.js:20 | a save either throws or replaces the stored document with the same id, and no two accounts ever share an id |
| `TokenRefresher.AccountStore.NotifyTokenExpiring` | server/services/tokenRefresher.js:23-28 | either throws or appends one expiry alert for the account |
| `TokenRefresher.PutKeepsUniqueIds` | server/services/tokenRefresher.js:20 | a save keeps the collection's rule that no two accounts share an id |
| `TokenRefresher.AccountStore.SaveFailure` | server/services/tokenRefresher.js:49-54 | the catch block stores the document marked failed with the error's message and returns false, or, when that save throws, changes nothing and lets the error escape |
| `TokenRefresher.AccountStore.RefreshAccount` | server/services/tokenRefresher.js:12-55 | the in-place update and saves leave exactly the state and result that `RefreshStep` gives, and ids stay unique |
| `TokenRefresher.AccountStore.RefreshAccountForUserProvider` | server/services/tokenRefresher.js:57-61 | leaves exactly the state and result that `ManualRefresh` gives |
| `TokenRefresher.AccountStore.SendExpiryAlerts` | server/services/tokenRefresher.js:86-113 | leaves the accounts alone and the notifications that `AlertSweep` gives |
| `TokenRefresher.AccountStore.RefreshCandidates` | server/services/tokenRefresher.js:133-135 | the loop gives the state and escaping error that `RefreshBatch` gives |
| `TokenRefresher.AccountStore.RunCycle` | server/services/tokenRefresher.js:128-143 | one run of the job body leaves the state that `Cycle` gives, and ids stay unique, so `CycleWritesEachCandidate` applies to every run |
| `TokenRefresher.RefresherService.Start` | server/services/tokenRefresher.js:125-160 | start is idempotent: with a job set it returns that job and runs nothing; otherwise it creates an active hourly job and runs one cycle at once |
| `TokenRefresher.RefresherService.Stop` | server/services/tokenRefresher.js:162-164 | stop deactivates the job and keeps the handle |
| `TokenRefresher.RefresherService.Tick` | server/services/tokenRefresher.js:117-119 | a firing runs a cycle only while the job is active |
| `TokenRefresher.StopIsFinal` | server/services/tokenRefresher.js:125-164 | after a stop, a start returns the stopped job, and later firings change nothing |
| `Scheduler.FindDuePosts` | server/services/scheduler.js:9 | the due query returns exactly the scheduled posts whose time has come, in collection order with none repeated (a subsequence of the collection) |
| `Scheduler.MarkQueued` | server/services/scheduler.js:14 | queueing a post changes only the status of the stored post with that id, which becomes queued |
| `Scheduler.QueueEach` | server/services/scheduler.js:12-19 | the loop keeps the collection's size |
| `Scheduler.QueueEachOnlyQueues` | server/services/scheduler.js:12-19 | the loop changes no field but the status, and every status it changes becomes queued |
| `Scheduler.AttemptsOf` | server/services/scheduler.js:12-19 | one attempt per due post, in list order, and it succeeds exactly when that post's queueing does not throw |
| `Scheduler.Cycle` | server/services/scheduler.js:6-23 | a query error changes nothing and attempts nothing; otherwise there is exactly one attempt per due post, in order, and exactly the due posts whose attempt succeeds become queued, all others unchanged |
| `Scheduler.QueueEachAt` | server/services/scheduler.js:12-19 | post by post, the loop queues exactly the posts whose id is among the due ids and whose queueing did not fail |
| `Scheduler.QueueEachSettles` | server/services/scheduler.js:12-19 | over the due list, the by-id loop equals the post-by-post reference definition, so a failure on one post does not affect the others |
| `Scheduler.NextCycleRetriesFailures` | server/services/scheduler.js:13-18 | after a cycle, the posts still due are exactly those whose queueing failed, in order |
| `Scheduler.SecondCycleIsIdle` | server/services/scheduler.js:9-18 | a second cycle at the same instant after one with no failures attempts nothing and changes nothing |
| `Scheduler.PostStore.MarkQueuedPost` | server/services/scheduler.js:14 | queueing either throws or sets the stored post's status to queued, and post ids stay unique |
| `Scheduler.PostStore.QueueDue` | server/services/scheduler.js:12-19 | the loop's effects and attempt log are those of the by-id specification, and post ids stay unique |
| `Scheduler.PostStore.ProcessDuePosts` | server/services/scheduler.js:6-23 | leaves exactly the posts and attempts that `Cycle` gives |
| `Scheduler.SchedulerService.Start` | server/services/scheduler.js:25-38 | start is idempotent: with a job set it returns that job and runs nothing; otherwise it creates an active per-minute job and runs one cycle at once |
| `Scheduler.SchedulerService.Stop` | server/services/scheduler.js:40-42 | stop deactivates the job and keeps the handle |
| `Scheduler.SchedulerService.Tick` | server/services/scheduler.js:29-31 | a firing runs a cycle only while the job is active |
| `Scheduler.StopIsFinal` | server/services/scheduler.js:25-42 | after a stop, a start returns the stopped job, and later firings change nothing |

## Left out

- Real timers (`setInterval`, `node-cron`), `async`/`await` and overlapping cycles are not modelled. A firing is a sequential call. The start-up run finishes before `Start` returns, although the code does not await it.
- Console logging is left out. The scheduler's per-post log lines are kept as the returned attempt list.
- The clock is read once per cycle. The source calls `Date.now()` several times in one cycle, and that drift is not modelled.
- Mongoose saves only the changed paths, while the model writes the whole document. With a single writer, the two give the same result.
- MongoDB query semantics are reduced to filters over the collection order: documents with missing or null fields, and type coercion, are left out.
- `new Date(result.tokenExpiresAt)` is modelled for a millisecond number only. String and `Date` inputs are left out.
- RefreshStep: a refresher is assumed to throw an `Error` with a string message. A thrown string or plain object would store an undefined `syncError`. A rejection with `undefined` or `null` would make reading `err.message` throw a TypeError, which leaves `refreshAccount` and ends the batch like a failing save in the catch block. Neither case is modelled.
- RefreshStep: a refresher is a function of the account, so it cannot change the document it is given. The JavaScript refresher receives the live document and could change it before the save.
- Lower: only the ASCII letters are lowercased. JavaScript's `toLowerCase` also lowercases other Unicode letters.
- Lookup: the registry is a map, so it has no key like `constructor` or `toString`. A JavaScript object inherits those from its prototype.
- ManualRefresh: an error of the account lookup query itself is not modelled. It would propagate to the caller unchanged.
- The concrete provider refreshers are not modelled (`server/services/providers/twitter.js` is a placeholder), and neither are the bodies of `Post.findDuePosts`, `post.markQueued` and `Notification.notifyTokenExpiring`. Their behaviour is the assumption stated above.
- The client pages, hooks and components, the analytics controller, the dashboard and social routes, the `Link` schema and the build configuration are not part of this model. They are UI, routing, mock data or declarations, with no state machine.

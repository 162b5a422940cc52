# esjc operation manager, write-operation inspection and static discovery, in Dafny

This project models three parts of the esjc EventStore client for Java.

- **The operation manager.** It is the client's request scheduler and retry engine. It keeps three collections:
  - an active table of sent requests, keyed by correlation id;
  - a FIFO queue of requests waiting for a free slot under `maxConcurrentOperations`;
  - a list of requests parked for a retry.

  It also caches a total count. It dispatches waiting requests on a channel, sweeps the table for requests that are stale or that got no response, and retries them under fresh correlation ids up to each request's retry ceiling. A closed connection fails everything it tracks.
- **The response tables of the delete-stream and commit-transaction operations.** These map a server result code to a decision for the manager and a completion of the operation's future. They also turn a response into its public result.
- **The static endpoint discoverer.** It offers one configured address as either the plaintext or the TLS endpoint.

Modules:

| file | module | what it holds |
|---|---|---|
| `wrappers.dfy` | `Wrappers` | `Option`, `Result` |
| `operation_items.dfy` | `OperationItems` | the item record and the pure specification of the manager's steps. The steps are the sweep verdict `Classify`/`Marked`, the retry ceiling `Exhausted`/`Retained`/`LimitFailures`, the queue drain `Drain` and the retry renewal `Renewed`. It also holds the lemmas about them. |
| `manager_invariant.dfy` | `ManagerInvariant` | the manager's invariant and one lemma per state update that keeps it |
| `operation_manager.dfy` | `OperationManagement` | the class `OperationManager`, with one method per Java method plus helpers for their loops and queue calls. Each method is proved against the functions of `OperationItems`. |
| `sorting.dfy` | `Sorting` | the sort standing for `stream().sorted()` |
| `inspection.dfy` | `Inspection` | result codes, decisions and completions, and the result-code table both write operations share |
| `delete_stream_operation.dfy`, `commit_transaction_operation.dfy` | `DeleteStreamOperation`, `CommitTransactionOperation` | `Inspect` and `Transform` for each operation |
| `static_end_point_discoverer.dfy` | `StaticEndPointDiscoverer` | the constructor and `discover` |

How the manager is modelled:

- Items are values. Java mutates an `OperationItem` object in place, but every place that holds an item in the table, the queue or the parked list is reassigned here.
- `fail(...)` on an operation is an entry appended to the ghost log `failures`.
- `writeAndFlush` is an entry appended to the ghost log `sent`.
- A channel is an `Option<ChannelId>`, where `None` stands for `null`. The null check throws `NullPointerException`, which is returned as `thrown`.
- The clock is an integer `now`.
- `UUID.randomUUID()` is the counter `nextId` (`NewCorrelationId`). The invariant `IdsBelow` keeps the counter above every correlation id the manager tracks or has sent. Every admitted item moves it forward (`Bumped`). So a renewed id is new, and callers do not have to promise unique ids.
- The iteration order of `activeOperations.values()` is not specified. `ActiveValues` picks the keys in an arbitrary order, and the methods that iterate return that order as a ghost `snapshot`, so their contracts can name it.

`OperationManager.Valid()` is the invariant every method keeps. It states:

- each table entry sits under its item's own id and was sent;
- the table never holds more than `maxConcurrentOperations` entries (or none when the cap is not positive);
- every parked item is below its retry ceiling;
- the id supply is ahead of every id tracked or sent.

## Model

| member | source | states |
|---|---|---|
| OperationManagement.OperationManager.constructor | src/main/java/com/github/msemys/esjc/operation/manager/OperationManager.java:21-30 | A new manager has an empty table, queue and retry list, a count of 0 and empty logs, and it satisfies the invariant. |
| OperationManagement.OperationManager.GetActiveOperation | src/main/java/com/github/msemys/esjc/operation/manager/OperationManager.java:32-34 | Returns Some exactly when the id is in the table. The item it returns is that entry, carries that id, and has been sent on a channel. |
| OperationManagement.OperationManager.TotalOperationCount | src/main/java/com/github/msemys/esjc/operation/manager/OperationManager.java:36-38 | When the cached count is current, it equals the number of active plus waiting items. |
| OperationManagement.OperationManager.CleanUp | src/main/java/com/github/msemys/esjc/operation/manager/OperationManager.java:40-52 | Afterwards the table, queue and retry list are empty and the count is 0, even when they were already empty. Exactly one connection-closed failure is logged per item tracked at entry, in order: the active items (in the table's iteration order), then the waiting ones, then the parked ones. Nothing else is failed or sent. |
| OperationManagement.OperationManager.ActiveValues | src/main/java/com/github/msemys/esjc/operation/manager/OperationManager.java:44 | The sequence lists every table entry exactly once, each under its own id. |
| OperationManagement.OperationManager.CheckTimeoutsAndRetry | src/main/java/com/github/msemys/esjc/operation/manager/OperationManager.java:54-97 | The timed-out items of the sweep are failed with a timeout and removed. Without a channel nothing else changes: items marked for retry stay in the table, and the count is refreshed only if something was removed. With a channel, the items marked for retry are removed and failed at their ceiling. The parked items, old and new, are renewed in sorted order and the waiting queue is drained with them. The retry list ends empty, the count is current, and every renewed id was neither tracked nor sent at entry. |
| OperationManagement.OperationManager.SweepTimeouts | src/main/java/com/github/msemys/esjc/operation/manager/OperationManager.java:58-76 | The sweep fails the timed-out items in sweep order and removes exactly their ids from the table. It returns the items to retry in sweep order. These are distinct and still in the table. |
| OperationManagement.SweepActive | src/main/java/com/github/msemys/esjc/operation/manager/OperationManager.java:58-74 | The loop's two lists are exactly the items the verdict marks for retry and for timeout, in the order the sweep meets them. |
| OperationManagement.SweepDisjoint | src/main/java/com/github/msemys/esjc/operation/manager/OperationManager.java:58-74 | No id is both timed out and retried by one sweep of a table. |
| OperationManagement.SweepSplits | src/main/java/com/github/msemys/esjc/operation/manager/OperationManager.java:58-79 | The timed-out items are in the table. The items to retry are distinct and remain in the table after the timed-out ones are removed. |
| OperationItems.SweepVerdicts | src/main/java/com/github/msemys/esjc/operation/manager/OperationManager.java:59-72 | An item times out exactly when it is on the live channel, has a non-zero timeout, is past `operationTimeout`, and `failOnNoServerResponse` is set. It is retried exactly when it is stale, or when it is overdue and the policy does not fail it. |
| OperationItems.Classify | src/main/java/com/github/msemys/esjc/operation/manager/OperationManager.java:59-73 | The verdict on one item. An item sent on another channel than the live one is retried. Otherwise an item with a non-zero timeout past `operationTimeout` is failed under `failOnNoServerResponse` and retried without it. Any other item is left alone. |
| OperationItems.IsElapsed | src/main/java/com/github/msemys/esjc/operation/manager/OperationManager.java:61 | More than `duration` has passed between `since` and `now`. |
| OperationItems.SweepSpares | src/main/java/com/github/msemys/esjc/operation/manager/OperationManager.java:59-61 | An item with a zero timeout that is not stale is neither failed nor retried. |
| OperationItems.MarkedMembers | src/main/java/com/github/msemys/esjc/operation/manager/OperationManager.java:58-74 | A marked list holds exactly the swept items with that verdict. |
| OperationItems.MarkedDistinct | src/main/java/com/github/msemys/esjc/operation/manager/OperationManager.java:58-74 | Marked lists of distinct items are distinct, and their ids come from the swept items. |
| OperationManagement.OperationManager.RemoveOperations | src/main/java/com/github/msemys/esjc/operation/manager/OperationManager.java:76 | Removing items that are all in the table removes exactly their ids, and refreshes the count unless the list is empty. |
| OperationManagement.OperationManager.RetryAndDispatch | src/main/java/com/github/msemys/esjc/operation/manager/OperationManager.java:78-96 | The parked list plus the retained retried items is sorted and renewed from the id supply, and then drained with the queue. The ids of the retried items leave the table. Items at their ceiling get a limit failure. The retry list ends empty and the count is current. |
| OperationManagement.OperationManager.ScheduleRetries | src/main/java/com/github/msemys/esjc/operation/manager/OperationManager.java:79 | For distinct items of the table, their ids leave the table. Those below the ceiling are parked in order and those at it are failed in order. |
| OperationManagement.OperationManager.RetryPendingOperations | src/main/java/com/github/msemys/esjc/operation/manager/OperationManager.java:81-93 | The parked items, sorted, each take the next id and one more retry. Scheduling them one by one gives the same table, queue and sent log as one drain of the queue extended by all of them. Then the parked list is cleared and the id supply has advanced by their number. |
| OperationManagement.OperationManager.Reschedule | src/main/java/com/github/msemys/esjc/operation/manager/OperationManager.java:83-89 | The item takes the supply's id, which was neither tracked nor sent, and one more retry. It is queued and the queue is drained. |
| OperationManagement.OperationManager.ClearRetries | src/main/java/com/github/msemys/esjc/operation/manager/OperationManager.java:92 | Only the retry list changes, and it becomes empty. |
| OperationManagement.OperationManager.NewCorrelationId | src/main/java/com/github/msemys/esjc/operation/manager/OperationManager.java:84 | The id is not in the table, the queue, the retry list or the sent log. |
| OperationManagement.RetryPassRenews | src/main/java/com/github/msemys/esjc/operation/manager/OperationManager.java:82-89 | Every parked item is renewed once, with one more retry and an id at or past the supply's position. |
| OperationManagement.RetryPassWithinCeiling | src/main/java/com/github/msemys/esjc/operation/manager/OperationManager.java:82-85 | The renewed ids are at or past the supply's position, and no renewed item exceeds a non-negative `maxRetries`. |
| OperationManagement.OperationManager.ScheduleOperationRetry | src/main/java/com/github/msemys/esjc/operation/manager/OperationManager.java:99-109 | The entry under the item's id is removed. Only if it was there, the item is failed with its retry count when `maxRetries >= 0 && retryCount >= maxRetries` (checked before any increment), and parked otherwise. |
| OperationItems.RetryOutcome | src/main/java/com/github/msemys/esjc/operation/manager/OperationManager.java:103-107 | Each item taken out for a retry is either failed with a limit failure or kept for the retry pass, depending on its ceiling. |
| OperationItems.Exhausted | src/main/java/com/github/msemys/esjc/operation/manager/OperationManager.java:103 | The ceiling is reached: `maxRetries >= 0 && retryCount >= maxRetries`, tested on the count before any increment. |
| OperationItems.Renewed | src/main/java/com/github/msemys/esjc/operation/manager/OperationManager.java:83-85 | The i-th item of a list takes the id `first + i` and one more retry. Nothing else about it changes. |
| OperationItems.RetainedMembers | src/main/java/com/github/msemys/esjc/operation/manager/OperationManager.java:103-107 | The items kept for a retry are exactly those below their ceiling. |
| OperationItems.LimitFailuresMembers | src/main/java/com/github/msemys/esjc/operation/manager/OperationManager.java:103-104 | The limit failures are exactly one per item at its ceiling, carrying its retry count. |
| OperationManagement.OperationManager.RemoveOperation | src/main/java/com/github/msemys/esjc/operation/manager/OperationManager.java:111-120 | Returns true exactly when the id was in the table. It removes exactly that entry. The count is refreshed only on success; on failure nothing changes. |
| OperationManagement.OperationManager.ScheduleWaitingOperations | src/main/java/com/github/msemys/esjc/operation/manager/OperationManager.java:122-136 | A null channel throws before anything changes. Otherwise the table, queue and sent log become one drain of the queue, and the count is current. |
| OperationManagement.OperationManager.Dispatch | src/main/java/com/github/msemys/esjc/operation/manager/OperationManager.java:125-133 | The poll-and-send loop leaves exactly the state and sent log of the drain of the queue. |
| OperationItems.DrainServesInOrder | src/main/java/com/github/msemys/esjc/operation/manager/OperationManager.java:125-133 | A drain serves the queue in FIFO order. What it leaves is the queue's tail, and it writes the dispatched head's packages in queue order. |
| OperationItems.Stamp | src/main/java/com/github/msemys/esjc/operation/manager/OperationManager.java:153-154 | The item with its connection set to the channel and its last update set to the time. No other field changes. |
| OperationItems.Drain | src/main/java/com/github/msemys/esjc/operation/manager/OperationManager.java:125-133 | The table, queue and written packages after the loop. While the table is below the cap and the queue is non-empty, the head is stamped, keyed by its id and sent. The queue left over is never longer than the one given. |
| OperationItems.DrainRespectsCap | src/main/java/com/github/msemys/esjc/operation/manager/OperationManager.java:125-133 | A drain ends with the queue empty or the table at the cap. It never grows the table past the cap, or past its starting size. |
| OperationItems.DrainKeys | src/main/java/com/github/msemys/esjc/operation/manager/OperationManager.java:125-133 | After a drain, the table's keys are the old keys plus the dispatched ids. |
| OperationItems.DrainKeeps | src/main/java/com/github/msemys/esjc/operation/manager/OperationManager.java:125-133 | An entry that no dispatched item replaces survives a drain unchanged. |
| OperationItems.DrainStamps | src/main/java/com/github/msemys/esjc/operation/manager/OperationManager.java:125-133 | With distinct queued ids, every dispatched item ends up in the table under its own id, stamped with the channel and time. |
| OperationItems.DrainResumes | src/main/java/com/github/msemys/esjc/operation/manager/OperationManager.java:82-95 | Draining, extending the queue and draining again is the same as one drain of the extended queue. |
| OperationItems.DrainSettles | src/main/java/com/github/msemys/esjc/operation/manager/OperationManager.java:95 | A drained queue drains no further. |
| OperationManagement.OperationManager.EnqueueOperation | src/main/java/com/github/msemys/esjc/operation/manager/OperationManager.java:138-141 | Appends to the queue and changes nothing else: it sends nothing and leaves the count as it was. |
| OperationManagement.OperationManager.Offer | src/main/java/com/github/msemys/esjc/operation/manager/OperationManager.java:140 | Appends to the queue and moves the id supply past the item's id. |
| OperationManagement.OperationManager.ScheduleOperation | src/main/java/com/github/msemys/esjc/operation/manager/OperationManager.java:143-150 | A null channel throws before anything changes. Otherwise the item is queued and the queue drained, and the count is current. |
| OperationManagement.OperationManager.Poll | src/main/java/com/github/msemys/esjc/operation/manager/OperationManager.java:126 | Returns and removes the queue's head, or returns nothing for an empty queue. |
| OperationManagement.OperationManager.Send | src/main/java/com/github/msemys/esjc/operation/manager/OperationManager.java:152-162 | The item, stamped with the channel and the time, is keyed in the table by its current id. Exactly one package with that id is written. |
| ManagerInvariant.SendKeeps | src/main/java/com/github/msemys/esjc/operation/manager/OperationManager.java:152-161 | Sending keeps the entries keyed and the id supply ahead. |
| ManagerInvariant.RetryKeeps | src/main/java/com/github/msemys/esjc/operation/manager/OperationManager.java:103-107 | Parking an item below its ceiling keeps every parked item below its ceiling. |
| ManagerInvariant.WithoutIds | src/main/java/com/github/msemys/esjc/operation/manager/OperationManager.java:76 | Removing entries one at a time removes exactly their ids. |
| Sorting.SortBy | src/main/java/com/github/msemys/esjc/operation/manager/OperationManager.java:82 | The sorted list is a permutation of the parked list. |
| Sorting.SortBySorted | src/main/java/com/github/msemys/esjc/operation/manager/OperationManager.java:82 | For any total preorder, the sorted list is ordered by it. |
| Sorting.SortByStable | src/main/java/com/github/msemys/esjc/operation/manager/OperationManager.java:82 | The sort is stable: for every element, the elements tied with it come out in the order they went in. |
| DeleteStreamOperation.Inspect | src/main/java/com/github/msemys/esjc/operation/DeleteStreamOperation.java:50-100 | Follows the shared table: the decision, a description equal to the code's name, and the completion kind. An unknown code throws IllegalArgumentException. Rejections name the stream, and the expected version for a wrong expected version. |
| DeleteStreamOperation.Transform | src/main/java/com/github/msemys/esjc/operation/DeleteStreamOperation.java:103-107 | Each reported position is taken as is, and an absent one becomes -1. |
| CommitTransactionOperation.Inspect | src/main/java/com/github/msemys/esjc/operation/CommitTransactionOperation.java:41-91 | Follows the shared table. An unknown code throws IllegalArgumentException. A wrong expected version names the transaction, and the other rejections name nothing. |
| CommitTransactionOperation.Transform | src/main/java/com/github/msemys/esjc/operation/CommitTransactionOperation.java:94-98 | The last event number is passed through unchanged. Positions default to -1 when absent. |
| CommitTransactionOperation.SameTableAsDeleteStream | src/main/java/com/github/msemys/esjc/operation/CommitTransactionOperation.java:41-91 | Both operations give the same error, or the same decision, description and completion kind, for every code. |
| CommitTransactionOperation.SamePositionsAsDeleteStream | src/main/java/com/github/msemys/esjc/operation/CommitTransactionOperation.java:95-96 | Both operations default absent positions alike. |
| Inspection.TableEndsExactlyWhenCompleted | src/main/java/com/github/msemys/esjc/operation/DeleteStreamOperation.java:50-96 | In the table, EndOperation goes with a completed future and Retry with the three timeout codes. A rejection reports its own code. |
| Inspection.WriteTable | src/main/java/com/github/msemys/esjc/operation/DeleteStreamOperation.java:51-99 | The switch both write operations share. Success ends the operation with a completed future. The three timeouts retry with the future pending. Each rejection ends the operation, failing the future with that code. An unknown code has no entry. |
| Inspection.FollowingTableEndsExactlyWhenCompleted | src/main/java/com/github/msemys/esjc/operation/DeleteStreamOperation.java:50-96 | For an inspection that follows the table: EndOperation holds exactly when the future is completed, and Retry exactly when it is left pending. Success is the only code that succeeds, and a failure reports the response's code. |
| StaticEndPointDiscoverer.New | src/main/java/lt/msemys/esjc/node/static_/StaticEndPointDiscoverer.java:15-20 | Null settings are refused. With `ssl`, only the TLS endpoint is set, to the address; without it, only the plaintext one. Exactly one is populated. |
| StaticEndPointDiscoverer.DiscoverYieldsConfiguredAddress | src/main/java/lt/msemys/esjc/node/static_/StaticEndPointDiscoverer.java:23-25 | Every discovery returns the configured address in exactly one endpoint, whatever failed endpoint is passed, and the same result on every call. |
| StaticEndPointDiscoverer.Discover | src/main/java/lt/msemys/esjc/node/static_/StaticEndPointDiscoverer.java:23-25 | Returns the result computed at construction and ignores the failed endpoint passed in. |

## Left out

- Concurrency. The concurrent map and queue are modelled as a sequential `map` and `seq`.
- Logging and message texts. The SLF4J calls and `String.format` messages have no behaviour.
- Network I/O. A Netty `Channel` is an id, and `writeAndFlush` appends to a ghost log of packages. Building a package (`operation.create`) is reduced to the channel, the correlation id and the operation's identity.
- Wall-clock time. `Instant.now()`, `lastUpdated.update()` and `isElapsed` are an integer `now`, and elapsed means `now - lastUpdated > operationTimeout`. The strictness of the comparison in `Timer.isElapsed` is not part of this model. `Duration.isZero` is `timeout == 0`.
- Id width. `UUID.randomUUID()` is a counter. Java's `int` count and `long` positions are unbounded integers.
- The sort key. `OperationItem.compareTo` is not part of this model, so `sorted()` is a sort by a comparator parameter; `SortBySorted` holds for any total preorder.
- AbstractOperation. `succeed()`/`fail()` are abstract completions, and the exception classes are data. Request and response building (`createRequestMessage`, `createResponseMessage`) and `toString` are not part of this model.
- Unmodelled result codes. A response result code the operations do not name is `Unrecognized(value)`.
- The integration test `ITSubscribeToAll`. It runs against a live server and has no logic to model.
- Object identity of items. In the source, the item parked for a retry and the one re-queued are the same object, whose `correlationId` and `retryCount` are updated in place. Here the renewed item is a new value; no other reference to the old one remains in the manager, so nothing observable is lost.
- The number of attempts is not bounded from the start. `scheduleOperationRetry` tests the ceiling (OperationManager.java:103) before the retry pass increments `retryCount` (:85). So an item that starts at `retryCount = 0` with `maxRetries = n >= 0` is sent at most `n + 1` times. `OperationItem`'s constructor is not part of this model, so the model does not fix the starting count. It proves only that a renewed item's count stays within `maxRetries` (`RetryPassWithinCeiling`).
- The retry pass needs a channel. Without one, the Java skips the retry pass, so items marked for retry keep their old entries. This is the `connection.None?` clause of `CheckTimeoutsAndRetry`.
- CheckTimeoutsAndRetry: the fresh-id guarantee covers ids tracked or sent at entry. Ids a caller admits later through `enqueueOperation` or `scheduleOperation` are not random UUIDs here, so they can coincide with each other; the model handles that as the code does.

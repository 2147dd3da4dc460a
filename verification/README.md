# MicroFraudDetectionLayer: the in-process fraud evaluator, in Dafny

This project models the in-process fraud evaluator of MicroFraudDetectionLayer (MFDL), a small
fraud-detection layer for retail points of sale, and proves properties of the model.
Transactions from a till go into a **rolling history**: an insertion-ordered buffer that evicts
old entries relative to the newest timestamp. Each new transaction is then checked by a list of
**rules** against a 30-minute trailing window of that history. The **refund rule** flags a
single large refund, or a burst of refunds by one cashier. The **velocity rule** flags a cashier
who rings up too many transactions in five minutes. Every alert a rule raises is saved to a
**sink** and then emitted.

Files (one module each):

| file | module | models |
|---|---|---|
| `wrappers.dfy` | `Wrappers` | `Option`, standing for C#'s nullable results |
| `transactions.dfy` | `Transactions` | `TransactionType`, `Transaction`, the tick and amount units |
| `alert.dfy` | `Alerts` | `AlertSeverity` (as `Severity`) and its order, `FraudAlert` (as `Alert`), evidence values |
| `refund_rule.dfy` | `Refunds` | `RefundRule` |
| `velocity_rule.dfy` | `Velocity` | `VelocityRule` |
| `where.dfy` | `Filtering` | the LINQ `Where` filter both rules apply to the window |
| `fraud_rule.dfy` | `FraudRules` | `IFraudRule`, as the closed set of the two rules |
| `transaction_history.dfy` | `History` | `TransactionHistory`: a class with a `seq` field for the linked list |
| `fraud_engine.dfy` | `Engine` | `FraudEngine`: a class holding the history, the rule list and the sink log |

Units:
- Timestamps and durations are integers counted in .NET ticks of 100 ns (`TicksPerMinute = 600_000_000`).
- Amounts are integers in hundredths of the currency unit (`AmountScale = 100`), so 10,000 KES is `10000 * AmountScale`.

Non-deterministic inputs:
- `Guid.NewGuid()` and `DateTimeOffset.UtcNow` give an alert its id and detection time in the code.
- Here they arrive as an `AlertStamp` value per rule evaluation.
- `FraudEngine.Process` takes one stamp per registered rule.

How the code is modelled:
- The rolling history and the engine change state in place, so they are Dafny classes whose methods carry `modifies` clauses.
  - Each method is proved against a specification function of the old state: `AfterAdd`, `Evicted`, `InWindowSuffix`, `Results`, `Emitted`.
  - The properties are proved about those functions as lemmas.
  - `EvictOld` keeps the source's `while` loop. `Recent` keeps its backward scan with an early `break`, followed by a reversal.
- The rules are pure functions over `seq<Transaction>`.

Notable behaviours of the code, which the model keeps:
- `Recent` tests only the lower cutoff (`asOf - window`). Entries newer than `asOf` are returned (`History.WindowHasNoUpperBound`).
- Eviction drops only entries strictly older than `latest - retention`. An entry exactly at the cutoff survives.
- The refund burst fires once more than 3 matching refunds are in the window. That is the fourth refund, not the fifth (`Refunds.FourthRefundFires`).
- The burst evidence key is `count_window`.
- No duration is validated: a negative retention is accepted. The lemmas that need `retention >= 0` say so.
- No rule fault or sink failure is caught.

## Model

| member | source | states |
|---|---|---|
| Alerts.Rank | MFDL.Core/Models/Alert.cs:3 | Each severity has a distinct position below 3: Low is 0, High is 2 |
| Alerts.SeverityTotalOrder | MFDL.Core/Models/Alert.cs:3 | The severity order is irreflexive, total and transitive, with Low < Medium < High |
| Filtering.Where | MFDL.Core/Rules/RefundRule.cs:42-47 | The LINQ `Where` both rules apply: every entry of the result is a window entry that passes the test, every passing window entry is in the result, and the result is no longer than the window |
| Filtering.WhereMultiset | MFDL.Core/Rules/VelocityRule.cs:20-24 | Multiplicity: each passing entry keeps all its copies and every other entry has none, so the result's length is the number of passing window entries, the count both rules compare with their thresholds |
| Filtering.WhereAppend | MFDL.Core/Rules/VelocityRule.cs:20-24 | The filter distributes over concatenation, keeping window order |
| Filtering.WhereAll | MFDL.Core/Rules/VelocityRule.cs:20-24 | A window whose every entry passes is kept whole |
| Refunds.Evaluate | MFDL.Core/Rules/RefundRule.cs:18-69 | An alert is raised iff the current transaction is a refund and either its amount is at least 10,000 or more than 3 window entries match. An entry matches when it has the same cashier, type Refund and a timestamp in [current - 15 min, current]. The alert is High, named after the rule, and takes store, cashier and transaction ids from the current transaction. Its evidence is {type, amount} for a large refund, else {count_window 15, count and sum of the matched refunds} |
| Refunds.NonRefundNeverAlerts | MFDL.Core/Rules/RefundRule.cs:20 | A non-refund yields no alert whatever the window holds |
| Refunds.LargeRefundIgnoresWindow | MFDL.Core/Rules/RefundRule.cs:22-38 | A large refund alerts on every window, with the same alert: the window is not consulted |
| Refunds.BurstMonotone | MFDL.Core/Rules/RefundRule.cs:40-49 | Inserting more transactions anywhere in a window that raised an alert still raises one. The match count grows by exactly the matches among the insertions |
| Refunds.TotalAppend | MFDL.Core/Rules/RefundRule.cs:51 | The refund sum is additive over concatenation |
| Refunds.BurstSumBounded | MFDL.Core/Rules/RefundRule.cs:51 | With positive amounts, the sum over the filtered entries is at most the total of the window, and is positive when any entry passes |
| Refunds.FourthRefundFires | MFDL.Core/Rules/RefundRule.cs:40-66 | Three matching refunds below the large threshold give no alert. Four give a burst alert with count 4 |
| Velocity.Evaluate | MFDL.Core/Rules/VelocityRule.cs:17-46 | An alert is raised iff more than 60 window entries match. An entry matches when it has the same cashier and a timestamp in [current - 5 min, current], whatever its type. Its severity follows the rate test. It is named after the rule and takes the ids from the current transaction. Its evidence is {window_min 5, count = number matched} |
| Velocity.SeverityByCount | MFDL.Core/Rules/VelocityRule.cs:28-32 | The exact rate test count / 5 > 20 holds iff count > 100, and the severity is never Low |
| Velocity.TypeIrrelevant | MFDL.Core/Rules/VelocityRule.cs:20-23 | Changing the types of the window's entries leaves the count unchanged |
| Velocity.SixtyFirstFires | MFDL.Core/Rules/VelocityRule.cs:15-32 | Any window of sixty matching transactions gives no alert. Any window of sixty-one gives a Medium alert |
| FraudRules.FraudRule.Evaluate | MFDL.Core/Rules/IFraudRule.cs:9 | Whichever rule it is, an alert carries that rule's name, the current transaction's ids and the stamp, and is never Low |
| FraudRules.IdsDistinct | MFDL.Core/Rules/IFraudRule.cs:7-8 | The two rules have different fixed ids and different names |
| History.Evicted | MFDL.Core/Engine/TransactionHistory.cs:45-50 | Eviction leaves a suffix of the buffer: only a prefix is removed, and order is kept |
| History.EvictedBounds | MFDL.Core/Engine/TransactionHistory.cs:47-49 | Every dropped entry is strictly older than the cutoff. The surviving head, if any, is at or after it, so an entry exactly at the cutoff stays |
| History.ScanStop | MFDL.Core/Engine/TransactionHistory.cs:35-38 | The backward scan stops at or below its starting index |
| History.InWindowSuffix | MFDL.Core/Engine/TransactionHistory.cs:31-41 | The scan's result is a suffix of the buffer |
| History.ScanStopBounds | MFDL.Core/Engine/TransactionHistory.cs:35-38 | Every entry the scan passes is at or after the cutoff, and the entry it stops at is not |
| History.InWindowSuffixBounds | MFDL.Core/Engine/TransactionHistory.cs:31-41 | The result is the longest in-window suffix: every entry in it is at or after the cutoff, and the entry just before it is older |
| History.ScanStopUnique | MFDL.Core/Engine/TransactionHistory.cs:35-38 | Any index with those two properties is where the scan stops |
| History.InWindowSuffixUnique | MFDL.Core/Engine/TransactionHistory.cs:31-41 | Any suffix that is all in the window and preceded by an older entry (or by nothing) is the result |
| History.ReversedAppend | MFDL.Core/Engine/TransactionHistory.cs:40 | Reversal turns a concatenation around |
| History.ReversedTwice | MFDL.Core/Engine/TransactionHistory.cs:40 | Reversing the collected list restores buffer order |
| History.AtOrAfterSplit | MFDL.Core/Engine/TransactionHistory.cs:35-40 | When all entries before an index are older than the cutoff and all from it are not, the full filter is the suffix from that index |
| History.SortedWindowIsFilter | MFDL.Core/Engine/TransactionHistory.cs:35-40 | On a buffer sorted by timestamp, the early-stopping scan equals the full filter timestamp >= cutoff |
| History.UnsortedWindowMissesEntries | MFDL.Core/Engine/TransactionHistory.cs:37 | On an unsorted buffer (timestamps 100, 0, 100 with cutoff 50), the scan returns only the last entry while the filter holds two |
| History.WindowHasNoUpperBound | MFDL.Core/Engine/TransactionHistory.cs:37 | A tail entry newer than asOf is returned |
| History.AddKeepsLatest | MFDL.Core/Engine/TransactionHistory.cs:24-25 | With retention >= 0, the added transaction is the last entry after eviction |
| History.AddKeepsSorted | MFDL.Core/Engine/TransactionHistory.cs:20-27 | Adding to a sorted buffer a transaction no older than its tail keeps it sorted, and every entry is at or after latest - retention |
| History.SortedHeadBound | MFDL.Core/Engine/TransactionHistory.cs:47-48 | In a sorted buffer whose head is at or after the cutoff, every entry is |
| History.SortedSnoc | MFDL.Core/Engine/TransactionHistory.cs:24 | Appending an entry no older than the tail keeps a buffer sorted |
| History.SortedSuffix | MFDL.Core/Engine/TransactionHistory.cs:48-49 | Removing a prefix keeps a buffer sorted |
| History.ReplayInvariant | MFDL.Core/Engine/TransactionHistory.cs:20-27 | After any stream of Adds with non-decreasing timestamps, the buffer is sorted and every entry is at or after latest - retention. With retention >= 0 it ends with the latest transaction |
| History.ReplayEndsWithLatest | MFDL.Core/Engine/TransactionHistory.cs:20-27 | Whatever survives a stream of Adds ends with the last transaction added |
| History.TransactionHistory.constructor | MFDL.Core/Engine/TransactionHistory.cs:15-18 | A new history has the given retention and is empty |
| History.TransactionHistory.Add | MFDL.Core/Engine/TransactionHistory.cs:20-27 | The buffer becomes the old buffer with t appended, then evicted against t.timestamp - retention |
| History.TransactionHistory.EvictOld | MFDL.Core/Engine/TransactionHistory.cs:45-50 | The loop leaves exactly the eviction of the old buffer against latestTs - retention |
| History.TransactionHistory.Recent | MFDL.Core/Engine/TransactionHistory.cs:29-43 | The backward scan with early stop, followed by a reversal, returns the longest in-window suffix in buffer order. The buffer is not modified |
| History.RecentTwice | MFDL.Core/Engine/TransactionHistory.cs:29-43 | Two queries with no Add between them return equal sequences |
| Engine.Results | MFDL.Core/Engine/FraudEngine.cs:29-31 | There is one result per registered rule |
| Engine.ResultsAt | MFDL.Core/Engine/FraudEngine.cs:29-31 | Result i is rule i's evaluation on the same transaction and the same window |
| Engine.Emitted | MFDL.Core/Engine/FraudEngine.cs:31-37 | The output has no more alerts than there are rule results |
| Engine.EmittedExactly | MFDL.Core/Engine/FraudEngine.cs:31-37 | Every emitted alert is some non-null result, and every non-null result is emitted |
| Engine.EmittedAppend | MFDL.Core/Engine/FraudEngine.cs:29-37 | The output follows registration order: the output of a concatenation of results is the concatenation of outputs |
| Engine.EmittedSnoc | MFDL.Core/Engine/FraudEngine.cs:31-37 | One more result adds its alert, if any, at the end; a null result adds nothing |
| Engine.RefundThenVelocity | MFDL.Core/Engine/FraudEngine.cs:29-37 | A large refund in a window of 61 copies of itself yields two alerts, refund first, then a Medium velocity alert. There is no deduplication |
| Engine.WindowEndsWithCurrent | MFDL.Core/Engine/FraudEngine.cs:26-27 | With retention >= 0, the window taken after the Add ends with the transaction being processed |
| Engine.LargeRefundOnEmptyHistory | MFDL.Core/Engine/FraudEngine.cs:24-39 | On an empty history with the refund rule then the velocity rule registered, a large refund yields exactly one alert: the High single-large-refund alert |
| Engine.FraudEngine.constructor | MFDL.Core/Engine/FraudEngine.cs:12-16 | A new engine has a fresh, empty history with the given retention, no rules and an empty sink |
| Engine.FraudEngine.RegisterRule | MFDL.Core/Engine/FraudEngine.cs:18-22 | The rule is appended after the earlier ones, and the same engine is returned |
| Engine.FraudEngine.Process | MFDL.Core/Engine/FraudEngine.cs:24-39 | The history receives t first. The rules see the 30-minute window of the updated history. The output is the non-null results in registration order. The sink grows by exactly the output. The rule list is unchanged |
| Engine.FraudEngine.EvaluateRules | MFDL.Core/Engine/FraudEngine.cs:29-38 | The loop evaluates each rule once, in order, on the same transaction and window, saving then emitting each alert |

## Left out

- The `lock` in `TransactionHistory` (lines 22 and 32) only serializes concurrent callers. The model is single-threaded.
- `Process` is a lazy C# iterator. Here it is an eager method that returns the whole alert sequence. The interleaving of a partial enumeration with sink saves is not modelled.
- The sink is `AlertRepository.SaveAlert` over SQLite. Here it is the ghost append-only log `FraudEngine.saved`. SQL, file I/O and the `dbPath` constructor argument are left out.
- `_events` is a doubly linked list. Here it is a `seq` field reassigned by `Add` and `EvictOld`; node identity and aliasing are not modelled.
- `IFraudRule` is an open interface. Here it is the closed datatype `FraudRule` of the two shipped rules, so a third-party rule cannot be registered.
- Timestamps are unbounded integers. In the code, subtracting a duration from a `DateTimeOffset` throws `ArgumentOutOfRangeException` below `DateTimeOffset.MinValue` (tick 0). It can happen at `latestTs - _retention` (TransactionHistory.cs:47), at `asOf - window` (TransactionHistory.cs:31) and at `current.Timestamp - _window` (RefundRule.cs:41, VelocityRule.cs:19). The model computes negative cutoffs instead of failing, so for transactions that early it shows no exception where the code throws before any rule runs. `Timestamp` has no initializer, so a transaction built without one sits at tick 0.
- The sink never fails here. In the code, an exception from `SaveAlert` is not caught in `Process` (FraudEngine.cs:35). It ends the enumeration, so later rules never run for that transaction. The model promises output and sink growth only for a sink that always succeeds.
- Alert `Message` strings are formatting only and are left out.
- `Velocity.Evaluate`: omits the rounded `tpm` feature (`Math.Round` over a double). The severity test is kept as exact rational arithmetic, and `Velocity.SeverityByCount` shows it equals `count > 100`.
- Feature values are `object` in the code. Here they are a small sum type (`Int`, `Money`, `Text`); `count_window` and `window_min` are the whole minute counts 15 and 5, not doubles.
- `AlertId` and `DetectedAt` come from a GUID and the clock. Here they are `AlertStamp` parameters, one per rule.
- `Engine.FraudEngine.Process`: requires one stamp per registered rule. The code has no such argument.
- `Transaction.Amount` being positive is only a field comment in the code. Here it is the predicate `Transactions.WellFormed`, assumed only by `Refunds.BurstSumBounded`.
- The HTTP API, the agent worker, the point-of-sale adapters and the demo driver are not part of this model.

# Verification of the canteen manager and the order scanner

A Dafny model of the parts of the two programs where money, concurrency or printed paper depend on
an argument that no single function shows, with proofs of those arguments.

| files | component |
|---|---|
| `scan_admission.dfy` | upload admission: three counters around awaits, one promise chain per credential |
| `job_queue.dfy`, `job_effects.dfy`, `callback_outbox.dfy`, `delivery_effects.dfy`, `timestamps.dfy` | leased jobs, transactional outbox, retry delays, stored timestamps |
| `accounts.dfy`, `orders.dfy`, `order_effects.dfy`, `vouchers.dfy`, `grouped_sums.dfy`, `kiosk.dfy` | ledger, order supersession, vouchers and reports, kiosk orders |
| `edit_distance.dfy`, `catalogue_ranking.dfy`, `ranking_effects.dfy`, `identity_matching.dfy`, `sorting.dfy`, `text_order.dfy` | two edit-distance loops, item ranking, prisoner ranking |
| `calibration.dfy`, `recognition.dfy`, `validation.dfy`, `contracts.dfy`, `page_pipeline.dfy`, `page_effects.dfy`, `reading_effects.dfy` | from backend hypotheses to an immutable result |
| `crc_register.dfy`, `crc16.dfy`, `crc_theory.dfy`, `numerals.dfy`, `vietqr.dfy`, `bank_memo.dfy`, `payment_effects.dfy` | QR payload, checksum, memo |
| `amount_words.dfy`, `wording.dfy` | amounts in Vietnamese words and their reader |
| `menu.dfy`, `menu_laws.dfy`, `menu_effects.dfy` | menu positions and codes |
| `issued_forms.dfy`, `form_effects.dfy` | form tokens and the sheets that carry them |
| `ingestion.dfy`, `ingestion_laws.dfy`, `recovery.dfy` | receipts, crash and restart |
| `value_effects.dfy` | scores, calibrated confidences and timestamps, as values |

How to read it. Where the source mutates an object or a table, a class does; each method equals a
function on the value of that state, and the theorems are about sequences of those functions: every
interleaving, every run, every clock. One database transaction is one atomic step, a row or advisory
lock is that atomicity, and a method that fails leaves the state as it was. Floating-point numbers
are exact reals, SHA-256 digests and generated identifiers are injective tags or positions, and what
a clock, a random source, the network, image recognition or Unicode normalisation returns is a
parameter. The files named `…_effects` and `wording.dfy` say of each transaction or computation when it
acts and what it leaves behind, row by row and character by character, in terms of the stored rows and
the request alone: they fix what the functions do, and the other theorems say what follows over whole
runs. Columns, indexes and foreign keys of the backend are those of its PostgreSQL migrations; the
SQLite schema has no sheets and no unique positions, and its CHECK admits no consumed form.

Where the code does not keep what its own text says, the code is modelled and the difference proved:

- A restart need not complete the ingestion that was interrupted: when an older receipt waits for the
  same bytes, the older one is entered first, and the newer one is refused if they disagree, for
  example on the service date: `OlderDateWins`; `InterruptedEnteredExactlyWhen` says when.
- The retry delay is announced as capped, but computing it can raise after the callback was sent: from
  the 1025th attempt on, without a readable Retry-After, because the power of two no longer fits a float;
  and at any attempt, when the Retry-After date lies outside the years 1 to 9999 in UTC. A malformed HTTP
  answer raises as well. The event then gets no back-off: `DelayIsBounded`, `Attempt1025Overflows`,
  `LastHourOverflows`, `RaiseSkipsBackOff`.
- A kiosk order by bank transfer may be free; then the builder of its transfer code throws although
  the order is already committed: `CodeExactlyWhen`, `FreeOrderThrows`.
- Python refuses to convert a number of more than 4300 digits, so such a quantity fails the job
  instead of marking the field: `QuantityReadExactlyWhen`, `ProcessingNeverBreaks`,
  `LongNumberFailsTheJob`.
- A removal before the first form is meant to delete the row, but an order, which needs no form, holds
  its items by a RESTRICT foreign key, so the removal of an ordered item raises: `RemoveKeeps`,
  `OrderedItemIsNotRemoved`.
- A reorder may name an item twice; then positions stop being contiguous:
  `ReorderContiguousExactlyWhen`, `RepeatedReorderLeavesAGap`.
- The menu entity calls codes never reused; before a form exists a removed highest code comes back:
  `RemovedCodeComesBackExactlyWhen`, `RemovedCodeComesBack`.
- Two functions rely on their callers. The room recogniser by itself reads rooms longer than the result
  record allows (`RoomsFitExactlyWhen`), but stored crops stop at four room cells and the configuration
  is capped at four (`storage.py:829-837`, `storage.py:1672-1679`, `config.py:856-857`), so no page ever
  breaks on it. `validate_page` by itself accepts a present row whose item and quantity are both empty
  (`EmptyPresentRowIsAccepted`), but the recognisers attach an error to every empty field
  (`ItemRecognitionIsSound`, `QuantityReadExactlyWhen`).

`dafny verify dfyconfig.toml` checks the whole project.

## Model

| member | source | states |
|---|---|---|
| `ScanAdmission.NeverOverAdmits` | canteen-manager/backend/src/scans/scan-admission.service.ts:68-113 | In every interleaving of checks, row commits and releases, pending rows plus admitted uploads that have not committed never exceed SCAN_MAX_PENDING, and the reservation counter is exactly in-check + held + deferred |
| `ScanAdmission.ClampsNeverFire` | canteen-manager/backend/src/scans/scan-admission.service.ts:68-113 | In every reachable state no `Math.max(0, …)` of the reservation code changes a value |
| `ScanAdmission.QuiescentMeansZero` | canteen-manager/backend/src/scans/scan-admission.service.ts:68-113 | When every call has been refused or has left, all three counters are zero: nothing leaks |
| `ScanAdmission.GrantedExactlyWhen` | canteen-manager/backend/src/scans/scan-admission.service.ts:75-83 | A reservation is granted if and only if the counted rows, everyone in check, every slot held and every deferred release fit in the maximum |
| `ScanAdmission.GrantIsSafe` | canteen-manager/backend/src/scans/scan-admission.service.ts:75-83 | A grant decided on a stale row count still leaves room for the new row |
| `ScanAdmission.GateRun` | canteen-manager/backend/src/scans/scan-admission.service.ts:68-113 | The accounting invariant (balance, snapshots covered, pending within the limit) survives every run |
| `ScanAdmission.CredentialLimitsHold` | canteen-manager/backend/src/scans/scan-admission.service.ts:24-66 | Over every interleaving, per credential: running uploads never exceed the configured concurrency and no closed 60-second window holds more admissions than the rate limit |
| `ScanAdmission.SpacedMeansRateLimited` | canteen-manager/backend/src/scans/scan-admission.service.ts:29-34 | If any rate + 1 consecutive admissions span more than the window, no closed window holds more than the rate |
| `ScanAdmission.AppendAdmission` | canteen-manager/backend/src/scans/scan-admission.service.ts:31-49 | Dropping old calls when an admission is recorded is invisible to every later check, and keeps admissions spaced |
| `ScanAdmission.LockIsFairAndExclusive` | canteen-manager/backend/src/scans/scan-admission.service.ts:115-132 | The per-credential promise chain gives mutual exclusion in arrival order, although map entries are deleted |
| `ScanAdmission.StartFollowsItsPredecessors` | canteen-manager/backend/src/scans/scan-admission.service.ts:115-132 | A call whose awaited promise is resolved finds every earlier call of its credential finished |
| `ScanAdmission.MutualExclusion` | canteen-manager/backend/src/scans/scan-admission.service.ts:115-132 | At most one call of a credential is between taking and releasing the lock |
| `ScanAdmission.ChainStep` | canteen-manager/backend/src/scans/scan-admission.service.ts:115-132 | The chain invariant (each promise waits for its newest unresolved predecessor; entries name the newest call) survives every step |
| `ScanAdmission.ScanAdmissionService.TakeTicket` | canteen-manager/backend/src/scans/scan-admission.service.ts:115-123 | The credential map afterwards names this call, and the previous tail is returned |
| `ScanAdmission.ScanAdmissionService.CheckCredentialLimits` | canteen-manager/backend/src/scans/scan-admission.service.ts:28-37 | Refuses by rate first, then by concurrency, exactly as the window and the active count say |
| `ScanAdmission.ScanAdmissionService.BeginReservation` | canteen-manager/backend/src/scans/scan-admission.service.ts:68-72 | Both counters go up before the await |
| `ScanAdmission.ScanAdmissionService.DecideReservation` | canteen-manager/backend/src/scans/scan-admission.service.ts:75-113 | Grants against the count read after the await; the last check out flushes deferred releases |
| `ScanAdmission.ScanAdmissionService.AbandonReservation` | canteen-manager/backend/src/scans/scan-admission.service.ts:98-112 | A failed count gives its reservation back |
| `ScanAdmission.ScanAdmissionService.ReleasePending` | canteen-manager/backend/src/scans/scan-admission.service.ts:86-97 | A release is deferred while a check is running and applied at once otherwise |
| `ScanAdmission.ScanAdmissionService.Admit` | canteen-manager/backend/src/scans/scan-admission.service.ts:47-49 | Records the call in the window and raises the active count |
| `ScanAdmission.ScanAdmissionService.LeaveUpload` | canteen-manager/backend/src/scans/scan-admission.service.ts:51-61 | Returns the pending slot and the active slot |
| `ScanAdmission.ScanAdmissionService.ReleaseLock` | canteen-manager/backend/src/scans/scan-admission.service.ts:126-131 | Deletes the map entry only when it still names this call |
| `JobQueue.EveryRunIsSound` | scanner/src/order_scanner/storage.py:529-1008 | Over every run of any workers and clocks: attempts = lease epoch = number of claims, at most the maximum; the audit log replays to the row; a job has exactly one result and one outbox row when completed and none otherwise |
| `JobQueue.StaleWorkerIsFenced` | scanner/src/order_scanner/storage.py:1517-1545 | Once a job was claimed again or finished, no call with the older epoch ever changes the database, after any run and at any time |
| `JobQueue.LeaseProtects` | scanner/src/order_scanner/storage.py:529-739 | While a lease runs, only its holder can change the row |
| `JobQueue.RecoveryReopens` | scanner/src/order_scanner/storage.py:630-673 | After a recovery an expired job is claimable exactly while attempts remain, permanently failed otherwise, and its old holder owns it no longer |
| `JobQueue.RunMonotone` | scanner/src/order_scanner/storage.py:529-1008 | Epochs never fall, finished jobs never re-open, results and callbacks are never taken back |
| `JobQueue.StepKeeps` | scanner/src/order_scanner/storage.py:529-1008 | Every transaction keeps the queue invariant |
| `JobQueue.FirstWins` | scanner/src/order_scanner/storage.py:552-561 | The claim takes the oldest eligible job: any choice of a first row gives the same database |
| `JobQueue.JobStore.MarkExhaustedJobs` | scanner/src/order_scanner/storage.py:1548-1580 | Exactly the retryable jobs without attempts left become permanent failures |
| `JobQueue.JobStore.RecoverExpiredLeases` | scanner/src/order_scanner/storage.py:630-673 | Exactly the expired leases are released, by the remaining attempts, and their number is returned |
| `JobQueue.JobStore.OldestEligible` | scanner/src/order_scanner/storage.py:552-561 | Finds a job if and only if one is eligible, and then the first by creation time and id |
| `JobQueue.JobStore.ClaimJob` | scanner/src/order_scanner/storage.py:529-597 | Sweeps, leases the first eligible job under the next epoch, or changes nothing more when there is none |
| `JobQueue.JobStore.RenewLease` | scanner/src/order_scanner/storage.py:599-628 | Only the unexpired holder of the current epoch extends its lease |
| `JobQueue.JobStore.FailJob` | scanner/src/order_scanner/storage.py:675-739 | Only the holder fails its job: to retryable while attempts remain, else permanently |
| `JobQueue.JobStore.CompleteJob` | scanner/src/order_scanner/storage.py:900-1008 | Result, outbox row and state change together or not at all |
| `CallbackOutbox.EveryDeliveryIsSound` | scanner/src/order_scanner/storage.py:1017-1367 | Over every run: attempts = epoch = number of attempt rows, delivered implies a recorded 2xx attempt, and every transmission of an event carries the same key and payload |
| `CallbackOutbox.OnlyReplayReopens` | scanner/src/order_scanner/storage.py:1155-1183 | No step but a replay changes a delivered or blocked event |
| `CallbackOutbox.ClosedStaysClosed` | scanner/src/order_scanner/storage.py:1155-1183 | The same over whole runs without a replay of that event |
| `CallbackOutbox.StaleDispatcherIsFenced` | scanner/src/order_scanner/storage.py:1583-1606 | After the event was claimed again, the old verdict changes nothing, after any run |
| `CallbackOutbox.SettlesOnce` | scanner/src/order_scanner/callbacks.py:152-202 | The first verdict of a claim decides the state and a second one changes nothing, unless the transport or the delay of the first raises |
| `CallbackOutbox.Outbox.DeliverOnce` | scanner/src/order_scanner/callbacks.py:152-225 | Claim, block a payload above the limit unsent, else send and settle: the state after one delivery, including a raise between sending and settling |
| `CallbackOutbox.DelayIsBounded` | scanner/src/order_scanner/callbacks.py:105-120 | A retry delay exists if and only if the server named a number of seconds or a date whose UTC form lies in the years 1 to 9999, or named neither readably and at most 1024 attempts were made; every delay is within [0, max]; otherwise Python raises OverflowError |
| `CallbackOutbox.LastHourOverflows` | scanner/src/order_scanner/callbacks.py:229-242 | Fri, 31 Dec 9999 23:59:59 -0100 as Retry-After raises at the first attempt, the same moment in UTC does not |
| `CallbackOutbox.Attempt1025Overflows` | scanner/src/order_scanner/callbacks.py:118 | The 1025th attempt with no Retry-After raises, under every policy |
| `CallbackOutbox.RaiseSkipsBackOff` | scanner/src/order_scanner/callbacks.py:152-225 | After any response on which the transport or the delay raises, the attempt stays open, and once its lease has run out it is recovered without any delay |
| `CallbackOutbox.BackOffGrows` | scanner/src/order_scanner/callbacks.py:105-120 | With no smaller a jitter a later attempt never waits shorter, as long as its delay exists |
| `CallbackOutbox.BackOffCanShorten` | scanner/src/order_scanner/callbacks.py:105-120 | With a smaller jitter the second delay can be 0 after a first of 2 seconds |
| `CallbackOutbox.Outbox.ClaimOutbox` | scanner/src/order_scanner/storage.py:1017-1094 | Leases the first due event under the next epoch and opens its attempt row |
| `CallbackOutbox.Outbox.FinishOutboxAttempt` | scanner/src/order_scanner/storage.py:1307-1367 | Only the current unexpired holder closes the attempt and moves the event |
| `CallbackOutbox.Outbox.ReplayOutbox` | scanner/src/order_scanner/storage.py:1155-1183 | Resets any event without an owner to pending; refuses a leased one |
| `CallbackOutbox.Outbox.RecoverExpiredOutboxLeases` | scanner/src/order_scanner/storage.py:1185-1227 | Exactly the expired deliveries go back to retrying with their attempt closed |
| `Timestamps.TextOrderIsTimeOrder` | scanner/src/order_scanner/storage.py:1790-1793 | Comparing two stored timestamps as text is comparing the moments |
| `Timestamps.SameWidthOrder` | scanner/src/order_scanner/storage.py:1790-1793 | Digit texts of one width are in text order exactly when their numbers are in order |
| `Orders.BalancesAreConserved` | canteen-manager/backend/src/orders/orders.service.ts:199-381 | Over every run of top-ups, creates, re-scans and counter decisions, with rollbacks: balance = top-ups − totals of the active scanned orders ≥ 0, and every ledger row carries the exact prefix sum |
| `Orders.RescanNetsToTheDifference` | canteen-manager/backend/src/orders/orders.service.ts:344-375 | A re-scan moves exactly the difference of the two stored totals, and nobody else's money |
| `Orders.InsufficientExactlyWhen` | canteen-manager/backend/src/orders/orders.service.ts:344-375 | A scanned request that passes the checks, with a total within MAX_VND, is refused for money if and only if the balance plus the replaced total does not cover it, and is created otherwise |
| `Orders.ReversalNeverRefused` | canteen-manager/backend/src/accounts/accounts.service.ts:51-58 | A stored scanned total already passed the MAX_VND check, so its reversal cannot be refused |
| `Orders.SettleKeepsExact` | canteen-manager/backend/src/orders/orders.service.ts:344-375 | Reversal then debit keeps the ledger exact and moves refund − total |
| `Orders.ChainsEndAtTheActiveOrder` | canteen-manager/backend/src/orders/orders.service.ts:255-314 | From every scanned order the supersession links stay on its prisoner and date, never cycle, and end at the one active order of the shared channel |
| `Orders.SupersedeKeepsOrders` | canteen-manager/backend/src/orders/orders.service.ts:263-314 | Superseding before inserting keeps one active order per date, prisoner and channel |
| `Orders.AggregationPreservesTotal` | canteen-manager/backend/src/orders/orders.service.ts:164-173 | Merging duplicate lines keeps Σ price × quantity and leaves one line per item |
| `Orders.AggregateKeys` | canteen-manager/backend/src/orders/orders.service.ts:164-173 | The merged lines name exactly the items requested |
| `Orders.ReportAgrees` | canteen-manager/backend/src/orders/orders.service.ts:725-816 | In every reachable database revenue by source, method, day, prisoner and category all sum to the same paid revenue |
| `Orders.GroupsAddUp` | canteen-manager/backend/src/orders/orders.service.ts:725-816 | Any grouping of the paid orders sums to the paid revenue, one row per key |
| `Orders.CategoriesAddUp` | canteen-manager/backend/src/orders/orders.service.ts:752-766 | Revenue through the item join equals revenue through the order totals |
| `Orders.ExistingIsTheChannelsOrder` | canteen-manager/backend/src/orders/orders.service.ts:263-276 | The two lookups find the active order of the shared channel if there is one |
| `Orders.RunKeeps` | canteen-manager/backend/src/orders/orders.service.ts:139-488 | Stored totals equal their item snapshots, statuses and links stay consistent, and money stays exact, over every run |
| `Vouchers.GetDeliveryVouchers` | canteen-manager/backend/src/orders/orders.service.ts:560-648 | The loops over orders and items compute the sorted vouchers |
| `Vouchers.DeliveredItems` | canteen-manager/backend/src/orders/orders.service.ts:593-619 | The item query: quantities summed by prisoner and item, in order of name |
| `Vouchers.VouchersAddUp` | canteen-manager/backend/src/orders/orders.service.ts:560-648 | The vouchers of a day carry, of every item, exactly the portions its paid orders name, and their totals add up to its paid revenue |
| `Vouchers.OneSheetPerPrisoner` | canteen-manager/backend/src/orders/orders.service.ts:560-648 | In order of place, exactly one voucher for each prisoner with a paid order that day, with the balance, and with each item listed once in order of name |
| `Orders.OrdersService.MergeLines` | canteen-manager/backend/src/orders/orders.service.ts:170-173 | The map of quantities is the aggregation of the lines |
| `Orders.OrdersService.Snapshot` | canteen-manager/backend/src/orders/orders.service.ts:227-235 | Item snapshots and the two category subtotals of the merged lines |
| `Orders.OrdersService.FindOne` | canteen-manager/backend/src/orders/orders.service.ts:263-266 | The first active order of that date, prisoner and source |
| `Orders.OrdersService.SettleBalance` | canteen-manager/backend/src/orders/orders.service.ts:344-375 | Reversal of the stored total, then debit; the error of the first that fails |
| `Orders.OrdersService.CreateOrReplace` | canteen-manager/backend/src/orders/orders.service.ts:139-384 | The whole transaction with every refusal in order; any failure leaves orders, balances and ledger as they were |
| `Orders.OrdersService.Write` | canteen-manager/backend/src/orders/orders.service.ts:252-384 | Supersede, insert and settle, or roll back |
| `Orders.OrdersService.AcceptRelativeOrder` | canteen-manager/backend/src/orders/orders.service.ts:413-466 | Only a pending order with a matching amount and a fresh reference becomes paid |
| `Orders.OrdersService.RejectRelativeOrder` | canteen-manager/backend/src/orders/orders.service.ts:470-488 | Only a pending order becomes rejected |
| `Accounts.PostKeepsExact` | canteen-manager/backend/src/accounts/accounts.service.ts:173-189 | A mutation that does not go below zero keeps every balanceAfter an exact prefix sum |
| `Accounts.KindsAddUp` | canteen-manager/backend/src/accounts/accounts.service.ts:127-189 | A balance is its top-ups, reversals and debits added up |
| `GroupedSums.BumpAdds` | canteen-manager/backend/src/orders/orders.service.ts:170-173 | Adding to one key changes the total and that key by the amount and nothing else |
| `Accounts.AccountsService.GetOrCreate` | canteen-manager/backend/src/accounts/accounts.service.ts:74-90 | The row exists afterwards and no balance changed |
| `Accounts.AccountsService.Mutate` | canteen-manager/backend/src/accounts/accounts.service.ts:173-189 | New balance and ledger row in one step |
| `Accounts.AccountsService.Credit` | canteen-manager/backend/src/accounts/accounts.service.ts:127-144 | Books the amount, or refuses a bad amount or a missing operator and changes nothing |
| `Accounts.AccountsService.Debit` | canteen-manager/backend/src/accounts/accounts.service.ts:147-168 | Books the debit if and only if it does not go below zero |
| `EditDistance.Levenshtein` | scanner/src/order_scanner/catalogue.py:191-204 | The two-row loop computes the distance |
| `EditDistance.EditDistanceInPlace` | canteen-manager/backend/src/scans/prisoner-identity-matcher.ts:43-61 | The single array rewritten in place computes the same distance |
| `EditDistance.DistanceIsLeastEditCount` | scanner/src/order_scanner/catalogue.py:191-204 | The distance is the length of a shortest chain of single-character insertions, deletions and replacements anywhere in the text |
| `EditDistance.NoShorterChain` | scanner/src/order_scanner/catalogue.py:191-204 | No chain of edits is shorter |
| `EditDistance.ShortestChain` | scanner/src/order_scanner/catalogue.py:191-204 | Some chain is that short |
| `EditDistance.Triangle` | scanner/src/order_scanner/catalogue.py:191-204 | Triangle inequality |
| `EditDistance.Symmetric` | scanner/src/order_scanner/catalogue.py:191-204 | Symmetry |
| `EditDistance.ZeroMeansEqual` | scanner/src/order_scanner/catalogue.py:191-204 | Distance 0 exactly for equal texts |
| `EditDistance.LengthBounds` | scanner/src/order_scanner/catalogue.py:191-204 | Between the difference of the lengths and the longer length |
| `EditDistance.SimilarityIsAScore` | scanner/src/order_scanner/catalogue.py:186-188 | Similarity is in [0, 1], symmetric, and 1 exactly for equal texts |
| `EditDistance.SimilarityInPlace` | canteen-manager/backend/src/scans/prisoner-identity-matcher.ts:63-66 | The backend's clamp at 0 never changes the value |
| `CatalogueRanking.RankIsSound` | scanner/src/order_scanner/catalogue.py:85-129 | Strict (descending score, id) order with distinct items; each match carries a score some hypothesis and name earned, and no offer of its own item exceeds it; an item left out lost to every match while the limit was reached |
| `CatalogueRanking.AcceptedExactlyWhen` | scanner/src/order_scanner/catalogue.py:107-129 | A match is accepted if and only if it is first, reaches the minimum score, and beats 0 and every offer of every other item, cut off or not, by the minimum margin |
| `CatalogueRanking.IndexAcceptedExactlyWhen` | scanner/src/order_scanner/catalogue.py:67-80 | A catalogue is accepted if and only if no name is empty and no two items share a normalised name; the index then binds each name once |
| `CatalogueRanking.MatchScoreIsAScore` | scanner/src/order_scanner/catalogue.py:178-183 | In [0, 1], and 1 exactly for equal normalised texts |
| `CatalogueRanking.OfferIsAScore` | scanner/src/order_scanner/catalogue.py:98-106 | A weighted score is 1 exactly for a certain reading of the very name |
| `CatalogueRanking.ScoresAreScores` | scanner/src/order_scanner/catalogue.py:85-129 | Every score handed on is in [0, 1] and belongs to a catalogue item |
| `CatalogueRanking.BestIsMaximum` | scanner/src/order_scanner/catalogue.py:98-106 | The dictionary keeps, per item, a maximal offer |
| `CatalogueRanking.BuildIndex` | scanner/src/order_scanner/catalogue.py:67-80 | The constructor's two loops, with the first error raised |
| `CatalogueRanking.Rank` | scanner/src/order_scanner/catalogue.py:85-129 | The whole ranking, refusing a confidence outside [0, 1] |
| `CatalogueRanking.ScoreAll` | scanner/src/order_scanner/catalogue.py:94-106 | The outer loop over hypotheses |
| `CatalogueRanking.Consider` | scanner/src/order_scanner/catalogue.py:101-106 | The inner loop over index entries |
| `Sorting.SortIsOrderedPermutation` | scanner/src/order_scanner/catalogue.py:107 | The library sort orders and permutes |
| `IdentityMatching.VerdictsDecide` | canteen-manager/backend/src/scans/prisoner-identity-matcher.ts:84-109 | A better identifier verdict is never outweighed by the name, and with equal identifier verdicts a better name verdict always scores more; scores lie in 50 to 190 |
| `IdentityMatching.ShortlistIsTheHead` | canteen-manager/backend/src/scans/prisoner-identity-matcher.ts:122-127 | The shortlist is the head of an ordered permutation of all rated candidates |
| `IdentityMatching.Rate` | canteen-manager/backend/src/scans/prisoner-identity-matcher.ts:84-118 | Score and reasons of one candidate |
| `IdentityMatching.RankPrisonerCandidates` | canteen-manager/backend/src/scans/prisoner-identity-matcher.ts:68-138 | Shortlist and flags; the conflict flag speaks of the shortlisted candidates only |
| `Calibration.Apply` | scanner/src/order_scanner/recognition.py:62-73 | The loop finds the segment and interpolates |
| `Calibration.CalibrationStaysAScore` | scanner/src/order_scanner/recognition.py:62-73 | A calibrated confidence stays in [0, 1] |
| `Calibration.CurveHitsItsPoints` | scanner/src/order_scanner/recognition.py:62-73 | The curve passes through every calibration point |
| `Calibration.CalibrationKeepsOrder` | scanner/src/order_scanner/recognition.py:62-73 | A rising curve never reverses two confidences |
| `Recognition.RecognizeFixedCells` | scanner/src/order_scanner/recognition.py:243-315 | The loop over cells, with its four lists and the blank flag |
| `Recognition.IdReadExactlyWhen` | scanner/src/order_scanner/recognition.py:116-117 | An identifier is read if and only if there are six cells that each show one digit; else the field carries an error |
| `Recognition.RoomReadExactlyWhen` | scanner/src/order_scanner/recognition.py:119-129 | A room is read if and only if at most the configured number of cells show letters or digits followed only by blanks; the second check never acts |
| `Recognition.RoomsFitExactlyWhen` | scanner/src/order_scanner/recognition.py:119-129 | Given any number of cells the recogniser reads only rooms that the result record allows if and only if it is configured for at most four; the pipeline never hands it more than four cells |
| `Recognition.QuantityReadExactlyWhen` | scanner/src/order_scanner/recognition.py:131-180 | Reading raises if and only if the best reading has more digits than int() takes; else a quantity is read if and only if the best reading is all digits and in range, and it is that number |
| `Recognition.LongNumberRaises` | scanner/src/order_scanner/recognition.py:131-180 | 4301 ones are such a reading |
| `Recognition.ItemRecognitionIsSound` | scanner/src/order_scanner/recognition.py:182-241 | Ranking never refuses; a named item carries its own three-digit code from the catalogue; otherwise the field carries an error |
| `Validation.ValidatePage` | scanner/src/order_scanner/validation.py:47-139 | The validation loop, duplicate rows refused |
| `Validation.ValidationInventsNothing` | scanner/src/order_scanner/validation.py:47-139 | Results are exactly the non-blank rows in row order, each reporting its evidence unchanged with warnings only added |
| `Validation.AcceptedExactlyWhen` | scanner/src/order_scanner/validation.py:120-139 | A page is accepted if and only if both headers are present, nothing carries an error, and every row is clean |
| `Validation.EmptyPresentRowIsAccepted` | scanner/src/order_scanner/validation.py:47-139 | A row called present with both fields empty raises no warning, and the page is accepted with a line that orders nothing |
| `PagePipeline.ProcessPage` | scanner/src/order_scanner/pipeline.py:100-164 | The page processor, with every constructor check |
| `PagePipeline.ProcessingNeverBreaks` | scanner/src/order_scanner/pipeline.py:100-164 | For every policy and whatever the backend returned, a page of a matching job yields a result if and only if no quantity has more digits than int() takes; no constructor ever raises |
| `PagePipeline.AcceptedIsTheForm` | scanner/src/order_scanner/pipeline.py:234-294 | In an accepted result the identifier is the six digits shown, the room the one to four letters or digits shown before the first blank, every row is either classified blank or one line with a catalogue item and exactly the quantity written, and no line comes from anywhere else |
| `PagePipeline.LongNumberFailsTheJob` | scanner/src/order_scanner/pipeline.py:100-164 | A page with one quantity of 4301 digits and no other content fails its job |
| `PagePipeline.ReadPage` | scanner/src/order_scanner/pipeline.py:234-307 | The recognition of a whole page, up to the first row that raises |
| `PagePipeline.ReadingIsSound` | scanner/src/order_scanner/pipeline.py:234-307 | Recognition raises if and only if an aligned page has an overlong quantity; otherwise every field and row handed to validation satisfies its constructor |
| `Contracts.StripIsFinal` | scanner/src/order_scanner/contracts.py:287 | Stripped text has no outer space, and stripping is idempotent |
| `Crc16.Crc16Ccitt` | canteen-manager/backend/src/common/vietqr-payload.ts:19-30 | The nested loops over 32-bit numbers compute the 16-bit register |
| `Crc16.CrcIsFeedAll` | canteen-manager/backend/src/common/vietqr-payload.ts:23-29 | The byte-wise program feeds the message bit by bit, most significant first, into a register of ones |
| `CrcRegister.ShiftsSplit` | canteen-manager/backend/src/common/vietqr-payload.ts:24-28 | Mixing a whole byte first equals taking its bits one at a time |
| `CrcRegister.ShiftWide` | canteen-manager/backend/src/common/vietqr-payload.ts:26-27 | The masked 32-bit shift is the 16-bit shift |
| `CrcTheory.CrcIsTheRemainder` | canteen-manager/backend/src/common/vietqr-payload.ts:19-30 | The checksum is the remainder, and the only one, of the message with FFFF added in front and sixteen zeros behind, divided by x^16 + x^12 + x^5 + 1 |
| `CrcTheory.DivisionIsUnique` | canteen-manager/backend/src/common/vietqr-payload.ts:19-30 | Quotient and remainder of that division are unique |
| `CrcTheory.BurstsAreDetected` | canteen-manager/backend/src/common/vietqr-payload.ts:19-30 | Messages of one length differing only within sixteen consecutive bits have different checksums |
| `CrcTheory.AgreementMeans` | canteen-manager/backend/src/common/vietqr-payload.ts:19-30 | Registers that agree after at most sixteen bits differed exactly as those bits did |
| `VietQr.BuildVietQrPayload` | canteen-manager/backend/src/common/vietqr-payload.ts:47-85 | The builder, with its refusals in order |
| `VietQr.PayloadReadsBack` | canteen-manager/backend/src/common/vietqr-payload.ts:35-85 | For every valid bank code, account, positive safe amount and folded memo of at most 95 characters the builder succeeds, and a nested TLV reader with checksum test returns exactly those values |
| `VietQr.BuiltExactlyWhen` | canteen-manager/backend/src/common/vietqr-payload.ts:47-85 | For safe amounts the builder succeeds if and only if those conditions hold |
| `VietQr.ReadUndoesWrite` | canteen-manager/backend/src/common/vietqr-payload.ts:35-41 | Fields that fit are written and read back as they were |
| `VietQr.DamageIsNoticed` | canteen-manager/backend/src/common/vietqr-payload.ts:81-84 | Damage before the checksum within sixteen consecutive bits never passes the reader |
| `BankMemo.MemoIsShortAndTidy` | canteen-manager/backend/src/kiosk/bank-memo.ts:12-19 | Every memo of a UUID order starts with its code, has 8 to 25 characters, only [A-Z0-9 ], single-spaced and trimmed |
| `BankMemo.FoldIsTidy` | canteen-manager/backend/src/common/ascii-fold.ts:8-18 | Whatever a name decomposes to, its fold is trimmed single-spaced [A-Z0-9 ] |
| `BankMemo.KioskPayloadReadsBack` | canteen-manager/backend/src/kiosk/kiosk.service.ts:138-146 | For a valid account and a positive safe amount there is a payload, and scanning it returns account, amount and a memo naming the order |
| `Kiosk.PlaceOrder` | canteen-manager/backend/src/kiosk/kiosk.service.ts:109-156 | Refusals first, then the committed order, then the transfer code or the error its builder throws |
| `Kiosk.CodeExactlyWhen` | canteen-manager/backend/src/kiosk/kiosk.service.ts:137-153 | With a configured account a bank order gets a code if and only if its stored total is positive, and the code reads back as account, total and a memo naming the order |
| `Kiosk.FreeOrderThrows` | canteen-manager/backend/src/kiosk/kiosk.service.ts:137-153 | One portion of an item priced 0: the order is committed and the builder throws |
| `Numerals.NumeralReads` | canteen-manager/backend/src/common/vietqr-payload.ts:78 | Reading a numeral gives the number back |
| `Numerals.PaddedReads` | canteen-manager/backend/src/common/vietqr-payload.ts:29 | A padded numeral has the width and still reads back |
| `AmountWords.ToVietnameseAmountWords` | canteen-manager/backend/src/common/vietnamese-amount-words.ts:48-74 | The printer's two loops; RangeError exactly outside the non-negative safe integers |
| `AmountWords.ReadThreeDigits` | canteen-manager/backend/src/common/vietnamese-amount-words.ts:23-46 | The words of one group |
| `AmountWords.AmountReadsBack` | canteen-manager/backend/src/common/vietnamese-amount-words.ts:48-74 | A listener recovers every amount up to 2^53 − 1 from its text, despite skipped groups, forced hundreds, mốt/tư/lăm and two-word scales |
| `AmountWords.WordingsAreDistinct` | canteen-manager/backend/src/common/vietnamese-amount-words.ts:48-74 | No two amounts share a wording |
| `AmountWords.HearSpoken` | canteen-manager/backend/src/common/vietnamese-amount-words.ts:61-71 | The groups spoken so far add exactly their worth |
| `AmountWords.HearGroup` | canteen-manager/backend/src/common/vietnamese-amount-words.ts:23-46 | A group of three digits is heard as its value |
| `AmountWords.LexUndoesJoin` | canteen-manager/backend/src/common/vietnamese-amount-words.ts:73 | Joining with spaces loses nothing |
| `MenuLaws.MenuStaysContiguous` | canteen-manager/backend/src/menu/menu.service.ts:130-259 | Over every run whose reorders name each item once: positions are exactly 0 to N−1, printed codes are distinct three-digit texts, N ≤ 999 |
| `MenuLaws.FormFreezesTheMenu` | canteen-manager/backend/src/menu/menu.service.ts:172-259 | Once a form was generated no run changes an item's position, code or name, and no row disappears |
| `MenuLaws.ReorderContiguousExactlyWhen` | canteen-manager/backend/src/menu/menu.service.ts:227-259 | A well-sized reorder of known items is always carried out, and leaves positions contiguous if and only if no item is named twice, which the code does not check |
| `MenuLaws.RemovedCodeComesBackExactlyWhen` | canteen-manager/backend/src/menu/menu.service.ts:415-429 | Before a form exists the item added after a removal takes the code of the item to be removed if and only if no order names that item, its code was the highest, and the predecessor is 0 or in use, although the entity calls codes never reused |
| `MenuLaws.RepeatedReorderLeavesAGap` | canteen-manager/backend/src/menu/menu.service.ts:227-259 | Two items added and reordered as the first one twice: accepted, and the positions are not contiguous |
| `MenuLaws.RemovedCodeComesBack` | canteen-manager/backend/src/menu/menu.service.ts:415-429 | Added, removed, another added: it is printed under the removed code |
| `MenuLaws.AddKeeps` | canteen-manager/backend/src/menu/menu.service.ts:130-165 | An add succeeds at the first attempt exactly while the highest code is below 999, takes the next position and code, and disturbs nothing |
| `MenuLaws.RemoveKeeps` | canteen-manager/backend/src/menu/menu.service.ts:197-220 | Before a form exists a removal succeeds if and only if no order line refers to the item; then it renumbers contiguously and drops exactly that row and code, else it changes nothing |
| `MenuLaws.OrderedItemIsNotRemoved` | canteen-manager/backend/src/orders/order-item.entity.ts:28-33 | Added, ordered at the kiosk, removed: the RESTRICT foreign key refuses, although no form exists |
| `MenuLaws.OrderedItemsStay` | canteen-manager/backend/src/orders/order-item.entity.ts:28-33 | Over every run whose reorders name each item once, an item that an order line refers to is never lost |
| `MenuLaws.ShiftWorks` | canteen-manager/backend/src/menu/menu.service.ts:215-217 | No single write of the +1000 phase meets a taken position |
| `MenuLaws.AssignWorks` | canteen-manager/backend/src/menu/menu.service.ts:218-219 | No single write of the assigning phase meets a taken position, even with repeated ids |
| `MenuLaws.ContiguousIsExact` | canteen-manager/backend/src/menu/menu.service.ts:415-418 | N distinct positions below N are all of 0 to N−1 |
| `MenuLaws.AtMost999` | canteen-manager/backend/src/menu/menu.service.ts:137-142 | Distinct three-digit codes leave room for 999 rows |
| `Menu.MenuService.AddItem` | canteen-manager/backend/src/menu/menu.service.ts:130-165 | Up to five attempts, capacity refused first |
| `Menu.MenuService.UpdateItem` | canteen-manager/backend/src/menu/menu.service.ts:172-188 | Edits in place; a changed name is refused after a form |
| `Menu.MenuService.TwoPhase` | canteen-manager/backend/src/menu/menu.service.ts:214-220 | Shift all rows, then assign, row by row under the unique index |
| `Menu.MenuService.RemoveItem` | canteen-manager/backend/src/menu/menu.service.ts:197-220 | Soft after a form; before, refused while an order line refers to the item, else hard and renumbered |
| `Menu.MenuService.ReorderItems` | canteen-manager/backend/src/menu/menu.service.ts:227-259 | Locked after a form; size and ids checked; two-phase write |
| `IssuedForms.OneFormOneSheetOneOrder` | canteen-manager/backend/src/scans/scan-processor.service.ts:344-416 | Over every run: at most one issued form per prisoner and date, and per token at most one sheet flagged or verified |
| `IssuedForms.VoidIsFinal` | canteen-manager/backend/src/scans/scan-processor.service.ts:389-402 | A void form stays void for its reason; after a checksum conflict no sheet carrying the token is or becomes flagged or verified; no void token ever yields a verified sheet |
| `IssuedForms.SecondScanRejectsAll` | canteen-manager/backend/src/scans/scan-processor.service.ts:389-402 | A second scan of a reserved form voids it and rejects every sheet carrying it |
| `IssuedForms.RunAdvances` | canteen-manager/backend/src/scans/scan-processor.service.ts:96-114 | Rejected and verified sheets and spent forms never change again |
| `IssuedForms.StepKeeps` | canteen-manager/backend/src/scans/scan-processor.service.ts:344-453 | Every transaction keeps the token invariant |
| `IssuedForms.FormDesk.CommitBatch` | canteen-manager/backend/src/omr-forms/omr-forms.service.ts:352-449 | Predecessors of the batch are void, one new form per user |
| `IssuedForms.FormDesk.ResolveIssuedToken` | canteen-manager/backend/src/scans/scan-processor.service.ts:344-416 | Invalid token rejects the sheet; a foreign reservation voids and rejects all; otherwise reserve and flag |
| `IssuedForms.FormDesk.RetryProcessing` | canteen-manager/backend/src/scans/scan-processor.service.ts:179-203 | Third failure rejects, earlier ones return the sheet to pending |
| `IssuedForms.FormDesk.ConfirmSheet` | canteen-manager/backend/src/scans/verify/verify.service.ts:479-587 | Refusals in order, a form conflict rejects the sheet, success consumes the form and verifies the sheet |
| `IssuedForms.FormDesk.RejectFlagged` | canteen-manager/backend/src/scans/verify/verify.service.ts:1002-1025 | Only a flagged sheet is rejected |
| `IngestionLaws.AcceptedAfterExactlyWhen` | scanner/src/order_scanner/storage.py:288-446 | After one receipt was entered another is accepted if and only if it was acceptable before and the two agree on media type, service date, bundle and evidence of a shared source and on every artifact both name |
| `IngestionLaws.CreateIsPlus` | scanner/src/order_scanner/storage.py:288-446 | Entering a receipt adds rows of that receipt only |
| `IngestionLaws.ReplayChangesNothing` | scanner/src/order_scanner/storage.py:288-446 | Entering an entered receipt again adds or changes no source, discovery, document, job, artifact or event and re-opens no job |
| `IngestionLaws.CreateAppliesAll` | scanner/src/order_scanner/storage.py:288-446 | An accepted receipt is entered whole; old rows and job states are untouched; new jobs are queued |
| `IngestionLaws.RefusalPersists` | scanner/src/order_scanner/storage.py:288-446 | A receipt refused now is refused by every later database |
| `Recovery.CrashThenRestart` | scanner/src/order_scanner/ingestion.py:343-388 | A crash after any durable step, on any disk, then start-up: it enters, in the order of their names, the ready and acceptable receipts among the interrupted one, those that waited for its bytes and those not settled before, leaving out each that disagrees with one entered earlier, and nothing else |
| `Recovery.InterruptedEnteredExactlyWhen` | scanner/src/order_scanner/ingestion.py:343-388 | With receipt and source on disk the interrupted receipt is in the database after start-up if and only if the transaction would have been accepted at the crash and no receipt entered before it disagrees with it |
| `Recovery.WaitingReceiptIsCounted` | scanner/src/order_scanner/ingestion.py:414-540 | A crash before the source is in place: start-up does what it would have done without the ingestion, and reports its receipt, once written, as one more incomplete one |
| `Recovery.StartUpEntersExactly` | scanner/src/order_scanner/ingestion.py:414-540 | On any disk start-up enters exactly the ready, acceptable receipts compatible with those entered earlier, and counts every other one that is not a legacy receipt as incomplete |
| `Recovery.EnteredExactlyWhen` | scanner/src/order_scanner/ingestion.py:414-540 | On any disk a ready receipt is in the database after start-up if and only if the database before accepts it and it is compatible with those entered earlier |
| `Recovery.StartUpIsIdleExactlyWhen` | scanner/src/order_scanner/ingestion.py:414-540 | A start-up changes the database if and only if some receipt on disk is not settled |
| `Recovery.RepeatedStartUpIsIdle` | scanner/src/order_scanner/ingestion.py:414-540 | Further start-ups with no ingestion between them change nothing, however far the queue went on |
| `Recovery.OnlyTheRestMatters` | scanner/src/order_scanner/ingestion.py:414-540 | Settled receipts can be left out of a start-up without any difference to the database |
| `Recovery.ReconcileSettles` | scanner/src/order_scanner/ingestion.py:414-540 | One start-up settles every receipt on disk |
| `Recovery.RunKeeps` | scanner/src/order_scanner/ingestion.py:343-540 | Over every run of ingestions, crashes at any durable step, start-ups and queue work: receipts have their crops, sources their bytes, no discovery is doubled, every document has one job and one announcement, and nothing is lost |
| `Recovery.OneStartUpIsEnough` | scanner/src/order_scanner/ingestion.py:414-540 | After any history one start-up is enough: until the next ingestion further ones change nothing |
| `Recovery.IngestedStaysEntered` | scanner/src/order_scanner/ingestion.py:343-388 | What a completed ingestion entered stays entered through every later run |
| `Recovery.OlderDateWins` | scanner/src/order_scanner/ingestion.py:196-205 | One file ingested on two days and interrupted both times: start-up enters the first day, refuses the second, and reports it incomplete |
| `Recovery.OlderReceiptIsEnteredToo` | scanner/src/order_scanner/ingestion.py:414-540 | When the two agree, the same start-up enters both |
| `Ingestion.IngestionService.CreatePage` | scanner/src/order_scanner/storage.py:288-446 | The rows of one page, or a refusal |
| `Ingestion.IngestionService.CreateSourceDocumentsJobs` | scanner/src/order_scanner/storage.py:235-446 | All of the receipt or nothing |
| `Ingestion.IngestionService.ReconcileStartup` | scanner/src/order_scanner/ingestion.py:414-540 | Replays the receipts in order and counts replayed, incomplete and legacy ones |
| `Ingestion.IngestionService.Ingest` | scanner/src/order_scanner/ingestion.py:343-388 | Crops, receipt, source, transaction, in that durable order, stopping at the first failure |
| `ScanAdmission.StartPassesExactlyWhen` | canteen-manager/backend/src/scans/scan-admission.service.ts:28-37 | In every reachable state a call that may start goes on to the reservation if and only if fewer than the rate of its credential's recorded admissions lie in the last 60 000 ms and its running uploads are fewer than its concurrency; else it has failed, and the service says nothing else |
| `ScanAdmission.StartsExactlyWhen` | canteen-manager/backend/src/scans/scan-admission.service.ts:115-132 | A waiting call may start if and only if every earlier call of its credential is finished: no promise of the chain is lost |
| `ScanAdmission.PendingRowsAreCounted` | canteen-manager/backend/src/scans/scan-admission.service.ts:68-113 | Over every run the pending rows are the initial ones plus the commits minus the rows done |
| `JobEffects.CompletionWrites` | scanner/src/order_scanner/storage.py:900-1008 | A completion happens if and only if nothing stored or passed in contradicts it; then the job is completed without owner or lease, result and callback are stored under the revision, all other rows stay; otherwise nothing changes |
| `JobEffects.FailureWrites` | scanner/src/order_scanner/storage.py:675-739 | Only the holder's failure is stored: retryable while it asks for that and attempts are left, permanent otherwise, available again after the delay |
| `JobEffects.RenewalWrites` | scanner/src/order_scanner/storage.py:599-628 | A renewal moves the holder's lease to now + lease and changes nothing else |
| `JobEffects.RecoveryWrites` | scanner/src/order_scanner/storage.py:630-673 | Exactly the rows whose lease has run out are freed, at once, for another attempt or for good |
| `JobEffects.ClaimWrites` | scanner/src/order_scanner/storage.py:529-597 | A claim fails every retryable job without attempts for good and leases exactly the next job in line: one attempt and one epoch more, owned until now + lease |
| `JobEffects.SomeoneIsNext` | scanner/src/order_scanner/storage.py:552-561 | Some job is next in line if and only if one waits |
| `JobEffects.EnqueueWrites` | scanner/src/order_scanner/storage.py:288-446 | A new document gets one queued job with no attempts; a known document or job is left alone |
| `JobEffects.ArtifactWrites` | scanner/src/order_scanner/storage.py:795-899 | The holder's new artifact is recorded for its job; nobody else's is |
| `JobEffects.SecondAttemptSucceeds` | scanner/src/order_scanner/storage.py:529-1008 | Queued, claimed, lost, recovered, claimed again and completed: one run that ends with two attempts, one result and one callback |
| `DeliveryEffects.SettlementWrites` | scanner/src/order_scanner/callbacks.py:152-202 | By the holder: delivered if and only if 200 to 299; retrying if and only if a transport error or 408, 425, 429 or 500 to 599 with a delay, and then at the moment the server named, capped, or within the maximum; left open if and only if something raises; blocked on everything else. Nobody else's settlement does anything |
| `DeliveryEffects.BackOffDoubles` | scanner/src/order_scanner/callbacks.py:105-120 | Without a Retry-After the full delay starts at the base and doubles up to the maximum, and the random value takes its share |
| `DeliveryEffects.ClaimWrites` | scanner/src/order_scanner/storage.py:1017-1094 | A claim leases exactly the next event due, opens its next attempt and hands on its key and payload; with none due it does nothing |
| `DeliveryEffects.ReplayWrites` | scanner/src/order_scanner/storage.py:1155-1183 | A replay re-opens the event at once and counts it, exactly while nobody leases it |
| `DeliveryEffects.RecoveryWrites` | scanner/src/order_scanner/storage.py:1185-1227 | Exactly the events whose lease ran out are to be retried at once, their attempt closed |
| `DeliveryEffects.InsertWrites` | scanner/src/order_scanner/storage.py:968-990 | A new event is pending and due at once; a known one is left alone |
| `OrderEffects.CreatedExactlyWhen` | canteen-manager/backend/src/orders/orders.service.ts:139-384 | A create succeeds if and only if the request is well formed, its items are available and within the limits of its channel, no order is in the way of a relative one, a replacement was not declined, and the balance plus the replaced total covers a scanned one |
| `OrderEffects.RefusedBecause` | canteen-manager/backend/src/orders/orders.service.ts:139-384 | A refused create answers the first error that applies: user, empty order, quantity, source, operator, tender, menu, limit of food, limit of essentials, declined replacement, pending order, money |
| `OrderEffects.MoneyRefusedBecause` | canteen-manager/backend/src/orders/orders.service.ts:344-375 | The money error is a total above 1 000 000 000, or else one that the money does not cover |
| `OrderEffects.TheOneInTheWay` | canteen-manager/backend/src/orders/orders.service.ts:255-276 | The order to be replaced is the active one of that prisoner, day and channel, and there is at most one |
| `OrderEffects.CreateWrites` | canteen-manager/backend/src/orders/orders.service.ts:293-375 | The old orders stay, except the one in the way, which is superseded by the new one; the new one, last, is active, has the request's date, prisoner and source, is paid from the balance if and only if it is scanned, else unpaid with the tender chosen; a scanned one books the replaced total in and its own out |
| `OrderEffects.StoredLines` | canteen-manager/backend/src/orders/orders.service.ts:164-235 | The stored lines are exactly the items asked for, each once, with the sum of its quantities at the menu's price and category |
| `OrderEffects.AcceptWrites` | canteen-manager/backend/src/orders/orders.service.ts:413-466 | A relative order that is active and unpaid becomes paid if and only if the amount received, if given, is its total and no order has the reference; books and other orders stay |
| `OrderEffects.RejectWrites` | canteen-manager/backend/src/orders/orders.service.ts:470-488 | A relative order that is active and unpaid becomes rejected; nothing else changes |
| `OrderEffects.TopUpWrites` | canteen-manager/backend/src/accounts/accounts.service.ts:127-144 | An operator's top-up of 1 to 1 000 000 000 books exactly that amount |
| `OrderEffects.PaidOnlyAtTheCounter` | canteen-manager/backend/src/orders/orders.service.ts:413-466 | Over every run a relative order is paid only if an earlier step was an accept of that order which succeeded |
| `OrderEffects.EachGroupIsExact` | canteen-manager/backend/src/orders/orders.service.ts:725-816 | Every row of a grouping is the sum of exactly its own paid orders |
| `OrderEffects.EachCategoryIsExact` | canteen-manager/backend/src/orders/orders.service.ts:752-766 | Every category row is the sum of exactly its own paid lines |
| `OrderEffects.EachVoucherIsExact` | canteen-manager/backend/src/orders/orders.service.ts:560-648 | Each voucher charges its prisoner exactly their own paid orders of the day, states their balance, and lists every item with exactly the portions those orders name |
| `RankingEffects.SimilarityCountsEdits` | scanner/src/order_scanner/catalogue.py:186-188 | The similarity of different texts is one minus the least number of edits over the longer length |
| `RankingEffects.MatchScoreIs` | scanner/src/order_scanner/catalogue.py:178-183 | 1 for equal texts, else the better of the similarity and 0.97 times the similarity without accents; at least 0.97 when only accents differ |
| `RankingEffects.RankedScores` | scanner/src/order_scanner/catalogue.py:85-129 | A ranking is refused if and only if a confidence is outside [0, 1]; every match names the alias at which some counted reading earned its score, and no counted reading earned more at any name of its item |
| `RankingEffects.MarginsAre` | scanner/src/order_scanner/catalogue.py:107-129 | The margin of a match is its lead over the next one, and of the last its score |
| `RankingEffects.NextNameIndexed` | scanner/src/order_scanner/catalogue.py:67-80 | One more name takes its key, from an earlier name of the same item if need be, and leaves every other entry; it is refused if it normalises to nothing or another item has the key |
| `PaymentEffects.PayloadFields` | canteen-manager/backend/src/common/vietqr-payload.ts:47-85 | The payload, tag by tag: format 01, dynamic 12, the NAPAS account with bank code and number for QRIBFTTA, currency 704, the amount in decimals, country VN, the memo and the checksum |
| `PaymentEffects.PayloadRefusedBecause` | canteen-manager/backend/src/common/vietqr-payload.ts:47-66 | A refused payload answers the first, in this order, of amount, bank code, account and memo |
| `PaymentEffects.NumeralIsCanonical` | canteen-manager/backend/src/common/vietqr-payload.ts:78 | A numeral has no leading zero |
| `PaymentEffects.FoldIsFolded` | canteen-manager/backend/src/common/ascii-fold.ts:8-18 | A name folds as what decomposing and upper-casing make of it |
| `PaymentEffects.TidyFoldsToItself` | canteen-manager/backend/src/common/ascii-fold.ts:8-18 | A tidy text folds to itself |
| `PaymentEffects.OthersActAsSpaces` | canteen-manager/backend/src/common/ascii-fold.ts:12-16 | A character outside the memo alphabet acts as a space |
| `PaymentEffects.TwoSpacesAreOne` | canteen-manager/backend/src/common/ascii-fold.ts:12-16 | Two spaces fold as one |
| `PaymentEffects.LeadingSpaceVanishes` | canteen-manager/backend/src/common/ascii-fold.ts:17 | A space in front folds to nothing |
| `PaymentEffects.TrailingSpaceVanishes` | canteen-manager/backend/src/common/ascii-fold.ts:17 | A space behind folds to nothing |
| `PaymentEffects.CodeIs` | canteen-manager/backend/src/orders/order-confirmation-code.ts:5-6 | The confirmation code is the first eight characters of the identifier in upper case |
| `PaymentEffects.MemoIs` | canteen-manager/backend/src/kiosk/bank-memo.ts:12-19 | The memo is the code and, if the folded name is not empty, a space and its first 16 characters without a space at the end |
| `PaymentEffects.KioskOrderIs` | canteen-manager/backend/src/kiosk/kiosk.service.ts:109-136 | A kiosk order is stored as a visitor's active, unpaid order for that prisoner and day with the tender chosen; it replaces nothing and moves no money |
| `PaymentEffects.CodeOnlyForTransfers` | canteen-manager/backend/src/kiosk/kiosk.service.ts:137-153 | No code for cash, and none without a configured account |
| `Wording.EveryWordStands` | canteen-manager/backend/src/common/vietnamese-amount-words.ts:16-74 | In the words of every amount mốt and tư stand behind mươi only, lăm behind mươi or mười only, and một, bốn and năm never there; lẻ stands between trăm and a last digit; không is spoken for missing hundreds only, and every group behind a scale shows its hundreds |
| `MenuEffects.AddWrites` | canteen-manager/backend/src/menu/menu.service.ts:130-165 | A new item goes behind the last row, active, under a fresh identifier, the next position and the code after the highest, of which 999 is the last |
| `MenuEffects.EditWrites` | canteen-manager/backend/src/menu/menu.service.ts:172-188 | An edit changes the fields it names of the row it names; after the first form the name stays as it is |
| `MenuEffects.RemoveWrites` | canteen-manager/backend/src/menu/menu.service.ts:197-220 | After the first form a removal only makes its row inactive; before it, unless an order refers to it, the row goes and the others keep everything, in the same order, at positions 0 to N−1 |
| `MenuEffects.ReorderWrites` | canteen-manager/backend/src/menu/menu.service.ts:227-259 | Refused after the first form, for a wrong number of identifiers or an unknown one; else, naming each item once, it puts the item named k-th at position k and changes nothing else |
| `MenuEffects.OrderWrites` | canteen-manager/backend/src/orders/orders.service.ts:205-225 | An order refers to all its items from then on or, if one does not exist or is inactive off a form, to none |
| `FormEffects.CommitWrites` | canteen-manager/backend/src/omr-forms/omr-forms.service.ts:352-449 | A batch of 1 to 50 different prisoners with an unchanged roster voids every form still issued to one of them for that day and issues one new form each, in order; any other changes nothing |
| `FormEffects.ResolveWrites` | canteen-manager/backend/src/scans/scan-processor.service.ts:344-416 | A token that does not do rejects the sheet for the first reason that applies; the first sheet of one that does is flagged and reserves the form; a second voids the form and rejects every sheet carrying it |
| `FormEffects.ConfirmWrites` | canteen-manager/backend/src/scans/verify/verify.service.ts:479-587 | A flagged sheet of an active prisoner with known items is verified with its order and consumes its form; with something in the way it is rejected for that; every other refusal changes nothing |
| `FormEffects.RejectWrites` | canteen-manager/backend/src/scans/verify/verify.service.ts:1002-1025 | An operator's rejection ends a flagged sheet and nothing else |
| `FormEffects.ProcessingWrites` | canteen-manager/backend/src/scans/scan-processor.service.ts:96-205 | Uploaded a sheet waits; begun it is in processing; unreadable it is rejected; a failed attempt sends it back and the third ends it |
| `FormEffects.GenericWrites` | canteen-manager/backend/src/scans/scan-processor.service.ts:344-453 | A sheet of a generic form carries no token: usable it is flagged, else rejected |
| `ValueEffects.ScoreIs` | canteen-manager/backend/src/scans/prisoner-identity-matcher.ts:84-138 | 100 points for the cell; 40 more for the same name, 30 times the likeness, rounded, from one half on; 50 more for the same identifier and 50 less for another, where one was read |
| `ValueEffects.ListedAre` | canteen-manager/backend/src/scans/prisoner-identity-matcher.ts:84-138 | Nobody is listed without a readable name and cell; otherwise as many as asked for, at most ten |
| `ValueEffects.CalibratedIs` | scanner/src/order_scanner/recognition.py:62-73 | A calibrated confidence lies on the straight line between the two points around it, and at the first or last height outside them |
| `ValueEffects.StampIs` | scanner/src/order_scanner/storage.py:1790-1793 | A moment is written as YYYY-MM-DDTHH:MM:SS.ffffffZ, and every part reads back |
| `PageEffects.HeadersAre` | scanner/src/order_scanner/recognition.py:243-311 | The raw text is every reading of the cells looked at; a value read has the least calibrated confidence of its cells, is its own only candidate and is warned about exactly in review-only mode; otherwise the warnings name each kind of fault found, or that nothing was written |
| `PageEffects.QuantityFieldIs` | scanner/src/order_scanner/recognition.py:131-180 | The stripped best reading with its calibrated confidence, the readings that are not blank as candidates, and the one warning that is due |
| `PageEffects.ItemFieldIs` | scanner/src/order_scanner/recognition.py:182-241 | The unstripped best reading with its calibrated confidence, every match of the ranking as a candidate, and without a catalogue, a match or a safe match the warning that says so |
| `PageEffects.RowIs` | scanner/src/order_scanner/pipeline.py:255-294 | A row without both crops is unavailable and uncertain; one called blank is not looked at; any other has the fields its two crops are read as |
| `PageEffects.PageIs` | scanner/src/order_scanner/validation.py:47-139 | Every reported row carries exactly the errors of half a pair and of no catalogue item; the page warnings are exactly those of the uncertain rows and of the rows that have content though called blank |
| `PageEffects.RefusedBecause` | scanner/src/order_scanner/pipeline.py:100-109 | A foreign document, then a foreign bundle, then a missing service date, each refused under its own name |
| `PageEffects.ResultIs` | scanner/src/order_scanner/pipeline.py:110-164 | A result is revision 1 of its document, page and service date, stamped now, and its callback repeats it under its own identity; a page not aligned, or that nothing can read, goes to review without a header |
| `PageEffects.LinesAre` | scanner/src/order_scanner/pipeline.py:234-294 | The lines and warnings of an aligned page are those of its twelve rows |
| `ReadingEffects.StripIs` | scanner/src/order_scanner/recognition.py:274 | Stripping takes the white space off both ends, all of it, and nothing else |
| `ReadingEffects.CellShows` | scanner/src/order_scanner/recognition.py:274-290 | A cell is read if it shows one digit, or for a room one digit or Latin letter; a room cell is blank if it shows nothing, a hyphen, a minus sign or a long dash |
| `ReadingEffects.NumbersAre` | scanner/src/order_scanner/recognition.py:131-180 | A quantity is the number its decimal digits denote; more than 4300 digits raise |
| `ReadingEffects.CurveIsUsed` | scanner/src/order_scanner/recognition.py:62-73 | A field with a curve gets the calibrated value of each of its points, one without keeps the recogniser's confidence |
| `IngestionLaws.AcceptedExactlyWhen` | scanner/src/order_scanner/storage.py:235-446 | On any database a receipt is accepted if and only if it is well formed with its crops on disk; its source, if known, has its media type and no other date; no document of it has another bundle or evidence; and of each artifact every row of that id says the same and no other row holds its place, in the rows and among its own |
| `IngestionLaws.FirstReceiptExactlyWhen` | scanner/src/order_scanner/storage.py:235-446 | On an empty database a well-formed receipt is accepted if and only if two of its artifacts with one id agree in everything and two with different ids differ in page or slot |
| `IngestionLaws.CreateWrites` | scanner/src/order_scanner/storage.py:288-446 | Afterwards the source has media type and date, each page its document, a job of the bundle (queued if new) and its evidence, each artifact a row with its document, bundle, slot, bytes and details; the discovery and new documents are announced; other rows stay |
| `Recovery.CompletesExactlyWhen` | scanner/src/order_scanner/ingestion.py:343-388 | An ingestion completes if and only if every crop and the source fit what is on disk and the database accepts the receipt; then receipt, crops, source and rows are all there |
| `Recovery.LegacyAreCounted` | scanner/src/order_scanner/ingestion.py:414-540 | Start-up counts every receipt from before service dates as such, and no other |

## Left out

- Images, HTTP, controllers, guards, JSON, PDF, Electron and React: foreign numerics and plumbing.
- Floating-point rounding: scores, confidences, delays and calibrated values are exact reals.
- SQL engines, isolation levels and the unique-index race of two concurrent relative creates: transactions are serial.
- SHA-256, UUIDs and deterministic identifiers: injective by construction, or positions in insertion order.
- Unicode normalisation, case folding and locale comparison: parameters; the fold's later stages and Python's `strip` are modelled.
- Claims without `max_attempts`, worker heartbeats and the polling loop of `run_worker_loop`: any sequence of queue steps is covered, so a loop adds none.
- The global order of `state_events` across entities, and the outbox's own events: the audit log is kept per job.
- `payload_max_bytes` in the pipeline: a payload that is too large fails the job before a result exists.
- Artifact URLs, identifiers, timestamps and versions inside the result record: their checks speak of configuration, not of recognition.
- Generic and scanner sheets, retention and the demo seeds: they carry no form token.
- The stability tracker, inbox listing, visual fingerprints, staging clean-up and rejection records: none changes what a receipt enters.
- Purchase-limit policy, zone access, roster and template comparison: their verdicts are parameters.
- Kitchen summary and the two list endpoints of the menu: read one query each.
- VietQr.BuiltExactlyWhen: amounts above 2^53 − 1 are not covered, because their JavaScript text is not their decimal numeral.
- CrcTheory.BurstsAreDetected: bursts are within sixteen consecutive bits; no claim about longer or scattered damage.
- IdentityMatching.RankPrisonerCandidates: the evidence fingerprint, a SHA-256 of the evidence, is not modelled.
- CallbackOutbox.DelayIsBounded: a configured maximum so large that adding the delay to the clock leaves the calendar (`config.py:680` sets no upper limit) raises when the retry is stored; moments are unbounded reals here.
- IngestionLaws.ReplayChangesNothing: `source_files.updated_at`, which every replay sets, is not a column of the model.
- Recovery.CrashThenRestart: receipts that are not well formed are one case, Malformed, without their JSON.
- IssuedForms.FormDesk.ResolveIssuedToken: relies on the single processing chain, so a sheet being resolved is still in processing; two processors of one sheet are not modelled.

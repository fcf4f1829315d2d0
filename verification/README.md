# Order-return reconciliation: a verified model

This project models the scripts that reconcile site orders with their returns, keep the Bitrix stages of the
procurement and balance processes in shape, and compute the reports around them. It proves what the scripts
rely on: which database rows and CRM deals they change, when, and what crashes, partial batches and the stage
worker beside them can and cannot do to that.

## The system

**The stage outbox.** A reconciliation run scans candidate orders, gathers evidence, and enqueues an execution
event together with an outbox row in one commit. It then reads the CRM, sends one non-halting batch of stage
updates, reads the CRM back, marks each row `applied` or `retry`, and only then updates the cases and resolves
the reviews. `OrderDomain` holds the vocabulary, `StageOutbox` the operations as functions on values,
`OutboxInvariant` what each of them keeps, and `OutboxProtocol` the transition system: any part of a batch may
land, a crash may fall between any two commits, and the rest of the world acts at any time; that includes the
stage worker, which picks up the same open rows and may give them any status. `OutboxRuns` has the theorems about
whole sequences of runs, `Recovery` the recovery rounds of the single modes, `LiveReads` what a chunked CRM read
shows, `CompositeRecovery` the recovery rounds of stale composites, which follow the lists of `RecoveryScenes`, and
`CompositeRace` any number of workers that enqueue stale-execution composites at once. `CrmClient` and `OutboxRunner` are the scripts' own loops over a
mutable CRM and database, each proved equal to the value functions.

**Evidence.** `PaymentEvidence`, `RefundEvidence` and `ReadyBatches` cover the exact arithmetic (cents, and
quantities in ten-thousandths) and the decisions that make a candidate ready or blocked; `RtuDocuments` derives from
an order's sales documents what two queries say of them. `ModeScans` runs the decisions over batches with the evidence
each batch fetches, `StaleScan` is the scan of the stale-execution mode, down to the composite it hands to
`CompositeRace`, and `ModeConflicts` settles which modes can take the same order.

**Stages on a remote board.** `StageBoard` is a board on which every call may fail, with or without having
taken effect; `StageCleanup` and `StageMerge` empty and delete obsolete stages on it. `StageClaims` and
`StageEnsure` cover how desired stages claim existing ones, and when the dry run predicts the apply;
`StagePrecreate` the additions that come before. `StageDirect` states the claims without the cursor,
`StageForecast` when they survive a change of the list, `StagePipeline` the whole procurement set-up of one
category, and `StageSurprise` two boards on which its dry run is wrong.

**Algorithms.** `Percentile`, `TextWrap`, `SyncWindows`, `AwaitingReply`, `FieldSetup` and
`PriceTypeLifecycle`.

Times are integers, money is in cents, and the SHA-256 fingerprint of an evidence is taken to be injective, so
the evidence itself stands in keys and source references. Services that the scripts only call are represented
by what their callers rely on: `upsert_execution_event` inserts when (order, type, source, source reference) is new
and then returns a fresh, larger id, and returns nothing otherwise.

## Findings

Where the code does less than one would expect, the exact condition is proved.

- `_apply_outbox` marks its rows without looking at their status again. A row that the stage worker applied after
  the script listed it is sent back to retry when the script's readback does not show the target, and in no other
  way can an applied row be left (`OutboxRuns.AppliedIsLeftIff`, `OutboxRuns.ForeignApplyIsLost`,
  `OutboxRuns.AppliedIsFinal`).
- The recovery of stale composites reads the CRM for all open rows of up to twenty orders, in chunks of forty
  rows. An order whose rows reach over a chunk boundary is listed once per chunk, fails the "one deal" test and
  stays open in that round. What rounds do follows from the two lists and the deals alone
  (`CompositeRecovery.RoundsFollow`); the rows of a target stay through all rounds if and only if its pass can close
  none of them, for every order is named by two chunks or has no deal to move (`CompositeRecovery.QueueStaysIff`). One
  order recovered alone drains if and only if its rows aim at one target and are at most forty
  (`CompositeRecovery.OrderSettlesIff`); `CompositeRecovery.CrowdedStaysOpen` shows a database on which it never does.
- An order with open composites for WON and for LOSE ends in one of them, and the rows for the other stay open
  (`CompositeRecovery.OneTargetIsLeft`). WON rows are passed first, yet a straddle of theirs lets LOSE win
  (`RecoveryScenes.RoundDecides`, `RecoveryScenes.LoseGoesFirst`, `RecoveryScenes.StraddledLoses`).
- The backfill of the awaiting-reply mark says that it computes what the worker computes. It counts every visible
  reply, also a bare greeting, and asks for one; the worker counts replies that say something, and takes a recorded
  first response for a start. `AwaitingReply.AgreeIff` is the exact condition for the two to agree, and
  `AwaitingReply.GreetingHidesWait` a customer whom the backfill passes over.
- The price-type table and its stop factor contradict each other: the stop factor's text calls the upgrade approval
  unreachable while upgrades are frozen, but of the three rules that lead there only one asks about it. The two
  check rules are read as they stand, not asking it. A changed price type is a downgrade if and only if no quality
  check and no credit stop was resolved on the way (`PriceTypeLifecycle.FreezeHoldsIff`;
  `PriceTypeLifecycle.QualityCheckThaws` is the way past it).
- The procurement dry run reads the list before the merges, the precreation and the move of the terminal stages.
  It predicts the claims of the apply if and only if it uses no stage that the merges delete, would add a stage for
  every spec that gets one beforehand, and the failure stages it needs keep their order
  (`StagePipeline.PlanHoldsIff`). On the board of a new category it announces a rename of a stage that the apply
  deletes (`StageSurprise.DefaultBoardParts`).
- `upsert_receivable_ledger_events` looks known keys up once per batch, and a window is one batch. A new key that
  occurs twice fails a batch that holds both and passes when they fall into two windows, so the chunked sync does
  what one batch would do if and only if no new key occurs twice in the period
  (`SyncWindows.ChunkedIsOneShotIff`).
- The field listing asks for its first page again when it is led back to 0, because only followed values are
  remembered (`FieldSetup.FetchAll`, and a run of it in `FieldSetup.FirstPageTwice`).
- `_pickup_payment_sequence` raises on a sale of at most five cents without a payment before the return
  (`PaymentEvidence.FailsExactlyOnSmallSale`); its only caller refuses such sales first.
- The candidate modes are not exclusive. The selections keep partial returns apart from the modes over whole returns,
  the shared documents keep full refunds apart from issued pickups, and the two pickup-return modes contradict each
  other. Any other two modes can take the same order at once, a full refund (LOSE) and a pickup paid in time (WON) among
  them, and the first to move its deal decides (`ModeConflicts.ModesExcludeIff`,
  `ModeConflicts.MovedDealEndsEveryMode`).
- `ensure_stages` sends no semantics for a process stage, so a process spec whose id sits on a terminal stage
  is updated, not found again, and then refused as a duplicate, unless an unclaimed process stage already bears
  its name. `StageEnsure.StageServer.EnsureStages` states exactly when the apply goes through.
- The precreated stages sort before success exactly when they are fewer than the success stage's SORT
  (`StagePrecreate.PrecreatedSortsBeforeSuccess`): `max(1, ...)` lets them overtake it otherwise, as on the board of
  `StageSurprise.PrecreatedOvertakes`.
- A stage can be old for two rows of a merge table; its second deletion then fails.  `StageMerge.MergeAndDelete`
  goes through on a reliable board exactly when no stage is; `StageMerge.OrdinaryMatchesTwice` is one.
- A clean-up whose fallback is not a kept stage of the board strands items if and only if an item lay in an extra
  stage (`StageCleanup.CleanupExtraStages`, and a run of it in `StageCleanup.UnkeptFallbackStrands`); the choice made
  in `main` never is such a fallback.

## Model

| member | source | states |
|---|---|---|
| `OutboxInvariant.EnqueueOneKeepsDb` | scripts/apply_historical_partial_return_sales.py:907-998 | enqueuing one item keeps events and rows in bijection, keys unique and old rows in place, and lists only an open row with the item's key and target |
| `OutboxInvariant.EnqueueKeepsDb` | scripts/apply_historical_partial_return_sales.py:1319-1404 | the same for a whole ready list of any mode |
| `OutboxInvariant.MarkKeepsDb` | scripts/apply_historical_partial_return_sales.py:1048-1091 | marking a job's rows after a readback keeps the database invariant and each row's identity, whatever status the rows had by then |
| `OutboxInvariant.EvidenceTellsKind` | scripts/apply_historical_partial_return_sales.py:1546-1642 | one evidence and one target belong to one event kind, so two modes never share a key |
| `OutboxInvariant.ReEnqueueListsOpenIds` | scripts/apply_historical_partial_return_sales.py:907-998 | enqueuing the same list again, however open rows were marked or rows added since, writes nothing and lists exactly the earlier ids still pending or retry, in order |
| `OutboxInvariant.CompositeIsNotRepeated` | scripts/apply_historical_partial_return_sales.py:2446-2543 | a composite's own event makes the locked check refuse the same item in every later database, and no row is listed for it again |
| `OutboxProtocol.StepKeepsInv` | scripts/apply_historical_partial_return_sales.py:1001-1092 | every step of every mode, every crash and every foreign write, the stage worker's included, keeps the protocol invariant and each row's identity |
| `OutboxProtocol.ClosedRowsChangeByMarks` | scripts/apply_historical_partial_return_sales.py:1048-1077 | a row that is no longer open is changed by no step but a marking of the script whose job still lists it |
| `OutboxProtocol.LiveIsMatching` | scripts/apply_historical_partial_return_sales.py:835-863 | whenever a read shows a single deal for an order, it is the order's only deal in the CRM |
| `OutboxRuns.RunKeepsInv` | scripts/apply_historical_partial_return_sales.py:2644-2784 | the invariant holds in every state of any sequence of runs beside the stage worker |
| `OutboxRuns.RunKeepsRows` | scripts/apply_historical_partial_return_sales.py:1072-1077 | over any stretch of any runs rows keep order, deal, kind, target, key and event |
| `OutboxRuns.EventsMatchRows` | scripts/apply_historical_partial_return_sales.py:907-998 | after any runs script events and outbox rows are in bijection and no key occurs twice |
| `OutboxRuns.SightingsComeFromReadbacks` | scripts/apply_historical_partial_return_sales.py:1046-1062 | what the marking relies on was shown by the CRM at an earlier readback |
| `OutboxRuns.AppliedHasReadback` | scripts/apply_historical_partial_return_sales.py:1061-1077 | behind every applied row stands the step that applied it: a marking by the script, before which a readback saw the order's single deal, with the row's deal id, in the row's own target stage, or a write of another system |
| `OutboxRuns.ScriptAppliesOnReadback` | scripts/apply_historical_partial_return_sales.py:1061-1077 | the script turns a row applied only by marking it, after such a readback |
| `OutboxRuns.AppliedIsLeftIff` | scripts/apply_historical_partial_return_sales.py:1048-1077 | a step leaves applied if and only if it marks the row on a readback that did not show the target, and then another system had applied the row between the listing and the marking |
| `OutboxRuns.ForeignApplyIsLost` | app/services/site_order_stage_outbox.py:736-835 | whenever the script waits to mark an open row on such a readback, the stage worker may apply the row and the marking sends it back to retry |
| `OutboxRuns.AppliedIsFinal` | scripts/apply_historical_partial_return_sales.py:1001-1092 | if no other system applies rows the script has in flight, an applied row is never changed again |
| `OutboxRuns.CaseStageIsBacked` | scripts/apply_historical_partial_return_sales.py:1645-1661 | the script sets a case's CRM stage only to EXECUTING while enqueuing, or to a target with an applied row of that order behind it |
| `OutboxRuns.ResolvedReviewIsBacked` | scripts/apply_historical_partial_return_sales.py:1136-1171 | only open paid-and-returned conflict reviews are resolved, only after marking, and only with an applied row of that order behind them |
| `OutboxRuns.ApplyIsAProtocolRun` | scripts/apply_historical_partial_return_sales.py:1001-1092 | a job without a crash is the five protocol steps in a row, and they end in exactly what the imperative job is proved to do (`JobDone`) |
| `OutboxRuns.DealMovesOnce` | scripts/apply_historical_partial_return_sales.py:1023-1044 | when only these runs write the CRM, a deal moves only from EXECUTING to the target of an outbox row of its order, and never again, even with conflicting rows pending |
| `Recovery.ShortReadIsExact` | scripts/apply_historical_partial_return_sales.py:835-863 | a read for at most forty orders lists each order's deals exactly once |
| `Recovery.RoundClosesRow` | scripts/apply_historical_partial_return_sales.py:1024-1091 | with a CRM that performs updates each row of a round ends applied; a row whose update landed before a crash gets there with no second command |
| `Recovery.RoundCloses` | scripts/apply_historical_partial_return_sales.py:1095-1121 | a recovery round closes exactly the oldest min(20, open) rows, leaves all others as they were and keeps the conditions of the next round |
| `Recovery.RecoveryDrains` | scripts/apply_historical_partial_return_sales.py:1095-1121 | for every mode but the composites, n rounds close exactly the first 20n open rows, so ceil(open / 20) rounds leave none |
| `Recovery.RoundIsProtocolRun` | scripts/apply_historical_partial_return_sales.py:1095-1133 | from the listing to the case update, a recovery without interference whose commands all land is such a round of the protocol |
| `LiveReads.LiveCount` | scripts/apply_historical_partial_return_sales.py:835-863 | an order's deals are listed once per chunk that names it |
| `LiveReads.ReadableIff` | scripts/apply_historical_partial_return_sales.py:1027-1031 | a read yields the order's single deal if and only if one deal exists and exactly one chunk asks for it |
| `LiveReads.StraddledRowIsRetried` | scripts/apply_historical_partial_return_sales.py:2546-2569 | a row whose order is asked for in two chunks gets no command in this pass and goes to retry whatever the CRM shows |
| `LiveReads.FortyRowsAreReadable` | scripts/apply_historical_partial_return_sales.py:1106-1115 | reads of at most forty rows name every order in one chunk |
| `LiveReads.StaysAfterIff` | scripts/apply_historical_partial_return_sales.py:2551-2569 | a list of orders is the same after any number of passes if and only if two of its chunks name each order on it |
| `LiveReads.PassesGetStuck` | scripts/apply_historical_partial_return_sales.py:2551-2569 | as many passes as there are rows reach such a list, or an empty one |
| `LiveReads.OneOrderDrainsIff` | scripts/apply_historical_partial_return_sales.py:2551-2569 | the rows of one order are done in one pass if and only if they are at most forty, and are never done otherwise |
| `LiveReads.SecondPassReads` | scripts/apply_historical_partial_return_sales.py:2551-2569 | a straddle need not last: two rows around thirty-nine of another order stay behind once and are read in the second pass |
| `CompositeRecovery.PassRow` | scripts/apply_historical_partial_return_sales.py:1024-1091 | a row of a pass is applied if and only if one chunk of the pass names its order and the order's one deal is the row's and waits at EXECUTING or stands in the target |
| `CompositeRecovery.RoundsFollow` | scripts/apply_historical_partial_return_sales.py:2546-2569 | after n rounds over any rows and deals, open rows and deals are those of the list-level rounds |
| `CompositeRecovery.RoundsThin` | scripts/apply_historical_partial_return_sales.py:2546-2569 | when each order has rows for one target only, written for its one deal, the lists of orders alone predict which rows n rounds leave open |
| `CompositeRecovery.QueueStaysIff` | scripts/apply_historical_partial_return_sales.py:2546-2569 | for any rows and deals: the open rows of a target stay through n rounds if and only if its pass can close none of them; at most forty ripe rows are all closed; as many rounds as there are rows reach a state where both lists stay |
| `CompositeRecovery.OrderSettlesIff` | scripts/apply_historical_partial_return_sales.py:2546-2569 | for any rows and deals: rounds over one order close all its rows if and only if they aim at one target, are at most forty, and were written for its one deal, which waits or stands in that target |
| `CompositeRecovery.OneTargetIsLeft` | scripts/apply_historical_partial_return_sales.py:2546-2569 | of an order with open rows for WON and LOSE the rows of one target stay open through all rounds |
| `RecoveryScenes.RoundDecides` | scripts/apply_historical_partial_return_sales.py:2546-2569 | a round takes a waiting deal to WON if one chunk of the WON rows names its order, otherwise to LOSE if one chunk of the LOSE rows does, and leaves it otherwise |
| `RecoveryScenes.LoseGoesFirst` | scripts/apply_historical_partial_return_sales.py:2546-2569 | an order whose WON rows straddle and whose LOSE rows do not goes to LOSE, and its older WON rows stay open for good |
| `RecoveryScenes.StraddledLoses` | scripts/apply_historical_partial_return_sales.py:2546-2569 | such an order: two WON rows around thirty-nine of another order, and one LOSE row |
| `RecoveryScenes.NotRipeStays` | scripts/apply_historical_partial_return_sales.py:1032-1077 | a row whose deal is not the order's only one, or stands in another stage, is closed by no number of rounds |
| `CompositeRecovery.CompositeRoundIsProtocolRun` | scripts/apply_historical_partial_return_sales.py:2563-2568 | a composite recovery without interference whose commands all land is one such round of the protocol |
| `CompositeRecovery.CrowdedStaysOpen` | scripts/apply_historical_partial_return_sales.py:2546-2569 | a consistent database with forty-one open rows of one order, none of which any number of recoveries closes |
| `CompositeRace.InsertIsNew` | scripts/apply_historical_partial_return_sales.py:2453-2506 | when a worker inserts under the row lock, no committed event and no other worker's open transaction has consumed the same chat event |
| `CompositeRace.StepKeepsInv` | scripts/apply_historical_partial_return_sales.py:2446-2543 | every step of any worker keeps the invariant of the multi-worker system |
| `CompositeRace.InterleavingKeepsInv` | scripts/apply_historical_partial_return_sales.py:2312-2443 | the invariant holds along every interleaving of scans and enqueues |
| `CompositeRace.OneRowPerChatEvent` | scripts/apply_historical_partial_return_sales.py:2446-2543 | in every interleaving of any number of workers one chat event yields at most one composite outbox row |
| `CompositeRace.ConsumedIsNeverGathered` | scripts/apply_historical_partial_return_sales.py:2210-2255 | once its row exists, a chat event never passes the gathering test again |
| `CrmClient.Crm.ListPage` | scripts/apply_historical_partial_return_sales.py:841-862 | a page is the next piece of the filtered listing, never empty while more is to come, and the offset goes on exactly behind it; without an offset nothing is left |
| `CrmClient.Crm.AddChunk` | scripts/apply_historical_partial_return_sales.py:839-862 | paging through a chunk adds each matching deal once, after what was read before |
| `CrmClient.Crm.LiveDeals` | scripts/apply_historical_partial_return_sales.py:835-863 | the paged and chunked read returns, for every order, what `Live` specifies |
| `CrmClient.Crm.Batch` | scripts/apply_historical_partial_return_sales.py:1043-1044 | a non-halting batch: any part of its updates lands, nothing else changes |
| `OutboxRunner.Store.EnqueueItem` | scripts/apply_historical_partial_return_sales.py:912-996 | old rows stay in place, a row is added exactly for an unknown event of a known case that passes the locked checks, its event is then on record, a listed id is an open row with the item's key, and other cases are untouched |
| `OutboxRunner.Store.EnqueueAll` | scripts/apply_historical_partial_return_sales.py:907-998 | the enqueue loop is `Enqueue` |
| `OutboxRunner.Store.ReadDeals` | scripts/apply_historical_partial_return_sales.py:1024-1029 | one read finds for each row the deal it is judged by |
| `OutboxRunner.Store.CollectCommands` | scripts/apply_historical_partial_return_sales.py:1025-1042 | the batch updates exactly the rows whose own deal still waits at EXECUTING |
| `OutboxRunner.Store.MarkFromReadback` | scripts/apply_historical_partial_return_sales.py:1046-1091 | the readback marks every picked row and no other, and reports the confirmed ones |
| `OutboxRunner.Store.ApplyOutbox` | scripts/apply_historical_partial_return_sales.py:1001-1092 | read, batch, readback and marking: deals change by some part of the commands, rows by the readback, and exactly the confirmed orders are returned |
| `OutboxRunner.Store.RecordCaseStages` | scripts/apply_historical_partial_return_sales.py:1645-1661 | the cases of the applied orders, and no others, get the target stage |
| `OutboxRunner.Store.ResolveReviews` | scripts/apply_historical_partial_return_sales.py:1151-1170 | exactly the open paid-and-returned conflict reviews of the applied orders are resolved |
| `OutboxRunner.Store.FinalizeApplied` | scripts/apply_historical_partial_return_sales.py:1136-1171 | cases and reviews change together, as `Finalize` says, and nothing when no row was applied |
| `OutboxRunner.Store.RunJob` | scripts/apply_historical_partial_return_sales.py:2748-2758 | applying and finalizing is one finished job: some commands landed, rows marked by the readback, cases and reviews of the confirmed orders updated |
| `OutboxRunner.Store.ApplyReady` | scripts/apply_historical_partial_return_sales.py:2746-2759 | the apply branch of a mode enqueues the ready batch and finishes the job of exactly the listed ids |
| `OutboxRunner.Store.RecoverPending` | scripts/apply_historical_partial_return_sales.py:1095-1133 | recovery finishes the job of the oldest twenty open rows of the kind |
| `OutboxRunner.Store.RecoverComposites` | scripts/apply_historical_partial_return_sales.py:2546-2569 | composite recovery finishes the WON job and then the LOSE job over the rows listed at its start |
| `PaymentEvidence.PaymentsPartition` | scripts/apply_historical_partial_return_sales.py:571-587 | early, before-return and after-return payments partition the movements, one by one and in total |
| `PaymentEvidence.FailsExactlyOnSmallSale` | scripts/apply_historical_partial_return_sales.py:578-587 | the maximum over no payments is taken if and only if nothing was paid in time and the sale is within the tolerance |
| `PaymentEvidence.QualifyingTime` | scripts/apply_historical_partial_return_sales.py:578-587 | a qualifying time is the latest payment in [latest RTU, latest return) |
| `RefundEvidence.DedupIsSound` | scripts/apply_historical_partial_return_sales.py:399-421 | the movement dictionary keeps one fetched row per key and loses no key |
| `RefundEvidence.PartsAddUp` | scripts/apply_historical_partial_return_sales.py:434-452 | payment, exact refund and ambiguous refund of an order add up to all its movements |
| `RefundEvidence.ExactRefundHasOneOrder` | scripts/apply_historical_partial_return_sales.py:298-357 | a refund document that is exact for one order is a movement of no other order |
| `RefundEvidence.ExactRefundsWithinDocuments` | scripts/apply_historical_partial_return_sales.py:298-357 | the exact refunds of any set of orders never exceed the total of the distinct refund documents |
| `RefundEvidence.ClassificationFailsClosed` | scripts/apply_historical_partial_return_sales.py:172-184 | ambiguous money never makes a refund full, and "no refund" needs both refunds within the tolerance |
| `RefundEvidence.SumParts` | scripts/apply_historical_partial_return_sales.py:434-452 | the three sums of an order are over its own movements of each kind |
| `RefundEvidence.MoneyRefundEvidence` | scripts/apply_historical_partial_return_sales.py:399-478 | every asked order, and no other, gets sums that add up to its deduplicated movements, and their classification |
| `ReadyBatches.LineEvidence` | scripts/apply_historical_partial_return_sales.py:795-832 | evidence of retained goods exists if and only if no line is over-returned and some line retains goods, and lists exactly those |
| `ReadyBatches.PickupReadyIff` | scripts/apply_historical_partial_return_sales.py:1407-1543 | the pickup modes are ready exactly when the goods came back whole and were paid before (WON) or only after (DISMANTLING) the return, on a waiting pickup deal |
| `ReadyBatches.PickupModesExclude` | scripts/apply_historical_partial_return_sales.py:1435-1468 | evidence ready for WON is blocked for DISMANTLING wherever the site moves on to, and its qualifying time lies in [RTU, return) |
| `ReadyBatches.QualifyingRows` | scripts/apply_historical_partial_return_sales.py:678-687 | issued rows qualify as a list exactly when one of them does |
| `RtuDocuments.IssuedIsShared` | infra/cron/order_fulfillment_sync.py:2091-2372 | the aggregated signal counts issued documents exactly when the movement rows list one |
| `ModeScans.MoneyIsOwn` | scripts/apply_historical_partial_return_sales.py:278-478 | the money evidence of an order does not depend on what else its batch asks for |
| `ModeScans.VerdictIsOwn` | scripts/apply_historical_partial_return_sales.py:2736-2741 | in every mode a candidate gets, from the evidence and the CRM listing its batch fetched, the verdict it would get alone |
| `ModeScans.ReadyBatch` | scripts/apply_historical_partial_return_sales.py:866-904 | a ready batch of any mode puts every candidate under its own verdict |
| `ModeScans.Scan` | scripts/apply_historical_partial_return_sales.py:2736-2784 | the batches of a dry run find what one pass over all candidates finds, and every candidate ends up ready or under exactly one reason |
| `ModeScans.ReadyNeedsWaitingDeal` | scripts/apply_historical_partial_return_sales.py:1205-1316 | in every mode a ready item carries evidence of the mode's shape, and its order's only deal is the candidate's and waits at EXECUTING |
| `ModeConflicts.ModesExcludeIff` | scripts/apply_historical_partial_return_sales.py:187-275 | two modes never take one order on the same facts if and only if they are a partial return and a mode over whole returns, a full refund and an issued pickup, or the two pickup-return modes; every other pair meets on facts that agree with each other |
| `ModeConflicts.IssuedExcludesRefund` | scripts/apply_historical_partial_return_sales.py:1234-1236 | no order is ready for a full refund and for an issued pickup, because both look at the same documents |
| `ModeConflicts.ContestedAgrees` | scripts/apply_historical_partial_return_sales.py:187-275 | the facts on which modes meet agree with each other: lines with documents, snapshot with 1C, payments with money |
| `ModeConflicts.MovedDealEndsEveryMode` | scripts/apply_historical_partial_return_sales.py:1664-1768 | once a deal of the order has left EXECUTING, neither a candidate mode nor a scan for composites finds the order ready, whatever else is known by then |
| `StaleScan.EvidenceAt` | scripts/apply_historical_partial_return_sales.py:2192-2207 | the evidence time is the latest known time, unknown only if all are |
| `StaleScan.LatestIsLatest` | scripts/apply_historical_partial_return_sales.py:2296-2309 | the latest event of a case by time and id, and none exactly for a case without events |
| `StaleScan.ReadyGathers` | scripts/apply_historical_partial_return_sales.py:2343-2443 | a ready snapshot is a composite over the latest event of its order, a chat confirmation with a time: what a worker may gather in `CompositeRace` |
| `StaleScan.ReadyPassesLock` | scripts/apply_historical_partial_return_sales.py:2453-2490 | and it passes the checks under the row lock as long as nothing has changed |
| `StaleScan.ConsumedIsBlocked` | scripts/apply_historical_partial_return_sales.py:2312-2443 | once a composite is enqueued, no later scan of its order is ready for the same chat event |
| `StaleScan.StaleReadyBatch` | scripts/apply_historical_partial_return_sales.py:2312-2443 | every order ends up ready or under exactly one reason, and what becomes of it depends on no other order of the selection |
| `ReadyBatches.LookupIsExact` | scripts/apply_historical_partial_return_sales.py:1859-1884 | an explicit selection yields one candidate per asked order and nothing else |
| `ReadyBatches.BatchesTile` | scripts/apply_historical_partial_return_sales.py:1859-1884 | batches 1, 2, ... concatenate to the candidate list, the batch after the last is refused |
| `StageBoard.Board.ListPage` | scripts/ensure_card_balance_bitrix_process.py:540-569 | a page is the next piece of the stage's item ids, never empty while more are to come, and `next` goes on exactly behind it; without a `next` nothing is left |
| `StageBoard.Board.MoveCard` | scripts/ensure_card_balance_bitrix_process.py:609-618 | a move takes effect, or the call fails and may still have taken effect |
| `StageBoard.Board.DeleteStage` | scripts/ensure_card_balance_bitrix_process.py:626-642 | a deletion removes the stage, or the call fails and may still have removed it; an unknown id fails |
| `StageBoard.Board.ListStageItemIds` | scripts/ensure_card_balance_bitrix_process.py:540-569 | following `next` returns exactly the ids of the stage's items |
| `StageBoard.Board.MoveAll` | scripts/ensure_procurement_bitrix_process.py:1693-1702 | at every moment items have only moved to the target, and on success all listed ones are there |
| `StageCleanup.EmptyAndDelete` | scripts/ensure_card_balance_bitrix_process.py:591-633 | emptying into a stage that stands and deleting strands no item at any moment, including a failure midway; on a reliable board exactly the stage's items moved |
| `StageCleanup.HandleStage` | scripts/ensure_card_balance_bitrix_process.py:585-642 | a stage ends deleted, skipped as non-empty or skipped on error, each with what the board then shows |
| `StageCleanup.CleanOne` | scripts/ensure_card_balance_bitrix_process.py:585-648 | the report stays in step with the board, stage by stage |
| `StageCleanup.CleanupExtraStages` | scripts/ensure_card_balance_bitrix_process.py:572-648 | with a fallback that is kept and on the board, or none, every item sits in a standing stage at every moment; the report holds every extra stage once and is true; without failures everyone is housed in the end if and only if the fallback stands or no item lay in an extra stage |
| `StageCleanup.UnkeptFallbackStrands` | scripts/ensure_card_balance_bitrix_process.py:585-648 | a run in which no call fails, with an extra stage as fallback, after which an item is stranded |
| `StageCleanup.CleanupAfterSetup` | scripts/ensure_card_balance_bitrix_process.py:964-975 | the fallback chosen after the set-up is a kept stage, so the clean-up is safe |
| `StageCleanup.ExactlyOneHeading` | scripts/ensure_card_balance_bitrix_process.py:572-648 | a stage that is not kept stands under exactly one of the three headings |
| `StageMerge.Plan` | scripts/ensure_procurement_bitrix_process.py:1719-1750 | every planned row is a listed stage together with the target of a merge that calls it old |
| `StageMerge.MatchIsPlanned` | scripts/ensure_procurement_bitrix_process.py:1719-1750 | and every stage a merge calls old is planned |
| `StageMerge.PlannedOnceIff` | scripts/ensure_procurement_bitrix_process.py:1719-1750 | the plan meets each stage once if and only if no listed stage is old for two merges |
| `StageMerge.OrdinaryMatchesTwice` | scripts/ensure_procurement_bitrix_process.py:645-659 | a stage with an old code of the second ordinary merge and the old name of the first is planned twice |
| `StageMerge.MergeOne` | scripts/ensure_procurement_bitrix_process.py:1681-1714 | one obsolete stage is emptied into its target and deleted, safely at every moment, and reported with its item count |
| `StageMerge.MergeAndDelete` | scripts/ensure_procurement_bitrix_process.py:1652-1716 | an item is at any moment where it was or in a target; none is stranded if the targets of merges with items stand; the actions are the dry run's plan, up to a failure; afterwards exactly the obsolete stages are gone; on a reliable board the merge goes through if and only if no stage is old for two merges |
| `StageMerge.SingleTargetStands` | scripts/ensure_procurement_bitrix_process.py:645-686 | for the ordinary and import tables the target stands exactly when NEW is on the board or there is no item to move |
| `StageMerge.CargoTargetsStand` | scripts/ensure_procurement_bitrix_process.py:645-686 | for the cargo table each target must be on the board as soon as it has an item to receive, and the dispatch stage then must not bear an obsolete name |
| `StageClaims.NextUnused` | scripts/ensure_expertise_bitrix_process.py:567-572 | the iterator offers a stage that is neither used nor expected by id |
| `StageClaims.ClaimsAreInjective` | scripts/ensure_procurement_bitrix_process.py:1885-1907 | no stage is claimed twice and every claim is a stage of the list |
| `StageClaims.PlanOne` | scripts/ensure_procurement_bitrix_process.py:1895-1932 | one plan row is the claim of its spec, "add" without one and "keep" when nothing would change |
| `StageClaims.StagePlan` | scripts/ensure_procurement_bitrix_process.py:1861-1935 | the plan's rows are the claims: "add" exactly where no stage is claimed, "keep" exactly where the claimed stage is up to date |
| `StageEnsure.NextClaim` | scripts/ensure_expertise_bitrix_process.py:574-591 | the apply picks the stage the same claim rule picks |
| `StageEnsure.StageServer.PushTerminals` | scripts/ensure_expertise_bitrix_process.py:536-547 | the success stage moves to SORT 990 and the failure stages to 1001, 1002, ... |
| `StageEnsure.PushedKeepsClaims` | scripts/ensure_expertise_bitrix_process.py:536-559 | moving the terminal stages changes no claim, so the plan may be read off the list before it |
| `StageEnsure.StageServer.Place` | scripts/ensure_expertise_bitrix_process.py:593-635 | a spec gets its stage exactly when the readback can find it or its id is free, and no other stage changes |
| `StageEnsure.StageServer.EnsureStages` | scripts/ensure_expertise_bitrix_process.py:517-637 | the apply goes through if and only if every spec passes; it then claims the same stage for each spec as the plan, adds exactly where the plan says "add", leaves unclaimed stages alone and returns a stage with each spec's name and semantics |
| `StageEnsure.FoundIff` | scripts/ensure_expertise_bitrix_process.py:601-612 | the readback by name and semantics succeeds exactly when the stage took the semantics or an unclaimed twin bears the name |
| `StageEnsure.PredictionHolds` | scripts/ensure_expertise_bitrix_process.py:517-637 | with distinct specs, one success spec and id-matched stages that carry their spec's semantics the apply always goes through |
| `StageEnsure.TerminalUnderProcessId` | scripts/ensure_expertise_bitrix_process.py:593-635 | a process spec whose id sits on a terminal stage, without a namesake among the process stages, makes the apply fail |
| `StagePrecreate.Precreate` | scripts/ensure_procurement_bitrix_process.py:1573-1617 | exactly the process specs that sort after success and have no stage are added, in order, with consecutive sorts and fresh ids |
| `StagePrecreate.PrecreatedSortsBeforeSuccess` | scripts/ensure_procurement_bitrix_process.py:1604 | the new stages all sort before every success stage if and only if they are fewer than its SORT |
| `StageSurprise.PrecreatedOvertakes` | scripts/ensure_procurement_bitrix_process.py:1604 | with a success stage at SORT 2 and three ordinary steps to add, the last one is added behind success |
| `StageDirect.ClaimsAreDirect` | scripts/ensure_procurement_bitrix_process.py:1885-1907 | what the cursors claim: a spec found by id its own stage, unless the success spec took it; the others the j-th stage of their kind that no spec expects |
| `StageForecast.AgreesIff` | scripts/ensure_procurement_bitrix_process.py:1885-1907 | the claims survive a change of the list if and only if no claimed stage goes, every spec with a new stage was going to have one added, and the needed failure stages keep their order |
| `StagePipeline.MoveTerminals` | scripts/ensure_procurement_bitrix_process.py:1521-1570 | exactly the terminal stages that sort among the process steps take the name and SORT of their spec |
| `StagePipeline.PlanHoldsIff` | scripts/ensure_procurement_bitrix_process.py:2861-2878 | the dry run's claims are those of the apply, after merges, precreation and the move of terminal stages, if and only if it uses no stage the merges delete, adds for every precreated spec, and the needed failure stages keep their order |
| `StagePipeline.SetUp` | scripts/ensure_procurement_bitrix_process.py:3096-3118 | precreation, terminal moves and apply in a row go through if and only if every spec passes on the list the first two leave, and then did what the dry run said exactly under these conditions |
| `StagePipeline.SetUpCategory` | scripts/ensure_procurement_bitrix_process.py:3085-3118 | the whole apply of a category, merges first: on a reliable board it goes through if and only if no stage is old for two merges and every spec passes on the list that is left |
| `StageSurprise.DefaultBoardParts` | scripts/ensure_procurement_bitrix_process.py:449-484 | on the board of a new ordinary category the dry run uses a stage that the merges delete, for a spec that gets its own stage |
| `StageSurprise.TieParts` | scripts/ensure_procurement_bitrix_process.py:1552-1570 | two failure stages of an ordinary category that sort among the steps move to one SORT and change places |
| `Percentile.P75` | scripts/build_executive_procurement_snapshot.py:39-43 | an observed value with at least 75% of the observations at most it and less than 75% below it; none exactly for no observations |
| `Percentile.P75IsUnique` | scripts/build_executive_procurement_snapshot.py:39-43 | these two laws determine the value |
| `Percentile.Summarise` | scripts/build_executive_procurement_snapshot.py:64-83 | the profiles describe the samples of the two dictionaries |
| `Percentile.BuildProfiles` | scripts/build_executive_procurement_snapshot.py:46-91 | a level has a profile exactly when something valid was observed for it, with its sample size and 75th percentile |
| `Percentile.ContourSamplesAddUp` | scripts/build_executive_procurement_snapshot.py:51-62 | the contour sample sizes add up to the valid observations |
| `Percentile.PooledLiesBetween` | scripts/build_executive_procurement_snapshot.py:64-83 | when every valid observation names a supplier, the pooled percentile lies between the least and the greatest supplier percentile |
| `Percentile.AnonymousPoolEscapes` | scripts/build_executive_procurement_snapshot.py:60-62 | one anonymous observation can lift the pooled percentile above every supplier's |
| `TextWrap.GreedyWraps` | scripts/build_expertise_team_instruction_pdf.py:138-157 | the lines keep the word sequence, none is empty, and every line of two or more words fits |
| `TextWrap.GreedyIsOptimal` | scripts/build_expertise_team_instruction_pdf.py:138-157 | no other split whose multi-word lines fit uses fewer lines, if a part of a line is never wider than the line |
| `TextWrap.KerningDefeatsGreedy` | scripts/build_expertise_team_instruction_pdf.py:149-154 | without that assumption greedy can lose |
| `TextWrap.WrapText` | scripts/build_expertise_team_instruction_pdf.py:138-157 | the loop writes exactly the greedy lines; no words give one empty line |
| `SyncWindows.BuildWindows` | app/receivables.py:31-59 | one window when a bound is missing or the period is empty, otherwise consecutive windows of the chunk size |
| `SyncWindows.TilesCount` | app/receivables.py:47-59 | the windows meet, start at the start and end at the end, all but the last are of full size, and they are ceil(length / chunk) in number |
| `SyncWindows.OneWindowEach` | app/receivables.py:53-59 | every moment of the period lies in exactly one window, every other moment in none |
| `SyncWindows.FetchedOnce` | app/receivables.py:108-112 | each event of the period is fetched exactly once, in whatever order the source lists them |
| `SyncWindows.WindowsFetchTheSame` | app/receivables.py:108-112 | from a time-ordered source the windows fetch the one-shot list |
| `SyncWindows.UpsertBatch` | app/services/receivables.py:2344-2424 | a batch and its flush fail if and only if a key the ledger lacks occurs twice in it, and otherwise do what its events do one by one |
| `SyncWindows.ChunksFitIff` | app/services/receivables.py:2344-2424 | the windows go through if and only if no new key occurs twice in the window where it occurs first |
| `SyncWindows.ChunkedIsOneShotIff` | app/receivables.py:108-126 | the windows leave the ledger and counts of one batch over the period if and only if no key the ledger lacks occurs twice in it |
| `SyncWindows.DaysSaveRepeats` | app/receivables.py:108-126 | a new key on two days: the windows insert and update it, one batch fails |
| `SyncWindows.UpsertedSplits` | app/services/receivables.py:3683-3691 | upserting portion by portion is upserting at once, and the counts add up |
| `SyncWindows.CountsAddUp` | app/services/receivables.py:2363-2424 | inserted, updated and existing add up to processed, and the ledger grows by the inserted ones |
| `SyncWindows.Ledger.Run` | app/receivables.py:62-139 | the chunked sync goes through if and only if every window's batch fits, and otherwise commits the windows before the first that does not; it leaves the upserted ledger and the summed counts; only the last call gets the snapshot date; `reset` is the first call's report and the rest the last one's |
| `AwaitingReply.AwaitingSince` | scripts/backfill_site_service_awaiting_reply.py:45-67 | the backfill's scans return the first customer message after the last visible reply, and nothing before the first one |
| `AwaitingReply.ComputeAwaiting` | app/services/site_service_requests_worker.py:4802-4844 | the worker's scans return the first customer message after the last substantive reply, and nothing before a first response of either kind; on a list in any order this is what keeping the answer message by message through its history gives |
| `AwaitingReply.AgreeIff` | app/services/site_service_requests_worker.py:4802-4844 | backfill and worker agree if and only if nobody the worker finds unanswered was answered or passed over by the backfill; before any start, if and only if the backfill finds nobody |
| `AwaitingReply.BackfillIsLater` | scripts/backfill_site_service_awaiting_reply.py:78-101 | in a case with a first response the backfill's answer is never earlier than the worker's and never a wait the worker does not see |
| `AwaitingReply.GreetingHidesWait` | app/services/site_service_requests_worker.py:4790-4826 | a bare greeting ends the wait for the backfill only |
| `AwaitingReply.HiddenResponseHidesWait` | scripts/backfill_site_service_awaiting_reply.py:56-58 | a first response without a visible message starts the clock for the worker only |
| `AwaitingReply.RecomputingTurns` | app/services/site_service_requests_worker.py:4802-4844 | recomputing from the whole history on each message in time order ends a wait on a counting reply, keeps a running one and starts one with a customer |
| `AwaitingReply.ScansAreOnline` | app/services/site_service_requests_worker.py:4802-4844 | over any time-ordered history of the same messages the answer kept message by message is the answer of the scans, whatever the order of their list |
| `AwaitingReply.ArrangedIsHistory` | app/services/site_service_requests_worker.py:4802-4844 | every list of messages is an arrangement of such a history |
| `FieldSetup.FetchAll` | scripts/ensure_pickup_deal_fields.py:36-57 | paging ends for every server with finitely many `next` values and follows none of them twice; a page is asked for twice if and only if a followed `next` is 0, which a listing that does not change allows only before it is given up; meeting a last page it returns the rows of all pages |
| `FieldSetup.FirstPageTwice` | scripts/ensure_pickup_deal_fields.py:36-57 | a server whose first page leads back to 0 is asked for it twice |
| `FieldSetup.GivesUpRightly` | scripts/ensure_pickup_deal_fields.py:52-55 | on a listing that does not change it gives up only when no complete read exists |
| `FieldSetup.BuildPlan` | scripts/ensure_pickup_deal_fields.py:60-113 | the plan is, definition by definition, what the matching fields call for |
| `FieldSetup.FieldServer.Apply` | scripts/ensure_pickup_deal_fields.py:116-140 | one entry for manual review and nothing is written; otherwise the planned fields are added in order, up to a failure, which may come before or after its field is written |
| `FieldSetup.FieldServer.Run` | scripts/ensure_pickup_deal_fields.py:149-180 | after a run, whole or broken off, the rebuilt plan is what was left of the old one, so empty after a whole one |
| `FieldSetup.PlanAfter` | scripts/ensure_pickup_deal_fields.py:60-140 | after any part of the additions the rebuilt plan is the rest of the old one |
| `PriceTypeLifecycle.ClosedIsAbsorbing` | scripts/build_customer_price_type_blueprint.py:971-1127 | no run continues from a closed stage |
| `PriceTypeLifecycle.ChangeWasApproved` | scripts/build_customer_price_type_blueprint.py:971-1127 | every run to closed_changed ends with an approval and the export |
| `PriceTypeLifecycle.DowngradeWasIsolated` | scripts/build_customer_price_type_blueprint.py:971-1127 | a run reaches the downgrade approval only out of isolation or recovery control |
| `PriceTypeLifecycle.FreezeHoldsIff` | scripts/build_customer_price_type_blueprint.py:971-1165 | with upgrades frozen a changed price type is a downgrade if and only if neither check was resolved on the way, and an approved upgrade otherwise |
| `PriceTypeLifecycle.QualityCheckThaws` | scripts/build_customer_price_type_blueprint.py:1080-1094 | four steps through the quality check upgrade a price type in spite of the freeze |
| `PriceTypeLifecycle.FrozenChangesAreDowngrades` | scripts/build_customer_price_type_blueprint.py:1156-1165 | with upgrades frozen and no check resolved every changed price type is an approved downgrade after isolation or recovery |
| `PriceTypeLifecycle.RunsAreShort` | scripts/build_customer_price_type_blueprint.py:971-1127 | a run with k data-check detours has at most 2k + 7 steps |
| `PriceTypeLifecycle.BoundIsMet` | scripts/build_customer_price_type_blueprint.py:971-1127 | for every k some run has exactly 2k + 7 steps |
| `PriceTypeLifecycle.NobodyIsStuck` | scripts/build_customer_price_type_blueprint.py:971-1127 | from every stage that is not closed at most two steps close |

## Left out

- SQL text, HTTP and Bitrix transport, command lines, file writing and printing: represented by the contracts of `Crm`, `Board`, `StageServer`, `FieldServer`, `Ledger` and `Store`, and by relations over the 1C documents.
- SHA-256, JSON canonicalisation and URL encoding: the fingerprint is taken to be injective.
- Stripping, case folding and number parsing of raw strings: the model starts from cleaned values.
- Timeline comments of the batch: the code does not aim at writing them at most once.
- The resolution of a review after a crash between marking and finalizing: recovery selects only pending and retry rows, so nothing promises it.
- Listings that change while they are paged: `CrmClient.Crm` and `StageBoard.Board` answer all pages of one listing from one state.
- OutboxProtocol.StepKeepsInv: one instance of the script runs the candidate modes at a time, since nothing locks their enqueue steps against each other; several instances are modelled for composites only.
- OutboxRuns.DealMovesOnce: the other systems leave the deals alone; a deal that the stage worker or a manager moves is outside this theorem.
- OutboxRunner.Store.RunJob: the imperative job runs without interference; what may come between its commits is the subject of `OutboxProtocol`.
- CrmClient.Crm.Batch: every landed update sets the one target of its call; errors reported by single commands are not told apart.
- CompositeRecovery.RoundsFollow: the rounds see a CRM that performs every update, and nothing else moves the deals meanwhile.
- CompositeRecovery.RoundsThin: a special case, for orders with open rows for one target only; `CompositeRecovery.RoundsFollow` covers all.
- ModeConflicts.ModesExcludeIff: the rows of `_line_evidence` and the payments are not derived from the documents, only required to agree with them in total; how the reviews came to be open is not modelled, and one order may have several.
- ModeScans.Scan: a dry run on facts that do not change while it runs.
- StaleScan.StaleReadyBatch: `decide_execution_stage` is part of what 1C says of an order; whether a chat message was edited is a fact of its event.
- CompositeRace.OneRowPerChatEvent: a worker locks one case row at a time and holds it to its commit, as `with_for_update` does; lock time-outs and deadlocks are aborted transactions.
- StageCleanup.CleanupExtraStages: item ids are unique where the final board is decided, and an item may be moved to a stage that is not on the board, which is the worst the remote side can do.
- StageMerge.MergeAndDelete: an item may be moved to a stage that is not on the board, which is the worst the remote side can do.
- StagePipeline.SetUp: the server lists stages in one fixed order, as it does between the calls of one run.
- StageEnsure.StageServer.EnsureStages: the server performs every update and refuses only a duplicate status id; failing calls are modelled for clean-up and merge only.
- SyncWindows.Ledger.Run: of `sync_receivable_ledger` the upsert and the commit are modelled; the rebuilt read models enter as reported numbers.
- AwaitingReply.ComputeAwaiting: whether a text says more than a greeting is a property of the message.
- The order of the profile list, and `validate_orders`: sorting by strings and first-error checks.
- Percentile.BuildProfiles: the profiles are keyed by level instead of listed.
- FieldSetup.FetchAll: a server answer is a function of the request number and its start; list items that are no objects are not modelled.
- FieldSetup.FieldServer.Apply: the skipping of entries that are neither "add" nor for review, which no plan contains.
- The rest of `app/services`: not part of this model; the stage worker enters by what it may do to shared rows.
- The stage clean-up of the order-formation process, which reads one page of items only, and the near-duplicate stage set-up of the defect archive.
- Field, label and layout tables, PDF drawing and font metrics, dashboards, audits and thin wrappers.

# CryptoPay: a verified model of the payment and webhook passes

CryptoPay turns transfers on a chain into paid invoices. Its core is a handful of polling
passes that move rows of a shared database through status machines, driven by a chain that
may forget transactions, an RPC node that may fail and merchants that may not answer. This
Dafny project models those passes, their loops and their stale snapshots included, and
proves what holds in every reachable state. `dafny verify dfyconfig.toml` checks it all.

## How it is built

- **Rows and rules.** `StateMachines`, `PaymentMatching` and `Records` hold the two
  transition tables, the selection of an invoice for a transfer, the three payment tables
  and the joint invariant `Inv` over them: who pays what, which statuses go together, which
  events exist. `RowMoves` says how rows may change from one transaction to the next.
- **Passes.** `PaymentConfirm` (worker) and `PaymentAdvance` (API) follow the code of one
  row, transition assertions included. `Sweep`, `Expiry` and `ConfirmationPass` work out what
  a loop over rows read earlier comes to; `PassAgreement` compares the two programs;
  `BlockchainScan` does the same for scans, and `ScanAgreement` compares two of them.
- **Machines.** `Pipeline` and `PipelineRuns` interleave the worker's passes, one transaction
  at a time, with new invoices, passing time, new blocks and aborts at any point.
  `ApiPipeline` does so for the in-process poller, whose `ticking` flag and watermark are
  part of the state, over the clock-driven chain of `FakeBlockchain`. `WebhookInterleaving`
  runs any number of dispatchers beside one retrier, one database or HTTP operation at a time.
- **Imperative code.** Everything the source updates in place is a class with methods:
  `PaymentJobs.Database` and its jobs, `PaymentsService.Service`,
  `FakeBlockchain.FakeBlockchainAdapter`, `WebhookJobs.WebhookTables`,
  `RefreshTokens.RefreshTokenService`, `RateLimit.RedisRateLimitGuard`,
  `LoginLockout.AuthService`. Each method is proved to compute the specification function
  that the lemmas are about.
- **Jobs as runs.** `JobsAreRuns`, `TicksAreRuns` and `WebhookJobsAreRuns` show that each job,
  when nothing interleaves with it, continues a run of its machine: the clock may move
  between any two rows, and an error may stop the job at any of them. `TimedRuns` holds what
  they share.
- **Webhooks, sessions, throttling, slugs.** `RetrySchedule`, `WebhookDelivery`,
  `WebhookPasses`, `WebhookQueue`; `RefreshTokens`, `LoginLockout`, `RateLimit`;
  `OrganizationSlug`. `MerchantNotices` joins the ledger to the delivery tables.

Conventions: a row's id is its position in its table, so a fresh id is the length of the
table. A query may return its rows in any order (`PassOrder`, `RowOrder`, `Fan`). The clock
is read again for every row or transfer a pass handles. An adapter answers with any count, "not found"
or an error. Money is a natural number of 10^-8 units, the scale of the columns. Addresses are kept
in one canonical form, because the candidate query compares them exactly.

## What came out

- The comments in `packages/database/prisma/schema.prisma:310-311` and
  `packages/payments/src/payment-state-machine.ts:6-7` allow an invoice several payments. The
  passes never create a second one (`Records.StatusesCorrespond`).
- The worker and the API do not agree in general. When the adapter answers about every
  active payment, they leave the same rows if and only if no payment is *divisive*:
  confirming with its transaction gone, or suspected of a reorg and either back or out of
  time (`PassAgreement.ProgramsAgreeExactlyWhen`).
- `apps/api/src/payments/payments.service.ts:79-84` has the caller of a simulation see "the
  detected state". A tick that meets no error leaves no invoice DETECTED
  (`PaymentsService.NoneLeftDetected`), so a caller whose own tick runs sees CONFIRMING, for
  an invoice that the selection rule puts before every other the transfer could pay
  (`PaymentsService.SimulatedPaymentConfirms`), or else PENDING or EXPIRED
  (`PaymentsService.PendingComesOut`); when nothing else is waiting, CONFIRMING if and only if the selection names the invoice
  (`PaymentsService.SimulatedPaymentConfirmsExactlyWhen`). A caller whose tick returns at
  once, because another one is running, may read PENDING or DETECTED
  (`ApiPipeline.OverlappingTickShowsDetected`).
- The dispatch query selects events without deliveries, and an event nobody is subscribed to
  never gets one. It is not skipped over: an event with an enabled endpoint is dispatched,
  after as many passes as it has deliverable elders and one, whatever newer events arrive
  meanwhile, if and only if fewer than 25 waiting events without one are older (`WebhookQueue.ServedExactlyWhen`); behind 25 of them
  it waits for as long as they do (`WebhookQueue.StarvedForEver`), whichever organizations
  they belong to.

## Model

| member | source | states |
|---|---|---|
| InvoiceStateMachine.PathsClimb | packages/payments/src/invoice-state-machine.ts:10-29 | any walk over the invoice table climbs in rank at every step, so no status recurs and walks are short |
| InvoiceStateMachine.OnlyWayToAnOutcome | packages/payments/src/invoice-state-machine.ts:10-33 | from PENDING there is one single path to each of PAID, UNDERPAID and OVERPAID |
| InvoiceStateMachine.Entries | packages/payments/src/invoice-state-machine.ts:10-33 | the table read backwards: from exactly which statuses each one can be entered |
| PaymentStateMachine.Entries | packages/payments/src/payment-state-machine.ts:9-28 | the same for payments |
| PaymentStateMachine.OutcomesAreFinal | packages/payments/src/payment-state-machine.ts:9-24 | no settled or failed payment changes again, and the one step that can be taken back is the suspicion of a reorg |
| PaymentMatching.MatchesExactlyWhen | packages/payments/src/payment-matching.ts:24-30 | a transfer matches exactly the invoices of its network and token at its address, letter case aside |
| PaymentMatching.SelectionRule | packages/payments/src/payment-matching.ts:52-64 | nothing is selected exactly when nothing matches; an exact amount wins whenever there is one; otherwise the selected match is no younger than any other |
| PaymentMatching.TiesGoToTheFirstRow | packages/payments/src/payment-matching.ts:56-63 | among several exact amounts, and among equally old matches, the row returned first is selected |
| PaymentMatching.SelectionIgnoresRowOrder | packages/payments/src/payment-matching.ts:38-64 | with at most one exact match and distinct creation times every permutation of the candidates gives the same answer |
| Records.VerdictKeepsPair | apps/worker/src/queues/payment-confirm.queue.ts:141-197 | every rewrite of a payment and its invoice takes both along edges of their tables to statuses that belong together, with the classification the amounts call for |
| Records.ApplyKeepsInv | apps/worker/src/queues/payment-confirm.queue.ts:141-197 | rewriting one payment with its invoice and its event, in one transaction, keeps the joint invariant of the three tables |
| Records.ExpireKeepsInv | apps/worker/src/queues/payment-confirm.queue.ts:95-106 | expiring a pending invoice with its event keeps the joint invariant |
| Records.DetectKeepsInv | apps/worker/src/queues/blockchain-scan.queue.ts:91-118 | recording an unseen hash against a pending invoice keeps the joint invariant |
| Records.EventsCountOutcomes | apps/worker/src/queues/payment-confirm.queue.ts:199-228 | the number of events is the number of invoices that are PAID, UNDERPAID, OVERPAID or EXPIRED |
| Records.StatusesCorrespond | apps/worker/src/queues/payment-confirm.queue.ts:141-197 | an invoice has no payment exactly while PENDING or once EXPIRED, otherwise exactly one, in the twin status |
| Records.PaidMeansPaid | apps/worker/src/queues/payment-confirm.queue.ts:165-197 | PAID means a date, one confirmed payment, received = expected = invoice amount, and at least the required confirmations |
| Records.EventTellsOutcome | apps/worker/src/queues/payment-confirm.queue.ts:180-228 | in a good ledger an event is named "payment.paid", "payment.underpaid", "payment.overpaid" or "invoice.expired" exactly as its invoice ended, and carries the terms of the invoice and the hash of its payment |
| Records.AddInvoiceMeans | packages/database/prisma/schema.prisma:280-294 | creating an invoice adds one pending, unpaid row with its terms and touches nothing else |
| PaymentConfirm.RowMatchesTable | apps/worker/src/queues/payment-confirm.queue.ts:58-92 | on a row that is still current no transition assertion throws and the nested branches come to the decision table |
| PaymentConfirm.TableDecidesRightly | apps/worker/src/queues/payment-confirm.queue.ts:72-91 | a payment settles exactly when it was already confirming and is deep enough, by its amounts alone; fails exactly when never confirmed or missing for 600,000 ms under suspicion; goes back to confirming when it reappears, however deep; dates and counts are those of the decision |
| PaymentAdvance.ApiRowMatchesTable | apps/api/src/payments/payments.service.ts:240-273 | the same for the API's loop body, which knows no reorgs |
| PaymentAdvance.ApiTableDecidesRightly | apps/api/src/payments/payments.service.ts:240-273 | in the API a payment fails exactly when its transaction is gone, detected or confirming, and settles exactly when it was already confirming and is deep enough |
| PaymentAdvance.TablesAgree | apps/api/src/payments/payments.service.ts:246-258 | the two decision tables differ in exactly two situations |
| Expiry.ExpiryIsPointwise | apps/worker/src/queues/payment-confirm.queue.ts:95-106 | the expiry loop changes exactly the listed invoices, adds one event for each, and keeps the invariant |
| Sweep.SweepIsPointwise | apps/worker/src/queues/payment-confirm.queue.ts:53-92 | rewriting payments one after another from a stale snapshot is the pointwise rewrite of the tables as they were read |
| Sweep.EventsDetermined | apps/worker/src/queues/payment-confirm.queue.ts:199-228 | invoices and payments determine the events, so equal rows mean equal events |
| Sweep.RewrittenAlike | apps/worker/src/queues/payment-confirm.queue.ts:53-92 | two passes over the same rows that decide every payment alike leave the same rows |
| ConfirmationPass.PassIsSweep | apps/worker/src/queues/payment-confirm.queue.ts:53-92 | the loop, assertions and RPC errors included, is the sweep over the rows before the first error |
| ConfirmationPass.PassIsPointwise | apps/worker/src/queues/payment-confirm.queue.ts:53-92 | a pass cut short by an RPC error rewrites exactly the payments before it, keeps the invariant and trips no assertion |
| ConfirmationPass.PassDecides | apps/worker/src/queues/payment-confirm.queue.ts:58-92 | an uninterrupted pass of either program rightly decides every payment it should look at, by status, reply, depth and time, and dates its invoice |
| ConfirmationPass.FullPassIsSafe | apps/worker/src/queues/payment-confirm.queue.ts:45-93 | a whole pass of either program, expiry included, never trips an assertion and keeps the invariant, wherever it is cut off |
| ConfirmationPass.ExpiredExactlyWhen | apps/worker/src/queues/payment-confirm.queue.ts:95-106 | after a pass an invoice is expired exactly if it was, or was pending and overdue when the pass began |
| PassAgreement.RowOrderIsInvisible | apps/worker/src/queues/payment-confirm.queue.ts:53-56 | in a pass whose adapter answers about every active payment, the order in which the database returns rows never shows in the result |
| PassAgreement.FullPassDecides | apps/worker/src/queues/payment-confirm.queue.ts:45-93 | so does a whole pass, expiry included, seen from the ledger before it |
| PassAgreement.SuspectsAreDecided | apps/worker/src/queues/payment-confirm.queue.ts:72-139 | a completed pass fails a missing suspect with its invoice exactly from 600,000 ms on, leaves it alone before, and takes one that is back to confirming without settling it |
| PassAgreement.ProgramsAgreeExactlyWhen | apps/api/src/payments/payments.service.ts:234-336 | when the adapter answers about every active payment, worker pass and API phases leave the same invoices, payments and events if and only if no payment is divisive |
| PassAgreement.ProgramsAgreeOnAHealthyChain | apps/api/src/payments/payments.service.ts:147-336 | they agree whenever no payment is REORG_DETECTED and every hash is found |
| BlockchainScan.MatchMeans | apps/worker/src/queues/blockchain-scan.queue.ts:75-118 | a transfer with nothing to pay or a known hash changes nothing; any other is recorded against the invoice the selection rule names among those pending at its address, network and token, whatever the order of rows |
| BlockchainScan.MatchRecords | apps/worker/src/queues/blockchain-scan.queue.ts:80-118 | field by field: a transfer of any amount to the address of a pending invoice, with a hash new on its network, adds exactly one payment, copied from the transfer and the invoice, and marks that invoice detected |
| BlockchainScan.MatchKeepsInv | apps/worker/src/queues/blockchain-scan.queue.ts:75-118 | offering a transfer keeps the joint invariant, so no hash gets two payments |
| BlockchainScan.ScanMeans | apps/worker/src/queues/blockchain-scan.queue.ts:55-58 | a scan leaves old payments and all events alone, and every payment it adds copies one transfer of the range and one pending invoice |
| BlockchainScan.ScanDealsWith | apps/worker/src/queues/blockchain-scan.queue.ts:55-58 | after a scan no transfer of the range is still waiting for an invoice it could pay |
| BlockchainScan.ScanLeavesNoPayer | apps/worker/src/queues/blockchain-scan.queue.ts:55-58 | after a scan a transfer to the address of an invoice that is still pending has its hash recorded |
| BlockchainScan.ScanRecords | apps/worker/src/queues/blockchain-scan.queue.ts:55-118 | a transfer of any amount that finds a pending invoice at its address when the scan comes to it ends as the one payment of its hash, with its amount and a detected invoice |
| ScanAgreement.ScanResumes | apps/worker/src/queues/blockchain-scan.queue.ts:51-63 | stopped after any prefix and run again, a scan ends where an uninterrupted one does but for the times of recording, each of the three with its own clock and its own order of rows, as long as the orders choose alike |
| ScanAgreement.SteadyChoosesAlike | apps/worker/src/queues/blockchain-scan.queue.ts:80-88 | an order of rows that does not depend on the times of payments chooses like itself |
| ScanAgreement.NoTiesChooseAlike | packages/payments/src/payment-matching.ts:52-64 | when no two rival pending invoices agree in amount or age, any two orders of rows choose alike, throughout the scans |
| BlockchainScan.RescanChangesNothing | apps/worker/src/queues/blockchain-scan.queue.ts:91-94 | scanning what was scanned before changes nothing, at whatever times and in whatever order rows come back |
| BlockchainScan.ScanDetectsThePreferred | apps/worker/src/queues/blockchain-scan.queue.ts:75-120 | an invoice that the selection rule puts before every other an unrecorded transfer could pay is detected by a scan of that transfer, whatever else is scanned before and after; the transfer is the first of the range with its hash |
| BlockchainScan.ScanOfOneNewTransfer | apps/worker/src/queues/blockchain-scan.queue.ts:55-58 | when everything else in the range is dealt with, the scan comes to the match of the one transfer |
| RowMoves.ApplyMoves | apps/worker/src/queues/payment-confirm.queue.ts:141-197 | status changes are edges, terms and facts of rows never change, events stay |
| RowMoves.MatchMoves | apps/worker/src/queues/blockchain-scan.queue.ts:96-118 | the same for the writes of a scan; new payments are born DETECTED |
| Pipeline.StepSafe | apps/worker/src/queues/payment-confirm.queue.ts:45-93 | every step of the interleaved machine keeps the invariant, the freshness of the running snapshot, the tiling of scans and the cursor bounds |
| PipelineRuns.RunsAreSafe | apps/worker/src/queues/payment-confirm.queue.ts:45-197 | in every reachable state, aborted passes included, the joint invariant holds and no assertion has thrown |
| PipelineRuns.StepMoves | packages/payments/src/payment-state-machine.ts:9-28 | every persisted status change of a run is an edge of the two tables |
| PipelineRuns.EventsAreConserved | apps/worker/src/queues/payment-confirm.queue.ts:199-228 | in every reachable state one event of the right kind and status for each settled invoice and none for any other |
| PipelineRuns.AtMostThreeChanges | packages/payments/src/invoice-state-machine.ts:10-29 | over any run of the worker the status of an invoice changes at most three times after its creation |
| PipelineRuns.OnlyAskingChanges | apps/worker/src/queues/payment-confirm.queue.ts:58-92 | only asking the chain about a payment ever changes it, and then by the decision table |
| PipelineRuns.SuspicionHasABeginning | apps/worker/src/queues/payment-confirm.queue.ts:126-138 | a suspect was confirming when it was first missed, has not been seen since, and its `updatedAt` is the time of that step |
| PipelineRuns.FailedOnlyAfterGrace | apps/worker/src/queues/payment-confirm.queue.ts:116-148 | a payment that vanished while confirming fails only after 600,000 ms of never being seen, together with its invoice |
| PipelineRuns.EveryRowIsAsked | apps/worker/src/queues/payment-confirm.queue.ts:53-66 | in any run a completed pass asks about every payment it has read, and until it does nothing else changes that payment |
| PipelineRuns.FailedByTheDeadline | apps/worker/src/queues/payment-confirm.queue.ts:133-148 | in any run a suspect that stays missing is failed, with its invoice, by the first completed pass that reads its rows 600,000 ms after the suspicion or later, whatever happens between the steps of the pass |
| PipelineRuns.SettledByTwoPasses | apps/worker/src/queues/payment-confirm.queue.ts:58-92 | in any run a payment that is found deep enough whenever it is asked about settles, with its invoice, by the end of the second completed pass |
| PipelineRuns.TilesMeans | packages/database/prisma/schema.prisma:376-386 | completed ranges are disjoint, in order, and cover exactly blocks 0 to the cursor |
| PipelineRuns.CursorNeverFalls | apps/worker/src/queues/blockchain-scan.queue.ts:45-63 | no step lowers the cursor, not even an RPC node that reports an older height |
| PipelineRuns.NothingSkipped | apps/worker/src/queues/blockchain-scan.queue.ts:45-63 | in every reachable state a block is at or below the cursor exactly when one and only one completed scan covers it, and its transfers were offered |
| JobsAreRuns.PassIsARun | apps/worker/src/queues/payment-confirm.queue.ts:45-93 | `runPaymentConfirm` continues any run from idle to idle with the ledger of the pass, whatever the adapter answers, completed or stopped by an RPC error, for any clock that does not go back |
| JobsAreRuns.ScanIsARun | apps/worker/src/queues/blockchain-scan.queue.ts:36-64 | `runBlockchainScan` continues any run from idle to idle with the ledger and cursor of the scan, through RPC errors, an old height and a death after any number of transfers, for any clock that does not go back |
| PaymentJobs.ExpireOverdueInvoices | apps/worker/src/queues/payment-confirm.queue.ts:95-106 | the loop of updates and event inserts computes the expiry that `ExpiryIsPointwise` describes, and leaves the cursors alone |
| PaymentJobs.ConfirmOne | apps/worker/src/queues/payment-confirm.queue.ts:58-92 | one turn of the worker's loop, its helper calls included, computes what `RowMatchesTable` reduces to the decision table |
| PaymentJobs.AdvanceOne | apps/api/src/payments/payments.service.ts:240-273 | one turn of the API's loop computes what `ApiRowMatchesTable` reduces to the API's table |
| PaymentJobs.HandleAll | apps/worker/src/queues/payment-confirm.queue.ts:58-92 | the loop over a stale snapshot, stopping at an RPC error or a failed assertion, computes the pass that `PassIsPointwise` describes |
| PaymentJobs.RunPaymentConfirm | apps/worker/src/queues/payment-confirm.queue.ts:45-93 | the whole job computes the pass that the lemmas of `ConfirmationPass` and `PassAgreement` are about; from a good ledger no assertion throws and the ledger stays good, also when cut short |
| PaymentJobs.TryMatchTransfer | apps/worker/src/queues/blockchain-scan.queue.ts:75-120 | the query, the selection, the hash check and the transaction come to the match that `MatchMeans` describes |
| PaymentJobs.RunBlockchainScan | apps/worker/src/queues/blockchain-scan.queue.ts:36-64 | from a missing or stored cursor, through RPC errors and a crash after any transfer, to the ledger and cursor of the scan that `KilledScanResumes` is about; the joint invariant and other networks' cursors are kept |
| PaymentJobs.KilledScanResumes | apps/worker/src/queues/blockchain-scan.queue.ts:51-63 | a scan killed anywhere and run again over an equal or longer range ends with the cursor and, but for the times of recording, the ledger of one never interrupted; the three have their own clocks and orders of rows |
| FakeBlockchain.FileKeepsValid | packages/blockchain/src/fake-blockchain-adapter.ts:100-103 | filing a transfer keeps the two indices over the same transfers and appends to its block only |
| FakeBlockchain.BetweenMeans | packages/blockchain/src/fake-blockchain-adapter.ts:69-75 | a ranged scan returns exactly the filed transfers of the range, none twice |
| FakeBlockchain.BetweenJoins | packages/blockchain/src/fake-blockchain-adapter.ts:69-75 | adjacent ranges join without loss or repetition |
| FakeBlockchain.BlockClock | packages/blockchain/src/fake-blockchain-adapter.ts:107-109 | block b has been reached exactly from b block times after genesis on |
| FakeBlockchain.AnswersMean | packages/blockchain/src/fake-blockchain-adapter.ts:77-83 | exactly the filed hashes are found, with the number of blocks since, never negative |
| FakeBlockchain.ConfirmationsAccrue | packages/blockchain/src/fake-blockchain-adapter.ts:77-83 | n confirmations exactly once n further blocks were due |
| FakeBlockchain.ConfirmationsGrow | packages/blockchain/src/fake-blockchain-adapter.ts:77-83 | while the clock runs forward height and confirmations never drop |
| FakeBlockchain.FakeBlockchainAdapter.constructor | packages/blockchain/src/fake-blockchain-adapter.ts:41-45 | an empty chain whose genesis is now |
| FakeBlockchain.FakeBlockchainAdapter.SimulatePayment | packages/blockchain/src/fake-blockchain-adapter.ts:90-105 | the transfer lands in the current block and in both indices |
| FakeBlockchain.FakeBlockchainAdapter.GetTokenTransfers | packages/blockchain/src/fake-blockchain-adapter.ts:69-75 | the loop returns the blocks of the range in order |
| ApiPipeline.NextKeepsSound | apps/api/src/payments/payments.service.ts:135-178 | every step keeps the joint invariant, the watermark below the current block, everything at or below it offered, and the flag set exactly while a tick runs |
| ApiPipeline.NextMoves | apps/api/src/payments/payments.service.ts:189-336 | every persisted status change in the API is an edge of the tables too |
| ApiPipeline.ScannedBlocksAreFrozen | apps/api/src/payments/payments.service.ts:163-178 | within a process life no transfer lands in a block already scanned and the watermark does not fall |
| ApiPipeline.ApiRunsAreSound | apps/api/src/payments/payments.service.ts:135-336 | so in every reachable state, errors and restarts included |
| ApiPipeline.ScannerMissesNothing | apps/api/src/payments/payments.service.ts:163-206 | over any stretch without restart scanned blocks keep their transfers, all of them were offered, and no hash has two payments |
| ApiPipeline.AtMostThreeChanges | packages/payments/src/invoice-state-machine.ts:10-29 | over any run of the API the status of an invoice changes at most three times after its creation |
| ApiPipeline.OverlappingTickShowsDetected | apps/api/src/payments/payments.service.ts:130-136 | a run in which a payment is simulated while another tick is under way, and the caller can read PENDING and then DETECTED |
| TicksAreRuns.TickIsARun | apps/api/src/payments/payments.service.ts:135-145 | a tick continues any run in which none is under way with the ledger and the watermark of the specified tick, finished or cut short, for any clock that does not go back |
| PaymentsService.TickIsSafe | apps/api/src/payments/payments.service.ts:135-145 | a tick keeps the joint invariant and trips no assertion, whenever its clock is read and wherever an error cuts it short |
| PaymentsService.DetectionLeavesNothing | apps/api/src/payments/payments.service.ts:163-206 | after a detection that throws nothing, no transfer above the old watermark still waits for an invoice it could pay |
| PaymentsService.NoneLeftDetected | apps/api/src/payments/payments.service.ts:135-145 | a tick that meets no error completes and leaves no invoice DETECTED, whatever was there before; what was detected and is on the chain is CONFIRMING |
| PaymentsService.TickDecides | apps/api/src/payments/payments.service.ts:234-336 | an error-free tick rightly decides every payment that is detected or confirming after detection, and dates its invoice |
| PaymentsService.TickSettlesExactlyWhen | apps/api/src/payments/payments.service.ts:240-283 | in terms of the chain: an orphaned payment fails with its invoice however long it was confirming; a confirming one settles exactly once the required blocks are due |
| PaymentsService.SimulatedPaymentConfirms | apps/api/src/payments/payments.service.ts:114-145 | the tick that follows a transfer takes the pending invoice that the selection rule puts before every other live one to CONFIRMING, whatever else is on the chain |
| PaymentsService.PendingComesOut | apps/api/src/payments/payments.service.ts:114-145 | whatever the chain holds, a pending invoice comes out of a tick that meets no error CONFIRMING, EXPIRED or still PENDING |
| PaymentsService.SimulatedPaymentConfirmsExactlyWhen | apps/api/src/payments/payments.service.ts:114-133 | when nothing else is waiting, a pending invoice comes out CONFIRMING if and only if the selection names it, EXPIRED if and only if it was overdue, and PENDING otherwise |
| PaymentsService.Service.DetectNewPayments | apps/api/src/payments/payments.service.ts:163-178 | matches the new range and leaves the watermark one block behind, never lower than before; if matching throws, what was matched stays and the watermark does not move |
| PaymentsService.Service.Tick | apps/api/src/payments/payments.service.ts:135-145 | a second tick does nothing; any other runs the three phases and clears the flag, also when matching a transfer or asking about a payment throws; the joint invariant is kept |
| PaymentsService.Service.DoSimulatePayment | apps/api/src/payments/payments.service.ts:114-133 | refuses exactly the invoices that are not pending or whose network has no fake adapter, otherwise files the transfer, ticks, and returns the stored invoice or the tick's error; the invoice is CONFIRMING, EXPIRED or PENDING when its own tick meets no error |
| RetrySchedule.DelayWithinAFifth | packages/webhooks/src/retry-schedule.ts:24-29 | six delays and no more: each within a fifth of 1, 5 and 15 minutes, 1, 6 and 24 hours, whatever is drawn |
| RetrySchedule.DelayIsNearest | packages/webhooks/src/retry-schedule.ts:24-29 | the delay is the jittered documented one to the nearest millisecond |
| RetrySchedule.DelaysIncrease | packages/webhooks/src/retry-schedule.ts:2-29 | delays of later attempts are longer whatever the jitter of either |
| RetrySchedule.FullScheduleTakesADay | packages/webhooks/src/retry-schedule.ts:2-11 | the least total of the six delays is 90,288 seconds |
| WebhookDelivery.FirstFailureIsScheduled | apps/worker/src/queues/webhook-dispatch.queue.ts:51-88 | a first success is final at once; a first failure is scheduled within a fifth of a minute around one minute |
| WebhookDelivery.RetryUsesOneUp | apps/worker/src/queues/webhook-retry.queue.ts:59-86 | a retry counts one attempt, succeeds, reschedules or exhausts exactly as it should, keeps the old `nextRetryAt` on success and the old `deliveredAt` on failure, and stays with its event and endpoint |
| WebhookDelivery.AtMostSixEach | apps/worker/src/queues/webhook-retry.queue.ts:40-90 | the measure is at most six per failed delivery and zero exactly when none is failed |
| WebhookDelivery.RetriesAreBounded | apps/worker/src/queues/webhook-retry.queue.ts:40-90 | every retry lowers the measure, so n failed deliveries settle within 6n retries |
| WebhookInterleaving.StepSafe | apps/worker/src/queues/webhook-dispatch.queue.ts:46-93 | every single operation of any dispatcher or of the retrier keeps one row per pair, exclusive ownership, and rows in line with what was sent |
| WebhookInterleaving.DeliveryContract | apps/worker/src/queues/webhook-retry.queue.ts:40-90 | in every interleaving: one row and one first send per pair, at most seven sends, sends equal attempts when settled, no exhaustion before 90,288 seconds |
| WebhookInterleaving.SettledIsFinal | apps/worker/src/queues/webhook-retry.queue.ts:40-90 | after SUCCEEDED or EXHAUSTED nothing is sent and nothing changes |
| WebhookPasses.DispatchClaims | packages/database/prisma/schema.prisma:452-454 | claiming pairs creates exactly the missing rows, each with the result of one attempt |
| WebhookPasses.PassDelivers | apps/worker/src/queues/webhook-dispatch.queue.ts:39-94 | after a pass an event of the batch has one delivery per enabled endpoint and none besides, and waits on exactly when it has none |
| WebhookPasses.WaitingMeans | apps/worker/src/queues/webhook-dispatch.queue.ts:39-41 | the dispatch query looks for exactly the events that no delivery row is for |
| WebhookQueue.PassesDrain | apps/worker/src/queues/webhook-dispatch.queue.ts:39-44 | with an enabled endpoint for every waiting event, k passes take 25k of them off the queue, whatever newer ones arrive, so ceil(n / 25) drain n, and each that left has one delivery per enabled endpoint and none besides |
| WebhookQueue.PassesServe | apps/worker/src/queues/webhook-dispatch.queue.ts:39-94 | over any series of passes, with any arrivals, no pair gets two rows, rows stay, and an event that left the queue has one delivery per enabled endpoint and none besides |
| WebhookQueue.ServedWithin | apps/worker/src/queues/webhook-dispatch.queue.ts:39-44 | with s < 25 undeliverable and a deliverable events waiting before it, a deliverable event is delivered once k passes satisfy k x (25 - s) > a, whatever newer events arrive |
| WebhookQueue.StarvedForEver | apps/worker/src/queues/webhook-dispatch.queue.ts:39-44 | behind 25 older undeliverable events a deliverable one is still waiting after any number of passes and newer arrivals |
| WebhookQueue.ServedExactlyWhen | apps/worker/src/queues/webhook-dispatch.queue.ts:39-44 | after more passes than it has deliverable elders, with any newer arrivals, a deliverable event has left the queue if and only if fewer than 25 undeliverable ones were before it |
| WebhookQueue.PassesExist | apps/worker/src/queues/webhook-dispatch.queue.ts:39-44 | whatever arrives, every table has an answer to the dispatch query, so passes can go on for ever |
| MerchantNotices.SettledInvoiceIsAnnounced | apps/worker/src/queues/webhook-dispatch.queue.ts:39-56 | after any passes and arrivals a settled invoice has exactly one event, which tells its outcome and either still waits or has exactly one delivery row per enabled endpoint of the invoice's organization and no other |
| WebhookPasses.UnsubscribedEventsBlockTheQueue | apps/worker/src/queues/webhook-dispatch.queue.ts:39-44 | 25 oldest events without an enabled endpoint make every pass a no-op |
| WebhookPasses.ProgressExactlyWhen | apps/worker/src/queues/webhook-dispatch.queue.ts:39-47 | a pass shortens the queue if and only if its batch holds an event with an enabled endpoint |
| WebhookPasses.RetryPassMeans | apps/worker/src/queues/webhook-retry.queue.ts:46-90 | a retry pass tries each due row of its batch once and touches no other |
| WebhookPasses.DueRowsAreRetried | apps/worker/src/queues/webhook-retry.queue.ts:40-46 | with fewer than 25 rows due, exactly the FAILED rows whose time has come are tried again |
| WebhookJobs.WebhookTables.CreateDelivery | apps/worker/src/queues/webhook-dispatch.queue.ts:51-56 | the insert fails exactly when the pair is claimed |
| WebhookJobs.WebhookTables.DispatchTo | apps/worker/src/queues/webhook-dispatch.queue.ts:47-93 | claim, send and store for one endpoint: a claimed pair is left alone, a new one gets a row with the result of one attempt |
| WebhookJobs.WebhookTables.RunWebhookDispatch | apps/worker/src/queues/webhook-dispatch.queue.ts:33-95 | the nested loops compute the pass that `PassDelivers` describes; old rows stay and no pair gets a second one |
| WebhookJobs.WebhookTables.RunWebhookRetry | apps/worker/src/queues/webhook-retry.queue.ts:34-91 | every due row gets the result of one more attempt, no other row changes |
| WebhookJobsAreRuns.DispatchIsARun | apps/worker/src/queues/webhook-dispatch.queue.ts:33-95 | the dispatch job continues any run of the concurrent machine, beside the passes under way, with the tables of the dispatch pass |
| WebhookJobsAreRuns.RetryIsARun | apps/worker/src/queues/webhook-retry.queue.ts:34-91 | the retry job continues any run in which no other retry is under way with the tables of the retry pass |
| RefreshTokens.OpKeepsGood | apps/api/src/auth/tokens/refresh-token.service.ts:47-98 | login, rotation, reuse and logout keep distinct tokens and links from each token to the next of its family |
| RefreshTokens.OnlyTheLastLives | apps/api/src/auth/tokens/refresh-token.service.ts:63-84 | every token that has a successor in its family is revoked |
| RefreshTokens.LoginMeans | apps/api/src/auth/tokens/refresh-token.service.ts:47-61 | a login adds one live token with the user, the family and the lifetime it was given |
| RefreshTokens.RotateMeans | apps/api/src/auth/tokens/refresh-token.service.ts:63-84 | a token is exchanged exactly when known, unrevoked and unexpired, for one of the same user and family; a stale one revokes what is live in its family; nothing else changes |
| RefreshTokens.LogoutMeans | apps/api/src/auth/tokens/refresh-token.service.ts:93-98 | a logout revokes the presented token if it is live and touches nothing else |
| RefreshTokens.FreshTokenLivesItsTerm | apps/api/src/auth/tokens/refresh-token.service.ts:47-84 | a token just issued can be exchanged until its lifetime is over and no longer |
| RefreshTokens.DeadStaysDead | apps/api/src/auth/tokens/refresh-token.service.ts:63-98 | no operation revives a family without a live token |
| RefreshTokens.LinksFormAPath | apps/api/src/auth/tokens/refresh-token.service.ts:78-82 | `replacedById` links visit every later token of the family once, in order of issue, and end at the last |
| RefreshTokens.HistoriesAreGood | apps/api/src/auth/tokens/refresh-token.service.ts:47-98 | all this holds after any sequence of calls at any times |
| RefreshTokens.FamiliesHaveOneUser | apps/api/src/auth/tokens/refresh-token.service.ts:47-84 | after any sequence of calls all tokens of a family belong to one user |
| RefreshTokens.DeadForever | apps/api/src/auth/tokens/refresh-token.service.ts:71-91 | over any history a dead family never gains a live token |
| RefreshTokens.RefreshTokenService.Issue | apps/api/src/auth/tokens/refresh-token.service.ts:47-61 | appends one live token, field by field |
| RefreshTokens.RefreshTokenService.RotateIt | apps/api/src/auth/tokens/refresh-token.service.ts:63-84 | table and answer are those of the rotation that `RotateMeans` describes, and the table stays good |
| RateLimit.CounterMeans | apps/api/src/common/guards/redis-rate-limit.guard.ts:43-47 | the stored counter is the number of requests of the current window, which ends a minute after its first request however many are rejected |
| RateLimit.AdmittedExactly | apps/api/src/common/guards/redis-rate-limit.guard.ts:43-52 | exactly the first `limit` requests of a window pass, the very first included |
| RateLimit.WindowBound | apps/api/src/common/guards/redis-rate-limit.guard.ts:43-52 | at most `limit` requests pass in one window |
| RateLimit.WindowsApart | apps/api/src/common/guards/redis-rate-limit.guard.ts:43-47 | a later window starts only when the earlier one is over |
| RateLimit.SpanBound | apps/api/src/common/guards/redis-rate-limit.guard.ts:43-52 | at most twice the limit pass in any span of sixty seconds, for any request times |
| RateLimit.LimitsMean | apps/api/src/common/guards/redis-rate-limit.guard.ts:55-63 | each category has its own setting and one minute; only logins are counted by address and e-mail |
| RateLimit.IdentityMeans | apps/api/src/common/guards/redis-rate-limit.guard.ts:35-41 | a login with an e-mail address counts under both, in lower case; everything else under the network address |
| RateLimit.RedisRateLimitGuard.CanActivate | apps/api/src/common/guards/redis-rate-limit.guard.ts:25-53 | the answer and the new counter of the request's key; other keys and uncategorized handlers are untouched |
| LoginLockout.LockedMeansLocked | apps/api/src/auth/auth.service.ts:90-95 | while the lock lasts no login succeeds and nothing changes, right password or not |
| LoginLockout.SuccessExactlyWhen | apps/api/src/auth/auth.service.ts:84-129 | a login succeeds exactly for an unsuspended, unlocked, verified user with every factor right, and then clears counter and lock and makes the user active |
| LoginLockout.FailureExactlyWhen | apps/api/src/auth/auth.service.ts:90-119 | each refusal happens exactly in its case; only wrong passwords and codes count, the fifth and later ones lock for 900,000 ms, and nothing else changes the user |
| LoginLockout.ColumnsMean | apps/api/src/auth/auth.service.ts:197-211 | after any history the counter is the number of failures since the last success, and the lock ends 15 minutes after the last of five or more |
| LoginLockout.FailuresAreSpaced | apps/api/src/auth/auth.service.ts:93-129 | from the fifth on, counted failures are at least 15 minutes apart |
| LoginLockout.GuessingIsSlow | apps/api/src/auth/auth.service.ts:21-22 | n >= 5 failures take at least (n - 5) x 15 minutes from the fifth on |
| LoginLockout.LockEndsExactlyWhen | apps/api/src/auth/auth.service.ts:84-129 | after any logins a user who was not suspended gets in with every factor right if and only if fewer than five failures followed the last success or the last is 900,000 ms old |
| LoginLockout.AuthService.TryLogin | apps/api/src/auth/auth.service.ts:84-129 | the method answers and writes as specified; unknown addresses change nothing |
| OrganizationSlug.PatternMeans | packages/validation/src/organization.schemas.ts:5 | the slug pattern accepts exactly the strings of lower-case letters, digits and single inner hyphens |
| OrganizationSlug.SlugifyYieldsASlug | apps/api/src/organizations/organizations.service.ts:17-25 | every name yields a string the pattern accepts |
| OrganizationSlug.SlugSpellsTheName | apps/api/src/organizations/organizations.service.ts:17-25 | the slug spells exactly the words of the folded name in order; a name without any becomes "org" |
| OrganizationSlug.SlugifyIsIdempotent | apps/api/src/organizations/organizations.service.ts:17-25 | the slug of a slug is itself |
| OrganizationSlug.SuffixKeepsPattern | apps/api/src/organizations/organizations.service.ts:44-46 | the random suffix keeps the pattern |
| OrganizationSlug.ChooseSlug | apps/api/src/organizations/organizations.service.ts:39-50 | after at most six lookups the loop yields the first free choice, which the pattern accepts, or an error exactly when all six are taken |

## Left out

- Scan and confirm passes that interleave with each other: writes go by id without a status guard, so the joint invariant is meant for serialized passes. Everything else interleaves with them in the machines.
- Crashes of the webhook workers and rotations or logins that overlap: the stated properties are about operations that run to their end.
- Prisma, BullMQ, Redis, viem and `EvmBlockchainAdapter`: a transaction is one atomic write, INCR with EXPIRE one step of a clocked counter, the adapter any answer; within one pass a hash is asked about once.
- `deliverWebhook`, signing and the SSRF guard: a delivery is an arbitrary success or failure. `statusCode`, `responseTimeMs` and `error` of a delivery row are not modelled.
- Argon2, AES-GCM, HMAC, JWT and TOTP: a password or a code is right or wrong, a raw token stands for its hash, generated ids, hashes and tokens are fresh.
- CANCELLED and REFUNDED, CREATED invoices and PENDING payments: in the tables, but none of the modelled passes writes them.
- Row timestamps of invoices and events in the payment ledger, except `createdAt`, `expiresAt`, `paidAt` and the timestamps of payments.
- A registry with several networks: each machine drives one adapter. The ledger and the cursors themselves hold rows of any network.
- Deleting rows: the modelled passes delete nothing, so ids stay positions.
- WebhookQueue.ServedExactlyWhen: endpoints do not change between the passes it counts, events that arrive meanwhile are newer than the one in question, and no other waiting event shares its creation time; among ties the database is free to choose.
- MerchantNotices.SettledInvoiceIsAnnounced: endpoints do not change between the passes, so "enabled" needs no date.
- ScanAgreement.ScanResumes: with ties among rival invoices and an order of rows that changes from scan to scan, two scans may credit different invoices; the tie then goes to the row that came first (`PaymentMatching.TiesGoToTheFirstRow`).
- OrganizationSlug.SlugifyIsIdempotent: case folding is a parameter, assumed only to leave slugs alone; Unicode case tables are not modelled.
- PaymentMatching.SelectionRule: address folding covers ASCII, the alphabet of the addresses.
- PaymentsService.Service.DoSimulatePayment: the method is one step, so what another running tick does between its lines is in `ApiPipeline` instead; a network without an adapter and one with a real adapter are both just refused.
- PaymentsService.Service.Tick: errors of the expiry phase and of the queries themselves are in `ApiPipeline` (`Throw` at any point) but not in the method.
- PassAgreement.RowOrderIsInvisible: a pass that an RPC error stops has rewritten exactly the rows before it (`ConfirmationPass.PassIsPointwise`), so there the order does show.
- ApiPipeline.ScannerMissesNothing: ends at a restart, which loses the in-memory chain and its watermark together.
- Controllers, presenters, the web app, validation schemas, audit records, membership and role guards, e-mail verification, paging and the rest of invoice creation: plumbing that would add only easy members.

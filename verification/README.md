# WizPay payment protocols

WizPay's backend runs small payment protocols: concurrent requests and workers act on shared
database rows, and every step is a guarded update. This project models those protocols and the
exact integer arithmetic around them, and proves what holds over every interleaving.

- **Execution intents, invoices and payrolls** share one store. `Steps.dfy` gives each atomic
  database write as an event with its guard (`RowsMatch`), what its request has established before
  (`Justified`) and its effect; a run is any sequence of such writes. `Invariants.dfy` proves one
  invariant of the store and a forward order on rows; `Guarantees.dfy` states the results over all
  runs. `Database.dfy` is the database one request sees: before each of its round trips any other
  requests may write what they are entitled to. The service classes (`ExecutionIntents.dfy`, `Invoices.dfy`,
  `PayrollTasks.dfy`, `SendIntents.dfy`) are the source's methods over that database, and
  `PaidPayrolls.dfy` joins the payroll receipt verifier to it. Each contract
  says what a success means under interference, and what an undisturbed call does exactly
  (`old(db.others) == []`).
- **The bridge row** (`BridgeLifecycle.dfy`) keeps all versions of one row; each write names the
  version its request had read, so lost updates are part of the model. `CctpMessages.dfy` is the
  fixed-offset message decoder, `FastFees.dfy` the Fast-transfer fee arithmetic.
- **The activity read model** is keyset pagination (`ActivityPages.dfy`) with its cursor texts
  (`CursorTexts.dfy`, `IsoTimes.dfy`, `Base64Url.dfy`) and the fenced, throttled synchronization lease
  (`SyncLease.dfy`).
- **Settlement evidence and amounts** are the payroll receipt verifier (`PayrollReceipts.dfy`), the
  cross-token funding search (`FundingSolver.dfy`) over the slippage and hop-price floors
  (`PriceFloors.dfy`), proportional allocation (`Allocation.dfy`), and grouping with fee-inclusive
  funding (`PayrollFunding.dfy`).
- **The rate limiter** in front of payment verification is `RateLimiter.dfy`.
- `Text.dfy`, `Arithmetic.dfy`, `Sequences.dfy` and `Wrappers.dfy` hold what the others share.

Attestations, quotes, receipts of transfers, random ids and times are parameters about which nothing
is assumed. Other requests may write anything that is justified, and like the services proved here
they complete payroll intents only on receipts of the payroll verifier. sha256 and keccak256 digests are represented by the value digested,
which makes them injective. Addresses are numbers, or hexadecimal digits in the bridge, so letter
case plays no part; token addresses in payroll grouping keep their case.

Where a promise of the source does not hold in general, the code is modelled as it is, a lemma
gives a concrete case, and another says when the promise holds:

- Cancelling an intent is not final (`CancellationCanBeUndone`, `CancelledUntilHash`,
  `CancelledUnlessBound`): the hash-binding handler and the unit report can revive it, hash recovery
  cannot (`CancelledTakesHash`, `CancelledIsProvable`, `BindKnownTransactionHash`).
- A FAILED unit can have a COMPLETED intent (`FailureIsTakenOnTrust`, `FailureIsOvertaken`,
  `FailuresAgreeAfter`, `FailuresAgreeExactly`).
- A payroll can be IN_PROGRESS although all its units are pending (`PendingReportStarts`,
  `AssignedTellsPendingExactly`).
- Batch references can collide at the limit of double precision (`CollidingReferences`,
  `LargeSuffixesCollide`, `ReferencesDifferExactly`).
- Two concurrent reports can replace a recorded burn hash, which the source's comment says cannot be
  overwritten (`SourceHashCanBeReplaced`, `SourceHashSurvives`, `FreshRunsAgree`).
- The verified flag of a completed bridge row stands for a proof of its own hash exactly while no
  reader is removed from the configuration (`FlagCanOutliveItsProof`, `FlagsAreProvenExactly`).
- The columns of a bridge row can disagree with its result (`ColumnCanDisagree`, `ColumnsSurvive`).
- A quote and the check at creation can read different fee entries of one response
  (`QuoteCanBeRefused`, `SameEntryExactly`); at a
  changed rate a quote is still admitted exactly up to a rise of a fifth (`QuotesAreAdmittedExactly`).
- The hop price can be too coarse for inputs above 10^36 (`CoarsePrice`,
  `HopPriceImpliesMinimumExactly`).
- An allocation with a repeated recipient id loses part of the output from its map
  (`MapSumsToTotal`).

## Model

| member | source | states |
|---|---|---|
| `Guarantees.StatusTellsEvidence` | apps/backend/src/execution-intent/execution-intent.service.ts:239-256 | In every reachable store, a hash means SUBMITTED, VERIFYING, COMPLETED or FAILED_FINAL; COMPLETED and FAILED_FINAL imply a hash; CANCELLED excludes one; AUTHORIZATION_PENDING, FAILED_RETRYABLE and EXPIRED are never entered; only payroll intents fail for good |
| `Guarantees.HashIsWrittenOnce` | apps/backend/src/execution-intent/execution-intent.service.ts:513-554 | However a run continues, a bound hash, the bound columns and the bound task never change, a hash-bearing intent only moves forward, and COMPLETED and FAILED_FINAL stay |
| `Guarantees.IntentsAreDistinct` | apps/backend/src/execution-intent/execution-intent.service.ts:536-553 | Two intents never share a transaction hash, and never stand for the same logical payment: for settlements one operation and public id, else one operation, payer and reference |
| `Guarantees.CancelledUntilHash` | apps/backend/src/execution-intent/execution-intent.service.ts:571-609 | A cancelled intent is still cancelled later exactly if no hash has been bound to it since |
| `Guarantees.CancelledUnlessBound` | apps/backend/src/execution-intent/execution-intent.service.ts:513-554 | One write of any service ends a cancellation exactly if it is a hash being bound to that intent |
| `ExecutionIntents.CancelledTakesHash` | apps/backend/src/execution-intent/execution-intent.service.ts:513-554 | Binding accepts a cancelled intent for every free transaction hash, lease or not, and leaves it SUBMITTED |
| `PayrollTasks.CancelledIsProvable` | apps/backend/src/orchestrator/task.controller.ts:88-127 | A success report revives a cancelled intent as well, exactly if the hash is free and the receipt supports it |
| `Guarantees.CancellationCanBeUndone` | apps/backend/src/execution-intent/execution-intent.service.ts:536-544 | A concrete run in which a late hash revives a cancelled intent, since neither guard looks at the status |
| `Guarantees.OpeningIsFirst` | apps/backend/src/execution-intent/execution-intent.service.ts:316-346 | A wallet prompt that succeeds belongs to a payment whose intent has not left its first state |
| `Guarantees.WalletOpensAtMostOnce` | apps/backend/src/execution-intent/execution-intent.service.ts:316-346 | Over any interleaving the wallet is opened at most once for one logical payment |
| `Guarantees.InvoiceLedgerIsSound` | apps/backend/src/invoice/invoice.service.ts:277-294 | A payment row exists exactly when its invoice is VERIFYING or PAID, and is VERIFIED exactly when the invoice is PAID |
| `Guarantees.PaidMeansSettled` | apps/backend/src/invoice/invoice.service.ts:328-355 | A PAID invoice has a COMPLETED intent of its own operation and public id, with the payment's hash and the invoice's terms |
| `Guarantees.NoTransactionPaysTwice` | apps/backend/src/invoice/invoice.service.ts:266-275 | Two invoices never carry payments with the same hash |
| `Guarantees.InvoiceEndsStay` | apps/backend/src/invoice/invoice.service.ts:165-190 | PAID, EXPIRED and CANCELLED are never left, VERIFYING leads only to PAID, and the terms never change |
| `Guarantees.CountersTellUnits` | apps/backend/src/task/task-unit.service.ts:60-106 | Whatever statuses clients report, the counters equal the numbers of SUCCESS and FAILED units, EXECUTED and REVIEW hold exactly for the matching unit states, and ASSIGNED holds exactly until the first report |
| `Guarantees.AssignedTellsPendingExactly` | apps/backend/src/task/task-unit.service.ts:144-160 | ASSIGNED implies that all units are pending; the two agree exactly unless the payroll was reported with the status PENDING and no other |
| `PayrollTasks.PendingReportStarts` | apps/backend/src/task/task-unit.service.ts:67-106 | A run in which a report with the status PENDING leaves every unit pending and the payroll IN_PROGRESS |
| `Guarantees.FailuresAgreeAfter` | apps/backend/src/task/task-unit.service.ts:33-142 | A write keeps FAILED units and COMPLETED intents apart exactly unless it fails a unit whose intent is completed, or completes the intent of a failed unit |
| `Guarantees.FailuresAgreeExactly` | apps/backend/src/task/task-unit.service.ts:33-142 | At the end of a run no FAILED unit has a COMPLETED intent if and only if none of its writes was of those two kinds |
| `Guarantees.SuccessIsSettled` | apps/backend/src/orchestrator/task.controller.ts:70-127 | A SUCCESS unit's own planned payroll intent is COMPLETED under the unit's reference and transaction |
| `Guarantees.ExecutedMeansAllSettled` | apps/backend/src/task/task-unit.service.ts:33-142 | All batches of an EXECUTED payroll are completed, and two share a transaction exactly if they have the same reference |
| `Guarantees.ExecutedBatchesAreDistinct` | apps/backend/src/task/task.service.ts:989-1001 | Whenever the run's suffix fits its batches, the batches of an EXECUTED payroll were settled by pairwise distinct transactions |
| `Guarantees.ReportsStay` | apps/backend/src/task/task-unit.service.ts:33-142 | Reported units keep their result and hash, and an EXECUTED payroll stays EXECUTED |
| `Invariants.StepKeeps` | apps/backend/src/invoice/invoice.service.ts:277-294 | Each atomic write of any service, justified by what its request checked, keeps the invariant of the whole store |
| `Invariants.RunKeeps` | apps/backend/src/execution-intent/execution-intent.service.ts:428-461 | The store invariant holds after any sequence of writes of any requests |
| `Invariants.RunLater` | apps/backend/src/execution-intent/execution-intent.service.ts:428-461 | Everything in a store has only moved forward in any store reached from it |
| `Databases.Since` | apps/backend/src/execution-intent/execution-intent.service.ts:428-461 | What a request read earlier is still a lower bound for the rows now, whatever other requests wrote in between |
| `Databases.Database.Write` | apps/backend/src/execution-intent/execution-intent.service.ts:428-461 | One guarded update: whether a row was found is the WHERE clause on the current store, and the store moves by exactly that step |
| `BatchReferences.ReferencesDiffer` | apps/backend/src/task/task.service.ts:989-1001 | Two batches of one run get different reference ids while its suffix fits, which ReferencesDifferExactly shows to be exact |
| `BatchReferences.ReferencesDifferExactly` | apps/backend/src/task/task.service.ts:989-1001 | For every base and number of batches, the references are pairwise different if and only if the suffix fits: below 2^53 by the last number, from there on by the unit and parity of the double it reads as and by whether it is that double's own numeral |
| `BatchReferences.NumberedReferenceIs` | apps/backend/src/task/task.service.ts:989-1001 | A reference that ends in a hyphen and a number is counted on from that number, while the sum is at most 2^53 |
| `BatchReferences.NextThree` | apps/backend/src/task/task.service.ts:996-998 | What the integers after a double of at least 2^53 round to |
| `BatchReferences.LargeSuffixesCollide` | apps/backend/src/task/task.service.ts:996-998 | From suffix 2^53 on, two neighbouring ones of the batches one to four get the same reference |
| `BatchReferences.FourIntegersCollide` | apps/backend/src/task/task.service.ts:996-998 | Two neighbours among the four integers after a double of at least 2^53 round to the same double |
| `BatchReferences.CollidingReferences` | apps/backend/src/task/task.service.ts:996-998 | Suffix 9007199254740992: the first two batches get the same reference, because the sum is a double |
| `BatchReferences.ParseOfDecimal` | apps/backend/src/task/task.service.ts:996-998 | Writing a number in decimal and reading it back gives the number |
| `BatchReferences.BatchReferenceIsTrimmed` | apps/backend/src/task/task.service.ts:981-1001 | A batch reference made from a normalized base survives the trimming that acquiring an intent applies |
| `ExecutionIntents.ExecutionIntentService.Acquire` | apps/backend/src/execution-intent/execution-intent.service.ts:129-209 | Within its three attempts a success returns the one row of the logical payment with exactly the caller's trimmed and lowered columns; undisturbed the answer of the first attempt without a conflict is exact, whatever conflicts came before it, and three conflicts find an existing row or fail |
| `ExecutionIntents.ExecutionIntentService.AcquireOnce` | apps/backend/src/execution-intent/execution-intent.service.ts:129-209 | One attempt at the acquiring transaction: the row it finds or creates carries the key, and undisturbed a settlement is refused exactly if its invoice is missing, closed, expired or differs in merchant, token, amount or kind |
| `ExecutionIntents.ExecutionIntentService.Transition` | apps/backend/src/execution-intent/execution-intent.service.ts:428-461 | A compare-and-set on the status: a success or a won update says that this request's own write reached the target; undisturbed it loses exactly if the row is not in the expected state, and the error tells a closed row from a moved one |
| `ExecutionIntents.ExecutionIntentService.BeginVerification` | apps/backend/src/execution-intent/execution-intent.service.ts:239-256 | A hash-bearing intent is VERIFYING or further on success; undisturbed the result is exactly the chained transitions |
| `ExecutionIntents.ExecutionIntentService.AttachTask` | apps/backend/src/execution-intent/execution-intent.service.ts:258-270 | The first payroll bound to an intent stays; undisturbed it succeeds exactly if none or the same one was bound, and a missing intent and another payroll are told apart |
| `ExecutionIntents.ExecutionIntentService.AssertAccess` | apps/backend/src/execution-intent/execution-intent.service.ts:653-664 | Succeeds exactly for a caller that knows the whole bound request, and tells a missing intent from a wrong request |
| `ExecutionIntents.ExecutionIntentService.AcquireLease` | apps/backend/src/execution-intent/execution-intent.service.ts:272-314 | A lease is granted only while it is free, for a lifetime from one second to fifteen minutes, and then carries the owner and expiry asked for; undisturbed success, new row and errors are exact |
| `ExecutionIntents.ExecutionIntentService.PrepareWalletSignature` | apps/backend/src/execution-intent/execution-intent.service.ts:316-346 | A success is the first and only wallet prompt of the logical payment, counted over the whole log; undisturbed it succeeds exactly for an own intent in its first states without a hash and with a free lease |
| `ExecutionIntents.ExecutionIntentService.BindTransactionHash` | apps/backend/src/execution-intent/execution-intent.service.ts:513-554 | Success means the lower-case hash is on the row; the retry recursion ends under any interference, and a conflict is answered only if the row does not carry the hash; undisturbed success, new row and errors are exact |
| `ExecutionIntents.ExecutionIntentService.BindKnownTransactionHash` | apps/backend/src/execution-intent/execution-intent.service.ts:556-569 | A recovered hash is bound to the caller's own intent; undisturbed, exactly if that is not closed and binding is allowed without a lease, so never for a cancelled one, and the errors tell closed from conflicting |
| `ExecutionIntents.ExecutionIntentService.CancelUnsubmitted` | apps/backend/src/execution-intent/execution-intent.service.ts:571-609 | Success leaves the intent cancelled unless a hash came in after it, and a refusal means a hash or a state that cannot be cancelled; undisturbed it succeeds exactly for own unsubmitted open states |
| `ExecutionIntents.ExecutionIntentService.CompleteWithVerifiedReceipt` | apps/backend/src/execution-intent/execution-intent.service.ts:611-645 | Completes only on a receipt with the bound hash whose payer, token, amount and recipient or batch digest are the intent's columns; undisturbed exactly then for a VERIFYING or COMPLETED intent, and only the status changes |
| `ExecutionIntents.OneRowPerPayment` | apps/backend/src/execution-intent/execution-intent.service.ts:666-728 | In a valid database no second row has the same logical key as a given one |
| `SendIntents.ExecutionIntentController.BindHash` | apps/backend/src/execution-intent/execution-intent.controller.ts:50-63 | The handler binds only for a caller with access; undisturbed success and new store are exactly those of the guarded write, which takes a cancelled intent for any free hash |
| `SendIntents.ExecutionIntentController.Verify` | apps/backend/src/execution-intent/execution-intent.controller.ts:116-140 | Success means a direct transfer completed on a matching receipt; undisturbed, each refusal has its condition and leaves the verification begun, and a receipt that agrees column by column ends in COMPLETED |
| `SendIntents.HashBearingStarts` | apps/backend/src/execution-intent/execution-intent.service.ts:239-256 | From every reachable hash-bearing state but FAILED_FINAL, starting verification arrives at VERIFYING or COMPLETED |
| `Invoices.InvoiceService.ExpireOpenInvoices` | apps/backend/src/invoice/invoice.service.ts:421-430 | Undisturbed, exactly the open invoices in scope whose time has come expire, and no other row changes |
| `Invoices.InvoiceService.Cancel` | apps/backend/src/invoice/invoice.service.ts:165-190 | Success means the merchant's own invoice is cancelled, and not-found that the merchant has no such invoice; undisturbed, exactly an own open invoice that has not expired is cancelled, the two refusals are told apart, and no other invoice changes |
| `Invoices.InvoiceService.VerifyPublicPayment` | apps/backend/src/invoice/invoice.service.ts:210-388 | Success means PAID with the submitted hash, a retryable answer that the verifier asked for a retry, and a final refusal that it refused, under any interference; undisturbed the answer, the invoice, the payment and the intents are exact for every invoice, hash carrier and verdict, a receipt of another payer included |
| `Invoices.OpeningFires` | apps/backend/src/invoice/invoice.service.ts:266-294 | For an open invoice whose own intent carries the hash, no payment has taken that hash, so recording the payment succeeds |
| `Invoices.OpenedIsResumable` | apps/backend/src/invoice/invoice.service.ts:277-355 | The recorded first payment is a state that can be resumed, and resuming it is paying the invoice |
| `Invoices.ResumingTwice` | apps/backend/src/invoice/invoice.service.ts:245-356 | Carrying an interrupted verification through leaves a state that can be resumed again, and resuming it again changes nothing |
| `Invoices.PayerIsKnown` | apps/backend/src/invoice/invoice.service.ts:232-253 | The intent that carries a recorded payment's hash is the one it was opened for, agrees with the invoice, and is completed if the invoice is paid |
| `PayrollTasks.TaskUnitService.ReportUnit` | apps/backend/src/task/task-unit.service.ts:33-142 | A unit is reported once, with any status; the answer shows the unit, the payroll's counters and the first unit still pending; undisturbed the store moves by exactly that report, and only a missing unit is refused |
| `PayrollTasks.FirstPending` | apps/backend/src/task/task-unit.service.ts:162-178 | The returned unit is pending and no earlier one is; none means that all are reported |
| `PayrollTasks.TaskService.CreatePayrollTask` | apps/backend/src/task/task.service.ts:131-328 | A success is this run's payroll: each unit stands for its batch, with its reference and an intent of the batch's wallet, tokens, total and digest; a payroll that existed is caught up, under interference wherever a hash and a final verdict were there; undisturbed each pending unit ends as its intent and verdict say, with the hash, the intent ends accordingly and its status is noted, and a new payroll is all pending with its intents attached |
| `PayrollTasks.TaskService.AcquirePlan` | apps/backend/src/task/task.service.ts:177-200 | One intent for each batch, carrying the batch's digest, token, amount and reference |
| `PayrollTasks.TaskService.AttachAll` | apps/backend/src/task/task.service.ts:206-211 | Afterwards every planned intent is attached, undisturbed to this payroll, and nothing else has changed |
| `PayrollTasks.TaskService.ReconcileUnit` | apps/backend/src/task/task.service.ts:335-410 | Under interference a submitted batch is reported unless its receipt is not available yet; undisturbed the store moves exactly as intent and verdict say |
| `PayrollTasks.TaskService.ReconcilePayrollIntents` | apps/backend/src/task/task.service.ts:330-432 | Every unit whose batch had been submitted before is reported afterwards, unless its receipt is not available yet; undisturbed every pending unit with an intent of its own ends with its own outcome and carries the status its intent ended with |
| `PayrollTasks.OutcomeOfUnit` | apps/backend/src/task/task.service.ts:335-410 | Going through all units, each pending one with an intent of its own becomes a success on a completed intent or a supporting receipt, a failure on a closed intent or any other available verdict, and else stays pending |
| `PayrollTasks.ReferenceIsNormalized` | apps/backend/src/task/task.service.ts:981-987 | A trimmed reference is kept, white space around one does not matter, and without one the reference is made of the time, which can be read from it |
| `PayrollTasks.AttachedIntentIsPlanned` | apps/backend/src/orchestrator/task.controller.ts:79-88 | An intent attached to a payroll with a unit's reference is that unit's own planned intent |
| `PayrollTasks.PlansAgree` | apps/backend/src/task/task.service.ts:206-217 | A second plan of the same run names the same intents as the units of the existing payroll |
| `PayrollTasks.TaskController.ReportTaskUnit` | apps/backend/src/orchestrator/task.controller.ts:63-128 | A success report is accepted only with the unit's own intent completed under the reported hash; a retryable or final answer is the verifier's; undisturbed every answer to a success report follows from the unit's intent, the hash, the verdict and the receipt's columns, and any other status is recorded as it is, once |
| `PayrollTasks.TaskController.Substantiate` | apps/backend/src/orchestrator/task.controller.ts:70-123 | A success report passes exactly if it names the unit's own attached intent, its hash may be bound, and the receipt agrees with that intent column by column; each refusal has its own condition and leaves the payrolls alone |
| `PayrollTasks.FailureIsTakenOnTrust` | apps/backend/src/orchestrator/task.controller.ts:63-128 | A client's failure report is not checked: a run from the empty store that ends with a FAILED unit whose intent is COMPLETED, for every payroll request and matching receipt |
| `PayrollTasks.FailureIsOvertaken` | apps/backend/src/task/task.service.ts:349-357 | The same end without any client's report: the reconciliation fails the unit of a cancelled intent, as its contract says, and a hash bound later completes the intent |
| `PaidPayrolls.AskVerifier` | apps/backend/src/orchestrator/task.controller.ts:89-127 | The verifier asked for an intent's own columns confirms exactly what is settled and confirmed on the chain, and the intent's completion accepts its receipt |
| `PaidPayrolls.ServicesVerify` | apps/backend/src/execution-intent/execution-intent.service.ts:611-651 | In every log that the services write, payroll intents are completed only on receipts of the payroll verifier |
| `PaidPayrolls.OthersNeverCompletePayrolls` | apps/backend/src/execution-intent/execution-intent.controller.ts:116-141 | Requests that bring no payroll receipt, such as transfers and invoice payments, never complete a payroll intent |
| `PaidPayrolls.PayrollsArePaidOut` | apps/backend/src/orchestrator/task.controller.ts:89-127 | Every batch of a payroll that is EXECUTED in the services' database has been paid out entry by entry |
| `PaidPayrolls.CompletedIsPaidOut` | apps/backend/src/task/payroll-receipt-verifier.service.ts:451-537 | In runs whose payroll completions come from the receipt verifier, the transaction of a completed payroll intent pays every entry of its batch and together its amount |
| `PaidPayrolls.ExecutedIsPaidOut` | apps/backend/src/orchestrator/task.controller.ts:89-127 | In such runs every batch of an EXECUTED payroll has been paid out entry by entry by the transaction its unit was reported with |
| `BridgeLifecycle.RunKeeps` | apps/backend/src/bridge/bridge-lifecycle.service.ts:445-705 | Every version of a bridge row keeps the row invariant, although each write may be based on any earlier version |
| `BridgeLifecycle.CompletedHasEvidence` | apps/backend/src/bridge/bridge-lifecycle.service.ts:661-705 | A completed row holds attestation, message and destination hash; a stored message burns the payload's amount and token from its domain for its recipient and sender, with nonce and fee stored beside it and the fee within maxFee and below the amount |
| `BridgeLifecycle.CompletedIsProven` | apps/backend/src/bridge/bridge-lifecycle.service.ts:713-802 | With a reader configured throughout, a completed row is marked verified and exactly its own hash and message were proven together by a receipt |
| `BridgeLifecycle.CompletedIsMinted` | apps/backend/src/bridge/bridge-lifecycle.service.ts:661-802 | Such a row has behind it a successful transaction to the payload's transmitter on its chain, with a mint log that carries the body of the row's own message |
| `BridgeLifecycle.UnconfiguredNeverVerifies` | apps/backend/src/bridge/bridge-lifecycle.service.ts:713-718 | Without a reader no row ever claims a verified receipt |
| `BridgeLifecycle.ProofPinsPayment` | apps/backend/src/bridge/bridge-lifecycle.service.ts:777-793 | A proving receipt holds the mint event of the attested message, and every message with that event's body burns the payload's amount and token for its recipient and sender |
| `BridgeLifecycle.FreshRunsAgree` | apps/backend/src/bridge/bridge-lifecycle.service.ts:445-659 | If every write saw the newest version, columns repeat the result and approval and burn hashes are written once |
| `BridgeLifecycle.SourceHashSurvives` | apps/backend/src/bridge/bridge-lifecycle.service.ts:482-516 | A recorded burn hash survives a write exactly if the writer had seen it, writes the same one, or writes no result at all |
| `BridgeLifecycle.SourceHashCanBeReplaced` | apps/backend/src/bridge/bridge-lifecycle.service.ts:492-514 | Two requests that read the empty row record two burns, the second hiding the first |
| `BridgeLifecycle.ColumnsSurvive` | apps/backend/src/bridge/bridge-lifecycle.service.ts:445-705 | Columns and result agree after a write exactly if the columns it leaves alone equal what it carries over from the version it had read |
| `BridgeLifecycle.ColumnCanDisagree` | apps/backend/src/bridge/bridge-lifecycle.service.ts:642-703 | A stale verifier completes with one destination hash while the column keeps another |
| `BridgeLifecycle.FlagsStayProven` | apps/backend/src/bridge/bridge-lifecycle.service.ts:661-705 | While no verification without a reader follows one with a reader, the verified flag of a completed row stands for a proof of its own hash and message |
| `BridgeLifecycle.FlagCanOutliveItsProof` | apps/backend/src/bridge/bridge-lifecycle.service.ts:641-693 | For every configuration history in which a reader is removed after use, a run in which a completed row carries the verified flag beside a hash that nothing has proven |
| `BridgeLifecycle.FlagsAreProvenExactly` | apps/backend/src/bridge/bridge-lifecycle.service.ts:682-693 | Flags of completed rows are proven in every run with a given configuration history exactly if that history never removes a reader |
| `BridgeLifecycle.DestinationMintReceiptMatches` | apps/backend/src/bridge/bridge-lifecycle.service.ts:103-148 | The loop finds a log exactly if some log is the mint event of this attested burn |
| `BridgeLifecycle.ReceiptFields` | apps/backend/src/bridge/bridge-lifecycle.service.ts:713-802 | A receipt proves the mint exactly if chain, outcome and target are right and one log has the emitter, a nonzero caller, and the domain, nonce, sender word, finality and body of the message |
| `BridgeLifecycle.BridgeLifecycleService.ReportApproval` | apps/backend/src/bridge/bridge-lifecycle.service.ts:445-480 | A success carries the reported hash; undisturbed, a different recorded hash is refused, the same one changes nothing, a first one is recorded beside all that was there, and each refusal has its own condition |
| `BridgeLifecycle.BridgeLifecycleService.ReportSource` | apps/backend/src/bridge/bridge-lifecycle.service.ts:482-516 | The same for the burn hash |
| `BridgeLifecycle.BridgeLifecycleService.ReportDestination` | apps/backend/src/bridge/bridge-lifecycle.service.ts:532-583 | The same for the destination hash, refused also when the reported message hash is not that of the stored attestation |
| `BridgeLifecycle.BridgeLifecycleService.AuthorizeDestination` | apps/backend/src/bridge/bridge-lifecycle.service.ts:585-614 | Undisturbed, exactly the owner of a row with a ready attestation gets the lease, for 300,000 ms from now, and nothing else of the row changes |
| `BridgeLifecycle.BridgeLifecycleService.SubmitDestination` | apps/backend/src/bridge/bridge-lifecycle.service.ts:616-659 | Undisturbed, exactly the holder of a live lease records a hash, the lease is gone afterwards, and a foreign lease, an expired one and a malformed hash are told apart |
| `BridgeLifecycle.BridgeLifecycleService.ProveDestinationReceipt` | apps/backend/src/bridge/bridge-lifecycle.service.ts:713-802 | On a row that satisfies the invariant a stored attestation is never found mismatched; the answer depends on the receipt alone |
| `BridgeLifecycle.BridgeLifecycleService.VerifyDestination` | apps/backend/src/bridge/bridge-lifecycle.service.ts:661-705 | A success is a completed row with all evidence; when a reader answers, its receipt has the payload's chain and target and a mint log that agrees field by field with the stored message; undisturbed it succeeds exactly then, each refusal has its condition, and only the completion is added |
| `BridgeLifecycle.BridgeLifecycleService.RefreshAttestation` | apps/backend/src/bridge/bridge-lifecycle.service.ts:818-883 | Undisturbed, a complete attestation is stored exactly if each field of its message is the payload's and the fee is within bounds, with fee, amount, nonce and hash taken from it; without one the row waits with the reported status and reason |
| `CctpMessages.FieldsTileTheMessage` | apps/backend/src/bridge/bridge-message.ts:50-82 | Every byte from 0 to 375 belongs to exactly one field |
| `CctpMessages.FieldsStandAt` | apps/backend/src/bridge/bridge-message.ts:50-88 | At which digits of the message each field stands, that four-byte numbers stay below 2^32, and that shorter messages are refused |
| `CctpMessages.DecodeOfEncode` | apps/backend/src/bridge/bridge-message.ts:50-82 | Decoding a message laid out from well-formed fields returns those fields, for any trailing hook data |
| `CctpMessages.EncodeOfDecode` | apps/backend/src/bridge/bridge-message.ts:41-82 | Laying the decoded fields out again gives the first 376 bytes exactly if no address word carries anything in its top twelve bytes |
| `CctpMessages.AddressReadIsInvertible` | apps/backend/src/bridge/bridge-message.ts:41-48 | Reading a padded address gives the address; padding what was read from a word gives the word exactly if its top twelve bytes are zero |
| `CctpMessages.HeaderAndBody` | apps/backend/src/bridge/bridge-message.ts:84-88 | Header and body are the whole message, and the body alone determines every burn field |
| `CctpMessages.PartAtOffset` | apps/backend/src/bridge/bridge-message.ts:28-31 | Parts laid out one after another each stand at their own offset, whatever follows |
| `CctpMessages.NumberOfNumeral` | apps/backend/src/bridge/bridge-message.ts:33-39 | A fixed-width numeral is read back as its number |
| `CctpMessages.NumeralOfNumber` | apps/backend/src/bridge/bridge-message.ts:33-39 | The digits read as a number are that number's fixed-width numeral |
| `FastFees.FeeIsCeiling` | apps/backend/src/bridge/bridge-quote.service.ts:68-81 | The protocol fee is the least integer not below amount times rate, in millionths |
| `FastFees.QuoteSays` | apps/backend/src/bridge/bridge-quote.service.ts:137-152 | A quote carries the fee rounded up, a fifth more rounded up, and the rest; it is missing only without amount, without allowance, or when the suggestion exceeds the amount |
| `FastFees.AdmittedExactly` | apps/backend/src/bridge/bridge-lifecycle.service.ts:333-361 | An intent is admitted exactly within the burn cap and the allowance and with a maximum fee that pays the live rate; three refusals have their exact condition |
| `FastFees.FeeMonotone` | apps/backend/src/bridge/bridge-quote.service.ts:68-81 | A larger amount never has a smaller fee |
| `FastFees.FeeSubadditive` | apps/backend/src/bridge/bridge-quote.service.ts:68-81 | Splitting a transfer never lowers the fee and raises it by at most one unit |
| `FastFees.QuoteExists` | apps/backend/src/bridge/bridge-quote.service.ts:137-152 | With a nonzero rate of at most 100 basis points and enough allowance a quote exists exactly for amounts of at least two units |
| `FastFees.QuoteIsAdmitted` | apps/backend/src/bridge/bridge-lifecycle.service.ts:333-361 | The suggested maximum fee passes the separately written checks at creation even if the rate has risen by a fifth; only the burn cap can refuse it |
| `FastFees.QuotesAreAdmittedExactly` | apps/backend/src/bridge/bridge-lifecycle.service.ts:929-946 | Every quote within the burn cap is admitted at a live rate exactly if the rate has risen by at most a fifth |
| `FastFees.QuoteIsAdmittedAtItsRate` | apps/backend/src/bridge/bridge-lifecycle.service.ts:929-946 | At one rate and allowance a quote is admitted exactly if the amount is within the burn cap |
| `FastFees.SameEntryExactly` | apps/backend/src/bridge/bridge-lifecycle.service.ts:914-921 | Quote and creation read the same fee entry exactly if no Fast entry of another route precedes the route's own |
| `FastFees.QuotedEntryIsOwn` | apps/backend/src/bridge/bridge-quote.service.ts:41-58 | The quote reads the first Fast entry of its own route, or else what creation reads |
| `FastFees.LiveEntryIsFirst` | apps/backend/src/bridge/bridge-lifecycle.service.ts:914-921 | Creation reads the first Fast entry there is |
| `FastFees.QuoteCanBeRefused` | apps/backend/src/bridge/bridge-quote.service.ts:41-58 | A fee list for which a fresh quote is refused at creation, because another route's entry stands first |
| `FastFees.AllowanceIsExact` | apps/backend/src/bridge/bridge-quote.service.ts:89-96 | The parsed allowance is exactly the written decimal in millionths |
| `FastFees.AllowanceIsReadExactly` | apps/backend/src/bridge/bridge-quote.service.ts:89-96 | An allowance is read exactly if it is digits, or digits, a point and one to six digits, within white space |
| `ActivityPages.FollowingCursorsListsAll` | apps/backend/src/activity/activity.service.ts:53-96 | Following nextCursor from the start ends and yields exactly the rows of the owner and wallet with the wanted type and status, in descending (createdAt, id) order, each once, for any limit and filter |
| `ActivityPages.ServiceListsAll` | apps/backend/src/activity/activity.service.ts:53-96 | The same for the cursor texts the service itself writes and reads, with times as ISO texts |
| `ActivityPages.PageAt` | apps/backend/src/activity/activity.service.ts:63-95 | A page is the next 20 rows of the listing, or as many as asked for up to 50, and has a cursor exactly if more remain |
| `ActivityPages.RefusedExactly` | apps/backend/src/activity/activity.service.ts:53-66 | A page size below one is refused, then a cursor text that cannot be read, and nothing else; larger sizes are cut to 50 |
| `ActivityPages.OrderedIsDescending` | apps/backend/src/activity/activity.service.ts:78-79 | List order is a permutation of the table and strictly descending, ties in createdAt included |
| `ActivityPages.FollowingIsRest` | apps/backend/src/activity/activity.service.ts:69-76 | The cursor's WHERE clause selects exactly what follows the cursor's row |
| `CursorTexts.CursorSurvives` | apps/backend/src/activity/activity.service.ts:640-652 | Every cursor the list hands out, for any time a Date can hold, is read back as itself |
| `CursorTexts.CursorTextIs` | apps/backend/src/activity/activity.service.ts:86-93 | A cursor is the JSON object of the ISO time and the id, in this order |
| `IsoTimes.ReadOfWrite` | apps/backend/src/activity/activity.service.ts:86-92 | Every time a Date can hold is read back from its ISO text |
| `IsoTimes.TextOfTime` | apps/backend/src/activity/activity.service.ts:86-92 | The text of a time field by field, with four digits for the years 0 to 9999 and a sign and six digits outside them |
| `IsoTimes.DaysFollow` | apps/backend/src/activity/activity.service.ts:646-646 | Day zero is the first of January 1970, and days, months and years follow one another with their Gregorian lengths |
| `IsoTimes.DateIsProper` | apps/backend/src/activity/activity.service.ts:646-646 | Every day number has a month of the year and a day of that month |
| `IsoTimes.DaysOfDate` | apps/backend/src/activity/activity.service.ts:646-646 | Year, month and day of a day number, in the proleptic Gregorian calendar, determine that day number |
| `CursorTexts.UnframedOfFramed` | apps/backend/src/activity/activity.service.ts:86-93 | The JSON text gives back the two values it was made from |
| `Base64Url.DecodeOfEncode` | apps/backend/src/activity/activity.service.ts:88-93 | Decoding an encoding of section 5 of RFC 4648 gives the bytes |
| `Base64Url.EncodeByThrees` | apps/backend/src/activity/activity.service.ts:88-93 | Three bytes and their four digits are one number, one or two bytes left over give its leading digits without padding, and texts of such groups are joined |
| `Base64Url.EncodeOfDecode` | apps/backend/src/activity/activity.service.ts:642-642 | A decodable text is an encoding exactly if its unused bits are zero |
| `SyncLease.StartsAreSpaced` | apps/backend/src/activity/activity.service.ts:183-296 | The recorded starts of successful claims on one row lie at least 60,000 ms apart, over any interleaving |
| `SyncLease.LeasesLastTwoMinutes` | apps/backend/src/activity/activity.service.ts:183-296 | In every run a lease that is held runs out 120,000 ms after its start |
| `SyncLease.LeaseIsTakenWhenDue` | apps/backend/src/activity/activity.service.ts:183-296 | A lease changes hands only by a claim made when no other lease and no throttle is running |
| `SyncLease.LostLeaseIsFenced` | apps/backend/src/activity/activity.service.ts:183-296 | Finishing or failing without the lease changes nothing; with it, the lease is cleared and the throttle set |
| `SyncLease.LostLeaseStaysLost` | apps/backend/src/activity/activity.service.ts:183-296 | A lease that was taken over or given back is never held again by the same synchronization |
| `SyncLease.TakenOverHolderChangesNothing` | apps/backend/src/activity/activity.service.ts:183-296 | However the rest goes, a holder whose lease was taken over leaves the row untouched at its end |
| `SyncLease.ActivitySync.RunSync` | apps/backend/src/activity/activity.service.ts:183-296 | The answers synced and failed mean that this request claimed the row at its own start, no longer holds it, and that the projection did or did not succeed; undisturbed the status, the waiting time and every field of the new row are exact |
| `PayrollReceipts.VerifyMainnetPayrollEvents` | apps/backend/src/task/payroll-receipt-verifier.service.ts:607-710 | True exactly if every event of the contract is right, payment events and recipient indices are in bijection, and there is one summary and one batch event |
| `PayrollReceipts.EventsOfExact` | apps/backend/src/task/payroll-receipt-verifier.service.ts:607-710 | Exact events are one payment event of the contract for each recipient with its address, token and amount, one summary and one batch event with the parties and totals, and no other such event |
| `PayrollReceipts.ExactOfEvents` | apps/backend/src/task/payroll-receipt-verifier.service.ts:607-710 | Conversely, such events are exact |
| `PayrollReceipts.ExactEventsPay` | apps/backend/src/task/payroll-receipt-verifier.service.ts:607-710 | Such events pay each recipient its amount and add up to the total |
| `PayrollReceipts.PaidAddsUp` | apps/backend/src/task/payroll-receipt-verifier.service.ts:607-710 | Adding the contract's payment events up by recipient and by event gives the same |
| `PayrollReceipts.VerifyMainnetCall` | apps/backend/src/task/payroll-receipt-verifier.service.ts:336-449 | An accepted call pays exactly the batch's recipients their amounts in the batch's token |
| `PayrollReceipts.FinishMainnetReceipt` | apps/backend/src/task/payroll-receipt-verifier.service.ts:451-537 | Succeeds exactly if totals, digest and events agree with the call and the block is confirmed, and is pending exactly if totals and digest agree and confirmations are missing |
| `PayrollReceipts.Verify` | apps/backend/src/task/payroll-receipt-verifier.service.ts:97-197 | Succeeds exactly for a complete request whose own transaction settles the batch and has its confirmations; pending means nothing found or not yet confirmed, and a batch that settles is pending whenever it is not yet confirmed |
| `PayrollReceipts.SettlementOf` | apps/backend/src/task/payroll-receipt-verifier.service.ts:148-537 | A batch is settled exactly by a successful transaction of its own hash on chain 5042, from its wallet to the contract, whose call names its token, reference, recipients and amounts with the right native value, whose digest and total are the batch's, and whose events are exact |
| `PayrollReceipts.VerifiedReceiptPaysIntent` | apps/backend/src/task/payroll-receipt-verifier.service.ts:451-537 | A receipt verified for an intent's columns matches the intent, and the events pay every entry of its batch and together its amount |
| `FundingSolver.PayrollCrossTokenQuote` | apps/backend/src/user-swap/mainnet-uniswap-v4.service.ts:361-462 | At most four probes for any quoter, each as answered; the two guards on impossible values never fire; success covers the obligations and nothing before it did, and each failure has its condition; the second probe succeeds if output per gross unit does not fall and it fits |
| `FundingSolver.TrailInNumbers` | apps/backend/src/user-swap/mainnet-uniswap-v4.service.ts:393-462 | Fee, net, minimum output and hop price of every probe in numbers, the first gross input, and the ceiling that each next one is scaled up to |
| `FundingSolver.ProbeIsSound` | apps/backend/src/user-swap/mainnet-uniswap-v4.service.ts:399-424 | Fee and net split the gross input, the fee is the exact floor, and the net stays positive |
| `FundingSolver.NextGrows` | apps/backend/src/user-swap/mainnet-uniswap-v4.service.ts:449-457 | A retry asks for at least two units more and enough to scale the last output up to the obligations |
| `FundingSolver.FundedSwapCovers` | apps/backend/src/user-swap/mainnet-uniswap-v4.service.ts:425-443 | Every swap that meets the hop price of an accepted probe pays all obligations exactly if one unit less than the obligations misses that price, which holds for net inputs up to 10^36 |
| `PriceFloors.FloorsExist` | apps/backend/src/user-swap/mainnet-uniswap-v4-protocol.ts:280-319 | Exactly which slippages and quotes have both floors, and that each floor is the exact bound rounded down |
| `PriceFloors.HopPriceImpliesMinimumExactly` | apps/backend/src/user-swap/mainnet-uniswap-v4-protocol.ts:280-319 | Every output that meets a quote's hop price meets its minimum output exactly if the unit below the minimum misses the price |
| `PriceFloors.SmallInputsAreGuarded` | apps/backend/src/user-swap/mainnet-uniswap-v4-protocol.ts:280-319 | That condition holds for every input up to 10^36 |
| `PriceFloors.HopPriceImpliesMinimum` | apps/backend/src/user-swap/mainnet-uniswap-v4-protocol.ts:280-319 | For inputs up to 10^36 an output that meets the hop price meets the minimum output |
| `PriceFloors.CoarsePrice` | apps/backend/src/user-swap/mainnet-uniswap-v4-protocol.ts:309-311 | Beyond 10^36 the condition can fail: three units are promised, and an output of two meets the price |
| `PriceFloors.CeilingMeetsBoth` | apps/backend/src/user-swap/mainnet-uniswap-v4-protocol.ts:280-319 | The exact slippage bound rounded up meets both floors |
| `PriceFloors.FloorsFallWithSlippage` | apps/backend/src/user-swap/mainnet-uniswap-v4-protocol.ts:280-319 | Both floors fall, or stay, as slippage rises |
| `Allocation.AllocateVerifiedPayrollOutput` | apps/frontend/lib/payroll-output-allocation.ts:13-50 | Succeeds exactly if input and all shares are positive; the map holds the shares, and its values add up to the output exactly for distinct ids; the inconsistency error never occurs |
| `Allocation.SharesConserve` | apps/frontend/lib/payroll-output-allocation.ts:32-48 | The shares add up to the whole output |
| `Allocation.LastShareBounds` | apps/frontend/lib/payroll-output-allocation.ts:33-36 | The last share is at least its own floor and at most one unit for each other recipient above it |
| `Allocation.EntriesAre` | apps/frontend/lib/payroll-output-allocation.ts:43-43 | The map has an entry exactly for each recipient id, standing from its last recipient |
| `Allocation.EntryStands` | apps/frontend/lib/payroll-output-allocation.ts:43-43 | An id's entry is the share of the last recipient with that id |
| `Allocation.MapSumsToTotal` | apps/frontend/lib/payroll-output-allocation.ts:30-49 | The values of the returned map add up to the whole output exactly if no two recipients share an id |
| `PayrollFunding.SplitHomogeneousPayrollGroups` | apps/frontend/lib/mainnet-payroll-protocol.ts:59-93 | Each group holds the rows of one token, says whether that is the payer's, and carries the run's reference or one with the token's first ten characters; the groups are strictly ordered with the payer's token first, and every row's token has one |
| `PayrollFunding.RowsKeepTheirOrder` | apps/frontend/lib/mainnet-payroll-protocol.ts:64-77 | The rows of a group are all rows with its token, in their original order |
| `PayrollFunding.GroupingConserves` | apps/frontend/lib/mainnet-payroll-protocol.ts:59-93 | The groups are a partition of the rows, cost together what the rows cost, and only the first can be the same-token group |
| `PayrollFunding.EachRowInOneGroup` | apps/frontend/lib/mainnet-payroll-protocol.ts:67-73 | Each row stands in exactly one group |
| `PayrollFunding.ReferencesDiffer` | apps/frontend/lib/mainnet-payroll-protocol.ts:87-89 | Two groups have different reference ids exactly if their tokens differ in the first ten characters |
| `PayrollFunding.FundingOfConcat` | apps/frontend/lib/mainnet-payroll-protocol.ts:45-50 | Fee-inclusive funding is additive over any split |
| `PayrollFunding.FundingIgnoresOrder` | apps/frontend/lib/mainnet-payroll-protocol.ts:45-50 | Fee-inclusive funding does not depend on the order of the rows |
| `PayrollFunding.FundingNearTotal` | apps/frontend/lib/mainnet-payroll-protocol.ts:45-50 | Funding is at most the total plus one fee on it, and at most n-1 units below that |
| `PayrollFunding.PayrollSameTokenApprovalAmountWithFee` | apps/backend/src/task/task.service.ts:1043-1055 | The backend's loop computes what the frontend's reduce computes on the positive same-token rows |
| `RateLimiter.PublicInvoiceController.EnforceRateLimit` | apps/backend/src/invoice/public-invoice.controller.ts:56-80 | Accepts or refuses by the recorded attempts and leaves exactly the specified map: a refusal changes nothing, and beyond 5,000 keys only keys with an attempt in the last minute stay |
| `RateLimiter.PruningIsInvisible` | apps/backend/src/invoice/public-invoice.controller.ts:74-79 | With a clock that does not go back the pruned limiter makes the decisions of one that never prunes |
| `RateLimiter.DecisionIsSlidingWindow` | apps/backend/src/invoice/public-invoice.controller.ts:56-73 | A request is accepted exactly if fewer than twelve earlier requests of its key were accepted in the 60,000 ms before it |
| `RateLimiter.AtMostTwelvePerWindow` | apps/backend/src/invoice/public-invoice.controller.ts:56-80 | At most twelve requests of one key are accepted in any half-open window of 60,000 ms |
| `RateLimiter.RecordsStandForHistory` | apps/backend/src/invoice/public-invoice.controller.ts:58-73 | The recorded timestamps of a key are its accepted requests that still count |

## Left out

- RPC reads, Circle fetches, Prisma, queues and NestJS wiring; their answers are parameters.
- ABI coding, hash functions, address checksums and address validation; logs and calls are decoded values.
- The retired and non-mainnet branches: the receipt verifier outside Arc Mainnet, swap and liquidity tasks, Circle correlation, and `bindImmutableExecutionContext`, which has no caller.
- The network column of an intent, which is one constant; the capability and routing tables, which are one boolean of `Acquire`.
- An invoice's internal id is its public id, and a unit's id is its index in its payroll.
- The orchestrator's generic status updates, which have no caller for payrolls: nothing calls `handleTask`, so no payroll reaches the queues whose workers make them.
- Task logs, transactions, metadata, error texts and the views returned to clients.
- Report bodies whose status is neither a text nor absent.
- `Promise.all` over batches: the plan is acquired and attached in order, with other requests' writes before every round trip.
- Reference ids with line breaks, and the shortened digits that JavaScript prints for batch numbers above 2^54; the model prints them in full.
- The second test for a verified payment at apps/backend/src/invoice/invoice.service.ts:265, which the store invariant makes unreachable.
- createIntent of the bridge beyond its amount, fee and Fast checks: route tables and the idempotency lookup.
- Bridge statuses that no operation here writes, and the Solana variants of hashes.
- Fee rates are whole hundredths of a basis point; `Math.round` of a fractional rate is not modelled.
- The failing read of the payroll fee before the funding search, and the quote's block and expiry fields, which the search only passes on.
- `paymentIndex` is compared as an integer; above 2^53 the source compares a rounded double, which the recipient count rejects as well.
- Unknown type and status filters of the activity list, which it rejects; cursor texts of another JSON layout, or with characters outside the alphabet, which Node's decoder skips.
- ISO texts that `toISOString` does not write; ids are printable and need no JSON escaping.
- The projection part of a synchronization, its wallet ownership check and the creation of its state row.
- Ordering of token addresses and ids is by character, as for lower-case hexadecimal.
- PayrollTasks.TaskService.ReconcilePayrollIntents: under interference it does not say which status is noted on a unit, because other requests may move the intent between the read and the note.
- Floating-point code: liquidity wind-down, settlement validator, FX batch amounts, dashboard totals.

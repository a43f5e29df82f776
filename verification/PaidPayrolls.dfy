/**
 The payroll receipt verifier joined to the shared store: when the receipts that complete payroll
 intents come from the verifier, an executed payroll has been paid out on the chain entry by entry.
 */
module PaidPayrolls {
  import opened Wrappers
  import opened Text
  import opened Rows
  import opened Steps
  import opened Invariants
  import opened Guarantees
  import opened Databases
  import P = PayrollReceipts
  import T = PayrollTasks

  /** A transaction that the verifier accepted, with the batch it was verified for. */
  datatype Evidence = Evidence(batch: P.Batch, transaction: P.Transaction, receipt: P.ChainReceipt)

  /** The verifier's checks succeeded. */
  ghost predicate Succeeds(network: P.Network, v: Evidence) {
    P.IsBatchRequest(v.batch) && P.SettlesBatch(network, v.batch, v.transaction, v.receipt)
  }

  /** They did for the intent's own columns. */
  ghost predicate IsVerifiedFor(network: P.Network, request: Request, v: Evidence) {
    && Succeeds(network, v)
    && v.batch.sourceWallet == request.sourceWallet && v.batch.token == request.tokenOut
    && v.batch.totalAmountUnits == request.amountUnits
    && request.batchDigest == Some(v.batch.expectedBatchDigest)
  }

  /** What the verifier reports for it. */
  function Reported(v: Evidence): Receipt {
    Receipt(v.transaction.hash, v.batch.sourceWallet, v.batch.token, None, Some(v.batch.expectedBatchDigest),
            v.batch.totalAmountUnits)
  }

  /** The verifier reported this receipt, for some batch that it was asked for. */
  ghost predicate IsVerified(network: P.Network, receipt: Receipt) {
    exists v :: Succeeds(network, v) && receipt == Reported(v)
  }

  /** What a database takes for the verifier's receipts are the verifier's receipts. */
  ghost predicate Trusts(verified: Receipt -> bool, network: P.Network) {
    forall receipt :: verified(receipt) <==> IsVerified(network, receipt)
  }

  /** Every completion of a payroll intent in a run was made on a receipt of the verifier. */
  ghost predicate PayrollsAreVerified(network: P.Network, es: seq<Event>) {
    es == []
    || (var before, e := es[..|es| - 1], es[|es| - 1];
        && PayrollsAreVerified(network, before)
        && (e.Complete? && Fires(Run(before), e) && Run(before).intents[e.id].request.operation == Payroll ==>
              IsVerified(network, e.receipt)))
  }

  /** Whatever the services write, payroll intents are only completed on receipts of the verifier. */
  lemma {:induction false} ServicesVerify(network: P.Network, verified: Receipt -> bool, es: seq<Event>)
    requires Trusts(verified, network) && OnlyVerified(verified, es)
    ensures PayrollsAreVerified(network, es)
  {
    if es != [] {
      ServicesVerify(network, verified, es[..|es| - 1]);
    }
  }

  /**
   Requests that need no payroll receipt, such as transfers and invoice payments, never complete a
   payroll intent: without any such receipt none is ever completed.
   */
  lemma {:induction false} OthersNeverCompletePayrolls(verified: Receipt -> bool, es: seq<Event>, id: Id)
    requires OnlyVerified(verified, es) && forall receipt :: !verified(receipt)
    requires id in Run(es).intents && Run(es).intents[id].request.operation == Payroll
    ensures Run(es).intents[id].status != Completed
  {
    var before, e := es[..|es| - 1], es[|es| - 1];
    var s := Run(before);
    if Run(es).intents[id].status == Completed {
      CompletedBy(s, e, id);
      assert id in s.intents && s.intents[id].status == Completed;
      RunKeeps(before);
      StepKeeps(s, e);
      assert IntentKept(s, Run(es), id);
      OthersNeverCompletePayrolls(verified, before, id);
    }
  }

  /**
   The verifier, asked for an intent's own columns. It confirms exactly what it finds settled and
   confirmed on the chain, and the intent accepts the receipt that it reports.
   */
  method AskVerifier(network: P.Network, i: Intent, hash: TxHash, recipients: seq<P.Payee>,
                     found: Option<(P.Transaction, P.ChainReceipt)>, latestBlock: Option<nat>)
    returns (verdict: T.PayrollVerdict)
    requires i.request.batchDigest.Some?
    ensures verdict.PayrollVerified? <==>
              && P.IsBatchRequest(BatchOf(i, hash, recipients)) && found.Some?
              && P.SettlesBatch(network, BatchOf(i, hash, recipients), found.value.0, found.value.1)
              && P.IsConfirmed(network, found.value.1, latestBlock)
    ensures verdict.PayrollVerified? ==>
              && IsVerified(network, verdict.receipt)
              && Lower(verdict.receipt.transactionHash) == Lower(hash)
              && (i.request.recipient.None? ==> ReceiptMatches(i.request, verdict.receipt))
  {
    var batch := BatchOf(i, hash, recipients);
    var answer := P.Verify(network, batch, found, latestBlock);
    match answer {
      case Success(receipt) =>
        assert receipt == Reported(Evidence(batch, found.value.0, found.value.1));
        verdict := T.PayrollVerified(receipt);
      case Failure(error) =>
        verdict := if error == P.Pending then T.PayrollTryAgain else T.PayrollRefused;
    }
  }

  function BatchOf(i: Intent, hash: TxHash, recipients: seq<P.Payee>): P.Batch
    requires i.request.batchDigest.Some?
  {
    P.Batch(hash, i.request.sourceWallet, i.request.tokenOut, i.request.amountUnits, i.request.batchDigest.value,
            i.request.externalReference, recipients)
  }

  /** The transaction an intent carries pays every entry of the intent's batch, and in all its amount. */
  ghost predicate IsPaidOut(network: P.Network, i: Intent, v: Evidence) {
    && i.transactionHash == Some(Lower(v.transaction.hash))
    && i.request.batchDigest.Some? && i.request.batchDigest.value.OfBatch?
    && P.VerifyMainnetCall(network, v.transaction.call, v.transaction.value, v.batch).Some?
    && PaysEntries(P.ExpectedOf(network, v.batch,
                                P.VerifyMainnetCall(network, v.transaction.call, v.transaction.value, v.batch).value),
                   v.receipt.logs, i.request.batchDigest.value.entries, i.request.amountUnits)
  }

  ghost predicate PaysEntries(x: P.Expected, logs: seq<P.Log>, entries: seq<BatchEntry>, amountUnits: nat) {
    && |x.recipients| == |entries|
    && P.PaidInAll(x, logs) == amountUnits
    && forall k | 0 <= k < |entries| ::
         && P.PaidTo(x, logs, k) == entries[k].amountUnits
         && x.recipients[k] == entries[k].recipient && x.tokenOut == entries[k].token
  }

  lemma VerifiedIsPaidOut(network: P.Network, i: Intent, v: Evidence)
    requires i.request.recipient.None? && IsVerifiedFor(network, i.request, v)
    requires i.transactionHash == Some(Lower(v.transaction.hash))
    ensures IsPaidOut(network, i, v)
  {
    var call := P.VerifyMainnetCall(network, v.transaction.call, v.transaction.value, v.batch).value;
    var entries := P.Entries(call.recipients, call.tokenOut, call.amounts);
    P.VerifiedReceiptPaysIntent(network, i.request, v.batch, v.transaction, v.receipt, entries);
  }

  /** Only a completion completes. */
  lemma CompletedBy(s: Store, e: Event, id: Id)
    requires id in Step(s, e).intents && Step(s, e).intents[id].status == Completed
    ensures (id in s.intents && s.intents[id].status == Completed)
         || (e.Complete? && e.id == id && Fires(s, e))
    ensures e.Complete? && e.id == id && Fires(s, e) ==>
              && id in s.intents && Step(s, e).intents[id].request == s.intents[id].request
              && ReceiptMatches(s.intents[id].request, e.receipt)
              && Step(s, e).intents[id].transactionHash == Some(Lower(e.receipt.transactionHash))
  {}

  /** A completed payroll intent has been paid out. */
  lemma {:induction false} CompletedIsPaidOut(network: P.Network, es: seq<Event>, id: Id) returns (v: Evidence)
    requires PayrollsAreVerified(network, es)
    requires id in Run(es).intents && Run(es).intents[id].status == Completed
    requires Run(es).intents[id].request.operation == Payroll
    ensures IsPaidOut(network, Run(es).intents[id], v)
  {
    var before, e := es[..|es| - 1], es[|es| - 1];
    var s, t := Run(before), Run(es);
    CompletedBy(s, e, id);
    if id in s.intents && s.intents[id].status == Completed {
      RunKeeps(before);
      StepKeeps(s, e);
      assert IntentKept(s, t, id) && RowAt(s.intents, id);
      v := CompletedIsPaidOut(network, before, id);
    } else {
      v :| Succeeds(network, v) && e.receipt == Reported(v);
      VerifiedIsPaidOut(network, t.intents[id], v);
    }
  }

  /**
   Every batch of an executed payroll has been paid out by the transaction its unit was reported
   with: the events of the payroll contract pay each entry of the batch exactly its amount.
   */
  lemma ExecutedIsPaidOut(network: P.Network, es: seq<Event>, t: Id, k: nat) returns (v: Evidence)
    requires PayrollsAreVerified(network, es)
    requires t in Run(es).tasks && Run(es).tasks[t].status == Executed && k < |Run(es).tasks[t].units|
    ensures var unit := Run(es).tasks[t].units[k];
            && unit.intentId in Run(es).intents && unit.txHash.Some?
            && IsPaidOut(network, Run(es).intents[unit.intentId], v)
            && Lower(unit.txHash.value) == Lower(v.transaction.hash)
  {
    CountersTellUnits(es, t);
    SuccessIsSettled(es, t, k);
    v := CompletedIsPaidOut(network, es, Run(es).tasks[t].units[k].intentId);
  }

  /** In a database that the services share, every executed payroll has been paid out. */
  lemma PayrollsArePaidOut(network: P.Network, db: Database, t: Id, k: nat) returns (v: Evidence)
    requires db.Valid() && Trusts(db.verified, network)
    requires t in db.store.tasks && db.store.tasks[t].status == Executed && k < |db.store.tasks[t].units|
    ensures var unit := db.store.tasks[t].units[k];
            && unit.intentId in db.store.intents && unit.txHash.Some?
            && IsPaidOut(network, db.store.intents[unit.intentId], v)
            && Lower(unit.txHash.value) == Lower(v.transaction.hash)
  {
    ServicesVerify(network, db.verified, db.log);
    v := ExecutedIsPaidOut(network, db.log, t, k);
  }
}

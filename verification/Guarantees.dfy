/**
 The main results about the shared store, over every run: any number of requests, their
 writes interleaved in any order.
 */
module Guarantees {
  import opened Wrappers
  import opened Text
  import opened Rows
  import opened BatchReferences
  import opened Steps
  import opened Invariants

  // ---- Execution intents --------------------------------------------------------------

  /** In every reachable store a status says exactly what submission evidence can exist. */
  lemma StatusTellsEvidence(es: seq<Event>, id: Id)
    requires id in Run(es).intents
    ensures var i := Run(es).intents[id];
            && (i.transactionHash.Some? ==>
                  i.status == Submitted || i.status == Verifying || i.status == Completed || i.status == FailedFinal)
            && (i.status == Completed || i.status == FailedFinal ==> i.transactionHash.Some?)
            && (i.status == Cancelled ==> i.transactionHash.None?)
            && (i.status == FailedFinal ==> i.request.operation == Payroll)
            && i.status != AuthorizationPending && i.status != FailedRetryable && i.status != Expired
  {
    RunKeeps(es);
    assert RowAt(Run(es).intents, id);
  }

  /** A transaction hash is written once, its row then only moves forward, and final states stay. */
  lemma HashIsWrittenOnce(es: seq<Event>, more: seq<Event>, id: Id)
    requires id in Run(es).intents
    ensures id in Run(es + more).intents
    ensures var a, b := Run(es).intents[id], Run(es + more).intents[id];
            && b.request == a.request
            && (a.transactionHash.Some? ==> b.transactionHash == a.transactionHash
                                            && Progress(a.status) <= Progress(b.status))
            && (a.status == Completed || a.status == FailedFinal ==> b.status == a.status)
            && (a.taskId.Some? ==> b.taskId == a.taskId)
  {
    RunLater(es, more);
    assert IntentKept(Run(es), Run(es + more), id);
  }

  /** No two intents ever carry the same transaction, and no two stand for the same payment. */
  lemma IntentsAreDistinct(es: seq<Event>, a: Id, b: Id)
    requires a in Run(es).intents && b in Run(es).intents && a != b
    ensures Run(es).intents[a].transactionHash.Some? ==>
              Run(es).intents[a].transactionHash != Run(es).intents[b].transactionHash
    ensures Run(es).intents[a].request.LogicalKey() != Run(es).intents[b].request.LogicalKey()
    ensures var p, q := Run(es).intents[a].request, Run(es).intents[b].request;
            p.operation == q.operation && p.externalReference == q.externalReference ==>
              && p.operation != InvoiceSettlement && p.operation != PaymentLinkSettlement
              && (p.ownerId != q.ownerId || p.sourceWallet != q.sourceWallet)
  {
    RunKeeps(es);
    assert !HashClash(Run(es).intents, a, b) && !KeyClash(Run(es).intents, a, b);
  }

  /** A cancelled intent stays cancelled exactly until a late transaction hash is bound to it. */
  lemma CancelledUntilHash(es: seq<Event>, more: seq<Event>, id: Id)
    requires id in Run(es).intents && Run(es).intents[id].status == Cancelled
    ensures id in Run(es + more).intents
    ensures Run(es + more).intents[id].status == Cancelled <==> Run(es + more).intents[id].transactionHash.None?
  {
    RunLater(es, more);
    assert IntentKept(Run(es), Run(es + more), id);
    RunKeeps(es + more);
    assert RowAt(Run(es + more).intents, id);
  }

  /** One write ends a cancellation exactly if it binds a hash to the intent. */
  lemma CancelledUnlessBound(s: Store, e: Event, id: Id)
    requires id in s.intents && s.intents[id].status == Cancelled
    ensures id in Step(s, e).intents
    ensures Step(s, e).intents[id].status == Cancelled <==> !(e.BindHash? && e.id == id && Fires(s, e))
  {}

  /** Cancellation is not final: a hash bound late revives the intent. */
  lemma CancellationCanBeUndone(id: Id, request: Request, hash: TxHash)
    requires !request.operation.IsSettlement() && IsStoredHash(hash)
    ensures var es := [InsertIntent(id, request, 0), CancelIntent(id)];
            && id in Run(es).intents && Run(es).intents[id].status == Cancelled
            && id in Run(es + [BindHash(id, hash)]).intents
            && Run(es + [BindHash(id, hash)]).intents[id].status == Submitted
  {
    var e0, e1, e2 := InsertIntent(id, request, 0), CancelIntent(id), BindHash(id, hash);
    assert [e0][..0] == [] && [e0, e1][..1] == [e0];
    assert Run([]) == EmptyStore();
    assert Run([e0]) == Step(EmptyStore(), e0);
    assert Run([e0, e1]) == Step(Run([e0]), e1);
    RunAppend([e0, e1], e2);
  }

  /** A wallet is only opened for a payment none of whose intents has left its first state. */
  lemma OpeningIsFirst(s: Store, e: Event, id: Id)
    requires Inv(s) && e.OpenWallet? && Fires(s, e)
    requires id in s.intents && s.intents[id].status != Created
    ensures s.intents[id].request.LogicalKey() != s.intents[e.id].request.LogicalKey()
  {
    assert RowAt(s.intents, e.id);
    assert !KeyClash(s.intents, id, e.id);
  }

  /** Over any run the wallet is opened at most once for one logical payment. */
  lemma {:induction false} WalletOpensAtMostOnce(es: seq<Event>, key: LogicalKey)
    ensures Prompts(es, key) <= 1
    ensures Prompts(es, key) == 1 ==>
              exists id :: id in Run(es).intents && Run(es).intents[id].request.LogicalKey() == key
                           && Run(es).intents[id].status != Created
  {
    if es != [] {
      var before, e := es[..|es| - 1], es[|es| - 1];
      var s := Run(before);
      WalletOpensAtMostOnce(before, key);
      RunKeeps(before);
      StepKeeps(s, e);
      if Prompts(before, key) == 1 {
        var id :| id in s.intents && s.intents[id].request.LogicalKey() == key && s.intents[id].status != Created;
        assert IntentKept(s, Run(es), id);
        if e.OpenWallet? && Fires(s, e) {
          OpeningIsFirst(s, e, id);
        }
      } else if e.OpenWallet? && Fires(s, e) && s.intents[e.id].request.LogicalKey() == key {
        assert Run(es).intents[e.id].status == AwaitingWalletSignature;
        assert e.id in Run(es).intents && Run(es).intents[e.id].request.LogicalKey() == key;
      }
    }
  }

  // ---- Invoices -----------------------------------------------------------------------

  /** The invoice ledger in every reachable store. */
  lemma InvoiceLedgerIsSound(es: seq<Event>, p: Id)
    requires p in Run(es).invoices
    ensures var s := Run(es);
            && (p in s.payments <==> s.invoices[p].status == InvoiceVerifying || s.invoices[p].status == InvoicePaid)
            && (p in s.payments ==>
                  (s.payments[p].status == PaymentVerified <==> s.invoices[p].status == InvoicePaid))
  {
    RunKeeps(es);
    assert PaymentAt(Run(es), p) && InvoiceAt(Run(es), p);
  }

  /** A paid invoice was paid by a completed intent made for it, for what it asked. */
  lemma PaidMeansSettled(es: seq<Event>, p: Id) returns (id: Id)
    requires p in Run(es).invoices && Run(es).invoices[p].status == InvoicePaid
    ensures var s := Run(es);
            && p in s.payments
            && id in s.intents
            && s.intents[id].status == Completed
            && s.intents[id].transactionHash == Some(s.payments[p].transactionHash)
            && s.intents[id].request.externalReference == p
            && s.invoices[p].AgreesWith(s.intents[id].request)
            && s.intents[id].request.recipient == Some(s.invoices[p].merchant)
            && s.intents[id].request.tokenOut == s.invoices[p].token
            && s.intents[id].request.amountUnits == s.invoices[p].amountUnits
            && s.intents[id].request.operation == if s.invoices[p].kind == PaymentLink then PaymentLinkSettlement
                                                  else InvoiceSettlement
  {
    var s := Run(es);
    RunKeeps(es);
    assert PaymentAt(s, p) && InvoiceAt(s, p);
    id :| id in s.intents && Pays(s, id, p, s.payments[p].transactionHash) && s.intents[id].status == Completed;
    assert SettlementAt(s, id);
  }

  /** One transaction never pays two invoices. */
  lemma NoTransactionPaysTwice(es: seq<Event>, p: Id, q: Id)
    requires p in Run(es).payments && q in Run(es).payments && p != q
    ensures Run(es).payments[p].transactionHash != Run(es).payments[q].transactionHash
  {
    RunKeeps(es);
    assert !PaymentClash(Run(es), p, q);
  }

  /** Paid, expired and cancelled invoices keep their state; the terms of an invoice never change. */
  lemma InvoiceEndsStay(es: seq<Event>, more: seq<Event>, p: Id)
    requires p in Run(es).invoices
    ensures p in Run(es + more).invoices
    ensures var a, b := Run(es).invoices[p], Run(es + more).invoices[p];
            && b == a.(status := b.status)
            && (a.status == InvoicePaid || a.status == InvoiceExpired || a.status == InvoiceCancelled ==> b == a)
            && (a.status == InvoiceVerifying ==> b.status == InvoiceVerifying || b.status == InvoicePaid)
  {
    RunLater(es, more);
    assert InvoiceKept(Run(es), Run(es + more), p);
  }

  // ---- Payroll tasks ------------------------------------------------------------------

  /** The statuses that the reports of a payroll's units brought, in order; a repeated report brings nothing. */
  ghost function Reports(es: seq<Event>, t: Id): seq<UnitStatus> {
    if es == [] then []
    else
      var before, e := es[..|es| - 1], es[|es| - 1];
      if e.ReportUnit? && e.task == t && Fires(Run(before), e) then Reports(before, t) + [e.result]
      else Reports(before, t)
  }

  ghost predicate AllPending(units: seq<Unit>) {
    forall k | 0 <= k < |units| :: units[k].status == UnitPending
  }

  /** No report yet, or one with another status than PENDING among them. */
  ghost predicate HasDecided(reports: seq<UnitStatus>) {
    reports == [] || exists i | 0 <= i < |reports| :: reports[i] != UnitPending
  }

  /** The counters of a task are the numbers of its reported units, and its status follows them and the reports. */
  lemma CountersTellUnits(es: seq<Event>, t: Id)
    requires t in Run(es).tasks
    ensures var task := Run(es).tasks[t];
            && task.totalUnits == |task.units|
            && task.completedUnits == CountUnits(task.units, UnitSuccess)
            && task.failedUnits == CountUnits(task.units, UnitFailed)
            && (task.status == Executed <==> forall k | 0 <= k < |task.units| :: task.units[k].status == UnitSuccess)
            && (task.status == Review <==> exists k | 0 <= k < |task.units| :: task.units[k].status == UnitFailed)
            && (task.status == Assigned <==> Reports(es, t) == [])
  {
    RunKeeps(es);
    assert TaskAt(Run(es), t);
    ReportsTellStatus(es, t);
    var units := Run(es).tasks[t].units;
    CountIsFull(units, UnitSuccess);
    CountIsFull(units, UnitPending);
    if exists k | 0 <= k < |units| :: units[k].status == UnitFailed {
      var k :| 0 <= k < |units| && units[k].status == UnitFailed;
      CountSees(units, k, UnitFailed);
    } else {
      CountIsEmpty(units, UnitFailed);
    }
  }

  lemma {:induction false} ReportsNeedTask(es: seq<Event>, t: Id)
    ensures Reports(es, t) != [] ==> t in Run(es).tasks
  {
    if es != [] {
      var before := es[..|es| - 1];
      ReportsNeedTask(before, t);
      RunKeeps(before);
      StepKeeps(Run(before), es[|es| - 1]);
      assert TaskKept(Run(before), Run(es), t);
    }
  }

  /** What one write does to the status of a payroll and to the pending units. */
  lemma StatusAfter(s: Store, e: Event, t: Id)
    requires t in s.tasks
    ensures t in Step(s, e).tasks
    ensures var a, b := s.tasks[t], Step(s, e).tasks[t];
            var reported := e.ReportUnit? && e.task == t && Fires(s, e);
            && (b.status == Assigned <==> a.status == Assigned && !reported)
            && (AllPending(b.units) <==> AllPending(a.units) && (reported ==> e.result == UnitPending))
  {
    var a, b := s.tasks[t], Step(s, e).tasks[t];
    if Fires(s, e) && (e.ReportUnit? || e.NoteUnit?) && e.task == t {
      assert forall k | 0 <= k < |a.units| && k != e.index :: b.units[k] == a.units[k];
      assert AllPending(b.units) ==> b.units[e.index].status == UnitPending;
    }
  }

  lemma NewTask(s: Store, e: Event, t: Id)
    requires t !in s.tasks && t in Step(s, e).tasks
    ensures !e.ReportUnit?
    ensures Step(s, e).tasks[t].status == Assigned && AllPending(Step(s, e).tasks[t].units)
  {}

  lemma {:induction false} ReportsTellStatus(es: seq<Event>, t: Id)
    requires t in Run(es).tasks
    ensures Run(es).tasks[t].status == Assigned <==> Reports(es, t) == []
    ensures AllPending(Run(es).tasks[t].units) <==> forall i | 0 <= i < |Reports(es, t)| :: Reports(es, t)[i] == UnitPending
  {
    hide Step, Fires, AllPending;
    var before, e := es[..|es| - 1], es[|es| - 1];
    var s := Run(before);
    if t in s.tasks {
      ReportsTellStatus(before, t);
      StatusAfter(s, e, t);
      var reports := Reports(before, t);
      assert forall i | 0 <= i < |reports| :: Reports(es, t)[i] == reports[i];
      if |Reports(es, t)| > |reports| {
        assert Reports(es, t)[|reports|] == e.result;
      }
    } else {
      NewTask(s, e, t);
      ReportsNeedTask(before, t);
    }
  }

  /**
   ASSIGNED says that all units are pending, and all pending units say ASSIGNED, exactly unless the
   payroll has been reported with the status PENDING and no other.
   */
  lemma AssignedTellsPendingExactly(es: seq<Event>, t: Id)
    requires t in Run(es).tasks
    ensures var task := Run(es).tasks[t];
            && (task.status == Assigned ==> AllPending(task.units))
            && ((task.status == Assigned <==> AllPending(task.units)) <==> HasDecided(Reports(es, t)))
  {
    ReportsTellStatus(es, t);
  }

  // ---- Failed units and completed intents ------------------------------------------------

  /** The unit has failed and stands for this intent. */
  ghost predicate FailedFor(s: Store, t: Id, k: int, id: Id) {
    && t in s.tasks && 0 <= k < |s.tasks[t].units|
    && s.tasks[t].units[k].status == UnitFailed && s.tasks[t].units[k].intentId == id
  }

  ghost predicate IsCompleted(s: Store, id: Id) {
    id in s.intents && s.intents[id].status == Completed
  }

  /** No failed unit stands for a completed intent. */
  ghost predicate FailuresAgree(s: Store) {
    forall t, k, id | FailedFor(s, t, k, id) :: !IsCompleted(s, id)
  }

  /** The write fails a unit whose intent is completed, or completes the intent of a failed unit. */
  ghost predicate Contradicts(s: Store, e: Event) {
    && Fires(s, e)
    && (|| (e.ReportUnit? && e.result == UnitFailed && IsCompleted(s, s.tasks[e.task].units[e.index].intentId))
        || (e.Complete? && exists t, k :: FailedFor(s, t, k, e.id)))
  }

  ghost predicate HasContradiction(es: seq<Event>) {
    es != []
    && (HasContradiction(es[..|es| - 1]) || Contradicts(Run(es[..|es| - 1]), es[|es| - 1]))
  }

  lemma FailedUnitStays(s: Store, e: Event, t: Id, k: int, id: Id)
    requires Inv(s) && FailedFor(s, t, k, id)
    ensures FailedFor(Step(s, e), t, k, id) && (IsCompleted(s, id) ==> IsCompleted(Step(s, e), id))
  {
    StepKeeps(s, e);
    assert TaskKept(s, Step(s, e), t) && UnitKept(s.tasks[t], Step(s, e).tasks[t], k);
    assert IntentKept(s, Step(s, e), id);
  }

  /** A unit fails by a report, and an intent is completed by a completion. */
  lemma FailedOrCompletedBy(s: Store, e: Event, t: Id, k: int, id: Id)
    ensures FailedFor(Step(s, e), t, k, id) ==>
              || FailedFor(s, t, k, id)
              || (e.ReportUnit? && e.result == UnitFailed && Fires(s, e) && e.task == t && e.index == k
                  && s.tasks[t].units[k].intentId == id)
    ensures IsCompleted(Step(s, e), id) ==> IsCompleted(s, id) || (e.Complete? && Fires(s, e) && e.id == id)
  {}

  lemma ContradictionShows(s: Store, e: Event)
    requires Inv(s) && Contradicts(s, e)
    ensures !FailuresAgree(Step(s, e))
  {
    if e.ReportUnit? {
      var id := s.tasks[e.task].units[e.index].intentId;
      assert FailedFor(Step(s, e), e.task, e.index, id) && IsCompleted(Step(s, e), id);
    } else {
      var t, k :| FailedFor(s, t, k, e.id);
      FailedUnitStays(s, e, t, k, e.id);
      assert FailedFor(Step(s, e), t, k, e.id) && IsCompleted(Step(s, e), e.id);
    }
  }

  /** A write keeps failed units and completed intents apart exactly unless it is one of the two contradicting kinds. */
  lemma FailuresAgreeAfter(s: Store, e: Event)
    requires Inv(s) && FailuresAgree(s)
    ensures FailuresAgree(Step(s, e)) <==> !Contradicts(s, e)
  {
    if Contradicts(s, e) {
      ContradictionShows(s, e);
    } else {
      forall t, k, id | FailedFor(Step(s, e), t, k, id)
        ensures !IsCompleted(Step(s, e), id)
      {
        FailedOrCompletedBy(s, e, t, k, id);
      }
    }
  }

  /** In a run, a FAILED unit has no COMPLETED intent exactly unless one of its writes contradicted. */
  lemma {:induction false} FailuresAgreeExactly(es: seq<Event>)
    ensures FailuresAgree(Run(es)) <==> !HasContradiction(es)
  {
    if es != [] {
      var before, e := es[..|es| - 1], es[|es| - 1];
      FailuresAgreeExactly(before);
      RunKeeps(before);
      if FailuresAgree(Run(before)) {
        FailuresAgreeAfter(Run(before), e);
      } else {
        var t, k, id :| FailedFor(Run(before), t, k, id) && IsCompleted(Run(before), id);
        FailedUnitStays(Run(before), e, t, k, id);
      }
    }
  }

  /** A unit reported as a success has its own planned intent completed with the same transaction. */
  lemma SuccessIsSettled(es: seq<Event>, t: Id, k: nat)
    requires t in Run(es).tasks && k < |Run(es).tasks[t].units|
    requires Run(es).tasks[t].units[k].status == UnitSuccess
    ensures var s := Run(es);
            var u := s.tasks[t].units[k];
            && u.intentId in s.intents
            && s.intents[u.intentId].status == Completed
            && s.intents[u.intentId].request.operation == Payroll
            && s.intents[u.intentId].request.externalReference == u.reference
            && u.txHash.Some?
            && s.intents[u.intentId].transactionHash == Some(Lower(u.txHash.value))
  {
    RunKeeps(es);
    assert TaskAt(Run(es), t) && UnitAt(Run(es), t, k);
  }

  /**
   An executed task has every batch completed on the chain, and two batches share a
   transaction only if they were given the same reference.
   */
  lemma ExecutedMeansAllSettled(es: seq<Event>, t: Id, j: nat, k: nat)
    requires t in Run(es).tasks && Run(es).tasks[t].status == Executed
    requires j < |Run(es).tasks[t].units| && k < |Run(es).tasks[t].units|
    ensures var s := Run(es);
            var a, b := s.tasks[t].units[j], s.tasks[t].units[k];
            && UnitSettled(s, a, a.txHash) && UnitSettled(s, b, b.txHash)
            && (Lower(a.txHash.value) == Lower(b.txHash.value) <==> a.reference == b.reference)
  {
    var s := Run(es);
    var a, b := s.tasks[t].units[j], s.tasks[t].units[k];
    CountersTellUnits(es, t);
    SuccessIsSettled(es, t, j);
    SuccessIsSettled(es, t, k);
    RunKeeps(es);
    assert TaskAt(s, t) && UnitAt(s, t, j) && UnitAt(s, t, k);
    if a.intentId != b.intentId {
      IntentsAreDistinct(es, a.intentId, b.intentId);
    }
  }

  /**
   With a batch number that stays below 2^53, the batches of an executed task were settled
   by pairwise distinct transactions.
   */
  lemma ExecutedBatchesAreDistinct(es: seq<Event>, t: Id, j: nat, k: nat)
    requires t in Run(es).tasks && Run(es).tasks[t].status == Executed
    requires j < k < |Run(es).tasks[t].units|
    requires SuffixFits(Run(es).tasks[t].units[0].reference, |Run(es).tasks[t].units|)
    ensures var a, b := Run(es).tasks[t].units[j], Run(es).tasks[t].units[k];
            && UnitSettled(Run(es), a, a.txHash) && UnitSettled(Run(es), b, b.txHash)
            && Lower(a.txHash.value) != Lower(b.txHash.value)
  {
    var task := Run(es).tasks[t];
    ExecutedMeansAllSettled(es, t, j, k);
    RunKeeps(es);
    assert TaskAt(Run(es), t) && ReferenceAt(task, j) && ReferenceAt(task, k);
    FitsEarlier(task.units[0].reference, k + 1, |task.units|);
    ReferencesDiffer(task.units[0].reference, j, k);
  }

  lemma FitsEarlier(base: string, few: nat, many: nat)
    requires few <= many && SuffixFits(base, many)
    ensures SuffixFits(base, few)
  {}

  /** Reported units and an executed task keep their state. */
  lemma ReportsStay(es: seq<Event>, more: seq<Event>, t: Id, k: nat)
    requires t in Run(es).tasks && k < |Run(es).tasks[t].units|
    ensures t in Run(es + more).tasks && |Run(es + more).tasks[t].units| == |Run(es).tasks[t].units|
    ensures var a, b := Run(es).tasks[t].units[k], Run(es + more).tasks[t].units[k];
            && b.reference == a.reference && b.intentId == a.intentId
            && (a.status != UnitPending ==> b.status == a.status && b.txHash == a.txHash)
    ensures Run(es).tasks[t].status == Executed ==> Run(es + more).tasks[t].status == Executed
  {
    RunLater(es, more);
    assert TaskKept(Run(es), Run(es + more), t);
    var a, b := Run(es).tasks[t], Run(es + more).tasks[t];
    assert UnitKept(a, b, k);
    CountersTellUnits(es, t);
    CountersTellUnits(es + more, t);
    if a.status == Executed {
      forall m | 0 <= m < |b.units| ensures b.units[m].status == UnitSuccess {
        assert UnitKept(a, b, m);
      }
    }
  }
}

/**
 What every run keeps. `Inv` is the inductive invariant of the transition system in
 `Steps`; `Later` relates any two moments of one run.
 */
module Invariants {
  import opened Wrappers
  import opened Text
  import opened Rows
  import opened BatchReferences
  import opened Steps

  // ---- The invariant ----------------------------------------------------------------

  ghost predicate RowOk(i: Intent) {
    && (i.transactionHash.Some? ==>
          i.status == Submitted || i.status == Verifying || i.status == Completed || i.status == FailedFinal)
    && (i.status == Completed || i.status == FailedFinal ==> i.transactionHash.Some?)
    && i.status != AuthorizationPending && i.status != FailedRetryable && i.status != Expired
    && (i.status == FailedFinal ==> i.request.operation == Payroll)
    && (i.transactionHash.Some? ==> IsStoredHash(i.transactionHash.value))
  }

  ghost predicate RowAt(m: map<Id, Intent>, id: Id) {
    id in m ==> RowOk(m[id])
  }

  ghost predicate RowsOk(m: map<Id, Intent>) {
    forall id :: RowAt(m, id)
  }

  ghost predicate KeyClash(m: map<Id, Intent>, a: Id, b: Id) {
    a in m && b in m && a != b && m[a].request.LogicalKey() == m[b].request.LogicalKey()
  }

  ghost predicate KeysUnique(m: map<Id, Intent>) {
    forall a, b :: !KeyClash(m, a, b)
  }

  ghost predicate HashClash(m: map<Id, Intent>, a: Id, b: Id) {
    a in m && b in m && a != b && m[a].transactionHash.Some? && m[a].transactionHash == m[b].transactionHash
  }

  ghost predicate HashesUnique(m: map<Id, Intent>) {
    forall a, b :: !HashClash(m, a, b)
  }

  ghost predicate SettlementOk(s: Store, request: Request) {
    request.operation.IsSettlement() ==>
      request.externalReference in s.invoices && s.invoices[request.externalReference].AgreesWith(request)
  }

  ghost predicate SettlementAt(s: Store, id: Id) {
    id in s.intents ==> SettlementOk(s, s.intents[id].request)
  }

  ghost predicate SettlementsOk(s: Store) {
    forall id :: SettlementAt(s, id)
  }

  ghost predicate AttachmentOk(s: Store, i: Intent) {
    i.taskId.Some? ==>
      i.taskId.value in s.tasks && i.taskId.value in s.intents
      && SamePayroll(i.request, s.intents[i.taskId.value].request)
  }

  ghost predicate AttachmentAt(s: Store, id: Id) {
    id in s.intents ==> AttachmentOk(s, s.intents[id])
  }

  ghost predicate AttachmentsOk(s: Store) {
    forall id :: AttachmentAt(s, id)
  }

  ghost predicate PaymentOk(s: Store, p: Id)
    requires p in s.payments
  {
    && p in s.invoices
    && (s.invoices[p].status == InvoiceVerifying || s.invoices[p].status == InvoicePaid)
    && (s.payments[p].status == PaymentVerified <==> s.invoices[p].status == InvoicePaid)
    && exists id :: id in s.intents && Pays(s, id, p, s.payments[p].transactionHash)
                    && (s.invoices[p].status == InvoicePaid ==> s.intents[id].status == Completed)
  }

  ghost predicate PaymentAt(s: Store, p: Id) {
    p in s.payments ==> PaymentOk(s, p)
  }

  ghost predicate InvoiceAt(s: Store, p: Id) {
    (p in s.invoices && (s.invoices[p].status == InvoiceVerifying || s.invoices[p].status == InvoicePaid)) ==>
      p in s.payments
  }

  ghost predicate PaymentClash(s: Store, p: Id, q: Id) {
    p in s.payments && q in s.payments && p != q
    && s.payments[p].transactionHash == s.payments[q].transactionHash
  }

  ghost predicate PaymentsOk(s: Store) {
    && (forall p :: PaymentAt(s, p))
    && (forall p :: InvoiceAt(s, p))
    && (forall p, q :: !PaymentClash(s, p, q))
  }

  ghost predicate UnitOk(s: Store, t: Id, u: Unit) {
    && PlanHolds(s, t, PlannedUnit(u.reference, u.intentId))
    && (u.status == UnitSuccess ==> UnitSettled(s, u, u.txHash))
  }

  ghost predicate CountersOk(t: Task) {
    && t.totalUnits == |t.units| > 0
    && t.completedUnits == CountUnits(t.units, UnitSuccess)
    && t.failedUnits == CountUnits(t.units, UnitFailed)
    && (if t.status == Assigned then CountUnits(t.units, UnitPending) == |t.units|
        else t.status == RecomputeTaskStatus(t.totalUnits, t.completedUnits, t.failedUnits))
  }

  ghost predicate ReferenceAt(t: Task, k: int)
    requires |t.units| > 0
  {
    0 <= k < |t.units| ==> t.units[k].reference == BatchReference(t.units[0].reference, k)
  }

  ghost predicate ReferencesOk(t: Task) {
    |t.units| > 0 && forall k :: ReferenceAt(t, k)
  }

  ghost predicate TaskOk(s: Store, t: Id)
    requires t in s.tasks
  {
    && CountersOk(s.tasks[t])
    && ReferencesOk(s.tasks[t])
    && s.tasks[t].units[0].intentId == t
    && forall k :: UnitAt(s, t, k)
  }

  ghost predicate UnitAt(s: Store, t: Id, k: int)
    requires t in s.tasks
  {
    0 <= k < |s.tasks[t].units| ==> UnitOk(s, t, s.tasks[t].units[k])
  }

  ghost predicate TaskAt(s: Store, t: Id) {
    t in s.tasks ==> TaskOk(s, t)
  }

  ghost predicate TasksOk(s: Store) {
    forall t :: TaskAt(s, t)
  }

  ghost predicate Inv(s: Store) {
    && RowsOk(s.intents)
    && KeysUnique(s.intents)
    && HashesUnique(s.intents)
    && SettlementsOk(s)
    && AttachmentsOk(s)
    && PaymentsOk(s)
    && TasksOk(s)
  }

  // ---- How rows may change over time ---------------------------------------------------

  function Progress(status: IntentStatus): nat {
    if status == Completed || status == FailedFinal then 2 else if status == Verifying then 1 else 0
  }

  ghost predicate IntentLater(a: Intent, b: Intent) {
    && a.request == b.request
    && (a.transactionHash.Some? ==>
          b.transactionHash == a.transactionHash && Progress(a.status) <= Progress(b.status))
    && (a.status == Completed || a.status == FailedFinal ==> b.status == a.status)
    && (a.status != Created ==> b.status != Created)
    && (a.taskId.Some? ==> b.taskId == a.taskId)
    && (a.status == Cancelled && b.transactionHash.None? ==> b.status == Cancelled)
  }

  ghost predicate InvoiceLater(a: Invoice, b: Invoice) {
    && b == a.(status := b.status)
    && (a.status != InvoiceOpen ==> b.status == a.status || (a.status == InvoiceVerifying && b.status == InvoicePaid))
  }

  ghost predicate PaymentLater(a: Payment, b: Payment) {
    && b.transactionHash == a.transactionHash
    && (a.status == PaymentVerified ==> b.status == PaymentVerified)
  }

  ghost predicate UnitLater(a: Unit, b: Unit) {
    && a.reference == b.reference
    && a.intentId == b.intentId
    && (a.status != UnitPending ==> b.status == a.status && b.txHash == a.txHash)
  }

  ghost predicate TaskLater(a: Task, b: Task) {
    && |a.units| == |b.units|
    && a.totalUnits == b.totalUnits
    && a.completedUnits <= b.completedUnits
    && a.failedUnits <= b.failedUnits
    && forall k :: UnitKept(a, b, k)
  }

  ghost predicate UnitKept(a: Task, b: Task, k: int) {
    0 <= k < |a.units| && k < |b.units| ==> UnitLater(a.units[k], b.units[k])
  }

  ghost predicate IntentKept(a: Store, b: Store, id: Id) {
    id in a.intents ==> id in b.intents && IntentLater(a.intents[id], b.intents[id])
  }

  ghost predicate InvoiceKept(a: Store, b: Store, p: Id) {
    p in a.invoices ==> p in b.invoices && InvoiceLater(a.invoices[p], b.invoices[p])
  }

  ghost predicate PaymentKept(a: Store, b: Store, p: Id) {
    p in a.payments ==> p in b.payments && PaymentLater(a.payments[p], b.payments[p])
  }

  ghost predicate TaskKept(a: Store, b: Store, t: Id) {
    t in a.tasks ==> t in b.tasks && TaskLater(a.tasks[t], b.tasks[t])
  }

  ghost predicate IntentsLater(a: Store, b: Store) {
    forall id :: IntentKept(a, b, id)
  }

  ghost predicate InvoicesLater(a: Store, b: Store) {
    forall p :: InvoiceKept(a, b, p)
  }

  ghost predicate PaymentsLater(a: Store, b: Store) {
    forall p :: PaymentKept(a, b, p)
  }

  ghost predicate TasksLater(a: Store, b: Store) {
    forall t :: TaskKept(a, b, t)
  }

  ghost predicate Later(a: Store, b: Store) {
    && IntentsLater(a, b)
    && InvoicesLater(a, b)
    && PaymentsLater(a, b)
    && TasksLater(a, b)
  }

  // ---- Counting units --------------------------------------------------------------

  lemma {:induction false} CountAfterUpdate(units: seq<Unit>, i: nat, u: Unit, status: UnitStatus)
    requires i < |units|
    ensures CountUnits(units[i := u], status)
         == CountUnits(units, status) + (if u.status == status then 1 else 0)
                                      - (if units[i].status == status then 1 else 0)
  {
    var n := |units| - 1;
    if i == n {
      assert units[i := u][..n] == units[..n];
    } else {
      assert units[i := u][..n] == units[..n][i := u];
      CountAfterUpdate(units[..n], i, u, status);
    }
  }

  /** A full count means every unit has that status. */
  lemma {:induction false} CountIsFull(units: seq<Unit>, status: UnitStatus)
    ensures CountUnits(units, status) == |units| <==> forall k | 0 <= k < |units| :: units[k].status == status
  {
    if units != [] {
      var n := |units| - 1;
      CountIsFull(units[..n], status);
      if CountUnits(units, status) == |units| {
        forall k | 0 <= k < |units| ensures units[k].status == status {
          if k < n { assert units[..n][k] == units[k]; }
        }
      }
      if forall k | 0 <= k < |units| :: units[k].status == status {
        assert forall k | 0 <= k < n :: units[..n][k] == units[k];
      }
    }
  }

  lemma {:induction false} CountIsEmpty(units: seq<Unit>, status: UnitStatus)
    requires forall k | 0 <= k < |units| :: units[k].status != status
    ensures CountUnits(units, status) == 0
  {
    if units != [] {
      var n := |units| - 1;
      assert forall k | 0 <= k < n :: units[..n][k] == units[k];
      CountIsEmpty(units[..n], status);
    }
  }

  lemma {:induction false} CountSees(units: seq<Unit>, i: nat, status: UnitStatus)
    requires i < |units| && units[i].status == status
    ensures CountUnits(units, status) > 0
  {
    var n := |units| - 1;
    if i < n {
      assert units[..n][i] == units[i];
      CountSees(units[..n], i, status);
    }
  }

  // ---- Facts that survive a write to another row ----------------------------------------

  lemma PaymentSurvives(s: Store, s': Store, p: Id)
    requires p in s.payments && PaymentOk(s, p) && IntentsLater(s, s')
    requires p in s'.payments && p in s'.invoices
    requires s'.payments[p] == s.payments[p] && s'.invoices[p] == s.invoices[p]
    ensures PaymentOk(s', p)
  {
    var hash := s.payments[p].transactionHash;
    var id :| id in s.intents && Pays(s, id, p, hash)
              && (s.invoices[p].status == InvoicePaid ==> s.intents[id].status == Completed);
    assert IntentKept(s, s', id);
    assert Pays(s', id, p, hash);
  }

  lemma UnitSurvives(s: Store, s': Store, t: Id, u: Unit)
    requires UnitOk(s, t, u) && IntentsLater(s, s')
    ensures UnitOk(s', t, u)
  {
    assert IntentKept(s, s', u.intentId) && IntentKept(s, s', t);
  }

  lemma TaskSurvives(s: Store, s': Store, t: Id)
    requires t in s.tasks && TaskOk(s, t) && IntentsLater(s, s')
    requires t in s'.tasks && s'.tasks[t] == s.tasks[t]
    ensures TaskOk(s', t)
  {
    forall k
      ensures UnitAt(s', t, k)
    {
      assert UnitAt(s, t, k);
      if 0 <= k < |s.tasks[t].units| {
        UnitSurvives(s, s', t, s.tasks[t].units[k]);
      }
    }
  }

  lemma AttachmentSurvives(s: Store, s': Store, i: Intent)
    requires AttachmentOk(s, i) && IntentsLater(s, s') && s.tasks.Keys <= s'.tasks.Keys
    ensures AttachmentOk(s', i)
  {
    if i.taskId.Some? {
      assert IntentKept(s, s', i.taskId.value);
    }
  }

  lemma SettlementSurvives(s: Store, s': Store, request: Request)
    requires SettlementOk(s, request) && InvoicesLater(s, s')
    ensures SettlementOk(s', request)
  {
    assert InvoiceKept(s, s', request.externalReference);
  }

  // ---- Writes to one intent row ------------------------------------------------------

  /** What makes a written intent row acceptable in the table it joins. */
  ghost predicate GoodWrite(s: Store, id: Id, i: Intent) {
    && (id in s.intents ==> IntentLater(s.intents[id], i))
    && RowOk(i)
    && SettlementOk(s, i.request)
    && AttachmentOk(WithIntent(s, id, i), i)
    && (id !in s.intents ==> !KeyTaken(s, i.request.LogicalKey()))
    && (i.transactionHash.Some? ==>
          (id in s.intents && s.intents[id].transactionHash == i.transactionHash)
          || !HashTaken(s, i.transactionHash.value))
  }

  lemma IntentWriteGrows(s: Store, id: Id, i: Intent)
    requires GoodWrite(s, id, i)
    ensures Later(s, WithIntent(s, id, i))
  {
    TasksStay(s, WithIntent(s, id, i));
  }

  lemma TasksStay(s: Store, s': Store)
    requires s'.tasks == s.tasks
    ensures TasksLater(s, s')
  {}

  lemma IntentWriteRows(s: Store, id: Id, i: Intent)
    requires RowsOk(s.intents) && GoodWrite(s, id, i)
    ensures RowsOk(s.intents[id := i])
  {
    var m := s.intents[id := i];
    forall a ensures RowAt(m, a) { assert RowAt(s.intents, a); }
  }

  lemma IntentWriteKeys(s: Store, id: Id, i: Intent)
    requires KeysUnique(s.intents) && GoodWrite(s, id, i)
    ensures KeysUnique(s.intents[id := i])
  {
    var m := s.intents[id := i];
    forall a, b ensures !KeyClash(m, a, b) { assert !KeyClash(s.intents, a, b); }
  }

  lemma IntentWriteHashes(s: Store, id: Id, i: Intent)
    requires HashesUnique(s.intents) && GoodWrite(s, id, i)
    ensures HashesUnique(s.intents[id := i])
  {
    var m := s.intents[id := i];
    forall a, b ensures !HashClash(m, a, b) { assert !HashClash(s.intents, a, b); }
  }

  lemma IntentWriteSettlements(s: Store, id: Id, i: Intent)
    requires SettlementsOk(s) && GoodWrite(s, id, i)
    ensures SettlementsOk(WithIntent(s, id, i))
  {
    var s' := WithIntent(s, id, i);
    forall a ensures SettlementAt(s', a) { assert SettlementAt(s, a); }
  }

  lemma IntentWriteAttachments(s: Store, id: Id, i: Intent)
    requires AttachmentsOk(s) && GoodWrite(s, id, i)
    ensures AttachmentsOk(WithIntent(s, id, i))
  {
    var s' := WithIntent(s, id, i);
    IntentWriteGrows(s, id, i);
    forall a
      ensures AttachmentAt(s', a)
    {
      assert AttachmentAt(s, a);
      if a in s.intents && a != id {
        AttachmentSurvives(s, s', s.intents[a]);
      }
    }
  }

  lemma PaymentsSurvive(s: Store, s': Store)
    requires PaymentsOk(s) && IntentsLater(s, s')
    requires s'.payments == s.payments && s'.invoices == s.invoices
    ensures PaymentsOk(s')
  {
    forall p ensures PaymentAt(s', p) {
      assert PaymentAt(s, p);
      if p in s.payments { PaymentSurvives(s, s', p); }
    }
    forall p ensures InvoiceAt(s', p) { assert InvoiceAt(s, p); }
    forall p, q ensures !PaymentClash(s', p, q) { assert !PaymentClash(s, p, q); }
  }

  lemma TasksSurvive(s: Store, s': Store)
    requires TasksOk(s) && IntentsLater(s, s') && s'.tasks == s.tasks
    ensures TasksOk(s')
  {
    forall t ensures TaskAt(s', t) {
      assert TaskAt(s, t);
      if t in s.tasks { TaskSurvives(s, s', t); }
    }
  }

  lemma IntentWrite(s: Store, id: Id, i: Intent)
    requires Inv(s) && GoodWrite(s, id, i)
    ensures Inv(WithIntent(s, id, i)) && Later(s, WithIntent(s, id, i))
  {
    IntentWriteGrows(s, id, i);
    IntentWriteRows(s, id, i);
    IntentWriteKeys(s, id, i);
    IntentWriteHashes(s, id, i);
    IntentWriteSettlements(s, id, i);
    IntentWriteAttachments(s, id, i);
    PaymentsSurvive(s, WithIntent(s, id, i));
    TasksSurvive(s, WithIntent(s, id, i));
  }

  predicate WritesIntent(e: Event) {
    e.InsertIntent? || e.Advance? || e.OpenWallet? || e.Complete? || e.FailFinal? || e.Lease?
    || e.BindHash? || e.CancelIntent? || e.AttachTask?
  }

  lemma NewIntentIsGood(s: Store, e: Event)
    requires (e.InsertIntent? || e.BindHash?) && Fires(s, e)
    requires RowAt(s.intents, e.id) && SettlementAt(s, e.id) && AttachmentAt(s, e.id)
    ensures e.id in Effect(s, e).intents
    ensures GoodWrite(s, e.id, Effect(s, e).intents[e.id])
    ensures Effect(s, e) == WithIntent(s, e.id, Effect(s, e).intents[e.id])
  {}

  lemma AttachmentIsGood(s: Store, e: Event)
    requires e.AttachTask? && Fires(s, e)
    requires RowAt(s.intents, e.id) && SettlementAt(s, e.id) && AttachmentAt(s, e.id)
    ensures e.id in Effect(s, e).intents
    ensures GoodWrite(s, e.id, Effect(s, e).intents[e.id])
    ensures Effect(s, e) == WithIntent(s, e.id, Effect(s, e).intents[e.id])
  {}

  lemma StatusWriteIsGood(s: Store, e: Event)
    requires WritesIntent(e) && !e.InsertIntent? && !e.BindHash? && !e.AttachTask? && Fires(s, e)
    requires RowAt(s.intents, e.id) && SettlementAt(s, e.id) && AttachmentAt(s, e.id)
    ensures e.id in Effect(s, e).intents
    ensures GoodWrite(s, e.id, Effect(s, e).intents[e.id])
    ensures Effect(s, e) == WithIntent(s, e.id, Effect(s, e).intents[e.id])
  {}

  lemma IntentEventIsGood(s: Store, e: Event)
    requires RowsOk(s.intents) && SettlementsOk(s) && AttachmentsOk(s)
    requires WritesIntent(e) && Fires(s, e)
    ensures e.id in Effect(s, e).intents
    ensures GoodWrite(s, e.id, Effect(s, e).intents[e.id])
    ensures Effect(s, e) == WithIntent(s, e.id, Effect(s, e).intents[e.id])
  {
    assert RowAt(s.intents, e.id) && SettlementAt(s, e.id) && AttachmentAt(s, e.id);
    hide RowAt, SettlementAt, AttachmentAt, GoodWrite, Effect;
    if e.InsertIntent? || e.BindHash? {
      NewIntentIsGood(s, e);
    } else if e.AttachTask? {
      AttachmentIsGood(s, e);
    } else {
      StatusWriteIsGood(s, e);
    }
  }

  lemma IntentEvent(s: Store, e: Event)
    requires Inv(s) && WritesIntent(e) && Fires(s, e)
    ensures Inv(Effect(s, e)) && Later(s, Effect(s, e))
  {
    IntentEventIsGood(s, e);
    IntentWrite(s, e.id, Effect(s, e).intents[e.id]);
  }

  // ---- Writes to invoices and payments -----------------------------------------------

  predicate WritesBilling(e: Event) {
    e.InsertInvoice? || e.ExpireInvoices? || e.CancelInvoice? || e.OpenPayment? || e.NotePayment? || e.SettlePayment?
  }

  lemma BillingGrows(s: Store, e: Event)
    requires PaymentsOk(s) && WritesBilling(e) && Fires(s, e)
    ensures Effect(s, e).intents == s.intents && Effect(s, e).tasks == s.tasks
    ensures Later(s, Effect(s, e))
  {
    TasksStay(s, Effect(s, e));
  }

  /** The invoice an event is about; expiry is about none in particular. */
  function Subject(e: Event): Option<Id>
    requires WritesBilling(e)
  {
    if e.ExpireInvoices? then None else Some(e.publicId)
  }

  lemma BilledPaymentOk(s: Store, e: Event)
    requires PaymentsOk(s) && WritesBilling(e) && Fires(s, e) && Subject(e).Some?
    ensures PaymentAt(Effect(s, e), Subject(e).value) && InvoiceAt(Effect(s, e), Subject(e).value)
  {
    var p := Subject(e).value;
    var s' := Effect(s, e);
    assert PaymentAt(s, p) && InvoiceAt(s, p);
    if e.OpenPayment? {
      var id :| id in s.intents && Pays(s, id, p, e.hash);
      assert Pays(s', id, p, e.hash);
    } else if e.NotePayment? {
      var id :| id in s.intents && Pays(s, id, p, e.hash);
      assert Pays(s', id, p, e.hash);
    } else if e.SettlePayment? {
      var id :| id in s.intents && Pays(s, id, p, e.hash) && s.intents[id].status == Completed;
      assert Pays(s', id, p, e.hash);
    }
  }

  lemma OtherPaymentOk(s: Store, e: Event, p: Id)
    requires PaymentsOk(s) && WritesBilling(e) && Fires(s, e) && Subject(e) != Some(p)
    ensures PaymentAt(Effect(s, e), p) && InvoiceAt(Effect(s, e), p)
  {
    var s' := Effect(s, e);
    assert PaymentAt(s, p) && InvoiceAt(s, p);
    BillingGrows(s, e);
    if p in s.payments {
      PaymentSurvives(s, s', p);
    }
  }

  lemma BillingPayments(s: Store, e: Event)
    requires PaymentsOk(s) && WritesBilling(e) && Fires(s, e)
    ensures PaymentsOk(Effect(s, e))
  {
    var s' := Effect(s, e);
    forall p ensures PaymentAt(s', p) && InvoiceAt(s', p) {
      if Subject(e) == Some(p) { BilledPaymentOk(s, e); } else { OtherPaymentOk(s, e, p); }
    }
    forall p, q ensures !PaymentClash(s', p, q) { assert !PaymentClash(s, p, q); }
  }

  lemma SettlementsSurvive(s: Store, s': Store)
    requires SettlementsOk(s) && InvoicesLater(s, s') && s'.intents == s.intents
    ensures SettlementsOk(s')
  {
    forall a ensures SettlementAt(s', a) {
      assert SettlementAt(s, a);
      if a in s.intents { SettlementSurvives(s, s', s.intents[a].request); }
    }
  }

  lemma AttachmentsSurvive(s: Store, s': Store)
    requires AttachmentsOk(s) && IntentsLater(s, s') && s'.intents == s.intents && s.tasks.Keys <= s'.tasks.Keys
    ensures AttachmentsOk(s')
  {
    forall a ensures AttachmentAt(s', a) {
      assert AttachmentAt(s, a);
      if a in s.intents { AttachmentSurvives(s, s', s.intents[a]); }
    }
  }

  lemma BillingEvent(s: Store, e: Event)
    requires Inv(s) && WritesBilling(e) && Fires(s, e)
    ensures Inv(Effect(s, e)) && Later(s, Effect(s, e))
  {
    BillingGrows(s, e);
    BillingPayments(s, e);
    SettlementsSurvive(s, Effect(s, e));
    AttachmentsSurvive(s, Effect(s, e));
    TasksSurvive(s, Effect(s, e));
  }

  // ---- Writes to one task ------------------------------------------------------------

  predicate WritesTask(e: Event) {
    e.InsertTask? || e.ReportUnit? || e.NoteUnit?
  }

  lemma NewTaskOk(s: Store, e: Event)
    requires e.InsertTask? && Fires(s, e)
    ensures TaskOk(Effect(s, e), e.task) && TasksLater(s, Effect(s, e))
  {
    var s' := Effect(s, e);
    var units := Planned(e.plan);
    CountIsEmpty(units, UnitSuccess);
    CountIsEmpty(units, UnitFailed);
    CountIsFull(units, UnitPending);
    forall k
      ensures UnitAt(s', e.task, k)
    {
      if 0 <= k < |units| {
        assert PlanHolds(s, e.task, e.plan[k]);
      }
    }
  }

  lemma ChangedTaskReferences(s: Store, e: Event)
    requires (e.ReportUnit? || e.NoteUnit?) && Fires(s, e) && ReferencesOk(s.tasks[e.task])
    ensures ReferencesOk(Effect(s, e).tasks[e.task])
  {
    var a := s.tasks[e.task];
    var b := Effect(s, e).tasks[e.task];
    forall k ensures ReferenceAt(b, k) { assert ReferenceAt(a, k); }
  }

  lemma ReportedCounters(t: Task, index: nat, result: UnitStatus, txHash: HashUpdate)
    requires CountersOk(t) && index < |t.units| && t.units[index].status == UnitPending
    ensures CountersOk(ReportedTask(t, index, result, txHash))
  {
    var unit := ReportedTask(t, index, result, txHash).units[index];
    CountAfterUpdate(t.units, index, unit, UnitSuccess);
    CountAfterUpdate(t.units, index, unit, UnitFailed);
    CountAfterUpdate(t.units, index, unit, UnitPending);
  }

  lemma NotedCounters(t: Task, index: nat, unit: Unit)
    requires CountersOk(t) && index < |t.units| && unit.status == t.units[index].status
    ensures CountersOk(t.(units := t.units[index := unit]))
  {
    CountAfterUpdate(t.units, index, unit, UnitSuccess);
    CountAfterUpdate(t.units, index, unit, UnitFailed);
    CountAfterUpdate(t.units, index, unit, UnitPending);
  }

  lemma ChangedTaskCounters(s: Store, e: Event)
    requires (e.ReportUnit? || e.NoteUnit?) && Fires(s, e) && CountersOk(s.tasks[e.task])
    ensures CountersOk(Effect(s, e).tasks[e.task])
  {
    hide CountersOk;
    var a := s.tasks[e.task];
    if e.ReportUnit? {
      ReportedCounters(a, e.index, e.result, e.txHash);
    } else {
      NotedCounters(a, e.index, a.units[e.index].(notedStatus := Some(e.status)));
    }
  }

  lemma ChangedTaskGrows(s: Store, e: Event)
    requires (e.ReportUnit? || e.NoteUnit?) && Fires(s, e)
    ensures TasksLater(s, Effect(s, e))
  {
    var s' := Effect(s, e);
    forall t ensures TaskKept(s, s', t) {
      if t == e.task {
        forall k ensures UnitKept(s.tasks[t], s'.tasks[t], k) {}
      }
    }
  }

  lemma ChangedTaskOk(s: Store, e: Event)
    requires (e.ReportUnit? || e.NoteUnit?) && Fires(s, e) && TaskOk(s, e.task)
    ensures TaskOk(Effect(s, e), e.task)
  {
    var s' := Effect(s, e);
    ChangedTaskCounters(s, e);
    ChangedTaskReferences(s, e);
    forall k
      ensures UnitAt(s', e.task, k)
    {
      assert UnitAt(s, e.task, k);
    }
    assert s'.tasks[e.task].units[0].intentId == s.tasks[e.task].units[0].intentId;
  }

  lemma TaskEvent(s: Store, e: Event)
    requires Inv(s) && WritesTask(e) && Fires(s, e)
    ensures Inv(Effect(s, e)) && Later(s, Effect(s, e))
  {
    var s' := Effect(s, e);
    assert TaskAt(s, e.task);
    if e.InsertTask? {
      NewTaskOk(s, e);
    } else {
      ChangedTaskOk(s, e);
      ChangedTaskGrows(s, e);
    }
    OtherTasksOk(s, e);
    BillingStays(s, s');
    PaymentsSurvive(s, s');
    SettlementsSurvive(s, s');
    AttachmentsSurvive(s, s');
  }

  lemma OtherTasksOk(s: Store, e: Event)
    requires TasksOk(s) && WritesTask(e) && Fires(s, e) && TaskOk(Effect(s, e), e.task)
    ensures TasksOk(Effect(s, e))
  {
    var s' := Effect(s, e);
    forall t ensures TaskAt(s', t) {
      assert TaskAt(s, t);
      if t != e.task && t in s.tasks { TaskSurvives(s, s', t); }
    }
  }

  lemma BillingStays(s: Store, s': Store)
    requires s'.intents == s.intents && s'.invoices == s.invoices && s'.payments == s.payments
    ensures IntentsLater(s, s') && InvoicesLater(s, s') && PaymentsLater(s, s')
  {}

  // ---- Runs --------------------------------------------------------------------------

  lemma StepKeeps(s: Store, e: Event)
    requires Inv(s)
    ensures Inv(Step(s, e)) && Later(s, Step(s, e))
  {
    if Fires(s, e) {
      if WritesTask(e) {
        TaskEvent(s, e);
      } else if WritesBilling(e) {
        BillingEvent(s, e);
      } else {
        IntentEvent(s, e);
      }
    } else {
      LaterReflexive(s);
    }
  }

  lemma LaterReflexive(s: Store)
    ensures Later(s, s)
  {
    TasksStay(s, s);
  }

  lemma TaskLaterTransitive(a: Task, b: Task, c: Task)
    requires TaskLater(a, b) && TaskLater(b, c)
    ensures TaskLater(a, c)
  {
    forall k ensures UnitKept(a, c, k) { assert UnitKept(a, b, k) && UnitKept(b, c, k); }
  }

  lemma LaterTransitive(a: Store, b: Store, c: Store)
    requires Later(a, b) && Later(b, c)
    ensures Later(a, c)
  {
    forall id ensures IntentKept(a, c, id) { assert IntentKept(a, b, id) && IntentKept(b, c, id); }
    forall p ensures InvoiceKept(a, c, p) { assert InvoiceKept(a, b, p) && InvoiceKept(b, c, p); }
    forall p ensures PaymentKept(a, c, p) { assert PaymentKept(a, b, p) && PaymentKept(b, c, p); }
    forall t ensures TaskKept(a, c, t) {
      assert TaskKept(a, b, t) && TaskKept(b, c, t);
      if t in a.tasks { TaskLaterTransitive(a.tasks[t], b.tasks[t], c.tasks[t]); }
    }
  }

  /** Every reachable store satisfies the invariant. */
  lemma {:induction false} RunKeeps(es: seq<Event>)
    ensures Inv(Run(es))
  {
    if es != [] {
      var n := |es| - 1;
      RunKeeps(es[..n]);
      StepKeeps(Run(es[..n]), es[n]);
    }
  }

  /** Whatever follows a run, its rows only move the way `Later` allows. */
  lemma {:induction false} RunLater(es: seq<Event>, more: seq<Event>)
    ensures Later(Run(es), Run(es + more))
  {
    if more == [] {
      assert es + more == es;
      LaterReflexive(Run(es));
    } else {
      var n := |more| - 1;
      var before := es + more[..n];
      assert (es + more)[..|es + more| - 1] == before;
      RunLater(es, more[..n]);
      RunKeeps(before);
      StepKeeps(Run(before), more[n]);
      LaterTransitive(Run(es), Run(before), Run(es + more));
    }
  }

  lemma PrefixLater(es: seq<Event>, fs: seq<Event>)
    requires es <= fs
    ensures Later(Run(es), Run(fs))
  {
    assert fs == es + fs[|es|..];
    RunLater(es, fs[|es|..]);
  }

  lemma RunAppend(es: seq<Event>, e: Event)
    ensures Run(es + [e]) == Step(Run(es), e)
  {
    assert (es + [e])[..|es + [e]| - 1] == es;
  }
}

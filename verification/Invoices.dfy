/** The invoice service: cancelling, expiring, and the public verification of a payment. */
module Invoices {
  import opened Wrappers
  import opened Text
  import opened Rows
  import opened Steps
  import opened Invariants
  import opened Guarantees
  import opened Databases
  import opened ExecutionIntents

  datatype InvoiceError =
    | InvoiceNotFound
    | InvoiceNotOpen
    | AlreadyPaid
    | InvoiceHasExpired
    | InvoiceWasCancelled
    | PaymentAlreadySubmitted
    | HashReused
    | BoundToAnotherOperation
    | VerificationPending
    | VerificationRefused
    | IntentProblem(error: Error)

  datatype RecordOutcome = Recorded | NoLongerOpen | UniqueClash

  /** What the transfer verifier answers for a transaction. */
  datatype Verdict = Verified(payer: Address) | TryAgain | Refused

  datatype Snapshot = Snapshot(invoice: Invoice, payment: Option<Payment>)

  function SnapshotOf(s: Store, pid: Id): Snapshot
    requires pid in s.invoices
  {
    Snapshot(s.invoices[pid], if pid in s.payments then Some(s.payments[pid]) else None)
  }

  function AcceptsPayment(invoice: Invoice, now: Time): Option<InvoiceError> {
    match invoice.status
    case InvoicePaid => Some(AlreadyPaid)
    case InvoiceExpired => Some(InvoiceHasExpired)
    case InvoiceOpen => if invoice.HasExpired(now) then Some(InvoiceHasExpired) else None
    case InvoiceCancelled => Some(InvoiceWasCancelled)
    case InvoiceVerifying => None
  }

  /** The evidence that the invoice's own terms and the verified payer make up. */
  function EvidenceFor(invoice: Invoice, hash: TxHash, payer: Address): Receipt {
    Receipt(hash, payer, invoice.token, Some(invoice.merchant), None, invoice.amountUnits)
  }

  /** The store once an interrupted verification has been carried through. */
  function Resumed(s: Store, pid: Id, id: Id): Store
    requires pid in s.invoices && pid in s.payments && id in s.intents
  {
    Store(s.intents[id := s.intents[id].(status := Completed)],
          s.invoices[pid := s.invoices[pid].(status := InvoicePaid)],
          s.payments[pid := s.payments[pid].(status := PaymentVerified)],
          s.tasks)
  }

  /** A payment recorded for the transaction of its own intent. */
  ghost predicate IsRecorded(s: Store, pid: Id, id: Id, hash: TxHash) {
    IsStoredHash(hash) && pid in s.payments && s.payments[pid].transactionHash == hash && Pays(s, id, pid, hash)
  }

  /** A payment that a crash or a rejection left behind, and a verdict that now supports it. */
  ghost predicate CanResume(s: Store, pid: Id, id: Id, hash: TxHash, verdict: Verdict) {
    IsRecorded(s, pid, id, hash) && verdict == Verified(s.intents[id].request.sourceWallet)
  }

  /** What is answered to a payment that the verdict does not support. */
  ghost function AnswerTo(verdict: Verdict): InvoiceError {
    match verdict
    case Verified(_) => IntentProblem(ReceiptMismatch)
    case TryAgain => VerificationPending
    case Refused => VerificationRefused
  }

  /** What such a verdict makes of the payment. */
  ghost function Doubted(verdict: Verdict, was: PaymentStatus): PaymentStatus {
    match verdict
    case Verified(_) => was
    case TryAgain => PaymentVerifying
    case Refused => PaymentRejected
  }

  /** What the snapshot of an invoice forbids, whatever the verdict. */
  ghost function Refusal(seen: Snapshot, hash: TxHash, now: Time): Option<InvoiceError> {
    if seen.invoice.status == InvoiceExpired || (seen.invoice.status == InvoiceOpen && seen.invoice.HasExpired(now))
    then Some(InvoiceHasExpired)
    else if seen.invoice.status == InvoiceCancelled then Some(InvoiceWasCancelled)
    else if seen.payment.Some? && seen.payment.value.transactionHash != hash
    then Some(if seen.invoice.status == InvoicePaid then AlreadyPaid else PaymentAlreadySubmitted)
    else None
  }

  /** What an undisturbed verification answers and leaves, for an invoice and its own intent that carries the hash. */
  ghost predicate IsOutcome(s: Store, t: Store, pid: Id, id: Id, hash: TxHash, now: Time, verdict: Verdict,
                            r: Option<InvoiceError>)
    requires pid in s.invoices && id in s.intents
  {
    var i, invoice := s.intents[id], s.invoices[pid];
    var begun := i.(status := if i.status == Completed then Completed else Verifying);
    var recorded := pid in s.payments && s.payments[pid].transactionHash == hash;
    var expired := invoice.status == InvoiceOpen && invoice.HasExpired(now);
    && pid in t.invoices
    && if invoice.status == InvoicePaid && recorded then r.None? && t == s
       else if expired || !(invoice.status == InvoiceOpen || (invoice.status == InvoiceVerifying && recorded)) then
         && r == Some(match invoice.status
                      case InvoicePaid => AlreadyPaid
                      case InvoiceCancelled => InvoiceWasCancelled
                      case InvoiceVerifying => PaymentAlreadySubmitted
                      case _ => InvoiceHasExpired)
         && t.payments == s.payments
         && t.invoices[pid] == (if expired then invoice.(status := InvoiceExpired) else invoice)
         && t.intents == s.intents[id := begun]
       else
         && pid in t.payments && t.payments[pid].transactionHash == hash
         && if verdict == Verified(i.request.sourceWallet) then
              && r.None? && t.invoices[pid] == invoice.(status := InvoicePaid)
              && t.payments[pid].status == PaymentVerified
              && t.intents == s.intents[id := i.(status := Completed)]
            else
              && r == Some(AnswerTo(verdict)) && t.invoices[pid] == invoice.(status := InvoiceVerifying)
              && t.payments[pid].status == Doubted(verdict, if recorded then s.payments[pid].status else PaymentVerifying)
              && t.intents == s.intents[id := begun]
  }

  /** The store with the payment recorded but not verified. */
  ghost function Tried(s: Store, pid: Id, hash: TxHash, status: PaymentStatus): Store
    requires pid in s.invoices
  {
    s.(invoices := s.invoices[pid := s.invoices[pid].(status := InvoiceVerifying)],
       payments := s.payments[pid := Payment(hash, status)])
  }

  ghost function StatusOf(s: Store, pid: Id): PaymentStatus {
    if pid in s.payments then s.payments[pid].status else PaymentVerifying
  }

  /** A payment that can be tried, or tried again: recorded and unpaid, or of an open invoice. */
  ghost predicate CanTry(s: Store, pid: Id, id: Id, hash: TxHash, now: Time) {
    || (IsRecorded(s, pid, id, hash) && s.invoices[pid].status == InvoiceVerifying)
    || IsOpenable(s, pid, id, hash, now)
  }

  /** The verdict speaks against the payment: it is none yet, or refuses, or names another payer. */
  ghost predicate IsAgainst(s: Store, id: Id, verdict: Verdict) {
    id in s.intents && verdict != Verified(s.intents[id].request.sourceWallet)
  }

  /** Resuming is stable: once carried through, doing it again changes nothing. */
  lemma ResumingTwice(s: Store, pid: Id, id: Id, hash: TxHash, verdict: Verdict)
    requires CanResume(s, pid, id, hash, verdict)
    ensures CanResume(Resumed(s, pid, id), pid, id, hash, verdict)
    ensures Resumed(Resumed(s, pid, id), pid, id) == Resumed(s, pid, id)
  {
    var r := Resumed(s, pid, id);
    assert r.intents[id := r.intents[id]] == r.intents;
    assert r.invoices[pid := r.invoices[pid]] == r.invoices;
    assert r.payments[pid := r.payments[pid]] == r.payments;
  }

  ghost predicate PaidBy(s: Store, pid: Id, hash: TxHash) {
    && pid in s.invoices && s.invoices[pid].status == InvoicePaid
    && pid in s.payments && s.payments[pid].transactionHash == hash
  }

  /** The only intent a payment can have been opened for. */
  lemma PayerIsKnown(s: Store, pid: Id, id: Id)
    requires Inv(s) && pid in s.payments && Pays(s, id, pid, s.payments[pid].transactionHash)
    ensures s.intents[id].status == Submitted || s.intents[id].status == Verifying || s.intents[id].status == Completed
    ensures s.invoices[pid].status == InvoiceVerifying || s.invoices[pid].status == InvoicePaid
    ensures s.invoices[pid].status == InvoicePaid <==> s.payments[pid].status == PaymentVerified
    ensures s.invoices[pid].status == InvoicePaid ==> s.intents[id].status == Completed
    ensures s.invoices[pid].AgreesWith(s.intents[id].request)
  {
    assert PaymentAt(s, pid) && RowAt(s.intents, id) && SettlementAt(s, id);
    var payer :| payer in s.intents && Pays(s, payer, pid, s.payments[pid].transactionHash)
                 && (s.invoices[pid].status == InvoicePaid ==> s.intents[payer].status == Completed);
    assert !HashClash(s.intents, payer, id);
  }

  lemma NothingToExpire(s: Store, pid: Id, now: Time)
    requires pid in s.invoices && s.invoices[pid].status != InvoiceOpen
    ensures Step(s, ExpireInvoices({pid}, now)) == s
  {
    var e := ExpireInvoices({pid}, now);
    assert Effect(s, e).invoices == s.invoices;
  }

  predicate OwnedBy(s: Store, pid: Id, merchantUserId: string) {
    pid in s.invoices && s.invoices[pid].merchantUserId == merchantUserId
  }

  /** The invoices that a WHERE clause on id and merchant reaches. */
  function Scope(s: Store, pid: Id, merchantUserId: string): set<Id> {
    if OwnedBy(s, pid, merchantUserId) then {pid} else {}
  }

  /** Expiry and then cancellation: the merchant's open invoice that has not expired becomes cancelled, any other is not. */
  lemma CancellingOne(s: Store, pid: Id, merchantUserId: string, now: Time)
    ensures var t := Step(s, ExpireInvoices(Scope(s, pid, merchantUserId), now));
            var cancel := CancelInvoice(pid, merchantUserId);
            && (RowsMatch(t, cancel) <==>
                  && OwnedBy(s, pid, merchantUserId) && s.invoices[pid].status == InvoiceOpen
                  && !s.invoices[pid].HasExpired(now))
            && (RowsMatch(t, cancel) ==>
                  Step(t, cancel).invoices == s.invoices[pid := s.invoices[pid].(status := InvoiceCancelled)])
  {
    var t := Step(s, ExpireInvoices(Scope(s, pid, merchantUserId), now));
    if OwnedBy(s, pid, merchantUserId) && s.invoices[pid].status == InvoiceOpen && !s.invoices[pid].HasExpired(now) {
      assert t.invoices == s.invoices;
    }
  }

  lemma AlreadyResumed(s: Store, pid: Id, id: Id, hash: TxHash)
    requires Inv(s) && pid in s.payments && s.payments[pid].transactionHash == hash && Pays(s, id, pid, hash)
    requires s.invoices[pid].status == InvoicePaid
    ensures Resumed(s, pid, id) == s && VerificationStarted(s.intents[id]) == s.intents[id]
  {
    PayerIsKnown(s, pid, id);
    assert s.intents[id := s.intents[id]] == s.intents;
    assert s.invoices[pid := s.invoices[pid]] == s.invoices;
    assert s.payments[pid := s.payments[pid]] == s.payments;
  }

  /** Where an uninterrupted request stands once verification has begun and expiry has run. */
  lemma QuietStart(s: Store, t: Store, pid: Id, id: Id, hash: TxHash, now: Time)
    requires Inv(s) && IsRecorded(s, pid, id, hash)
    requires t == Step(WithIntent(s, id, VerificationStarted(s.intents[id])), ExpireInvoices({pid}, now))
    ensures IsRecorded(t, pid, id, hash) && t == WithIntent(s, id, VerificationStarted(s.intents[id]))
    ensures t.intents[id].request == s.intents[id].request
    ensures t.intents[id].status == Verifying || t.intents[id].status == Completed
    ensures SnapshotOf(t, pid) == SnapshotOf(s, pid)
    ensures Resumed(t, pid, id) == Resumed(s, pid, id)
  {
    PayerIsKnown(s, pid, id);
    var begun := WithIntent(s, id, VerificationStarted(s.intents[id]));
    NothingToExpire(begun, pid, now);
    assert t == begun;
    assert t.intents[id := t.intents[id].(status := Completed)] == s.intents[id := s.intents[id].(status := Completed)];
  }

  /** The invoice is open, and an intent made for it carries the hash. */
  ghost predicate IsOpenable(s: Store, pid: Id, id: Id, hash: TxHash, now: Time) {
    && IsStoredHash(hash)
    && pid in s.invoices && s.invoices[pid].status == InvoiceOpen && !s.invoices[pid].HasExpired(now)
    && Pays(s, id, pid, hash)
  }

  /** A first payment that the verdict supports. */
  ghost predicate CanOpen(s: Store, pid: Id, id: Id, hash: TxHash, verdict: Verdict, now: Time) {
    IsOpenable(s, pid, id, hash, now) && verdict == Verified(s.intents[id].request.sourceWallet)
  }

  /** The store with the payment recorded and carried through. */
  function FirstPaid(s: Store, pid: Id, id: Id, hash: TxHash): Store
    requires pid in s.invoices && id in s.intents
  {
    Store(s.intents[id := s.intents[id].(status := Completed)],
          s.invoices[pid := s.invoices[pid].(status := InvoicePaid)],
          s.payments[pid := Payment(hash, PaymentVerified)],
          s.tasks)
  }

  /** An open invoice can record the payment of its carrier: no other invoice has taken the hash. */
  lemma OpeningFires(s: Store, pid: Id, id: Id, hash: TxHash)
    requires Inv(s) && Pays(s, id, pid, hash) && s.invoices[pid].status == InvoiceOpen
    ensures pid !in s.payments && !PaymentHashTaken(s, hash) && Fires(s, OpenPayment(pid, hash))
  {
    assert PaymentAt(s, pid) && InvoiceAt(s, pid);
    if PaymentHashTaken(s, hash) {
      var q :| q in s.payments && s.payments[q].transactionHash == hash;
      assert PaymentAt(s, q);
      var payer :| payer in s.intents && Pays(s, payer, q, hash);
      OneCarrier(s, payer, id, hash);
      assert false;
    }
  }

  /** After the payment has been recorded, carrying it through is resuming it. */
  lemma OpenedIsResumable(s: Store, pid: Id, id: Id, hash: TxHash, now: Time)
    requires Inv(s) && IsOpenable(s, pid, id, hash, now)
    ensures var t := Step(s, OpenPayment(pid, hash));
            && IsRecorded(t, pid, id, hash) && t.intents == s.intents
            && t == Tried(s, pid, hash, PaymentVerifying)
            && (forall status :: Tried(t, pid, hash, status) == Tried(s, pid, hash, status))
            && Resumed(t, pid, id) == FirstPaid(s, pid, id, hash)
  {
    OpeningFires(s, pid, id, hash);
    var t := Step(s, OpenPayment(pid, hash));
    var paid := s.invoices[pid].(status := InvoicePaid);
    assert t.invoices[pid := paid] == s.invoices[pid := paid];
    assert t.payments[pid := Payment(hash, PaymentVerified)] == s.payments[pid := Payment(hash, PaymentVerified)];
    forall status
      ensures Tried(t, pid, hash, status) == Tried(s, pid, hash, status)
    {
      assert t.payments[pid := Payment(hash, status)] == s.payments[pid := Payment(hash, status)];
    }
  }

  /** Beginning the verification and expiring leave a first payment possible. */
  lemma QuietOpening(s: Store, t: Store, pid: Id, id: Id, hash: TxHash, now: Time)
    requires Inv(s) && IsOpenable(s, pid, id, hash, now)
    requires t == Step(WithIntent(s, id, VerificationStarted(s.intents[id])), ExpireInvoices({pid}, now))
    ensures IsOpenable(t, pid, id, hash, now) && t == WithIntent(s, id, VerificationStarted(s.intents[id]))
    ensures t.intents[id].request == s.intents[id].request
    ensures t.intents[id].status == Verifying || t.intents[id].status == Completed
    ensures SnapshotOf(t, pid) == SnapshotOf(s, pid)
    ensures FirstPaid(t, pid, id, hash) == FirstPaid(s, pid, id, hash)
  {
    assert RowAt(s.intents, id) && SettlementAt(s, id);
    var begun := WithIntent(s, id, VerificationStarted(s.intents[id]));
    assert Effect(begun, ExpireInvoices({pid}, now)).invoices == begun.invoices;
    assert t.intents[id := t.intents[id].(status := Completed)] == s.intents[id := s.intents[id].(status := Completed)];
  }

  lemma OneCarrier(s: Store, a: Id, b: Id, hash: TxHash)
    requires Inv(s) && a in s.intents && b in s.intents
    requires s.intents[a].transactionHash == Some(hash) && s.intents[b].transactionHash == Some(hash)
    ensures a == b
  {
    assert !HashClash(s.intents, a, b);
  }

  class InvoiceService {
    const db: Database
    const intents: ExecutionIntentService

    constructor (db: Database, intents: ExecutionIntentService)
      requires intents.db == db
      ensures this.db == db && this.intents == intents
    {
      this.db := db;
      this.intents := intents;
    }

    ghost predicate Wired() {
      intents.db == db
    }

    method ExpireOpenInvoices(scope: set<Id>, now: Time)
      requires db.Valid()
      modifies db
      ensures db.Valid() && old(db.log) <= db.log
      ensures old(db.others) == [] ==> db.others == [] && db.store == Step(old(db.store), ExpireInvoices(scope, now))
      ensures old(db.others) == [] ==>
                && db.store.invoices.Keys == old(db.store).invoices.Keys
                && forall p | p in old(db.store).invoices ::
                     var invoice := old(db.store).invoices[p];
                     db.store.invoices[p] == if p in scope && invoice.status == InvoiceOpen && invoice.expiresAt.Some?
                                                && invoice.expiresAt.value <= now
                                             then invoice.(status := InvoiceExpired) else invoice
    {
      db.RoundTrip();
      var done := db.Write(ExpireInvoices(scope, now));
    }

    /** Expiry within one merchant's invoices. */
    method ExpireOwned(pid: Id, merchantUserId: string, now: Time)
      requires db.Valid()
      modifies db
      ensures db.Valid() && old(db.log) <= db.log
      ensures old(db.others) == [] ==>
                && db.others == []
                && db.store == Step(old(db.store), ExpireInvoices(Scope(old(db.store), pid, merchantUserId), now))
    {
      db.RoundTrip();
      var done := db.Write(ExpireInvoices(Scope(db.store, pid, merchantUserId), now));
    }

    /** A merchant cancels an invoice; someone else's is not found. */
    method Cancel(pid: Id, merchantUserId: string, now: Time) returns (r: Result<Invoice, InvoiceError>)
      requires db.Valid()
      modifies db
      ensures db.Valid() && old(db.log) <= db.log
      ensures r.Success? ==>
                && OwnedBy(db.store, pid, merchantUserId)
                && db.store.invoices[pid].status == InvoiceCancelled && r.value == db.store.invoices[pid]
      ensures r == Failure(InvoiceNotFound) ==> !OwnedBy(db.store, pid, merchantUserId)
      ensures old(db.others) == [] ==>
                && r.Success? == (&& OwnedBy(old(db.store), pid, merchantUserId)
                                  && old(db.store).invoices[pid].status == InvoiceOpen
                                  && !old(db.store).invoices[pid].HasExpired(now))
                && (r.Success? ==> db.store.invoices == old(db.store).invoices[pid := r.value])
                && (r.Success? <==>
                      && pid in old(db.store).invoices
                      && var invoice := old(db.store).invoices[pid];
                      && invoice.merchantUserId == merchantUserId && invoice.status == InvoiceOpen
                      && (invoice.expiresAt.None? || now < invoice.expiresAt.value))
                && (r.Failure? ==>
                      r.error == if pid in old(db.store).invoices
                                    && old(db.store).invoices[pid].merchantUserId == merchantUserId then InvoiceNotOpen
                                 else InvoiceNotFound)
    {
      hide Run, OnlyVerified, RowsOk, KeysUnique, HashesUnique, SettlementsOk, AttachmentsOk, PaymentsOk, TasksOk;
      ghost var before := db.store;
      ExpireOwned(pid, merchantUserId, now);
      var cancelled := CancelIfOpen(pid, merchantUserId);
      ghost var after := db.log;
      CancellingOne(before, pid, merchantUserId, now);
      if !cancelled {
        db.RoundTrip();
        return Failure(if OwnedBy(db.store, pid, merchantUserId) then InvoiceNotOpen else InvoiceNotFound);
      }
      NothingToExpire(db.store, pid, now);
      ExpireOwned(pid, merchantUserId, now);
      db.RoundTrip();
      Since(db, after);
      assert InvoiceKept(Run(after), db.store, pid);
      return Success(db.store.invoices[pid]);
    }

    /** The guarded update of a cancellation. */
    method CancelIfOpen(pid: Id, merchantUserId: string) returns (cancelled: bool)
      requires db.Valid()
      modifies db
      ensures db.Valid() && old(db.log) <= db.log
      ensures cancelled ==> OwnedBy(db.store, pid, merchantUserId) && db.store.invoices[pid].status == InvoiceCancelled
      ensures old(db.others) == [] ==>
                && db.others == []
                && cancelled == RowsMatch(old(db.store), CancelInvoice(pid, merchantUserId))
                && db.store == Step(old(db.store), CancelInvoice(pid, merchantUserId))
    {
      db.RoundTrip();
      cancelled := db.Write(CancelInvoice(pid, merchantUserId));
    }

    /** The transaction that moves the invoice to verification and records its payment. */
    method RecordPayment(pid: Id, id: Id, hash: TxHash) returns (outcome: RecordOutcome)
      requires db.Valid() && Pays(db.store, id, pid, hash)
      modifies db
      ensures db.Valid() && old(db.log) <= db.log
      ensures outcome == Recorded ==> pid in db.store.payments && db.store.payments[pid].transactionHash == hash
      ensures outcome != Recorded ==>
                && pid in db.store.invoices
                && (outcome == NoLongerOpen <==> db.store.invoices[pid].status != InvoiceOpen)
      ensures old(db.others) == [] && RowsMatch(old(db.store), OpenPayment(pid, hash)) ==>
                && outcome == Recorded && db.others == []
                && db.store == Step(old(db.store), OpenPayment(pid, hash))
    {
      ghost var start := db.log;
      db.RoundTrip();
      PaysStill(db, start, id, pid, hash);
      if db.store.invoices[pid].status != InvoiceOpen {
        return NoLongerOpen;
      }
      var recorded := db.Write(OpenPayment(pid, hash));
      return if recorded then Recorded else UniqueClash;
    }

    /** Record the payment, or join the one already recorded for the same transaction. */
    method OpenOrJoinPayment(pid: Id, id: Id, hash: TxHash) returns (r: Option<InvoiceError>)
      requires db.Valid() && Pays(db.store, id, pid, hash)
      modifies db
      ensures db.Valid() && old(db.log) <= db.log
      ensures r.None? ==> pid in db.store.payments && db.store.payments[pid].transactionHash == hash
      ensures old(db.others) == [] && RowsMatch(old(db.store), OpenPayment(pid, hash)) ==>
                r.None? && db.others == [] && db.store == Step(old(db.store), OpenPayment(pid, hash))
      ensures r.Some? ==> r.value == HashReused || r.value == InvoiceNotOpen
      ensures r == Some(InvoiceNotOpen) ==> pid in db.store.invoices && db.store.invoices[pid].status != InvoiceOpen
      ensures r == Some(HashReused) ==> pid !in db.store.payments || db.store.payments[pid].transactionHash != hash
    {
      hide Step, Run;
      ghost var start := db.log;
      db.RoundTrip();
      PaysStill(db, start, id, pid, hash);
      if PaymentHashTaken(db.store, hash)
         && (pid !in db.store.payments || db.store.payments[pid].transactionHash != hash) {
        return Some(HashReused);
      }
      var outcome := RecordPayment(pid, id, hash);
      if outcome == NoLongerOpen {
        return Some(InvoiceNotOpen);
      }
      if outcome == UniqueClash {
        db.RoundTrip();
        if pid !in db.store.payments || db.store.payments[pid].transactionHash != hash {
          return Some(HashReused);
        }
      }
      ghost var mark := db.log;
      db.RoundTrip();
      PaymentStays(db, mark, pid, hash);
      return None;
    }

    /** What the verifier's answer does to the recorded payment. */
    method Conclude(pid: Id, id: Id, hash: TxHash, verdict: Verdict) returns (r: Option<InvoiceError>)
      requires db.Valid() && Wired()
      requires pid in db.store.payments && db.store.payments[pid].transactionHash == hash
      requires Pays(db.store, id, pid, hash) && Lower(hash) == hash
      modifies db
      ensures db.Valid() && old(db.log) <= db.log
      ensures r.None? ==> PaidBy(db.store, pid, hash)
      ensures old(db.others) == [] && CanResume(old(db.store), pid, id, hash, verdict)
              && (old(db.store).intents[id].status == Verifying || old(db.store).intents[id].status == Completed) ==>
                r.None? && db.store == Resumed(old(db.store), pid, id)
      ensures r.None? ==> verdict.Verified?
      ensures r == Some(VerificationPending) ==> verdict.TryAgain?
      ensures r == Some(VerificationRefused) ==> verdict.Refused?
      ensures old(db.others) == [] && IsRecorded(old(db.store), pid, id, hash) && IsAgainst(old(db.store), id, verdict)
              && old(db.store).invoices[pid].status == InvoiceVerifying ==>
                && r == Some(AnswerTo(verdict))
                && db.store == Tried(old(db.store), pid, hash, Doubted(verdict, StatusOf(old(db.store), pid)))
    {
      TriedAsIs(db.store, pid, id, hash);
      hide Step, Run, OnlyVerified;
      match verdict {
        case Verified(payer) =>
          r := Accept(pid, id, hash, payer);
        case TryAgain =>
          NoteDoubt(pid, id, hash, PaymentVerifying);
          return Some(VerificationPending);
        case Refused =>
          NoteDoubt(pid, id, hash, PaymentRejected);
          return Some(VerificationRefused);
      }
    }

    /** A verified transfer completes the intent if it agrees with it, and then settles the payment. */
    method Accept(pid: Id, id: Id, hash: TxHash, payer: Address) returns (r: Option<InvoiceError>)
      requires db.Valid() && Wired()
      requires pid in db.store.payments && db.store.payments[pid].transactionHash == hash
      requires Pays(db.store, id, pid, hash) && Lower(hash) == hash
      modifies db
      ensures db.Valid() && old(db.log) <= db.log
      ensures r.None? ==> PaidBy(db.store, pid, hash)
      ensures r != Some(VerificationPending) && r != Some(VerificationRefused)
      ensures old(db.others) == [] && CanResume(old(db.store), pid, id, hash, Verified(payer))
              && (old(db.store).intents[id].status == Verifying || old(db.store).intents[id].status == Completed) ==>
                r.None? && db.store == Resumed(old(db.store), pid, id)
      ensures old(db.others) == [] && IsStoredHash(hash) && payer != old(db.store).intents[id].request.sourceWallet ==>
                r == Some(IntentProblem(ReceiptMismatch)) && db.store == old(db.store)
    {
      hide Step, Run, OnlyVerified;
      ghost var start := db.log;
      RunKeeps(start);
      PayerIsKnown(db.store, pid, id);
      var evidence := EvidenceFor(db.store.invoices[pid], hash, payer);
      var done := intents.CompleteWithVerifiedReceipt(id, evidence);
      if done.Failure? {
        return Some(IntentProblem(done.error));
      }
      PaysStill(db, start, id, pid, hash);
      PaymentStays(db, start, pid, hash);
      Settle(pid, id, hash);
      r := None;
    }

    /** The guarded update of a payment that is not verified. */
    method NoteDoubt(pid: Id, id: Id, hash: TxHash, status: PaymentStatus)
      requires db.Valid() && (status == PaymentVerifying || status == PaymentRejected)
      modifies db
      ensures db.Valid() && old(db.log) <= db.log
      ensures old(db.others) == [] && IsRecorded(old(db.store), pid, id, hash)
              && old(db.store).invoices[pid].status == InvoiceVerifying ==>
                db.store == Tried(old(db.store), pid, hash, status)
    {
      RunKeeps(db.log);
      Noting(db.store, pid, id, hash);
      hide Step, Run, OnlyVerified, Inv, Tried;
      db.RoundTrip();
      var noted := db.Write(NotePayment(pid, hash, status));
    }

    /** The transaction that marks payment and invoice, and the later read for the returned view. */
    method Settle(pid: Id, id: Id, hash: TxHash)
      requires db.Valid()
      requires pid in db.store.payments && db.store.payments[pid].transactionHash == hash
      requires Pays(db.store, id, pid, hash) && db.store.intents[id].status == Completed
      modifies db
      ensures db.Valid() && old(db.log) <= db.log
      ensures PaidBy(db.store, pid, hash)
      ensures old(db.others) == [] ==> db.store == Resumed(old(db.store), pid, id)
    {
      hide Run, OnlyVerified, RowsOk, KeysUnique, HashesUnique, SettlementsOk, AttachmentsOk, PaymentsOk, TasksOk;
      ghost var start := db.log;
      db.RoundTrip();
      CompletedStill(db, start, id);
      PaysStill(db, start, id, pid, hash);
      PaymentStays(db, start, pid, hash);
      PayerIsKnown(db.store, pid, id);
      ghost var before := db.store;
      var settled := db.Write(SettlePayment(pid, hash));
      SettledIsResumed(before, pid, id, hash);
      ghost var mark := db.log;
      db.RoundTrip();
      PaidStays(db, mark, pid, hash);
    }

    /** Look up the intent that carries a transaction and check that it was made for this invoice. */
    method PayingIntent(pid: Id, hash: TxHash, invoice: Invoice) returns (r: Result<Id, InvoiceError>)
      requires db.Valid() && Wired() && Lower(hash) == hash
      requires pid in db.store.invoices && db.store.invoices[pid] == invoice
      modifies db
      ensures db.Valid() && old(db.log) <= db.log
      ensures r.Success? ==> Pays(db.store, r.value, pid, hash)
      ensures r.Failure? ==> r.error == BoundToAnotherOperation || r.error.IntentProblem?
      ensures old(db.others) == [] ==> db.others == [] && db.store == old(db.store)
      ensures old(db.others) == [] && IsTransactionHash(hash) ==>
                forall id :: Pays(old(db.store), id, pid, hash) ==> r == Success(id)
      ensures old(db.others) == [] && (!IsTransactionHash(hash) || !HashTaken(old(db.store), hash)) ==>
                r == Failure(IntentProblem(if IsTransactionHash(hash) then NotFound else HashConflict))
      ensures old(db.others) == [] && IsTransactionHash(hash) ==>
                forall id | id in old(db.store).intents && old(db.store).intents[id].transactionHash == Some(hash)
                            && !Pays(old(db.store), id, pid, hash) ::
                  r == Failure(BoundToAnotherOperation)
    {
      hide Step, Run, OnlyVerified;
      ghost var start := db.log;
      var found := intents.GetByTransactionHash(hash);
      if found.Failure? {
        return Failure(IntentProblem(found.error));
      }
      Since(db, start);
      assert InvoiceKept(Run(start), db.store, pid);
      forall id | id in db.store.intents && db.store.intents[id].transactionHash == Some(hash)
        ensures id == found.value.id
      {
        OneCarrier(db.store, id, found.value.id, hash);
      }
      var request := found.value.intent.request;
      if request.operation != invoice.ExpectedOperation() || request.externalReference != pid {
        return Failure(BoundToAnotherOperation);
      }
      return Success(found.value.id);
    }

    /** Verify a payment that someone reports for an invoice. */
    method VerifyPublicPayment(pid: Id, submittedHash: string, now: Time, verdict: Verdict)
      returns (r: Option<InvoiceError>)
      requires db.Valid() && Wired()
      modifies db
      ensures db.Valid() && old(db.log) <= db.log
      ensures r.None? ==>
                && pid in db.store.invoices && db.store.invoices[pid].status == InvoicePaid
                && pid in db.store.payments && db.store.payments[pid].transactionHash == Lower(submittedHash)
      ensures r == Some(VerificationPending) ==> verdict.TryAgain?
      ensures r == Some(VerificationRefused) ==> verdict.Refused?
      ensures old(db.others) == [] ==>
                forall id :: CanResume(old(db.store), pid, id, Lower(submittedHash), verdict) ==>
                               r.None? && db.store == Resumed(old(db.store), pid, id)
      ensures old(db.others) == [] ==>
                forall id :: CanOpen(old(db.store), pid, id, Lower(submittedHash), verdict, now) ==>
                               r.None? && db.store == FirstPaid(old(db.store), pid, id, Lower(submittedHash))
      ensures old(db.others) == [] && pid !in old(db.store).invoices ==>
                r == Some(InvoiceNotFound) && db.store == old(db.store)
      ensures old(db.others) == [] && pid in old(db.store).invoices
              && (!IsTransactionHash(Lower(submittedHash)) || !HashTaken(old(db.store), Lower(submittedHash))) ==>
                && db.store == old(db.store)
                && r == Some(IntentProblem(if IsTransactionHash(Lower(submittedHash)) then NotFound else HashConflict))
      ensures old(db.others) == [] && pid in old(db.store).invoices ==>
                forall id | id in old(db.store).intents
                            && old(db.store).intents[id].transactionHash == Some(Lower(submittedHash)) ::
                  var i, invoice, hash := old(db.store).intents[id], old(db.store).invoices[pid], Lower(submittedHash);
                  var begun := i.(status := if i.status == Completed then Completed else Verifying);
                  var recorded := pid in old(db.store).payments && old(db.store).payments[pid].transactionHash == hash;
                  var expired := invoice.status == InvoiceOpen && invoice.expiresAt.Some?
                                 && invoice.expiresAt.value <= now;
                  if i.request.externalReference != pid
                     || i.request.operation != (if invoice.kind == PaymentLink then PaymentLinkSettlement
                                                else InvoiceSettlement)
                  then r == Some(BoundToAnotherOperation) && db.store == old(db.store)
                  else if invoice.status == InvoicePaid && recorded then r.None? && db.store == old(db.store)
                  else if expired || !(invoice.status == InvoiceOpen || (invoice.status == InvoiceVerifying && recorded))
                  then
                    && r == Some(match invoice.status
                                 case InvoicePaid => AlreadyPaid
                                 case InvoiceCancelled => InvoiceWasCancelled
                                 case InvoiceVerifying => PaymentAlreadySubmitted
                                 case _ => InvoiceHasExpired)
                    && db.store.payments == old(db.store).payments
                    && pid in db.store.invoices
                    && db.store.invoices[pid] == (if expired then invoice.(status := InvoiceExpired) else invoice)
                    && db.store.intents == old(db.store).intents[id := begun]
                  else if verdict == Verified(i.request.sourceWallet) then
                    && r.None? && pid in db.store.invoices && db.store.invoices[pid] == invoice.(status := InvoicePaid)
                    && pid in db.store.payments && db.store.payments[pid] == Payment(hash, PaymentVerified)
                    && db.store.intents == old(db.store).intents[id := i.(status := Completed)]
                  else
                    && pid in db.store.invoices && db.store.invoices[pid] == invoice.(status := InvoiceVerifying)
                    && pid in db.store.payments && db.store.payments[pid].transactionHash == hash
                    && db.store.intents == old(db.store).intents[id := begun]
                    && match verdict
                       case TryAgain =>
                         r == Some(VerificationPending) && db.store.payments[pid].status == PaymentVerifying
                       case Refused =>
                         r == Some(VerificationRefused) && db.store.payments[pid].status == PaymentRejected
                       case Verified(_) =>
                         && r == Some(IntentProblem(ReceiptMismatch))
                         && db.store.payments[pid].status == if recorded then old(db.store).payments[pid].status
                                                             else PaymentVerifying
    {
      hide Step, Run, OnlyVerified;
      ghost var start := db.log;
      var hash := Lower(submittedHash);
      LowerTwice(submittedHash);
      CarriedHash(start, hash);
      db.RoundTrip();
      if pid !in db.store.invoices {
        return Some(InvoiceNotFound);
      }
      var seen := SnapshotOf(db.store, pid);
      ghost var mark := db.log;
      var payer := PayingIntent(pid, hash, seen.invoice);
      if payer.Failure? {
        assert old(db.others) == [] ==>
                 forall id | id in db.store.intents && db.store.intents[id].transactionHash == Some(hash) ::
                   !Pays(db.store, id, pid, hash);
        return Some(payer.error);
      }
      hide Resumed, FirstPaid;
      r := Verify(pid, payer.value, hash, now, verdict, seen, mark);
    }

    /** Start the verification and expire the invoice if it is time. */
    method Prepare(pid: Id, id: Id, hash: TxHash, now: Time) returns (r: Option<InvoiceError>)
      requires db.Valid() && Wired() && Pays(db.store, id, pid, hash)
      modifies db
      ensures db.Valid() && old(db.log) <= db.log && Pays(db.store, id, pid, hash)
      ensures r.Some? ==> r.value.IntentProblem?
      ensures r.None? ==> Progress(db.store.intents[id].status) >= 1
      ensures old(db.others) == [] ==>
                && r.None? && db.others == []
                && db.store == Step(WithIntent(old(db.store), id, VerificationStarted(old(db.store).intents[id])),
                                    ExpireInvoices({pid}, now))
    {
      ghost var start := db.log;
      var started := intents.BeginVerification(id);
      if started.Failure? {
        PaysStill(db, start, id, pid, hash);
        return Some(IntentProblem(started.error));
      }
      ghost var begun := db.log;
      PaysStill(db, start, id, pid, hash);
      ExpireOpenInvoices({pid}, now);
      PaysStill(db, start, id, pid, hash);
      StaysBegun(db, begun, id);
      return None;
    }

    /** The verification of the invoice's own intent. */
    method Verify(pid: Id, id: Id, hash: TxHash, now: Time, verdict: Verdict, seen: Snapshot, ghost mark: seq<Event>)
      returns (r: Option<InvoiceError>)
      requires db.Valid() && Wired() && Lower(hash) == hash
      requires mark <= db.log && pid in Run(mark).invoices && seen == SnapshotOf(Run(mark), pid)
      requires Pays(db.store, id, pid, hash)
      modifies db
      ensures db.Valid() && old(db.log) <= db.log
      ensures r.None? ==> PaidBy(db.store, pid, hash)
      ensures r == Some(VerificationPending) ==> verdict.TryAgain?
      ensures r == Some(VerificationRefused) ==> verdict.Refused?
      ensures old(db.others) == [] && CanResume(old(db.store), pid, id, hash, verdict)
              && seen == SnapshotOf(old(db.store), pid) ==>
                r.None? && db.store == Resumed(old(db.store), pid, id)
      ensures old(db.others) == [] && CanOpen(old(db.store), pid, id, hash, verdict, now)
              && seen == SnapshotOf(old(db.store), pid) ==>
                r.None? && db.store == FirstPaid(old(db.store), pid, id, hash)
      ensures old(db.others) == [] && seen == SnapshotOf(old(db.store), pid) ==>
                IsOutcome(old(db.store), db.store, pid, id, hash, now, verdict, r)
    {
      hide Step, Run, OnlyVerified;
      Bearings(db.log, pid, id, hash, now);
      r := Proceed(pid, id, hash, now, verdict, seen, mark);
    }

    /** Start the verification, then act on the snapshot. */
    method Proceed(pid: Id, id: Id, hash: TxHash, now: Time, verdict: Verdict, seen: Snapshot, ghost mark: seq<Event>)
      returns (r: Option<InvoiceError>)
      requires db.Valid() && Wired() && Lower(hash) == hash
      requires mark <= db.log && pid in Run(mark).invoices && seen == SnapshotOf(Run(mark), pid)
      requires Pays(db.store, id, pid, hash)
      modifies db
      ensures db.Valid() && old(db.log) <= db.log
      ensures r.None? ==> PaidBy(db.store, pid, hash)
      ensures r == Some(VerificationPending) ==> verdict.TryAgain?
      ensures r == Some(VerificationRefused) ==> verdict.Refused?
      ensures r.None? || !r.value.IntentProblem? ==> id in db.store.intents && Progress(db.store.intents[id].status) >= 1
      ensures old(db.others) == [] && CanResume(old(db.store), pid, id, hash, verdict)
              && seen == SnapshotOf(old(db.store), pid) ==>
                r.None? && db.store == Resumed(old(db.store), pid, id)
      ensures old(db.others) == [] && CanOpen(old(db.store), pid, id, hash, verdict, now)
              && seen == SnapshotOf(old(db.store), pid) ==>
                r.None? && db.store == FirstPaid(old(db.store), pid, id, hash)
      ensures old(db.others) == [] && CanTry(old(db.store), pid, id, hash, now) && IsAgainst(old(db.store), id, verdict)
              && seen == SnapshotOf(old(db.store), pid) ==>
                && r == Some(AnswerTo(verdict))
                && db.store == Tried(WithIntent(old(db.store), id, VerificationStarted(old(db.store).intents[id])),
                                     pid, hash, Doubted(verdict, StatusOf(old(db.store), pid)))
      ensures old(db.others) == [] && Refusal(seen, hash, now).Some? ==>
                && r == Refusal(seen, hash, now)
                && db.store == Step(WithIntent(old(db.store), id, VerificationStarted(old(db.store).intents[id])),
                                    ExpireInvoices({pid}, now))
      ensures old(db.others) == [] && IsRecorded(old(db.store), pid, id, hash) && seen == SnapshotOf(old(db.store), pid)
              && seen.invoice.status == InvoicePaid ==>
                r.None? && db.store == old(db.store)
    {
      hide Step, Run, OnlyVerified;
      ghost var start := db.log;
      ghost var before := db.store;
      r := Prepare(pid, id, hash, now);
      if r.Some? {
        return;
      }
      if old(db.others) == [] && IsRecorded(before, pid, id, hash) {
        RunKeeps(start);
        QuietStart(before, db.store, pid, id, hash, now);
        PayerIsKnown(before, pid, id);
        if before.invoices[pid].status == InvoicePaid {
          AlreadyResumed(before, pid, id, hash);
        }
      }
      if old(db.others) == [] && IsOpenable(before, pid, id, hash, now) {
        RunKeeps(start);
        QuietOpening(before, db.store, pid, id, hash, now);
      }
      ghost var begun := db.log;
      r := Decide(pid, id, hash, now, verdict, seen, mark);
      StaysBegun(db, begun, id);
    }

    /** What the snapshot taken at the start allows, and then the verification itself. */
    method Decide(pid: Id, id: Id, hash: TxHash, now: Time, verdict: Verdict, seen: Snapshot, ghost mark: seq<Event>)
      returns (r: Option<InvoiceError>)
      requires db.Valid() && Wired() && Lower(hash) == hash
      requires mark <= db.log && pid in Run(mark).invoices && seen == SnapshotOf(Run(mark), pid)
      requires Pays(db.store, id, pid, hash)
      modifies db
      ensures db.Valid() && old(db.log) <= db.log
      ensures r.None? ==> PaidBy(db.store, pid, hash)
      ensures old(db.others) == [] && CanResume(old(db.store), pid, id, hash, verdict)
              && seen == SnapshotOf(old(db.store), pid)
              && (old(db.store).intents[id].status == Verifying || old(db.store).intents[id].status == Completed) ==>
                r.None? && db.store == Resumed(old(db.store), pid, id)
      ensures old(db.others) == [] && CanOpen(old(db.store), pid, id, hash, verdict, now)
              && seen == SnapshotOf(old(db.store), pid)
              && (old(db.store).intents[id].status == Verifying || old(db.store).intents[id].status == Completed) ==>
                r.None? && db.store == FirstPaid(old(db.store), pid, id, hash)
      ensures r == Some(VerificationPending) ==> verdict.TryAgain?
      ensures r == Some(VerificationRefused) ==> verdict.Refused?
      ensures old(db.others) == [] && CanTry(old(db.store), pid, id, hash, now) && IsAgainst(old(db.store), id, verdict)
              && seen == SnapshotOf(old(db.store), pid) ==>
                && r == Some(AnswerTo(verdict))
                && db.store == Tried(old(db.store), pid, hash, Doubted(verdict, StatusOf(old(db.store), pid)))
      ensures old(db.others) == [] && seen.invoice.status == InvoicePaid
              && seen.payment == Some(Payment(hash, PaymentVerified)) ==>
                r.None? && db.store == old(db.store)
      ensures Refusal(seen, hash, now).Some? ==> r == Refusal(seen, hash, now) && db.store == old(db.store)
    {
      hide Step, Run, OnlyVerified;
      if seen.invoice.status == InvoicePaid && seen.payment == Some(Payment(hash, PaymentVerified)) {
        PaidStays(db, mark, pid, hash);
        if CanResume(db.store, pid, id, hash, verdict) {
          AlreadyResumed(db.store, pid, id, hash);
        }
        return None;
      }
      if seen.payment.Some? {
        SnapshotIsSound(mark, pid);
      }
      r := AcceptsPayment(seen.invoice, now);
      if r.Some? {
        return;
      }
      if seen.payment.Some? && seen.payment.value.transactionHash != hash {
        return Some(PaymentAlreadySubmitted);
      }
      r := Pay(pid, id, hash, now, verdict, seen, mark);
    }

    /** Record the payment, if the snapshot shows none, and conclude it. */
    method Pay(pid: Id, id: Id, hash: TxHash, now: Time, verdict: Verdict, seen: Snapshot, ghost mark: seq<Event>)
      returns (r: Option<InvoiceError>)
      requires db.Valid() && Wired() && Lower(hash) == hash
      requires mark <= db.log && pid in Run(mark).invoices && seen == SnapshotOf(Run(mark), pid)
      requires Pays(db.store, id, pid, hash) && (seen.payment.Some? ==> seen.payment.value.transactionHash == hash)
      modifies db
      ensures db.Valid() && old(db.log) <= db.log
      ensures r.None? ==> PaidBy(db.store, pid, hash)
      ensures r == Some(VerificationPending) ==> verdict.TryAgain?
      ensures r == Some(VerificationRefused) ==> verdict.Refused?
      ensures old(db.others) == [] && CanResume(old(db.store), pid, id, hash, verdict)
              && seen == SnapshotOf(old(db.store), pid)
              && (old(db.store).intents[id].status == Verifying || old(db.store).intents[id].status == Completed) ==>
                r.None? && db.store == Resumed(old(db.store), pid, id)
      ensures old(db.others) == [] && CanOpen(old(db.store), pid, id, hash, verdict, now)
              && seen == SnapshotOf(old(db.store), pid)
              && (old(db.store).intents[id].status == Verifying || old(db.store).intents[id].status == Completed) ==>
                r.None? && db.store == FirstPaid(old(db.store), pid, id, hash)
      ensures old(db.others) == [] && CanTry(old(db.store), pid, id, hash, now) && IsAgainst(old(db.store), id, verdict)
              && seen == SnapshotOf(old(db.store), pid) ==>
                && r == Some(AnswerTo(verdict))
                && db.store == Tried(old(db.store), pid, hash, Doubted(verdict, StatusOf(old(db.store), pid)))
    {
      hide Step, Run, OnlyVerified;
      ghost var start := db.log;
      if IsOpenable(db.store, pid, id, hash, now) {
        RunKeeps(start);
        OpeningFires(db.store, pid, id, hash);
        OpenedIsResumable(db.store, pid, id, hash, now);
      }
      if seen.payment.None? {
        r := OpenOrJoinPayment(pid, id, hash);
        if r.Some? {
          return;
        }
        PaysStill(db, start, id, pid, hash);
      } else {
        PaymentStays(db, mark, pid, hash);
      }
      hide Inv, Fires, Resumed, FirstPaid;
      r := Conclude(pid, id, hash, verdict);
    }
  }

  /** A hash that some intent carries has the shape of one, and no other intent carries it. */
  lemma CarriedHash(es: seq<Event>, hash: TxHash)
    ensures forall id | id in Run(es).intents && Run(es).intents[id].transactionHash == Some(hash) ::
              && IsStoredHash(hash) && HashTaken(Run(es), hash)
              && forall other | other in Run(es).intents && Run(es).intents[other].transactionHash == Some(hash) ::
                   other == id
  {
    RunKeeps(es);
    forall id | id in Run(es).intents && Run(es).intents[id].transactionHash == Some(hash)
      ensures IsStoredHash(hash)
    {
      assert RowAt(Run(es).intents, id);
    }
    forall id, other | id in Run(es).intents && Run(es).intents[id].transactionHash == Some(hash)
                       && other in Run(es).intents && Run(es).intents[other].transactionHash == Some(hash)
      ensures other == id
    {
      OneCarrier(Run(es), other, id, hash);
    }
  }

  /** What the invariant says about an invoice and the intent that was made for it and carries a hash. */
  lemma Bearings(es: seq<Event>, pid: Id, id: Id, hash: TxHash, now: Time)
    requires Pays(Run(es), id, pid, hash)
    ensures var s := Run(es);
            var i := s.intents[id];
            var begun := VerificationStarted(i);
            && IsStoredHash(hash)
            && begun == i.(status := if i.status == Completed then Completed else Verifying)
            && (pid in s.payments <==> s.invoices[pid].status == InvoiceVerifying || s.invoices[pid].status == InvoicePaid)
            && (pid in s.payments ==>
                  (s.payments[pid].status == PaymentVerified <==> s.invoices[pid].status == InvoicePaid))
            && var t := Step(WithIntent(s, id, begun), ExpireInvoices({pid}, now));
            && t.intents == s.intents[id := begun] && t.payments == s.payments && pid in t.invoices
            && t.invoices[pid] == if s.invoices[pid].status == InvoiceOpen && s.invoices[pid].HasExpired(now)
                                  then s.invoices[pid].(status := InvoiceExpired) else s.invoices[pid]
  {
    RunKeeps(es);
    var s := Run(es);
    hide Run;
    assert RowAt(s.intents, id) && SettlementAt(s, id) && PaymentAt(s, pid) && InvoiceAt(s, pid);
  }

  lemma TriedAsIs(s: Store, pid: Id, id: Id, hash: TxHash)
    ensures IsRecorded(s, pid, id, hash) && s.invoices[pid].status == InvoiceVerifying ==>
              Tried(s, pid, hash, s.payments[pid].status) == s
  {
    if IsRecorded(s, pid, id, hash) && s.invoices[pid].status == InvoiceVerifying {
      assert s.invoices[pid := s.invoices[pid].(status := InvoiceVerifying)] == s.invoices;
      assert s.payments[pid := s.payments[pid]] == s.payments;
    }
  }

  /** Noting a doubt on a recorded, unpaid payment changes its status and nothing else. */
  lemma Noting(s: Store, pid: Id, id: Id, hash: TxHash)
    requires Inv(s)
    ensures IsRecorded(s, pid, id, hash) && s.invoices[pid].status == InvoiceVerifying ==>
              forall status | status == PaymentVerifying || status == PaymentRejected ::
                Step(s, NotePayment(pid, hash, status)) == Tried(s, pid, hash, status)
  {
    if IsRecorded(s, pid, id, hash) && s.invoices[pid].status == InvoiceVerifying {
      PayerIsKnown(s, pid, id);
      assert s.invoices[pid := s.invoices[pid].(status := InvoiceVerifying)] == s.invoices;
    }
  }

  lemma CompletedStill(db: Database, mark: seq<Event>, id: Id)
    requires db.Valid() && mark <= db.log && id in Run(mark).intents && Run(mark).intents[id].status == Completed
    ensures id in db.store.intents && db.store.intents[id].status == Completed && Inv(db.store)
  {
    Since(db, mark);
    assert IntentKept(Run(mark), db.store, id);
  }

  /** Settling the payment of a completed intent finishes the invoice. */
  lemma SettledIsResumed(s: Store, pid: Id, id: Id, hash: TxHash)
    requires Inv(s) && pid in s.payments && s.payments[pid].transactionHash == hash
    requires Pays(s, id, pid, hash) && s.intents[id].status == Completed
    ensures Step(s, SettlePayment(pid, hash)) == Resumed(s, pid, id)
    ensures PaidBy(Resumed(s, pid, id), pid, hash)
  {
    PayerIsKnown(s, pid, id);
    assert s.intents[id := s.intents[id]] == s.intents;
    if s.invoices[pid].status == InvoicePaid {
      assert s.invoices[pid := s.invoices[pid]] == s.invoices;
    }
  }

  lemma PaidStays(db: Database, mark: seq<Event>, pid: Id, hash: TxHash)
    requires db.Valid() && mark <= db.log && PaidBy(Run(mark), pid, hash)
    ensures PaidBy(db.store, pid, hash) && Inv(db.store)
  {
    Since(db, mark);
    assert InvoiceKept(Run(mark), db.store, pid) && PaymentKept(Run(mark), db.store, pid);
  }

  /** An intent that carries a hash never falls behind the start of its verification. */
  lemma StaysBegun(db: Database, mark: seq<Event>, id: Id)
    requires db.Valid() && mark <= db.log && id in Run(mark).intents && Progress(Run(mark).intents[id].status) >= 1
    requires Run(mark).intents[id].transactionHash.Some?
    ensures id in db.store.intents && Progress(db.store.intents[id].status) >= 1
  {
    Since(db, mark);
    assert IntentKept(Run(mark), db.store, id);
  }

  lemma PaymentStays(db: Database, mark: seq<Event>, pid: Id, hash: TxHash)
    requires db.Valid() && mark <= db.log && pid in Run(mark).payments
    requires Run(mark).payments[pid].transactionHash == hash
    ensures pid in db.store.payments && db.store.payments[pid].transactionHash == hash
  {
    Since(db, mark);
    assert PaymentKept(Run(mark), db.store, pid);
  }

  lemma SnapshotIsSound(mark: seq<Event>, pid: Id)
    requires pid in Run(mark).payments
    ensures pid in Run(mark).invoices
    ensures Run(mark).invoices[pid].status == InvoiceVerifying || Run(mark).invoices[pid].status == InvoicePaid
    ensures Run(mark).payments[pid].status == PaymentVerified <==> Run(mark).invoices[pid].status == InvoicePaid
  {
    RunKeeps(mark);
    assert PaymentAt(Run(mark), pid);
  }

  lemma PaysStill(db: Database, mark: seq<Event>, id: Id, pid: Id, hash: TxHash)
    requires db.Valid() && mark <= db.log && Pays(Run(mark), id, pid, hash)
    ensures Pays(db.store, id, pid, hash)
  {
    Since(db, mark);
    assert IntentKept(Run(mark), db.store, id) && InvoiceKept(Run(mark), db.store, pid);
  }
}

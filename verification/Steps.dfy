/**
 Every atomic database write the services perform, as one transition system.

 A write happens when two things hold. `RowsMatch` is what the database itself tests: the
 WHERE clause of a guarded update, or a unique index. `Justified` is what the request has
 established before it writes; the service classes prove it at each of their writes.
 A run is any sequence of such writes, in any order, from any number of requests.
 */
module Steps {
  import opened Wrappers
  import opened Text
  import opened Rows
  import opened BatchReferences

  datatype PlannedUnit = PlannedUnit(reference: string, intentId: Id)

  datatype Event =
    | InsertIntent(id: Id, request: Request, now: Time)
    | Advance(id: Id, from: IntentStatus, to: IntentStatus)
    | OpenWallet(id: Id, from: IntentStatus)
    | Complete(id: Id, receipt: Receipt)
    | FailFinal(id: Id)
    | Lease(id: Id, owner: string, now: Time, ttl: nat)
    | BindHash(id: Id, hash: TxHash)
    | CancelIntent(id: Id)
    | AttachTask(id: Id, task: Id)
    | InsertInvoice(publicId: Id, invoice: Invoice)
    | ExpireInvoices(scope: set<Id>, now: Time)
    | CancelInvoice(publicId: Id, merchantUserId: string)
    | OpenPayment(publicId: Id, hash: TxHash)
    | NotePayment(publicId: Id, hash: TxHash, verdict: PaymentStatus)
    | SettlePayment(publicId: Id, hash: TxHash)
    | InsertTask(task: Id, plan: seq<PlannedUnit>)
    | ReportUnit(task: Id, index: nat, result: UnitStatus, txHash: HashUpdate)
    | NoteUnit(task: Id, index: nat, status: IntentStatus)

  /** The plain transitions that some caller requests. */
  predicate IsCalledTransition(from: IntentStatus, to: IntentStatus) {
    || (from == Created && to == SubmissionPending)
    || (from == AuthorizationPending && to == Submitted)
    || (from == SubmissionPending && to == Submitted)
    || (from == Submitted && to == Verifying)
    || (from == FailedRetryable && to == Verifying)
  }

  predicate HashTaken(s: Store, hash: TxHash) {
    exists id :: id in s.intents && s.intents[id].transactionHash == Some(hash)
  }

  predicate KeyTaken(s: Store, key: LogicalKey) {
    exists id :: id in s.intents && s.intents[id].request.LogicalKey() == key
  }

  predicate PaymentHashTaken(s: Store, hash: TxHash) {
    exists p :: p in s.payments && s.payments[p].transactionHash == hash
  }

  /** The intent that settles an invoice with this transaction. */
  predicate Pays(s: Store, id: Id, publicId: Id, hash: TxHash) {
    && id in s.intents
    && publicId in s.invoices
    && s.intents[id].transactionHash == Some(hash)
    && s.intents[id].request.operation == s.invoices[publicId].ExpectedOperation()
    && s.intents[id].request.externalReference == publicId
  }

  /** Two payroll intents of the same owner and wallet. */
  predicate SamePayroll(a: Request, b: Request) {
    && a.operation == Payroll
    && b.operation == Payroll
    && a.ownerId == b.ownerId
    && a.sourceWallet == b.sourceWallet
  }

  predicate SettlementAllowed(s: Store, request: Request, now: Time) {
    var pid := request.externalReference;
    && pid in s.invoices
    && s.invoices[pid].status == InvoiceOpen
    && !s.invoices[pid].HasExpired(now)
    && s.invoices[pid].AgreesWith(request)
  }

  /** The completed intent of a unit carries the reported transaction. */
  predicate UnitSettled(s: Store, unit: Unit, txHash: Option<string>) {
    && unit.intentId in s.intents
    && s.intents[unit.intentId].status == Completed
    && txHash.Some?
    && s.intents[unit.intentId].transactionHash == Some(Lower(txHash.value))
  }

  predicate Justified(s: Store, e: Event) {
    match e
    case Advance(_, from, to) => IsCalledTransition(from, to)
    case OpenWallet(_, from) => from == Created || from == FailedRetryable
    case Complete(id, receipt) =>
      && id in s.intents
      && s.intents[id].transactionHash == Some(Lower(receipt.transactionHash))
      && ReceiptMatches(s.intents[id].request, receipt)
    case BindHash(_, hash) => IsStoredHash(hash)
    case FailFinal(id) =>
      && id in s.intents
      && s.intents[id].transactionHash.Some?
      && s.intents[id].request.operation == Payroll
    case AttachTask(id, task) =>
      && id in s.intents
      && task in s.tasks
      && task in s.intents
      && SamePayroll(s.intents[id].request, s.intents[task].request)
    case InsertInvoice(_, invoice) => invoice.status == InvoiceOpen
    case OpenPayment(pid, hash) => exists id :: id in s.intents && Pays(s, id, pid, hash)
    case NotePayment(_, _, verdict) => verdict == PaymentVerifying || verdict == PaymentRejected
    case SettlePayment(pid, hash) =>
      && pid in s.payments
      && s.payments[pid].transactionHash == hash
      && exists id :: id in s.intents && Pays(s, id, pid, hash) && s.intents[id].status == Completed
    case InsertTask(task, plan) =>
      && task in s.intents
      && plan != []
      && plan[0].intentId == task
      && (forall k | 0 <= k < |plan| :: plan[k].reference == BatchReference(plan[0].reference, k))
      && forall k | 0 <= k < |plan| :: PlanHolds(s, task, plan[k])
    case ReportUnit(task, index, result, txHash) =>
      && task in s.tasks
      && index < |s.tasks[task].units|
      && (result == UnitSuccess ==> txHash.SetHash? && UnitSettled(s, s.tasks[task].units[index], txHash.value))
    case _ => true
  }

  predicate PlanHolds(s: Store, task: Id, planned: PlannedUnit) {
    && planned.intentId in s.intents
    && task in s.intents
    && SamePayroll(s.intents[planned.intentId].request, s.intents[task].request)
    && s.intents[planned.intentId].request.externalReference == planned.reference
  }

  predicate RowsMatch(s: Store, e: Event) {
    match e
    case InsertIntent(id, request, now) =>
      && id !in s.intents
      && !KeyTaken(s, request.LogicalKey())
      && (request.operation.IsSettlement() ==> SettlementAllowed(s, request, now))
    case Advance(id, from, _) => id in s.intents && s.intents[id].status == from
    case OpenWallet(id, from) => id in s.intents && s.intents[id].status == from
    case Complete(id, _) => id in s.intents && s.intents[id].status == Verifying
    case FailFinal(id) => id in s.intents && s.intents[id].status == Verifying
    case Lease(id, _, now, _) => id in s.intents && LeaseIsFree(s.intents[id], now)
    case BindHash(id, hash) =>
      id in s.intents && s.intents[id].transactionHash.None? && !HashTaken(s, hash)
    case CancelIntent(id) => id in s.intents && s.intents[id].transactionHash.None?
    case AttachTask(id, _) => id in s.intents && s.intents[id].taskId.None?
    case InsertInvoice(pid, _) => pid !in s.invoices
    case ExpireInvoices(_, _) => true
    case CancelInvoice(pid, merchantUserId) =>
      pid in s.invoices && s.invoices[pid].merchantUserId == merchantUserId && s.invoices[pid].status == InvoiceOpen
    case OpenPayment(pid, hash) =>
      && pid in s.invoices
      && s.invoices[pid].status == InvoiceOpen
      && pid !in s.payments
      && !PaymentHashTaken(s, hash)
    case NotePayment(pid, hash, _) => PaymentIsUnverified(s, pid, hash)
    case SettlePayment(_, _) => true
    case InsertTask(task, _) => task !in s.tasks
    case ReportUnit(task, index, _, _) =>
      task in s.tasks && index < |s.tasks[task].units| && s.tasks[task].units[index].status == UnitPending
    case NoteUnit(task, index, _) => task in s.tasks && index < |s.tasks[task].units|
  }

  predicate LeaseIsFree(i: Intent, now: Time) {
    && !i.status.IsTerminal()
    && (i.leaseOwner.None? || i.leaseExpiresAt.None? || i.leaseExpiresAt.value <= now)
  }

  predicate PaymentIsUnverified(s: Store, pid: Id, hash: TxHash) {
    pid in s.payments && s.payments[pid].transactionHash == hash && s.payments[pid].status != PaymentVerified
  }

  function WithIntent(s: Store, id: Id, i: Intent): Store {
    s.(intents := s.intents[id := i])
  }

  function WithInvoice(s: Store, pid: Id, invoice: Invoice): Store {
    s.(invoices := s.invoices[pid := invoice])
  }

  function ExpireInvoice(scope: set<Id>, now: Time, pid: Id, invoice: Invoice): Invoice {
    if pid in scope && invoice.status == InvoiceOpen && invoice.HasExpired(now)
    then invoice.(status := InvoiceExpired)
    else invoice
  }

  function Planned(plan: seq<PlannedUnit>): (units: seq<Unit>)
    ensures |units| == |plan|
    ensures forall k | 0 <= k < |plan| ::
              units[k] == Unit(plan[k].reference, plan[k].intentId, UnitPending, None, None)
  {
    seq(|plan|, k requires 0 <= k < |plan| => Unit(plan[k].reference, plan[k].intentId, UnitPending, None, None))
  }

  /** The task after one pending unit has been reported: unit, counter and status change together. */
  function ReportedTask(t: Task, index: nat, result: UnitStatus, txHash: HashUpdate): Task
    requires index < |t.units|
  {
    var completed := if result == UnitSuccess then t.completedUnits + 1 else t.completedUnits;
    var failed := if result == UnitFailed then t.failedUnits + 1 else t.failedUnits;
    Task(RecomputeTaskStatus(t.totalUnits, completed, failed), t.totalUnits, completed, failed,
         t.units[index := t.units[index].(status := result, txHash := txHash.Over(t.units[index].txHash))])
  }

  function Effect(s: Store, e: Event): Store
    requires Justified(s, e) && RowsMatch(s, e)
  {
    match e
    case InsertIntent(id, request, _) => WithIntent(s, id, NewIntent(request))
    case Advance(id, _, to) => WithIntent(s, id, s.intents[id].(status := to))
    case OpenWallet(id, _) => WithIntent(s, id, s.intents[id].(status := AwaitingWalletSignature))
    case Complete(id, _) => WithIntent(s, id, s.intents[id].(status := Completed))
    case FailFinal(id) => WithIntent(s, id, s.intents[id].(status := FailedFinal))
    case Lease(id, owner, now, ttl) =>
      WithIntent(s, id, s.intents[id].(
                 leaseOwner := Some(owner), leaseExpiresAt := Some(now + ttl),
                 attemptCount := s.intents[id].attemptCount + 1))
    case BindHash(id, hash) =>
      WithIntent(s, id, s.intents[id].(
                 transactionHash := Some(hash), status := Submitted,
                 leaseOwner := None, leaseExpiresAt := None))
    case CancelIntent(id) =>
      WithIntent(s, id, s.intents[id].(status := Cancelled, leaseOwner := None, leaseExpiresAt := None))
    case AttachTask(id, task) => WithIntent(s, id, s.intents[id].(taskId := Some(task)))
    case InsertInvoice(pid, invoice) => WithInvoice(s, pid, invoice)
    case ExpireInvoices(scope, now) =>
      s.(invoices := map pid | pid in s.invoices :: ExpireInvoice(scope, now, pid, s.invoices[pid]))
    case CancelInvoice(pid, _) => WithInvoice(s, pid, s.invoices[pid].(status := InvoiceCancelled))
    case OpenPayment(pid, hash) =>
      s.(invoices := s.invoices[pid := s.invoices[pid].(status := InvoiceVerifying)],
         payments := s.payments[pid := Payment(hash, PaymentVerifying)])
    case NotePayment(pid, _, verdict) =>
      s.(payments := s.payments[pid := s.payments[pid].(status := verdict)])
    case SettlePayment(pid, hash) => Settled(s, pid)
    case InsertTask(task, plan) =>
      s.(tasks := s.tasks[task := Task(Assigned, |plan|, 0, 0, Planned(plan))])
    case ReportUnit(task, index, result, txHash) =>
      s.(tasks := s.tasks[task := ReportedTask(s.tasks[task], index, result, txHash)])
    case NoteUnit(task, index, status) =>
      var t := s.tasks[task];
      s.(tasks := s.tasks[task := t.(units := t.units[index := t.units[index].(notedStatus := Some(status))])])
  }

  /** Two guarded updates in one transaction; each applies only where its own guard holds. */
  function Settled(s: Store, pid: Id): Store
    requires pid in s.payments
  {
    var paid := s.(payments := s.payments[pid := s.payments[pid].(status := PaymentVerified)]);
    if pid in s.invoices && s.invoices[pid].status == InvoiceVerifying
    then WithInvoice(paid, pid, s.invoices[pid].(status := InvoicePaid))
    else paid
  }

  predicate Fires(s: Store, e: Event) {
    Justified(s, e) && RowsMatch(s, e)
  }

  function Step(s: Store, e: Event): Store {
    if Fires(s, e) then Effect(s, e) else s
  }

  function EmptyStore(): Store {
    Store(map[], map[], map[], map[])
  }

  function Run(es: seq<Event>): Store {
    if es == [] then EmptyStore() else Step(Run(es[..|es| - 1]), es[|es| - 1])
  }

  /** How often a run has opened the wallet for one logical payment. */
  ghost function Prompts(es: seq<Event>, key: LogicalKey): nat {
    if es == [] then 0
    else
      var before := es[..|es| - 1];
      var e := es[|es| - 1];
      Prompts(before, key) +
      if e.OpenWallet? && Fires(Run(before), e) && Run(before).intents[e.id].request.LogicalKey() == key
      then 1 else 0
  }
}

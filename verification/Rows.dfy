/**
 The database rows that the execution-intent, invoice and payroll services share.
 Addresses are numbers, so checksum case plays no part; sha256 digests are represented
 by the value that was digested, which makes every digest injective.
 */
module Rows {
  import opened Wrappers
  import opened Text

  type Address = nat
  type Id = string
  type TxHash = string
  type Time = int

  datatype Operation = Send | Payroll | TokenApproval | InvoiceSettlement | PaymentLinkSettlement {
    predicate IsSettlement() {
      InvoiceSettlement? || PaymentLinkSettlement?
    }
  }

  datatype BatchEntry = BatchEntry(recipient: Address, token: Address, amountUnits: nat)

  /** A batch digest: the digest of a payroll batch, or a text that is the digest of none. */
  datatype Digest = OfBatch(entries: seq<BatchEntry>) | OtherText(text: string)

  /** The columns of an execution intent that are bound when the row is created. */
  datatype Request = Request(
    operation: Operation,
    ownerId: Option<string>,
    sourceWallet: Address,
    recipient: Option<Address>,
    batchDigest: Option<Digest>,
    tokenIn: Address,
    tokenOut: Address,
    amountUnits: nat,
    externalReference: string)
  {
    /** What identifies one logical payment. A settlement is identified without its payer. */
    function LogicalKey(): LogicalKey {
      if operation.IsSettlement()
      then PaymentKey(operation, None, externalReference)
      else PaymentKey(operation, Some((ownerId, sourceWallet)), externalReference)
    }
  }

  datatype LogicalKey = PaymentKey(
    operation: Operation,
    payer: Option<(Option<string>, Address)>,
    externalReference: string)

  datatype IntentStatus =
    | Created
    | AwaitingWalletSignature
    | AuthorizationPending
    | SubmissionPending
    | Submitted
    | Verifying
    | Completed
    | FailedRetryable
    | FailedFinal
    | Expired
    | Cancelled
  {
    predicate IsTerminal() {
      Completed? || FailedFinal? || Expired? || Cancelled?
    }
  }

  datatype Intent = Intent(
    request: Request,
    status: IntentStatus,
    transactionHash: Option<TxHash>,
    taskId: Option<Id>,
    leaseOwner: Option<string>,
    leaseExpiresAt: Option<Time>,
    attemptCount: nat)

  function NewIntent(request: Request): Intent {
    Intent(request, Created, None, None, None, None, 0)
  }

  /** What a verifier reports about a transaction it has read from the chain. */
  datatype Receipt = Receipt(
    transactionHash: TxHash,
    sourceWallet: Address,
    token: Address,
    recipient: Option<Address>,
    batchDigest: Option<Digest>,
    amountUnits: nat)

  /** The immutable columns agree with a verified receipt. */
  predicate ReceiptMatches(request: Request, receipt: Receipt) {
    && request.sourceWallet == receipt.sourceWallet
    && request.tokenOut == receipt.token
    && request.amountUnits == receipt.amountUnits
    && (if request.recipient.Some? then request.recipient == receipt.recipient
        else request.batchDigest.Some? && request.batchDigest == receipt.batchDigest)
  }

  datatype InvoiceStatus = InvoiceOpen | InvoiceVerifying | InvoicePaid | InvoiceExpired | InvoiceCancelled

  datatype SettlementKind = PlainInvoice | PaymentLink

  datatype Invoice = Invoice(
    merchantUserId: string,
    kind: SettlementKind,
    merchant: Address,
    token: Address,
    amountUnits: nat,
    expiresAt: Option<Time>,
    status: InvoiceStatus)
  {
    function ExpectedOperation(): Operation {
      if kind.PaymentLink? then PaymentLinkSettlement else InvoiceSettlement
    }

    predicate HasExpired(now: Time) {
      expiresAt.Some? && expiresAt.value <= now
    }

    /** A settlement request that asks for exactly what this invoice is owed. */
    predicate AgreesWith(request: Request) {
      && request.operation == ExpectedOperation()
      && request.recipient == Some(merchant)
      && request.tokenOut == token
      && request.amountUnits == amountUnits
    }
  }

  datatype PaymentStatus = PaymentSubmitted | PaymentVerifying | PaymentVerified | PaymentRejected

  datatype Payment = Payment(transactionHash: TxHash, status: PaymentStatus)

  /** The column holds any text; three of them mean something. */
  datatype UnitStatus = UnitPending | UnitSuccess | UnitFailed | UnitOther(text: string)

  /** An update may leave the hash column as it is, or set it, also to nothing. */
  datatype HashUpdate = KeepHash | SetHash(value: Option<string>) {
    function Over(current: Option<string>): Option<string> {
      if SetHash? then value else current
    }
  }

  /** One payroll batch of a task. Units are addressed by their index, which is unique in a task. */
  datatype Unit = Unit(
    reference: string,
    intentId: Id,
    status: UnitStatus,
    txHash: Option<TxHash>,
    notedStatus: Option<IntentStatus>)

  datatype TaskStatus = Assigned | InProgress | Review | Executed

  datatype Task = Task(
    status: TaskStatus,
    totalUnits: nat,
    completedUnits: nat,
    failedUnits: nat,
    units: seq<Unit>)

  function CountUnits(units: seq<Unit>, status: UnitStatus): (n: nat)
    ensures n <= |units|
  {
    if units == [] then 0
    else CountUnits(units[..|units| - 1], status) + if units[|units| - 1].status == status then 1 else 0
  }

  /** The next task status, derived from the counters alone. */
  function RecomputeTaskStatus(total: nat, completed: nat, failed: nat): TaskStatus {
    if failed > 0 then Review
    else if total > 0 && completed == total then Executed
    else InProgress
  }

  /** The tables. An invoice's payment is keyed by the invoice it belongs to. */
  datatype Store = Store(
    intents: map<Id, Intent>,
    invoices: map<Id, Invoice>,
    payments: map<Id, Payment>,
    tasks: map<Id, Task>)
}

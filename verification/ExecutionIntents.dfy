/**
 The execution-intent service: what identifies an intent, and the operations clients run on
 it, each under interference from every other request.
 */
module ExecutionIntents {
  import opened Wrappers
  import opened Text
  import opened Rows
  import opened Steps
  import opened Invariants
  import opened Guarantees
  import opened Databases

  datatype Error =
    | ImmutableConflict
    | InvalidTransition
    | ActiveLease
    | Terminal
    | HashConflict
    | ReceiptMismatch
    | NotFound
    | BusinessState
    | RouteUnavailable
    | DatabaseFailure

  datatype BindOutcome = Bound | LostRace | UsedElsewhere

  datatype IntentRow = IntentRow(id: Id, intent: Intent)

  type Answer = Result<IntentRow, Error>

  datatype AcquireInput = AcquireInput(
    operation: Operation,
    ownerId: Option<string>,
    sourceWallet: Address,
    recipient: Option<Address>,
    batchDigest: Option<Digest>,
    tokenIn: Address,
    tokenOut: Address,
    amountUnits: int,
    externalReference: string)

  const MAX_REFERENCE_LENGTH := 160

  function TrimmedOrNone(s: Option<string>): Option<string> {
    if s.Some? && Trim(s.value) != "" then Some(Trim(s.value)) else None
  }

  function CanonicalDigest(d: Option<Digest>): Option<Digest> {
    match d
    case Some(OtherText(t)) => if Trim(t) == "" then None else Some(OtherText(Lower(Trim(t))))
    case _ => d
  }

  function Canonicalize(input: AcquireInput, routable: bool): (r: Result<Request, Error>)
  {
    var reference := Trim(input.externalReference);
    if input.amountUnits <= 0 then Failure(ImmutableConflict)
    else if reference == "" || |reference| > MAX_REFERENCE_LENGTH then Failure(ImmutableConflict)
    else if input.recipient.None? && (input.batchDigest.None? || input.batchDigest == Some(OtherText("")))
    then Failure(ImmutableConflict)
    else if !routable then Failure(RouteUnavailable)
    else Success(Request(input.operation, TrimmedOrNone(input.ownerId), input.sourceWallet, input.recipient,
                         CanonicalDigest(input.batchDigest), input.tokenIn, input.tokenOut,
                         input.amountUnits, reference))
  }

  /** An exact positive amount, a reference of at most 160 characters, and a recipient or a digest. */
  ghost predicate IsUsable(input: AcquireInput) {
    && input.amountUnits > 0
    && 0 < |Trim(input.externalReference)| <= 160
    && (input.recipient.Some? || (input.batchDigest.Some? && input.batchDigest != Some(OtherText(""))))
  }

  /** What an intent is bound to for such an input: its own columns, texts trimmed and empty ones dropped. */
  ghost function AsRequest(input: AcquireInput): Request
    requires IsUsable(input)
  {
    var owner := if input.ownerId.Some? && Trim(input.ownerId.value) != "" then Some(Trim(input.ownerId.value)) else None;
    var digest :=
      if input.batchDigest.Some? && input.batchDigest.value.OtherText? then
        var text := Trim(input.batchDigest.value.text);
        if text == "" then None else Some(OtherText(Lower(text)))
      else input.batchDigest;
    Request(input.operation, owner, input.sourceWallet, input.recipient, digest, input.tokenIn, input.tokenOut,
            input.amountUnits, Trim(input.externalReference))
  }

  lemma RequestColumns(input: AcquireInput)
    requires IsUsable(input)
    ensures var bound := AsRequest(input);
            && bound.operation == input.operation && bound.sourceWallet == input.sourceWallet
            && bound.ownerId == (if input.ownerId.Some? && Trim(input.ownerId.value) != ""
                                 then Some(Trim(input.ownerId.value)) else None)
            && bound.recipient == input.recipient
            && bound.batchDigest == (match input.batchDigest
                                     case Some(OtherText(text)) =>
                                       if Trim(text) == "" then None else Some(OtherText(Lower(Trim(text))))
                                     case other => other)
            && bound.tokenIn == input.tokenIn && bound.tokenOut == input.tokenOut
            && bound.amountUnits == input.amountUnits && bound.externalReference == Trim(input.externalReference)
  {}

  lemma CanonicalColumns(input: AcquireInput, routable: bool)
    ensures Canonicalize(input, routable)
         == if !IsUsable(input) then Failure(ImmutableConflict)
            else if !routable then Failure(RouteUnavailable)
            else Success(AsRequest(input))
  {}

  /** The access key is a digest of the bound request, so the request stands for it. */
  type IdempotencyKey = Request

  const MIN_LEASE_MS := 1_000
  const MAX_LEASE_MS := 15 * 60_000

  /** The declared transition table. */
  function Transitions(from: IntentStatus): set<IntentStatus> {
    match from
    case Created =>
      {AwaitingWalletSignature, AuthorizationPending, SubmissionPending, FailedFinal, Expired, Cancelled}
    case AwaitingWalletSignature => {Submitted, FailedRetryable, FailedFinal, Cancelled}
    case AuthorizationPending => {SubmissionPending, Submitted, FailedRetryable, FailedFinal, Expired}
    case SubmissionPending => {Submitted, FailedRetryable, FailedFinal, Expired}
    case Submitted => {Verifying, FailedRetryable, FailedFinal}
    case Verifying => {Completed, FailedRetryable, FailedFinal}
    case FailedRetryable =>
      {AwaitingWalletSignature, AuthorizationPending, SubmissionPending, Submitted, Verifying, FailedFinal, Expired}
    case _ => {}
  }

  predicate IsTransition(e: Event) {
    e.Advance? || e.OpenWallet? || e.Complete? || e.FailFinal?
  }

  function Expected(e: Event): IntentStatus
    requires IsTransition(e)
  {
    match e
    case Advance(_, from, _) => from
    case OpenWallet(_, from) => from
    case _ => Verifying
  }

  function Next(e: Event): IntentStatus
    requires IsTransition(e)
  {
    match e
    case Advance(_, _, to) => to
    case OpenWallet(_, _) => AwaitingWalletSignature
    case Complete(_, _) => Completed
    case _ => FailedFinal
  }

  /** What an attempt at the acquiring transaction may meet in the database. */
  datatype Attempt = Attempt(freshId: Id, now: Time, conflicts: bool, breaks: bool)

  /** Attempt k is the first that meets no concurrent request, and none before it broke down. */
  ghost predicate IsFirstClean(attempts: seq<Attempt>, k: int) {
    && 0 <= k < |attempts| && !attempts[k].conflicts
    && forall j | 0 <= j <= k :: !attempts[j].breaks && (j < k ==> attempts[j].conflicts)
  }

  /** What a clean attempt leaves: the request's own new row, or the row that the payment had before. */
  ghost predicate Concluded(s: Store, t: Store, found: IntentRow, request: Request, oracle: Attempt) {
    && t == Step(s, InsertIntent(oracle.freshId, request, oracle.now))
    && (Creatable(s, request, oracle.now) ==> found.intent.request == request)
    && (!Creatable(s, request, oracle.now) ==> found.id in s.intents && t == s)
  }

  /** A write that stays justified however much other requests do first. */
  ghost predicate StaysJustified(now: Store, e: Event) {
    forall s :: Later(now, s) && Inv(s) ==> Justified(s, e)
  }

  lemma CompletionStaysJustified(now: Store, id: Id, receipt: Receipt)
    requires Justified(now, Complete(id, receipt))
    ensures StaysJustified(now, Complete(id, receipt))
  {
    forall s | Later(now, s) ensures Justified(s, Complete(id, receipt)) { assert IntentKept(now, s, id); }
  }

  lemma OpeningStaysJustified(now: Store, id: Id, from: IntentStatus)
    requires from == Created || from == FailedRetryable
    ensures StaysJustified(now, OpenWallet(id, from))
  {}

  lemma FailureStaysJustified(now: Store, id: Id)
    requires Justified(now, FailFinal(id))
    ensures StaysJustified(now, FailFinal(id))
  {
    forall s | Later(now, s) ensures Justified(s, FailFinal(id)) { assert IntentKept(now, s, id); }
  }

  function SubmissionAssumed(i: Intent): Intent {
    if i.status == Created || i.status == SubmissionPending || i.status == AuthorizationPending
    then i.(status := Submitted)
    else i
  }

  function VerificationBegun(i: Intent): Intent {
    if i.status == Submitted || i.status == FailedRetryable then i.(status := Verifying) else i
  }

  /** The row an uninterrupted verification start leads to. */
  function VerificationStarted(i: Intent): Intent {
    if i.status == Completed || i.status == Verifying then i else VerificationBegun(SubmissionAssumed(i))
  }

  lemma {:induction false} PromptsOnlyGrow(es: seq<Event>, fs: seq<Event>, key: LogicalKey)
    requires es <= fs
    ensures Prompts(es, key) <= Prompts(fs, key)
    decreases |fs|
  {
    if |es| < |fs| {
      PromptsOnlyGrow(es, fs[..|fs| - 1], key);
    } else {
      assert es == fs;
    }
  }

  // ---- When an undisturbed request succeeds ---------------------------------------------

  predicate LeaseAllowed(s: Store, id: Id, owner: string, ttl: int, now: Time) {
    && Trim(owner) != "" && MIN_LEASE_MS <= ttl <= MAX_LEASE_MS
    && id in s.intents && LeaseIsFree(s.intents[id], now)
  }

  predicate Openable(s: Store, id: Id, key: IdempotencyKey) {
    && id in s.intents
    && s.intents[id].request == key
    && s.intents[id].transactionHash.None?
    && (s.intents[id].status == Created || s.intents[id].status == FailedRetryable)
  }

  function Leased(s: Store, id: Id, owner: string, ttl: nat, now: Time): Store
    requires id in s.intents
  {
    var i := s.intents[id];
    WithIntent(s, id, i.(leaseOwner := Some(owner), leaseExpiresAt := Some(now + ttl),
                         attemptCount := i.attemptCount + 1))
  }

  function Opened(s: Store, id: Id): Store
    requires id in s.intents
  {
    WithIntent(s, id, s.intents[id].(status := AwaitingWalletSignature))
  }

  predicate HoldsLease(i: Intent, owner: string, now: Time) {
    owner != "" && i.leaseOwner == Some(owner) && i.leaseExpiresAt.Some? && now < i.leaseExpiresAt.value
  }

  predicate BindAllowed(s: Store, id: Id, hash: string, owner: string, recovery: bool, now: Time) {
    && IsTransactionHash(hash)
    && id in s.intents
    && (s.intents[id].transactionHash == Some(Lower(hash))
        || (&& s.intents[id].transactionHash.None?
            && !HashTaken(s, Lower(hash))
            && (s.intents[id].status == AwaitingWalletSignature && !recovery ==>
                  HoldsLease(s.intents[id], owner, now))))
  }

  predicate Cancellable(s: Store, id: Id, key: IdempotencyKey) {
    && id in s.intents
    && s.intents[id].request == key
    && s.intents[id].transactionHash.None?
    && (s.intents[id].status == Created || s.intents[id].status == AwaitingWalletSignature
        || s.intents[id].status == FailedRetryable)
  }

  /** A receipt completes an intent that is being verified, and is accepted once more by a completed one. */
  predicate IsAccepted(i: Intent, receipt: Receipt) {
    && IsTransactionHash(receipt.transactionHash)
    && (i.status == Verifying || i.status == Completed)
    && i.transactionHash == Some(Lower(receipt.transactionHash))
    && ReceiptMatches(i.request, receipt)
  }

  function Accepted(i: Intent): Intent {
    i.(status := Completed)
  }

  predicate Attachable(s: Store, id: Id, task: Id) {
    id in s.intents && (s.intents[id].taskId.None? || s.intents[id].taskId == Some(task))
  }

  /** A request for a payment that has no intent yet may create one. */
  predicate Creatable(s: Store, request: Request, now: Time) {
    && !KeyTaken(s, request.LogicalKey())
    && (request.operation.IsSettlement() ==> SettlementAllowed(s, request, now))
  }

  /** The receipt is the payroll verifier's, or the intent is no payroll intent. */
  ghost predicate MayComplete(db: Database, id: Id, receipt: Receipt)
    reads db
  {
    db.verified(receipt) || (id in db.store.intents && db.store.intents[id].request.operation != Payroll)
  }

  /** Rows may have been added to the intents; nothing else differs. */
  ghost predicate OnlyNewIntents(s: Store, t: Store) {
    && t.tasks == s.tasks && t.invoices == s.invoices && t.payments == s.payments
    && forall id | id in s.intents :: id in t.intents && t.intents[id] == s.intents[id]
  }

  lemma KeyIsTaken(s: Store, id: Id, key: LogicalKey)
    ensures id in s.intents && s.intents[id].request.LogicalKey() == key ==> KeyTaken(s, key)
  {}

  /** For a payment that has a row already, nothing is inserted. */
  lemma TakenKeyStays(s: Store, request: Request)
    ensures KeyTaken(s, request.LogicalKey()) ==>
              forall id, now :: Step(s, InsertIntent(id, request, now)) == s && !Creatable(s, request, now)
    ensures !KeyTaken(s, request.LogicalKey()) ==> forall id | id in s.intents :: s.intents[id].request != request
  {}

  class ExecutionIntentService {
    const db: Database

    constructor (db: Database)
      ensures this.db == db
    {
      this.db := db;
    }

    method Get(id: Id) returns (r: Answer)
      requires db.Valid()
      modifies db
      ensures db.Valid() && old(db.log) <= db.log
      ensures old(db.others) == [] ==> db.others == [] && db.store == old(db.store)
      ensures r == if id in db.store.intents then Success(IntentRow(id, db.store.intents[id])) else Failure(NotFound)
    {
      db.RoundTrip();
      if id !in db.store.intents {
        return Failure(NotFound);
      }
      return Success(IntentRow(id, db.store.intents[id]));
    }

    method GetByTransactionHash(hash: string) returns (r: Answer)
      requires db.Valid()
      modifies db
      ensures db.Valid() && old(db.log) <= db.log
      ensures old(db.others) == [] ==> db.others == [] && db.store == old(db.store)
      ensures r.Success? ==>
                && r.value.id in db.store.intents
                && r.value.intent == db.store.intents[r.value.id]
                && r.value.intent.transactionHash == Some(Lower(hash))
      ensures r.Failure? <==> !IsTransactionHash(hash) || !HashTaken(db.store, Lower(hash))
      ensures r.Failure? ==> r.error == if IsTransactionHash(hash) then NotFound else HashConflict
    {
      db.RoundTrip();
      if !IsTransactionHash(hash) {
        return Failure(HashConflict);
      }
      if !HashTaken(db.store, Lower(hash)) {
        return Failure(NotFound);
      }
      var id :| id in db.store.intents && db.store.intents[id].transactionHash == Some(Lower(hash));
      return Success(IntentRow(id, db.store.intents[id]));
    }

    method FindByKey(key: LogicalKey) returns (r: Option<IntentRow>)
      requires db.Valid()
      ensures r.None? <==> !KeyTaken(db.store, key)
      ensures r.Some? ==>
                && r.value.id in db.store.intents
                && r.value.intent == db.store.intents[r.value.id]
                && r.value.intent.request.LogicalKey() == key
    {
      if !KeyTaken(db.store, key) {
        return None;
      }
      var id :| id in db.store.intents && db.store.intents[id].request.LogicalKey() == key;
      return Some(IntentRow(id, db.store.intents[id]));
    }

    /** The acquiring transaction: the existing row, or a new one where the invoice allows it. */
    method AcquireOnce(request: Request, oracle: Attempt) returns (found: Option<IntentRow>, refused: bool)
      requires db.Valid()
      modifies db
      ensures db.Valid() && old(db.log) <= db.log
      ensures refused ==> found.None?
      ensures oracle.conflicts ==> found.None? && !refused
      ensures found.Some? ==>
                && found.value.id in db.store.intents
                && found.value.intent == db.store.intents[found.value.id]
                && found.value.intent.request.LogicalKey() == request.LogicalKey()
                && found.value.intent.request.operation == request.operation
                && found.value.intent.request.externalReference == request.externalReference
                && (request.operation != InvoiceSettlement && request.operation != PaymentLinkSettlement ==>
                      && found.value.intent.request.ownerId == request.ownerId
                      && found.value.intent.request.sourceWallet == request.sourceWallet)
      ensures old(db.others) == [] ==> db.others == [] && db.store.tasks == old(db.store).tasks
      ensures old(db.others) == [] && oracle.conflicts ==> db.store == old(db.store)
      ensures old(db.others) == [] ==> OnlyNewIntents(old(db.store), db.store)
      ensures old(db.others) == [] && !oracle.conflicts && oracle.freshId !in old(db.store).intents ==>
                && refused == (!KeyTaken(old(db.store), request.LogicalKey())
                               && !Creatable(old(db.store), request, oracle.now))
                && found.Some? == !refused
                && (refused || found.value.id !in old(db.store).intents ==>
                      forall id | id in old(db.store).intents && old(db.store).intents[id].request.operation == request.operation
                                  && old(db.store).intents[id].request.externalReference == request.externalReference ::
                        && request.operation != InvoiceSettlement && request.operation != PaymentLinkSettlement
                        && (old(db.store).intents[id].request.ownerId != request.ownerId
                            || old(db.store).intents[id].request.sourceWallet != request.sourceWallet))
                && (refused || (found.value.id !in old(db.store).intents
                                && (request.operation == InvoiceSettlement || request.operation == PaymentLinkSettlement)) ==>
                      (!refused <==>
                         && request.externalReference in old(db.store).invoices
                         && var invoice := old(db.store).invoices[request.externalReference];
                         && invoice.status == InvoiceOpen
                         && (invoice.expiresAt.None? || oracle.now < invoice.expiresAt.value)
                         && request.recipient == Some(invoice.merchant) && request.tokenOut == invoice.token
                         && request.amountUnits == invoice.amountUnits
                         && request.operation == if invoice.kind == PaymentLink then PaymentLinkSettlement
                                                 else InvoiceSettlement))
                && (refused ==> request.operation == InvoiceSettlement || request.operation == PaymentLinkSettlement)
                && (found.Some? && found.value.id in old(db.store).intents ==> db.store == old(db.store))
                && (Creatable(old(db.store), request, oracle.now) ==>
                      found == Some(IntentRow(oracle.freshId, Intent(request, Created, None, None, None, None, 0))))
                && db.store == Step(old(db.store), InsertIntent(oracle.freshId, request, oracle.now))
    {
      db.RoundTrip();
      found, refused := None, false;
      if oracle.conflicts {
        return;
      }
      found := FindByKey(request.LogicalKey());
      if found.Some? {
        return;
      }
      if request.operation.IsSettlement() && !SettlementAllowed(db.store, request, oracle.now) {
        return None, true;
      }
      var inserted := db.Write(InsertIntent(oracle.freshId, request, oracle.now));
      if inserted {
        found := Some(IntentRow(oracle.freshId, NewIntent(request)));
      }
    }

    /** One attempt; after a conflict the row may be there, and the last attempt gives up without it. */
    method TryAcquire(request: Request, oracle: Attempt, last: bool)
      returns (found: Option<IntentRow>, failure: Option<Error>)
      requires db.Valid()
      modifies db
      ensures db.Valid() && old(db.log) <= db.log
      ensures found.Some? ==>
                && failure.None?
                && found.value.id in db.store.intents
                && found.value.intent == db.store.intents[found.value.id]
                && found.value.intent.request.LogicalKey() == request.LogicalKey()
      ensures old(db.others) == [] ==>
                db.others == [] && db.store.tasks == old(db.store).tasks && OnlyNewIntents(old(db.store), db.store)
      ensures oracle.breaks ==> failure == Some(DatabaseFailure)
      ensures last ==> found.Some? || failure.Some?
      ensures old(db.others) == [] && !oracle.breaks && oracle.conflicts ==>
                && db.store == old(db.store)
                && (found.Some? <==> KeyTaken(old(db.store), request.LogicalKey()))
                && failure == if found.None? && last then Some(DatabaseFailure) else None
      ensures old(db.others) == [] && !oracle.breaks && !oracle.conflicts && oracle.freshId !in old(db.store).intents ==>
                && db.store == Step(old(db.store), InsertIntent(oracle.freshId, request, oracle.now))
                && failure == (if KeyTaken(old(db.store), request.LogicalKey())
                                  || Creatable(old(db.store), request, oracle.now) then None else Some(BusinessState))
                && (failure.None? ==> found.Some? && Concluded(old(db.store), db.store, found.value, request, oracle))
    {
      hide Run, OnlyVerified, SettlementAllowed;
      if oracle.breaks {
        return None, Some(DatabaseFailure);
      }
      var refused: bool;
      found, refused := AcquireOnce(request, oracle);
      if refused {
        return None, Some(BusinessState);
      }
      if found.None? {
        db.RoundTrip();
        found := FindByKey(request.LogicalKey());
      }
      failure := if found.None? && last then Some(DatabaseFailure) else None;
    }

    /** Three attempts at the acquiring transaction, against whatever concurrent requests do. */
    method FindOrInsert(request: Request, attempts: seq<Attempt>) returns (r: Answer)
      requires db.Valid() && |attempts| == 3
      modifies db
      ensures db.Valid() && old(db.log) <= db.log
      ensures r.Success? ==>
                && r.value.id in db.store.intents
                && r.value.intent == db.store.intents[r.value.id]
                && r.value.intent.request.LogicalKey() == request.LogicalKey()
      ensures attempts[0].breaks ==> r == Failure(DatabaseFailure)
      ensures old(db.others) == [] ==>
                db.others == [] && db.store.tasks == old(db.store).tasks && OnlyNewIntents(old(db.store), db.store)
      ensures old(db.others) == [] ==>
                forall k :: IsFirstClean(attempts, k) && attempts[k].freshId !in old(db.store).intents ==>
                  if r.Success? then Concluded(old(db.store), db.store, r.value, request, attempts[k])
                  else
                    && r.error == BusinessState
                    && !KeyTaken(old(db.store), request.LogicalKey()) && !Creatable(old(db.store), request, attempts[k].now)
                    && db.store == Step(old(db.store), InsertIntent(attempts[k].freshId, request, attempts[k].now))
      ensures old(db.others) == [] && (forall k | 0 <= k < 3 :: attempts[k].conflicts && !attempts[k].breaks) ==>
                && db.store == old(db.store)
                && (r.Success? <==> KeyTaken(old(db.store), request.LogicalKey()))
                && (r.Failure? ==> r.error == DatabaseFailure)
    {
      hide Run, OnlyVerified, Step, KeyTaken, Creatable;
      var found: Option<IntentRow> := None;
      var attempt := 0;
      while attempt < 3 && found.None?
        invariant 0 <= attempt <= 3 && (attempt == 0 ==> found.None?) && (attempt == 3 ==> found.Some?)
        invariant db.Valid() && old(db.log) <= db.log
        invariant found.Some? ==>
                    && found.value.id in db.store.intents
                    && found.value.intent == db.store.intents[found.value.id]
                    && found.value.intent.request.LogicalKey() == request.LogicalKey()
        invariant attempt > 0 ==> !attempts[0].breaks
        invariant old(db.others) == [] ==>
                    db.others == [] && db.store.tasks == old(db.store).tasks && OnlyNewIntents(old(db.store), db.store)
        invariant old(db.others) == [] ==>
                    forall k :: IsFirstClean(attempts, k) && attempts[k].freshId !in old(db.store).intents ==>
                      if found.None? then attempt <= k && db.store == old(db.store)
                      else Concluded(old(db.store), db.store, found.value, request, attempts[k])
        invariant old(db.others) == [] && (forall k | 0 <= k < 3 :: attempts[k].conflicts && !attempts[k].breaks) ==>
                    db.store == old(db.store) && (found.Some? ==> KeyTaken(db.store, request.LogicalKey()))
        decreases 3 - attempt
      {
        ghost var before := db.store;
        var failure: Option<Error>;
        found, failure := TryAcquire(request, attempts[attempt], attempt == 2);
        TakenKeyStays(before, request);
        if failure.Some? {
          return Failure(failure.value);
        }
        attempt := attempt + 1;
      }
      if found.None? {
        return Failure(DatabaseFailure);
      }
      return Success(found.value);
    }

    /** One row per logical payment, for the request that it was created for. */
    method Acquire(input: AcquireInput, routable: bool, attempts: seq<Attempt>) returns (r: Answer)
      requires db.Valid() && |attempts| == 3
      modifies db
      ensures db.Valid() && old(db.log) <= db.log
      ensures var usable := && input.amountUnits > 0 && 0 < |Trim(input.externalReference)| <= 160
                            && (input.recipient.Some?
                                || (input.batchDigest.Some? && input.batchDigest != Some(OtherText(""))));
              && (!usable ==> r == Failure(ImmutableConflict) && db.store == old(db.store))
              && (usable && !routable ==> r == Failure(RouteUnavailable) && db.store == old(db.store))
              && (r.Success? ==> usable && routable && r.value.intent.request == AsRequest(input))
      ensures r.Success? ==>
                var bound := r.value.intent.request;
                && bound.operation == input.operation && bound.sourceWallet == input.sourceWallet
                && bound.ownerId == (if input.ownerId.Some? && Trim(input.ownerId.value) != ""
                                     then Some(Trim(input.ownerId.value)) else None)
                && bound.recipient == input.recipient
                && bound.batchDigest == (match input.batchDigest
                                         case Some(OtherText(text)) =>
                                           if Trim(text) == "" then None else Some(OtherText(Lower(Trim(text))))
                                         case other => other)
                && bound.tokenIn == input.tokenIn && bound.tokenOut == input.tokenOut
                && bound.amountUnits == input.amountUnits && bound.externalReference == Trim(input.externalReference)
      ensures r.Success? ==> r.value.id in db.store.intents && r.value.intent == db.store.intents[r.value.id]
      ensures r.Success? ==>
                forall id :: id in db.store.intents
                             && db.store.intents[id].request.LogicalKey() == r.value.intent.request.LogicalKey()
                             ==> id == r.value.id
      ensures old(db.others) == [] ==>
                db.others == [] && db.store.tasks == old(db.store).tasks && OnlyNewIntents(old(db.store), db.store)
      ensures old(db.others) == [] && IsUsable(input) && routable ==>
                forall k :: IsFirstClean(attempts, k) && attempts[k].freshId !in old(db.store).intents ==>
                  && db.store == Step(old(db.store), InsertIntent(attempts[k].freshId, AsRequest(input), attempts[k].now))
                  && (r.Success? <==>
                        Creatable(old(db.store), AsRequest(input), attempts[k].now)
                        || exists id :: id in old(db.store).intents
                                        && old(db.store).intents[id].request == AsRequest(input))
                  && (r.Failure? ==>
                        r.error == if KeyTaken(old(db.store), AsRequest(input).LogicalKey()) then ImmutableConflict
                                   else BusinessState)
      ensures IsUsable(input) && routable && attempts[0].breaks ==> r == Failure(DatabaseFailure)
      ensures old(db.others) == [] && IsUsable(input) && routable
              && (forall k | 0 <= k < 3 :: attempts[k].conflicts && !attempts[k].breaks) ==>
                && db.store == old(db.store)
                && (!KeyTaken(old(db.store), AsRequest(input).LogicalKey()) ==> r == Failure(DatabaseFailure))
                && (KeyTaken(old(db.store), AsRequest(input).LogicalKey()) && r.Failure? ==> r.error == ImmutableConflict)
                && (r.Success? <==> exists id :: id in old(db.store).intents
                                                 && old(db.store).intents[id].request == AsRequest(input))
    {
      CanonicalColumns(input, routable);
      if IsUsable(input) {
        RequestColumns(input);
      }
      hide Run, OnlyVerified, Step, Canonicalize, AsRequest, KeyTaken, Creatable;
      var canonical := Canonicalize(input, routable);
      if canonical.Failure? {
        return Failure(canonical.error);
      }
      var request := canonical.value;
      ghost var before := db.store;
      var found := FindOrInsert(request, attempts);
      if found.Failure? {
        TakenKeyStays(before, request);
        return found;
      }
      OneRowPerPayment(db, found.value.id);
      TakenKeyStays(before, request);
      if found.value.intent.request != request {
        KeyIsTaken(before, found.value.id, request.LogicalKey());
        return Failure(ImmutableConflict);
      }
      return found;
    }

    /** The guarded status update. */
    method TryTransition(id: Id, write: Event) returns (won: bool)
      requires db.Valid() && id in db.store.intents
      requires IsTransition(write) && write.id == id
      requires StaysJustified(db.store, write)
      requires write.Complete? ==> MayComplete(db, id, write.receipt)
      modifies db
      ensures db.Valid() && old(db.log) <= db.log && id in db.store.intents
      ensures won ==> exists before :: old(db.log) <= before && before + [write] <= db.log && Fires(Run(before), write)
      ensures old(db.others) == [] ==>
                db.others == [] && db.store == Step(old(db.store), write) && won == RowsMatch(old(db.store), write)
    {
      hide OnlyVerified;
      ghost var mark := db.log;
      assert write.Complete? ==> db.verified(write.receipt) || Run(mark).intents[id].request.operation != Payroll;
      db.RoundTrip();
      Since(db, mark);
      assert IntentKept(Run(mark), db.store, id);
      ghost var before := db.log;
      won := db.Write(write);
      assert before + [write] <= db.log;
      Since(db, mark);
    }

    /** A guarded status update, then a fresh read of the row. */
    method Transition(id: Id, write: Event) returns (r: Answer, won: bool)
      requires db.Valid() && id in db.store.intents
      requires IsTransition(write) && write.id == id
      requires StaysJustified(db.store, write)
      requires write.Complete? ==> MayComplete(db, id, write.receipt)
      modifies db
      ensures db.Valid() && old(db.log) <= db.log && id in db.store.intents
      ensures r.Success? ==> won && r.value == IntentRow(id, db.store.intents[id])
      ensures !won ==> r.Failure?
      ensures won ==> exists before :: old(db.log) <= before && before + [write] <= db.log && Fires(Run(before), write)
      ensures old(db.others) == [] ==>
                && db.others == []
                && db.store == Step(old(db.store), write)
                && r.Success? == (Next(write) in Transitions(Expected(write)) && RowsMatch(old(db.store), write))
                && (Next(write) in Transitions(Expected(write)) && r.Failure? ==>
                      var status := old(db.store).intents[id].status;
                      r.error == if status == Completed || status == FailedFinal || status == Expired || status == Cancelled
                                 then Terminal else InvalidTransition)
      ensures Next(write) !in Transitions(Expected(write)) ==> r == Failure(InvalidTransition)
    {
      hide OnlyVerified, StaysJustified, Run, RowsOk, KeysUnique, HashesUnique, SettlementsOk, AttachmentsOk,
           PaymentsOk, TasksOk;
      won := false;
      if Next(write) !in Transitions(Expected(write)) {
        return Failure(InvalidTransition), false;
      }
      won := TryTransition(id, write);
      ghost var after := db.log;
      r := Get(id);
      Since(db, after);
      assert IntentKept(Run(after), db.store, id);
      if !won {
        r := Failure(if r.value.intent.status.IsTerminal() then Terminal else InvalidTransition);
      }
    }

    /** One of the plain transitions. */
    method Move(id: Id, from: IntentStatus, to: IntentStatus) returns (r: Answer)
      requires db.Valid() && id in db.store.intents && IsCalledTransition(from, to)
      modifies db
      ensures db.Valid() && old(db.log) <= db.log && id in db.store.intents
      ensures r.Success? ==> r.value == IntentRow(id, db.store.intents[id])
      ensures r.Success? ==>
                exists before :: && old(db.log) <= before && before + [Advance(id, from, to)] <= db.log
                                 && Fires(Run(before), Advance(id, from, to))
      ensures old(db.others) == [] && old(db.store).intents[id].status == from ==>
                && db.others == [] && r.Success?
                && db.store == WithIntent(old(db.store), id, old(db.store).intents[id].(status := to))
    {
      var won: bool;
      r, won := Transition(id, Advance(id, from, to));
    }

    /** The part of a verification start that brings an intent as far as being submitted. */
    method BringToSubmitted(row: IntentRow) returns (r: Answer)
      requires db.Valid() && row.id in db.store.intents && row.intent == db.store.intents[row.id]
      modifies db
      ensures db.Valid() && old(db.log) <= db.log && row.id in db.store.intents
      ensures r.Success? ==> r.value == IntentRow(row.id, db.store.intents[row.id])
      ensures old(db.others) == [] ==>
                && db.others == [] && r.Success?
                && db.store == WithIntent(old(db.store), row.id, SubmissionAssumed(row.intent))
    {
      r := Success(row);
      if r.value.intent.status == Created {
        r := Move(row.id, Created, SubmissionPending);
        if r.Failure? { return; }
      }
      r := AssumeSubmitted(r.value);
    }

    /** From a pending state straight to being submitted. */
    method AssumeSubmitted(row: IntentRow) returns (r: Answer)
      requires db.Valid() && row.id in db.store.intents && row.intent == db.store.intents[row.id]
      modifies db
      ensures db.Valid() && old(db.log) <= db.log && row.id in db.store.intents
      ensures r.Success? ==> r.value == IntentRow(row.id, db.store.intents[row.id])
      ensures old(db.others) == [] && row.intent.status != Created ==>
                && db.others == [] && r.Success?
                && db.store == WithIntent(old(db.store), row.id, SubmissionAssumed(row.intent))
    {
      r := Success(row);
      if row.intent.status == AuthorizationPending {
        r := Move(row.id, AuthorizationPending, Submitted);
      } else if row.intent.status == SubmissionPending {
        r := Move(row.id, SubmissionPending, Submitted);
      }
    }

    /** The last step of a verification start. */
    method BringToVerifying(row: IntentRow) returns (r: Answer)
      requires db.Valid() && row.id in db.store.intents && row.intent == db.store.intents[row.id]
      modifies db
      ensures db.Valid() && old(db.log) <= db.log && row.id in db.store.intents
      ensures r.Success? ==> r.value == IntentRow(row.id, db.store.intents[row.id])
      ensures r.Success? && row.intent.transactionHash.Some? ==> Progress(r.value.intent.status) >= 1
      ensures old(db.others) == [] ==>
                && db.others == [] && r.Success?
                && db.store == WithIntent(old(db.store), row.id, VerificationBegun(row.intent))
    {
      ghost var mark := db.log;
      r := Success(row);
      if row.intent.status == Submitted {
        r := Move(row.id, Submitted, Verifying);
        if r.Success? { VerifyingProgresses(db, mark, row.id, Submitted); }
      } else if row.intent.status == FailedRetryable {
        r := Move(row.id, FailedRetryable, Verifying);
        if r.Success? { VerifyingProgresses(db, mark, row.id, FailedRetryable); }
      } else {
        Since(db, mark);
        assert RowAt(db.store.intents, row.id);
      }
    }

    /** Move an intent towards verification from wherever it is. */
    method BeginVerification(id: Id) returns (r: Answer)
      requires db.Valid()
      modifies db
      ensures db.Valid() && old(db.log) <= db.log
      ensures r.Success? ==> id in db.store.intents && r.value == IntentRow(id, db.store.intents[id])
      ensures r.Success? && id in old(db.store).intents && old(db.store).intents[id].transactionHash.Some? ==>
                Progress(r.value.intent.status) >= 1
      ensures old(db.others) == [] && id in old(db.store).intents ==>
                && db.others == [] && r.Success?
                && db.store == WithIntent(old(db.store), id, VerificationStarted(old(db.store).intents[id]))
                && var status := old(db.store).intents[id].status;
                && r.value.intent == old(db.store).intents[id].(
                                     status := if status == AwaitingWalletSignature || status.IsTerminal() then status
                                               else Verifying)
    {
      hide Run, OnlyVerified, RowsOk, KeysUnique, HashesUnique, SettlementsOk, AttachmentsOk, PaymentsOk, TasksOk;
      ghost var start := db.log;
      r := Get(id);
      if r.Failure? {
        return;
      }
      Since(db, start);
      assert IntentKept(Run(start), db.store, id);
      if r.value.intent.status == Completed || r.value.intent.status == Verifying {
        return;
      }
      r := BringToSubmitted(r.value);
      if r.Failure? {
        return;
      }
      Since(db, start);
      assert IntentKept(Run(start), db.store, id);
      r := BringToVerifying(r.value);
    }

    /** The guarded update of an attachment. */
    method TryAttach(id: Id, task: Id)
      requires db.Valid() && id in db.store.intents && Justified(db.store, Event.AttachTask(id, task))
      modifies db
      ensures db.Valid() && old(db.log) <= db.log
      ensures id in db.store.intents && db.store.intents[id].taskId.Some?
      ensures old(db.others) == [] ==>
                db.others == [] && db.store == Step(old(db.store), Event.AttachTask(id, task))
    {
      ghost var start := db.log;
      db.RoundTrip();
      AttachmentStaysJustified(db, start, id, task);
      var attached := db.Write(Event.AttachTask(id, task));
    }

    /** Bind an intent to its payroll task. The first task bound stays; losing the race is silent. */
    method AttachTask(id: Id, task: Id) returns (r: Answer)
      requires db.Valid() && Justified(db.store, Event.AttachTask(id, task))
      modifies db
      ensures db.Valid() && old(db.log) <= db.log
      ensures r.Success? ==>
                && id in db.store.intents && r.value == IntentRow(id, db.store.intents[id])
                && r.value.intent.taskId.Some?
      ensures old(db.others) == [] ==>
                && db.others == []
                && r.Success? == Attachable(old(db.store), id, task)
                && (r.Success? <==> && id in old(db.store).intents
                                    && (old(db.store).intents[id].taskId.None?
                                        || old(db.store).intents[id].taskId == Some(task)))
                && (r.Success? ==> r.value.intent == old(db.store).intents[id].(taskId := Some(task)))
                && (r.Failure? ==> r.error == if id in old(db.store).intents then ImmutableConflict else NotFound)
                && db.store == if r.Success? then Step(old(db.store), Event.AttachTask(id, task)) else old(db.store)
    {
      ghost var start := db.log;
      r := Get(id);
      if r.Failure? { return; }
      if r.value.intent.taskId.Some? && r.value.intent.taskId != Some(task) {
        return Failure(ImmutableConflict);
      }
      AttachmentStaysJustified(db, start, id, task);
      TryAttach(id, task);
      ghost var after := db.log;
      r := Get(id);
      Since(db, after);
      assert IntentKept(Run(after), db.store, id);
    }

    method AssertAccess(id: Id, key: IdempotencyKey) returns (r: Answer)
      requires db.Valid()
      modifies db
      ensures db.Valid() && old(db.log) <= db.log
      ensures r.Success? ==> id in db.store.intents && r.value == IntentRow(id, db.store.intents[id])
      ensures r.Success? ==> r.value.intent.request == key
      ensures old(db.others) == [] ==>
                && db.others == [] && db.store == old(db.store)
                && r.Success? == (id in db.store.intents && db.store.intents[id].request == key)
      ensures r.Failure? ==> r.error == if id in db.store.intents then ImmutableConflict else NotFound
    {
      r := Get(id);
      if r.Success? && r.value.intent.request != key {
        return Failure(ImmutableConflict);
      }
    }

    /** The guarded update that takes the lease. */
    method TryLease(id: Id, owner: string, ttl: nat, now: Time) returns (leased: bool)
      requires db.Valid()
      modifies db
      ensures db.Valid() && old(db.log) <= db.log
      ensures leased ==>
                && id in db.store.intents
                && exists before :: && old(db.log) <= before && before + [Lease(id, owner, now, ttl)] <= db.log
                                    && Fires(Run(before), Lease(id, owner, now, ttl))
      ensures old(db.others) == [] ==>
                && db.others == []
                && leased == (id in old(db.store).intents && LeaseIsFree(old(db.store).intents[id], now))
                && db.store == if leased then Leased(old(db.store), id, owner, ttl, now) else old(db.store)
    {
      hide Run, OnlyVerified;
      db.RoundTrip();
      ghost var before := db.log;
      leased := db.Write(Lease(id, owner, now, ttl));
      assert before + [Lease(id, owner, now, ttl)] <= db.log;
    }

    method AcquireLease(id: Id, owner: string, ttl: int, now: Time) returns (r: Answer)
      requires db.Valid()
      modifies db
      ensures db.Valid() && old(db.log) <= db.log
      ensures r.Success? ==> id in db.store.intents && r.value == IntentRow(id, db.store.intents[id])
      ensures r.Success? ==> Trim(owner) != "" && MIN_LEASE_MS <= ttl <= MAX_LEASE_MS
      ensures r.Success? ==>
                exists before :: && old(db.log) <= before && before + [Lease(id, owner, now, ttl)] <= db.log
                                 && Fires(Run(before), Lease(id, owner, now, ttl))
      ensures old(db.others) == [] ==>
                && db.others == []
                && r.Success? == LeaseAllowed(old(db.store), id, owner, ttl, now)
                && db.store == (if r.Success? then Leased(old(db.store), id, owner, ttl, now) else old(db.store))
                && (r.Success? <==>
                      && Trim(owner) != "" && 1_000 <= ttl <= 900_000 && id in old(db.store).intents
                      && var i := old(db.store).intents[id];
                      && i.status != Completed && i.status != FailedFinal && i.status != Expired && i.status != Cancelled
                      && (i.leaseOwner.None? || i.leaseExpiresAt.None? || i.leaseExpiresAt.value <= now))
                && (r.Failure? ==>
                      r.error == if Trim(owner) == "" || ttl < 1_000 || 900_000 < ttl then ActiveLease
                                 else if id !in old(db.store).intents then NotFound
                                 else if old(db.store).intents[id].status.IsTerminal() then Terminal
                                 else ActiveLease)
                && (r.Success? ==>
                      r.value.intent == old(db.store).intents[id].(
                                        leaseOwner := Some(owner), leaseExpiresAt := Some(now + ttl),
                                        attemptCount := old(db.store).intents[id].attemptCount + 1))
    {
      if Trim(owner) == "" || ttl < MIN_LEASE_MS || MAX_LEASE_MS < ttl {
        return Failure(ActiveLease);
      }
      var leased := TryLease(id, owner, ttl, now);
      ghost var mark := db.log;
      r := Get(id);
      if !leased && r.Success? {
        r := Failure(if r.value.intent.status.IsTerminal() then Terminal else ActiveLease);
      }
      Since(db, mark);
      assert IntentKept(Run(mark), db.store, id);
    }

    /** The checks made before a wallet is opened. */
    method CheckOpenable(id: Id, key: IdempotencyKey) returns (r: Answer)
      requires db.Valid()
      modifies db
      ensures db.Valid() && old(db.log) <= db.log
      ensures r.Success? ==>
                && id in db.store.intents && r.value == IntentRow(id, db.store.intents[id])
                && r.value.intent.request == key
                && r.value.intent.transactionHash.None?
                && (r.value.intent.status == Created || r.value.intent.status == FailedRetryable)
      ensures old(db.others) == [] ==>
                && db.others == [] && db.store == old(db.store) && r.Success? == Openable(old(db.store), id, key)
                && (r.Failure? ==>
                      r.error == if id !in old(db.store).intents then NotFound
                                 else if old(db.store).intents[id].request != key then ImmutableConflict
                                 else if old(db.store).intents[id].status.IsTerminal() then Terminal
                                 else InvalidTransition)
    {
      r := AssertAccess(id, key);
      if r.Failure? { return; }
      ghost var seen := db.log;
      r := Get(id);
      if r.Failure? { return; }
      Since(db, seen);
      assert IntentKept(Run(seen), db.store, id);
      var current := r.value.intent;
      if current.status.IsTerminal() {
        return Failure(Terminal);
      }
      if current.transactionHash.Some? || (current.status != Created && current.status != FailedRetryable) {
        return Failure(InvalidTransition);
      }
    }

    /** The step that opens the wallet, under the lease. */
    method Open(id: Id, key: IdempotencyKey, status: IntentStatus, ghost start: seq<Event>, ghost mark: seq<Event>)
      returns (r: Answer)
      requires db.Valid() && start <= mark <= db.log && id in db.store.intents
      requires id in Run(mark).intents && Run(mark).intents[id].request == key
      requires status == Created || status == FailedRetryable
      modifies db
      ensures db.Valid() && old(db.log) <= db.log
      ensures r.Success? ==> id in db.store.intents && r.value == IntentRow(id, db.store.intents[id])
      ensures r.Success? ==>
                && r.value.intent.request == key
                && Prompts(start, key.LogicalKey()) == 0
                && Prompts(db.log, key.LogicalKey()) == 1
      ensures old(db.others) == [] && old(db.store).intents[id].status == status ==>
                && r.Success?
                && db.store == Opened(old(db.store), id)
    {
      OpeningStaysJustified(db.store, id, status);
      var opening := OpenWallet(id, status);
      var won: bool;
      r, won := Transition(id, opening);
      if won {
        OpeningIsCounted(db, start, mark, opening, key);
      }
    }

    /** Opens the wallet; the run up to here had not opened it for this payment before. */
    method PrepareWalletSignature(id: Id, key: IdempotencyKey, owner: string, ttl: int, now: Time)
      returns (r: Answer)
      requires db.Valid()
      modifies db
      ensures db.Valid() && old(db.log) <= db.log
      ensures r.Success? ==> id in db.store.intents && r.value == IntentRow(id, db.store.intents[id])
      ensures r.Success? ==>
                && r.value.intent.request == key
                && Prompts(old(db.log), key.LogicalKey()) == 0
                && Prompts(db.log, key.LogicalKey()) == 1
      ensures old(db.others) == [] ==>
                && r.Success? == (Openable(old(db.store), id, key) && LeaseAllowed(old(db.store), id, owner, ttl, now))
                && db.store == (if r.Success? then Opened(Leased(old(db.store), id, owner, ttl, now), id)
                                else old(db.store))
                && (r.Success? <==>
                      && Trim(owner) != "" && 1_000 <= ttl <= 900_000 && id in old(db.store).intents
                      && var i := old(db.store).intents[id];
                      && i.request == key && i.transactionHash.None?
                      && (i.status == Created || i.status == FailedRetryable)
                      && (i.leaseOwner.None? || i.leaseExpiresAt.None? || i.leaseExpiresAt.value <= now))
                && (r.Failure? && id in old(db.store).intents && old(db.store).intents[id].request == key ==>
                      r.error == if old(db.store).intents[id].status.IsTerminal() then Terminal
                                 else if Openable(old(db.store), id, key) then ActiveLease
                                 else InvalidTransition)
                && (r.Success? ==>
                      r.value.intent == old(db.store).intents[id].(
                                        status := AwaitingWalletSignature,
                                        leaseOwner := Some(owner), leaseExpiresAt := Some(now + ttl),
                                        attemptCount := old(db.store).intents[id].attemptCount + 1))
    {
      ghost var start := db.log;
      r := CheckOpenable(id, key);
      if r.Failure? { return; }
      var status := r.value.intent.status;
      ghost var mark := db.log;
      r := AcquireLease(id, owner, ttl, now);
      if r.Failure? { return; }
      r := Open(id, key, status, start, mark);
    }

    method AssertLease(id: Id, owner: string, now: Time) returns (r: Answer)
      requires db.Valid()
      modifies db
      ensures db.Valid() && old(db.log) <= db.log
      ensures r.Success? ==> id in db.store.intents && r.value == IntentRow(id, db.store.intents[id])
      ensures r.Success? ==>
                HoldsLease(r.value.intent, owner, now)
      ensures old(db.others) == [] ==>
                && db.others == [] && db.store == old(db.store)
                && r.Success? == (id in db.store.intents && HoldsLease(db.store.intents[id], owner, now))
      ensures r.Failure? ==> r.error == if id in db.store.intents then ActiveLease else NotFound
    {
      r := Get(id);
      if r.Success? && !HoldsLease(r.value.intent, owner, now) {
        return Failure(ActiveLease);
      }
    }

    /** The guarded update of a bind, and what the database answers. */
    method TryBind(id: Id, hash: TxHash) returns (outcome: BindOutcome)
      requires db.Valid() && id in db.store.intents && IsStoredHash(hash)
      modifies db
      ensures db.Valid() && old(db.log) <= db.log && id in db.store.intents
      ensures outcome == Bound ==> db.store.intents[id].transactionHash == Some(hash)
      ensures outcome == LostRace ==> db.store.intents[id].transactionHash.Some?
      ensures outcome == UsedElsewhere ==> db.store.intents[id].transactionHash.None? && HashTaken(db.store, hash)
      ensures old(db.others) == [] ==> db.others == [] && db.store == Step(old(db.store), BindHash(id, hash))
    {
      ghost var mark := db.log;
      db.RoundTrip();
      Since(db, mark);
      assert IntentKept(Run(mark), db.store, id);
      var bound := db.Write(BindHash(id, hash));
      outcome := if bound then Bound
      else if db.store.intents[id].transactionHash.Some? then LostRace
      else UsedElsewhere;
    }

    /** The reads before a bind; `settled` tells that they already decide its answer. */
    method CheckBindable(id: Id, hash: TxHash, owner: string, recovery: bool, now: Time)
      returns (r: Answer, settled: bool)
      requires db.Valid()
      modifies db
      ensures db.Valid() && old(db.log) <= db.log
      ensures r.Success? ==> id in db.store.intents && r.value == IntentRow(id, db.store.intents[id])
      ensures settled && r.Success? ==> r.value.intent.transactionHash == Some(hash)
      ensures !settled ==> id in db.store.intents
      ensures r.Failure? ==> r.error == HashConflict || r.error == NotFound || r.error == ActiveLease
      ensures r == Failure(HashConflict) ==>
                id in db.store.intents && db.store.intents[id].transactionHash.Some?
                && db.store.intents[id].transactionHash != Some(hash)
      ensures !settled ==> !(id in old(db.store).intents && old(db.store).intents[id].transactionHash.Some?)
      ensures old(db.others) == [] ==>
                && db.others == [] && db.store == old(db.store)
                && (settled <==> !(&& id in db.store.intents && db.store.intents[id].transactionHash.None?
                                   && (db.store.intents[id].status == AwaitingWalletSignature && !recovery ==>
                                         HoldsLease(db.store.intents[id], owner, now))))
                && (settled ==>
                      r.Success? == (id in db.store.intents
                                     && db.store.intents[id].transactionHash == Some(hash)))
                && (settled && r.Failure? ==>
                      r.error == if id !in db.store.intents then NotFound
                                 else if db.store.intents[id].transactionHash.Some? then HashConflict
                                 else ActiveLease)
    {
      ghost var start := db.log;
      settled := true;
      r := Get(id);
      Since(db, start);
      assert IntentKept(Run(start), db.store, id);
      if r.Failure? || r.value.intent.transactionHash == Some(hash) {
        return;
      }
      if r.value.intent.transactionHash.Some? {
        return Failure(HashConflict), true;
      }
      if r.value.intent.status == AwaitingWalletSignature && !recovery {
        r := AssertLease(id, owner, now);
        if r.Failure? { return; }
      }
      settled := false;
    }

    /**
     Bind a submitted transaction. When the guarded update loses, the row already carries a
     hash, so the retry settles the matter on its first read.
     */
    method BindTransactionHash(id: Id, hash: string, owner: string, recovery: bool, now: Time) returns (r: Answer)
      requires db.Valid()
      modifies db
      ensures db.Valid() && old(db.log) <= db.log
      ensures r.Success? ==> id in db.store.intents && r.value == IntentRow(id, db.store.intents[id])
      ensures r.Success? ==> IsTransactionHash(hash) && r.value.intent.transactionHash == Some(Lower(hash))
      ensures r == Failure(HashConflict) && IsTransactionHash(hash) ==>
                && id in db.store.intents && db.store.intents[id].transactionHash != Some(Lower(hash))
                && (db.store.intents[id].transactionHash.None? ==> HashTaken(db.store, Lower(hash)))
      ensures r.Failure? ==> r.error == HashConflict || r.error == NotFound || r.error == ActiveLease
      ensures old(db.others) == [] ==>
                && db.others == []
                && r.Success? == BindAllowed(old(db.store), id, hash, owner, recovery, now)
                && db.store == (if r.Success? then Step(old(db.store), BindHash(id, Lower(hash))) else old(db.store))
                && (r.Success? <==>
                      && |hash| == 66 && hash[..2] == "0x"
                      && (forall k | 2 <= k < 66 ::
                            '0' <= hash[k] <= '9' || 'a' <= hash[k] <= 'f' || 'A' <= hash[k] <= 'F')
                      && id in old(db.store).intents
                      && var i := old(db.store).intents[id];
                      (|| i.transactionHash == Some(Lower(hash))
                       || (&& i.transactionHash.None?
                           && (forall other | other in old(db.store).intents ::
                                 old(db.store).intents[other].transactionHash != Some(Lower(hash)))
                           && (i.status == AwaitingWalletSignature && !recovery ==>
                                 && owner != "" && i.leaseOwner == Some(owner)
                                 && i.leaseExpiresAt.Some? && now < i.leaseExpiresAt.value))))
                && (r.Failure? ==>
                      r.error == if !IsTransactionHash(hash) then HashConflict
                                 else if id !in old(db.store).intents then NotFound
                                 else if old(db.store).intents[id].transactionHash.None?
                                      && old(db.store).intents[id].status == AwaitingWalletSignature && !recovery
                                      && !HoldsLease(old(db.store).intents[id], owner, now) then ActiveLease
                                 else HashConflict)
                && (r.Success? && old(db.store).intents[id].transactionHash.None? ==>
                      r.value.intent == old(db.store).intents[id].(
                                        transactionHash := Some(Lower(hash)), status := Submitted,
                                        leaseOwner := None, leaseExpiresAt := None))
      decreases if id in db.store.intents && db.store.intents[id].transactionHash.Some? then 0 else 1
    {
      hide OnlyVerified, ReceiptMatches, Run;
      if !IsTransactionHash(hash) {
        return Failure(HashConflict);
      }
      ghost var start := db.log;
      var settled: bool;
      r, settled := CheckBindable(id, Lower(hash), owner, recovery, now);
      Since(db, start);
      assert IntentKept(Run(start), db.store, id);
      if settled {
        return;
      }
      LowerIsStored(hash);
      var outcome := TryBind(id, Lower(hash));
      if outcome == UsedElsewhere {
        return Failure(HashConflict);
      }
      if outcome == LostRace {
        r := BindTransactionHash(id, hash, owner, recovery, now);
        return;
      }
      ghost var after := db.log;
      r := Get(id);
      Since(db, after);
      assert IntentKept(Run(after), db.store, id);
    }

    method BindKnownTransactionHash(id: Id, key: IdempotencyKey, hash: string, now: Time) returns (r: Answer)
      requires db.Valid()
      modifies db
      ensures db.Valid() && old(db.log) <= db.log
      ensures r.Success? ==>
                && id in db.store.intents && r.value == IntentRow(id, db.store.intents[id])
                && r.value.intent.request == key
                && IsTransactionHash(hash) && r.value.intent.transactionHash == Some(Lower(hash))
      ensures old(db.others) == [] ==>
                && r.Success? == (&& id in old(db.store).intents && old(db.store).intents[id].request == key
                                  && (old(db.store).intents[id].status.IsTerminal() ==>
                                        old(db.store).intents[id].status == Completed)
                                  && BindAllowed(old(db.store), id, hash, "", true, now))
                && db.store == if r.Success? then Step(old(db.store), BindHash(id, Lower(hash))) else old(db.store)
      ensures old(db.others) == [] && id in old(db.store).intents && old(db.store).intents[id].status == Cancelled ==>
                r.Failure? && db.store == old(db.store)
      ensures old(db.others) == [] && r.Failure? && id in old(db.store).intents && old(db.store).intents[id].request == key ==>
                r.error == if old(db.store).intents[id].status == FailedFinal || old(db.store).intents[id].status == Expired
                              || old(db.store).intents[id].status == Cancelled then Terminal
                           else HashConflict
    {
      r := AssertAccess(id, key);
      if r.Failure? { return; }
      ghost var mark := db.log;
      r := Get(id);
      if r.Failure? { return; }
      if r.value.intent.status.IsTerminal() && r.value.intent.status != Completed {
        return Failure(Terminal);
      }
      r := BindTransactionHash(id, hash, "", true, now);
      Since(db, mark);
      assert IntentKept(Run(mark), db.store, id);
    }

    /** The checks made before an intent is cancelled. */
    method CheckCancellable(id: Id, key: IdempotencyKey) returns (r: Answer)
      requires db.Valid()
      modifies db
      ensures db.Valid() && old(db.log) <= db.log
      ensures r.Success? ==>
                && id in db.store.intents && r.value == IntentRow(id, db.store.intents[id])
                && r.value.intent.request == key
                && r.value.intent.transactionHash.None?
      ensures old(db.others) == [] ==>
                && db.others == [] && db.store == old(db.store) && r.Success? == Cancellable(old(db.store), id, key)
                && (r.Failure? ==>
                      r.error == if id !in old(db.store).intents then NotFound
                                 else if old(db.store).intents[id].request != key then ImmutableConflict
                                 else InvalidTransition)
      ensures r.Failure? ==> r.error == NotFound || r.error == ImmutableConflict || r.error == InvalidTransition
      ensures r == Failure(InvalidTransition) ==>
                && id in db.store.intents
                && var i := db.store.intents[id];
                && (i.transactionHash.Some?
                    || (i.status != Created && i.status != AwaitingWalletSignature && i.status != FailedRetryable))
    {
      r := AssertAccess(id, key);
      if r.Failure? { return; }
      ghost var seen := db.log;
      r := Get(id);
      if r.Failure? { return; }
      Since(db, seen);
      assert IntentKept(Run(seen), db.store, id);
      var status := r.value.intent.status;
      if r.value.intent.transactionHash.Some?
         || (status != Created && status != AwaitingWalletSignature && status != FailedRetryable) {
        return Failure(InvalidTransition);
      }
    }

    /** Cancels, unless a transaction hash is bound first; a hash bound after it wins over it. */
    method CancelUnsubmitted(id: Id, key: IdempotencyKey) returns (r: Answer)
      requires db.Valid()
      modifies db
      ensures db.Valid() && old(db.log) <= db.log
      ensures r.Success? ==>
                && id in db.store.intents && r.value == IntentRow(id, db.store.intents[id])
                && r.value.intent.request == key
                && (r.value.intent.status == Cancelled || r.value.intent.transactionHash.Some?)
      ensures r.Failure? ==> r.error == NotFound || r.error == ImmutableConflict || r.error == InvalidTransition
      ensures r == Failure(InvalidTransition) ==>
                && id in db.store.intents
                && var i := db.store.intents[id];
                && (i.transactionHash.Some?
                    || (i.status != Created && i.status != AwaitingWalletSignature && i.status != FailedRetryable))
      ensures old(db.others) == [] ==>
                && r.Success? == Cancellable(old(db.store), id, key)
                && db.store == (if r.Success? then Step(old(db.store), CancelIntent(id)) else old(db.store))
                && (r.Success? <==>
                      && id in old(db.store).intents
                      && var i := old(db.store).intents[id];
                      && i.request == key && i.transactionHash.None?
                      && (i.status == Created || i.status == AwaitingWalletSignature || i.status == FailedRetryable))
                && (r.Failure? ==>
                      r.error == if id !in old(db.store).intents then NotFound
                                 else if old(db.store).intents[id].request != key then ImmutableConflict
                                 else InvalidTransition)
                && (r.Success? ==>
                      r.value.intent == old(db.store).intents[id].(
                                        status := Cancelled, leaseOwner := None, leaseExpiresAt := None))
    {
      hide Run, OnlyVerified;
      r := CheckCancellable(id, key);
      if r.Failure? { return; }
      ghost var mark := db.log;
      db.RoundTrip();
      ghost var before := db.log;
      var cancelled := db.Write(CancelIntent(id));
      if !cancelled {
        Since(db, mark);
        assert IntentKept(Run(mark), db.store, id);
        return Failure(InvalidTransition);
      }
      r := Get(id);
      CancellationHolds(db, mark, before, id);
    }

    /** Complete an intent on the evidence of a receipt that agrees with everything it was bound to. */
    method CompleteWithVerifiedReceipt(id: Id, receipt: Receipt) returns (r: Answer)
      requires db.Valid() && MayComplete(db, id, receipt)
      modifies db
      ensures db.Valid() && old(db.log) <= db.log
      ensures r.Success? ==>
                && id in db.store.intents && r.value == IntentRow(id, db.store.intents[id])
                && r.value.intent.status == Completed
                && r.value.intent.transactionHash == Some(Lower(receipt.transactionHash))
                && ReceiptMatches(r.value.intent.request, receipt)
      ensures r.Success? ==>
                var bound := r.value.intent.request;
                && bound.sourceWallet == receipt.sourceWallet && bound.tokenOut == receipt.token
                && bound.amountUnits == receipt.amountUnits
                && (bound.recipient.Some? ==> receipt.recipient == bound.recipient)
                && (bound.recipient.None? ==> bound.batchDigest.Some? && receipt.batchDigest == bound.batchDigest)
      ensures old(db.others) == [] && id in old(db.store).intents ==>
                && db.others == []
                && r.Success? == IsAccepted(old(db.store).intents[id], receipt)
                && db.store == (if r.Success? then WithIntent(old(db.store), id, Accepted(old(db.store).intents[id]))
                                else old(db.store))
                && var i := old(db.store).intents[id];
                && (r.Success? <==>
                      && IsTransactionHash(receipt.transactionHash)
                      && (i.status == Verifying || i.status == Completed)
                      && i.transactionHash == Some(Lower(receipt.transactionHash))
                      && i.request.sourceWallet == receipt.sourceWallet && i.request.tokenOut == receipt.token
                      && i.request.amountUnits == receipt.amountUnits
                      && (if i.request.recipient.Some? then i.request.recipient == receipt.recipient
                          else i.request.batchDigest.Some? && i.request.batchDigest == receipt.batchDigest))
                && (r.Success? ==> r.value.intent == i.(status := Completed))
                && (r.Failure? ==>
                      r.error == if IsTransactionHash(receipt.transactionHash) then ReceiptMismatch else HashConflict)
    {
      hide Run, OnlyVerified, StaysJustified;
      ghost var start := db.log;
      r := Get(id);
      Since(db, start);
      assert IntentKept(Run(start), db.store, id);
      if r.Failure? { return; }
      var i := r.value.intent;
      if !IsTransactionHash(receipt.transactionHash) {
        return Failure(HashConflict);
      }
      if !(i.status == Verifying || i.status == Completed)
         || i.transactionHash != Some(Lower(receipt.transactionHash))
         || !ReceiptMatches(i.request, receipt) {
        return Failure(ReceiptMismatch);
      }
      if i.status == Completed {
        return;
      }
      ghost var mark := db.log;
      CompletionStaysJustified(db.store, id, receipt);
      var won: bool;
      r, won := Transition(id, Complete(id, receipt));
      if won {
        CompletionStays(db, mark, id, receipt);
      }
    }
  }

  /** A cancelled intent takes any transaction hash that no intent carries, lease or not, and is submitted with it. */
  lemma CancelledTakesHash(s: Store, id: Id, hash: string, owner: string, recovery: bool, now: Time)
    requires Inv(s) && id in s.intents && s.intents[id].status == Cancelled
    ensures BindAllowed(s, id, hash, owner, recovery, now) <==> IsTransactionHash(hash) && !HashTaken(s, Lower(hash))
    ensures IsTransactionHash(hash) && !HashTaken(s, Lower(hash)) ==>
              var t := Step(s, BindHash(id, Lower(hash)));
              id in t.intents && t.intents[id].status == Submitted
  {
    assert RowAt(s.intents, id);
    if IsTransactionHash(hash) {
      LowerIsStored(hash);
    }
  }

  lemma CancellationHolds(db: Database, mark: seq<Event>, before: seq<Event>, id: Id)
    requires db.Valid() && mark <= before && before + [CancelIntent(id)] <= db.log
    requires id in Run(mark).intents && Fires(Run(before), CancelIntent(id))
    ensures id in db.store.intents && db.store.intents[id].request == Run(mark).intents[id].request
    ensures db.store.intents[id].status == Cancelled || db.store.intents[id].transactionHash.Some?
  {
    hide Run, OnlyVerified, RowsOk, KeysUnique, HashesUnique, SettlementsOk, AttachmentsOk, PaymentsOk, TasksOk;
    Since(db, mark);
    assert IntentKept(Run(mark), db.store, id);
    RunAppend(before, CancelIntent(id));
    PrefixLater(before + [CancelIntent(id)], db.log);
    assert IntentKept(Run(before + [CancelIntent(id)]), db.store, id);
  }

  lemma AttachmentStaysJustified(db: Database, mark: seq<Event>, id: Id, task: Id)
    requires db.Valid() && mark <= db.log && Justified(Run(mark), Event.AttachTask(id, task))
    ensures Justified(db.store, Event.AttachTask(id, task))
  {
    Since(db, mark);
    assert IntentKept(Run(mark), db.store, id) && IntentKept(Run(mark), db.store, task);
    assert TaskKept(Run(mark), db.store, task);
  }

  lemma OpeningIsCounted(db: Database, start: seq<Event>, mark: seq<Event>, e: Event, key: Request)
    requires db.Valid() && start <= mark && e.OpenWallet?
    requires e.id in Run(mark).intents && Run(mark).intents[e.id].request == key
    requires exists before :: mark <= before && before + [e] <= db.log && Fires(Run(before), e)
    ensures Prompts(start, key.LogicalKey()) == 0 && Prompts(db.log, key.LogicalKey()) == 1
    ensures e.id in db.store.intents && db.store.intents[e.id].request == key
  {
    var k := key.LogicalKey();
    Since(db, mark);
    assert IntentKept(Run(mark), db.store, e.id);
    var before :| mark <= before && before + [e] <= db.log && Fires(Run(before), e);
    PrefixLater(mark, before);
    assert IntentKept(Run(mark), Run(before), e.id);
    assert (before + [e])[..|before|] == before;
    assert Prompts(before + [e], k) == Prompts(before, k) + 1;
    PromptsOnlyGrow(start, before, k);
    PromptsOnlyGrow(before + [e], db.log, k);
    WalletOpensAtMostOnce(before + [e], k);
    WalletOpensAtMostOnce(db.log, k);
  }

  lemma CompletionStays(db: Database, mark: seq<Event>, id: Id, receipt: Receipt)
    requires db.Valid() && id in Run(mark).intents && Justified(Run(mark), Complete(id, receipt))
    requires exists before :: && mark <= before && before + [Complete(id, receipt)] <= db.log
                              && Fires(Run(before), Complete(id, receipt))
    ensures id in db.store.intents && db.store.intents[id].status == Completed
    ensures db.store.intents[id].transactionHash == Some(Lower(receipt.transactionHash))
    ensures ReceiptMatches(db.store.intents[id].request, receipt)
  {
    var e := Complete(id, receipt);
    var before :| mark <= before && before + [e] <= db.log && Fires(Run(before), e);
    RunAppend(before, e);
    PrefixLater(before + [e], db.log);
    assert IntentKept(Run(before + [e]), db.store, id);
  }

  /** The row found for a payment is the only one. */
  lemma OneRowPerPayment(db: Database, row: Id)
    requires db.Valid() && row in db.store.intents
    ensures forall id :: id in db.store.intents
                         && db.store.intents[id].request.LogicalKey() == db.store.intents[row].request.LogicalKey()
                         ==> id == row
  {
    RunKeeps(db.log);
    forall id | id in db.store.intents
                && db.store.intents[id].request.LogicalKey() == db.store.intents[row].request.LogicalKey()
      ensures id == row
    {
      assert !KeyClash(db.store.intents, id, row);
    }
  }

  /** Once a row that carries a hash has won the step to verification it never falls back. */
  lemma VerifyingProgresses(db: Database, mark: seq<Event>, id: Id, from: IntentStatus)
    requires db.Valid() && id in Run(mark).intents
    requires exists before :: mark <= before && before + [Advance(id, from, Verifying)] <= db.log
                              && Fires(Run(before), Advance(id, from, Verifying))
    ensures Run(mark).intents[id].transactionHash.Some? ==>
              id in db.store.intents && Progress(db.store.intents[id].status) >= 1
  {
    hide Run;
    var e := Advance(id, from, Verifying);
    var before :| mark <= before && before + [e] <= db.log && Fires(Run(before), e);
    PrefixLater(mark, before);
    RunAppend(before, e);
    PrefixLater(before + [e], db.log);
    assert IntentKept(Run(mark), Run(before), id);
    assert IntentKept(Run(before + [e]), db.store, id);
  }
}

/** The client-facing handlers of execution intents that combine several service operations. */
module SendIntents {
  import opened Wrappers
  import opened Text
  import opened Rows
  import opened Steps
  import opened Invariants
  import opened Guarantees
  import opened Databases
  import opened ExecutionIntents

  datatype SendError =
    | NotSubmitted
    | VerifierMismatch
    | ReceiptUnavailable
    | IntentTrouble(error: Error)

  /** What the direct-transfer receipt verifier answers; it refuses or is not ready when there is none. */
  type Verdict = Option<Receipt>

  class ExecutionIntentController {
    const intents: ExecutionIntentService
    const db: Database

    predicate Wired() {
      intents.db == db
    }

    constructor (db: Database, intents: ExecutionIntentService)
      requires intents.db == db
      ensures Wired() && this.db == db
    {
      this.db := db;
      this.intents := intents;
    }

    /** Only a client that knows the whole bound request may bind a hash. */
    method BindHash(id: Id, key: IdempotencyKey, hash: string, owner: string, now: Time) returns (r: Answer)
      requires db.Valid() && Wired()
      modifies db
      ensures db.Valid() && old(db.log) <= db.log
      ensures r.Success? ==>
                && id in db.store.intents && r.value == IntentRow(id, db.store.intents[id])
                && r.value.intent.request == key
                && IsTransactionHash(hash) && r.value.intent.transactionHash == Some(Lower(hash))
      ensures old(db.others) == [] ==>
                && r.Success? == (&& id in old(db.store).intents && old(db.store).intents[id].request == key
                                  && BindAllowed(old(db.store), id, hash, owner, false, now))
                && db.store == if r.Success? then Step(old(db.store), Event.BindHash(id, Lower(hash))) else old(db.store)
      ensures old(db.others) == [] && id in old(db.store).intents && old(db.store).intents[id].request == key
              && old(db.store).intents[id].status == Cancelled ==>
                && (r.Success? <==> IsTransactionHash(hash) && !HashTaken(old(db.store), Lower(hash)))
                && (r.Success? ==> r.value.intent.status == Submitted)
    {
      ghost var start := db.log;
      RunKeeps(start);
      if id in db.store.intents && db.store.intents[id].status == Cancelled {
        CancelledTakesHash(db.store, id, hash, owner, false, now);
      }
      hide Step, BindAllowed, OnlyVerified, RowsOk, KeysUnique, HashesUnique;
      r := intents.AssertAccess(id, key);
      if r.Failure? {
        return;
      }
      ghost var mark := db.log;
      r := intents.BindTransactionHash(id, hash, owner, false, now);
      Since(db, mark);
      assert IntentKept(Run(mark), db.store, id);
    }

    /** The access check and the start of the verification. */
    method Begin(id: Id, key: IdempotencyKey) returns (r: Answer)
      requires db.Valid() && Wired()
      modifies db
      ensures db.Valid() && old(db.log) <= db.log
      ensures r.Success? ==>
                && id in db.store.intents && r.value == IntentRow(id, db.store.intents[id])
                && r.value.intent.request == key
      ensures old(db.others) == [] && id in old(db.store).intents && old(db.store).intents[id].request == key ==>
                var i := old(db.store).intents[id];
                && db.others == [] && r.Success?
                && db.store == WithIntent(old(db.store), id, VerificationStarted(i))
                && (i.transactionHash.Some? && i.status != FailedFinal ==>
                      r.value.intent.status == Verifying || r.value.intent.status == Completed)
    {
      ghost var start := db.log;
      RunKeeps(start);
      r := intents.AssertAccess(id, key);
      if r.Failure? {
        return;
      }
      ghost var mark := db.log;
      r := intents.BeginVerification(id);
      Since(db, mark);
      assert IntentKept(Run(mark), db.store, id);
      if id in Run(start).intents && Run(start).intents[id].transactionHash.Some? {
        HashBearingStarts(Run(start), id);
      }
    }

    /** Whether the intent can be verified as a direct transfer. */
    function Refusal(i: Intent): Option<SendError> {
      if i.transactionHash.None? || i.request.recipient.None? then Some(NotSubmitted)
      else if i.request.operation != Send then Some(VerifierMismatch)
      else None
    }

    method Verify(id: Id, key: IdempotencyKey, verdict: Verdict) returns (r: Result<IntentRow, SendError>)
      requires db.Valid() && Wired()
      modifies db
      ensures db.Valid() && old(db.log) <= db.log
      ensures r.Success? ==>
                && id in db.store.intents && r.value == IntentRow(id, db.store.intents[id])
                && r.value.intent.request == key && key.operation == Send
                && r.value.intent.status == Completed
                && verdict.Some? && ReceiptMatches(key, verdict.value)
                && r.value.intent.transactionHash == Some(Lower(verdict.value.transactionHash))
      ensures old(db.others) == [] && id in old(db.store).intents && old(db.store).intents[id].request == key ==>
                var i := old(db.store).intents[id];
                && (Refusal(i).Some? ==>
                      && r == Failure(Refusal(i).value)
                      && db.store == WithIntent(old(db.store), id, VerificationStarted(i)))
                && (Refusal(i).None? && Proves(i, verdict) && i.status != FailedFinal ==>
                      && r.Success?
                      && db.store == WithIntent(old(db.store), id, i.(status := Completed)))
      ensures old(db.others) == [] && id in old(db.store).intents && old(db.store).intents[id].request == key ==>
                var i := old(db.store).intents[id];
                if i.transactionHash.None? || i.request.recipient.None? then r == Failure(NotSubmitted)
                else if i.request.operation != Send then r == Failure(VerifierMismatch)
                else if verdict.None? then r == Failure(ReceiptUnavailable)
                else
                  && (r.Success? <==>
                        && IsTransactionHash(verdict.value.transactionHash)
                        && i.transactionHash == Some(Lower(verdict.value.transactionHash))
                        && i.request.sourceWallet == verdict.value.sourceWallet
                        && i.request.tokenOut == verdict.value.token && i.request.amountUnits == verdict.value.amountUnits
                        && i.request.recipient == verdict.value.recipient)
                  && (r.Failure? ==>
                        r.error == IntentTrouble(if IsTransactionHash(verdict.value.transactionHash) then ReceiptMismatch
                                                 else HashConflict))
    {
      hide Run, Step, OnlyVerified;
      ghost var start := db.log;
      if id in db.store.intents && db.store.intents[id].transactionHash.Some? {
        TransferStarts(start, id);
      }
      var row := Begin(id, key);
      if row.Failure? {
        return Failure(IntentTrouble(row.error));
      }
      r := Judge(row.value, verdict);
    }

    /** The refusals, and then the completion on the verifier's receipt. */
    method Judge(row: IntentRow, verdict: Verdict) returns (r: Result<IntentRow, SendError>)
      requires db.Valid() && Wired() && row.id in db.store.intents && row.intent == db.store.intents[row.id]
      modifies db
      ensures db.Valid() && old(db.log) <= db.log
      ensures r.Success? ==>
                && row.id in db.store.intents && r.value == IntentRow(row.id, db.store.intents[row.id])
                && r.value.intent.request == row.intent.request && row.intent.request.operation == Send
                && r.value.intent.status == Completed
                && verdict.Some? && ReceiptMatches(row.intent.request, verdict.value)
                && r.value.intent.transactionHash == Some(Lower(verdict.value.transactionHash))
      ensures old(db.others) == [] ==>
                if row.intent.transactionHash.None? || row.intent.request.recipient.None?
                then r == Failure(NotSubmitted) && db.store == old(db.store)
                else if row.intent.request.operation != Send then r == Failure(VerifierMismatch) && db.store == old(db.store)
                else if verdict.None? then r == Failure(ReceiptUnavailable) && db.store == old(db.store)
                else
                  && (r.Success? <==> Proves(row.intent, verdict)
                                      && (row.intent.status == Verifying || row.intent.status == Completed))
                  && (r.Success? ==> db.store == WithIntent(old(db.store), row.id, row.intent.(status := Completed)))
                  && (r.Failure? ==>
                        r.error == IntentTrouble(if IsTransactionHash(verdict.value.transactionHash) then ReceiptMismatch
                                                 else HashConflict))
    {
      hide Run, Step, OnlyVerified;
      if Refusal(row.intent).Some? {
        return Failure(Refusal(row.intent).value);
      }
      if verdict.None? {
        return Failure(ReceiptUnavailable);
      }
      ghost var begun := db.log;
      var done := intents.CompleteWithVerifiedReceipt(row.id, verdict.value);
      Since(db, begun);
      assert IntentKept(Run(begun), db.store, row.id);
      return if done.Success? then Success(done.value) else Failure(IntentTrouble(done.error));
    }
  }

  /** A transfer with a hash is being verified, or done, once its verification starts. */
  lemma TransferStarts(es: seq<Event>, id: Id)
    requires id in Run(es).intents && Run(es).intents[id].transactionHash.Some?
    ensures var i := Run(es).intents[id];
            var begun := VerificationStarted(i);
            && begun == i.(status := begun.status)
            && (i.request.operation == Send ==> begun.status == Verifying || begun.status == Completed)
            && (i.status == Completed ==> begun.status == Completed)
            && WithIntent(WithIntent(Run(es), id, begun), id, begun.(status := Completed))
               == WithIntent(Run(es), id, i.(status := Completed))
  {
    RunKeeps(es);
    assert RowAt(Run(es).intents, id);
    var i := Run(es).intents[id];
    var begun := VerificationStarted(i);
    assert Run(es).intents[id := begun][id := begun.(status := Completed)] == Run(es).intents[id := i.(status := Completed)];
  }

  /** An intent that has a hash and is not failed for good is being verified, or done, once verification starts. */
  lemma HashBearingStarts(s: Store, id: Id)
    requires Inv(s) && id in s.intents && s.intents[id].transactionHash.Some?
    ensures s.intents[id].status == FailedFinal
         || VerificationStarted(s.intents[id]).status == Verifying
         || VerificationStarted(s.intents[id]).status == Completed
  {
    assert RowAt(s.intents, id);
  }

  /** The verdict is for the intent's own hash and agrees with its bound columns. */
  predicate Proves(i: Intent, verdict: Verdict) {
    && verdict.Some? && IsTransactionHash(verdict.value.transactionHash)
    && i.transactionHash == Some(Lower(verdict.value.transactionHash))
    && ReceiptMatches(i.request, verdict.value)
  }
}

/**
 Payroll tasks: creating one with an intent for every batch, reporting its units, and
 reconciling it with its intents after an interruption.
 */
module PayrollTasks {
  import opened Wrappers
  import opened Text
  import opened Rows
  import opened Arithmetic
  import opened BatchReferences
  import opened Steps
  import opened Invariants
  import opened Guarantees
  import opened Databases
  import opened ExecutionIntents

  datatype TaskError =
    | TaskNotFound
    | UnitNotFound
    | IntentRequired
    | UnitDoesNotMatchIntent
    | ReceiptPending
    | ReceiptRefused
    | IntentTrouble(error: Error)

  /** What the payroll receipt verifier answers for a transaction. */
  datatype PayrollVerdict = PayrollVerified(receipt: Receipt) | PayrollTryAgain | PayrollRefused

  /** A receipt in the verdict is one that the verifier reported. */
  predicate IsAttested(db: Database, verdict: PayrollVerdict) {
    verdict.PayrollVerified? ==> db.verified(verdict.receipt)
  }

  datatype Report = Report(task: Task, unit: Unit, nextUnit: Option<nat>)

  /** A reported transaction id is kept only in the shape of a transaction hash. */
  function NormalizeTxId(txHash: Option<string>): Option<string> {
    if txHash.Some? && IsTransactionHash(Trim(txHash.value)) then Some(Trim(txHash.value)) else None
  }

  function NormalizeUpdate(txHash: HashUpdate): HashUpdate {
    if txHash.SetHash? then SetHash(NormalizeTxId(txHash.value)) else KeepHash
  }

  /** The status a request body brings. Without one the update leaves the column, which is PENDING when it takes effect. */
  function ReadUnitStatus(text: Option<string>): UnitStatus {
    if text.None? || text.value == "PENDING" then UnitPending
    else if text.value == "SUCCESS" then UnitSuccess
    else if text.value == "FAILED" then UnitFailed
    else UnitOther(text.value)
  }

  /** The first unit that is still to be reported. */
  function FirstPending(units: seq<Unit>, from: nat): (r: Option<nat>)
    requires from <= |units|
    ensures r.Some? ==> from <= r.value < |units| && units[r.value].status == UnitPending
    ensures r.Some? ==> forall k | from <= k < r.value :: units[k].status != UnitPending
    ensures r.None? ==> forall k | from <= k < |units| :: units[k].status != UnitPending
    decreases |units| - from
  {
    if from == |units| then None
    else if units[from].status == UnitPending then Some(from)
    else FirstPending(units, from + 1)
  }

  ghost predicate MayReport(s: Store, t: Id, index: nat, result: UnitStatus, txHash: HashUpdate) {
    result == UnitSuccess ==>
      && t in s.tasks && index < |s.tasks[t].units|
      && txHash.SetHash? && txHash.value.Some? && IsTransactionHash(txHash.value.value)
      && UnitSettled(s, s.tasks[t].units[index], txHash.value)
  }

  lemma MayStillReport(db: Database, mark: seq<Event>, t: Id, index: nat, result: UnitStatus, txHash: HashUpdate)
    requires db.Valid() && mark <= db.log && MayReport(Run(mark), t, index, result, txHash)
    ensures MayReport(db.store, t, index, result, txHash)
  {
    if result == UnitSuccess {
      var s := Run(mark);
      Since(db, mark);
      assert TaskKept(s, db.store, t) && UnitKept(s.tasks[t], db.store.tasks[t], index);
      assert IntentKept(s, db.store, s.tasks[t].units[index].intentId);
    }
  }

  class TaskUnitService {
    const db: Database

    constructor (db: Database)
      ensures this.db == db
    {
      this.db := db;
    }

    /** The write of the transaction: a unit that was already reported is left as it is. */
    method Apply(t: Id, index: nat, result: UnitStatus, txHash: HashUpdate)
      requires db.Valid() && Justified(db.store, Event.ReportUnit(t, index, result, txHash))
      modifies db
      ensures db.Valid() && old(db.log) <= db.log
      ensures db.store == Step(old(db.store), Event.ReportUnit(t, index, result, txHash)) && db.others == old(db.others)
    {
      if db.store.tasks[t].units[index].status == UnitPending {
        var reported := db.Write(Event.ReportUnit(t, index, result, txHash));
      }
    }

    /** Report a unit once; the answer shows the task and the first unit still to be reported. */
    method ReportUnit(t: Id, index: nat, result: UnitStatus, txHash: HashUpdate)
      returns (r: Result<Report, TaskError>)
      requires db.Valid() && MayReport(db.store, t, index, result, txHash)
      modifies db
      ensures db.Valid() && old(db.log) <= db.log
      ensures r.Success? ==>
                && t in db.store.tasks && r.value.task == db.store.tasks[t]
                && index < |r.value.task.units| && r.value.unit == r.value.task.units[index]
                && (result != UnitPending ==> r.value.unit.status != UnitPending)
                && r.value.nextUnit == FirstPending(r.value.task.units, 0)
      ensures r.Failure? ==> r.error == UnitNotFound && (t !in db.store.tasks || |db.store.tasks[t].units| <= index)
      ensures old(db.others) == [] ==>
                && db.others == []
                && db.store == Step(old(db.store), Event.ReportUnit(t, index, result, NormalizeUpdate(txHash)))
    {
      hide Run, OnlyVerified;
      ghost var start := db.log;
      db.RoundTrip();
      MayStillReport(db, start, t, index, result, txHash);
      if t !in db.store.tasks || |db.store.tasks[t].units| <= index {
        return Failure(UnitNotFound);
      }
      NormalizedReport(db.store, t, index, result, txHash);
      Apply(t, index, result, NormalizeUpdate(txHash));
      var task := db.store.tasks[t];
      return Success(Report(task, task.units[index], FirstPending(task.units, 0)));
    }
  }

  lemma NormalizedReport(s: Store, t: Id, index: nat, result: UnitStatus, txHash: HashUpdate)
    requires MayReport(s, t, index, result, txHash) && t in s.tasks && index < |s.tasks[t].units|
    ensures Justified(s, Event.ReportUnit(t, index, result, NormalizeUpdate(txHash)))
  {
    if txHash.SetHash? && txHash.value.Some? && IsTransactionHash(txHash.value.value) {
      HashIsTrimmed(txHash.value.value);
    }
  }

  // ---- Which intent belongs to which unit -----------------------------------------------

  lemma SameKeySameIntent(s: Store, a: Id, b: Id)
    requires Inv(s) && a in s.intents && b in s.intents
    requires SamePayroll(s.intents[a].request, s.intents[b].request)
    requires s.intents[a].request.externalReference == s.intents[b].request.externalReference
    ensures a == b
  {
    assert !KeyClash(s.intents, a, b);
  }

  /** An intent that is attached to a task and carries a unit's reference is the unit's own intent. */
  lemma AttachedIntentIsPlanned(s: Store, t: Id, index: nat, id: Id)
    requires Inv(s) && t in s.tasks && index < |s.tasks[t].units| && id in s.intents
    requires s.intents[id].taskId == Some(t)
    requires s.intents[id].request.externalReference == s.tasks[t].units[index].reference
    ensures id == s.tasks[t].units[index].intentId
  {
    assert AttachmentAt(s, id) && TaskAt(s, t) && UnitAt(s, t, index);
    SameKeySameIntent(s, id, s.tasks[t].units[index].intentId);
  }

  /** A plan of intents for the batches of one run, the first of which names the task. */
  ghost predicate IsPlan(s: Store, plan: seq<PlannedUnit>) {
    && plan != []
    && forall k :: PlannedAt(s, plan, k)
  }

  ghost predicate PlannedAt(s: Store, plan: seq<PlannedUnit>, k: int)
    requires plan != []
  {
    0 <= k < |plan| ==>
      && PlanHolds(s, plan[0].intentId, plan[k])
      && plan[k].reference == BatchReference(plan[0].reference, k)
  }

  lemma PlanStays(db: Database, mark: seq<Event>, plan: seq<PlannedUnit>)
    requires db.Valid() && mark <= db.log && IsPlan(Run(mark), plan)
    ensures IsPlan(db.store, plan)
  {
    var s := Run(mark);
    Since(db, mark);
    forall k
      ensures PlannedAt(db.store, plan, k)
    {
      assert PlannedAt(s, plan, k);
      if 0 <= k < |plan| {
        assert IntentKept(s, db.store, plan[0].intentId) && IntentKept(s, db.store, plan[k].intentId);
      }
    }
  }

  /** The units of an existing task were planned for the same intents as a later plan of the same run. */
  lemma PlansAgree(s: Store, plan: seq<PlannedUnit>, k: nat)
    requires Inv(s) && IsPlan(s, plan) && plan[0].intentId in s.tasks
    requires k < |plan| && k < |s.tasks[plan[0].intentId].units|
    ensures s.tasks[plan[0].intentId].units[k].intentId == plan[k].intentId
  {
    var t := plan[0].intentId;
    var task := s.tasks[t];
    assert TaskAt(s, t) && UnitAt(s, t, 0) && UnitAt(s, t, k) && ReferenceAt(task, k);
    assert PlannedAt(s, plan, 0) && PlannedAt(s, plan, k);
    SameKeySameIntent(s, task.units[k].intentId, plan[k].intentId);
  }

  ghost predicate IsReported(s: Store, t: Id, k: nat) {
    t in s.tasks && k < |s.tasks[t].units| && s.tasks[t].units[k].status != UnitPending
  }

  ghost predicate HasEvidence(s: Store, id: Id) {
    id in s.intents && s.intents[id].transactionHash.Some?
  }

  /**
   A unit whose batch had been submitted before the reconciliation is no longer pending
   after it, unless its receipt was not available yet.
   */
  ghost predicate CaughtUp(before: Store, now: Store, plan: seq<PlannedUnit>, verdicts: seq<PayrollVerdict>,
                           upTo: nat, k: int) {
    && plan != [] && |verdicts| == |plan| && plan[0].intentId in before.tasks
    && (0 <= k < upTo && k < |plan| && k < |before.tasks[plan[0].intentId].units|
        && HasEvidence(before, plan[k].intentId) && !verdicts[k].PayrollTryAgain? ==>
          IsReported(now, plan[0].intentId, k))
  }

  lemma EvidenceStays(db: Database, mark: seq<Event>, id: Id)
    requires db.Valid() && mark <= db.log
    ensures HasEvidence(Run(mark), id) ==>
              && HasEvidence(db.store, id)
              && (db.store.intents[id].status == Submitted || db.store.intents[id].status == Verifying
                  || db.store.intents[id].status == Completed || db.store.intents[id].status == FailedFinal)
  {
    Since(db, mark);
    assert IntentKept(Run(mark), db.store, id) && RowAt(db.store.intents, id);
  }

  lemma ReportStays(db: Database, mark: seq<Event>, t: Id, k: nat)
    requires db.Valid() && mark <= db.log && IsReported(Run(mark), t, k)
    ensures IsReported(db.store, t, k)
  {
    Since(db, mark);
    assert TaskKept(Run(mark), db.store, t) && UnitKept(Run(mark).tasks[t], db.store.tasks[t], k);
  }

  lemma CaughtUpStays(db: Database, before: Store, mark: seq<Event>, plan: seq<PlannedUnit>,
                      verdicts: seq<PayrollVerdict>, k: nat, next: nat)
    requires db.Valid() && mark <= db.log && k < |plan| && next == k + 1
    requires forall j :: CaughtUp(before, Run(mark), plan, verdicts, k, j)
    requires (k < |before.tasks[plan[0].intentId].units| && HasEvidence(before, plan[k].intentId)
              && !verdicts[k].PayrollTryAgain?) ==> IsReported(db.store, plan[0].intentId, k)
    ensures forall j :: CaughtUp(before, db.store, plan, verdicts, next, j)
  {
    forall j
      ensures CaughtUp(before, db.store, plan, verdicts, next, j)
    {
      assert CaughtUp(before, Run(mark), plan, verdicts, k, j);
      if 0 <= j < k && IsReported(Run(mark), plan[0].intentId, j) {
        ReportStays(db, mark, plan[0].intentId, j);
      }
    }
  }

  lemma CaughtUpRemains(db: Database, before: Store, mark: seq<Event>, plan: seq<PlannedUnit>,
                        verdicts: seq<PayrollVerdict>)
    requires db.Valid() && mark <= db.log
    requires forall j :: CaughtUp(before, Run(mark), plan, verdicts, |plan|, j)
    ensures forall j :: CaughtUp(before, db.store, plan, verdicts, |plan|, j)
  {
    forall j
      ensures CaughtUp(before, db.store, plan, verdicts, |plan|, j)
    {
      assert CaughtUp(before, Run(mark), plan, verdicts, |plan|, j);
      if 0 <= j && IsReported(Run(mark), plan[0].intentId, j) {
        ReportStays(db, mark, plan[0].intentId, j);
      }
    }
  }

  // ---- What reconciling a unit does when nobody interferes ----------------------------------

  /** The verdict is a receipt that completes the intent. */
  predicate Supports(i: Intent, verdict: PayrollVerdict) {
    i.request.batchDigest.Some? && verdict.PayrollVerified? && IsAccepted(i, verdict.receipt)
  }

  function GivenUp(i: Intent): Intent {
    i.(status := FailedFinal)
  }

  lemma SameIntent(s: Store, id: Id)
    requires id in s.intents
    ensures WithIntent(s, id, s.intents[id]) == s
  {
    assert s.intents[id := s.intents[id]] == s.intents;
  }

  lemma TwoIntentWrites(s: Store, id: Id, i: Intent, j: Intent)
    ensures WithIntent(WithIntent(s, id, i), id, j) == WithIntent(s, id, j)
  {
    assert s.intents[id := i][id := j] == s.intents[id := j];
  }

  /**
   A submitted hash is decided by the verdict: a receipt that completes the intent makes the unit a
   success, one that is not available yet leaves it pending, and any other closes the intent and
   makes the unit a failure.
   */
  function Decided(s: Store, t: Id, k: nat, id: Id, verdict: PayrollVerdict): Store
    requires id in s.intents
  {
    var begun := VerificationStarted(s.intents[id]);
    var hash := SetHash(NormalizeTxId(s.intents[id].transactionHash));
    if Supports(begun, verdict)
    then Step(WithIntent(s, id, Accepted(begun)), Event.ReportUnit(t, k, UnitSuccess, hash))
    else if begun.request.batchDigest.Some? && verdict.PayrollTryAgain? then WithIntent(s, id, begun)
    else Step(WithIntent(s, id, GivenUp(begun)), Event.ReportUnit(t, k, UnitFailed, hash))
  }

  predicate IsUndecided(i: Intent) {
    i.transactionHash.Some? && (i.status == Submitted || i.status == Verifying)
  }

  /**
   The unit follows its intent: a completed intent makes it a success, a closed one a failure, a
   submitted hash is decided by the verdict, and an intent without one leaves the unit pending.
   */
  function Reconciled(s: Store, t: Id, k: nat, id: Id, verdict: PayrollVerdict): Store
    requires id in s.intents
  {
    var i := s.intents[id];
    if i.status == Completed then Step(s, Event.ReportUnit(t, k, UnitSuccess, SetHash(NormalizeTxId(i.transactionHash))))
    else if i.status.IsTerminal() then Step(s, Event.ReportUnit(t, k, UnitFailed, KeepHash))
    else if IsUndecided(i) then Decided(s, t, k, id, verdict)
    else s
  }

  /** The first n of `count` units, one after the other. */
  ghost function ReconciledAll(s: Store, plan: seq<PlannedUnit>, verdicts: seq<PayrollVerdict>, count: nat, n: nat): Store
    requires plan != [] && |verdicts| == |plan| && n <= |plan|
  {
    if n == 0 then s
    else
      var before := ReconciledAll(s, plan, verdicts, count, n - 1);
      var id := plan[n - 1].intentId;
      if n - 1 < count && id in before.intents
      then Reconciled(before, plan[0].intentId, n - 1, id, verdicts[n - 1])
      else before
  }

  /** What a pending unit becomes when it is reconciled. */
  function Outcome(i: Intent, verdict: PayrollVerdict): UnitStatus {
    if i.status == Completed then UnitSuccess
    else if i.status.IsTerminal() then UnitFailed
    else if !IsUndecided(i) then UnitPending
    else if Supports(VerificationStarted(i), verdict) then UnitSuccess
    else if i.request.batchDigest.Some? && verdict.PayrollTryAgain? then UnitPending
    else UnitFailed
  }

  /** The hash that goes with it: a unit that is decided by its transaction carries it. */
  function OutcomeHash(i: Intent, verdict: PayrollVerdict, was: Option<string>): Option<string> {
    if i.status == Completed || (IsUndecided(i) && Outcome(i, verdict) != UnitPending) then i.transactionHash else was
  }

  /** What becomes of the intent. */
  function OutcomeIntent(i: Intent, verdict: PayrollVerdict): Intent {
    var begun := VerificationStarted(i);
    if !IsUndecided(i) then i
    else if Supports(begun, verdict) then Accepted(begun)
    else if i.request.batchDigest.Some? && verdict.PayrollTryAgain? then begun
    else GivenUp(begun)
  }

  /** The unit after its turn. */
  function AfterTurn(unit: Unit, i: Intent, verdict: PayrollVerdict): Unit {
    unit.(status := Outcome(i, verdict), txHash := OutcomeHash(i, verdict, unit.txHash))
  }

  /** A unit together with its intent, as far as reconciling reads and writes them. */
  ghost predicate SameUnit(s: Store, r: Store, t: Id, k: nat, id: Id) {
    && t in s.tasks && t in r.tasks && |r.tasks[t].units| == |s.tasks[t].units| && k < |s.tasks[t].units|
    && r.tasks[t].units[k] == s.tasks[t].units[k]
    && id in s.intents && id in r.intents && r.intents[id] == s.intents[id]
  }

  lemma ReportLeavesOthers(s: Store, t: Id, j: nat, result: UnitStatus, txHash: HashUpdate, k: nat, id: Id)
    requires SameUnit(s, s, t, k, id) && j != k
    ensures SameUnit(s, Step(s, Event.ReportUnit(t, j, result, txHash)), t, k, id)
  {}

  lemma ReconcilingOthers(s: Store, t: Id, j: nat, other: Id, verdict: PayrollVerdict, k: nat, id: Id)
    requires other in s.intents && SameUnit(s, s, t, k, id) && other != id && j != k
    ensures SameUnit(s, Reconciled(s, t, j, other, verdict), t, k, id)
  {
    hide Step, Supports;
    var begun := VerificationStarted(s.intents[other]);
    var hash := SetHash(NormalizeTxId(s.intents[other].transactionHash));
    ReportLeavesOthers(s, t, j, UnitSuccess, hash, k, id);
    ReportLeavesOthers(s, t, j, UnitFailed, KeepHash, k, id);
    ReportLeavesOthers(WithIntent(s, other, Accepted(begun)), t, j, UnitSuccess, hash, k, id);
    ReportLeavesOthers(WithIntent(s, other, GivenUp(begun)), t, j, UnitFailed, hash, k, id);
  }

  ghost predicate IsReady(s: Store, t: Id, k: nat, id: Id) {
    && t in s.tasks && k < |s.tasks[t].units| && id in s.intents
    && s.tasks[t].units[k].status == UnitPending && s.tasks[t].units[k].intentId == id
    && (s.intents[id].status == Completed ==> s.intents[id].transactionHash.Some?)
    && (s.intents[id].transactionHash.Some? ==> IsStoredHash(s.intents[id].transactionHash.value))
  }

  lemma ReportTakes(s: Store, t: Id, k: nat, result: UnitStatus, txHash: HashUpdate)
    requires t in s.tasks && k < |s.tasks[t].units| && s.tasks[t].units[k].status == UnitPending
    requires result == UnitSuccess ==> txHash.SetHash? && UnitSettled(s, s.tasks[t].units[k], txHash.value)
    ensures var r := Step(s, Event.ReportUnit(t, k, result, txHash));
            && t in r.tasks && |r.tasks[t].units| == |s.tasks[t].units|
            && r.tasks[t].units[k] == s.tasks[t].units[k].(status := result, txHash := txHash.Over(s.tasks[t].units[k].txHash))
            && r.intents == s.intents
  {}

  lemma StoredHashIsKept(hash: Option<TxHash>)
    requires hash.Some? && IsStoredHash(hash.value)
    ensures NormalizeTxId(hash) == hash && Lower(hash.value) == hash.value
  {
    HashIsTrimmed(hash.value);
  }

  lemma DecidingUnit(s: Store, t: Id, k: nat, id: Id, verdict: PayrollVerdict)
    requires IsReady(s, t, k, id) && IsUndecided(s.intents[id])
    ensures var r := Decided(s, t, k, id, verdict);
            && t in r.tasks && |r.tasks[t].units| == |s.tasks[t].units|
            && r.tasks[t].units[k] == AfterTurn(s.tasks[t].units[k], s.intents[id], verdict)
            && id in r.intents && r.intents[id] == OutcomeIntent(s.intents[id], verdict)
  {
    hide Step, Supports;
    var hash := s.intents[id].transactionHash;
    StoredHashIsKept(hash);
    var begun := VerificationStarted(s.intents[id]);
    ReportTakes(WithIntent(s, id, Accepted(begun)), t, k, UnitSuccess, SetHash(hash));
    ReportTakes(WithIntent(s, id, GivenUp(begun)), t, k, UnitFailed, SetHash(hash));
  }

  lemma ReconcilingUnit(s: Store, t: Id, k: nat, id: Id, verdict: PayrollVerdict)
    requires IsReady(s, t, k, id)
    ensures var r := Reconciled(s, t, k, id, verdict);
            && t in r.tasks && |r.tasks[t].units| == |s.tasks[t].units|
            && r.tasks[t].units[k] == AfterTurn(s.tasks[t].units[k], s.intents[id], verdict)
            && id in r.intents && r.intents[id] == OutcomeIntent(s.intents[id], verdict)
  {
    hide Step, Supports, Decided;
    if IsUndecided(s.intents[id]) {
      DecidingUnit(s, t, k, id, verdict);
    } else if s.intents[id].status == Completed {
      StoredHashIsKept(s.intents[id].transactionHash);
      ReportTakes(s, t, k, UnitSuccess, SetHash(s.intents[id].transactionHash));
    } else {
      ReportTakes(s, t, k, UnitFailed, KeepHash);
    }
  }

  /** The unit's own turn decides it, and no other unit's turn touches it. */
  lemma {:induction false} OutcomeOfUnit(s: Store, plan: seq<PlannedUnit>, verdicts: seq<PayrollVerdict>, count: nat,
                                         n: nat, k: nat)
    requires plan != [] && |verdicts| == |plan| && k < n <= |plan| && k < count
    requires IsReady(s, plan[0].intentId, k, plan[k].intentId)
    requires forall j | 0 <= j < |plan| && j != k :: plan[j].intentId != plan[k].intentId
    ensures var r := ReconciledAll(s, plan, verdicts, count, n);
            var t := plan[0].intentId;
            && t in r.tasks && |r.tasks[t].units| == |s.tasks[t].units|
            && r.tasks[t].units[k] == AfterTurn(s.tasks[t].units[k], s.intents[plan[k].intentId], verdicts[k])
            && plan[k].intentId in r.intents
            && r.intents[plan[k].intentId] == OutcomeIntent(s.intents[plan[k].intentId], verdicts[k])
    decreases n
  {
    hide Reconciled, Outcome, AfterTurn, OutcomeIntent;
    var t, id := plan[0].intentId, plan[k].intentId;
    var before := ReconciledAll(s, plan, verdicts, count, n - 1);
    if n - 1 == k {
      UntouchedUnit(s, plan, verdicts, count, k, k);
      ReconcilingUnit(before, t, k, id, verdicts[k]);
    } else {
      OutcomeOfUnit(s, plan, verdicts, count, n - 1, k);
      var other := plan[n - 1].intentId;
      if n - 1 < count && other in before.intents {
        UntouchedStatus(before, t, n - 1, other, verdicts[n - 1], k);
        UntouchedIntent(before, t, n - 1, other, verdicts[n - 1], id);
      }
    }
  }

  lemma UntouchedStatus(s: Store, t: Id, j: nat, other: Id, verdict: PayrollVerdict, k: nat)
    requires other in s.intents && j != k && t in s.tasks && k < |s.tasks[t].units|
    ensures var r := Reconciled(s, t, j, other, verdict);
            && t in r.tasks && |r.tasks[t].units| == |s.tasks[t].units|
            && r.tasks[t].units[k] == s.tasks[t].units[k]
  {
    hide Step, Supports;
    var begun := VerificationStarted(s.intents[other]);
    var hash := SetHash(NormalizeTxId(s.intents[other].transactionHash));
    ReportLeavesUnits(s, t, j, UnitSuccess, hash, k);
    ReportLeavesUnits(s, t, j, UnitFailed, KeepHash, k);
    ReportLeavesUnits(WithIntent(s, other, Accepted(begun)), t, j, UnitSuccess, hash, k);
    ReportLeavesUnits(WithIntent(s, other, GivenUp(begun)), t, j, UnitFailed, hash, k);
  }

  lemma UntouchedIntent(s: Store, t: Id, j: nat, other: Id, verdict: PayrollVerdict, id: Id)
    requires other in s.intents && id in s.intents && id != other
    ensures var r := Reconciled(s, t, j, other, verdict);
            id in r.intents && r.intents[id] == s.intents[id]
  {
    hide Step, Supports;
    var begun := VerificationStarted(s.intents[other]);
    var hash := SetHash(NormalizeTxId(s.intents[other].transactionHash));
    ReportLeavesIntents(s, t, j, UnitSuccess, hash);
    ReportLeavesIntents(s, t, j, UnitFailed, KeepHash);
    ReportLeavesIntents(WithIntent(s, other, Accepted(begun)), t, j, UnitSuccess, hash);
    ReportLeavesIntents(WithIntent(s, other, GivenUp(begun)), t, j, UnitFailed, hash);
  }

  lemma ReportLeavesIntents(s: Store, t: Id, j: nat, result: UnitStatus, txHash: HashUpdate)
    ensures Step(s, Event.ReportUnit(t, j, result, txHash)).intents == s.intents
  {}

  lemma ReportLeavesUnits(s: Store, t: Id, j: nat, result: UnitStatus, txHash: HashUpdate, k: nat)
    requires t in s.tasks && k < |s.tasks[t].units| && j != k
    ensures var r := Step(s, Event.ReportUnit(t, j, result, txHash));
            && t in r.tasks && |r.tasks[t].units| == |s.tasks[t].units|
            && r.tasks[t].units[k] == s.tasks[t].units[k]
  {}

  lemma {:induction false} UntouchedUnit(s: Store, plan: seq<PlannedUnit>, verdicts: seq<PayrollVerdict>, count: nat,
                                         n: nat, k: nat)
    requires plan != [] && |verdicts| == |plan| && n <= k < |plan|
    requires SameUnit(s, s, plan[0].intentId, k, plan[k].intentId)
    requires forall j | 0 <= j < |plan| && j != k :: plan[j].intentId != plan[k].intentId
    ensures SameUnit(s, ReconciledAll(s, plan, verdicts, count, n), plan[0].intentId, k, plan[k].intentId)
  {
    hide Reconciled;
    if n > 0 {
      UntouchedUnit(s, plan, verdicts, count, n - 1, k);
      var before := ReconciledAll(s, plan, verdicts, count, n - 1);
      if n - 1 < count && plan[n - 1].intentId in before.intents {
        ReconcilingOthers(before, plan[0].intentId, n - 1, plan[n - 1].intentId, verdicts[n - 1], k, plan[k].intentId);
      }
    }
  }

  /** Nothing but noted statuses differs. */
  ghost predicate OnlyNotes(s: Store, r: Store, t: Id) {
    && t in s.tasks && t in r.tasks && r.intents == s.intents
    && |r.tasks[t].units| == |s.tasks[t].units|
    && forall j | 0 <= j < |s.tasks[t].units| ::
         && r.tasks[t].units[j].status == s.tasks[t].units[j].status
         && r.tasks[t].units[j].txHash == s.tasks[t].units[j].txHash
  }

  ghost predicate IsNoted(s: Store, t: Id, j: nat, id: Id) {
    && t in s.tasks && j < |s.tasks[t].units| && id in s.intents
    && s.tasks[t].units[j].notedStatus == Some(s.intents[id].status)
  }

  /**
   A pending unit whose intent no other batch shares ends with its own outcome and the hash that goes
   with it, and carries the status its intent ended with.
   */
  ghost predicate HasOutcome(s: Store, r: Store, plan: seq<PlannedUnit>, verdicts: seq<PayrollVerdict>, k: nat)
    requires k < |plan| && |verdicts| == |plan|
  {
    var t, id := plan[0].intentId, plan[k].intentId;
    (IsReady(s, t, k, id) && forall j | 0 <= j < |plan| && j != k :: plan[j].intentId != id) ==>
      && IsNoted(r, t, k, id)
      && r.tasks[t].units[k].status == Outcome(s.intents[id], verdicts[k])
      && r.tasks[t].units[k].txHash == OutcomeHash(s.intents[id], verdicts[k], s.tasks[t].units[k].txHash)
      && r.intents[id] == OutcomeIntent(s.intents[id], verdicts[k])
  }

  lemma Noting(reconciled: Store, s: Store, plan: seq<PlannedUnit>, k: nat, count: nat)
    requires k < |plan| && k < count && OnlyNotes(reconciled, s, plan[0].intentId)
    requires count <= |s.tasks[plan[0].intentId].units|
    requires plan[k].intentId in s.intents
    requires forall j | 0 <= j < k && j < count :: IsNoted(s, plan[0].intentId, j, plan[j].intentId)
    ensures var r := Step(s, NoteUnit(plan[0].intentId, k, s.intents[plan[k].intentId].status));
            && OnlyNotes(reconciled, r, plan[0].intentId)
            && forall j | 0 <= j < k + 1 && j < count :: IsNoted(r, plan[0].intentId, j, plan[j].intentId)
  {}

  lemma OutcomeIsKept(s: Store, r: Store, plan: seq<PlannedUnit>, verdicts: seq<PayrollVerdict>, count: nat, k: nat)
    requires k < |plan| && |verdicts| == |plan| && plan[0].intentId in s.tasks
    requires count == |s.tasks[plan[0].intentId].units|
    requires OnlyNotes(ReconciledAll(s, plan, verdicts, count, |plan|), r, plan[0].intentId)
    requires forall j | 0 <= j < |plan| && j < count :: IsNoted(r, plan[0].intentId, j, plan[j].intentId)
    ensures HasOutcome(s, r, plan, verdicts, k)
  {
    var t, id := plan[0].intentId, plan[k].intentId;
    if IsReady(s, t, k, id) && forall j | 0 <= j < |plan| && j != k :: plan[j].intentId != id {
      OutcomeOfUnit(s, plan, verdicts, count, |plan|, k);
    }
  }

  /** The first intents of a plan are attached. */
  ghost predicate AttachedAt(s: Store, plan: seq<PlannedUnit>, upTo: nat, j: int) {
    0 <= j < upTo && j < |plan| ==>
      plan[j].intentId in s.intents && s.intents[plan[j].intentId].taskId.Some?
  }

  lemma AttachedStays(db: Database, mark: seq<Event>, plan: seq<PlannedUnit>, upTo: nat)
    requires db.Valid() && mark <= db.log && forall j :: AttachedAt(Run(mark), plan, upTo, j)
    ensures forall j :: AttachedAt(db.store, plan, upTo, j)
  {
    Since(db, mark);
    forall j
      ensures AttachedAt(db.store, plan, upTo, j)
    {
      assert AttachedAt(Run(mark), plan, upTo, j);
      if 0 <= j < upTo && j < |plan| {
        assert IntentKept(Run(mark), db.store, plan[j].intentId);
      }
    }
  }

  /** Attached to the payroll that the plan's first intent names, and to no other. */
  ghost predicate AttachedHere(s: Store, plan: seq<PlannedUnit>, upTo: nat, j: int) {
    0 <= j < upTo && j < |plan| ==>
      plan[j].intentId in s.intents && s.intents[plan[j].intentId].taskId == Some(plan[0].intentId)
  }

  lemma AttachedHereStays(db: Database, mark: seq<Event>, plan: seq<PlannedUnit>, upTo: nat)
    requires db.Valid() && mark <= db.log && forall j :: AttachedHere(Run(mark), plan, upTo, j)
    ensures forall j :: AttachedHere(db.store, plan, upTo, j)
  {
    Since(db, mark);
    forall j
      ensures AttachedHere(db.store, plan, upTo, j)
    {
      assert AttachedHere(Run(mark), plan, upTo, j);
      if 0 <= j < upTo && j < |plan| {
        assert IntentKept(Run(mark), db.store, plan[j].intentId);
      }
    }
  }

  /** Nothing but the task columns of intents differs. */
  ghost predicate OnlyAttached(s: Store, t: Store) {
    && t.tasks == s.tasks && t.invoices == s.invoices && t.payments == s.payments
    && t.intents.Keys == s.intents.Keys
    && forall id | id in s.intents :: t.intents[id] == s.intents[id].(taskId := t.intents[id].taskId)
  }

  lemma AttachingOne(s: Store, id: Id, task: Id)
    ensures OnlyAttached(s, Step(s, AttachTask(id, task)))
  {}

  /** The turn of a unit does not depend on the task column of its intent. */
  lemma OutcomeIgnoresTask(i: Intent, j: Intent, verdict: PayrollVerdict, was: Option<string>)
    requires j == i.(taskId := j.taskId)
    ensures Outcome(j, verdict) == Outcome(i, verdict) && OutcomeHash(j, verdict, was) == OutcomeHash(i, verdict, was)
    ensures OutcomeIntent(j, verdict).status == OutcomeIntent(i, verdict).status
  {}

  /** A unit that was pending, with its intent, when its payroll was prepared again. */
  ghost predicate WasPending(s: Store, run: PayrollRun, t: Id, k: nat) {
    && t in s.tasks && k < |s.tasks[t].units| && k < |run.batches|
    && s.tasks[t].units[k].status == UnitPending && s.tasks[t].units[k].intentId in s.intents
    && forall j | 0 <= j < |run.batches| && j != k ::
         BatchReference(run.Reference(), j) != BatchReference(run.Reference(), k)
  }

  /** A payroll intent as the invariant and its request leave it. */
  ghost predicate IsBatchIntent(i: Intent) {
    && i.request.recipient.None? && i.request.batchDigest.Some?
    && (i.transactionHash.Some? ==>
          i.status == Submitted || i.status == Verifying || i.status == Completed || i.status == FailedFinal)
  }

  lemma PendingIntent(db: Database, start: seq<Event>, run: PayrollRun, t: Id, k: nat)
    requires db.Valid() && start <= db.log && IsTaskFor(db.store, run, t) && WasPending(Run(start), run, t, k)
    ensures IsBatchIntent(Run(start).intents[Run(start).tasks[t].units[k].intentId])
  {
    Since(db, start);
    var id := Run(start).tasks[t].units[k].intentId;
    assert TaskKept(Run(start), db.store, t) && UnitKept(Run(start).tasks[t], db.store.tasks[t], k);
    assert IntentKept(Run(start), db.store, id) && UnitIsFor(db.store, run, t, k) && RowAt(Run(start).intents, id);
  }

  lemma TaskLives(es: seq<Event>, fs: seq<Event>, t: Id)
    requires es <= fs && t in Run(es).tasks
    ensures t in Run(fs).tasks && |Run(fs).tasks[t].units| == |Run(es).tasks[t].units|
  {
    PrefixLater(es, fs);
    assert TaskKept(Run(es), Run(fs), t);
  }

  /** It ends with the outcome of that intent. */
  ghost predicate HasRecovered(s: Store, r: Store, t: Id, k: nat, verdict: PayrollVerdict)
    requires t in s.tasks && k < |s.tasks[t].units| && s.tasks[t].units[k].intentId in s.intents
  {
    var unit := s.tasks[t].units[k];
    var i := s.intents[unit.intentId];
    && t in r.tasks && k < |r.tasks[t].units|
    && r.tasks[t].units[k].status == Outcome(i, verdict)
    && r.tasks[t].units[k].txHash == OutcomeHash(i, verdict, unit.txHash)
    && unit.intentId in r.intents && r.intents[unit.intentId].status == OutcomeIntent(i, verdict).status
    && r.tasks[t].units[k].notedStatus == Some(r.intents[unit.intentId].status)
  }

  /** Acquiring and attaching leave a pending unit as ready as it was, and other batches have other intents. */
  lemma StillReady(s: Store, u: Store, m: Store, run: PayrollRun, plan: seq<PlannedUnit>, k: nat)
    requires Inv(m) && OnlyNewIntents(s, u) && OnlyAttached(u, m)
    requires IsPlan(m, plan) && |plan| == |run.batches| && forall j :: AcquiredAt(m, run, plan, j)
    requires WasPending(s, run, plan[0].intentId, k)
    ensures s.tasks[plan[0].intentId].units[k].intentId == plan[k].intentId
    ensures IsReady(m, plan[0].intentId, k, plan[k].intentId)
    ensures forall j | 0 <= j < |plan| && j != k :: plan[j].intentId != plan[k].intentId
    ensures m.tasks == s.tasks
    ensures m.intents[plan[k].intentId]
         == s.intents[plan[k].intentId].(taskId := m.intents[plan[k].intentId].taskId)
  {
    var t := plan[0].intentId;
    PlansAgree(m, plan, k);
    assert RowAt(m.intents, plan[k].intentId);
    forall j | 0 <= j < |plan| && j != k
      ensures plan[j].intentId != plan[k].intentId
    {
      assert AcquiredAt(m, run, plan, j) && AcquiredAt(m, run, plan, k);
    }
  }

  lemma OutcomeIsRecovered(s: Store, u: Store, m: Store, r: Store, run: PayrollRun, plan: seq<PlannedUnit>,
                           verdicts: seq<PayrollVerdict>, k: nat)
    requires Inv(m) && OnlyNewIntents(s, u) && OnlyAttached(u, m)
    requires IsPlan(m, plan) && |plan| == |run.batches| == |verdicts| && forall j :: AcquiredAt(m, run, plan, j)
    requires WasPending(s, run, plan[0].intentId, k) && HasOutcome(m, r, plan, verdicts, k)
    ensures HasRecovered(s, r, plan[0].intentId, k, verdicts[k])
  {
    StillReady(s, u, m, run, plan, k);
    hide Outcome, OutcomeHash, OutcomeIntent, Inv, IsPlan;
    var id := plan[k].intentId;
    OutcomeIgnoresTask(s.intents[id], m.intents[id], verdicts[k], s.tasks[plan[0].intentId].units[k].txHash);
  }

  /**
   A unit of an existing payroll whose batch had been submitted is no longer pending once the payroll
   has been prepared again, unless its receipt was not available yet.
   */
  ghost predicate RecoveredAt(s: Store, r: Store, t: Id, verdicts: seq<PayrollVerdict>, k: int) {
    t in s.tasks && 0 <= k < |s.tasks[t].units| && k < |verdicts|
    && HasEvidence(s, s.tasks[t].units[k].intentId) && !verdicts[k].PayrollTryAgain? ==>
      IsReported(r, t, k)
  }

  lemma CaughtUpIsRecovered(db: Database, start: seq<Event>, mark: seq<Event>, plan: seq<PlannedUnit>,
                            verdicts: seq<PayrollVerdict>)
    requires db.Valid() && start <= mark <= db.log
    requires IsPlan(Run(mark), plan) && |verdicts| == |plan| && plan[0].intentId in Run(start).tasks
    requires forall k :: CaughtUp(Run(mark), db.store, plan, verdicts, |plan|, k)
    ensures forall k :: RecoveredAt(Run(start), db.store, plan[0].intentId, verdicts, k)
  {
    var t := plan[0].intentId;
    PrefixLater(start, mark);
    RunKeeps(mark);
    assert TaskKept(Run(start), Run(mark), t);
    forall k
      ensures RecoveredAt(Run(start), db.store, t, verdicts, k)
    {
      assert CaughtUp(Run(mark), db.store, plan, verdicts, |plan|, k);
      if 0 <= k < |Run(start).tasks[t].units| && k < |plan| {
        PlansAgree(Run(mark), plan, k);
        assert UnitKept(Run(start).tasks[t], Run(mark).tasks[t], k);
        assert IntentKept(Run(start), Run(mark), plan[k].intentId);
      }
    }
  }

  /** Between two moments a write closed the intent. */
  ghost predicate Closed(before: seq<Event>, after: seq<Event>, id: Id) {
    exists es :: before <= es && es + [FailFinal(id)] <= after && Fires(Run(es), FailFinal(id))
  }

  class TaskService {
    const db: Database
    const intents: ExecutionIntentService
    const units: TaskUnitService

    constructor (db: Database, intents: ExecutionIntentService, units: TaskUnitService)
      requires intents.db == db && units.db == db
      ensures this.db == db && this.intents == intents && this.units == units
    {
      this.db := db;
      this.intents := intents;
      this.units := units;
    }

    ghost predicate Wired() {
      intents.db == db && units.db == db
    }

    /** Attach every planned intent to the payroll. */
    method AttachAll(plan: seq<PlannedUnit>) returns (r: Option<TaskError>)
      requires db.Valid() && Wired() && IsPlan(db.store, plan) && plan[0].intentId in db.store.tasks
      modifies db
      ensures db.Valid() && old(db.log) <= db.log
      ensures r.None? ==> forall j :: AttachedAt(db.store, plan, |plan|, j)
      ensures old(db.others) == [] ==> db.others == [] && OnlyAttached(old(db.store), db.store)
      ensures old(db.others) == [] && r.None? ==> forall j :: AttachedHere(db.store, plan, |plan|, j)
    {
      hide Run, OnlyVerified, Step;
      ghost var start := db.log;
      for k := 0 to |plan|
        invariant db.Valid() && old(db.log) <= db.log && start == old(db.log)
        invariant forall j :: AttachedAt(db.store, plan, k, j)
        invariant old(db.others) == [] ==> db.others == [] && OnlyAttached(old(db.store), db.store)
        invariant old(db.others) == [] ==> forall j :: AttachedHere(db.store, plan, k, j)
      {
        ghost var before := db.store;
        AttachingOne(before, plan[k].intentId, plan[0].intentId);
        PlanStays(db, start, plan);
        TaskStays(db, start, plan[0].intentId);
        assert PlannedAt(db.store, plan, k);
        ghost var mark := db.log;
        var attached := intents.AttachTask(plan[k].intentId, plan[0].intentId);
        if attached.Failure? {
          return Some(IntentTrouble(attached.error));
        }
        AttachedStays(db, mark, plan, k);
        ghost var next := k + 1;
        forall j
          ensures AttachedAt(db.store, plan, next, j)
        {
          assert AttachedAt(db.store, plan, k, j);
        }
        if old(db.others) == [] {
          AttachedHereStays(db, mark, plan, k);
          forall j
            ensures AttachedHere(db.store, plan, next, j)
          {
            assert AttachedHere(db.store, plan, k, j);
          }
        }
      }
      return None;
    }

    /** Verify one submitted batch; the status is the one the request last saw on the intent. */
    method VerifyBatch(id: Id, status: IntentStatus, verdict: PayrollVerdict)
      returns (r: Option<TaskError>, seen: IntentStatus)
      requires db.Valid() && Wired() && IsAttested(db, verdict)
      requires id in db.store.intents && db.store.intents[id].transactionHash.Some?
      modifies db
      ensures db.Valid() && old(db.log) <= db.log
      ensures r.None? ==> id in db.store.intents && db.store.intents[id].status == Completed
      ensures r == Some(ReceiptPending) ==> verdict.PayrollTryAgain?
      ensures old(db.others) == [] && status == old(db.store).intents[id].status
              && (status == Submitted || status == Verifying) ==>
                var begun := VerificationStarted(old(db.store).intents[id]);
                && db.others == [] && seen == Verifying
                && r.None? == Supports(begun, verdict)
                && (r == Some(ReceiptPending) <==> begun.request.batchDigest.Some? && verdict.PayrollTryAgain?)
                && db.store == WithIntent(old(db.store), id, if r.None? then Accepted(begun) else begun)
    {
      hide Run, OnlyVerified;
      ghost var start := db.log;
      SameIntent(db.store, id);
      seen := status;
      if status == Submitted {
        var begun := intents.BeginVerification(id);
        if begun.Failure? {
          return Some(IntentTrouble(begun.error)), seen;
        }
        seen := begun.value.intent.status;
      }
      Since(db, start);
      assert IntentKept(Run(start), db.store, id);
      r := Weigh(id, verdict);
    }

    /** What the verdict does to an intent that is being verified. */
    method Weigh(id: Id, verdict: PayrollVerdict) returns (r: Option<TaskError>)
      requires db.Valid() && Wired() && IsAttested(db, verdict) && id in db.store.intents
      modifies db
      ensures db.Valid() && old(db.log) <= db.log
      ensures r.None? ==> id in db.store.intents && db.store.intents[id].status == Completed
      ensures r == Some(ReceiptPending) <==>
                old(db.store).intents[id].request.batchDigest.Some? && verdict.PayrollTryAgain?
      ensures old(db.others) == [] ==>
                var i := old(db.store).intents[id];
                && db.others == []
                && r.None? == Supports(i, verdict)
                && db.store == if r.None? then WithIntent(old(db.store), id, Accepted(i)) else old(db.store)
    {
      if db.store.intents[id].request.batchDigest.None? {
        return Some(IntentRequired);
      }
      match verdict {
        case PayrollTryAgain => return Some(ReceiptPending);
        case PayrollRefused => return Some(ReceiptRefused);
        case PayrollVerified(receipt) =>
          var done := intents.CompleteWithVerifiedReceipt(id, receipt);
          return if done.Success? then None else Some(IntentTrouble(done.error));
      }
    }

    /** Closes an intent that was being verified. */
    method GiveUp(id: Id) returns (r: Option<TaskError>)
      requires db.Valid() && Wired() && Justified(db.store, FailFinal(id))
      modifies db
      ensures db.Valid() && old(db.log) <= db.log
      ensures r.None? ==> Closed(old(db.log), db.log, id)
      ensures old(db.others) == [] && old(db.store).intents[id].status == Verifying ==>
                && r.None? && db.others == []
                && db.store == WithIntent(old(db.store), id, GivenUp(old(db.store).intents[id]))
    {
      FailureStaysJustified(db.store, id);
      var failed, won := intents.Transition(id, FailFinal(id));
      return if failed.Failure? then Some(IntentTrouble(failed.error)) else None;
    }

    /** A permanent failure: close the intent if it was being verified, and report the unit. */
    method FailBatch(t: Id, index: nat, id: Id, hash: TxHash, seen: IntentStatus) returns (r: Option<TaskError>)
      requires db.Valid() && Wired()
      requires Justified(db.store, FailFinal(id))
      modifies db
      ensures db.Valid() && old(db.log) <= db.log
      ensures r.None? ==> IsReported(db.store, t, index) && (seen == Verifying ==> Closed(old(db.log), db.log, id))
      ensures old(db.others) == [] && seen == Verifying && old(db.store).intents[id].status == Verifying
              && t in old(db.store).tasks && index < |old(db.store).tasks[t].units| ==>
                && r.None? && db.others == []
                && db.store == Step(WithIntent(old(db.store), id, GivenUp(old(db.store).intents[id])),
                                    Event.ReportUnit(t, index, UnitFailed, SetHash(NormalizeTxId(Some(hash)))))
    {
      hide Run, OnlyVerified;
      if seen == Verifying {
        r := GiveUp(id);
        if r.Some? {
          return;
        }
      }
      var reported := units.ReportUnit(t, index, UnitFailed, SetHash(Some(hash)));
      return if reported.Success? then None else Some(UnitNotFound);
    }

    /** Bring one unit in line with its intent. */
    method ReconcileUnit(plan: seq<PlannedUnit>, k: nat, verdict: PayrollVerdict) returns (r: Option<TaskError>)
      requires db.Valid() && Wired() && IsAttested(db, verdict)
      requires IsPlan(db.store, plan) && plan[0].intentId in db.store.tasks
      requires k < |plan| && k < |db.store.tasks[plan[0].intentId].units|
      modifies db
      ensures db.Valid() && old(db.log) <= db.log
      ensures r.None? && !verdict.PayrollTryAgain? && HasEvidence(old(db.store), plan[k].intentId) ==>
                IsReported(db.store, plan[0].intentId, k)
      ensures old(db.others) == [] ==>
                && r.None? && db.others == []
                && plan[k].intentId in old(db.store).intents
                && db.store == Reconciled(old(db.store), plan[0].intentId, k, plan[k].intentId, verdict)
    {
      ghost var start := db.log;
      RunKeeps(start);
      var t, id := plan[0].intentId, plan[k].intentId;
      assert PlannedAt(db.store, plan, k) && RowAt(db.store.intents, id);
      hide Step, Decided;
      var row := intents.Get(id);
      if row.Failure? {
        return Some(IntentTrouble(row.error));
      }
      EvidenceStays(db, start, id);
      TaskStays(db, start, t);
      var status, hash := row.value.intent.status, row.value.intent.transactionHash;
      if status == Completed {
        CompletedUnitIsSettled(db, start, plan, k);
        r := ReportSettled(t, k, hash.value);
      } else if status.IsTerminal() {
        r := ReportClosed(t, k);
      } else if hash.Some? && (status == Submitted || status == Verifying) {
        PlanStays(db, start, plan);
        r := ReconcileSubmitted(plan, k, status, hash.value, verdict);
      } else {
        r := None;
      }
    }

    /** The branch for an intent whose hash has been submitted. */
    method ReconcileSubmitted(plan: seq<PlannedUnit>, k: nat, status: IntentStatus, hash: TxHash, verdict: PayrollVerdict)
      returns (r: Option<TaskError>)
      requires db.Valid() && Wired() && IsAttested(db, verdict)
      requires IsPlan(db.store, plan) && plan[0].intentId in db.store.tasks
      requires k < |plan| && k < |db.store.tasks[plan[0].intentId].units|
      requires plan[k].intentId in db.store.intents
      requires db.store.intents[plan[k].intentId].transactionHash == Some(hash)
      modifies db
      ensures db.Valid() && old(db.log) <= db.log
      ensures r.None? && !verdict.PayrollTryAgain? ==> IsReported(db.store, plan[0].intentId, k)
      ensures old(db.others) == [] && status == old(db.store).intents[plan[k].intentId].status
              && (status == Submitted || status == Verifying) ==>
                && r.None? && db.others == []
                && db.store == Decided(old(db.store), plan[0].intentId, k, plan[k].intentId, verdict)
    {
      ghost var start := db.log;
      var t, id := plan[0].intentId, plan[k].intentId;
      ghost var begun := VerificationStarted(db.store.intents[id]);
      TwoIntentWrites(db.store, id, begun, GivenUp(begun));
      hide Step;
      var failure, seen := VerifyBatch(id, status, verdict);
      TaskStays(db, start, t);
      if failure.None? {
        CompletedUnitIsSettled(db, start, plan, k);
        HashStays(db, start, id);
        r := ReportSettled(t, k, hash);
      } else if failure.value == ReceiptPending {
        r := None;
      } else {
        FailureIsJustified(db, start, start, plan, k);
        r := FailBatch(t, k, id, hash, seen);
      }
    }

    method ReportClosed(t: Id, k: nat) returns (r: Option<TaskError>)
      requires db.Valid() && Wired() && t in db.store.tasks && k < |db.store.tasks[t].units|
      modifies db
      ensures db.Valid() && old(db.log) <= db.log
      ensures r.None? ==> IsReported(db.store, t, k)
      ensures old(db.others) == [] ==>
                && r.None? && db.others == []
                && db.store == Step(old(db.store), Event.ReportUnit(t, k, UnitFailed, KeepHash))
    {
      var reported := units.ReportUnit(t, k, UnitFailed, KeepHash);
      r := if reported.Success? then None else Some(UnitNotFound);
    }

    method ReportSettled(t: Id, k: nat, hash: TxHash) returns (r: Option<TaskError>)
      requires db.Valid() && Wired() && MayReport(db.store, t, k, UnitSuccess, SetHash(Some(hash)))
      modifies db
      ensures db.Valid() && old(db.log) <= db.log
      ensures r.None? ==> IsReported(db.store, t, k)
      ensures old(db.others) == [] ==>
                && r.None? && db.others == []
                && db.store == Step(old(db.store), Event.ReportUnit(t, k, UnitSuccess, SetHash(NormalizeTxId(Some(hash)))))
    {
      hide Run, OnlyVerified;
      var reported := units.ReportUnit(t, k, UnitSuccess, SetHash(Some(hash)));
      r := if reported.Success? then None else Some(UnitNotFound);
    }

    /** Go through the units in order and bring each in line with its intent. */
    method ReconcileUnits(plan: seq<PlannedUnit>, verdicts: seq<PayrollVerdict>) returns (r: Option<TaskError>)
      requires db.Valid() && Wired() && |verdicts| == |plan|
      requires IsPlan(db.store, plan) && plan[0].intentId in db.store.tasks
      requires forall k | 0 <= k < |verdicts| :: IsAttested(db, verdicts[k])
      modifies db
      ensures db.Valid() && old(db.log) <= db.log
      ensures r.None? ==> forall k :: CaughtUp(old(db.store), db.store, plan, verdicts, |plan|, k)
      ensures old(db.others) == [] ==>
                && r.None? && db.others == []
                && db.store == ReconciledAll(old(db.store), plan, verdicts,
                                             |old(db.store).tasks[plan[0].intentId].units|, |plan|)
    {
      hide Reconciled, Run, Justified;
      ghost var start := db.log;
      ghost var before := db.store;
      var count := |db.store.tasks[plan[0].intentId].units|;
      r := None;
      for k := 0 to |plan|
        invariant db.Valid() && start <= db.log && before == Run(start) && r.None?
        invariant forall j :: CaughtUp(before, db.store, plan, verdicts, k, j)
        invariant old(db.others) == [] ==>
                    db.others == [] && db.store == ReconciledAll(before, plan, verdicts, count, k)
      {
        ghost var mark := db.log;
        PlanStays(db, start, plan);
        TaskStays(db, start, plan[0].intentId);
        if k < count {
          EvidenceStays(db, start, plan[k].intentId);
          r := ReconcileUnit(plan, k, verdicts[k]);
          if r.Some? {
            return;
          }
        }
        CaughtUpStays(db, before, mark, plan, verdicts, k, k + 1);
      }
    }

    /** Note on a unit which status its intent has. */
    method NoteStatus(t: Id, k: nat, id: Id) returns (r: Option<TaskError>)
      requires db.Valid() && Wired()
      modifies db
      ensures db.Valid() && old(db.log) <= db.log
      ensures old(db.others) == [] && id in old(db.store).intents ==>
                && r.None? && db.others == []
                && db.store == Step(old(db.store), NoteUnit(t, k, old(db.store).intents[id].status))
    {
      var row := intents.Get(id);
      if row.Failure? {
        return Some(IntentTrouble(row.error));
      }
      db.RoundTrip();
      var noted := db.Write(NoteUnit(t, k, row.value.intent.status));
      return None;
    }

    /** Bring every unit in line with its intent, then note each intent's status on its unit. */
    method ReconcilePayrollIntents(plan: seq<PlannedUnit>, verdicts: seq<PayrollVerdict>) returns (r: Option<TaskError>)
      requires db.Valid() && Wired() && |verdicts| == |plan|
      requires IsPlan(db.store, plan) && plan[0].intentId in db.store.tasks
      requires forall k | 0 <= k < |verdicts| :: IsAttested(db, verdicts[k])
      modifies db
      ensures db.Valid() && old(db.log) <= db.log
      ensures r.None? ==> forall k :: CaughtUp(old(db.store), db.store, plan, verdicts, |plan|, k)
      ensures old(db.others) == [] ==>
                && r.None?
                && forall k | 0 <= k < |plan| :: HasOutcome(old(db.store), db.store, plan, verdicts, k)
    {
      ghost var start := db.log;
      ghost var before := db.store;
      var count := |db.store.tasks[plan[0].intentId].units|;
      r := ReconcileUnits(plan, verdicts);
      if r.Some? {
        return;
      }
      ghost var mark := db.log;
      PlanStays(db, start, plan);
      TaskStays(db, start, plan[0].intentId);
      hide ReconciledAll, CaughtUp;
      r := NoteStatuses(plan, count);
      if r.Some? {
        return;
      }
      CaughtUpRemains(db, before, mark, plan, verdicts);
      if old(db.others) == [] {
        forall k | 0 <= k < |plan|
          ensures HasOutcome(before, db.store, plan, verdicts, k)
        {
          OutcomeIsKept(before, db.store, plan, verdicts, count, k);
        }
      }
    }

    /** The last loop: the status of each intent is noted on its unit. */
    method NoteStatuses(plan: seq<PlannedUnit>, count: nat) returns (r: Option<TaskError>)
      requires db.Valid() && Wired()
      requires IsPlan(db.store, plan) && plan[0].intentId in db.store.tasks
      requires count == |db.store.tasks[plan[0].intentId].units|
      modifies db
      ensures db.Valid() && old(db.log) <= db.log
      ensures old(db.others) == [] ==>
                && r.None? && OnlyNotes(old(db.store), db.store, plan[0].intentId)
                && forall j | 0 <= j < |plan| && j < count :: IsNoted(db.store, plan[0].intentId, j, plan[j].intentId)
    {
      ghost var start := db.log;
      ghost var before := db.store;
      for k := 0 to |plan|
        invariant db.Valid() && start <= db.log
        invariant old(db.others) == [] ==>
                    && db.others == [] && OnlyNotes(before, db.store, plan[0].intentId)
                    && forall j | 0 <= j < k && j < count :: IsNoted(db.store, plan[0].intentId, j, plan[j].intentId)
      {
        if k < count {
          PlanStays(db, start, plan);
          assert PlannedAt(db.store, plan, k);
          ghost var store := db.store;
          r := NoteStatus(plan[0].intentId, k, plan[k].intentId);
          if r.Some? {
            return;
          }
          if old(db.others) == [] {
            Noting(before, store, plan, k, count);
          }
        }
      }
      return None;
    }

    /** One intent for every batch of the run. */
    method AcquirePlan(run: PayrollRun, oracles: seq<seq<Attempt>>) returns (plan: seq<PlannedUnit>, r: Option<TaskError>)
      requires db.Valid() && Wired() && run.Valid()
      requires |oracles| == |run.batches| && forall k | 0 <= k < |oracles| :: |oracles[k]| == 3
      modifies db
      ensures db.Valid() && old(db.log) <= db.log
      ensures r.None? ==> IsPlan(db.store, plan) && |plan| == |run.batches|
      ensures r.None? ==> forall k :: AcquiredAt(db.store, run, plan, k)
      ensures old(db.others) == [] ==> db.others == [] && OnlyNewIntents(old(db.store), db.store)
    {
      hide Run, OnlyVerified;
      plan, r := [], None;
      for k := 0 to |run.batches|
        invariant db.Valid() && old(db.log) <= db.log
        invariant |plan| == k && r.None?
        invariant forall j :: AcquiredAt(db.store, run, plan, j)
        invariant old(db.others) == [] ==> db.others == [] && OnlyNewIntents(old(db.store), db.store)
      {
        BatchReferenceIsTrimmed(run.Reference(), k);
        TrimmedStays(BatchReference(run.Reference(), k));
        ghost var mark := db.log;
        var row := intents.Acquire(run.Input(k), run.routable, oracles[k]);
        if row.Failure? {
          r := Some(IntentTrouble(row.error));
          return;
        }
        AcquiredStays(db, mark, run, plan);
        ghost var before := plan;
        plan := plan + [PlannedUnit(BatchReference(run.Reference(), k), row.value.id)];
        ExtendsAcquired(db.store, run, before, plan);
      }
      AcquiredIsPlan(db.store, run, plan);
    }

    /** The payroll's row and units, unless there are some already. */
    method FindOrInsert(plan: seq<PlannedUnit>) returns (existed: bool)
      requires db.Valid() && Wired() && IsPlan(db.store, plan)
      modifies db
      ensures db.Valid() && old(db.log) <= db.log
      ensures IsPlan(db.store, plan) && plan[0].intentId in db.store.tasks
      ensures plan[0].intentId in old(db.store).tasks ==> existed
      ensures old(db.others) == [] ==>
                && db.others == [] && existed == (plan[0].intentId in old(db.store).tasks)
                && (existed ==> db.store == old(db.store))
                && (!existed ==>
                      && db.store.intents == old(db.store).intents
                      && db.store.tasks
                         == old(db.store).tasks[plan[0].intentId := Task(Assigned, |plan|, 0, 0, Planned(plan))])
    {
      hide Run, OnlyVerified;
      ghost var start := db.log;
      var t := plan[0].intentId;
      db.RoundTrip();
      PlanStays(db, start, plan);
      existed := t in db.store.tasks;
      if t in Run(start).tasks {
        TaskStays(db, start, t);
      }
      if !existed {
        db.RoundTrip();
        PlanStays(db, start, plan);
        PlanIsJustified(db.store, plan);
        var inserted := db.Write(InsertTask(t, plan));
        PlanStays(db, start, plan);
      }
    }

    /** Prepare a payroll run: its intents, its task and units, and after a crash the reconciliation. */
    method CreatePayrollTask(run: PayrollRun, oracles: seq<seq<Attempt>>, verdicts: seq<PayrollVerdict>)
      returns (r: Result<Id, TaskError>)
      requires db.Valid() && Wired() && run.Valid()
      requires |oracles| == |verdicts| == |run.batches| && forall k | 0 <= k < |oracles| :: |oracles[k]| == 3
      requires forall k | 0 <= k < |verdicts| :: IsAttested(db, verdicts[k])
      modifies db
      ensures db.Valid() && old(db.log) <= db.log
      ensures r.Success? ==> IsTaskFor(db.store, run, r.value)
      ensures r.Success? ==>
                && r.value in db.store.tasks && r.value in db.store.intents
                && db.store.intents[r.value].request.operation == Payroll
                && db.store.intents[r.value].request.sourceWallet == run.wallet
                && db.store.intents[r.value].request.externalReference == run.Reference()
                && forall k | 0 <= k < |db.store.tasks[r.value].units| && k < |run.batches| ::
                     var unit, entries := db.store.tasks[r.value].units[k], run.batches[k].entries;
                     && unit.reference == BatchReference(run.Reference(), k)
                     && unit.intentId in db.store.intents && db.store.intents[unit.intentId].taskId.Some?
                     && var request := db.store.intents[unit.intentId].request;
                     && request.operation == Payroll && request.sourceWallet == run.wallet && request.ownerId.None?
                     && request.recipient.None? && request.batchDigest == Some(OfBatch(entries))
                     && request.tokenIn == run.sourceToken && request.tokenOut == entries[0].token
                     && request.amountUnits == TotalUnits(entries) && request.externalReference == unit.reference
      ensures r.Success? && old(db.others) == [] && r.value !in old(db.store).tasks ==>
                && r.value in db.store.tasks
                && var payroll := db.store.tasks[r.value];
                && payroll.status == Assigned && payroll.totalUnits == |payroll.units| == |run.batches|
                && payroll.completedUnits == 0 && payroll.failedUnits == 0
                && (forall k | 0 <= k < |payroll.units| ::
                      && payroll.units[k].status == UnitPending && payroll.units[k].txHash.None?
                      && payroll.units[k].intentId in db.store.intents
                      && db.store.intents[payroll.units[k].intentId].taskId == Some(r.value))
                && db.store.tasks.Keys == old(db.store).tasks.Keys + {r.value}
                && forall id | id in old(db.store).intents ::
                     && id in db.store.intents
                     && db.store.intents[id].status == old(db.store).intents[id].status
                     && db.store.intents[id].transactionHash == old(db.store).intents[id].transactionHash
      ensures r.Success? && r.value in old(db.store).tasks ==>
                forall k | 0 <= k < |old(db.store).tasks[r.value].units| && k < |run.batches| ::
                  var id := old(db.store).tasks[r.value].units[k].intentId;
                  && r.value in db.store.tasks && k < |db.store.tasks[r.value].units|
                  && (id in old(db.store).intents && old(db.store).intents[id].transactionHash.Some?
                      && !verdicts[k].PayrollTryAgain? ==>
                        db.store.tasks[r.value].units[k].status != UnitPending)
      ensures r.Success? && old(db.others) == [] && r.value in old(db.store).tasks ==>
                forall k: nat | WasPending(old(db.store), run, r.value, k) ::
                  var i := old(db.store).intents[old(db.store).tasks[r.value].units[k].intentId];
                  && r.value in db.store.tasks && k < |db.store.tasks[r.value].units|
                  && old(db.store).tasks[r.value].units[k].intentId in db.store.intents
                  && var unit := db.store.tasks[r.value].units[k];
                  && var status := db.store.intents[old(db.store).tasks[r.value].units[k].intentId].status;
                  && unit.notedStatus == Some(status)
                  && if i.status == Completed
                     then status == i.status && unit.status == UnitSuccess && unit.txHash == i.transactionHash
                     else if i.status == FailedFinal || i.status == Expired || i.status == Cancelled
                     then status == i.status && unit.status == UnitFailed
                     else if i.transactionHash.None? then status == i.status && unit.status == UnitPending
                     else
                       match verdicts[k]
                       case PayrollTryAgain => status == Verifying && unit.status == UnitPending
                       case PayrollRefused =>
                         status == FailedFinal && unit.status == UnitFailed && unit.txHash == i.transactionHash
                       case PayrollVerified(receipt) =>
                         && unit.txHash == i.transactionHash
                         && if && IsTransactionHash(receipt.transactionHash)
                               && i.transactionHash == Some(Lower(receipt.transactionHash))
                               && i.request.sourceWallet == receipt.sourceWallet
                               && i.request.tokenOut == receipt.token
                               && i.request.amountUnits == receipt.amountUnits
                               && i.request.batchDigest == receipt.batchDigest
                            then status == Completed && unit.status == UnitSuccess
                            else status == FailedFinal && unit.status == UnitFailed
    {
      hide Run, OnlyVerified, IsTaskFor, BatchReference, NormalizeReferenceId, TotalUnits, Step, Inv;
      ghost var before := db.store;
      r := Prepare(run, oracles, verdicts);
      if r.Success? {
        TaskIsFor(db.store, run, r.value);
      }
      if r.Success? && r.value in before.tasks {
        forall k | 0 <= k < |before.tasks[r.value].units| && k < |run.batches|
          ensures var id := before.tasks[r.value].units[k].intentId;
                  id in before.intents && before.intents[id].transactionHash.Some? && !verdicts[k].PayrollTryAgain? ==>
                    db.store.tasks[r.value].units[k].status != UnitPending
        {
          assert RecoveredAt(before, db.store, r.value, verdicts, k);
        }
      }
    }

    /** The same in the terms of the reconciliation. */
    method Prepare(run: PayrollRun, oracles: seq<seq<Attempt>>, verdicts: seq<PayrollVerdict>)
      returns (r: Result<Id, TaskError>)
      requires db.Valid() && Wired() && run.Valid()
      requires |oracles| == |verdicts| == |run.batches| && forall k | 0 <= k < |oracles| :: |oracles[k]| == 3
      requires forall k | 0 <= k < |verdicts| :: IsAttested(db, verdicts[k])
      modifies db
      ensures db.Valid() && old(db.log) <= db.log
      ensures r.Success? ==> IsTaskFor(db.store, run, r.value) && r.value in db.store.tasks
      ensures r.Success? && old(db.others) == [] && r.value !in old(db.store).tasks ==>
                IsNewPayroll(old(db.store), db.store, |run.batches|, r.value)
      ensures r.Success? && r.value in old(db.store).tasks ==>
                && |db.store.tasks[r.value].units| == |old(db.store).tasks[r.value].units|
                && forall k :: RecoveredAt(old(db.store), db.store, r.value, verdicts, k)
      ensures r.Success? && old(db.others) == [] && r.value in old(db.store).tasks ==>
                forall k: nat | WasPending(old(db.store), run, r.value, k) ::
                  && IsBatchIntent(old(db.store).intents[old(db.store).tasks[r.value].units[k].intentId])
                  && HasRecovered(old(db.store), db.store, r.value, k, verdicts[k])
    {
      hide Run, OnlyVerified, HasOutcome, CaughtUp, HasRecovered, RecoveredAt;
      ghost var start := db.log;
      ghost var before := db.store;
      var plan, refused := AcquirePlan(run, oracles);
      if refused.Some? {
        return Failure(refused.value);
      }
      ghost var mark := db.log;
      var existed := FindOrInsert(plan);
      AcquiredStays(db, mark, run, plan);
      if plan[0].intentId in before.tasks {
        TaskLives(start, mark, plan[0].intentId);
      }
      ghost var ready := db.store;
      r := Finish(run, plan, verdicts, existed, start, before);
      if r.Success? && old(db.others) == [] && !existed {
        NewPayroll(before, ready, db.store, plan);
      }
      if r.Success? && r.value in before.tasks {
        ghost var t := r.value;
        TaskLives(start, db.log, t);
        if old(db.others) == [] {
          forall k: nat | WasPending(before, run, t, k)
            ensures IsBatchIntent(before.intents[before.tasks[t].units[k].intentId])
            ensures HasRecovered(before, db.store, t, k, verdicts[k])
          {
            PendingIntent(db, start, run, t, k);
          }
        }
      }
    }

    /** Attach the intents, and reconcile a payroll that existed. */
    method Finish(run: PayrollRun, plan: seq<PlannedUnit>, verdicts: seq<PayrollVerdict>, existed: bool,
                  ghost start: seq<Event>, ghost first: Store)
      returns (r: Result<Id, TaskError>)
      requires db.Valid() && Wired() && start <= db.log && first == Run(start)
      requires IsPlan(db.store, plan) && |plan| == |run.batches| == |verdicts| && plan[0].intentId in db.store.tasks
      requires forall k | 0 <= k < |verdicts| :: IsAttested(db, verdicts[k])
      requires forall j :: AcquiredAt(db.store, run, plan, j)
      requires plan[0].intentId in first.tasks ==> existed
      modifies db
      ensures db.Valid() && old(db.log) <= db.log
      ensures r.Success? ==>
                && r.value == plan[0].intentId && IsTaskFor(db.store, run, r.value)
                && |db.store.tasks[r.value].units| == |old(db.store).tasks[r.value].units|
      ensures r.Success? && old(db.others) == [] && !existed ==>
                OnlyAttached(old(db.store), db.store) && forall j :: AttachedHere(db.store, plan, |plan|, j)
      ensures r.Success? && plan[0].intentId in first.tasks ==>
                forall k :: RecoveredAt(first, db.store, plan[0].intentId, verdicts, k)
      ensures r.Success? && old(db.others) == [] && existed && OnlyNewIntents(first, old(db.store)) ==>
                forall k: nat :: WasPending(first, run, plan[0].intentId, k) ==>
                                   HasRecovered(first, db.store, plan[0].intentId, k, verdicts[k])
    {
      hide Run, OnlyVerified, HasRecovered, WasPending;
      ghost var ready := db.log;
      var t := plan[0].intentId;
      var trouble := AttachAll(plan);
      if trouble.Some? {
        return Failure(trouble.value);
      }
      ghost var attached := db.log;
      PlanStays(db, ready, plan);
      TaskStays(db, ready, t);
      AcquiredStays(db, ready, run, plan);
      if existed {
        trouble := Recover(run, plan, verdicts, start, first);
        TaskStays(db, attached, t);
        if trouble.Some? {
          return Failure(trouble.value);
        }
      }
      AcquiredStays(db, attached, run, plan);
      AttachedStays(db, attached, plan, |plan|);
      PlanStays(db, attached, plan);
      RunKeeps(db.log);
      PlanGivesUnits(db.store, run, plan);
      return Success(t);
    }

    /** The reconciliation of a payroll that existed when the request came. */
    method Recover(run: PayrollRun, plan: seq<PlannedUnit>, verdicts: seq<PayrollVerdict>,
                   ghost start: seq<Event>, ghost first: Store)
      returns (r: Option<TaskError>)
      requires db.Valid() && Wired() && start <= db.log && first == Run(start)
      requires IsPlan(db.store, plan) && |plan| == |run.batches| == |verdicts| && plan[0].intentId in db.store.tasks
      requires forall k | 0 <= k < |verdicts| :: IsAttested(db, verdicts[k])
      requires forall j :: AcquiredAt(db.store, run, plan, j)
      modifies db
      ensures db.Valid() && old(db.log) <= db.log
      ensures r.None? && plan[0].intentId in first.tasks ==>
                forall k :: RecoveredAt(first, db.store, plan[0].intentId, verdicts, k)
      ensures r.None? && old(db.others) == [] ==>
                forall u: Store, k: nat ::
                  OnlyNewIntents(first, u) && OnlyAttached(u, old(db.store)) && WasPending(first, run, plan[0].intentId, k)
                  ==> HasRecovered(first, db.store, plan[0].intentId, k, verdicts[k])
    {
      hide Run, OnlyVerified, HasOutcome, CaughtUp, HasRecovered;
      ghost var before := db.log;
      RunKeeps(before);
      ghost var mid := db.store;
      r := ReconcilePayrollIntents(plan, verdicts);
      if r.Some? {
        return;
      }
      if plan[0].intentId in first.tasks {
        CaughtUpIsRecovered(db, start, before, plan, verdicts);
      }
      if old(db.others) == [] {
        forall u: Store, k: nat | OnlyNewIntents(first, u) && OnlyAttached(u, mid)
                                  && WasPending(first, run, plan[0].intentId, k)
          ensures HasRecovered(first, db.store, plan[0].intentId, k, verdicts[k])
        {
          OutcomeIsRecovered(first, u, mid, db.store, run, plan, verdicts, k);
        }
      }
    }
  }

  /** A validated payroll run, split into batches that each pay out one token. */
  datatype Batch = Batch(entries: seq<BatchEntry>)

  function TotalUnits(entries: seq<BatchEntry>): nat {
    if entries == [] then 0 else TotalUnits(entries[..|entries| - 1]) + entries[|entries| - 1].amountUnits
  }

  /** The reference a run is given: the caller's, or one made from the time. */
  function NormalizeReferenceId(given: Option<string>, now: nat): (r: string)
    ensures IsTrimmed(r) && r != ""
  {
    if given.Some? && Trim(given.value) != "" then
      TrimTrims(given.value);
      Trim(given.value)
    else
      var r := "PAY-" + Decimal(now);
      assert IsDigit(r[|r| - 1]);
      r
  }

  /** `referenceId` is the caller's, if there is one; `now` is the clock when the run is prepared. */
  datatype PayrollRun = PayrollRun(
    referenceId: Option<string>,
    now: nat,
    wallet: Address,
    sourceToken: Address,
    routable: bool,
    batches: seq<Batch>)
  {
    predicate Valid() {
      && batches != []
      && forall k | 0 <= k < |batches| :: batches[k].entries != []
    }

    function Reference(): (r: string)
      ensures IsTrimmed(r) && r != ""
    {
      NormalizeReferenceId(referenceId, now)
    }

    function Input(k: nat): AcquireInput
      requires k < |batches| && batches[k].entries != []
    {
      var entries := batches[k].entries;
      AcquireInput(Payroll, None, wallet, None, Some(OfBatch(entries)), sourceToken, entries[0].token,
                   TotalUnits(entries), BatchReference(Reference(), k))
    }
  }

  /** The intent planned for a batch is bound to that batch's wallet, entries, total and reference. */
  ghost predicate PlansBatch(s: Store, run: PayrollRun, k: nat, id: Id) {
    && k < |run.batches| && run.batches[k].entries != []
    && id in s.intents
    && s.intents[id].request == RequestOf(run, k)
  }

  /** Unit k of a payroll stands for batch k of the run: its reference, and the attached intent bound to the batch. */
  ghost predicate UnitIsFor(s: Store, run: PayrollRun, t: Id, k: int) {
    t in s.tasks && 0 <= k < |s.tasks[t].units| && k < |run.batches| ==>
      && s.tasks[t].units[k].reference == BatchReference(run.Reference(), k)
      && PlansBatch(s, run, k, s.tasks[t].units[k].intentId)
      && s.intents[s.tasks[t].units[k].intentId].taskId.Some?
  }

  /** A payroll that has just been created: nothing but its rows and its intents' attachment is new. */
  ghost predicate IsNewPayroll(s: Store, u: Store, count: nat, t: Id) {
    && t in u.tasks && u.tasks.Keys == s.tasks.Keys + {t}
    && var payroll := u.tasks[t];
    && payroll.status == Assigned && payroll.totalUnits == |payroll.units| == count
    && payroll.completedUnits == 0 && payroll.failedUnits == 0
    && (forall k | 0 <= k < |payroll.units| ::
          && payroll.units[k].status == UnitPending && payroll.units[k].txHash.None?
          && payroll.units[k].intentId in u.intents && u.intents[payroll.units[k].intentId].taskId == Some(t))
    && forall id | id in s.intents :: id in u.intents && u.intents[id] == s.intents[id].(taskId := u.intents[id].taskId)
  }

  lemma NewPayroll(s: Store, ready: Store, u: Store, plan: seq<PlannedUnit>)
    requires plan != [] && plan[0].intentId in ready.tasks && OnlyAttached(ready, u)
    requires ready.tasks == s.tasks[plan[0].intentId := Task(Assigned, |plan|, 0, 0, Planned(plan))]
    requires forall id | id in s.intents :: id in ready.intents && ready.intents[id] == s.intents[id]
    requires forall j :: AttachedHere(u, plan, |plan|, j)
    ensures IsNewPayroll(s, u, |plan|, plan[0].intentId)
  {
    forall k | 0 <= k < |plan|
      ensures plan[k].intentId in u.intents && u.intents[plan[k].intentId].taskId == Some(plan[0].intentId)
    {
      assert AttachedHere(u, plan, |plan|, k);
    }
  }

  /** The columns of a batch's intent. */
  function RequestOf(run: PayrollRun, k: nat): Request
    requires k < |run.batches| && run.batches[k].entries != []
  {
    var entries := run.batches[k].entries;
    Request(Payroll, None, run.wallet, None, Some(OfBatch(entries)), run.sourceToken, entries[0].token,
            TotalUnits(entries), BatchReference(run.Reference(), k))
  }

  /** What each unit of a prepared payroll stands for. */
  lemma TaskIsFor(s: Store, run: PayrollRun, t: Id)
    requires IsTaskFor(s, run, t) && run.Valid()
    ensures t in s.tasks && t in s.intents && s.intents[t].request == RequestOf(run, 0)
    ensures RequestOf(run, 0).externalReference == run.Reference()
    ensures forall k | 0 <= k < |s.tasks[t].units| && k < |run.batches| ::
              && s.tasks[t].units[k].reference == BatchReference(run.Reference(), k)
              && s.tasks[t].units[k].intentId in s.intents
              && s.intents[s.tasks[t].units[k].intentId].request == RequestOf(run, k)
              && s.intents[s.tasks[t].units[k].intentId].taskId.Some?
  {
    hide RequestOf, PlansBatch;
    BatchIsPlanned(s, run, 0, t);
    FirstReference(run);
    forall k | 0 <= k < |s.tasks[t].units| && k < |run.batches|
      ensures && s.tasks[t].units[k].reference == BatchReference(run.Reference(), k)
              && s.tasks[t].units[k].intentId in s.intents
              && s.intents[s.tasks[t].units[k].intentId].request == RequestOf(run, k)
              && s.intents[s.tasks[t].units[k].intentId].taskId.Some?
    {
      assert UnitIsFor(s, run, t, k);
      BatchIsPlanned(s, run, k, s.tasks[t].units[k].intentId);
    }
  }

  lemma FirstReference(run: PayrollRun)
    requires run.Valid()
    ensures RequestOf(run, 0).externalReference == run.Reference()
  {}

  lemma BatchIsPlanned(s: Store, run: PayrollRun, k: nat, id: Id)
    requires PlansBatch(s, run, k, id)
    ensures id in s.intents && s.intents[id].request == RequestOf(run, k)
  {}

  /** The amount of a batch is the sum of its entries. */
  lemma {:induction false} TotalIsSum(entries: seq<BatchEntry>)
    ensures TotalUnits(entries) == Sum(seq(|entries|, i requires 0 <= i < |entries| => entries[i].amountUnits))
  {
    if entries != [] {
      var n := |entries| - 1;
      TotalIsSum(entries[..n]);
      var all := seq(|entries|, i requires 0 <= i < |entries| => entries[i].amountUnits);
      assert all[..n] == seq(n, i requires 0 <= i < n => entries[..n][i].amountUnits);
    }
  }

  /** A trimmed reference is kept, white space around one does not matter, and no reference takes the time's. */
  lemma ReferenceIsNormalized(given: string, now: nat)
    ensures IsTrimmed(given) && given != "" ==> NormalizeReferenceId(Some(given), now) == given
    ensures NormalizeReferenceId(Some(given), now) == NormalizeReferenceId(Some(Trim(given)), now)
    ensures NormalizeReferenceId(None, now) == NormalizeReferenceId(Some(""), now)
    ensures |NormalizeReferenceId(None, now)| > 4 && NormalizeReferenceId(None, now)[..4] == "PAY-"
    ensures AllDigits(NormalizeReferenceId(None, now)[4..]) && ParseDecimal(NormalizeReferenceId(None, now)[4..]) == now
  {
    TrimTrims(given);
    ParseOfDecimal(now);
    assert ("PAY-" + Decimal(now))[4..] == Decimal(now);
  }

  /** The payroll that a run prepared: named by its first intent, each unit standing for its batch. */
  ghost predicate IsTaskFor(s: Store, run: PayrollRun, t: Id) {
    && t in s.tasks
    && PlansBatch(s, run, 0, t)
    && forall k :: UnitIsFor(s, run, t, k)
  }

  lemma PlanGivesUnits(s: Store, run: PayrollRun, plan: seq<PlannedUnit>)
    requires Inv(s) && IsPlan(s, plan) && |plan| == |run.batches| && plan[0].intentId in s.tasks
    requires forall j :: AcquiredAt(s, run, plan, j)
    requires forall j :: AttachedAt(s, plan, |plan|, j)
    ensures IsTaskFor(s, run, plan[0].intentId)
  {
    var t := plan[0].intentId;
    assert AcquiredAt(s, run, plan, 0);
    forall k
      ensures UnitIsFor(s, run, t, k)
    {
      assert AcquiredAt(s, run, plan, k) && AttachedAt(s, plan, |plan|, k);
      if 0 <= k < |s.tasks[t].units| && k < |plan| {
        PlansAgree(s, plan, k);
        assert PlannedAt(s, plan, 0) && TaskAt(s, t) && ReferenceAt(s.tasks[t], k) && UnitAt(s, t, 0);
      }
    }
  }

  ghost predicate AcquiredAt(s: Store, run: PayrollRun, plan: seq<PlannedUnit>, j: int) {
    0 <= j < |plan| ==>
      plan[j].reference == BatchReference(run.Reference(), j) && PlansBatch(s, run, j, plan[j].intentId)
  }

  lemma AcquiredStays(db: Database, mark: seq<Event>, run: PayrollRun, plan: seq<PlannedUnit>)
    requires db.Valid() && mark <= db.log && forall j :: AcquiredAt(Run(mark), run, plan, j)
    ensures forall j :: AcquiredAt(db.store, run, plan, j)
  {
    Since(db, mark);
    forall j
      ensures AcquiredAt(db.store, run, plan, j)
    {
      assert AcquiredAt(Run(mark), run, plan, j);
      if 0 <= j < |plan| {
        assert IntentKept(Run(mark), db.store, plan[j].intentId);
      }
    }
  }

  lemma ExtendsAcquired(s: Store, run: PayrollRun, before: seq<PlannedUnit>, plan: seq<PlannedUnit>)
    requires |plan| == |before| + 1 && before <= plan
    requires forall j :: AcquiredAt(s, run, before, j)
    requires AcquiredAt(s, run, plan, |before|)
    ensures forall j :: AcquiredAt(s, run, plan, j)
  {
    forall j
      ensures AcquiredAt(s, run, plan, j)
    {
      assert AcquiredAt(s, run, before, j);
    }
  }

  lemma AcquiredIsPlan(s: Store, run: PayrollRun, plan: seq<PlannedUnit>)
    requires plan != [] && forall j :: AcquiredAt(s, run, plan, j)
    ensures IsPlan(s, plan)
  {
    assert AcquiredAt(s, run, plan, 0);
    forall k
      ensures PlannedAt(s, plan, k)
    {
      assert AcquiredAt(s, run, plan, k);
    }
  }

  lemma PlanIsJustified(s: Store, plan: seq<PlannedUnit>)
    requires IsPlan(s, plan)
    ensures Justified(s, InsertTask(plan[0].intentId, plan))
  {
    assert PlannedAt(s, plan, 0);
    forall k | 0 <= k < |plan|
      ensures PlanHolds(s, plan[0].intentId, plan[k]) && plan[k].reference == BatchReference(plan[0].reference, k)
    {
      assert PlannedAt(s, plan, k);
    }
  }

  /** A success report names the unit's own attached intent and brings a hash. */
  predicate IsReportable(s: Store, t: Id, index: nat, intentId: Option<Id>, txHash: Option<string>) {
    && t in s.tasks && index < |s.tasks[t].units|
    && txHash.Some? && txHash.value != "" && intentId.Some?
    && intentId.value in s.intents
    && s.intents[intentId.value].taskId == Some(t)
    && s.intents[intentId.value].request.externalReference == s.tasks[t].units[index].reference
  }

  /** The hash may be bound and the verdict supports it. */
  predicate IsProvable(s: Store, id: Id, txHash: string, verdict: PayrollVerdict, now: Time) {
    && BindAllowed(s, id, txHash, "", false, now)
    && s.intents[id].status != FailedFinal
    && s.intents[id].request.batchDigest.Some?
    && verdict.PayrollVerified?
    && IsTransactionHash(verdict.receipt.transactionHash)
    && Lower(verdict.receipt.transactionHash) == Lower(txHash)
    && ReceiptMatches(s.intents[id].request, verdict.receipt)
  }

  /** The row after its hash has been bound, or had been bound before. */
  function WithHash(i: Intent, hash: TxHash): Intent {
    if i.transactionHash == Some(hash) then i
    else i.(transactionHash := Some(hash), status := Submitted, leaseOwner := None, leaseExpiresAt := None)
  }

  /** The intent once its hash is bound and its receipt has been accepted. */
  function Proven(i: Intent, hash: TxHash): Intent {
    WithHash(i, hash).(status := Completed)
  }

  predicate IsCurrent(s: Store, row: IntentRow) {
    row.id in s.intents && row.intent == s.intents[row.id]
  }

  /** What a success report that names its intent is answered, and what its failure leaves. */
  ghost predicate IsJudged(s: Store, r: Store, id: Id, txHash: string, verdict: PayrollVerdict, now: Time,
                           answer: Option<TaskError>)
    requires id in s.intents
  {
    var i := s.intents[id];
    if !BindAllowed(s, id, txHash, "", false, now)
    then r == s && answer.Some? && answer.value.IntentTrouble?
    else
      && (answer.Some? ==> r == WithIntent(s, id, VerificationStarted(WithHash(i, Lower(txHash)))))
      && (i.request.batchDigest.None? ==> answer == Some(IntentRequired))
      && (i.request.batchDigest.Some? ==>
            match verdict
            case PayrollTryAgain => answer == Some(ReceiptPending)
            case PayrollRefused => answer == Some(ReceiptRefused)
            case PayrollVerified(receipt) =>
              answer.None? || answer == Some(IntentTrouble(if IsTransactionHash(receipt.transactionHash)
                                                           then ReceiptMismatch else HashConflict)))
  }

  class TaskController {
    const db: Database
    const intents: ExecutionIntentService
    const units: TaskUnitService

    constructor (db: Database, intents: ExecutionIntentService, units: TaskUnitService)
      requires intents.db == db && units.db == db
      ensures this.db == db && this.intents == intents && this.units == units
    {
      this.db := db;
      this.intents := intents;
      this.units := units;
    }

    ghost predicate Wired() {
      intents.db == db && units.db == db
    }

    /** The intent a successful report names, checked against the unit. */
    method MatchingIntent(t: Id, index: nat, intentId: Option<Id>, txHash: Option<string>)
      returns (r: Result<IntentRow, TaskError>)
      requires db.Valid() && Wired()
      modifies db
      ensures db.Valid() && old(db.log) <= db.log
      ensures r.Success? ==>
                && t in db.store.tasks && index < |db.store.tasks[t].units|
                && r.value.id in db.store.intents && r.value.intent == db.store.intents[r.value.id]
                && r.value.id == db.store.tasks[t].units[index].intentId
                && txHash.Some? && txHash.value != "" && intentId == Some(r.value.id)
      ensures r.Failure? ==> r.error != ReceiptPending && r.error != ReceiptRefused
      ensures old(db.others) == [] ==>
                && db.others == [] && db.store == old(db.store)
                && r.Success? == IsReportable(old(db.store), t, index, intentId, txHash)
                && (r.Success? ==> r.value.intent == old(db.store).intents[intentId.value])
                && (r.Failure? ==>
                      r.error == if t !in old(db.store).tasks then TaskNotFound
                                 else if |old(db.store).tasks[t].units| <= index || txHash.None? || txHash.value == ""
                                         || intentId.None? then IntentRequired
                                 else if intentId.value !in old(db.store).intents then IntentTrouble(NotFound)
                                 else UnitDoesNotMatchIntent)
    {
      db.RoundTrip();
      if t !in db.store.tasks {
        return Failure(TaskNotFound);
      }
      if |db.store.tasks[t].units| <= index || txHash.None? || txHash.value == "" || intentId.None? {
        return Failure(IntentRequired);
      }
      var reference := db.store.tasks[t].units[index].reference;
      ghost var mark := db.log;
      var row := intents.Get(intentId.value);
      if row.Failure? {
        return Failure(IntentTrouble(row.error));
      }
      if row.value.intent.taskId != Some(t) || row.value.intent.request.externalReference != reference {
        return Failure(UnitDoesNotMatchIntent);
      }
      TaskStays(db, mark, t);
      ReferenceStays(db, mark, t, index);
      AttachedIntentIsPlanned(db.store, t, index, row.value.id);
      return Success(row.value);
    }

    /** Bind the reported hash and start the verification. */
    method BindAndBegin(id: Id, txHash: string, now: Time) returns (r: Answer)
      requires db.Valid() && Wired()
      modifies db
      ensures db.Valid() && old(db.log) <= db.log
      ensures r.Success? ==>
                && IsTransactionHash(txHash)
                && id in db.store.intents && db.store.intents[id].transactionHash == Some(Lower(txHash))
      ensures old(db.others) == [] ==> db.others == [] && db.store.tasks == old(db.store).tasks
      ensures old(db.others) == [] && !BindAllowed(old(db.store), id, txHash, "", false, now) ==>
                r.Failure? && db.store == old(db.store)
      ensures old(db.others) == [] && BindAllowed(old(db.store), id, txHash, "", false, now) ==>
                && r.Success? && db.others == []
                && db.store == WithIntent(old(db.store), id,
                                          VerificationStarted(WithHash(old(db.store).intents[id], Lower(txHash))))
    {
      ghost var before := db.store;
      r := intents.BindTransactionHash(id, txHash, "", false, now);
      if r.Failure? {
        return;
      }
      if BindAllowed(before, id, txHash, "", false, now) {
        LowerIsStored(txHash);
        BindingStep(before, id, Lower(txHash));
      }
      ghost var mark := db.log;
      r := intents.BeginVerification(id);
      HashStays(db, mark, id);
    }

    /** What the verifier found, weighed against an intent that carries the reported hash. */
    method Weigh(row: IntentRow, hash: TxHash, verdict: PayrollVerdict) returns (r: Option<TaskError>)
      requires db.Valid() && Wired() && IsAttested(db, verdict)
      requires row.id in db.store.intents && db.store.intents[row.id].transactionHash == Some(hash)
      modifies db
      ensures db.Valid() && old(db.log) <= db.log
      ensures r.None? ==> IsCompletedWith(db.store, row.id, hash)
      ensures r == Some(ReceiptPending) ==> verdict.PayrollTryAgain?
      ensures r == Some(ReceiptRefused) ==> verdict.PayrollRefused?
      ensures old(db.others) == [] ==> db.others == [] && db.store.tasks == old(db.store).tasks
      ensures old(db.others) == [] && row.intent.request == old(db.store).intents[row.id].request ==>
                var i := old(db.store).intents[row.id];
                && db.store == (if r.None? then WithIntent(old(db.store), row.id, Accepted(i)) else old(db.store))
                && (i.request.batchDigest.None? ==> r == Some(IntentRequired))
                && (i.request.batchDigest.Some? ==>
                      match verdict
                      case PayrollTryAgain => r == Some(ReceiptPending)
                      case PayrollRefused => r == Some(ReceiptRefused)
                      case PayrollVerified(receipt) =>
                        && r.None? == IsAccepted(i, receipt)
                        && (r.Some? ==> r == Some(IntentTrouble(if IsTransactionHash(receipt.transactionHash)
                                                                then ReceiptMismatch else HashConflict))))
    {
      hide Run, OnlyVerified, Step;
      ghost var mark := db.log;
      if row.intent.request.batchDigest.None? {
        return Some(IntentRequired);
      }
      match verdict {
        case PayrollTryAgain => return Some(ReceiptPending);
        case PayrollRefused => return Some(ReceiptRefused);
        case PayrollVerified(receipt) =>
          var done := intents.CompleteWithVerifiedReceipt(row.id, receipt);
          if done.Failure? {
            return Some(IntentTrouble(done.error));
          }
          HashStays(db, mark, row.id);
          return None;
      }
    }

    /** The evidence a successful report needs: the hash bound, the receipt verified, the intent completed. */
    method Prove(row: IntentRow, txHash: string, verdict: PayrollVerdict, now: Time) returns (r: Option<TaskError>)
      requires db.Valid() && Wired() && IsAttested(db, verdict)
      modifies db
      ensures db.Valid() && old(db.log) <= db.log
      ensures r.None? ==> IsTransactionHash(txHash) && IsCompletedWith(db.store, row.id, Lower(txHash))
      ensures r == Some(ReceiptPending) ==> verdict.PayrollTryAgain?
      ensures r == Some(ReceiptRefused) ==> verdict.PayrollRefused?
      ensures old(db.others) == [] ==> db.others == [] && db.store.tasks == old(db.store).tasks
      ensures old(db.others) == [] && IsCurrent(old(db.store), row) ==>
                && IsJudged(old(db.store), db.store, row.id, txHash, verdict, now, r)
                && (r.None? <==> IsProvable(old(db.store), row.id, txHash, verdict, now))
                && (r.None? ==> db.store == WithIntent(old(db.store), row.id, Proven(row.intent, Lower(txHash))))
    {
      hide Run, OnlyVerified, Step;
      ghost var start := db.log;
      RunKeeps(start);
      var begun := BindAndBegin(row.id, txHash, now);
      if begun.Failure? {
        return Some(IntentTrouble(begun.error));
      }
      if IsCurrent(Run(start), row) && BindAllowed(Run(start), row.id, txHash, "", false, now) {
        ProofGoesThrough(Run(start), row.id, txHash, verdict, now);
      }
      r := Weigh(row, Lower(txHash), verdict);
    }

    /** All that is checked before a success is recorded. */
    method Substantiate(t: Id, index: nat, txHash: Option<string>, intentId: Option<Id>, verdict: PayrollVerdict, now: Time)
      returns (r: Option<TaskError>)
      requires db.Valid() && Wired() && IsAttested(db, verdict)
      modifies db
      ensures db.Valid() && old(db.log) <= db.log
      ensures r.None? ==>
                && t in db.store.tasks && index < |db.store.tasks[t].units|
                && txHash.Some? && IsTransactionHash(txHash.value)
                && IsCompletedWith(db.store, db.store.tasks[t].units[index].intentId, Lower(txHash.value))
      ensures r == Some(ReceiptPending) ==> verdict.PayrollTryAgain?
      ensures r == Some(ReceiptRefused) ==> verdict.PayrollRefused?
      ensures old(db.others) == [] ==> db.others == [] && db.store.tasks == old(db.store).tasks
      ensures old(db.others) == [] ==>
                && (r.None? <==> && IsReportable(old(db.store), t, index, intentId, txHash)
                                 && IsProvable(old(db.store), intentId.value, txHash.value, verdict, now))
                && (!IsReportable(old(db.store), t, index, intentId, txHash) ==>
                      && db.store == old(db.store)
                      && r == Some(if t !in old(db.store).tasks then TaskNotFound
                                   else if |old(db.store).tasks[t].units| <= index || txHash.None? || txHash.value == ""
                                           || intentId.None? then IntentRequired
                                   else if intentId.value !in old(db.store).intents then IntentTrouble(NotFound)
                                   else UnitDoesNotMatchIntent))
                && (IsReportable(old(db.store), t, index, intentId, txHash) ==>
                      IsJudged(old(db.store), db.store, intentId.value, txHash.value, verdict, now, r))
      ensures old(db.others) == [] && r.None? ==>
                db.store == WithIntent(old(db.store), intentId.value,
                                       Proven(old(db.store).intents[intentId.value], Lower(txHash.value)))
      ensures old(db.others) == [] ==>
                var hash := if txHash.Some? then txHash.value else "";
                if t !in old(db.store).tasks then r == Some(TaskNotFound)
                else if |old(db.store).tasks[t].units| <= index || hash == "" || intentId.None?
                then r == Some(IntentRequired)
                else if intentId.value !in old(db.store).intents then r == Some(IntentTrouble(NotFound))
                else
                  var i := old(db.store).intents[intentId.value];
                  var free := || i.transactionHash == Some(Lower(hash))
                              || (&& i.transactionHash.None? && i.status != AwaitingWalletSignature
                                  && forall other | other in old(db.store).intents ::
                                       old(db.store).intents[other].transactionHash != Some(Lower(hash)));
                  var left := && intentId.value in db.store.intents
                              && db.store.intents[intentId.value].transactionHash == Some(Lower(hash))
                              && db.store.intents[intentId.value].status
                                 == if i.status == Completed || i.status == FailedFinal then i.status else Verifying;
                  if i.taskId != Some(t) || i.request.externalReference != old(db.store).tasks[t].units[index].reference
                  then r == Some(UnitDoesNotMatchIntent)
                  else if !IsTransactionHash(hash) || !free then r.Some? && r.value.IntentTrouble?
                  else if i.request.batchDigest.None? then left && r == Some(IntentRequired)
                  else
                    match verdict
                    case PayrollTryAgain => left && r == Some(ReceiptPending)
                    case PayrollRefused => left && r == Some(ReceiptRefused)
                    case PayrollVerified(receipt) =>
                      if && i.status != FailedFinal
                         && IsTransactionHash(receipt.transactionHash) && Lower(receipt.transactionHash) == Lower(hash)
                         && i.request.sourceWallet == receipt.sourceWallet && i.request.tokenOut == receipt.token
                         && i.request.amountUnits == receipt.amountUnits
                         && (if i.request.recipient.Some? then i.request.recipient == receipt.recipient
                             else i.request.batchDigest == receipt.batchDigest)
                      then
                        r.None? && db.store.intents[intentId.value].transactionHash == Some(Lower(hash))
                      else left && r.Some? && r.value.IntentTrouble?
    {
      hide Run, OnlyVerified, Step;
      ghost var start := db.log;
      var row := MatchingIntent(t, index, intentId, txHash);
      if row.Failure? {
        return Some(row.error);
      }
      BegunBefore(start, row.value.id, Lower(txHash.value));
      ghost var mark := db.log;
      r := Prove(row.value, txHash.value, verdict, now);
      if r.None? {
        UnitIntentStays(db, mark, t, index);
      }
    }

    /** Record a report whose success, if it is one, has been checked. */
    method Record(t: Id, index: nat, result: UnitStatus, txHash: HashUpdate) returns (r: Result<Report, TaskError>)
      requires db.Valid() && Wired()
      requires result == UnitSuccess ==>
                 && t in db.store.tasks && index < |db.store.tasks[t].units|
                 && txHash.SetHash? && txHash.value.Some? && IsTransactionHash(txHash.value.value)
                 && IsCompletedWith(db.store, db.store.tasks[t].units[index].intentId, Lower(txHash.value.value))
      modifies db
      ensures db.Valid() && old(db.log) <= db.log
      ensures r.Success? ==>
                && t in db.store.tasks && r.value.task == db.store.tasks[t]
                && index < |r.value.task.units| && r.value.unit == r.value.task.units[index]
                && (result != UnitPending ==> r.value.unit.status != UnitPending)
                && r.value.nextUnit == FirstPending(r.value.task.units, 0)
      ensures r.Failure? ==> r.error == UnitNotFound && result != UnitSuccess
      ensures r.Success? && result == UnitSuccess ==>
                IsCompletedWith(db.store, r.value.unit.intentId, Lower(txHash.value.value))
      ensures old(db.others) == [] ==>
                && db.store == Step(old(db.store), Event.ReportUnit(t, index, result, NormalizeUpdate(txHash)))
                && db.store.intents == old(db.store).intents
                && r.Success? == (t in old(db.store).tasks && index < |old(db.store).tasks[t].units|)
                && (r.Failure? ==> db.store.tasks == old(db.store).tasks)
                && (r.Success? ==>
                      var unit := old(db.store).tasks[t].units[index];
                      if unit.status != UnitPending then db.store.tasks == old(db.store).tasks
                      else
                        && r.value.unit.status == result
                        && r.value.unit.txHash ==
                           if txHash.KeepHash? then unit.txHash
                           else if txHash.value.Some? && IsTransactionHash(Trim(txHash.value.value))
                           then Some(Trim(txHash.value.value)) else None)
    {
      hide Run, OnlyVerified;
      ghost var mark := db.log;
      r := units.ReportUnit(t, index, result, txHash);
      if result == UnitSuccess {
        TaskStays(db, mark, t);
        UnitIntentStays(db, mark, t, index);
        CompletedStays(db, mark, Run(mark).tasks[t].units[index].intentId, Lower(txHash.value.value));
      }
    }

    /** A client reports a unit; only a success is checked, and any other status is taken as it is. */
    method ReportTaskUnit(t: Id, index: nat, status: Option<string>, txHash: HashUpdate, intentId: Option<Id>,
                          verdict: PayrollVerdict, now: Time)
      returns (r: Result<Report, TaskError>)
      requires db.Valid() && Wired() && IsAttested(db, verdict)
      modifies db
      ensures db.Valid() && old(db.log) <= db.log
      ensures r.Success? ==>
                && t in db.store.tasks && r.value.task == db.store.tasks[t]
                && index < |r.value.task.units| && r.value.unit == r.value.task.units[index]
                && (ReadUnitStatus(status) != UnitPending ==> r.value.unit.status != UnitPending)
                && r.value.nextUnit == FirstPending(r.value.task.units, 0)
      ensures r.Success? && ReadUnitStatus(status) == UnitSuccess ==>
                && txHash.SetHash? && txHash.value.Some? && IsTransactionHash(txHash.value.value)
                && IsCompletedWith(db.store, r.value.unit.intentId, Lower(txHash.value.value))
      ensures old(db.others) == [] && ReadUnitStatus(status) == UnitSuccess
              && IsReportable(old(db.store), t, index, intentId, txHash.Over(None))
              && IsProvable(old(db.store), intentId.value, txHash.value.value, verdict, now) ==>
                && r.Success?
                && db.store == Step(WithIntent(old(db.store), intentId.value,
                                               Proven(old(db.store).intents[intentId.value], Lower(txHash.value.value))),
                                    Event.ReportUnit(t, index, UnitSuccess, NormalizeUpdate(txHash)))
      ensures old(db.others) == [] && ReadUnitStatus(status) != UnitSuccess ==>
                && r.Success? == (t in old(db.store).tasks && index < |old(db.store).tasks[t].units|)
                && db.store == Step(old(db.store),
                                    Event.ReportUnit(t, index, ReadUnitStatus(status), NormalizeUpdate(txHash)))
      ensures old(db.others) == [] && r.Failure? ==> db.store.tasks == old(db.store).tasks
      ensures old(db.others) == [] && r.Success? ==>
                && t in old(db.store).tasks && index < |old(db.store).tasks[t].units|
                && var unit := old(db.store).tasks[t].units[index];
                if unit.status != UnitPending then db.store.tasks == old(db.store).tasks
                else
                  && r.value.unit.status == (if status.None? || status.value == "PENDING" then UnitPending
                                             else if status.value == "SUCCESS" then UnitSuccess
                                             else if status.value == "FAILED" then UnitFailed
                                             else UnitOther(status.value))
                  && r.value.unit.txHash ==
                     if txHash.KeepHash? then unit.txHash
                     else if txHash.value.Some? && IsTransactionHash(Trim(txHash.value.value))
                     then Some(Trim(txHash.value.value)) else None
      ensures r == Failure(ReceiptPending) ==> verdict.PayrollTryAgain?
      ensures r == Failure(ReceiptRefused) ==> verdict.PayrollRefused?
      ensures old(db.others) == [] && status == Some("SUCCESS") ==>
                var hash := if txHash.SetHash? && txHash.value.Some? then txHash.value.value else "";
                if t !in old(db.store).tasks then r == Failure(TaskNotFound)
                else if |old(db.store).tasks[t].units| <= index || hash == "" || intentId.None?
                then r == Failure(IntentRequired)
                else if intentId.value !in old(db.store).intents then r == Failure(IntentTrouble(NotFound))
                else
                  var i := old(db.store).intents[intentId.value];
                  var free := || i.transactionHash == Some(Lower(hash))
                              || (&& i.transactionHash.None? && i.status != AwaitingWalletSignature
                                  && forall other | other in old(db.store).intents ::
                                       old(db.store).intents[other].transactionHash != Some(Lower(hash)));
                  var left := && intentId.value in db.store.intents
                              && db.store.intents[intentId.value].transactionHash == Some(Lower(hash))
                              && db.store.intents[intentId.value].status
                                 == if i.status == Completed || i.status == FailedFinal then i.status else Verifying;
                  if i.taskId != Some(t) || i.request.externalReference != old(db.store).tasks[t].units[index].reference
                  then r == Failure(UnitDoesNotMatchIntent)
                  else if !IsTransactionHash(hash) || !free then r.Failure? && r.error.IntentTrouble?
                  else if i.request.batchDigest.None? then left && r == Failure(IntentRequired)
                  else
                    match verdict
                    case PayrollTryAgain => left && r == Failure(ReceiptPending)
                    case PayrollRefused => left && r == Failure(ReceiptRefused)
                    case PayrollVerified(receipt) =>
                      if && i.status != FailedFinal
                         && IsTransactionHash(receipt.transactionHash) && Lower(receipt.transactionHash) == Lower(hash)
                         && i.request.sourceWallet == receipt.sourceWallet && i.request.tokenOut == receipt.token
                         && i.request.amountUnits == receipt.amountUnits
                         && (if i.request.recipient.Some? then i.request.recipient == receipt.recipient
                             else i.request.batchDigest == receipt.batchDigest)
                      then
                        && r.Success? && intentId.value in db.store.intents
                        && db.store.intents[intentId.value].status == Completed
                        && db.store.intents[intentId.value].transactionHash == Some(Lower(hash))
                      else left && r.Failure? && r.error.IntentTrouble?
    {
      hide Run, OnlyVerified, Step, IsProvable, IsJudged, BindAllowed;
      var result := ReadUnitStatus(status);
      if result == UnitSuccess {
        var trouble := Substantiate(t, index, txHash.Over(None), intentId, verdict, now);
        if trouble.Some? {
          return Failure(trouble.value);
        }
      }
      r := Record(t, index, result, txHash);
    }
  }

  /** A success report revives a cancelled intent: it asks for no more than a free hash and a receipt that matches. */
  lemma CancelledIsProvable(s: Store, id: Id, txHash: string, verdict: PayrollVerdict, now: Time)
    requires Inv(s) && id in s.intents && s.intents[id].status == Cancelled && IsTransactionHash(txHash)
    ensures IsProvable(s, id, txHash, verdict, now)
       <==> (&& !HashTaken(s, Lower(txHash))
             && Supports(VerificationStarted(WithHash(s.intents[id], Lower(txHash))), verdict))
    ensures Proven(s.intents[id], Lower(txHash)).status == Completed
  {
    CancelledTakesHash(s, id, txHash, "", false, now);
    assert RowAt(s.intents, id);
  }

  /** Where a bound hash and a begun verification leave an intent. */
  lemma BegunBefore(es: seq<Event>, id: Id, hash: TxHash)
    ensures var s := Run(es);
            id in s.intents && (s.intents[id].transactionHash == Some(hash) || s.intents[id].transactionHash.None?) ==>
              var begun := VerificationStarted(WithHash(s.intents[id], hash));
              && begun.transactionHash == Some(hash)
              && begun.status == (if s.intents[id].status == Completed || s.intents[id].status == FailedFinal
                                  then s.intents[id].status else Verifying)
  {
    RunKeeps(es);
    assert RowAt(Run(es).intents, id);
  }

  lemma BindingStep(s: Store, id: Id, hash: TxHash)
    requires id in s.intents && IsStoredHash(hash)
    requires s.intents[id].transactionHash == Some(hash)
             || (s.intents[id].transactionHash.None? && !HashTaken(s, hash))
    ensures Step(s, BindHash(id, hash)) == WithIntent(s, id, WithHash(s.intents[id], hash))
  {
    assert s.intents[id := s.intents[id]] == s.intents;
  }

  /** Begun, the intent accepts exactly the receipts that prove it, and completed it is the proven one. */
  lemma ProofGoesThrough(s: Store, id: Id, txHash: string, verdict: PayrollVerdict, now: Time)
    requires Inv(s) && BindAllowed(s, id, txHash, "", false, now)
    ensures var begun := VerificationStarted(WithHash(s.intents[id], Lower(txHash)));
            && (IsProvable(s, id, txHash, verdict, now)
                <==> begun.request.batchDigest.Some? && verdict.PayrollVerified? && IsAccepted(begun, verdict.receipt))
            && (IsProvable(s, id, txHash, verdict, now) ==>
                  WithIntent(WithIntent(s, id, begun), id, Accepted(begun))
                  == WithIntent(s, id, Proven(s.intents[id], Lower(txHash))))
  {
    assert RowAt(s.intents, id);
    var begun := VerificationStarted(WithHash(s.intents[id], Lower(txHash)));
    assert s.intents[id := begun][id := begun.(status := Completed)] == s.intents[id := begun.(status := Completed)];
  }

  /** A payroll of one batch, named by its intent. */
  lemma OneBatchPayroll(id: Id, request: Request) returns (es: seq<Event>)
    requires request.operation == Payroll
    ensures var s := Run(es);
            && id in s.intents && s.intents[id] == NewIntent(request) && s.intents.Keys == {id}
            && id in s.tasks
            && s.tasks[id] == Task(Assigned, 1, 0, 0, [Unit(request.externalReference, id, UnitPending, None, None)])
  {
    var plan := [PlannedUnit(request.externalReference, id)];
    var first, second := InsertIntent(id, request, 0), InsertTask(id, plan);
    RunAppend([], first);
    RunAppend([] + [first], second);
    es := [] + [first] + [second];
    assert Run([]) == EmptyStore();
    assert PlanHolds(Run([] + [first]), id, plan[0]);
  }

  /** Its intent is submitted, if need be after a cancellation, and verified and completed. */
  lemma OneBatchCompleted(es: seq<Event>, id: Id, receipt: Receipt) returns (longer: seq<Event>)
    requires Run(es).intents.Keys == {id} && Run(es).intents[id].transactionHash.None?
    requires IsTransactionHash(receipt.transactionHash) && ReceiptMatches(Run(es).intents[id].request, receipt)
    ensures longer == es + [BindHash(id, Lower(receipt.transactionHash)), Advance(id, Submitted, Verifying),
                            Complete(id, receipt)]
    ensures id in Run(longer).intents && Run(longer).intents[id].status == Completed
    ensures Run(longer).tasks == Run(es).tasks
  {
    hide Run;
    LowerIsStored(receipt.transactionHash);
    var bind, begin := Event.BindHash(id, Lower(receipt.transactionHash)), Advance(id, Submitted, Verifying);
    var complete := Complete(id, receipt);
    RunAppend(es, bind);
    RunAppend(es + [bind], begin);
    RunAppend(es + [bind] + [begin], complete);
    longer := es + [bind] + [begin] + [complete];
    assert longer == es + [bind, begin, complete];
  }

  ghost predicate IsOnePending(s: Store, id: Id) {
    && id in s.tasks && |s.tasks[id].units| == 1 && s.tasks[id].totalUnits == 1 && s.tasks[id].failedUnits == 0
    && s.tasks[id].units[0].status == UnitPending && s.tasks[id].units[0].intentId == id
  }

  /** Its unit is reported, with any status but SUCCESS. */
  lemma OneUnitReported(es: seq<Event>, id: Id, result: UnitStatus) returns (longer: seq<Event>)
    requires IsOnePending(Run(es), id) && result != UnitSuccess
    ensures longer == es + [Event.ReportUnit(id, 0, result, KeepHash)]
    ensures Run(longer) == Step(Run(es), Event.ReportUnit(id, 0, result, KeepHash))
    ensures Run(longer).intents == Run(es).intents
    ensures result == UnitFailed ==> FailedFor(Run(longer), id, 0, id)
    ensures result == UnitPending && Run(es).tasks[id].completedUnits == 0 ==>
              id in Run(longer).tasks && Run(longer).tasks[id].status == InProgress && AllPending(Run(longer).tasks[id].units)
  {
    var report := Event.ReportUnit(id, 0, result, KeepHash);
    RunAppend(es, report);
    longer := es + [report];
  }

  lemma OneCancelled(es: seq<Event>, id: Id) returns (longer: seq<Event>)
    requires IsOnePending(Run(es), id) && Run(es).intents.Keys == {id} && Run(es).intents[id].transactionHash.None?
    ensures IsOnePending(Run(longer), id) && Run(longer).intents.Keys == {id}
    ensures Run(longer).intents[id] == Run(es).intents[id].(status := Cancelled, leaseOwner := None, leaseExpiresAt := None)
  {
    RunAppend(es, CancelIntent(id));
    longer := es + [CancelIntent(id)];
  }

  /** A reported failure needs no evidence: a client can report the unit of a completed intent as failed. */
  lemma FailureIsTakenOnTrust(id: Id, request: Request, receipt: Receipt) returns (es: seq<Event>)
    requires request.operation == Payroll && IsTransactionHash(receipt.transactionHash)
    requires ReceiptMatches(request, receipt)
    ensures FailedFor(Run(es), id, 0, id) && IsCompleted(Run(es), id)
  {
    hide Run, Step;
    es := OneBatchPayroll(id, request);
    es := OneBatchCompleted(es, id, receipt);
    es := OneUnitReported(es, id, UnitFailed);
  }

  /**
   Nor does a recorded failure last: the reconciliation fails the unit of a cancelled intent, as its
   contract says, and a hash that is bound later completes the intent. No client reports anything.
   */
  lemma FailureIsOvertaken(id: Id, request: Request, receipt: Receipt, verdict: PayrollVerdict)
    returns (before: seq<Event>, es: seq<Event>)
    requires request.operation == Payroll && IsTransactionHash(receipt.transactionHash)
    requires ReceiptMatches(request, receipt)
    ensures id in Run(before).intents && Run(before).intents[id].status == Cancelled
    ensures var report := Event.ReportUnit(id, 0, UnitFailed, KeepHash);
            && Run(before + [report]) == Reconciled(Run(before), id, 0, id, verdict)
            && es == before + [report] + [BindHash(id, Lower(receipt.transactionHash)),
                                          Advance(id, Submitted, Verifying), Complete(id, receipt)]
    ensures FailedFor(Run(es), id, 0, id) && IsCompleted(Run(es), id)
  {
    hide Run, Step, Decided;
    before := OneBatchPayroll(id, request);
    before := OneCancelled(before, id);
    es := OneUnitReported(before, id, UnitFailed);
    es := OneBatchCompleted(es, id, receipt);
  }

  /** A report with the status PENDING starts a payroll all of whose units stay pending. */
  lemma PendingReportStarts(id: Id, request: Request) returns (es: seq<Event>)
    requires request.operation == Payroll
    ensures id in Run(es).tasks && Run(es).tasks[id].status == InProgress && AllPending(Run(es).tasks[id].units)
  {
    es := OneBatchPayroll(id, request);
    es := OneUnitReported(es, id, UnitPending);
  }

  ghost predicate IsCompletedWith(s: Store, id: Id, hash: TxHash) {
    id in s.intents && s.intents[id].status == Completed && s.intents[id].transactionHash == Some(hash)
  }

  lemma CompletedStays(db: Database, mark: seq<Event>, id: Id, hash: TxHash)
    requires db.Valid() && mark <= db.log && IsCompletedWith(Run(mark), id, hash)
    ensures IsCompletedWith(db.store, id, hash)
  {
    Since(db, mark);
    assert IntentKept(Run(mark), db.store, id);
  }

  lemma ReferenceStays(db: Database, mark: seq<Event>, t: Id, index: nat)
    requires db.Valid() && mark <= db.log && t in Run(mark).tasks && index < |Run(mark).tasks[t].units|
    ensures Inv(db.store) && t in db.store.tasks && index < |db.store.tasks[t].units|
    ensures db.store.tasks[t].units[index].reference == Run(mark).tasks[t].units[index].reference
  {
    Since(db, mark);
    assert TaskKept(Run(mark), db.store, t) && UnitKept(Run(mark).tasks[t], db.store.tasks[t], index);
  }

  lemma UnitIntentStays(db: Database, mark: seq<Event>, t: Id, index: nat)
    requires db.Valid() && mark <= db.log && t in Run(mark).tasks && index < |Run(mark).tasks[t].units|
    ensures t in db.store.tasks && index < |db.store.tasks[t].units|
    ensures db.store.tasks[t].units[index].intentId == Run(mark).tasks[t].units[index].intentId
  {
    Since(db, mark);
    assert TaskKept(Run(mark), db.store, t) && UnitKept(Run(mark).tasks[t], db.store.tasks[t], index);
  }

  lemma TaskStays(db: Database, mark: seq<Event>, t: Id)
    requires db.Valid() && mark <= db.log && t in Run(mark).tasks
    ensures t in db.store.tasks && |db.store.tasks[t].units| == |Run(mark).tasks[t].units|
  {
    Since(db, mark);
    assert TaskKept(Run(mark), db.store, t);
  }

  lemma HashStays(db: Database, mark: seq<Event>, id: Id)
    requires db.Valid() && mark <= db.log && id in Run(mark).intents && Run(mark).intents[id].transactionHash.Some?
    ensures id in db.store.intents && db.store.intents[id].transactionHash == Run(mark).intents[id].transactionHash
  {
    Since(db, mark);
    assert IntentKept(Run(mark), db.store, id);
  }

  /** Once a planned intent is completed, its unit may be reported with the transaction it carries. */
  lemma CompletedUnitIsSettled(db: Database, mark: seq<Event>, plan: seq<PlannedUnit>, k: nat)
    requires db.Valid() && mark <= db.log && IsPlan(Run(mark), plan) && plan[0].intentId in Run(mark).tasks
    requires k < |plan| && k < |Run(mark).tasks[plan[0].intentId].units|
    requires plan[k].intentId in db.store.intents && db.store.intents[plan[k].intentId].status == Completed
    ensures db.store.intents[plan[k].intentId].transactionHash.Some?
    ensures MayReport(db.store, plan[0].intentId, k, UnitSuccess, SetHash(db.store.intents[plan[k].intentId].transactionHash))
  {
    Since(db, mark);
    PlanStays(db, mark, plan);
    TaskStays(db, mark, plan[0].intentId);
    PlansAgree(db.store, plan, k);
    assert RowAt(db.store.intents, plan[k].intentId);
  }

  lemma FailureIsJustified(db: Database, start: seq<Event>, mark: seq<Event>, plan: seq<PlannedUnit>, k: nat)
    requires db.Valid() && start <= mark <= db.log && IsPlan(Run(start), plan) && k < |plan|
    requires plan[k].intentId in Run(mark).intents && Run(mark).intents[plan[k].intentId].transactionHash.Some?
    ensures Justified(db.store, FailFinal(plan[k].intentId))
  {
    PlanStays(db, start, plan);
    assert PlannedAt(db.store, plan, k);
    HashStays(db, mark, plan[k].intentId);
  }
}

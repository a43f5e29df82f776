/**
 Verification of a payroll receipt on Arc Mainnet: the decoded call, the totals and the digest
 have to agree with the immutable batch, and the contract's events with the call. keccak256 is
 represented by the value hashed, so reference hashes are injective.
 */
module PayrollReceipts {
  import opened Wrappers
  import opened Rows
  import opened Text
  import opened Arithmetic

  const ARC_MAINNET_CHAIN_ID := 5_042
  const USDC_NATIVE_SCALE := 1_000_000_000_000

  datatype ReferenceHash =
    | HashOf(chainId: nat, contract: Address, employer: Address, referenceId: string)
    | OtherHash(digits: nat)

  /** A log of the payroll contract as far as it decodes. */
  datatype Content =
    | PayrollPayment(referenceHash: ReferenceHash, employer: Address, paymentIndex: nat, tokenOut: Address,
                     recipient: Address, amountOut: nat)
    | PayrollReferenceConsumed(referenceHash: ReferenceHash, employer: Address, tokenIn: Address, tokenOut: Address,
                               totalOutput: nat, recipientCount: nat, referenceId: string)
    | PayrollBatchExecuted(employer: Address, tokenIn: Address, tokenOut: Address, totalOutput: nat,
                           recipientCount: nat, referenceId: string)
    | Undecodable

  datatype Log = Log(emitter: Address, content: Content)

  datatype Expected = Expected(
    contract: Address,
    employer: Address,
    tokenIn: Address,
    tokenOut: Address,
    referenceId: string,
    recipients: seq<Address>,
    amounts: seq<nat>)

  function ReferenceOf(x: Expected): ReferenceHash {
    HashOf(ARC_MAINNET_CHAIN_ID, x.contract, x.employer, x.referenceId)
  }

  predicate IsPayment(x: Expected, c: Content) {
    && c.PayrollPayment?
    && c.referenceHash == ReferenceOf(x) && c.employer == x.employer && c.tokenOut == x.tokenOut
    && c.paymentIndex < |x.recipients| && c.paymentIndex < |x.amounts|
    && c.recipient == x.recipients[c.paymentIndex] && c.amountOut == x.amounts[c.paymentIndex]
  }

  predicate IsSummary(x: Expected, c: Content) {
    && c.PayrollReferenceConsumed?
    && c.referenceHash == ReferenceOf(x) && c.employer == x.employer
    && c.tokenIn == x.tokenIn && c.tokenOut == x.tokenOut
    && c.totalOutput == Sum(x.amounts) && c.recipientCount == |x.recipients| && c.referenceId == x.referenceId
  }

  predicate IsBatch(x: Expected, c: Content) {
    && c.PayrollBatchExecuted?
    && c.employer == x.employer && c.tokenIn == x.tokenIn && c.tokenOut == x.tokenOut
    && c.totalOutput == Sum(x.amounts) && c.recipientCount == |x.recipients| && c.referenceId == x.referenceId
  }

  // ---- What the events have to be ------------------------------------------------------------

  /** Log i is a payment event of the payroll contract for recipient index r. */
  predicate PaysAt(x: Expected, logs: seq<Log>, i: nat, r: nat)
    requires i < |logs|
  {
    logs[i].emitter == x.contract && logs[i].content.PayrollPayment? && logs[i].content.paymentIndex == r
  }

  ghost predicate IsPaid(x: Expected, logs: seq<Log>, r: nat) {
    exists i :: 0 <= i < |logs| && PaysAt(x, logs, i, r)
  }

  predicate IsRight(x: Expected, log: Log) {
    log.emitter == x.contract ==>
      match log.content
      case PayrollPayment(_, _, _, _, _, _) => IsPayment(x, log.content)
      case PayrollReferenceConsumed(_, _, _, _, _, _, _) => IsSummary(x, log.content)
      case PayrollBatchExecuted(_, _, _, _, _, _) => IsBatch(x, log.content)
      case Undecodable => true
  }

  function Summaries(x: Expected, logs: seq<Log>): nat {
    if logs == [] then 0
    else
      var last := logs[|logs| - 1];
      Summaries(x, logs[..|logs| - 1])
      + (if last.emitter == x.contract && last.content.PayrollReferenceConsumed? then 1 else 0)
  }

  function Batches(x: Expected, logs: seq<Log>): nat {
    if logs == [] then 0
    else
      var last := logs[|logs| - 1];
      Batches(x, logs[..|logs| - 1])
      + (if last.emitter == x.contract && last.content.PayrollBatchExecuted? then 1 else 0)
  }

  ghost predicate AllRight(x: Expected, logs: seq<Log>) {
    forall i | 0 <= i < |logs| :: IsRight(x, logs[i])
  }

  ghost predicate PaidOnce(x: Expected, logs: seq<Log>) {
    forall i, j, r | 0 <= i < j < |logs| && PaysAt(x, logs, i, r) :: !PaysAt(x, logs, j, r)
  }

  /**
   Every event of the contract is right, payment events and recipients correspond one to one,
   and there is one summary and one batch event.
   */
  ghost predicate ExactEvents(x: Expected, logs: seq<Log>) {
    && AllRight(x, logs)
    && PaidOnce(x, logs)
    && (forall r | 0 <= r < |x.recipients| :: IsPaid(x, logs, r))
    && Summaries(x, logs) == 1
    && Batches(x, logs) == 1
  }

  // ---- The same, log by log ------------------------------------------------------------------

  ghost function SummaryIndices(x: Expected, logs: seq<Log>): set<nat> {
    set i: nat | i < |logs| && logs[i].emitter == x.contract && logs[i].content.PayrollReferenceConsumed?
  }

  ghost function BatchIndices(x: Expected, logs: seq<Log>): set<nat> {
    set i: nat | i < |logs| && logs[i].emitter == x.contract && logs[i].content.PayrollBatchExecuted?
  }

  lemma {:induction false} SummariesAreCounted(x: Expected, logs: seq<Log>)
    ensures Summaries(x, logs) == |SummaryIndices(x, logs)|
  {
    if logs != [] {
      var n := |logs| - 1;
      SummariesAreCounted(x, logs[..n]);
      assert SummaryIndices(x, logs) == SummaryIndices(x, logs[..n])
          + (if logs[n].emitter == x.contract && logs[n].content.PayrollReferenceConsumed? then {n} else {});
    }
  }

  lemma {:induction false} BatchesAreCounted(x: Expected, logs: seq<Log>)
    ensures Batches(x, logs) == |BatchIndices(x, logs)|
  {
    if logs != [] {
      var n := |logs| - 1;
      BatchesAreCounted(x, logs[..n]);
      assert BatchIndices(x, logs) == BatchIndices(x, logs[..n])
          + (if logs[n].emitter == x.contract && logs[n].content.PayrollBatchExecuted? then {n} else {});
    }
  }

  ghost function PaymentIndex(x: Expected, logs: seq<Log>, r: nat): (i: nat)
    requires IsPaid(x, logs, r)
    ensures i < |logs| && PaysAt(x, logs, i, r)
  {
    var i :| 0 <= i < |logs| && PaysAt(x, logs, i, r);
    i
  }

  /**
   Exact events, log by log: one payment event of the contract for each recipient, with its address and
   amount, one summary and one batch event with the parties and totals, and no other such event of it.
   */
  lemma EventsOfExact(x: Expected, logs: seq<Log>) returns (at: seq<nat>, summary: nat, batch: nat)
    requires ExactEvents(x, logs) && |x.recipients| == |x.amounts|
    ensures |at| == |x.recipients| && summary < |logs| && batch < |logs|
    ensures forall r | 0 <= r < |at| ::
              && at[r] < |logs| && logs[at[r]].emitter == x.contract
              && logs[at[r]].content == PayrollPayment(HashOf(5_042, x.contract, x.employer, x.referenceId), x.employer,
                                                       r, x.tokenOut, x.recipients[r], x.amounts[r])
    ensures logs[summary].emitter == x.contract && logs[summary].content.PayrollReferenceConsumed?
    ensures logs[summary].content == PayrollReferenceConsumed(HashOf(5_042, x.contract, x.employer, x.referenceId),
                                                              x.employer, x.tokenIn, x.tokenOut,
                                                              logs[summary].content.totalOutput, |x.recipients|,
                                                              x.referenceId)
    ensures logs[batch].emitter == x.contract && logs[batch].content.PayrollBatchExecuted?
    ensures logs[batch].content == PayrollBatchExecuted(x.employer, x.tokenIn, x.tokenOut,
                                                        logs[batch].content.totalOutput, |x.recipients|, x.referenceId)
    ensures logs[summary].content.totalOutput == logs[batch].content.totalOutput == Sum(x.amounts)
    ensures forall i | 0 <= i < |logs| && logs[i].emitter == x.contract ::
              && (logs[i].content.PayrollPayment? ==>
                    logs[i].content.paymentIndex < |at| && at[logs[i].content.paymentIndex] == i)
              && (logs[i].content.PayrollReferenceConsumed? ==> i == summary)
              && (logs[i].content.PayrollBatchExecuted? ==> i == batch)
  {
    SummariesAreCounted(x, logs);
    BatchesAreCounted(x, logs);
    summary :| summary in SummaryIndices(x, logs);
    batch :| batch in BatchIndices(x, logs);
    SameSize({summary}, SummaryIndices(x, logs));
    SameSize({batch}, BatchIndices(x, logs));
    at := seq(|x.recipients|, r requires 0 <= r < |x.recipients| => PaymentIndex(x, logs, r));
    assert IsRight(x, logs[summary]) && IsRight(x, logs[batch]);
    forall i | 0 <= i < |logs| && logs[i].emitter == x.contract
      ensures logs[i].content.PayrollPayment? ==>
                logs[i].content.paymentIndex < |at| && at[logs[i].content.paymentIndex] == i
      ensures logs[i].content.PayrollReferenceConsumed? ==> i in SummaryIndices(x, logs)
      ensures logs[i].content.PayrollBatchExecuted? ==> i in BatchIndices(x, logs)
    {
      assert IsRight(x, logs[i]);
      if logs[i].content.PayrollPayment? {
        var r := logs[i].content.paymentIndex;
        assert PaysAt(x, logs, i, r) && PaysAt(x, logs, at[r], r);
      }
    }
    forall r | 0 <= r < |at|
      ensures logs[at[r]].content == PayrollPayment(HashOf(5_042, x.contract, x.employer, x.referenceId), x.employer, r,
                                                    x.tokenOut, x.recipients[r], x.amounts[r])
    {
      assert PaysAt(x, logs, at[r], r) && IsRight(x, logs[at[r]]);
    }
  }

  /** And logs like these are exact. */
  lemma ExactOfEvents(x: Expected, logs: seq<Log>, at: seq<nat>, summary: nat, batch: nat)
    requires |at| == |x.recipients| == |x.amounts| && summary < |logs| && batch < |logs|
    requires forall r | 0 <= r < |at| ::
               && at[r] < |logs| && logs[at[r]].emitter == x.contract
               && logs[at[r]].content == PayrollPayment(HashOf(5_042, x.contract, x.employer, x.referenceId), x.employer,
                                                        r, x.tokenOut, x.recipients[r], x.amounts[r])
    requires logs[summary].emitter == x.contract && logs[summary].content.PayrollReferenceConsumed?
    requires logs[summary].content == PayrollReferenceConsumed(HashOf(5_042, x.contract, x.employer, x.referenceId),
                                                               x.employer, x.tokenIn, x.tokenOut,
                                                               logs[summary].content.totalOutput, |x.recipients|,
                                                               x.referenceId)
    requires logs[batch].emitter == x.contract && logs[batch].content.PayrollBatchExecuted?
    requires logs[batch].content == PayrollBatchExecuted(x.employer, x.tokenIn, x.tokenOut,
                                                         logs[batch].content.totalOutput, |x.recipients|, x.referenceId)
    requires logs[summary].content.totalOutput == logs[batch].content.totalOutput == Sum(x.amounts)
    requires forall i | 0 <= i < |logs| && logs[i].emitter == x.contract ::
               && (logs[i].content.PayrollPayment? ==>
                     logs[i].content.paymentIndex < |at| && at[logs[i].content.paymentIndex] == i)
               && (logs[i].content.PayrollReferenceConsumed? ==> i == summary)
               && (logs[i].content.PayrollBatchExecuted? ==> i == batch)
    ensures ExactEvents(x, logs)
  {
    SummariesAreCounted(x, logs);
    BatchesAreCounted(x, logs);
    assert SummaryIndices(x, logs) == {summary} && BatchIndices(x, logs) == {batch};
    forall r | 0 <= r < |x.recipients|
      ensures IsPaid(x, logs, r)
    {
      assert PaysAt(x, logs, at[r], r);
    }
  }

  // ---- The loop ----------------------------------------------------------------------------

  /** After the first k logs: the map holds the indices that were paid, each of them once. */
  ghost predicate Recorded(x: Expected, logs: seq<Log>, payments: map<nat, nat>) {
    && AllRight(x, logs) && PaidOnce(x, logs)
    && forall r: nat :: r in payments <==> IsPaid(x, logs, r)
  }

  method VerifyMainnetPayrollEvents(x: Expected, logs: seq<Log>) returns (ok: bool)
    requires |x.recipients| == |x.amounts|
    ensures ok <==> ExactEvents(x, logs)
  {
    var payments: map<nat, nat>, summaryCount, batchCount := map[], 0, 0;
    for k := 0 to |logs|
      invariant Recorded(x, logs[..k], payments)
      invariant summaryCount == Summaries(x, logs[..k]) && batchCount == Batches(x, logs[..k])
    {
      var log := logs[k];
      assert logs[..k + 1][..k] == logs[..k] && logs[..k + 1][k] == log;
      if log.emitter != x.contract {
        RecordedNext(x, logs, k, payments);
        continue;
      }
      match log.content {
        case PayrollPayment(_, _, index, _, _, amountOut) =>
          if index in payments || !IsPayment(x, log.content) {
            NotExact(x, logs, k, payments);
            return false;
          }
          RecordedNext(x, logs, k, payments);
          payments := payments[index := amountOut];
        case PayrollReferenceConsumed(_, _, _, _, _, _, _) =>
          if !IsSummary(x, log.content) {
            NotExact(x, logs, k, payments);
            return false;
          }
          RecordedNext(x, logs, k, payments);
          summaryCount := summaryCount + 1;
        case PayrollBatchExecuted(_, _, _, _, _, _) =>
          if !IsBatch(x, log.content) {
            NotExact(x, logs, k, payments);
            return false;
          }
          RecordedNext(x, logs, k, payments);
          batchCount := batchCount + 1;
        case Undecodable =>
          RecordedNext(x, logs, k, payments);
      }
    }
    assert logs[..|logs|] == logs;
    FullExactly(x, logs, payments);
    return |payments| == |x.recipients| && summaryCount == 1 && batchCount == 1;
  }

  lemma PaysPrefix(x: Expected, logs: seq<Log>, k: nat, r: nat)
    requires k < |logs|
    ensures IsPaid(x, logs[..k + 1], r) <==> IsPaid(x, logs[..k], r) || PaysAt(x, logs, k, r)
  {
    if IsPaid(x, logs[..k], r) {
      var i :| 0 <= i < k && PaysAt(x, logs[..k], i, r);
      assert PaysAt(x, logs[..k + 1], i, r);
    }
    if PaysAt(x, logs, k, r) {
      assert PaysAt(x, logs[..k + 1], k, r);
    }
    if IsPaid(x, logs[..k + 1], r) {
      var i :| 0 <= i < |logs[..k + 1]| && PaysAt(x, logs[..k + 1], i, r);
      assert i < k ==> PaysAt(x, logs[..k], i, r);
    }
  }

  /** A right log keeps the record; a payment adds its index, which must be new. */
  lemma RecordedNext(x: Expected, logs: seq<Log>, k: nat, payments: map<nat, nat>)
    requires k < |logs| && Recorded(x, logs[..k], payments) && IsRight(x, logs[k])
    requires logs[k].emitter == x.contract && logs[k].content.PayrollPayment? ==>
               logs[k].content.paymentIndex !in payments
    ensures var c := logs[k].content;
            Recorded(x, logs[..k + 1],
                     if logs[k].emitter == x.contract && c.PayrollPayment? then payments[c.paymentIndex := c.amountOut]
                     else payments)
  {
    var longer := logs[..k + 1];
    forall i | 0 <= i < |longer|
      ensures IsRight(x, longer[i])
    {
      assert i < k ==> longer[i] == logs[..k][i];
    }
    forall i, j, r | 0 <= i < j < |longer| && PaysAt(x, longer, i, r)
      ensures !PaysAt(x, longer, j, r)
    {
      assert PaysAt(x, logs[..k], i, r);
      if j < k {
        assert PaysAt(x, longer, j, r) ==> PaysAt(x, logs[..k], j, r);
      } else {
        assert IsPaid(x, logs[..k], r);
      }
    }
    forall r: nat
      ensures IsPaid(x, longer, r) <==> IsPaid(x, logs[..k], r) || PaysAt(x, logs, k, r)
    {
      PaysPrefix(x, logs, k, r);
    }
  }

  /** A wrong log, or a second payment of one index, rules exactness out. */
  lemma NotExact(x: Expected, logs: seq<Log>, k: nat, payments: map<nat, nat>)
    requires k < |logs| && Recorded(x, logs[..k], payments)
    requires || !IsRight(x, logs[k])
             || (logs[k].emitter == x.contract && logs[k].content.PayrollPayment?
                 && logs[k].content.paymentIndex in payments)
    ensures !ExactEvents(x, logs)
  {
    if IsRight(x, logs[k]) {
      var r := logs[k].content.paymentIndex;
      var i :| 0 <= i < k && PaysAt(x, logs[..k], i, r);
      assert PaysAt(x, logs, i, r) && PaysAt(x, logs, k, r);
    }
  }

  ghost function Below(n: nat): (s: set<nat>)
    ensures |s| == n && forall r: nat :: r in s <==> r < n
  {
    if n == 0 then {} else Below(n - 1) + {n - 1}
  }

  /** The map is full exactly when every recipient has been paid. */
  lemma FullExactly(x: Expected, logs: seq<Log>, payments: map<nat, nat>)
    requires Recorded(x, logs, payments) && |x.recipients| == |x.amounts|
    ensures |payments| == |x.recipients| <==> forall r | 0 <= r < |x.recipients| :: IsPaid(x, logs, r)
  {
    var all := Below(|x.recipients|);
    forall r | r in payments
      ensures r in all
    {
      var i :| 0 <= i < |logs| && PaysAt(x, logs, i, r);
      assert IsRight(x, logs[i]);
    }
    assert payments.Keys <= all;
    if |payments| == |x.recipients| {
      SameSize(payments.Keys, all);
      assert forall r: nat :: r in all ==> IsPaid(x, logs, r);
    } else {
      assert payments.Keys != all;
      var r :| r in all && r !in payments;
      assert !IsPaid(x, logs, r);
    }
  }

  lemma SameSize(small: set<nat>, large: set<nat>)
    requires small <= large && |small| == |large|
    ensures small == large
  {
    assert large == small + (large - small);
    assert |large| == |small| + |large - small|;
  }

  // ---- The amounts -------------------------------------------------------------------------

  /** What the contract's payment events for one recipient index add up to. */
  function PaidTo(x: Expected, logs: seq<Log>, r: nat): nat {
    if logs == [] then 0
    else
      var n := |logs| - 1;
      PaidTo(x, logs[..n], r) + (if PaysAt(x, logs, n, r) then logs[n].content.amountOut else 0)
  }

  /** What all payment events of the contract add up to. */
  function PaidInAll(x: Expected, logs: seq<Log>): nat {
    if logs == [] then 0
    else
      var last := logs[|logs| - 1];
      PaidInAll(x, logs[..|logs| - 1])
      + (if last.emitter == x.contract && last.content.PayrollPayment? then last.content.amountOut else 0)
  }

  lemma {:induction false} PaidOnceIsAmount(x: Expected, logs: seq<Log>, r: nat)
    requires AllRight(x, logs) && PaidOnce(x, logs)
    ensures IsPaid(x, logs, r) ==> r < |x.amounts| && PaidTo(x, logs, r) == x.amounts[r]
    ensures !IsPaid(x, logs, r) ==> PaidTo(x, logs, r) == 0
  {
    if logs != [] {
      var n := |logs| - 1;
      PrefixStaysRight(x, logs, n);
      PaidOnceIsAmount(x, logs[..n], r);
      assert logs[..n + 1] == logs;
      PaysPrefix(x, logs, n, r);
      assert IsRight(x, logs[n]);
      if PaysAt(x, logs, n, r) && IsPaid(x, logs[..n], r) {
        var i :| 0 <= i < n && PaysAt(x, logs[..n], i, r);
        assert PaysAt(x, logs, i, r);
        assert false;
      }
    }
  }

  lemma PrefixStaysRight(x: Expected, logs: seq<Log>, n: nat)
    requires n <= |logs| && AllRight(x, logs) && PaidOnce(x, logs)
    ensures AllRight(x, logs[..n]) && PaidOnce(x, logs[..n])
  {
    forall i, j, r | 0 <= i < j < n && PaysAt(x, logs[..n], i, r)
      ensures !PaysAt(x, logs[..n], j, r)
    {
      assert PaysAt(x, logs, i, r);
      assert PaysAt(x, logs[..n], j, r) ==> PaysAt(x, logs, j, r);
    }
  }

  ghost function PaidVector(x: Expected, logs: seq<Log>): (v: seq<int>)
    ensures |v| == |x.amounts|
  {
    seq(|x.amounts|, r requires 0 <= r < |x.amounts| => PaidTo(x, logs, r))
  }

  lemma {:induction false} SumAfterUpdate(v: seq<int>, r: nat, value: int)
    requires r < |v|
    ensures Sum(v[r := value]) == Sum(v) - v[r] + value
  {
    var n := |v| - 1;
    assert v[r := value][..n] == if r < n then v[..n][r := value] else v[..n];
    if r < n {
      SumAfterUpdate(v[..n], r, value);
    }
  }

  lemma {:induction false} SumOfZeros(v: seq<int>)
    requires forall i | 0 <= i < |v| :: v[i] == 0
    ensures Sum(v) == 0
  {
    if v != [] {
      SumOfZeros(v[..|v| - 1]);
    }
  }

  /** Adding up by recipient and adding up by event give the same. */
  lemma {:induction false} PaidAddsUp(x: Expected, logs: seq<Log>)
    requires AllRight(x, logs) && PaidOnce(x, logs)
    ensures PaidInAll(x, logs) == Sum(PaidVector(x, logs))
  {
    if logs == [] {
      SumOfZeros(PaidVector(x, logs));
    } else {
      var n := |logs| - 1;
      PrefixStaysRight(x, logs, n);
      PaidAddsUp(x, logs[..n]);
      assert IsRight(x, logs[n]);
      var before := PaidVector(x, logs[..n]);
      if logs[n].emitter == x.contract && logs[n].content.PayrollPayment? {
        var r := logs[n].content.paymentIndex;
        SumAfterUpdate(before, r, before[r] + logs[n].content.amountOut);
        assert PaidVector(x, logs) == before[r := before[r] + logs[n].content.amountOut];
      } else {
        assert PaidVector(x, logs) == before;
      }
    }
  }

  /** Exact events pay each recipient its amount and, in all, the total. */
  lemma ExactEventsPay(x: Expected, logs: seq<Log>)
    requires |x.recipients| == |x.amounts| && ExactEvents(x, logs)
    ensures forall r | 0 <= r < |x.recipients| :: PaidTo(x, logs, r) == x.amounts[r]
    ensures PaidInAll(x, logs) == Sum(x.amounts)
  {
    forall r | 0 <= r < |x.recipients|
      ensures PaidTo(x, logs, r) == x.amounts[r]
    {
      PaidOnceIsAmount(x, logs, r);
    }
    PaidAddsUp(x, logs);
    assert PaidVector(x, logs) == x.amounts;
  }

  // ---- The whole verification ----------------------------------------------------------------

  datatype Call =
    | ExecuteSameTokenPayroll(token: Address, recipients: seq<Address>, amounts: seq<nat>, reference: string)
    | ExecuteCrossTokenPayroll(tokenIn: Address, tokenOut: Address, recipients: seq<Address>, amounts: seq<nat>,
                               grossInput: nat, reference: string)
    | OtherCall

  datatype Transaction = Transaction(
    hash: TxHash,
    chainId: nat,
    target: Option<Address>,
    sender: Address,
    value: nat,
    call: Call)

  datatype ChainReceipt = ChainReceipt(success: bool, hash: TxHash, blockNumber: nat, logs: seq<Log>)

  datatype Payee = Payee(address: Address, amountUnits: nat)

  datatype Batch = Batch(
    transactionHash: TxHash,
    sourceWallet: Address,
    token: Address,
    totalAmountUnits: nat,
    expectedBatchDigest: Digest,
    referenceId: string,
    recipients: seq<Payee>)

  datatype Network = Network(contract: Address, usdc: Address, confirmationsRequired: nat)

  datatype VerifyError = Mismatch | Pending

  predicate CallMatches(token: Address, recipients: seq<Address>, amounts: seq<nat>, reference: string, batch: Batch) {
    && token == batch.token
    && reference == batch.referenceId
    && |recipients| == |batch.recipients| == |amounts|
    && forall i | 0 <= i < |recipients| ::
         recipients[i] == batch.recipients[i].address && amounts[i] == batch.recipients[i].amountUnits
  }

  datatype VerifiedCall = VerifiedCall(tokenIn: Address, tokenOut: Address, recipients: seq<Address>, amounts: seq<nat>)

  /** The call pays the batch, and carries native value only for gross input in USDC. */
  function VerifyMainnetCall(network: Network, call: Call, value: nat, batch: Batch): (r: Option<VerifiedCall>)
    ensures r.Some? ==>
              && r.value.tokenOut == batch.token
              && |r.value.recipients| == |r.value.amounts| == |batch.recipients|
              && forall i | 0 <= i < |batch.recipients| ::
                   batch.recipients[i] == Payee(r.value.recipients[i], r.value.amounts[i])
  {
    match call
    case ExecuteSameTokenPayroll(token, recipients, amounts, reference) =>
      if value == 0 && CallMatches(token, recipients, amounts, reference, batch)
      then Some(VerifiedCall(token, token, recipients, amounts)) else None
    case ExecuteCrossTokenPayroll(tokenIn, tokenOut, recipients, amounts, grossInput, reference) =>
      var expectedValue := if tokenIn == network.usdc then grossInput * USDC_NATIVE_SCALE else 0;
      if value == expectedValue && CallMatches(tokenOut, recipients, amounts, reference, batch)
      then Some(VerifiedCall(tokenIn, tokenOut, recipients, amounts)) else None
    case OtherCall => None
  }

  function Entries(recipients: seq<Address>, token: Address, amounts: seq<nat>): (r: seq<BatchEntry>)
    requires |recipients| == |amounts|
    ensures |r| == |recipients|
  {
    seq(|recipients|, i requires 0 <= i < |recipients| => BatchEntry(recipients[i], token, amounts[i]))
  }

  function ExpectedOf(network: Network, batch: Batch, call: VerifiedCall): Expected {
    Expected(network.contract, batch.sourceWallet, call.tokenIn, call.tokenOut, batch.referenceId,
             call.recipients, call.amounts)
  }

  /** The chain's head has been read, and is far enough past the receipt. */
  predicate IsConfirmed(network: Network, receipt: ChainReceipt, latestBlock: Option<nat>) {
    && latestBlock.Some? && latestBlock.value >= receipt.blockNumber
    && latestBlock.value - receipt.blockNumber + 1 >= network.confirmationsRequired
  }

  /** Totals, digest and events agree with the decoded call. */
  ghost predicate Settles(network: Network, receipt: ChainReceipt, batch: Batch, call: VerifiedCall)
    requires |call.recipients| == |call.amounts|
  {
    && Sum(call.amounts) == batch.totalAmountUnits
    && OfBatch(Entries(call.recipients, call.tokenOut, call.amounts)) == batch.expectedBatchDigest
    && ExactEvents(ExpectedOf(network, batch, call), receipt.logs)
  }

  method FinishMainnetReceipt(network: Network, hash: TxHash, receipt: ChainReceipt, batch: Batch, call: VerifiedCall,
                              latestBlock: Option<nat>)
    returns (r: Result<Receipt, VerifyError>)
    requires |call.recipients| == |call.amounts|
    ensures r.Success? <==> Settles(network, receipt, batch, call) && IsConfirmed(network, receipt, latestBlock)
    ensures r.Success? ==>
              r.value == Receipt(hash, batch.sourceWallet, call.tokenOut, None, Some(batch.expectedBatchDigest),
                                 batch.totalAmountUnits)
    ensures r == Failure(Pending) <==>
              && Sum(call.amounts) == batch.totalAmountUnits
              && OfBatch(Entries(call.recipients, call.tokenOut, call.amounts)) == batch.expectedBatchDigest
              && (latestBlock.None?
                  || (latestBlock.value >= receipt.blockNumber
                      && latestBlock.value - receipt.blockNumber + 1 < network.confirmationsRequired))
  {
    var digest := OfBatch(Entries(call.recipients, call.tokenOut, call.amounts));
    if Sum(call.amounts) != batch.totalAmountUnits || digest != batch.expectedBatchDigest {
      return Failure(Mismatch);
    }
    if latestBlock.None? {
      return Failure(Pending);
    }
    if latestBlock.value < receipt.blockNumber {
      return Failure(Mismatch);
    }
    if latestBlock.value - receipt.blockNumber + 1 < network.confirmationsRequired {
      return Failure(Pending);
    }
    var exact := VerifyMainnetPayrollEvents(ExpectedOf(network, batch, call), receipt.logs);
    if !exact {
      return Failure(Mismatch);
    }
    return Success(Receipt(hash, batch.sourceWallet, call.tokenOut, None, Some(digest), batch.totalAmountUnits));
  }

  /** The request itself is complete: a reference, a hash, recipients, and no amount of zero. */
  predicate IsBatchRequest(batch: Batch) {
    && IsTransactionHash(batch.transactionHash)
    && Trim(batch.referenceId) != []
    && batch.recipients != []
    && forall i | 0 <= i < |batch.recipients| :: batch.recipients[i].amountUnits > 0
  }

  predicate IsOwnTransaction(network: Network, transaction: Transaction, receipt: ChainReceipt, batch: Batch) {
    && receipt.success
    && Lower(transaction.hash) == Lower(batch.transactionHash)
    && Lower(receipt.hash) == Lower(batch.transactionHash)
    && transaction.chainId == ARC_MAINNET_CHAIN_ID
    && transaction.target == Some(network.contract)
    && transaction.sender == batch.sourceWallet
  }

  /** The transaction is the batch's own, and its call, totals, digest and events settle the batch. */
  ghost predicate SettlesBatch(network: Network, batch: Batch, transaction: Transaction, receipt: ChainReceipt) {
    && IsOwnTransaction(network, transaction, receipt, batch)
    && VerifyMainnetCall(network, transaction.call, transaction.value, batch).Some?
    && Settles(network, receipt, batch, VerifyMainnetCall(network, transaction.call, transaction.value, batch).value)
  }

  /** What the transaction has to be and do, field by field. */
  lemma SettlementOf(network: Network, batch: Batch, transaction: Transaction, receipt: ChainReceipt)
    ensures SettlesBatch(network, batch, transaction, receipt)
       <==> && receipt.success
            && Lower(transaction.hash) == Lower(batch.transactionHash) == Lower(receipt.hash)
            && transaction.chainId == 5_042
            && transaction.target == Some(network.contract) && transaction.sender == batch.sourceWallet
            && batch.expectedBatchDigest.OfBatch?
            && |batch.expectedBatchDigest.entries| == |batch.recipients|
            && (forall i | 0 <= i < |batch.recipients| ::
                  batch.expectedBatchDigest.entries[i]
                  == BatchEntry(batch.recipients[i].address, batch.token, batch.recipients[i].amountUnits))
            && match transaction.call
               case ExecuteSameTokenPayroll(token, recipients, amounts, reference) =>
                 && transaction.value == 0
                 && token == batch.token && reference == batch.referenceId
                 && |recipients| == |amounts| == |batch.recipients|
                 && (forall i | 0 <= i < |recipients| :: batch.recipients[i] == Payee(recipients[i], amounts[i]))
                 && Sum(amounts) == batch.totalAmountUnits
                 && ExactEvents(Expected(network.contract, batch.sourceWallet, token, token, batch.referenceId,
                                         recipients, amounts), receipt.logs)
               case ExecuteCrossTokenPayroll(tokenIn, tokenOut, recipients, amounts, grossInput, reference) =>
                 && transaction.value == (if tokenIn == network.usdc then grossInput * 1_000_000_000_000 else 0)
                 && tokenOut == batch.token && reference == batch.referenceId
                 && |recipients| == |amounts| == |batch.recipients|
                 && (forall i | 0 <= i < |recipients| :: batch.recipients[i] == Payee(recipients[i], amounts[i]))
                 && Sum(amounts) == batch.totalAmountUnits
                 && ExactEvents(Expected(network.contract, batch.sourceWallet, tokenIn, tokenOut, batch.referenceId,
                                         recipients, amounts), receipt.logs)
               case OtherCall => false
  {
    hide ExactEvents;
    var call := VerifyMainnetCall(network, transaction.call, transaction.value, batch);
    if call.Some? {
      DigestOfEntries(batch, call.value);
    }
  }

  /** The digest agrees exactly if it is of the batch's own entries. */
  lemma DigestOfEntries(batch: Batch, call: VerifiedCall)
    requires |call.recipients| == |call.amounts| == |batch.recipients| && call.tokenOut == batch.token
    requires forall i | 0 <= i < |batch.recipients| :: batch.recipients[i] == Payee(call.recipients[i], call.amounts[i])
    ensures OfBatch(Entries(call.recipients, call.tokenOut, call.amounts)) == batch.expectedBatchDigest
       <==> && batch.expectedBatchDigest.OfBatch?
            && |batch.expectedBatchDigest.entries| == |batch.recipients|
            && forall i | 0 <= i < |batch.recipients| ::
                 batch.expectedBatchDigest.entries[i]
                 == BatchEntry(batch.recipients[i].address, batch.token, batch.recipients[i].amountUnits)
  {
    var entries := Entries(call.recipients, call.tokenOut, call.amounts);
    if batch.expectedBatchDigest.OfBatch? && |batch.expectedBatchDigest.entries| == |batch.recipients| {
      assert entries == batch.expectedBatchDigest.entries
        <==> forall i | 0 <= i < |batch.recipients| :: entries[i] == batch.expectedBatchDigest.entries[i];
    }
  }

  /** `found` is what the chain holds under the hash, when it answers. */
  method Verify(network: Network, batch: Batch, found: Option<(Transaction, ChainReceipt)>, latestBlock: Option<nat>)
    returns (r: Result<Receipt, VerifyError>)
    ensures r.Success? <==>
              && IsBatchRequest(batch) && found.Some?
              && SettlesBatch(network, batch, found.value.0, found.value.1)
              && latestBlock.Some? && latestBlock.value >= found.value.1.blockNumber
              && latestBlock.value - found.value.1.blockNumber + 1 >= network.confirmationsRequired
    ensures r.Success? ==>
              r.value == Receipt(found.value.0.hash, batch.sourceWallet, batch.token, None,
                                 Some(batch.expectedBatchDigest), batch.totalAmountUnits)
    ensures IsBatchRequest(batch) <==>
              && |batch.transactionHash| == 66 && IsTransactionHash(batch.transactionHash)
              && Trim(batch.referenceId) != [] && batch.recipients != []
              && forall i | 0 <= i < |batch.recipients| :: batch.recipients[i].amountUnits != 0
    ensures !IsBatchRequest(batch) ==> r == Failure(Mismatch)
    ensures r == Failure(Pending) ==>
              && IsBatchRequest(batch)
              && (found.None? || latestBlock.None?
                  || (latestBlock.value >= found.value.1.blockNumber
                      && latestBlock.value - found.value.1.blockNumber + 1 < network.confirmationsRequired))
    ensures IsBatchRequest(batch) && (found.None?
                                      || (&& SettlesBatch(network, batch, found.value.0, found.value.1)
                                          && (latestBlock.None?
                                              || (&& latestBlock.value >= found.value.1.blockNumber
                                                  && latestBlock.value - found.value.1.blockNumber + 1
                                                     < network.confirmationsRequired)))) ==>
              r == Failure(Pending)
  {
    if !IsBatchRequest(batch) {
      return Failure(Mismatch);
    }
    if found.None? {
      return Failure(Pending);
    }
    var (transaction, receipt) := found.value;
    if !IsOwnTransaction(network, transaction, receipt, batch) {
      return Failure(Mismatch);
    }
    var call := VerifyMainnetCall(network, transaction.call, transaction.value, batch);
    if call.None? {
      return Failure(Mismatch);
    }
    r := FinishMainnetReceipt(network, transaction.hash, receipt, batch, call.value, latestBlock);
  }

  /**
   A receipt that verifies for an intent's columns matches the intent, and the chain's events pay
   every entry of the intent's batch exactly its amount, and together exactly the intent's amount.
   */
  lemma VerifiedReceiptPaysIntent(network: Network, request: Request, batch: Batch, transaction: Transaction,
                                  receipt: ChainReceipt, entries: seq<BatchEntry>)
    requires request.recipient.None? && request.batchDigest == Some(OfBatch(entries))
    requires batch.sourceWallet == request.sourceWallet && batch.token == request.tokenOut
    requires batch.totalAmountUnits == request.amountUnits && batch.expectedBatchDigest == OfBatch(entries)
    requires SettlesBatch(network, batch, transaction, receipt)
    ensures ReceiptMatches(request, Receipt(transaction.hash, batch.sourceWallet, batch.token, None,
                                            Some(batch.expectedBatchDigest), batch.totalAmountUnits))
    ensures var call := VerifyMainnetCall(network, transaction.call, transaction.value, batch).value;
            var x := ExpectedOf(network, batch, call);
            && PaidInAll(x, receipt.logs) == request.amountUnits
            && |x.recipients| == |entries|
            && forall r | 0 <= r < |entries| ::
                 && PaidTo(x, receipt.logs, r) == entries[r].amountUnits
                 && x.recipients[r] == entries[r].recipient && x.tokenOut == entries[r].token
  {
    var call := VerifyMainnetCall(network, transaction.call, transaction.value, batch).value;
    ExactEventsPay(ExpectedOf(network, batch, call), receipt.logs);
    assert entries == Entries(call.recipients, call.tokenOut, call.amounts);
  }
}

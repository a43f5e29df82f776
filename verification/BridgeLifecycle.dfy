/**
 The lifecycle row of one CCTP bridge intent. Every operation reads the row, decides on what it
 read and then overwrites status and result together, so a write may be based on any earlier
 version of the row. The state therefore keeps all versions, and each write names the one it saw.
 */
module BridgeLifecycle {
  import opened Wrappers
  import opened CctpMessages

  type Time = int

  /** keccak256 of a message, or any other hash a client may report. */
  datatype Digest = OfMessage(message: Hex) | OtherDigest(digits: Hex)

  /** The immutable payload; decimal strings are the numbers they denote. */
  datatype Payload = Payload(
    sourceDomain: nat,
    destinationDomain: nat,
    destinationChainId: nat,
    sourceUsdcAddress: Hex,
    sourceTokenMessengerV2: Hex,
    destinationTokenMessengerV2: Hex,
    destinationMessageTransmitterV2: Hex,
    walletAddress: Hex,
    recipientAddress: Hex,
    destinationCaller: Hex,
    amount: nat,
    maxFee: nat,
    minFinalityThreshold: nat)

  datatype Status =
    | Idle
    | ApprovalConfirmed
    | SourceConfirmed
    | WaitingForAttestation
    | AttestationReady
    | AwaitingDestinationSignature
    | VerifyingDestination
    | Completed

  datatype LifecycleResult = LifecycleResult(
    approvalHash: Option<Hex>,
    sourceHash: Option<Hex>,
    destinationHash: Option<Hex>,
    messageHash: Option<Digest>,
    nonce: Option<Hex>,
    feeExecuted: Option<nat>,
    mintAmount: Option<nat>,
    attestedMessage: Option<Hex>,
    attestation: Option<Hex>,
    attestationStatus: Option<string>,
    delayReason: Option<string>,
    submittedAt: Option<Time>,
    completedAt: Option<Time>,
    receiptVerified: bool,
    verifiedAt: Option<Time>)

  datatype Row = Row(
    status: Status,
    result: LifecycleResult,
    messageHash: Option<Digest>,
    nonce: Option<Hex>,
    destinationHash: Option<Hex>,
    leaseId: Option<nat>,
    leaseExpiresAt: Option<Time>)

  const NO_RESULT := LifecycleResult(None, None, None, None, None, None, None, None, None, None, None, None, None, false, None)
  const NEW_ROW := Row(Idle, NO_RESULT, None, None, None, None, None)
  const DESTINATION_LEASE_TTL_MS := 300_000

  // ---- Evidence ----------------------------------------------------------------------------

  datatype MessageReceived = MessageReceived(
    caller: Hex,
    sourceDomain: nat,
    nonce: Hex,
    sender: Hex,
    finalityThresholdExecuted: nat,
    messageBody: Hex)

  /** A log with its emitter, when that is an address, and its content, when that is a MessageReceived event. */
  datatype Log = Log(emitter: Option<Hex>, event: Option<MessageReceived>)

  datatype Receipt = Receipt(chainId: nat, transactionTo: Option<Hex>, success: bool, logs: seq<Log>)

  predicate IsZeroAddress(address: Hex) {
    forall i | 0 <= i < |address| :: address[i] == 0
  }

  predicate MatchesBridgeAttestation(p: Payload, d: Decoded, expectedNonce: Option<Hex>) {
    && d.version == 1
    && d.burnVersion == 1
    && d.sourceDomain == p.sourceDomain
    && d.destinationDomain == p.destinationDomain
    && (expectedNonce.None? || d.nonce == expectedNonce.value)
    && d.finalityThresholdExecuted == p.minFinalityThreshold
    && d.sender == p.sourceTokenMessengerV2
    && d.recipient == p.destinationTokenMessengerV2
    && d.destinationCaller == p.destinationCaller
    && d.minFinalityThreshold == p.minFinalityThreshold
    && d.burnToken == p.sourceUsdcAddress
    && d.mintRecipient == p.recipientAddress
    && d.messageSender == p.walletAddress
    && d.amount == p.amount
    && d.maxFee == p.maxFee
    && d.feeExecuted <= d.maxFee
    && d.feeExecuted < d.amount
  }

  /** The MessageReceived event of exactly this attested burn, whoever submitted it. */
  predicate IsMintOf(transmitter: Hex, message: Hex, d: Decoded, log: Log)
    requires IsComplete(message) && |d.sender| == 40
  {
    && log.emitter == Some(transmitter)
    && log.event.Some?
    && !IsZeroAddress(log.event.value.caller)
    && log.event.value.sourceDomain == d.sourceDomain
    && log.event.value.nonce == d.nonce
    && log.event.value.sender == AddressToBytes32(d.sender)
    && log.event.value.finalityThresholdExecuted == d.finalityThresholdExecuted
    && log.event.value.messageBody == CctpMessageBody(message).value
  }

  predicate ReceiptMatches(p: Payload, message: Hex, receipt: Receipt)
    requires IsComplete(message)
  {
    && receipt.chainId == p.destinationChainId
    && receipt.success
    && receipt.transactionTo == Some(p.destinationMessageTransmitterV2)
    && exists i :: 0 <= i < |receipt.logs|
                   && IsMintOf(p.destinationMessageTransmitterV2, message, DecodeCctpV2Message(message).value,
                               receipt.logs[i])
  }

  /** The loop over the receipt's logs, which stops at the first match. */
  method DestinationMintReceiptMatches(transmitter: Hex, message: Hex, logs: seq<Log>) returns (found: bool)
    requires IsComplete(message)
    ensures found <==> exists i :: 0 <= i < |logs|
                                   && IsMintOf(transmitter, message, DecodeCctpV2Message(message).value, logs[i])
  {
    var d := DecodeCctpV2Message(message).value;
    var k := 0;
    while k < |logs|
      invariant k <= |logs|
      invariant forall i | 0 <= i < k :: !IsMintOf(transmitter, message, d, logs[i])
    {
      if IsMintOf(transmitter, message, d, logs[k]) {
        return true;
      }
      k := k + 1;
    }
    return false;
  }

  /** What a matching receipt shows, field by field. */
  lemma ReceiptFields(p: Payload, message: Hex, receipt: Receipt)
    requires IsComplete(message)
    ensures var d := DecodeCctpV2Message(message).value;
            (ReceiptMatches(p, message, receipt)
       <==> && receipt.chainId == p.destinationChainId && receipt.success
            && receipt.transactionTo == Some(p.destinationMessageTransmitterV2)
            && exists log ::
                 && log in receipt.logs && log.emitter == Some(p.destinationMessageTransmitterV2) && log.event.Some?
                 && (exists k :: 0 <= k < |log.event.value.caller| && log.event.value.caller[k] != 0)
                 && log.event.value.sourceDomain == d.sourceDomain && log.event.value.nonce == d.nonce
                 && |log.event.value.sender| == 64 && log.event.value.sender[24..] == d.sender
                 && (forall k | 0 <= k < 24 :: log.event.value.sender[k] == 0)
                 && log.event.value.finalityThresholdExecuted == d.finalityThresholdExecuted
                 && log.event.value.messageBody == message[296..])
  {
    var d := DecodeCctpV2Message(message).value;
    forall log | log in receipt.logs && log.event.Some?
      ensures log.event.value.sender == AddressToBytes32(d.sender)
         <==> && |log.event.value.sender| == 64 && log.event.value.sender[24..] == d.sender
              && forall k | 0 <= k < 24 :: log.event.value.sender[k] == 0
    {
      WordOfAddress(log.event.value.sender, d.sender);
    }
  }

  /**
   A proving receipt holds the mint of the attested message, and whatever message that log stands for,
   which its body alone decides, burns the payload's amount for the payload's recipient.
   */
  lemma ProofPinsPayment(p: Payload, message: Hex, receipt: Receipt) returns (i: nat)
    requires IsComplete(message) && MatchesBridgeAttestation(p, DecodeCctpV2Message(message).value, None)
    requires ReceiptMatches(p, message, receipt)
    ensures i < |receipt.logs|
    ensures IsMintOf(p.destinationMessageTransmitterV2, message, DecodeCctpV2Message(message).value, receipt.logs[i])
    ensures forall carried | IsComplete(carried)
                             && CctpMessageBody(carried) == Some(receipt.logs[i].event.value.messageBody) ::
              var d := DecodeCctpV2Message(carried).value;
              && d.amount == p.amount && d.mintRecipient == p.recipientAddress
              && d.burnToken == p.sourceUsdcAddress && d.messageSender == p.walletAddress
  {
    var d := DecodeCctpV2Message(message).value;
    i :| 0 <= i < |receipt.logs| && IsMintOf(p.destinationMessageTransmitterV2, message, d, receipt.logs[i]);
    forall carried | IsComplete(carried)
                     && CctpMessageBody(carried) == Some(receipt.logs[i].event.value.messageBody)
      ensures var burn := DecodeCctpV2Message(carried).value;
              && burn.amount == p.amount && burn.mintRecipient == p.recipientAddress
              && burn.burnToken == p.sourceUsdcAddress && burn.messageSender == p.walletAddress
    {
      HeaderAndBody(message, carried);
    }
  }

  // ---- Writes ------------------------------------------------------------------------------

  /** `seen` is the version of the row that the writing request had read. */
  datatype Event =
    | ApprovalReported(seen: nat, hash: Hex)
    | SourceReported(seen: nat, hash: Hex)
    | DestinationReported(seen: nat, hash: Hex, digest: Digest)
    | DestinationAuthorized(seen: nat, lease: nat, now: Time)
    | DestinationSubmitted(seen: nat, lease: nat, hash: Hex, digest: Digest, now: Time)
    | AttestationDelayed(seen: nat, status: string, reason: Option<string>)
    | AttestationStored(seen: nat, message: Hex, attestation: Hex)
    | DestinationVerified(seen: nat, receipt: Option<Receipt>, now: Time)

  /** A destination hash and a message whose mint a receipt has shown. */
  datatype Proof = Proof(hash: Hex, message: Hex, receipt: Receipt)

  datatype State = State(versions: seq<Row>, proofs: seq<Proof>)

  function Start(): State {
    State([NEW_ROW], [])
  }

  predicate MessageConflicts(r: LifecycleResult, digest: Digest) {
    r.attestedMessage.Some? && r.messageHash.Some? && r.messageHash.value != digest
  }

  predicate HoldsLease(row: Row, lease: nat, now: Time) {
    row.leaseId == Some(lease) && row.leaseExpiresAt.Some? && now < row.leaseExpiresAt.value
  }

  predicate Attestable(p: Payload, message: Hex, expectedNonce: Option<Hex>) {
    IsComplete(message) && MatchesBridgeAttestation(p, DecodeCctpV2Message(message).value, expectedNonce)
  }

  predicate ReadyToVerify(r: LifecycleResult) {
    r.attestation.Some? && r.attestedMessage.Some? && r.destinationHash.Some?
  }

  /** What the request checked on the version it read. */
  predicate Checked(p: Payload, row: Row, e: Event) {
    match e
    case ApprovalReported(_, hash) => row.result.approvalHash.None?
    case SourceReported(_, hash) => row.result.sourceHash.None?
    case DestinationReported(_, hash, digest) =>
      row.result.destinationHash.None? && !MessageConflicts(row.result, digest)
    case DestinationAuthorized(_, lease, now) => row.status == AttestationReady
    case DestinationSubmitted(_, lease, hash, digest, now) => HoldsLease(row, lease, now)
    case AttestationDelayed(_, status, reason) => row.result.sourceHash.Some?
    case AttestationStored(_, message, attestation) => row.result.sourceHash.Some? && Attestable(p, message, None)
    case DestinationVerified(_, receipt, now) =>
      && ReadyToVerify(row.result)
      && (receipt.Some? ==>
            && Attestable(p, row.result.attestedMessage.value, row.result.nonce)
            && ReceiptMatches(p, row.result.attestedMessage.value, receipt.value))
  }

  predicate Justified(p: Payload, s: State, e: Event) {
    e.seen < |s.versions| && Checked(p, s.versions[e.seen], e)
  }

  /** The row after the write: columns come from the current row, status and result from the request. */
  function Written(current: Row, seen: Row, e: Event): Row {
    match e
    case ApprovalReported(_, hash) =>
      current.(status := ApprovalConfirmed, result := seen.result.(approvalHash := Some(hash)))
    case SourceReported(_, hash) =>
      current.(status := SourceConfirmed, result := seen.result.(sourceHash := Some(hash)))
    case DestinationReported(_, hash, digest) =>
      current.(status := VerifyingDestination,
               messageHash := Some(digest),
               destinationHash := Some(hash),
               result := seen.result.(destinationHash := Some(hash), messageHash := Some(digest)))
    case DestinationAuthorized(_, lease, now) =>
      current.(status := AwaitingDestinationSignature,
               leaseId := Some(lease),
               leaseExpiresAt := Some(now + DESTINATION_LEASE_TTL_MS))
    case DestinationSubmitted(_, lease, hash, digest, now) =>
      current.(status := VerifyingDestination,
               messageHash := Some(digest),
               destinationHash := Some(hash),
               leaseId := None,
               leaseExpiresAt := None,
               result := seen.result.(destinationHash := Some(hash), messageHash := Some(digest),
               submittedAt := Some(now)))
    case AttestationDelayed(_, status, reason) =>
      current.(status := WaitingForAttestation,
               result := seen.result.(attestationStatus := Some(status), delayReason := reason))
    case AttestationStored(_, message, attestation) =>
      if !IsComplete(message) then current
      else
        var d := DecodeCctpV2Message(message).value;
        current.(status := AttestationReady,
                 messageHash := Some(OfMessage(message)),
                 nonce := Some(d.nonce),
                 result := seen.result.(attestedMessage := Some(message), attestation := Some(attestation),
                 messageHash := Some(OfMessage(message)), nonce := Some(d.nonce),
                 feeExecuted := Some(d.feeExecuted), mintAmount := Some(d.amount),
                 attestationStatus := Some("complete"), delayReason := None))
    case DestinationVerified(_, receipt, now) =>
      var done := seen.result.(completedAt := Some(now));
      current.(status := Completed,
               result := if receipt.Some? then done.(receiptVerified := true, verifiedAt := Some(now)) else done)
  }

  function Current(s: State): Row
    requires s.versions != []
  {
    s.versions[|s.versions| - 1]
  }

  function Step(p: Payload, s: State, e: Event): (t: State)
    ensures s.versions <= t.versions && s.proofs <= t.proofs
  {
    if !Justified(p, s, e) then s
    else
      var seen := s.versions[e.seen];
      var proofs :=
        if e.DestinationVerified? && e.receipt.Some?
        then [Proof(seen.result.destinationHash.value, seen.result.attestedMessage.value, e.receipt.value)]
        else [];
      State(s.versions + [Written(Current(s), seen, e)], s.proofs + proofs)
  }

  function Run(p: Payload, es: seq<Event>): (s: State)
    ensures s.versions != []
  {
    if es == [] then Start() else Step(p, Run(p, es[..|es| - 1]), es[|es| - 1])
  }

  // ---- What every version of the row satisfies ----------------------------------------------

  /** The stored attestation belongs to the payload, with the nonce, fee and amount stored beside it. */
  ghost predicate AttestationHolds(p: Payload, r: LifecycleResult) {
    match r.attestedMessage
    case None => r.attestation.None? && r.nonce.None? && r.feeExecuted.None? && r.mintAmount.None?
    case Some(message) =>
      && Attestable(p, message, r.nonce)
      && r.attestation.Some? && r.sourceHash.Some?
      && r.nonce == Some(DecodeCctpV2Message(message).value.nonce)
      && r.feeExecuted == Some(DecodeCctpV2Message(message).value.feeExecuted)
      && r.mintAmount == Some(p.amount)
  }

  ghost predicate Shows(p: Payload, proof: Proof) {
    && Attestable(p, proof.message, None)
    && ReceiptMatches(p, proof.message, proof.receipt)
  }

  ghost predicate IsProven(s: State, r: LifecycleResult) {
    exists i :: 0 <= i < |s.proofs|
                && r.destinationHash == Some(s.proofs[i].hash) && r.attestedMessage == Some(s.proofs[i].message)
  }

  ghost predicate VersionHolds(p: Payload, s: State, row: Row) {
    && AttestationHolds(p, row.result)
    && (row.status == Completed ==> ReadyToVerify(row.result) && row.result.completedAt.Some?)
    && (row.result.receiptVerified ==> s.proofs != [])
  }

  ghost predicate Inv(p: Payload, s: State) {
    && (forall i | 0 <= i < |s.versions| :: VersionHolds(p, s, s.versions[i]))
    && (forall i | 0 <= i < |s.proofs| :: Shows(p, s.proofs[i]))
  }

  lemma WrittenHolds(p: Payload, s: State, e: Event)
    requires s.versions != [] && Justified(p, s, e)
    requires VersionHolds(p, s, Current(s)) && VersionHolds(p, s, s.versions[e.seen])
    ensures VersionHolds(p, Step(p, s, e), Written(Current(s), s.versions[e.seen], e))
  {}

  lemma VersionStays(p: Payload, s: State, t: State, row: Row)
    requires VersionHolds(p, s, row) && s.proofs <= t.proofs
    ensures VersionHolds(p, t, row)
  {}

  lemma NewProofShows(p: Payload, s: State, e: Event, i: nat)
    requires Justified(p, s, e) && s.versions != [] && |s.proofs| <= i < |Step(p, s, e).proofs|
    ensures Shows(p, Step(p, s, e).proofs[i])
  {}

  lemma StepKeeps(p: Payload, s: State, e: Event)
    requires s.versions != [] && Inv(p, s)
    ensures Inv(p, Step(p, s, e))
  {
    var t := Step(p, s, e);
    if Justified(p, s, e) {
      forall i | 0 <= i < |t.versions|
        ensures VersionHolds(p, t, t.versions[i])
      {
        if i < |s.versions| {
          VersionStays(p, s, t, s.versions[i]);
        } else {
          WrittenHolds(p, s, e);
        }
      }
      forall i | 0 <= i < |t.proofs|
        ensures Shows(p, t.proofs[i])
      {
        if i < |s.proofs| {
          assert t.proofs[i] == s.proofs[i];
        } else {
          NewProofShows(p, s, e, i);
        }
      }
    }
  }

  lemma {:induction false} RunKeeps(p: Payload, es: seq<Event>)
    ensures Inv(p, Run(p, es))
  {
    if es != [] {
      RunKeeps(p, es[..|es| - 1]);
      StepKeeps(p, Run(p, es[..|es| - 1]), es[|es| - 1]);
    }
  }

  /** Completed rows carry all evidence, and any stored attestation belongs to the payload. */
  lemma CompletedHasEvidence(p: Payload, es: seq<Event>, row: Row)
    requires row in Run(p, es).versions
    ensures AttestationHolds(p, row.result)
    ensures row.status == Completed ==>
              && row.result.attestation.Some? && row.result.attestedMessage.Some? && row.result.destinationHash.Some?
              && row.result.feeExecuted.Some? && row.result.feeExecuted.value <= p.maxFee
              && row.result.feeExecuted.value < p.amount && row.result.mintAmount == Some(p.amount)
              && row.result.completedAt.Some?
    ensures row.result.attestedMessage.Some? ==>
              && IsComplete(row.result.attestedMessage.value)
              && var d := DecodeCctpV2Message(row.result.attestedMessage.value).value;
              && d.sourceDomain == p.sourceDomain && d.destinationDomain == p.destinationDomain
              && d.amount == p.amount && d.mintRecipient == p.recipientAddress
              && d.burnToken == p.sourceUsdcAddress && d.messageSender == p.walletAddress
              && row.result.nonce == Some(d.nonce) && row.result.feeExecuted == Some(d.feeExecuted)
              && row.result.attestation.Some? && row.result.sourceHash.Some?
  {
    RunKeeps(p, es);
    var i :| 0 <= i < |Run(p, es).versions| && Run(p, es).versions[i] == row;
  }

  /** For each verification that was carried out, in order: whether a reader was configured. */
  ghost function Readers(p: Payload, es: seq<Event>): seq<bool> {
    if es == [] then []
    else
      var before, e := es[..|es| - 1], es[|es| - 1];
      if e.DestinationVerified? && Justified(p, Run(p, before), e) then Readers(p, before) + [e.receipt.Some?]
      else Readers(p, before)
  }

  /** No verification without a reader comes after one with a reader. */
  ghost predicate NeverRemoved(readers: seq<bool>) {
    forall i, j | 0 <= i < j < |readers| && readers[i] :: readers[j]
  }

  ghost predicate NeverConfigured(readers: seq<bool>) {
    forall i | 0 <= i < |readers| :: !readers[i]
  }

  ghost predicate AlwaysConfigured(readers: seq<bool>) {
    forall i | 0 <= i < |readers| :: readers[i]
  }

  lemma ReadersPrefix(p: Payload, es: seq<Event>)
    requires es != []
    ensures Readers(p, es[..|es| - 1]) <= Readers(p, es)
  {}

  /** With a reader configured, a completed row's own hash and message were proven together. */
  lemma {:induction false} CompletedIsProven(p: Payload, es: seq<Event>, row: Row)
    requires AlwaysConfigured(Readers(p, es))
    requires row in Run(p, es).versions && row.status == Completed
    ensures row.result.receiptVerified && IsProven(Run(p, es), row.result)
  {
    if es != [] {
      var before, e := es[..|es| - 1], es[|es| - 1];
      var s, t := Run(p, before), Run(p, es);
      ReadersPrefix(p, es);
      assert forall i | 0 <= i < |Readers(p, before)| :: Readers(p, before)[i] == Readers(p, es)[i];
      if row in s.versions {
        CompletedIsProven(p, before, row);
        ProvenStays(p, s, e, row.result);
      } else {
        assert Readers(p, es)[|Readers(p, es)| - 1];
        assert t.proofs[|t.proofs| - 1] == t.proofs[|s.proofs|];
      }
    }
  }

  /** What stands behind such a row: a successful transaction to the payload's transmitter that mints its own message. */
  lemma CompletedIsMinted(p: Payload, es: seq<Event>, row: Row) returns (proof: Proof)
    requires AlwaysConfigured(Readers(p, es))
    requires row in Run(p, es).versions && row.status == Completed
    ensures proof in Run(p, es).proofs
    ensures row.result.destinationHash == Some(proof.hash) && row.result.attestedMessage == Some(proof.message)
    ensures proof.receipt.success && proof.receipt.chainId == p.destinationChainId
    ensures proof.receipt.transactionTo == Some(p.destinationMessageTransmitterV2)
    ensures IsComplete(proof.message)
    ensures exists log ::
              && log in proof.receipt.logs && log.emitter == Some(p.destinationMessageTransmitterV2) && log.event.Some?
              && log.event.value.messageBody == proof.message[296..]
  {
    CompletedIsProven(p, es, row);
    RunKeeps(p, es);
    var s := Run(p, es);
    var i :| 0 <= i < |s.proofs|
             && row.result.destinationHash == Some(s.proofs[i].hash)
             && row.result.attestedMessage == Some(s.proofs[i].message);
    proof := s.proofs[i];
    assert Shows(p, proof);
    ReceiptFields(p, proof.message, proof.receipt);
  }

  lemma ProvenStays(p: Payload, s: State, e: Event, r: LifecycleResult)
    requires IsProven(s, r)
    ensures IsProven(Step(p, s, e), r)
  {
    var i :| 0 <= i < |s.proofs| && r.destinationHash == Some(s.proofs[i].hash)
             && r.attestedMessage == Some(s.proofs[i].message);
    assert Step(p, s, e).proofs[i] == s.proofs[i];
  }

  /** Without a reader, no row ever claims a verified receipt. */
  lemma {:induction false} UnconfiguredNeverVerifies(p: Payload, es: seq<Event>, row: Row)
    requires NeverConfigured(Readers(p, es)) && row in Run(p, es).versions
    ensures !row.result.receiptVerified && Run(p, es).proofs == []
  {
    RunKeeps(p, es);
    NoProofs(p, es);
    var i :| 0 <= i < |Run(p, es).versions| && Run(p, es).versions[i] == row;
  }

  lemma {:induction false} NoProofs(p: Payload, es: seq<Event>)
    requires NeverConfigured(Readers(p, es))
    ensures Run(p, es).proofs == []
  {
    if es != [] {
      var before, e := es[..|es| - 1], es[|es| - 1];
      ReadersPrefix(p, es);
      assert forall i | 0 <= i < |Readers(p, before)| :: Readers(p, before)[i] == Readers(p, es)[i];
      NoProofs(p, before);
      if e.DestinationVerified? && Justified(p, Run(p, before), e) {
        assert !Readers(p, es)[|Readers(p, es)| - 1];
      }
    }
  }

  ghost predicate FlagsAreProven(s: State) {
    forall i | 0 <= i < |s.versions| && s.versions[i].status == Completed && s.versions[i].result.receiptVerified ::
      IsProven(s, s.versions[i].result)
  }

  /** While no reader is taken away, the verified flag of a completed row stands for a proof of its own hash and message. */
  lemma {:induction false} FlagsStayProven(p: Payload, es: seq<Event>)
    requires NeverRemoved(Readers(p, es))
    ensures FlagsAreProven(Run(p, es))
  {
    if es != [] {
      var before, e := es[..|es| - 1], es[|es| - 1];
      ReadersPrefix(p, es);
      assert forall i | 0 <= i < |Readers(p, before)| :: Readers(p, before)[i] == Readers(p, es)[i];
      FlagsStayProven(p, before);
      var s, t := Run(p, before), Run(p, es);
      forall i | 0 <= i < |t.versions| && t.versions[i].status == Completed && t.versions[i].result.receiptVerified
        ensures IsProven(t, t.versions[i].result)
      {
        if i < |s.versions| {
          ProvenStays(p, s, e, s.versions[i].result);
        } else {
          NewFlagIsProven(p, before, e);
        }
      }
    }
  }

  lemma NewFlagIsProven(p: Payload, es: seq<Event>, e: Event)
    requires NeverRemoved(Readers(p, es + [e])) && Justified(p, Run(p, es), e)
    ensures var t := Run(p, es + [e]);
            Current(t).status == Completed && Current(t).result.receiptVerified ==> IsProven(t, Current(t).result)
  {
    Extend(p, es, e);
    var s, t := Run(p, es), Run(p, es + [e]);
    if e.DestinationVerified? {
      assert (es + [e])[..|es|] == es;
      var before, readers := Readers(p, es), Readers(p, es + [e]);
      assert readers == before + [e.receipt.Some?];
      if e.receipt.Some? {
        assert t.proofs[|s.proofs|].hash == s.versions[e.seen].result.destinationHash.value;
      } else {
        var last := |before|;
        assert !readers[last];
        forall i | 0 <= i < last
          ensures !before[i]
        {
          assert readers[i] == before[i];
        }
        UnconfiguredNeverVerifies(p, es, s.versions[e.seen]);
      }
    }
  }

  lemma Extend(p: Payload, es: seq<Event>, e: Event)
    ensures Run(p, es + [e]) == Step(p, Run(p, es), e)
  {
    assert (es + [e])[..|es|] == es;
  }

  lemma {:induction false} RunGrows(p: Payload, es: seq<Event>, fs: seq<Event>)
    requires es <= fs
    ensures Run(p, es).versions <= Run(p, fs).versions
    decreases |fs|
  {
    if |es| < |fs| {
      RunGrows(p, es, fs[..|fs| - 1]);
    } else {
      assert es == fs;
    }
  }

  // ---- What stale writes can break ---------------------------------------------------------

  /** The request that wrote last had read the version it replaced, throughout the run. */
  ghost predicate Fresh(p: Payload, es: seq<Event>) {
    es == []
    || (var before := es[..|es| - 1];
        Fresh(p, before) && es[|es| - 1].seen == |Run(p, before).versions| - 1)
  }

  ghost predicate ColumnsAgree(row: Row) {
    && row.destinationHash == row.result.destinationHash
    && row.messageHash == row.result.messageHash
    && row.nonce == row.result.nonce
  }

  ghost predicate KeepsHashes(earlier: LifecycleResult, later: LifecycleResult) {
    && (earlier.approvalHash.Some? ==> later.approvalHash == earlier.approvalHash)
    && (earlier.sourceHash.Some? ==> later.sourceHash == earlier.sourceHash)
  }

  ghost predicate FreshInv(versions: seq<Row>) {
    && (forall i | 0 <= i < |versions| :: ColumnsAgree(versions[i]))
    && (forall i, j | 0 <= i <= j < |versions| :: KeepsHashes(versions[i].result, versions[j].result))
  }

  /** Without stale writes, columns repeat the result, and approval and burn hashes are written once. */
  lemma FreshRunsAgree(p: Payload, es: seq<Event>)
    requires Fresh(p, es)
    ensures forall row | row in Run(p, es).versions ::
              && row.destinationHash == row.result.destinationHash && row.messageHash == row.result.messageHash
              && row.nonce == row.result.nonce
    ensures var versions := Run(p, es).versions;
            forall i, j | 0 <= i <= j < |versions| ::
              && (versions[i].result.approvalHash.Some? ==>
                    versions[j].result.approvalHash == versions[i].result.approvalHash)
              && (versions[i].result.sourceHash.Some? ==> versions[j].result.sourceHash == versions[i].result.sourceHash)
  {
    FreshRunsKeep(p, es);
    assert forall i | 0 <= i < |Run(p, es).versions| :: ColumnsAgree(Run(p, es).versions[i]);
  }

  lemma {:induction false} FreshRunsKeep(p: Payload, es: seq<Event>)
    requires Fresh(p, es)
    ensures FreshInv(Run(p, es).versions)
  {
    if es != [] {
      var before, e := es[..|es| - 1], es[|es| - 1];
      FreshRunsKeep(p, before);
      var s := Run(p, before);
      if Justified(p, s, e) {
        var n := |s.versions| - 1;
        assert ColumnsAgree(s.versions[n]);
        FreshWriteAgrees(p, s, e);
        FreshExtends(s.versions, Written(Current(s), s.versions[e.seen], e));
      }
    }
  }

  lemma FreshExtends(versions: seq<Row>, row: Row)
    requires versions != [] && FreshInv(versions) && ColumnsAgree(row)
    requires KeepsHashes(versions[|versions| - 1].result, row.result)
    ensures FreshInv(versions + [row])
  {
    var longer := versions + [row];
    forall i, j | 0 <= i <= j < |longer|
      ensures KeepsHashes(longer[i].result, longer[j].result)
    {
      if j == |versions| && i < j {
        assert KeepsHashes(versions[i].result, versions[|versions| - 1].result);
      }
    }
  }

  lemma FreshWriteAgrees(p: Payload, s: State, e: Event)
    requires s.versions != [] && Justified(p, s, e) && e.seen == |s.versions| - 1
    requires ColumnsAgree(Current(s))
    ensures ColumnsAgree(Written(Current(s), s.versions[e.seen], e))
    ensures KeepsHashes(Current(s).result, Written(Current(s), s.versions[e.seen], e).result)
  {}

  /** Two requests that both read the empty row record two different burns, and the second hides the first. */
  lemma SourceHashCanBeReplaced(p: Payload, first: Hex, second: Hex) returns (es: seq<Event>)
    requires first != second
    ensures exists i :: 0 <= i < |Run(p, es).versions| && Run(p, es).versions[i].result.sourceHash == Some(first)
    ensures Current(Run(p, es)).result.sourceHash == Some(second)
  {
    hide Step, Readers;
    es := Next(p, [], SourceReported(0, first));
    es := Next(p, es, SourceReported(0, second));
    assert Run(p, es).versions[1].result.sourceHash == Some(first);
  }

  /** The result that a write starts from. */
  function Carried(s: State, e: Event): LifecycleResult
    requires s.versions != [] && e.seen < |s.versions|
  {
    if e.DestinationAuthorized? then Current(s).result else s.versions[e.seen].result
  }

  /** The current column still says what the write carries over into the result, or the write replaces both. */
  predicate ColumnsCarryOver(s: State, e: Event)
    requires s.versions != [] && e.seen < |s.versions|
  {
    var setsHash := e.DestinationReported? || e.DestinationSubmitted?;
    && (setsHash || Current(s).destinationHash == Carried(s, e).destinationHash)
    && (setsHash || e.AttestationStored? || Current(s).messageHash == Carried(s, e).messageHash)
    && (e.AttestationStored? || Current(s).nonce == Carried(s, e).nonce)
  }

  /** Columns and result agree after a write exactly if the columns it leaves alone equal what it carries over. */
  lemma ColumnsSurvive(p: Payload, es: seq<Event>, e: Event)
    requires Justified(p, Run(p, es), e)
    ensures ColumnsAgree(Current(Run(p, es + [e]))) <==> ColumnsCarryOver(Run(p, es), e)
  {
    Extend(p, es, e);
  }

  /** A recorded burn hash survives a write exactly when the writing request had seen it, or wrote it itself. */
  lemma SourceHashSurvives(p: Payload, es: seq<Event>, e: Event, hash: Hex)
    requires Current(Run(p, es)).result.sourceHash == Some(hash)
    ensures Current(Run(p, es + [e])).result.sourceHash == Some(hash)
        <==> (|| !Justified(p, Run(p, es), e)
              || e.DestinationAuthorized?
              || (e.SourceReported? && e.hash == hash)
              || Run(p, es).versions[e.seen].result.sourceHash == Some(hash))
  {
    Extend(p, es, e);
  }

  lemma Next(p: Payload, es: seq<Event>, e: Event) returns (longer: seq<Event>)
    requires Justified(p, Run(p, es), e)
    ensures longer == es + [e]
    ensures var s := Run(p, es);
            && Run(p, longer).versions == s.versions + [Written(Current(s), s.versions[e.seen], e)]
            && ((e.DestinationVerified? ==> e.receipt.None?) ==> Run(p, longer).proofs == s.proofs)
    ensures Readers(p, longer)
         == if e.DestinationVerified? then Readers(p, es) + [e.receipt.Some?] else Readers(p, es)
  {
    Extend(p, es, e);
    longer := es + [e];
    assert longer[..|es|] == es;
  }

  /** A row whose attestation is stored and whose destination may be signed for. */
  lemma Attested(p: Payload, message: Hex, attestation: Hex, source: Hex) returns (es: seq<Event>)
    requires Attestable(p, message, None)
    ensures |Run(p, es).versions| == 3 && Run(p, es).proofs == [] && Readers(p, es) == []
    ensures var row := Current(Run(p, es));
            && row.status == AttestationReady && row.result.sourceHash == Some(source)
            && row.result.attestedMessage == Some(message) && row.result.attestation == Some(attestation)
            && row.result.messageHash == Some(OfMessage(message)) && row.result.destinationHash.None?
            && row.result.nonce == Some(DecodeCctpV2Message(message).value.nonce)
  {
    es := Next(p, [], SourceReported(0, source));
    es := Next(p, es, AttestationStored(1, message, attestation));
  }

  /** Authorizing and then submitting a destination hash on a row that is ready. */
  lemma Resubmitted(p: Payload, es: seq<Event>, hash: Hex, digest: Digest) returns (longer: seq<Event>)
    requires Current(Run(p, es)).status == AttestationReady
    ensures Run(p, es).versions <= Run(p, longer).versions
    ensures |Run(p, longer).versions| == |Run(p, es).versions| + 2 && Run(p, longer).proofs == Run(p, es).proofs
    ensures Readers(p, longer) == Readers(p, es)
    ensures var row, was := Current(Run(p, longer)), Current(Run(p, es));
            && row.destinationHash == Some(hash)
            && row.result == was.result.(destinationHash := Some(hash), messageHash := Some(digest),
                                         submittedAt := Some(0))
  {
    var n := |Run(p, es).versions|;
    longer := Next(p, es, DestinationAuthorized(n - 1, 7, 0));
    longer := Next(p, longer, DestinationSubmitted(n, 7, hash, digest, 0));
  }

  /** A verifier that read the row before a resubmission completes with one hash while the column keeps the other. */
  lemma ColumnCanDisagree(p: Payload, message: Hex, attestation: Hex, source: Hex, first: Hex, second: Hex)
    returns (es: seq<Event>)
    requires Attestable(p, message, None) && first != second
    ensures Current(Run(p, es)).status == Completed
    ensures Current(Run(p, es)).result.destinationHash == Some(first)
    ensures Current(Run(p, es)).destinationHash == Some(second)
  {
    hide Step, Readers;
    var d := OfMessage(message);
    es := Attested(p, message, attestation, source);
    es := Resubmitted(p, es, first, d);
    var seen := |Run(p, es).versions| - 1;
    es := Next(p, es, AttestationStored(seen, message, attestation));
    es := Resubmitted(p, es, second, d);
    es := Next(p, es, DestinationVerified(seen, None, 0));
  }

  /** Version 3 of the history is ready to be verified, a receipt shows its mint, and nothing but its hash is proven. */
  ghost predicate IsPrepared(p: Payload, s: State, message: Hex, hash: Hex, receipt: Receipt) {
    && |s.versions| > 3
    && Attestable(p, message, s.versions[3].result.nonce) && ReceiptMatches(p, message, receipt)
    && ReadyToVerify(s.versions[3].result) && s.versions[3].result.sourceHash.Some?
    && s.versions[3].result.attestedMessage == Some(message) && s.versions[3].result.destinationHash == Some(hash)
    && forall i | 0 <= i < |s.proofs| :: s.proofs[i].hash == hash
  }

  lemma Prepared(p: Payload, message: Hex, attestation: Hex, source: Hex, hash: Hex, receipt: Receipt)
    returns (es: seq<Event>)
    requires Attestable(p, message, None) && ReceiptMatches(p, message, receipt)
    ensures IsPrepared(p, Run(p, es), message, hash, receipt) && Readers(p, es) == []
  {
    hide Step, Readers;
    es := Attested(p, message, attestation, source);
    es := Next(p, es, DestinationReported(2, hash, OfMessage(message)));
  }

  lemma PreparedStays(p: Payload, s: State, t: State, message: Hex, hash: Hex, receipt: Receipt)
    requires IsPrepared(p, s, message, hash, receipt) && s.versions <= t.versions && s.proofs == t.proofs
    ensures IsPrepared(p, t, message, hash, receipt)
  {}

  ghost predicate IsFlagged(row: Row) {
    row.result.receiptVerified && row.result.sourceHash.Some?
  }

  /** One verification of the prepared version, with or without a reader. */
  lemma VerifiedAgain(p: Payload, es: seq<Event>, message: Hex, hash: Hex, receipt: Receipt, configured: bool)
    returns (longer: seq<Event>)
    requires IsPrepared(p, Run(p, es), message, hash, receipt)
    ensures IsPrepared(p, Run(p, longer), message, hash, receipt)
    ensures Run(p, es).versions <= Run(p, longer).versions && Readers(p, longer) == Readers(p, es) + [configured]
    ensures configured ==> IsFlagged(Current(Run(p, longer)))
  {
    var e := DestinationVerified(3, if configured then Some(receipt) else None, 0);
    Extend(p, es, e);
    longer := Next(p, es, e);
  }

  /** Verifications of the prepared version for one stretch of a configuration history. */
  lemma {:induction false} VerifiedAll(p: Payload, es: seq<Event>, message: Hex, hash: Hex, receipt: Receipt,
                                       readers: seq<bool>)
    returns (longer: seq<Event>)
    requires IsPrepared(p, Run(p, es), message, hash, receipt)
    ensures IsPrepared(p, Run(p, longer), message, hash, receipt)
    ensures Run(p, es).versions <= Run(p, longer).versions && Readers(p, longer) == Readers(p, es) + readers
    ensures readers != [] && readers[|readers| - 1] ==> IsFlagged(Current(Run(p, longer)))
    decreases |readers|
  {
    hide Step, Readers, IsPrepared;
    if readers == [] {
      longer := es;
    } else {
      var n := |readers| - 1;
      longer := VerifiedAll(p, es, message, hash, receipt, readers[..n]);
      longer := VerifiedAgain(p, longer, message, hash, receipt, readers[n]);
      assert Readers(p, es) + readers[..n] + [readers[n]] == Readers(p, es) + readers;
    }
  }

  /** A version that carries the flag is attested again, given another hash and completed without a reader. */
  lemma FlagIsCarried(p: Payload, es: seq<Event>, flagged: nat, message: Hex, attestation: Hex, other: Hex)
    returns (longer: seq<Event>)
    requires Attestable(p, message, None)
    requires flagged < |Run(p, es).versions| && IsFlagged(Run(p, es).versions[flagged])
    ensures Run(p, longer).proofs == Run(p, es).proofs && Run(p, es).versions <= Run(p, longer).versions
    ensures Readers(p, longer) == Readers(p, es) + [false]
    ensures IsFlaggedWith(Current(Run(p, longer)), other)
  {
    hide Step, Readers;
    longer := Next(p, es, AttestationStored(flagged, message, attestation));
    longer := Resubmitted(p, longer, other, OfMessage(message));
    longer := Next(p, longer, DestinationVerified(|Run(p, longer).versions| - 1, None, 0));
  }

  ghost predicate IsFlaggedWith(row: Row, hash: Hex) {
    row.status == Completed && row.result.receiptVerified && row.result.destinationHash == Some(hash)
  }

  /**
   For every configuration history in which a reader is removed after it was used, there is a run
   in which a completed row carries the verified flag beside a hash that nothing has proven.
   */
  lemma FlagCanOutliveItsProof(p: Payload, message: Hex, attestation: Hex, receipt: Receipt, source: Hex,
                               proven: Hex, other: Hex, readers: seq<bool>, i: nat, j: nat)
    returns (es: seq<Event>, bad: nat)
    requires Attestable(p, message, None) && ReceiptMatches(p, message, receipt) && proven != other
    requires i < j < |readers| && readers[i] && !readers[j]
    ensures Readers(p, es) == readers
    ensures bad < |Run(p, es).versions| && IsFlaggedWith(Run(p, es).versions[bad], other)
    ensures !IsProven(Run(p, es), Run(p, es).versions[bad].result)
  {
    hide Step, Readers, Run, Attestable, ReceiptMatches;
    es := Prepared(p, message, attestation, source, proven, receipt);
    es, bad := FlagIsMisused(p, es, message, attestation, receipt, proven, other, readers[..i + 1], readers[i + 1..j]);
    es := VerifiedAll(p, es, message, proven, receipt, readers[j + 1..]);
    assert readers == readers[..i + 1] + readers[i + 1..j] + [false] + readers[j + 1..];
  }

  lemma FlagIsMisused(p: Payload, es: seq<Event>, message: Hex, attestation: Hex, receipt: Receipt,
                      proven: Hex, other: Hex, first: seq<bool>, second: seq<bool>)
    returns (longer: seq<Event>, bad: nat)
    requires Attestable(p, message, None) && IsPrepared(p, Run(p, es), message, proven, receipt)
    requires Readers(p, es) == [] && first != [] && first[|first| - 1]
    ensures IsPrepared(p, Run(p, longer), message, proven, receipt)
    ensures Readers(p, longer) == first + second + [false]
    ensures bad < |Run(p, longer).versions| && IsFlaggedWith(Run(p, longer).versions[bad], other)
  {
    hide Step, Readers, IsPrepared, Attestable;
    longer := VerifiedAll(p, es, message, proven, receipt, first);
    var flagged := |Run(p, longer).versions| - 1;
    assert Run(p, longer).versions[flagged] == Current(Run(p, longer));
    longer := VerifiedAll(p, longer, message, proven, receipt, second);
    var before := Run(p, longer);
    longer := FlagIsCarried(p, longer, flagged, message, attestation, other);
    PreparedStays(p, before, Run(p, longer), message, proven, receipt);
    bad := |Run(p, longer).versions| - 1;
  }

  /**
   The configuration history decides: flags of completed rows are proven in every run with a given
   history exactly if that history never removes a reader once it was used.
   */
  lemma FlagsAreProvenExactly(p: Payload, message: Hex, attestation: Hex, receipt: Receipt, source: Hex,
                              proven: Hex, other: Hex, readers: seq<bool>)
    requires Attestable(p, message, None) && ReceiptMatches(p, message, receipt) && proven != other
    ensures NeverRemoved(readers)
        <==> forall es :: Readers(p, es) == readers ==> FlagsAreProven(Run(p, es))
  {
    if NeverRemoved(readers) {
      forall es | Readers(p, es) == readers
        ensures FlagsAreProven(Run(p, es))
      {
        FlagsStayProven(p, es);
      }
    } else {
      var i, j :| 0 <= i < j < |readers| && readers[i] && !readers[j];
      var es, bad := FlagCanOutliveItsProof(p, message, attestation, receipt, source, proven, other, readers, i, j);
      assert Readers(p, es) == readers && !FlagsAreProven(Run(p, es));
    }
  }

  // ---- The service -------------------------------------------------------------------------

  datatype BridgeError =
    | Forbidden
    | InvalidHash
    | HashConflict
    | MessageConflict
    | SourceRequired
    | AttestationRequired
    | AttestationMismatch
    | AttestationUnavailable
    | MessageInvalid
    | LeaseConflict
    | LeaseExpired
    | DestinationRequired
    | DestinationPending
    | DestinationMismatch

  type Answer = Result<Row, BridgeError>

  /** What the attestation service answers. */
  datatype Fetched =
    | Unavailable
    | NotIndexed
    | Pending(status: string, reason: Option<string>)
    | Complete(message: Hex, attestation: Hex)

  /** The destination reader: absent, not answering, or answering with a receipt. */
  datatype Rpc = Unconfigured | Unreachable | Answers(receipt: Receipt)

  function Evidence(rpc: Rpc): Option<Receipt> {
    if rpc.Answers? then Some(rpc.receipt) else None
  }

  /** A write that was justified earlier still is, and what it makes of status and result does not depend on the delay. */
  lemma WriteLands(p: Payload, s: State, t: State, e: Event)
    requires s.versions != [] && s.versions <= t.versions && Justified(p, s, e)
    ensures Justified(p, t, e) && t.versions[e.seen] == s.versions[e.seen]
    ensures var early, late := Written(Current(s), s.versions[e.seen], e), Written(Current(t), s.versions[e.seen], e);
            && late.status == early.status
            && (e.DestinationAuthorized? || late.result == early.result)
            && (e.DestinationAuthorized? ==> late.leaseId == Some(e.lease))
  {}

  class BridgeLifecycleService {
    const payload: Payload
    var state: State
    var others: seq<seq<Event>>
    ghost var log: seq<Event>

    ghost predicate Valid()
      reads this
    {
      state == Run(payload, log)
    }

    constructor (payload: Payload, others: seq<seq<Event>>)
      ensures Valid() && log == [] && this.payload == payload && this.others == others
    {
      this.payload := payload;
      state := Start();
      this.others := others;
      log := [];
    }

    /** Other requests get their turn. */
    method RoundTrip()
      requires Valid()
      modifies this`state, this`others, this`log
      ensures Valid() && old(log) <= log && old(state).versions <= state.versions
      ensures others == if old(others) == [] then [] else old(others)[1..]
      ensures old(others) == [] ==> state == old(state) && log == old(log)
    {
      if others == [] {
        return;
      }
      var turn := others[0];
      others := others[1..];
      for k := 0 to |turn|
        invariant Valid() && old(log) <= log && old(state).versions <= state.versions
        invariant others == old(others)[1..]
      {
        Extend(payload, log, turn[k]);
        state := Step(payload, state, turn[k]);
        log := log + [turn[k]];
      }
    }

    /** The overwriting update: other requests may come between the read and the write. */
    method Overwrite(e: Event) returns (row: Row)
      requires Valid() && Justified(payload, state, e)
      modifies this`state, this`others, this`log
      ensures Valid() && old(log) <= log && log != [] && log[|log| - 1] == e
      ensures old(state).versions <= state.versions && row in state.versions
      ensures e.seen < |state.versions| && state.versions[e.seen] == old(state).versions[e.seen]
      ensures e.DestinationAuthorized?
           || row.result == Written(old(Current(state)), state.versions[e.seen], e).result
      ensures row.status == Written(old(Current(state)), state.versions[e.seen], e).status
      ensures e.DestinationAuthorized? ==> row.leaseId == Some(e.lease)
      ensures old(others) == [] ==>
                && row == Written(old(Current(state)), old(state).versions[e.seen], e)
                && state.versions == old(state).versions + [row]
    {
      ghost var before := state;
      RoundTrip();
      WriteLands(payload, before, state, e);
      Extend(payload, log, e);
      hide Written, Checked;
      state := Step(payload, state, e);
      log := log + [e];
      row := Current(state);
    }

    method ReportApproval(wallet: Hex, hash: Hex) returns (r: Answer)
      requires Valid()
      modifies this`state, this`others, this`log
      ensures Valid() && old(log) <= log
      ensures r.Success? ==> r.value in state.versions && r.value.result.approvalHash == Some(hash)
      ensures old(others) == [] ==>
                var versions := old(state).versions;
                var was := versions[|versions| - 1];
                && (r.Success? <==>
                      && wallet == payload.walletAddress && |hash| == 64
                      && (was.result.approvalHash.None? || was.result.approvalHash == Some(hash)))
                && (r.Failure? ==>
                      r.error == if wallet != payload.walletAddress then Forbidden
                                 else if |hash| != 64 then InvalidHash else HashConflict)
                && (r.Failure? || was.result.approvalHash.Some? ==> state == old(state))
                && (r.Success? && was.result.approvalHash.Some? ==> r.value == was)
                && (r.Success? && was.result.approvalHash.None? ==>
                      && state.versions == old(state).versions + [r.value]
                      && r.value == was.(status := ApprovalConfirmed, result := was.result.(approvalHash := Some(hash))))
    {
      RoundTrip();
      var row, seen := Current(state), |state.versions| - 1;
      if wallet != payload.walletAddress {
        return Failure(Forbidden);
      }
      if |hash| != 64 {
        return Failure(InvalidHash);
      }
      if row.result.approvalHash.Some? {
        return if row.result.approvalHash.value == hash then Success(row) else Failure(HashConflict);
      }
      row := Overwrite(ApprovalReported(seen, hash));
      return Success(row);
    }

    method ReportSource(wallet: Hex, hash: Hex) returns (r: Answer)
      requires Valid()
      modifies this`state, this`others, this`log
      ensures Valid() && old(log) <= log
      ensures r.Success? ==> r.value in state.versions && r.value.result.sourceHash == Some(hash)
      ensures old(others) == [] ==>
                var versions := old(state).versions;
                var was := versions[|versions| - 1];
                && (r.Success? <==>
                      && wallet == payload.walletAddress && |hash| == 64
                      && (was.result.sourceHash.None? || was.result.sourceHash == Some(hash)))
                && (r.Failure? ==>
                      r.error == if wallet != payload.walletAddress then Forbidden
                                 else if |hash| != 64 then InvalidHash else HashConflict)
                && (r.Failure? || was.result.sourceHash.Some? ==> state == old(state))
                && (r.Success? && was.result.sourceHash.Some? ==> r.value == was)
                && (r.Success? && was.result.sourceHash.None? ==>
                      && state.versions == old(state).versions + [r.value]
                      && r.value == was.(status := SourceConfirmed, result := was.result.(sourceHash := Some(hash))))
    {
      RoundTrip();
      var row, seen := Current(state), |state.versions| - 1;
      if wallet != payload.walletAddress {
        return Failure(Forbidden);
      }
      if |hash| != 64 {
        return Failure(InvalidHash);
      }
      if row.result.sourceHash.Some? {
        return if row.result.sourceHash.value == hash then Success(row) else Failure(HashConflict);
      }
      row := Overwrite(SourceReported(seen, hash));
      return Success(row);
    }

    method ReportDestination(wallet: Hex, hash: Hex, digest: Digest) returns (r: Answer)
      requires Valid()
      modifies this`state, this`others, this`log
      ensures Valid() && old(log) <= log
      ensures r.Success? ==> r.value in state.versions && r.value.result.destinationHash == Some(hash)
      ensures old(others) == [] ==>
                var versions := old(state).versions;
                var was := versions[|versions| - 1];
                && (r.Success? <==>
                      && wallet == payload.walletAddress && |hash| == 64
                      && (was.result.attestedMessage.Some? && was.result.messageHash.Some? ==>
                            was.result.messageHash.value == digest)
                      && (was.result.destinationHash.None? || was.result.destinationHash == Some(hash)))
                && (r.Failure? ==>
                      r.error == if wallet != payload.walletAddress then Forbidden
                                 else if |hash| != 64 then InvalidHash
                                 else if && was.result.attestedMessage.Some? && was.result.messageHash.Some?
                                         && was.result.messageHash.value != digest then MessageConflict
                                 else HashConflict)
                && (r.Failure? || was.result.destinationHash.Some? ==> state == old(state))
                && (r.Success? && was.result.destinationHash.Some? ==> r.value == was)
                && (r.Success? && was.result.destinationHash.None? ==>
                      && state.versions == old(state).versions + [r.value]
                      && r.value == was.(status := VerifyingDestination, messageHash := Some(digest),
                                         destinationHash := Some(hash),
                                         result := was.result.(destinationHash := Some(hash),
                                                               messageHash := Some(digest))))
    {
      RoundTrip();
      var row, seen := Current(state), |state.versions| - 1;
      if wallet != payload.walletAddress {
        return Failure(Forbidden);
      }
      if |hash| != 64 {
        return Failure(InvalidHash);
      }
      if MessageConflicts(row.result, digest) {
        return Failure(MessageConflict);
      }
      if row.result.destinationHash.Some? {
        return if row.result.destinationHash.value == hash then Success(row) else Failure(HashConflict);
      }
      row := Overwrite(DestinationReported(seen, hash, digest));
      return Success(row);
    }

    /** `lease` is the random lease id. */
    method AuthorizeDestination(wallet: Hex, lease: nat, now: Time) returns (r: Answer)
      requires Valid()
      modifies this`state, this`others, this`log
      ensures Valid() && old(log) <= log
      ensures r.Success? ==> r.value in state.versions && r.value.leaseId == Some(lease)
      ensures old(others) == [] ==>
                var versions := old(state).versions;
                var was := versions[|versions| - 1];
                && (r.Success? <==> wallet == payload.walletAddress && was.status == AttestationReady)
                && (r.Failure? ==>
                      && state == old(state)
                      && r.error == if wallet != payload.walletAddress then Forbidden else AttestationRequired)
                && (r.Success? ==>
                      && state.versions == old(state).versions + [r.value]
                      && r.value == was.(status := AwaitingDestinationSignature, leaseId := Some(lease),
                                         leaseExpiresAt := Some(now + 300_000)))
    {
      RoundTrip();
      var row, seen := Current(state), |state.versions| - 1;
      if wallet != payload.walletAddress {
        return Failure(Forbidden);
      }
      if row.status != AttestationReady {
        return Failure(AttestationRequired);
      }
      row := Overwrite(DestinationAuthorized(seen, lease, now));
      return Success(row);
    }

    method SubmitDestination(wallet: Hex, lease: nat, hash: Hex, digest: Digest, now: Time) returns (r: Answer)
      requires Valid()
      modifies this`state, this`others, this`log
      ensures Valid() && old(log) <= log
      ensures r.Success? ==> r.value in state.versions && r.value.result.destinationHash == Some(hash)
      ensures old(others) == [] ==>
                var versions := old(state).versions;
                var was := versions[|versions| - 1];
                && (r.Success? <==>
                      && wallet == payload.walletAddress && |hash| == 64
                      && was.leaseId == Some(lease) && was.leaseExpiresAt.Some? && now < was.leaseExpiresAt.value)
                && (r.Failure? ==>
                      && state == old(state)
                      && r.error == if wallet != payload.walletAddress then Forbidden
                                    else if was.leaseId != Some(lease) then LeaseConflict
                                    else if was.leaseExpiresAt.None? || was.leaseExpiresAt.value <= now then LeaseExpired
                                    else InvalidHash)
                && (r.Success? ==>
                      && state.versions == old(state).versions + [r.value]
                      && r.value == was.(status := VerifyingDestination, messageHash := Some(digest),
                                         destinationHash := Some(hash), leaseId := None, leaseExpiresAt := None,
                                         result := was.result.(destinationHash := Some(hash),
                                                               messageHash := Some(digest), submittedAt := Some(now))))
    {
      RoundTrip();
      var row, seen := Current(state), |state.versions| - 1;
      if wallet != payload.walletAddress {
        return Failure(Forbidden);
      }
      if row.leaseId != Some(lease) {
        return Failure(LeaseConflict);
      }
      if row.leaseExpiresAt.None? || row.leaseExpiresAt.value <= now {
        return Failure(LeaseExpired);
      }
      if |hash| != 64 {
        return Failure(InvalidHash);
      }
      row := Overwrite(DestinationSubmitted(seen, lease, hash, digest, now));
      return Success(row);
    }

    /** True when the reader proved the mint, false when there is no reader. */
    method ProveDestinationReceipt(result: LifecycleResult, rpc: Rpc) returns (r: Result<bool, BridgeError>)
      requires AttestationHolds(payload, result) && ReadyToVerify(result)
      ensures r == match rpc
                   case Unconfigured => Success(false)
                   case Unreachable => Failure(DestinationPending)
                   case Answers(receipt) =>
                     if ReceiptMatches(payload, result.attestedMessage.value, receipt) then Success(true)
                     else Failure(DestinationMismatch)
    {
      if rpc.Unconfigured? {
        return Success(false);
      }
      var message := result.attestedMessage.value;
      var d := DecodeCctpV2Message(message).value;
      if !MatchesBridgeAttestation(payload, d, result.nonce) {
        return Failure(AttestationMismatch);
      }
      if rpc.Unreachable? {
        return Failure(DestinationPending);
      }
      var logged := DestinationMintReceiptMatches(
        payload.destinationMessageTransmitterV2, message, rpc.receipt.logs);
      var matched :=
        && rpc.receipt.chainId == payload.destinationChainId
        && rpc.receipt.success
        && rpc.receipt.transactionTo == Some(payload.destinationMessageTransmitterV2)
        && logged;
      return if matched then Success(true) else Failure(DestinationMismatch);
    }

    method VerifyDestination(wallet: Hex, rpc: Rpc, now: Time) returns (r: Answer)
      requires Valid()
      modifies this`state, this`others, this`log
      ensures Valid() && old(log) <= log
      ensures r.Success? ==>
                && wallet == payload.walletAddress && !rpc.Unreachable?
                && r.value in state.versions && r.value.status == Completed
                && AttestationHolds(payload, r.value.result) && ReadyToVerify(r.value.result)
                && r.value.result.completedAt == Some(now)
      ensures r.Success? && rpc.Answers? ==>
                var message := r.value.result.attestedMessage.value;
                var d := DecodeCctpV2Message(message).value;
                && r.value.result.receiptVerified && r.value.result.verifiedAt == Some(now)
                && rpc.receipt.chainId == payload.destinationChainId && rpc.receipt.success
                && rpc.receipt.transactionTo == Some(payload.destinationMessageTransmitterV2)
                && exists log ::
                     && log in rpc.receipt.logs && log.emitter == Some(payload.destinationMessageTransmitterV2)
                     && log.event.Some?
                     && (exists k :: 0 <= k < |log.event.value.caller| && log.event.value.caller[k] != 0)
                     && log.event.value.sourceDomain == d.sourceDomain && log.event.value.nonce == d.nonce
                     && |log.event.value.sender| == 64 && log.event.value.sender[24..] == d.sender
                     && (forall k | 0 <= k < 24 :: log.event.value.sender[k] == 0)
                     && log.event.value.finalityThresholdExecuted == d.finalityThresholdExecuted
                     && log.event.value.messageBody == message[296..]
      ensures old(others) == [] ==>
                var versions := old(state).versions;
                var was := versions[|versions| - 1];
                && AttestationHolds(payload, was.result)
                && (if wallet != payload.walletAddress then r == Failure(Forbidden)
                    else if was.result.attestation.None? || was.result.attestedMessage.None?
                    then r == Failure(AttestationRequired)
                    else if was.result.destinationHash.None? then r == Failure(DestinationRequired)
                    else
                      match rpc
                      case Unconfigured => r.Success?
                      case Unreachable => r == Failure(DestinationPending)
                      case Answers(receipt) =>
                        var message := was.result.attestedMessage.value;
                        var d := DecodeCctpV2Message(message).value;
                        if && receipt.chainId == payload.destinationChainId && receipt.success
                           && receipt.transactionTo == Some(payload.destinationMessageTransmitterV2)
                           && exists log ::
                                && log in receipt.logs && log.emitter == Some(payload.destinationMessageTransmitterV2)
                                && log.event.Some?
                                && (exists k :: 0 <= k < |log.event.value.caller| && log.event.value.caller[k] != 0)
                                && log.event.value.sourceDomain == d.sourceDomain && log.event.value.nonce == d.nonce
                                && |log.event.value.sender| == 64 && log.event.value.sender[24..] == d.sender
                                && (forall k | 0 <= k < 24 :: log.event.value.sender[k] == 0)
                                && log.event.value.finalityThresholdExecuted == d.finalityThresholdExecuted
                                && log.event.value.messageBody == message[296..]
                        then r.Success? else r == Failure(DestinationMismatch))
                && (r.Failure? ==> state == old(state))
                && (r.Success? ==>
                      && state.versions == old(state).versions + [r.value]
                      && r.value == was.(status := Completed, result := r.value.result)
                      && r.value.result == was.result.(completedAt := Some(now),
                                                       receiptVerified := was.result.receiptVerified || rpc.Answers?,
                                                       verifiedAt := if rpc.Answers? then Some(now)
                                                                     else was.result.verifiedAt))
    {
      hide ReceiptMatches, IsMintOf, DecodeCctpV2Message, MatchesBridgeAttestation, Run, Step;
      RoundTrip();
      var row, seen := Current(state), |state.versions| - 1;
      RunKeeps(payload, log);
      assert VersionHolds(payload, state, state.versions[seen]);
      if wallet != payload.walletAddress {
        return Failure(Forbidden);
      }
      if row.result.attestation.None? || row.result.attestedMessage.None? {
        return Failure(AttestationRequired);
      }
      if row.result.destinationHash.None? {
        return Failure(DestinationRequired);
      }
      if rpc.Answers? {
        ReceiptFields(payload, row.result.attestedMessage.value, rpc.receipt);
      }
      var proven := ProveDestinationReceipt(row.result, rpc);
      if proven.Failure? {
        return Failure(proven.error);
      }
      row := Overwrite(DestinationVerified(seen, Evidence(rpc), now));
      return Success(row);
    }

    method RefreshAttestation(wallet: Hex, fetched: Fetched) returns (r: Answer)
      requires Valid()
      modifies this`state, this`others, this`log
      ensures Valid() && old(log) <= log
      ensures r.Success? ==>
                && wallet == payload.walletAddress && !fetched.Unavailable?
                && r.value in state.versions && r.value.result.sourceHash.Some?
                && r.value.status == if fetched.Complete? then AttestationReady else WaitingForAttestation
      ensures r.Success? && fetched.Complete? ==>
                && IsComplete(fetched.message)
                && var d := DecodeCctpV2Message(fetched.message).value;
                && r.value.result.attestedMessage == Some(fetched.message)
                && r.value.result.attestation == Some(fetched.attestation)
                && r.value.result.nonce == Some(d.nonce) && r.value.result.feeExecuted == Some(d.feeExecuted)
                && r.value.result.mintAmount == Some(payload.amount)
      ensures old(others) == [] ==>
                var versions := old(state).versions;
                var was := versions[|versions| - 1];
                && (if wallet != payload.walletAddress then r == Failure(Forbidden)
                    else if was.result.sourceHash.None? then r == Failure(SourceRequired)
                    else
                      match fetched
                      case Unavailable => r == Failure(AttestationUnavailable)
                      case NotIndexed =>
                        r == Success(was.(status := WaitingForAttestation,
                                          result := was.result.(attestationStatus := Some("not_indexed"),
                                                                delayReason := None)))
                      case Pending(status, reason) =>
                        r == Success(was.(status := WaitingForAttestation,
                                          result := was.result.(attestationStatus := Some(status),
                                                                delayReason := reason)))
                      case Complete(message, attestation) =>
                        if !IsComplete(message) then r == Failure(MessageInvalid)
                        else
                          var d := DecodeCctpV2Message(message).value;
                          if && d.version == 1 && d.burnVersion == 1
                             && d.sourceDomain == payload.sourceDomain
                             && d.destinationDomain == payload.destinationDomain
                             && d.finalityThresholdExecuted == payload.minFinalityThreshold
                             && d.sender == payload.sourceTokenMessengerV2
                             && d.recipient == payload.destinationTokenMessengerV2
                             && d.destinationCaller == payload.destinationCaller
                             && d.minFinalityThreshold == payload.minFinalityThreshold
                             && d.burnToken == payload.sourceUsdcAddress
                             && d.mintRecipient == payload.recipientAddress
                             && d.messageSender == payload.walletAddress
                             && d.amount == payload.amount && d.maxFee == payload.maxFee
                             && d.feeExecuted <= d.maxFee && d.feeExecuted < d.amount
                          then
                            r == Success(was.(status := AttestationReady,
                                              messageHash := Some(OfMessage(message)), nonce := Some(d.nonce),
                                              result := was.result.(attestedMessage := Some(message),
                                                                    attestation := Some(attestation),
                                                                    messageHash := Some(OfMessage(message)),
                                                                    nonce := Some(d.nonce),
                                                                    feeExecuted := Some(d.feeExecuted),
                                                                    mintAmount := Some(d.amount),
                                                                    attestationStatus := Some("complete"),
                                                                    delayReason := None)))
                          else r == Failure(AttestationMismatch))
                && (r.Failure? ==> state == old(state))
                && (r.Success? ==> state.versions == old(state).versions + [r.value])
    {
      hide ReadNumber, ReadAddress, SliceBytes, Number, Run, Step;
      RoundTrip();
      var row, seen := Current(state), |state.versions| - 1;
      if wallet != payload.walletAddress {
        return Failure(Forbidden);
      }
      if row.result.sourceHash.None? {
        return Failure(SourceRequired);
      }
      match fetched {
        case Unavailable =>
          return Failure(AttestationUnavailable);
        case NotIndexed =>
          row := Overwrite(AttestationDelayed(seen, "not_indexed", None));
        case Pending(status, reason) =>
          row := Overwrite(AttestationDelayed(seen, status, reason));
        case Complete(message, attestation) =>
          if !IsComplete(message) {
            return Failure(MessageInvalid);
          }
          if !MatchesBridgeAttestation(payload, DecodeCctpV2Message(message).value, None) {
            return Failure(AttestationMismatch);
          }
          row := Overwrite(AttestationStored(seen, message, attestation));
      }
      return Success(row);
    }
  }
}

/** The recipient's validator: walks a transfer's ownership history down to a genesis range or a trusted checkpoint. */
module Validation {
  import opened Prelude
  import opened Values
  import opened Types
  import opened ClaimSets
  import opened Ledger
  import opened SparseMerkle

  datatype ValidationContext = ValidationContext(genesis: map<Address, seq<ValueRange>>, trusted: seq<Checkpoint>) {
    predicate IsTrusted(checkpoint: Checkpoint, value: ValueRange, owner: Address) {
      exists i :: 0 <= i < |trusted| && trusted[i] == checkpoint && trusted[i].Matches(value, owner)
    }

    predicate MatchesGenesis(firstOwner: Address, range: ValueRange, value: ValueRange, owner: Address) {
      && firstOwner == owner
      && range.Contains(value)
      && owner in genesis
      && exists i :: 0 <= i < |genesis[owner]| && genesis[owner][i].Contains(value) && genesis[owner][i] == range
    }
  }

  datatype ValidationError =
    | OwnerMismatch
    | RecipientMismatch
    | ValueNotCovered
    | EmptySegment
    | TargetTxNotOnce
    | ClaimSetHashMismatch
    | MissingSingleProof
    | ProofDoesNotVerify
    | PrevRefDiscontinuous
    | ValueConflict
    | GenesisAnchorMismatch
    | UntrustedCheckpoint
    | StartsBeforeAcquisition

  predicate TxCovers(tx: OffChainTx, value: ValueRange) {
    exists i :: 0 <= i < |tx.values| && tx.values[i].Contains(value)
  }

  function CountTx(txs: seq<OffChainTx>, tx: OffChainTx): nat {
    if txs == [] then 0 else CountTx(txs[..|txs| - 1], tx) + if txs[|txs| - 1] == tx then 1 else 0
  }

  lemma {:induction false} CountedIsMember(txs: seq<OffChainTx>, tx: OffChainTx)
    ensures CountTx(txs, tx) > 0 <==> tx in txs
  {
    if txs != [] {
      CountedIsMember(txs[..|txs| - 1], tx);
      assert txs == txs[..|txs| - 1] + [txs[|txs| - 1]];
    }
  }

  /** Some range of the newest bundle overlaps the value, other than one of the target's covering it. */
  predicate ConflictsBeside(txs: seq<OffChainTx>, target: OffChainTx, value: ValueRange) {
    exists i, j :: 0 <= i < |txs| && 0 <= j < |txs[i].values| &&
      txs[i].values[j].Intersects(value) && !(txs[i] == target && txs[i].values[j].Contains(value))
  }

  predicate UnitProofVerifies(unit: ConfirmedUnit) {
    && unit.receipt.proof.Single?
    && VerifyProof(unit.receipt.header.stateRoot, AddrKey(unit.sidecar.sender), AccountLeafHash(ReconstructedLeaf(unit)),
                   unit.receipt.proof.proof, TREE_DEPTH)
  }

  function UnitError(value: ValueRange, chain: seq<ConfirmedUnit>, i: nat, target: OffChainTx): Option<ValidationError>
    requires i < |chain|
  {
    var unit := chain[i];
    if !ClaimHashOk(unit.receipt.claimSetHash, unit.sidecar) then Some(ClaimSetHashMismatch)
    else if unit.receipt.proof.Batched? then Some(MissingSingleProof)
    else if !UnitProofVerifies(unit) then Some(ProofDoesNotVerify)
    else if i + 1 < |chain| && unit.receipt.prevRef != Some(ConfirmedRef(chain[i + 1])) then Some(PrevRefDiscontinuous)
    else if i > 0 && ClaimsIntersect(SidecarClaims(unit.sidecar), value) then Some(ValueConflict)
    else if i == 0 && ConflictsBeside(unit.sidecar.txs, target, value) then Some(ValueConflict)
    else None
  }

  function SegmentError(
      value: ValueRange, chain: seq<ConfirmedUnit>, i: nat, target: OffChainTx): (e: Option<ValidationError>)
    requires i <= |chain|
    ensures e.None? <==> forall j :: i <= j < |chain| ==> UnitError(value, chain, j, target).None?
    decreases |chain| - i
  {
    if i == |chain| then None
    else if UnitError(value, chain, i, target).Some? then UnitError(value, chain, i, target)
    else SegmentError(value, chain, i + 1, target)
  }

  /** The first reason to refuse a transfer, or none. */
  function TransferError(ctx: ValidationContext, tx: OffChainTx, value: ValueRange, w: Witness, recipient: Address)
      : (e: Option<ValidationError>)
    ensures e.None? ==> w.chain != []
    ensures e.None? && w.anchor.CheckpointAnchor? ==> w.anchor.checkpoint in ctx.trusted
    decreases w, 1
  {
    if w.owner != tx.sender then Some(OwnerMismatch)
    else if tx.recipient != recipient then Some(RecipientMismatch)
    else if !TxCovers(tx, value) then Some(ValueNotCovered)
    else if w.chain == [] then Some(EmptySegment)
    else if CountTx(w.chain[0].sidecar.txs, tx) != 1 then Some(TargetTxNotOnce)
    else
      var segmentError := SegmentError(value, w.chain, 0, tx);
      if segmentError.Some? then segmentError else AnchorError(ctx, value, w)
  }

  function AnchorError(ctx: ValidationContext, value: ValueRange, w: Witness): Option<ValidationError>
    decreases w, 0
  {
    match w.anchor
    case GenesisAnchor(_, firstOwner, range) =>
      if ctx.MatchesGenesis(firstOwner, range, value, w.owner) then None else Some(GenesisAnchorMismatch)
    case CheckpointAnchor(checkpoint) =>
      if ctx.IsTrusted(checkpoint, value, w.owner) then None else Some(UntrustedCheckpoint)
    case PriorWitnessLink(acquireTx, prior) =>
      var priorError := TransferError(ctx, acquireTx, value, prior, w.owner);
      if priorError.Some? then priorError
      else if w.chain != [] && w.chain[|w.chain| - 1].receipt.header.height <= prior.chain[0].receipt.header.height then
        Some(StartsBeforeAcquisition)
      else None
  }

  predicate Accepts(ctx: ValidationContext, tx: OffChainTx, value: ValueRange, w: Witness, recipient: Address) {
    TransferError(ctx, tx, value, w, recipient).None?
  }

  /** The recipient's new witness: nothing confirmed yet, acquired by the transfer. */
  function AcceptedWitness(package: TransferPackage, recipient: Address): Witness {
    Witness(package.value, recipient, [], PriorWitnessLink(package.tx, package.history))
  }

  function ValidatePackage(ctx: ValidationContext, package: TransferPackage, recipient: Option<Address>)
      : Result<Witness, ValidationError>
  {
    var to := if recipient.Some? then recipient.value else package.tx.recipient;
    var error := TransferError(ctx, package.tx, package.value, package.history, to);
    if error.Some? then Err(error.value) else Ok(AcceptedWitness(package, to))
  }

  /** What accepting a history that was passed on says of its newest and of its earlier part. */
  lemma {:induction false} LinkAccepted(
      ctx: ValidationContext, tx: OffChainTx, value: ValueRange, w: Witness, recipient: Address)
    requires Accepts(ctx, tx, value, w, recipient) && w.anchor.PriorWitnessLink?
    ensures w.chain != [] && SegmentError(value, w.chain, 0, tx).None?
    ensures w.owner == tx.sender && CountTx(w.chain[0].sidecar.txs, tx) == 1 && TxCovers(tx, value)
    ensures Accepts(ctx, w.anchor.acquireTx, value, w.anchor.prior, w.owner) && w.anchor.prior.chain != []
    ensures w.anchor.prior.chain[0].receipt.header.height < w.chain[|w.chain| - 1].receipt.header.height
  {
    assert AnchorError(ctx, value, w).None?;
  }

  // ----- Splitting an accepted value

  predicate HasCheckpoint(w: Witness)
    decreases w
  {
    match w.anchor
    case GenesisAnchor(_, _, _) => false
    case CheckpointAnchor(_) => true
    case PriorWitnessLink(_, prior) => HasCheckpoint(prior)
  }

  lemma {:induction false} SegmentOfPart(
      value: ValueRange, part: ValueRange, chain: seq<ConfirmedUnit>, target: OffChainTx)
    requires value.Contains(part) && SegmentError(value, chain, 0, target).None?
    ensures SegmentError(part, chain, 0, target).None?
  {
    forall i | 0 <= i < |chain| ensures UnitError(part, chain, i, target).None? {
      UnitOfPart(value, part, chain, i, target);
    }
  }

  lemma UnitOfPart(value: ValueRange, part: ValueRange, chain: seq<ConfirmedUnit>, i: nat, target: OffChainTx)
    requires value.Contains(part) && i < |chain| && UnitError(value, chain, i, target).None?
    ensures UnitError(part, chain, i, target).None?
  {
    if i > 0 {
      PartClaims(SidecarClaims(chain[i].sidecar), value, part);
    } else {
      PartConflicts(chain[i].sidecar.txs, target, value, part);
    }
  }

  lemma PartClaims(claims: seq<ValueRange>, value: ValueRange, part: ValueRange)
    requires value.Contains(part) && !ClaimsIntersect(claims, value)
    ensures !ClaimsIntersect(claims, part)
  {
    IntersectMeansSharedPoint(claims, part);
    IntersectMeansSharedPoint(claims, value);
    if point :| part.Has(point) && Covers(claims, point) {
      assert value.Has(point);
    }
  }

  lemma PartConflicts(txs: seq<OffChainTx>, target: OffChainTx, value: ValueRange, part: ValueRange)
    requires value.Contains(part) && !ConflictsBeside(txs, target, value)
    ensures !ConflictsBeside(txs, target, part)
  {
    if i, j :| 0 <= i < |txs| && 0 <= j < |txs[i].values| && txs[i].values[j].Intersects(part) &&
               !(txs[i] == target && txs[i].values[j].Contains(part)) {
      assert txs[i].values[j].Intersects(value) && !(txs[i] == target && txs[i].values[j].Contains(value));
    }
  }

  lemma CoveredPart(tx: OffChainTx, value: ValueRange, part: ValueRange)
    requires value.Contains(part) && TxCovers(tx, value)
    ensures TxCovers(tx, part)
  {
    var i :| 0 <= i < |tx.values| && tx.values[i].Contains(value);
    assert tx.values[i].Contains(part);
  }

  lemma GenesisOfPart(
      ctx: ValidationContext, firstOwner: Address, range: ValueRange, value: ValueRange, part: ValueRange,
      owner: Address)
    requires value.Contains(part) && ctx.MatchesGenesis(firstOwner, range, value, owner)
    ensures ctx.MatchesGenesis(firstOwner, range, part, owner)
  {
    var i :| 0 <= i < |ctx.genesis[owner]| && ctx.genesis[owner][i].Contains(value) && ctx.genesis[owner][i] == range;
    assert ctx.genesis[owner][i].Contains(part);
  }

  /**
    What is accepted for a value is accepted, with the same history, for a part of it exactly when the history
    reaches back to genesis; a checkpoint stands for its own range only.
   */
  lemma {:induction false} SplitAcceptance(
      ctx: ValidationContext, tx: OffChainTx, value: ValueRange, part: ValueRange, w: Witness, recipient: Address)
    requires Accepts(ctx, tx, value, w, recipient) && value.Contains(part)
    ensures Accepts(ctx, tx, part, w, recipient) <==> part == value || !HasCheckpoint(w)
    decreases w
  {
    CoveredPart(tx, value, part);
    SegmentOfPart(value, part, w.chain, tx);
    assert AnchorError(ctx, value, w).None?;
    assert Accepts(ctx, tx, part, w, recipient) <==> AnchorError(ctx, part, w).None?;
    match w.anchor
    case GenesisAnchor(_, firstOwner, range) => GenesisOfPart(ctx, firstOwner, range, value, part, w.owner);
    case CheckpointAnchor(checkpoint) =>
    case PriorWitnessLink(acquireTx, prior) => SplitAcceptance(ctx, acquireTx, value, part, prior, w.owner);
  }
}

/** The wallet as a value: its records, its tables, and what each of its operations does to them. */
module Wallets {
  import opened Prelude
  import opened Sorting
  import opened Values
  import opened Types
  import opened ClaimSets
  import opened Ledger
  import opened SparseMerkle
  import opened Validation
  import opened Selection
  import opened Partitions

  type Records = seq<LocalValueRecord>

  /** What the wallet remembers of a bundle it has built and not yet seen confirmed. */
  datatype PendingBundleContext = PendingBundleContext(
    seqNo: positive,
    envelope: Envelope,
    sidecar: Sidecar,
    publicKey: PublicKey,
    pendingIds: seq<nat>,
    outgoingIds: seq<nat>,
    outgoingValues: seq<ValueRange>)

  /** The tables hold one account's rows; accepted packages stand for their hashes. */
  datatype Wallet = Wallet(
    address: Address,
    genesisBlockHash: Hash,
    records: Records,
    checkpoints: seq<Checkpoint>,
    pending: map<nat, PendingBundleContext>,
    receipts: map<nat, Receipt>,
    units: map<nat, ConfirmedUnit>,
    headers: map<nat, HeaderLite>,
    accepted: set<TransferPackage>,
    nextId: nat)

  datatype WalletError =
    | KeyMismatch
    | AlreadyPending
    | NoTransfers
    | OverlappingOutgoing
    | NoCoveringRecord
    | TxSenderMismatch
    | NoPendingBundle
    | UnknownHeader
    | MissingPreviousUnit
    | PrevRefMismatch
    | SingleProofRequired
    | ProofInvalid
    | RangePartition(partition: PartitionError)
    | NoArchivedRecord
    | AlreadyAccepted
    | Refused(reason: ValidationError)
    | NoSuchRecord
    | NothingConfirmed
    | Unselected(selection: SelectionError)
    | InvalidTransfer

  function FreshWallet(address: Address, genesisBlockHash: Hash): Wallet {
    Wallet(address, genesisBlockHash, [], [], map[], map[], map[], map[], {}, 0)
  }

  // ----- Storing records

  /** Records are read back ordered by range and id. */
  predicate RecordLe(x: LocalValueRecord, y: LocalValueRecord) {
    if x.value.begin != y.value.begin then x.value.begin < y.value.begin
    else if x.value.end != y.value.end then x.value.end < y.value.end
    else x.id <= y.id
  }

  function Stored(records: Records): Records {
    Sort(records, RecordLe)
  }

  // ----- Witnesses

  function CloneFor(w: Witness, value: ValueRange): Witness {
    w.(value := value)
  }

  function WithUnit(w: Witness, value: ValueRange, unit: ConfirmedUnit): Witness {
    w.(value := value, chain := [unit] + w.chain)
  }

  // ----- Sequence numbers

  predicate IsHighest(m: nat, keys: set<nat>) {
    m in keys && forall k :: k in keys ==> k <= m
  }

  lemma {:induction false} HighestExists(keys: set<nat>)
    requires keys != {}
    ensures exists m :: IsHighest(m, keys)
    decreases |keys|
  {
    var x :| x in keys;
    var rest := keys - {x};
    assert keys == rest + {x};
    if rest == {} {
      assert IsHighest(x, keys);
    } else {
      HighestExists(rest);
      var m :| IsHighest(m, rest);
      assert IsHighest(if m < x then x else m, keys);
    }
  }

  function MaxOf(keys: set<nat>): (m: nat)
    ensures keys != {} ==> IsHighest(m, keys)
  {
    if keys == {} then 0
    else
      HighestExists(keys);
      var m :| m in keys && IsHighest(m, keys);
      m
  }

  /** One more than the highest sequence number among receipts and pending bundles. */
  function NextSequence(w: Wallet): positive {
    MaxOf(w.receipts.Keys + w.pending.Keys) + 1
  }

  // ----- Assigning outgoing ranges to records

  type Assignments = map<nat, seq<ValueRange>>

  function AssignedTo(assignments: Assignments, id: nat): seq<ValueRange> {
    if id in assignments then assignments[id] else []
  }

  predicate Fits(r: LocalValueRecord, assignments: Assignments, target: ValueRange) {
    && IsSpendable(r)
    && r.value.Contains(target)
    && forall i :: 0 <= i < |AssignedTo(assignments, r.id)| ==> !AssignedTo(assignments, r.id)[i].Intersects(target)
  }

  /** The first spendable record that covers the target and has no overlapping assignment. */
  function FirstFit(records: Records, assignments: Assignments, target: ValueRange): (r: Option<LocalValueRecord>)
    ensures r.Some? ==> r.value in records && Fits(r.value, assignments, target)
    ensures r.None? ==> forall i :: 0 <= i < |records| ==> !Fits(records[i], assignments, target)
  {
    if records == [] then None
    else if Fits(records[0], assignments, target) then Some(records[0])
    else FirstFit(records[1..], assignments, target)
  }

  function Assign(records: Records, targets: seq<ValueRange>): Option<Assignments> {
    if targets == [] then Some(map[])
    else
      var before, target := Assign(records, targets[..|targets| - 1]), targets[|targets| - 1];
      if before.None? then None
      else
        var fit := FirstFit(records, before.value, target);
        if fit.None? then None
        else Some(before.value[fit.value.id := AssignedTo(before.value, fit.value.id) + [target]])
  }

  // ----- Building a bundle

  /** One record per segment, all pending, with consecutive new ids. */
  function PendingSegments(r: LocalValueRecord, segments: seq<Segment>, firstId: nat): Records {
    seq(|segments|, k requires 0 <= k < |segments| =>
      LocalValueRecord(firstId + k, segments[k].value, CloneFor(r.history, segments[k].value), PendingBundle, r.acquiredAt))
  }

  function OutgoingIdsOf(segments: seq<Segment>, firstId: nat): seq<nat> {
    if segments == [] then []
    else if segments[0].outgoing then [firstId] + OutgoingIdsOf(segments[1..], firstId + 1)
    else OutgoingIdsOf(segments[1..], firstId + 1)
  }

  datatype Built = Built(records: Records, pendingIds: seq<nat>, outgoingIds: seq<nat>, nextId: nat)

  /** Replaces every record that has assignments by its segments, and keeps the others. */
  function SplitAssigned(records: Records, assignments: Assignments, nextId: nat): Built {
    if records == [] then Built([], [], [], nextId)
    else
      var b, r := SplitAssigned(records[..|records| - 1], assignments, nextId), records[|records| - 1];
      var targets := AssignedTo(assignments, r.id);
      if targets == [] then b.(records := b.records + [r])
      else
        var segments := SegmentsOf(r.value, targets);
        Built(b.records + PendingSegments(r, segments, b.nextId),
              b.pendingIds + seq(|segments|, k requires 0 <= k < |segments| => b.nextId + k),
              b.outgoingIds + OutgoingIdsOf(segments, b.nextId),
              b.nextId + |segments|)
  }

  /** The first refused partition among the records that have assignments, if any. */
  function SplitError(records: Records, assignments: Assignments): Option<PartitionError> {
    if records == [] then None
    else
      var before, r := SplitError(records[..|records| - 1], assignments), records[|records| - 1];
      if before.Some? then before
      else if AssignedTo(assignments, r.id) == [] then None
      else ErrorOf(r.value, AssignedTo(assignments, r.id))
  }

  datatype BundleOptions = BundleOptions(chainId: nat, expiryHeight: nat, fee: nat, antiSpamNonce: nat, nonce: nat)

  function PayloadFor(sidecar: Sidecar, seqNo: positive, options: BundleOptions): SigningPayload {
    SigningPayload(2, options.chainId, seqNo, options.expiryHeight, options.fee, options.antiSpamNonce,
                   BundleBodyHash(sidecar), Some(ClaimHash(sidecar)))
  }

  function BundleError(w: Wallet, publicKey: PublicKey, txs: seq<OffChainTx>): Option<WalletError> {
    if publicKey.address != w.address then Some(KeyMismatch)
    else if w.pending != map[] then Some(AlreadyPending)
    else if txs == [] then Some(NoTransfers)
    else if !NeighboursDisjoint(SortRanges(TxValues(txs))) then Some(OverlappingOutgoing)
    else if Assign(w.records, SortRanges(TxValues(txs))).None? then Some(NoCoveringRecord)
    else
      var splitError := SplitError(w.records, Assign(w.records, SortRanges(TxValues(txs))).value);
      if splitError.Some? then Some(RangePartition(splitError.value))
      else if exists i :: 0 <= i < |txs| && txs[i].sender != w.address then Some(TxSenderMismatch)
      else None
  }

  function ContextFor(
      publicKey: PublicKey, sidecar: Sidecar, signer: Address, seqNo: positive, options: BundleOptions, built: Built)
      : PendingBundleContext
  {
    PendingBundleContext(seqNo, SignEnvelope(PayloadFor(sidecar, seqNo, options), signer, options.nonce), sidecar, publicKey,
                         built.pendingIds, built.outgoingIds, SortRanges(TxValues(sidecar.txs)))
  }

  function SubmissionFor(context: PendingBundleContext): Submission {
    Submission(context.envelope, context.sidecar, context.publicKey)
  }

  /** Splits the records, remembers the bundle as pending, and returns what to submit. `signer` owns the private key. */
  function BuildBundle(
      w: Wallet, publicKey: PublicKey, signer: Address, txs: seq<OffChainTx>, seqNo: positive, options: BundleOptions)
      : Result<(Wallet, PendingBundleContext), WalletError>
  {
    var error := BundleError(w, publicKey, txs);
    if error.Some? then Err(error.value)
    else
      var sidecar := Sidecar(w.address, txs);
      var built := SplitAssigned(w.records, Assign(w.records, SortRanges(TxValues(txs))).value, w.nextId);
      var context := ContextFor(publicKey, sidecar, signer, seqNo, options, built);
      Ok((w.(records := Stored(built.records), pending := w.pending[seqNo := context], nextId := built.nextId), context))
  }

  // ----- Confirming a bundle

  function Containing(value: ValueRange, targets: seq<ValueRange>): seq<ValueRange> {
    if targets == [] then []
    else if value.Contains(targets[0]) then [targets[0]] + Containing(value, targets[1..])
    else Containing(value, targets[1..])
  }

  /** The segments of a record that a confirmed unit spends directly. */
  function ConfirmedSegments(
      r: LocalValueRecord, address: Address, unit: ConfirmedUnit, segments: seq<Segment>, firstId: nat): Records
  {
    seq(|segments|, k requires 0 <= k < |segments| =>
      LocalValueRecord(firstId + k, segments[k].value,
                       Witness(segments[k].value, address, [unit] + r.history.chain, r.history.anchor),
                       if segments[k].outgoing then Archived else VerifiedSpendable, r.acquiredAt))
  }

  /** What a confirmed unit makes of one record; `outgoing` is sorted. */
  function ConfirmRecord(
      r: LocalValueRecord, address: Address, unit: ConfirmedUnit, outgoing: seq<ValueRange>,
      pendingIds: seq<nat>, outgoingIds: seq<nat>, firstId: nat): Result<Records, PartitionError>
  {
    if r.status == Archived then Ok([r])
    else if r.id in pendingIds then
      Ok([r.(history := WithUnit(r.history, r.value, unit),
             status := if r.id in outgoingIds then Archived else VerifiedSpendable)])
    else if r.status == PendingBundle then Ok([r])
    else if r.acquiredAt >= unit.receipt.header.height then Ok([r])
    else
      var targets := Containing(r.value, outgoing);
      if targets == [] then Ok([r.(history := WithUnit(r.history, r.value, unit), status := VerifiedSpendable)])
      else if ErrorOf(r.value, targets).Some? then Err(ErrorOf(r.value, targets).value)
      else Ok(ConfirmedSegments(r, address, unit, SegmentsOf(r.value, targets), firstId))
  }

  datatype Confirmed = Confirmed(records: Records, nextId: nat)

  /** Each record left of the step has drawn an id, used or not, so segment ids never repeat. */
  function ConfirmRecords(
      records: Records, address: Address, unit: ConfirmedUnit, outgoing: seq<ValueRange>,
      pendingIds: seq<nat>, outgoingIds: seq<nat>, nextId: nat): Result<Confirmed, PartitionError>
  {
    if records == [] then Ok(Confirmed([], nextId))
    else
      var before := ConfirmRecords(records[..|records| - 1], address, unit, outgoing, pendingIds, outgoingIds, nextId);
      if before.Err? then before
      else
        var one := ConfirmRecord(records[|records| - 1], address, unit, outgoing, pendingIds, outgoingIds, before.value.nextId);
        if one.Err? then Err(one.error)
        else Ok(Confirmed(before.value.records + one.value, before.value.nextId + |one.value|))
  }

  function ReceiptError(w: Wallet, receipt: Receipt): Option<WalletError> {
    if receipt.seqNo !in w.pending then Some(NoPendingBundle)
    else if Lookup(w.headers, receipt.header.height) != Some(receipt.header) then Some(UnknownHeader)
    else if receipt.seqNo == 1 && receipt.prevRef.Some? then Some(PrevRefMismatch)
    else if receipt.seqNo != 1 && (receipt.seqNo - 1) !in w.units then Some(MissingPreviousUnit)
    else if receipt.seqNo != 1 && Some(ConfirmedRef(w.units[receipt.seqNo - 1])) != receipt.prevRef then Some(PrevRefMismatch)
    else if receipt.proof.Batched? then Some(SingleProofRequired)
    else
      var unit := ConfirmedUnit(receipt, w.pending[receipt.seqNo].sidecar);
      if !VerifyProof(receipt.header.stateRoot, AddrKey(w.address), AccountLeafHash(ReconstructedLeaf(unit)),
                      receipt.proof.proof, TREE_DEPTH) then Some(ProofInvalid)
      else None
  }

  /** No record is cut when a pending bundle is confirmed, so nothing can be refused. */
  lemma {:induction false} ConfirmPendingSucceeds(
      records: Records, address: Address, unit: ConfirmedUnit, pendingIds: seq<nat>, outgoingIds: seq<nat>, nextId: nat)
    ensures ConfirmRecords(records, address, unit, [], pendingIds, outgoingIds, nextId).Ok?
  {
    if records != [] {
      ConfirmPendingSucceeds(records[..|records| - 1], address, unit, pendingIds, outgoingIds, nextId);
    }
  }

  function OnReceiptConfirmed(w: Wallet, receipt: Receipt): Result<(Wallet, ConfirmedUnit), WalletError> {
    var error := ReceiptError(w, receipt);
    if error.Some? then Err(error.value)
    else
      var context := w.pending[receipt.seqNo];
      var unit := ConfirmedUnit(receipt, context.sidecar);
      ConfirmPendingSucceeds(w.records, w.address, unit, context.pendingIds, context.outgoingIds, w.nextId);
      var confirmed := ConfirmRecords(w.records, w.address, unit, [], context.pendingIds, context.outgoingIds, w.nextId).value;
      Ok((w.(records := Stored(confirmed.records),
             receipts := w.receipts[receipt.seqNo := receipt],
             units := w.units[receipt.seqNo := unit],
             pending := w.pending - {receipt.seqNo},
             nextId := confirmed.nextId), unit))
  }

  /** The one-shot form: confirms a unit whose outgoing values are given, without a pending bundle. */
  function ApplySenderConfirmedUnit(w: Wallet, unit: ConfirmedUnit, outgoingValues: seq<ValueRange>): Result<Wallet, WalletError> {
    var confirmed := ConfirmRecords(w.records, w.address, unit, SortRanges(outgoingValues), [], [], w.nextId);
    if confirmed.Err? then Err(RangePartition(confirmed.error))
    else Ok(w.(records := Stored(confirmed.value.records), nextId := confirmed.value.nextId))
  }

  // ----- Missing receipts and rollback

  function MarkMissing(records: Records, pendingIds: seq<nat>): Records {
    if records == [] then []
    else
      var r := records[|records| - 1];
      MarkMissing(records[..|records| - 1], pendingIds)
      + [if r.id in pendingIds && r.status == PendingBundle then r.(status := ReceiptMissing) else r]
  }

  function MarkReceiptMissing(w: Wallet, seqNo: nat): Result<Wallet, WalletError> {
    if seqNo !in w.pending then Err(NoPendingBundle)
    else Ok(w.(records := Stored(MarkMissing(w.records, w.pending[seqNo].pendingIds))))
  }

  function Release(records: Records, pendingIds: seq<nat>): Records {
    if records == [] then []
    else
      var r := records[|records| - 1];
      Release(records[..|records| - 1], pendingIds) + [if r.id in pendingIds then r.(status := VerifiedSpendable) else r]
  }

  /** The records with these ids can be spent. */
  ghost predicate AllSpendable(records: Records, ids: seq<nat>) {
    forall x :: x in records && x.id in ids ==> x.status == VerifiedSpendable
  }

  lemma {:induction false} ReleasedAreSpendable(records: Records, ids: seq<nat>)
    ensures AllSpendable(Release(records, ids), ids) && AllSpendable(Stored(Release(records, ids)), ids)
  {
    if records != [] {
      ReleasedAreSpendable(records[..|records| - 1], ids);
    }
    SortMembers(Release(records, ids), RecordLe);
  }

  function RollbackPendingBundle(w: Wallet, seqNo: nat): Result<Wallet, WalletError> {
    if seqNo !in w.pending then Err(NoPendingBundle)
    else Ok(w.(records := Stored(Release(w.records, w.pending[seqNo].pendingIds)), pending := w.pending - {seqNo}))
  }

  // ----- Checkpoints

  function CheckpointOf(w: Witness): Option<Checkpoint> {
    if w.chain == [] then None
    else Some(Checkpoint(w.value, w.owner, w.chain[0].receipt.header.height, w.chain[0].receipt.header.blockHash,
                         BundleBodyHash(w.chain[0].sidecar)))
  }

  predicate UnitMatches(checkpoint: Checkpoint, unit: ConfirmedUnit) {
    && unit.receipt.header.height == checkpoint.height
    && unit.receipt.header.blockHash == checkpoint.blockHash
    && BundleBodyHash(unit.sidecar) == checkpoint.bundleHash
  }

  predicate CheckpointMatches(checkpoint: Checkpoint, w: Witness) {
    && checkpoint.Matches(w.value, w.owner)
    && exists i :: 0 <= i < |w.chain| && UnitMatches(checkpoint, w.chain[i])
  }

  /** Ends the history at the recipient's own earlier ownership of the same range, if there is one. */
  function TrimForRecipient(w: Witness, recipient: Address, target: ValueRange): Witness
    decreases w
  {
    if w.owner == recipient && w.value == target && CheckpointOf(w).Some? then
      w.(anchor := CheckpointAnchor(CheckpointOf(w).value))
    else
      match w.anchor
      case PriorWitnessLink(acquireTx, prior) =>
        w.(anchor := PriorWitnessLink(acquireTx, TrimForRecipient(prior, recipient, target)))
      case _ => w
  }

  /** The witness of the first record the checkpoint speaks of. */
  function FindCheckpointed(records: Records, checkpoint: Checkpoint): Option<Witness> {
    if records == [] then None
    else if records[0].value == checkpoint.value && CheckpointMatches(checkpoint, records[0].history) then Some(records[0].history)
    else FindCheckpointed(records[1..], checkpoint)
  }

  function LocalWitness(w: Wallet, checkpoint: Checkpoint): Option<Witness> {
    if checkpoint.owner != w.address then None else FindCheckpointed(w.records, checkpoint)
  }

  /** The checkpoints of a history that the wallet can vouch for itself: a history has at most one. */
  function TrustedCheckpoints(w: Wallet, history: Witness): seq<Checkpoint>
    decreases history
  {
    match history.anchor
    case CheckpointAnchor(checkpoint) => if LocalWitness(w, checkpoint).Some? then [checkpoint] else []
    case PriorWitnessLink(_, prior) => TrustedCheckpoints(w, prior)
    case GenesisAnchor(_, _, _) => []
  }

  function Rehydrate(w: Wallet, history: Witness): Witness
    decreases history
  {
    match history.anchor
    case CheckpointAnchor(checkpoint) =>
      var found := LocalWitness(w, checkpoint);
      if found.Some? then found.value else history
    case PriorWitnessLink(acquireTx, prior) => history.(anchor := PriorWitnessLink(acquireTx, Rehydrate(w, prior)))
    case GenesisAnchor(_, _, _) => history
  }

  /** Checkpoints of one owner and range are told apart by block and bundle. */
  predicate SameKey(x: Checkpoint, y: Checkpoint) {
    x.owner == y.owner && x.value == y.value && x.blockHash == y.blockHash && x.bundleHash == y.bundleHash
  }

  function DifferentKeys(x: Checkpoint, y: Checkpoint): bool {
    !SameKey(x, y)
  }

  /** Checkpoints are read back ordered by range and height. */
  predicate CheckpointLe(x: Checkpoint, y: Checkpoint) {
    if x.value != y.value then RangeLe(x.value, y.value) else x.height <= y.height
  }

  /** The list with the checkpoint of the same key replaced, if there is one. */
  function Replaced(checkpoints: seq<Checkpoint>, c: Checkpoint): Option<seq<Checkpoint>> {
    if checkpoints == [] then None
    else if SameKey(checkpoints[0], c) then Some([c] + checkpoints[1..])
    else
      var rest := Replaced(checkpoints[1..], c);
      if rest.None? then None else Some([checkpoints[0]] + rest.value)
  }

  /** Stores a checkpoint under its key. */
  function SaveCheckpoint(checkpoints: seq<Checkpoint>, c: Checkpoint): seq<Checkpoint> {
    var replaced := Replaced(checkpoints, c);
    if replaced.Some? then replaced.value else Sort(checkpoints + [c], CheckpointLe)
  }

  lemma {:induction false} ReplacedIs(checkpoints: seq<Checkpoint>, c: Checkpoint)
    requires Pairwise(checkpoints, DifferentKeys)
    ensures var after := Replaced(checkpoints, c);
            if after.None? then forall x :: x in checkpoints ==> !SameKey(x, c)
            else
              && Pairwise(after.value, DifferentKeys)
              && forall x :: x in after.value <==> x == c || (x in checkpoints && !SameKey(x, c))
  {
    if checkpoints != [] {
      var first, rest := checkpoints[0], checkpoints[1..];
      forall k | 0 <= k < |rest| ensures DifferentKeys(first, rest[k]) && DifferentKeys(rest[k], first) {
        assert rest[k] == checkpoints[k + 1];
      }
      if SameKey(first, c) {
        PairwiseCons(c, rest, DifferentKeys);
      } else {
        ReplacedIs(rest, c);
        if Replaced(rest, c).Some? {
          var after := Replaced(rest, c).value;
          forall k | 0 <= k < |after| ensures DifferentKeys(first, after[k]) && DifferentKeys(after[k], first) {
            assert after[k] in after;
          }
          PairwiseCons(first, after, DifferentKeys);
        }
      }
    }
  }

  /** Saving replaces the checkpoint of the same key, adds a new one, and keeps all others; keys stay unique. */
  lemma {:induction false} CheckpointSaved(checkpoints: seq<Checkpoint>, c: Checkpoint)
    requires Pairwise(checkpoints, DifferentKeys)
    ensures Pairwise(SaveCheckpoint(checkpoints, c), DifferentKeys)
    ensures forall x :: x in SaveCheckpoint(checkpoints, c) <==> x == c || (x in checkpoints && !SameKey(x, c))
  {
    ReplacedIs(checkpoints, c);
    if Replaced(checkpoints, c).None? {
      var more := checkpoints + [c];
      forall i, j | 0 <= i < j < |more| ensures DifferentKeys(more[i], more[j]) && DifferentKeys(more[j], more[i]) {
        assert more[i] in checkpoints;
      }
      SortPairwise(more, CheckpointLe, DifferentKeys);
      SortMembers(more, CheckpointLe);
    }
  }

  function CreateExactCheckpoint(w: Wallet, r: LocalValueRecord): Result<Wallet, WalletError> {
    if r !in w.records then Err(NoSuchRecord)
    else if CheckpointOf(r.history).None? then Err(NothingConfirmed)
    else
      var latest := r.history.chain[0];
      var checkpoint := Checkpoint(r.value, w.address, latest.receipt.header.height, latest.receipt.header.blockHash,
                                   BundleBodyHash(latest.sidecar));
      Ok(w.(checkpoints := SaveCheckpoint(w.checkpoints, checkpoint)))
  }

  // ----- Sending and receiving packages

  predicate SentAway(r: LocalValueRecord, address: Address, value: ValueRange) {
    r.status == Archived && r.value == value && r.history.owner == address
  }

  predicate Exports(r: LocalValueRecord, address: Address, tx: OffChainTx, value: ValueRange) {
    && SentAway(r, address, value)
    && r.history.chain != []
    && CountTx(r.history.chain[0].sidecar.txs, tx) == 1
  }

  function FirstExport(
      records: Records, address: Address, tx: OffChainTx, value: ValueRange): (r: Option<LocalValueRecord>)
    ensures r.Some? ==> r.value in records && Exports(r.value, address, tx, value)
    ensures r.None? ==> forall i :: 0 <= i < |records| ==> !Exports(records[i], address, tx, value)
  {
    if records == [] then None
    else if Exports(records[0], address, tx, value) then Some(records[0])
    else FirstExport(records[1..], address, tx, value)
  }

  function PackageOf(r: LocalValueRecord, tx: OffChainTx): TransferPackage {
    TransferPackage(tx, r.value, TrimForRecipient(r.history, tx.recipient, r.value))
  }

  function ExportTransferPackage(w: Wallet, tx: OffChainTx, value: ValueRange): Result<TransferPackage, WalletError> {
    if tx.sender != w.address && exists i :: 0 <= i < |w.records| && SentAway(w.records[i], w.address, value) then
      Err(TxSenderMismatch)
    else
      var r := FirstExport(w.records, w.address, tx, value);
      if r.None? then Err(NoArchivedRecord) else Ok(PackageOf(r.value, tx))
  }

  function ReceiveTransfer(w: Wallet, package: TransferPackage, context: ValidationContext): Result<Wallet, WalletError> {
    if package in w.accepted then Err(AlreadyAccepted)
    else
      var validated := ValidatePackage(context, package, Some(w.address));
      if validated.Err? then Err(Refused(validated.error))
      else
        var r := LocalValueRecord(w.nextId, package.value, Rehydrate(w, validated.value), VerifiedSpendable,
                                  package.history.chain[0].receipt.header.height);
        Ok(w.(records := Stored(w.records + [r]), accepted := w.accepted + {package}, nextId := w.nextId + 1))
  }

  // ----- Genesis values and canonical headers

  function AddGenesisValue(w: Wallet, value: ValueRange): Wallet {
    var history := Witness(value, w.address, [], GenesisAnchor(w.genesisBlockHash, w.address, value));
    w.(records := Stored(w.records + [LocalValueRecord(w.nextId, value, history, VerifiedSpendable, 0)]), nextId := w.nextId + 1)
  }

  function ObserveHeader(w: Wallet, header: HeaderLite): Wallet {
    w.(headers := w.headers[header.height := header])
  }
}

/**
  One wallet in an honest run: its confirmed units form one chain, and every record carries a history that a
  validator accepts without trusting any checkpoint, or will accept once the record is sent away.
 */
module HonestWallets {
  import opened Prelude
  import opened Sorting
  import opened Values
  import opened Types
  import opened ClaimSets
  import opened Ledger
  import opened Validation
  import opened Selection
  import opened Partitions
  import opened Wallets
  import opened TwoPhase
  import opened WalletInvariants

  // ----- The confirmed units

  ghost predicate UnitFine(address: Address, unit: ConfirmedUnit) {
    unit.sidecar.sender == address && UnitProofVerifies(unit) && ClaimHashOk(unit.receipt.claimSetHash, unit.sidecar)
  }

  /** The unit directly continues another one. */
  ghost predicate Follows(unit: ConfirmedUnit, previous: ConfirmedUnit) {
    unit.receipt.prevRef == Some(ConfirmedRef(previous)) && HeightOf(previous) < HeightOf(unit)
  }

  ghost predicate FollowsAt(units: map<nat, ConfirmedUnit>, k: nat) {
    k > 0 && k in units && k - 1 in units && Follows(units[k], units[k - 1])
  }

  /** Units 1 to `n`, each continuing the one before, none above height `top`. */
  ghost predicate UnitsChain(address: Address, units: map<nat, ConfirmedUnit>, n: nat, top: nat) {
    && (forall k :: k in units <==> 1 <= k <= n)
    && (forall k {:trigger units[k]} :: 1 <= k <= n ==>
          units[k].receipt.seqNo == k && UnitFine(address, units[k]) && HeightOf(units[k]) <= top)
    && (forall k {:trigger FollowsAt(units, k)} :: 1 < k <= n ==> FollowsAt(units, k))
  }

  lemma {:induction false} HeightsRise(
      address: Address, units: map<nat, ConfirmedUnit>, n: nat, top: nat, j: nat, k: nat)
    requires UnitsChain(address, units, n, top) && 1 <= j < k <= n
    ensures HeightOf(units[j]) < HeightOf(units[k])
    decreases k - j
  {
    assert FollowsAt(units, k);
    if j < k - 1 {
      HeightsRise(address, units, n, top, j, k - 1);
    }
  }

  ghost predicate RunAt(units: map<nat, ConfirmedUnit>, chain: seq<ConfirmedUnit>, m: nat, i: nat)
    requires i < |chain|
  {
    i < m && m - i in units && chain[i] == units[m - i]
  }

  /** A record's own chain is a run of the wallet's units, the newest being number `m`. */
  ghost predicate IsRun(units: map<nat, ConfirmedUnit>, chain: seq<ConfirmedUnit>, m: nat) {
    |chain| <= m && forall i :: 0 <= i < |chain| ==> RunAt(units, chain, m, i)
  }

  function TopSeq(w: Witness): nat {
    if w.chain == [] then 0 else w.chain[0].receipt.seqNo
  }

  /** The height at which the owner got the value. */
  function AcquiredHeight(w: Witness): nat {
    if w.anchor.PriorWitnessLink? && w.anchor.prior.chain != [] then HeightOf(w.anchor.prior.chain[0]) else 0
  }

  // ----- Valid records

  /** None of the owner's bundles since the acquisition touches the value, and the acquisition itself is accepted. */
  ghost predicate LiveValid(context: ValidationContext, w: Witness, value: ValueRange) {
    && (forall i {:trigger w.chain[i]} :: 0 <= i < |w.chain| ==> !ClaimsIntersect(SidecarClaims(w.chain[i].sidecar), value))
    && AnchorError(context, value, w).None?
  }

  /** The validator accepts the record's own transfer, with its full history. */
  ghost predicate SentValid(context: ValidationContext, r: LocalValueRecord) {
    && TxOf(r).Some?
    && Accepts(context, TxOf(r).value, r.value, r.history, TxOf(r).value.recipient)
  }

  ghost predicate RecordFine(context: ValidationContext, units: map<nat, ConfirmedUnit>, n: nat, r: LocalValueRecord) {
    && r.history.value == r.value
    && !HasCheckpoint(r.history)
    && TopSeq(r.history) <= n && IsRun(units, r.history.chain, TopSeq(r.history))
    && (r.status != Archived && r.history.chain != [] ==> TopSeq(r.history) == n)
    && r.acquiredAt == AcquiredHeight(r.history)
    && (r.history.chain != [] ==> r.acquiredAt < HeightOf(r.history.chain[|r.history.chain| - 1]))
    && (r.status != Archived ==> LiveValid(context, r.history, r.value))
    && (r.status == Archived ==> SentValid(context, r))
  }

  /** The two records have no confirmed unit in common. */
  ghost predicate NoSharedUnit(x: LocalValueRecord, y: LocalValueRecord) {
    forall i, j {:trigger x.history.chain[i], y.history.chain[j]} ::
      0 <= i < |x.history.chain| && 0 <= j < |y.history.chain| ==>
        x.history.chain[i].receipt.seqNo != y.history.chain[j].receipt.seqNo
  }

  /** What was sent away and what else carries some of the same points were never held at the same time. */
  ghost predicate ArchivedApart(records: Records) {
    forall x, y {:trigger NoSharedUnit(x, y)} ::
      x in records && y in records && y.status == Archived && x.id != y.id ==> Apart(x.value, y.value) || NoSharedUnit(x, y)
  }

  /** Every range of the pending bundle is an outgoing record. */
  ghost predicate Covered(context: PendingBundleContext, records: Records) {
    forall v {:trigger v in TxValues(context.sidecar.txs)} :: v in TxValues(context.sidecar.txs) ==>
      exists r :: r in records && r.id in context.outgoingIds && r.value == v
  }

  ghost predicate RecordsFine(context: ValidationContext, units: map<nat, ConfirmedUnit>, n: nat, records: Records) {
    && (forall r :: r in records ==> RecordFine(context, units, n, r))
    && ArchivedApart(records)
  }

  // ----- Live records do not overlap

  lemma SharedPointCountsTwice(accepted: set<TransferPackage>, records: Records, i: nat, j: nat, p: nat)
    requires i < |records| && j < |records| && i != j
    requires records[i].status != Archived && records[j].status != Archived && records[i].value.Has(p) && records[j].value.Has(p)
    ensures HeldBy(accepted, records, p) >= 2
  {
    SumAtLeastTwo(Holder(accepted, p), records, if i < j then i else j, if i < j then j else i);
  }

  lemma LiveRecordsApart(accepted: set<TransferPackage>, records: Records, x: LocalValueRecord, y: LocalValueRecord)
    requires (forall p :: HeldBy(accepted, records, p) <= 1) && x in records && y in records && x.id != y.id
    requires x.status != Archived && y.status != Archived
    ensures Apart(x.value, y.value)
  {
    var i :| 0 <= i < |records| && records[i] == x;
    var j :| 0 <= j < |records| && records[j] == y;
    if !Apart(x.value, y.value) {
      SharedPointCountsTwice(accepted, records, i, j, if x.value.begin < y.value.begin then y.value.begin else x.value.begin);
    }
  }

  // ----- Parts of a valid record

  lemma {:induction false} AnchorOfPart(context: ValidationContext, value: ValueRange, part: ValueRange, w: Witness)
    requires AnchorError(context, value, w).None? && !HasCheckpoint(w) && value.Contains(part)
    ensures AnchorError(context, part, w).None?
  {
    match w.anchor
    case GenesisAnchor(_, firstOwner, range) => GenesisOfPart(context, firstOwner, range, value, part, w.owner);
    case CheckpointAnchor(_) =>
    case PriorWitnessLink(acquireTx, prior) => SplitAcceptance(context, acquireTx, value, part, prior, w.owner);
  }

  lemma {:induction false} SameAnchor(context: ValidationContext, value: ValueRange, w: Witness, after: Witness)
    requires after.anchor == w.anchor && after.owner == w.owner
    requires w.chain == [] ==> after.chain == [] || AcquiredHeight(w) < HeightOf(after.chain[|after.chain| - 1])
    requires w.chain != [] ==> after.chain != [] && after.chain[|after.chain| - 1] == w.chain[|w.chain| - 1]
    requires AnchorError(context, value, w).None? && !HasCheckpoint(w)
    ensures AnchorError(context, value, after).None? && !HasCheckpoint(after) && AcquiredHeight(after) == AcquiredHeight(w)
  {
  }

  /** A piece of a live record is as fine as the record. */
  ghost predicate PieceOf(x: LocalValueRecord, r: LocalValueRecord) {
    && r.status != Archived && x.status != Archived
    && r.value.Contains(x.value) && x.history == CloneFor(r.history, x.value) && x.acquiredAt == r.acquiredAt
  }

  lemma PieceIsFine(
      context: ValidationContext, units: map<nat, ConfirmedUnit>, n: nat, r: LocalValueRecord, x: LocalValueRecord)
    requires RecordFine(context, units, n, r) && PieceOf(x, r)
    ensures RecordFine(context, units, n, x)
  {
    AnchorOfPart(context, r.value, x.value, r.history);
    SameAnchor(context, x.value, r.history, x.history);
    forall i {:trigger x.history.chain[i]} | 0 <= i < |x.history.chain|
      ensures !ClaimsIntersect(SidecarClaims(x.history.chain[i].sidecar), x.value)
    {
      PartClaims(SidecarClaims(r.history.chain[i].sidecar), r.value, x.value);
    }
  }

  // ----- Building

  lemma {:induction false} SegmentPointCounts(segments: seq<Segment>, k: nat, p: nat)
    requires k < |segments| && segments[k].value.Has(p)
    ensures PointCount(segments, p) >= 1
  {
    if k > 0 {
      SegmentPointCounts(segments[1..], k - 1, p);
    }
  }

  lemma SegmentIsContained(source: ValueRange, targets: seq<ValueRange>, segments: seq<Segment>, k: nat)
    requires ErrorOf(source, targets).None? && segments == SegmentsOf(source, targets) && k < |segments|
    ensures source.Contains(segments[k].value)
  {
    var value := segments[k].value;
    SegmentPointCounts(segments, k, value.begin);
    SegmentPointCounts(segments, k, value.end);
    PartitionTiles(source, targets, value.begin);
    PartitionTiles(source, targets, value.end);
  }

  /** Every record of a split is a kept one, or a pending piece of a live one. */
  ghost predicate SplitFrom(x: LocalValueRecord, r: LocalValueRecord, nextId: nat) {
    x == r || (PieceOf(x, r) && x.id >= nextId && x.status == PendingBundle)
  }

  lemma {:induction false} PieceSource(
      records: Records, targets: seq<ValueRange>, i: nat, firstId: nat, nextId: nat, x: LocalValueRecord)
    requires DistinctIds(records) && Assign(records, targets).Some? && i < |records| && nextId <= firstId
    requires x in SplitOne(records[i], AssignedTo(Assign(records, targets).value, records[i].id), firstId)
    ensures SplitFrom(x, records[i], nextId)
  {
    var r, given := records[i], AssignedTo(Assign(records, targets).value, records[i].id);
    if given != [] {
      var segments := SegmentsOf(r.value, given);
      var k := SegmentAt(r, segments, firstId, x);
      AssignedFit(records, targets, i);
      ApartFit(r.value, given);
      SegmentIsContained(r.value, given, segments, k);
      assert x == PendingSegments(r, segments, firstId)[k];
    }
  }

  lemma SplitMember(
      records: Records, assignments: Assignments, nextId: nat, n: nat, x: LocalValueRecord) returns (firstId: nat)
    requires 0 < n <= |records| && x in SplitAssigned(records[..n], assignments, nextId).records
    ensures nextId <= firstId
    ensures x in SplitAssigned(records[..n - 1], assignments, nextId).records
         || x in SplitOne(records[n - 1], AssignedTo(assignments, records[n - 1].id), firstId)
  {
    SplitStep(records, assignments, nextId, n - 1);
    NewIdsArePending(records[..n - 1], assignments, nextId, 0);
    firstId := SplitAssigned(records[..n - 1], assignments, nextId).nextId;
  }

  lemma {:induction false} SplitSource(
      records: Records, targets: seq<ValueRange>, nextId: nat, n: nat, x: LocalValueRecord)
      returns (r: LocalValueRecord)
    requires DistinctIds(records) && Assign(records, targets).Some? && n <= |records|
    requires x in SplitAssigned(records[..n], Assign(records, targets).value, nextId).records
    ensures r in records && SplitFrom(x, r, nextId)
  {
    var assignments := Assign(records, targets).value;
    var firstId := SplitMember(records, assignments, nextId, n, x);
    if x in SplitAssigned(records[..n - 1], assignments, nextId).records {
      r := SplitSource(records, targets, nextId, n - 1, x);
    } else {
      r := records[n - 1];
      PieceSource(records, targets, n - 1, firstId, nextId, x);
    }
  }

  lemma SameIdSameIndex(records: Records, i: nat, j: nat)
    requires Pairwise(records, Distinct) && i < |records| && j < |records| && records[i].id == records[j].id
    ensures i == j
  {
  }

  lemma SameIdSameRecord(records: Records, x: LocalValueRecord, y: LocalValueRecord)
    requires Pairwise(records, Distinct) && x in records && y in records && x.id == y.id
    ensures x == y
  {
    var i :| 0 <= i < |records| && records[i] == x;
    var j :| 0 <= j < |records| && records[j] == y;
    SameIdSameIndex(records, i, j);
  }

  lemma SplitPairApart(records: Records, nextId: nat, x: LocalValueRecord, r: LocalValueRecord, y: LocalValueRecord)
    requires Pairwise(records, Distinct) && ArchivedApart(records) && r in records && y in records
    requires SplitFrom(x, r, nextId) && y.status == Archived && x.id != y.id
    ensures Apart(x.value, y.value) || NoSharedUnit(x, y)
  {
    if r.id == y.id {
      SameIdSameRecord(records, r, y);
    } else {
      assert Apart(r.value, y.value) || NoSharedUnit(r, y);
      if NoSharedUnit(r, y) && x != r {
        assert NoSharedUnit(x, y);
      }
    }
  }

  lemma {:induction false} SplitIsFine(
      context: ValidationContext, w: Wallet, n: nat, targets: seq<ValueRange>, b: Built)
    requires RecordsOk(w.address, w.nextId, w.receipts.Keys, w.records) && RecordsFine(context, w.units, n, w.records)
    requires Assign(w.records, targets).Some? && b == SplitAssigned(w.records, Assign(w.records, targets).value, w.nextId)
    ensures RecordsFine(context, w.units, n, b.records)
  {
    DistinctRecordsHaveDistinctIds(w.records);
    assert w.records[..|w.records|] == w.records;
    forall x | x in b.records ensures RecordFine(context, w.units, n, x) {
      var r := SplitSource(w.records, targets, w.nextId, |w.records|, x);
      if x != r {
        PieceIsFine(context, w.units, n, r, x);
      }
    }
    forall x, y {:trigger NoSharedUnit(x, y)} | x in b.records && y in b.records && y.status == Archived && x.id != y.id
      ensures Apart(x.value, y.value) || NoSharedUnit(x, y)
    {
      var r := SplitSource(w.records, targets, w.nextId, |w.records|, x);
      var s := SplitSource(w.records, targets, w.nextId, |w.records|, y);
      SplitPairApart(w.records, w.nextId, x, r, y);
    }
  }

  lemma StoredFine(context: ValidationContext, units: map<nat, ConfirmedUnit>, n: nat, records: Records)
    requires RecordsFine(context, units, n, records)
    ensures RecordsFine(context, units, n, Stored(records))
  {
    StoredFacts(records);
  }

  // ----- Every target becomes an outgoing record

  lemma {:induction false} TargetIsAssigned(records: Records, targets: seq<ValueRange>, v: ValueRange) returns (i: nat)
    requires DistinctIds(records) && Assign(records, targets).Some? && v in targets
    ensures i < |records| && v in AssignedTo(Assign(records, targets).value, records[i].id)
  {
    var init, t := targets[..|targets| - 1], targets[|targets| - 1];
    var prior: Assignments := Assign(records, init).value;
    var fit := FirstFit(records, prior, t).value;
    if v == t {
      i :| 0 <= i < |records| && records[i] == fit;
    } else {
      i := TargetIsAssigned(records, init, v);
    }
  }

  lemma {:induction false} OutgoingSegmentOf(segments: seq<Segment>, v: ValueRange) returns (k: nat)
    requires v in OutgoingOf(segments)
    ensures k < |segments| && segments[k].outgoing && segments[k].value == v
  {
    k := 0;
    if !(segments[0].outgoing && segments[0].value == v) {
      k := OutgoingSegmentOf(segments[1..], v);
      k := k + 1;
    }
  }

  lemma GivenSegment(source: ValueRange, given: seq<ValueRange>, v: ValueRange) returns (k: nat)
    requires AllContained(source, given) && Pairwise(given, Apart) && v in given
    ensures k < |SegmentsOf(source, given)| && SegmentsOf(source, given)[k].outgoing && SegmentsOf(source, given)[k].value == v
  {
    ApartFit(source, given);
    PartitionTiles(source, given, 0);
    SortRangesFacts(given);
    k := OutgoingSegmentOf(SegmentsOf(source, given), v);
  }

  lemma {:induction false} RecordStaysOnce(
      records: Records, assignments: Assignments, nextId: nat, n: nat, x: LocalValueRecord)
    requires n < |records| && x in SplitAssigned(records[..n], assignments, nextId).records
    ensures x in SplitAssigned(records[..n + 1], assignments, nextId).records
  {
    SplitStep(records, assignments, nextId, n);
  }

  lemma {:induction false} RecordStaysInSplit(
      records: Records, assignments: Assignments, nextId: nat, i: nat, n: nat, x: LocalValueRecord)
    requires i <= n <= |records| && x in SplitAssigned(records[..i], assignments, nextId).records
    ensures x in SplitAssigned(records[..n], assignments, nextId).records
  {
    hide *;
    if i < n {
      RecordStaysInSplit(records, assignments, nextId, i, n - 1, x);
      RecordStaysOnce(records, assignments, nextId, n - 1, x);
    }
  }

  lemma {:induction false} PieceIsInWhole(
      records: Records, assignments: Assignments, nextId: nat, i: nat, x: LocalValueRecord)
    requires i < |records|
    requires x in SplitOne(records[i], AssignedTo(assignments, records[i].id), SplitAssigned(records[..i], assignments, nextId).nextId)
    ensures x in SplitAssigned(records, assignments, nextId).records
  {
    SplitStep(records, assignments, nextId, i);
    RecordStaysInSplit(records, assignments, nextId, i + 1, |records|, x);
    assert records[..|records|] == records;
  }

  lemma PieceForTarget(
      r: LocalValueRecord, given: seq<ValueRange>, firstId: nat, v: ValueRange) returns (k: nat, x: LocalValueRecord)
    requires AllContained(r.value, given) && Pairwise(given, Apart) && v in given
    ensures k < |SegmentsOf(r.value, given)| && SegmentsOf(r.value, given)[k].outgoing && x.id == firstId + k && x.value == v
    ensures x in SplitOne(r, given, firstId)
  {
    k := GivenSegment(r.value, given, v);
    x := PendingSegments(r, SegmentsOf(r.value, given), firstId)[k];
  }

  lemma {:induction false} GivenRanges(
      records: Records, targets: seq<ValueRange>, assignments: Assignments, i: nat, given: seq<ValueRange>)
    requires DistinctIds(records) && Assign(records, targets) == Some(assignments) && i < |records|
    requires given == AssignedTo(assignments, records[i].id)
    ensures AllContained(records[i].value, given) && Pairwise(given, Apart)
  {
    AssignedFit(records, targets, i);
  }

  lemma OutgoingPiece(
      r: LocalValueRecord, given: seq<ValueRange>, b: Built, firstId: nat, v: ValueRange) returns (x: LocalValueRecord)
    requires AllContained(r.value, given) && Pairwise(given, Apart) && v in given
    requires IdsMatch(SegmentsOf(r.value, given), firstId, b.pendingIds, b.outgoingIds)
    ensures x in SplitOne(r, given, firstId) && x.id in b.outgoingIds && x.value == v
  {
    var k, y := PieceForTarget(r, given, firstId, v);
    assert IdMatches(SegmentsOf(r.value, given), firstId, b.pendingIds, b.outgoingIds, k);
    x := y;
  }

  lemma TargetHasPiece(
      records: Records, targets: seq<ValueRange>, assignments: Assignments, nextId: nat, b: Built, i: nat, firstId: nat, v: ValueRange)
      returns (x: LocalValueRecord)
    requires DistinctIds(records) && Assign(records, targets) == Some(assignments) && i < |records|
    requires v in AssignedTo(assignments, records[i].id) && b == SplitAssigned(records, assignments, nextId)
    requires firstId == SplitAssigned(records[..i], assignments, nextId).nextId
    ensures x in SplitOne(records[i], AssignedTo(assignments, records[i].id), firstId) && x.id in b.outgoingIds && x.value == v
  {
    var given := AssignedTo(assignments, records[i].id);
    GivenRanges(records, targets, assignments, i, given);
    SegmentIdsMatch(records, assignments, nextId, i, SegmentsOf(records[i].value, given), b, firstId);
    x := OutgoingPiece(records[i], given, b, firstId, v);
  }

  lemma TargetHasRecord(
      records: Records, targets: seq<ValueRange>, nextId: nat, b: Built, v: ValueRange) returns (x: LocalValueRecord)
    requires DistinctIds(records) && Assign(records, targets).Some? && v in targets
    requires b == SplitAssigned(records, Assign(records, targets).value, nextId)
    ensures x in b.records && x.id in b.outgoingIds && x.value == v
  {
    var assignments := Assign(records, targets).value;
    var i := TargetIsAssigned(records, targets, v);
    x := TargetHasPiece(records, targets, assignments, nextId, b, i, SplitAssigned(records[..i], assignments, nextId).nextId, v);
    PieceIsInWhole(records, assignments, nextId, i, x);
  }

  lemma {:induction false} SplitIsCovered(w: Wallet, targets: seq<ValueRange>, b: Built, context: PendingBundleContext)
    requires RecordsOk(w.address, w.nextId, w.receipts.Keys, w.records) && Assign(w.records, targets).Some?
    requires b == SplitAssigned(w.records, Assign(w.records, targets).value, w.nextId)
    requires context.outgoingIds == b.outgoingIds && targets == SortRanges(TxValues(context.sidecar.txs))
    ensures Covered(context, Stored(b.records))
  {
    DistinctRecordsHaveDistinctIds(w.records);
    SortRangesFacts(TxValues(context.sidecar.txs));
    StoredFacts(b.records);
    forall v {:trigger v in TxValues(context.sidecar.txs)} | v in TxValues(context.sidecar.txs)
      ensures exists r :: r in Stored(b.records) && r.id in context.outgoingIds && r.value == v
    {
      var x := TargetHasRecord(w.records, targets, w.nextId, b, v);
      assert x in Stored(b.records);
    }
  }

  /** Building keeps every record fine, and every range of the bundle gets an outgoing record. */
  lemma BuildKeepsFine(
      context: ValidationContext, w: Wallet, n: nat, publicKey: PublicKey, signer: Address, txs: seq<OffChainTx>,
      seqNo: positive, options: BundleOptions)
    requires WalletOk(w) && RecordsFine(context, w.units, n, w.records)
    requires BuildBundle(w, publicKey, signer, txs, seqNo, options).Ok?
    ensures var (after, pending) := BuildBundle(w, publicKey, signer, txs, seqNo, options).value;
            RecordsFine(context, w.units, n, after.records) && Covered(pending, after.records)
  {
    var targets := SortRanges(TxValues(txs));
    var b := SplitAssigned(w.records, Assign(w.records, targets).value, w.nextId);
    BuildShape(w, publicKey, signer, txs, seqNo, options);
    SplitIsFine(context, w, n, targets, b);
    StoredFine(context, w.units, n, b.records);
    SplitIsCovered(w, targets, b, BuildBundle(w, publicKey, signer, txs, seqNo, options).value.1);
  }
}

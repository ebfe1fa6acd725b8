/** What every operation keeps of one wallet: its points of value, and the facts that tie records to bundles. */
module WalletInvariants {
  import opened Prelude
  import opened Sorting
  import opened Values
  import opened Types
  import opened ClaimSets
  import opened Validation
  import opened Selection
  import opened Partitions
  import opened Wallets
  import opened TwoPhase

  // ----- Who holds a point

  /** The first transfer that names exactly this range. */
  function FirstTxWith(txs: seq<OffChainTx>, value: ValueRange): Option<OffChainTx> {
    if txs == [] then None
    else if value in txs[0].values then Some(txs[0])
    else FirstTxWith(txs[1..], value)
  }

  /** The transfer that sent an archived record away. */
  function TxOf(r: LocalValueRecord): Option<OffChainTx> {
    if r.history.chain == [] then None else FirstTxWith(r.history.chain[0].sidecar.txs, r.value)
  }

  /** The package that hands an archived record to its recipient. */
  function PackageFor(r: LocalValueRecord): Option<TransferPackage> {
    if TxOf(r).None? then None else Some(PackageOf(r, TxOf(r).value))
  }

  predicate Delivered(accepted: set<TransferPackage>, r: LocalValueRecord) {
    PackageFor(r).Some? && PackageFor(r).value in accepted
  }

  /** A record holds its points while it is live, or archived and not yet accepted by the recipient. */
  function Held(accepted: set<TransferPackage>, r: LocalValueRecord, p: nat): nat {
    if r.value.Has(p) && (r.status != Archived || !Delivered(accepted, r)) then 1 else 0
  }

  function Holder(accepted: set<TransferPackage>, p: nat): LocalValueRecord -> nat {
    r => Held(accepted, r, p)
  }

  function HeldBy(accepted: set<TransferPackage>, records: Records, p: nat): nat {
    Sum(Holder(accepted, p), records)
  }

  // ----- The invariant of one wallet

  ghost predicate NonOverlapping(txs: seq<OffChainTx>) {
    NeighboursDisjoint(SortRanges(TxValues(txs)))
  }

  /** Different ids, and not two traces of one transfer. */
  ghost predicate Distinct(x: LocalValueRecord, y: LocalValueRecord) {
    && x.id != y.id
    && !(x.status == Archived && y.status == Archived && x.history.chain != [] && y.history.chain != [] &&
         x.value == y.value && x.history.chain[0].receipt.seqNo == y.history.chain[0].receipt.seqNo)
  }

  /** An archived record was sent away by the newest bundle of its history, whose receipt the wallet has. */
  ghost predicate RecordOk(address: Address, nextId: nat, receipts: set<nat>, r: LocalValueRecord) {
    && r.id < nextId
    && r.history.owner == address
    && (r.status == Archived ==>
          && r.history.chain != []
          && r.history.chain[0].receipt.seqNo in receipts
          && NonOverlapping(r.history.chain[0].sidecar.txs)
          && r.value in TxValues(r.history.chain[0].sidecar.txs))
  }

  ghost predicate RecordsOk(address: Address, nextId: nat, receipts: set<nat>, records: Records) {
    && Pairwise(records, Distinct)
    && forall r :: r in records ==> RecordOk(address, nextId, receipts, r)
  }

  /** What a pending bundle says of one record. */
  ghost predicate MarksOk(context: PendingBundleContext, r: LocalValueRecord) {
    && (r.id in context.pendingIds ==> r.status != Archived)
    && (r.id in context.outgoingIds ==> r.value in TxValues(context.sidecar.txs))
  }

  ghost predicate ContextOk(context: PendingBundleContext, records: Records, nextId: nat, receipts: set<nat>) {
    && NonOverlapping(context.sidecar.txs)
    && context.seqNo !in receipts
    && (forall id :: id in context.pendingIds ==> id < nextId)
    && (forall id :: id in context.outgoingIds ==> id in context.pendingIds)
    && (forall r :: r in records ==> MarksOk(context, r))
  }

  ghost predicate WalletOk(w: Wallet) {
    && RecordsOk(w.address, w.nextId, w.receipts.Keys, w.records)
    && (forall s :: s in w.pending ==> w.pending[s].seqNo == s && ContextOk(w.pending[s], w.records, w.nextId, w.receipts.Keys))
    && (forall s, t :: s in w.pending && t in w.pending ==> s == t)
  }

  /** Archived records stay. */
  ghost predicate KeepsArchived(before: Records, after: Records) {
    forall r :: r in before && r.status == Archived ==> r in after
  }

  // ----- Storing changes nothing but the order

  lemma StoredFacts(records: Records)
    ensures forall r :: r in Stored(records) <==> r in records
  {
    SortMembers(records, RecordLe);
  }

  lemma StoredRecordsOk(address: Address, nextId: nat, receipts: set<nat>, records: Records)
    requires RecordsOk(address, nextId, receipts, records)
    ensures RecordsOk(address, nextId, receipts, Stored(records))
  {
    StoredFacts(records);
    SortPairwise(records, RecordLe, Distinct);
  }

  lemma StoredHeld(accepted: set<TransferPackage>, records: Records, p: nat)
    ensures HeldBy(accepted, Stored(records), p) == HeldBy(accepted, records, p)
  {
    SumSort(Holder(accepted, p), records, RecordLe);
  }

  lemma DistinctRecordsHaveDistinctIds(records: Records)
    requires Pairwise(records, Distinct)
    ensures DistinctIds(records)
  {
    forall i, j | 0 <= i < j < |records| ensures records[i].id != records[j].id {
      assert Distinct(records[i], records[j]);
    }
  }

  // ----- Splitting

  lemma {:induction false} SegmentsHeld(
      accepted: set<TransferPackage>, r: LocalValueRecord, segments: seq<Segment>, firstId: nat, p: nat)
    ensures HeldBy(accepted, PendingSegments(r, segments, firstId), p) == PointCount(segments, p)
  {
    if segments != [] {
      var pending := PendingSegments(r, segments, firstId);
      SegmentsHeld(accepted, r, segments[1..], firstId + 1, p);
      assert pending[1..] == PendingSegments(r, segments[1..], firstId + 1);
      SumFirst(Holder(accepted, p), pending);
    }
  }

  /** The targets assigned to a record fit into it without overlap; only spendable records get any. */
  lemma {:induction false} AssignedFit(records: Records, targets: seq<ValueRange>, i: nat)
    requires DistinctIds(records) && i < |records| && Assign(records, targets).Some?
    ensures var given := AssignedTo(Assign(records, targets).value, records[i].id);
            && (given != [] ==> IsSpendable(records[i]))
            && AllContained(records[i].value, given)
            && Pairwise(given, Apart)
            && forall t :: t in given ==> t in targets
  {
    if targets != [] {
      var init, t := targets[..|targets| - 1], targets[|targets| - 1];
      AssignedFit(records, init, i);
      var prior: Assignments := Assign(records, init).value;
      var fit := FirstFit(records, prior, t).value;
      var j :| 0 <= j < |records| && records[j] == fit;
      if fit.id == records[i].id {
        assert i == j;
        AppendApart(AssignedTo(prior, fit.id), t);
      }
    }
  }

  lemma AppendApart(ranges: seq<ValueRange>, t: ValueRange)
    requires Pairwise(ranges, Apart) && forall k :: 0 <= k < |ranges| ==> Apart(ranges[k], t)
    ensures Pairwise(ranges + [t], Apart)
  {
  }

  lemma ApartFit(source: ValueRange, targets: seq<ValueRange>)
    requires AllContained(source, targets) && Pairwise(targets, Apart)
    ensures ErrorOf(source, targets).None?
  {
    SortRangesFacts(targets);
    SortedDisjointAscends(targets);
    NeighboursDecideAscending(SortRanges(targets));
    forall i | 0 <= i < |SortRanges(targets)| ensures source.Contains(SortRanges(targets)[i]) {
      assert SortRanges(targets)[i] in targets;
    }
  }

  lemma {:induction false} SplitOneHeld(
      accepted: set<TransferPackage>, records: Records, targets: seq<ValueRange>, i: nat, firstId: nat, p: nat)
    requires DistinctIds(records) && Assign(records, targets).Some? && i < |records|
    ensures HeldBy(accepted, SplitOne(records[i], AssignedTo(Assign(records, targets).value, records[i].id), firstId), p)
         == Held(accepted, records[i], p)
  {
    var r, given := records[i], AssignedTo(Assign(records, targets).value, records[i].id);
    AssignedFit(records, targets, i);
    if given == [] {
      SumOne(Holder(accepted, p), r);
    } else {
      ApartFit(r.value, given);
      PartitionTiles(r.value, given, p);
      SegmentsHeld(accepted, r, SegmentsOf(r.value, given), firstId, p);
    }
  }

  /** The pieces of a record sum to what the record does. */
  ghost predicate PiecesAgree(f: LocalValueRecord -> nat, r: LocalValueRecord, targets: seq<ValueRange>, firstId: nat) {
    Sum(f, SplitOne(r, targets, firstId)) == f(r)
  }

  lemma {:induction false} PiecesAdd(f: LocalValueRecord -> nat, before: Records, pieces: Records, after: Records, whole: nat)
    requires after == before + pieces && Sum(f, pieces) == whole
    ensures Sum(f, after) == Sum(f, before) + whole
  {
    SumConcat(f, before, pieces);
  }

  /** If no record's pieces change a sum, splitting does not. */
  lemma {:induction false} SplitSum(
      f: LocalValueRecord -> nat, records: Records, assignments: Assignments, nextId: nat, n: nat)
    requires n <= |records|
    requires forall i, firstId: nat :: 0 <= i < |records| ==> PiecesAgree(f, records[i], AssignedTo(assignments, records[i].id), firstId)
    ensures Sum(f, SplitAssigned(records[..n], assignments, nextId).records) == Sum(f, records[..n])
  {
    hide AssignedTo, SplitAssigned, SplitOne, Sum;
    if n == 0 {
      NothingSplit(assignments, nextId);
      assert records[..n] == [];
    } else {
      var b, r := SplitAssigned(records[..n - 1], assignments, nextId), records[n - 1];
      SplitSum(f, records, assignments, nextId, n - 1);
      SplitStep(records, assignments, nextId, n - 1);
      assert PiecesAgree(f, r, AssignedTo(assignments, r.id), b.nextId);
      PiecesAdd(f, b.records, SplitOne(r, AssignedTo(assignments, r.id), b.nextId),
                SplitAssigned(records[..n], assignments, nextId).records, f(r));
      SumPrefix(f, records, n - 1);
    }
  }

  lemma {:induction false} NothingSplit(assignments: Assignments, nextId: nat)
    ensures SplitAssigned([], assignments, nextId).records == []
  {
  }

  lemma {:induction false} SplitHeld(
      accepted: set<TransferPackage>, records: Records, targets: seq<ValueRange>, nextId: nat, p: nat)
    requires DistinctIds(records) && Assign(records, targets).Some?
    ensures HeldBy(accepted, SplitAssigned(records, Assign(records, targets).value, nextId).records, p)
         == HeldBy(accepted, records, p)
  {
    var assignments := Assign(records, targets).value;
    forall i, firstId: nat | 0 <= i < |records|
      ensures PiecesAgree(Holder(accepted, p), records[i], AssignedTo(assignments, records[i].id), firstId)
    {
      SplitOneHeld(accepted, records, targets, i, firstId, p);
    }
    SplitSum(Holder(accepted, p), records, assignments, nextId, |records|);
    assert records[..|records|] == records;
  }

  /** With distinct ids no partition is ever refused while building. */
  lemma {:induction false} SplitIsNeverRefused(records: Records, targets: seq<ValueRange>, n: nat)
    requires DistinctIds(records) && Assign(records, targets).Some? && n <= |records|
    ensures SplitError(records[..n], Assign(records, targets).value).None?
  {
    if n > 0 {
      assert records[..n][..n - 1] == records[..n - 1];
      SplitIsNeverRefused(records, targets, n - 1);
      AssignedFit(records, targets, n - 1);
      ApartFit(records[n - 1].value, AssignedTo(Assign(records, targets).value, records[n - 1].id));
    }
  }

  // ----- Building keeps the wallet well

  /** A record of a split is one that was kept, or a pending segment with a new id. */
  ghost predicate FromSplit(records: Records, address: Address, low: nat, high: nat, x: LocalValueRecord) {
    || (x.id < low && x in records)
    || (low <= x.id < high && x.status == PendingBundle && x.history.owner == address)
  }

  ghost predicate SplitOk(records: Records, address: Address, low: nat, b: Built) {
    && low <= b.nextId
    && DistinctIds(b.records)
    && forall x :: x in b.records ==> FromSplit(records, address, low, b.nextId, x)
  }

  lemma KeepOne(records: Records, address: Address, low: nat, b: Built, n: nat)
    requires n < |records| && SplitOk(records[..n], address, low, b) && DistinctIds(records) && records[n].id < low
    ensures SplitOk(records[..n + 1], address, low, b.(records := b.records + [records[n]]))
  {
    assert records[..n + 1] == records[..n] + [records[n]];
    forall x | x in b.records ensures x.id != records[n].id && FromSplit(records[..n + 1], address, low, b.nextId, x) {
      assert FromSplit(records[..n], address, low, b.nextId, x);
      if x.id < low {
        var k :| 0 <= k < n && records[k] == x;
      }
    }
  }

  lemma CutOne(
      records: Records, address: Address, low: nat, b: Built, after: Built, r: LocalValueRecord,
      segments: seq<Segment>)
    requires SplitOk(records, address, low, b) && r.history.owner == address
    requires after.records == b.records + PendingSegments(r, segments, b.nextId) && after.nextId == b.nextId + |segments|
    ensures SplitOk(records, address, low, after)
  {
    var pending := PendingSegments(r, segments, b.nextId);
    forall x | x in after.records ensures FromSplit(records, address, low, after.nextId, x) {
      if x in b.records {
        assert FromSplit(records, address, low, b.nextId, x);
      } else {
        assert x in pending;
      }
    }
    forall i | 0 <= i < |b.records| ensures b.records[i].id < b.nextId {
      assert FromSplit(records, address, low, b.nextId, b.records[i]);
    }
  }

  lemma MoreRecords(records: Records, address: Address, low: nat, b: Built, n: nat)
    requires n < |records| && SplitOk(records[..n], address, low, b)
    ensures SplitOk(records[..n + 1], address, low, b)
  {
    assert records[..n + 1] == records[..n] + [records[n]];
    forall x | x in b.records ensures FromSplit(records[..n + 1], address, low, b.nextId, x) {
      assert FromSplit(records[..n], address, low, b.nextId, x);
    }
  }

  lemma {:induction false} SplitIsOk(records: Records, address: Address, assignments: Assignments, nextId: nat, n: nat)
    requires n <= |records| && DistinctIds(records)
    requires forall r :: r in records ==> r.id < nextId && r.history.owner == address
    ensures SplitOk(records[..n], address, nextId, SplitAssigned(records[..n], assignments, nextId))
  {
    if n > 0 {
      var r := records[n - 1];
      SplitIsOk(records, address, assignments, nextId, n - 1);
      assert records[..n][..n - 1] == records[..n - 1];
      var b, after := SplitAssigned(records[..n - 1], assignments, nextId), SplitAssigned(records[..n], assignments, nextId);
      var targets := AssignedTo(assignments, r.id);
      if targets == [] {
        KeepOne(records, address, nextId, b, n - 1);
      } else {
        CutOne(records[..n - 1], address, nextId, b, after, r, SegmentsOf(r.value, targets));
        MoreRecords(records, address, nextId, after, n - 1);
      }
    }
  }

  lemma {:induction false} OutgoingSegmentIn(segments: seq<Segment>, k: nat)
    requires k < |segments| && segments[k].outgoing
    ensures segments[k].value in OutgoingOf(segments)
  {
    if k > 0 {
      OutgoingSegmentIn(segments[1..], k - 1);
    }
  }

  /** Every outgoing record of a split carries one of the targets. */
  lemma {:induction false} OutgoingAreTargets(
      records: Records, targets: seq<ValueRange>, assignments: Assignments, nextId: nat, final: Built, n: nat, x: LocalValueRecord)
    requires n <= |records| && DistinctIds(records) && Assign(records, targets) == Some(assignments)
    requires forall r :: r in records ==> r.id < nextId
    requires final == SplitAssigned(records, assignments, nextId)
    requires x in SplitAssigned(records[..n], assignments, nextId).records && x.id in final.outgoingIds
    ensures x.value in targets
  {
    assert records[..n][..n - 1] == records[..n - 1];
    var r := records[n - 1];
    var b, given := SplitAssigned(records[..n - 1], assignments, nextId), AssignedTo(assignments, r.id);
    SplitStep(records, assignments, nextId, n - 1);
    if x in b.records {
      OutgoingAreTargets(records, targets, assignments, nextId, final, n - 1, x);
    } else {
      NewIdsArePending(records, assignments, nextId, x.id);
      OutgoingOfOne(records, targets, assignments, nextId, final, n - 1, b.nextId, x);
    }
  }

  lemma {:induction false} OutgoingOfOne(
      records: Records, targets: seq<ValueRange>, assignments: Assignments, nextId: nat, final: Built, i: nat, firstId: nat,
      x: LocalValueRecord)
    requires i < |records| && DistinctIds(records) && Assign(records, targets) == Some(assignments)
    requires records[i].id < nextId <= x.id
    requires final == SplitAssigned(records, assignments, nextId)
    requires firstId == SplitAssigned(records[..i], assignments, nextId).nextId
    requires x in SplitOne(records[i], AssignedTo(assignments, records[i].id), firstId) && x.id in final.outgoingIds
    ensures x.value in targets
  {
    var given := AssignedTo(assignments, records[i].id);
    var segments := SegmentsOf(records[i].value, given);
    SegmentIdsMatch(records, assignments, nextId, i, segments, final, firstId);
    var k := SegmentAt(records[i], segments, firstId, x);
    SegmentIsOutgoing(segments, firstId, final, k, x.id);
    OutgoingOfRecord(records, targets, i, segments, k);
  }

  lemma SegmentIsOutgoing(segments: seq<Segment>, firstId: nat, b: Built, k: nat, id: nat)
    requires IdsMatch(segments, firstId, b.pendingIds, b.outgoingIds)
    requires k < |segments| && id == firstId + k && id in b.outgoingIds
    ensures segments[k].outgoing
  {
    assert IdMatches(segments, firstId, b.pendingIds, b.outgoingIds, k);
  }

  lemma {:induction false} OutgoingOfRecord(
      records: Records, targets: seq<ValueRange>, i: nat, segments: seq<Segment>, k: nat)
    requires i < |records| && DistinctIds(records) && Assign(records, targets).Some?
    requires segments == SegmentsOf(records[i].value, AssignedTo(Assign(records, targets).value, records[i].id))
    requires k < |segments| && segments[k].outgoing
    ensures segments[k].value in targets
  {
    AssignedFit(records, targets, i);
    FittedSegmentIn(records[i].value, AssignedTo(Assign(records, targets).value, records[i].id), segments, k);
  }

  lemma SegmentAt(r: LocalValueRecord, segments: seq<Segment>, firstId: nat, x: LocalValueRecord) returns (k: nat)
    requires x in PendingSegments(r, segments, firstId)
    ensures k < |segments| && x.id == firstId + k && x.value == segments[k].value
  {
    k :| 0 <= k < |segments| && PendingSegments(r, segments, firstId)[k] == x;
  }

  lemma FittedSegmentIn(source: ValueRange, given: seq<ValueRange>, segments: seq<Segment>, k: nat)
    requires AllContained(source, given) && Pairwise(given, Apart) && segments == SegmentsOf(source, given)
    requires k < |segments| && segments[k].outgoing
    ensures segments[k].value in given
  {
    OutgoingSegmentIn(segments, k);
    ApartFit(source, given);
    PartitionTiles(source, given, 0);
    SortRangesFacts(given);
  }

  lemma OwnRecords(w: Wallet)
    requires RecordsOk(w.address, w.nextId, w.receipts.Keys, w.records)
    ensures forall r :: r in w.records ==> r.id < w.nextId && r.history.owner == w.address
  {
    forall r | r in w.records ensures r.id < w.nextId && r.history.owner == w.address {
      assert RecordOk(w.address, w.nextId, w.receipts.Keys, r);
    }
  }

  lemma {:induction false} SplitRecordsOk(w: Wallet, assignments: Assignments)
    requires RecordsOk(w.address, w.nextId, w.receipts.Keys, w.records)
    ensures var b := SplitAssigned(w.records, assignments, w.nextId);
            RecordsOk(w.address, b.nextId, w.receipts.Keys, b.records) && w.nextId <= b.nextId
  {
    var b := SplitAssigned(w.records, assignments, w.nextId);
    DistinctRecordsHaveDistinctIds(w.records);
    OwnRecords(w);
    SplitIsOk(w.records, w.address, assignments, w.nextId, |w.records|);
    assert w.records[..|w.records|] == w.records;
    forall x | x in b.records ensures RecordOk(w.address, b.nextId, w.receipts.Keys, x) {
      assert FromSplit(w.records, w.address, w.nextId, b.nextId, x);
    }
    SplitDistinct(w.records, w.address, w.nextId, b);
  }

  lemma SplitDistinct(records: Records, address: Address, low: nat, b: Built)
    requires Pairwise(records, Distinct) && SplitOk(records, address, low, b)
    ensures Pairwise(b.records, Distinct)
  {
    forall i, j | 0 <= i < j < |b.records|
      ensures Distinct(b.records[i], b.records[j]) && Distinct(b.records[j], b.records[i])
    {
      var x, y := b.records[i], b.records[j];
      assert FromSplit(records, address, low, b.nextId, x) && FromSplit(records, address, low, b.nextId, y);
      if x in records && y in records {
        MembersAreDistinct(records, x, y);
      }
    }
  }

  lemma MembersAreDistinct(records: Records, x: LocalValueRecord, y: LocalValueRecord)
    requires Pairwise(records, Distinct) && x in records && y in records && x.id != y.id
    ensures Distinct(x, y) && Distinct(y, x)
  {
    var i :| 0 <= i < |records| && records[i] == x;
    var j :| 0 <= j < |records| && records[j] == y;
    assert i < j || j < i;
  }

  lemma {:induction false} SplitKeepsArchived(
      records: Records, targets: seq<ValueRange>, nextId: nat, n: nat, r: LocalValueRecord)
    requires DistinctIds(records) && Assign(records, targets).Some? && n <= |records|
    requires r in records[..n] && r.status == Archived
    ensures r in SplitAssigned(records[..n], Assign(records, targets).value, nextId).records
  {
    hide Assign, SplitAssigned;
    SplitStep(records, Assign(records, targets).value, nextId, n - 1);
    if r in records[..n - 1] {
      SplitKeepsArchived(records, targets, nextId, n - 1, r);
    } else {
      assert r == records[n - 1];
      AssignedFit(records, targets, n - 1);
    }
  }

  /** The marks of a bundle just built, on one record of its split. */
  lemma {:induction false} SplitMarks(
      w: Wallet, targets: seq<ValueRange>, assignments: Assignments, b: Built, r: LocalValueRecord)
    requires RecordsOk(w.address, w.nextId, w.receipts.Keys, w.records) && Assign(w.records, targets) == Some(assignments)
    requires b == SplitAssigned(w.records, assignments, w.nextId) && r in b.records
    ensures r.id in b.pendingIds ==> r.status != Archived
    ensures r.id in b.outgoingIds ==> r.value in targets
  {
    OwnRecords(w);
    DistinctRecordsHaveDistinctIds(w.records);
    assert w.records[..|w.records|] == w.records;
    SplitIsOk(w.records, w.address, assignments, w.nextId, |w.records|);
    assert FromSplit(w.records, w.address, w.nextId, b.nextId, r);
    NewIdsArePending(w.records, assignments, w.nextId, r.id);
    if r.id in b.outgoingIds {
      OutgoingAreTargets(w.records, targets, assignments, w.nextId, b, |w.records|, r);
    }
  }

  lemma {:induction false} SplitIdRange(records: Records, assignments: Assignments, nextId: nat)
    ensures var b := SplitAssigned(records, assignments, nextId);
            && (forall id :: id in b.pendingIds ==> id < b.nextId)
            && (forall id :: id in b.outgoingIds ==> id in b.pendingIds)
  {
    var b := SplitAssigned(records, assignments, nextId);
    forall id | id in b.pendingIds ensures id < b.nextId {
      NewIdsArePending(records, assignments, nextId, id);
    }
    forall id | id in b.outgoingIds ensures id in b.pendingIds {
      NewIdsArePending(records, assignments, nextId, id);
    }
  }

  /** What building does, in terms of the split. */
  lemma {:induction false} BuildShape(
      w: Wallet, publicKey: PublicKey, signer: Address, txs: seq<OffChainTx>, seqNo: positive, options: BundleOptions)
    requires BuildBundle(w, publicKey, signer, txs, seqNo, options).Ok?
    ensures w.pending == map[] && NonOverlapping(txs) && Assign(w.records, SortRanges(TxValues(txs))).Some?
    ensures var (w', context) := BuildBundle(w, publicKey, signer, txs, seqNo, options).value;
            var b := SplitAssigned(w.records, Assign(w.records, SortRanges(TxValues(txs))).value, w.nextId);
            && w' == w.(records := Stored(b.records), pending := map[seqNo := context], nextId := b.nextId)
            && context.seqNo == seqNo && context.sidecar.sender == w.address && context.sidecar.txs == txs
            && context.pendingIds == b.pendingIds && context.outgoingIds == b.outgoingIds
  {
  }

  lemma {:induction false} ContextOfSplit(
      w: Wallet, targets: seq<ValueRange>, assignments: Assignments, b: Built, context: PendingBundleContext)
    requires RecordsOk(w.address, w.nextId, w.receipts.Keys, w.records) && Assign(w.records, targets) == Some(assignments)
    requires b == SplitAssigned(w.records, assignments, w.nextId)
    requires context.pendingIds == b.pendingIds && context.outgoingIds == b.outgoingIds
    requires NonOverlapping(context.sidecar.txs) && targets == SortRanges(TxValues(context.sidecar.txs))
    requires context.seqNo !in w.receipts
    ensures ContextOk(context, Stored(b.records), b.nextId, w.receipts.Keys)
  {
    StoredFacts(b.records);
    SortRangesFacts(TxValues(context.sidecar.txs));
    SplitIdRange(w.records, assignments, w.nextId);
    forall r | r in b.records ensures MarksOk(context, r) {
      SplitMarks(w, targets, assignments, b, r);
    }
  }

  lemma BuiltContextOk(
      w: Wallet, publicKey: PublicKey, signer: Address, txs: seq<OffChainTx>, seqNo: positive, options: BundleOptions)
    requires WalletOk(w) && seqNo !in w.receipts && BuildBundle(w, publicKey, signer, txs, seqNo, options).Ok?
    ensures var (w', context) := BuildBundle(w, publicKey, signer, txs, seqNo, options).value;
            ContextOk(context, w'.records, w'.nextId, w.receipts.Keys)
  {
    var targets := SortRanges(TxValues(txs));
    var assignments := Assign(w.records, targets).value;
    var context := BuildBundle(w, publicKey, signer, txs, seqNo, options).value.1;
    BuildShape(w, publicKey, signer, txs, seqNo, options);
    ContextOfSplit(w, targets, assignments, SplitAssigned(w.records, assignments, w.nextId), context);
  }

  /** Building a bundle under a sequence number that has no receipt yet keeps the wallet well and every point where it is. */
  lemma BuildKeeps(
      w: Wallet, publicKey: PublicKey, signer: Address, txs: seq<OffChainTx>, seqNo: positive, options: BundleOptions,
      accepted: set<TransferPackage>, p: nat)
    requires WalletOk(w) && seqNo !in w.receipts && BuildBundle(w, publicKey, signer, txs, seqNo, options).Ok?
    ensures var w' := BuildBundle(w, publicKey, signer, txs, seqNo, options).value.0;
            && WalletOk(w')
            && KeepsArchived(w.records, w'.records)
            && HeldBy(accepted, w'.records, p) == HeldBy(accepted, w.records, p)
  {
    hide Assign, ContextOk, HeldBy, PayloadFor, RecordOk, SplitAssigned, SplitError;
    var targets := SortRanges(TxValues(txs));
    var b := SplitAssigned(w.records, Assign(w.records, targets).value, w.nextId);
    DistinctRecordsHaveDistinctIds(w.records);
    assert w.records[..|w.records|] == w.records;
    SplitRecordsOk(w, Assign(w.records, targets).value);
    StoredRecordsOk(w.address, b.nextId, w.receipts.Keys, b.records);
    BuiltContextOk(w, publicKey, signer, txs, seqNo, options);
    SplitHeld(accepted, w.records, targets, w.nextId, p);
    StoredHeld(accepted, b.records, p);
    StoredFacts(b.records);
    forall r | r in w.records && r.status == Archived ensures r in b.records {
      SplitKeepsArchived(w.records, targets, w.nextId, |w.records|, r);
    }
  }

  // ----- Confirming keeps the wallet well

  lemma {:induction false} TrimKeepsTop(w: Witness, recipient: Address, target: ValueRange)
    ensures var t := TrimForRecipient(w, recipient, target); t.owner == w.owner && t.chain == w.chain && t.value == w.value
  {
  }

  /** Every accepted package of this wallet was sent by a bundle whose receipt it has. */
  ghost predicate SentBefore(address: Address, receipts: set<nat>, accepted: set<TransferPackage>) {
    forall package :: package in accepted && package.history.owner == address && package.history.chain != [] ==>
      package.history.chain[0].receipt.seqNo in receipts
  }

  lemma SettledRecordOk(w: Wallet, context: PendingBundleContext, unit: ConfirmedUnit, r: LocalValueRecord, nextId: nat)
    requires RecordOk(w.address, w.nextId, w.receipts.Keys, r) && MarksOk(context, r) && w.nextId <= nextId
    requires NonOverlapping(context.sidecar.txs) && unit.sidecar == context.sidecar
    ensures RecordOk(w.address, nextId, w.receipts.Keys + {unit.receipt.seqNo as nat},
                     Settle(r, unit, context.pendingIds, context.outgoingIds))
  {
  }

  lemma SettledHeld(
      w: Wallet, context: PendingBundleContext, unit: ConfirmedUnit, r: LocalValueRecord,
      accepted: set<TransferPackage>, p: nat)
    requires RecordOk(w.address, w.nextId, w.receipts.Keys, r) && MarksOk(context, r)
    requires unit.receipt.seqNo !in w.receipts && SentBefore(w.address, w.receipts.Keys, accepted)
    ensures Held(accepted, Settle(r, unit, context.pendingIds, context.outgoingIds), p) == Held(accepted, r, p)
  {
    var settled := Settle(r, unit, context.pendingIds, context.outgoingIds);
    if r.status != Archived && settled.status == Archived && Delivered(accepted, settled) {
      TrimKeepsTop(settled.history, TxOf(settled).value.recipient, settled.value);
      assert false;
    }
  }

  lemma TwoHoldersOverlap(accepted: set<TransferPackage>, records: Records, i: nat, j: nat)
    requires i < j < |records| && records[i].status != Archived && records[j].status != Archived
    requires records[i].value == records[j].value
    ensures HeldBy(accepted, records, records[i].value.begin) >= 2
  {
    SumAtLeastTwo(Holder(accepted, records[i].value.begin), records, i, j);
  }

  lemma SettledDistinct(
      w: Wallet, context: PendingBundleContext, unit: ConfirmedUnit, accepted: set<TransferPackage>, i: nat, j: nat)
    requires i < j < |w.records| && Pairwise(w.records, Distinct)
    requires RecordOk(w.address, w.nextId, w.receipts.Keys, w.records[i]) && MarksOk(context, w.records[i])
    requires RecordOk(w.address, w.nextId, w.receipts.Keys, w.records[j]) && MarksOk(context, w.records[j])
    requires unit.receipt.seqNo !in w.receipts && forall p :: HeldBy(accepted, w.records, p) <= 1
    ensures var f := Settler(unit, context.pendingIds, context.outgoingIds);
            Distinct(f(w.records[i]), f(w.records[j])) && Distinct(f(w.records[j]), f(w.records[i]))
  {
    assert Distinct(w.records[i], w.records[j]);
    if w.records[i].status != Archived && w.records[j].status != Archived && w.records[i].value == w.records[j].value {
      TwoHoldersOverlap(accepted, w.records, i, j);
      assert false;
    }
  }

  lemma SettledRecordsOk(
      w: Wallet, context: PendingBundleContext, unit: ConfirmedUnit, accepted: set<TransferPackage>, nextId: nat)
    requires RecordsOk(w.address, w.nextId, w.receipts.Keys, w.records) && ContextOk(context, w.records, w.nextId, w.receipts.Keys)
    requires unit.sidecar == context.sidecar && unit.receipt.seqNo == context.seqNo && w.nextId <= nextId
    requires forall p :: HeldBy(accepted, w.records, p) <= 1
    ensures RecordsOk(w.address, nextId, w.receipts.Keys + {unit.receipt.seqNo as nat},
                      MapSeq(Settler(unit, context.pendingIds, context.outgoingIds), w.records))
  {
    var f := Settler(unit, context.pendingIds, context.outgoingIds);
    var settled := MapSeq(f, w.records);
    forall r | r in settled ensures RecordOk(w.address, nextId, w.receipts.Keys + {unit.receipt.seqNo as nat}, r) {
      var k :| 0 <= k < |settled| && settled[k] == r;
      assert w.records[k] in w.records;
      SettledRecordOk(w, context, unit, w.records[k], nextId);
    }
    forall i, j | 0 <= i < j < |settled| ensures Distinct(settled[i], settled[j]) && Distinct(settled[j], settled[i]) {
      assert w.records[i] in w.records && w.records[j] in w.records;
      SettledDistinct(w, context, unit, accepted, i, j);
    }
  }

  lemma SettledSum(
      w: Wallet, context: PendingBundleContext, unit: ConfirmedUnit, accepted: set<TransferPackage>, p: nat)
    requires RecordsOk(w.address, w.nextId, w.receipts.Keys, w.records) && ContextOk(context, w.records, w.nextId, w.receipts.Keys)
    requires unit.receipt.seqNo == context.seqNo && SentBefore(w.address, w.receipts.Keys, accepted)
    ensures HeldBy(accepted, MapSeq(Settler(unit, context.pendingIds, context.outgoingIds), w.records), p)
         == HeldBy(accepted, w.records, p)
  {
    var settled := MapSeq(Settler(unit, context.pendingIds, context.outgoingIds), w.records);
    forall k | 0 <= k < |settled| ensures Holder(accepted, p)(settled[k]) == Holder(accepted, p)(w.records[k]) {
      assert w.records[k] in w.records;
      SettledHeld(w, context, unit, w.records[k], accepted, p);
    }
    SumAgrees(Holder(accepted, p), Holder(accepted, p), settled, w.records);
  }

  lemma SettledKeepsArchived(records: Records, unit: ConfirmedUnit, pendingIds: seq<nat>, outgoingIds: seq<nat>)
    ensures KeepsArchived(records, MapSeq(Settler(unit, pendingIds, outgoingIds), records))
  {
    var settled := MapSeq(Settler(unit, pendingIds, outgoingIds), records);
    forall r | r in records && r.status == Archived ensures r in settled {
      var k :| 0 <= k < |records| && records[k] == r;
      assert settled[k] == r;
    }
  }

  lemma {:induction false} ConfirmGrowsIds(
      records: Records, address: Address, unit: ConfirmedUnit, pendingIds: seq<nat>, outgoingIds: seq<nat>, nextId: nat)
    requires ConfirmRecords(records, address, unit, [], pendingIds, outgoingIds, nextId).Ok?
    ensures nextId <= ConfirmRecords(records, address, unit, [], pendingIds, outgoingIds, nextId).value.nextId
  {
    if records != [] {
      ConfirmGrowsIds(records[..|records| - 1], address, unit, pendingIds, outgoingIds, nextId);
    }
  }

  /** What confirming does, in terms of settled records. */
  lemma ConfirmShape(w: Wallet, receipt: Receipt)
    requires OnReceiptConfirmed(w, receipt).Ok?
    ensures receipt.seqNo in w.pending
    ensures var w', unit := OnReceiptConfirmed(w, receipt).value.0, OnReceiptConfirmed(w, receipt).value.1;
            var context := w.pending[receipt.seqNo];
            && unit == ConfirmedUnit(receipt, context.sidecar)
            && w'.records == Stored(MapSeq(Settler(unit, context.pendingIds, context.outgoingIds), w.records))
            && w'.nextId >= w.nextId
            && w'.receipts == w.receipts[receipt.seqNo := receipt] && w'.units == w.units[receipt.seqNo := unit]
            && w'.pending == w.pending - {receipt.seqNo} && w'.address == w.address
            && w'.accepted == w.accepted && w'.headers == w.headers
  {
    var context := w.pending[receipt.seqNo];
    var unit := ConfirmedUnit(receipt, context.sidecar);
    ConfirmIsSettle(w.records, w.address, unit, context.pendingIds, context.outgoingIds, w.nextId);
    ConfirmGrowsIds(w.records, w.address, unit, context.pendingIds, context.outgoingIds, w.nextId);
  }

  /** Confirming a receipt keeps the wallet well and every point where it is, held until the recipient accepts. */
  lemma ConfirmKeeps(w: Wallet, receipt: Receipt, accepted: set<TransferPackage>, p: nat)
    requires WalletOk(w) && OnReceiptConfirmed(w, receipt).Ok?
    requires (forall q :: HeldBy(accepted, w.records, q) <= 1) && SentBefore(w.address, w.receipts.Keys, accepted)
    ensures var w' := OnReceiptConfirmed(w, receipt).value.0;
            && WalletOk(w')
            && KeepsArchived(w.records, w'.records)
            && HeldBy(accepted, w'.records, p) == HeldBy(accepted, w.records, p)
  {
    ConfirmShape(w, receipt);
    var (w', unit) := OnReceiptConfirmed(w, receipt).value;
    var context := w.pending[receipt.seqNo];
    var settled := MapSeq(Settler(unit, context.pendingIds, context.outgoingIds), w.records);
    SettledRecordsOk(w, context, unit, accepted, w'.nextId);
    assert w'.receipts.Keys == w.receipts.Keys + {receipt.seqNo as nat};
    StoredRecordsOk(w.address, w'.nextId, w'.receipts.Keys, settled);
    SettledSum(w, context, unit, accepted, p);
    StoredHeld(accepted, settled, p);
    SettledKeepsArchived(w.records, unit, context.pendingIds, context.outgoingIds);
    StoredFacts(settled);
  }

  // ----- Missing receipts and rollback

  function Marker(pendingIds: seq<nat>): LocalValueRecord -> LocalValueRecord {
    (r: LocalValueRecord) => if r.id in pendingIds && r.status == PendingBundle then r.(status := ReceiptMissing) else r
  }

  function Releaser(pendingIds: seq<nat>): LocalValueRecord -> LocalValueRecord {
    (r: LocalValueRecord) => if r.id in pendingIds then r.(status := VerifiedSpendable) else r
  }

  lemma {:induction false} MarkMissingIsMap(records: Records, pendingIds: seq<nat>)
    ensures MarkMissing(records, pendingIds) == MapSeq(Marker(pendingIds), records)
  {
    if records != [] {
      var init, last := records[..|records| - 1], records[|records| - 1];
      MarkMissingIsMap(init, pendingIds);
      MapLast(Marker(pendingIds), init, last);
      assert records == init + [last];
    }
  }

  lemma {:induction false} ReleaseIsMap(records: Records, pendingIds: seq<nat>)
    ensures Release(records, pendingIds) == MapSeq(Releaser(pendingIds), records)
  {
    if records != [] {
      var init, last := records[..|records| - 1], records[|records| - 1];
      ReleaseIsMap(init, pendingIds);
      MapLast(Releaser(pendingIds), init, last);
      assert records == init + [last];
    }
  }

  /** The change only moves a live record between live statuses. */
  ghost predicate LiveChange(r: LocalValueRecord, after: LocalValueRecord) {
    && after.id == r.id && after.value == r.value && after.history == r.history && after.acquiredAt == r.acquiredAt
    && (r.status == Archived <==> after.status == Archived)
  }

  lemma LiveChangesKeep(
      address: Address, nextId: nat, receipts: set<nat>, records: Records, f: LocalValueRecord -> LocalValueRecord,
      accepted: set<TransferPackage>, p: nat)
    requires RecordsOk(address, nextId, receipts, records) && forall r :: r in records ==> LiveChange(r, f(r))
    ensures RecordsOk(address, nextId, receipts, Stored(MapSeq(f, records)))
    ensures HeldBy(accepted, Stored(MapSeq(f, records)), p) == HeldBy(accepted, records, p)
  {
    var changed := MapSeq(f, records);
    forall r | r in changed ensures RecordOk(address, nextId, receipts, r) {
      var k :| 0 <= k < |changed| && changed[k] == r;
      assert records[k] in records && RecordOk(address, nextId, receipts, records[k]) && LiveChange(records[k], r);
    }
    forall i, j | 0 <= i < j < |changed| ensures Distinct(changed[i], changed[j]) && Distinct(changed[j], changed[i]) {
      assert records[i] in records && records[j] in records && Distinct(records[i], records[j]);
    }
    StoredRecordsOk(address, nextId, receipts, changed);
    forall k | 0 <= k < |changed| ensures Holder(accepted, p)(changed[k]) == Holder(accepted, p)(records[k]) {
      assert records[k] in records;
    }
    SumAgrees(Holder(accepted, p), Holder(accepted, p), changed, records);
    StoredHeld(accepted, changed, p);
  }

  lemma ChangedMembers(
      records: Records, f: LocalValueRecord -> LocalValueRecord, x: LocalValueRecord) returns (r: LocalValueRecord)
    requires x in Stored(MapSeq(f, records))
    ensures r in records && x == f(r)
  {
    StoredFacts(MapSeq(f, records));
    var k :| 0 <= k < |records| && MapSeq(f, records)[k] == x;
    r := records[k];
  }

  lemma UnchangedStay(records: Records, f: LocalValueRecord -> LocalValueRecord)
    requires forall r :: r in records && r.status == Archived ==> f(r) == r
    ensures KeepsArchived(records, Stored(MapSeq(f, records)))
  {
    StoredFacts(MapSeq(f, records));
    forall r | r in records && r.status == Archived ensures r in MapSeq(f, records) {
      var k :| 0 <= k < |records| && records[k] == r;
      assert MapSeq(f, records)[k] == r;
    }
  }

  /** Marking a receipt missing keeps the wallet well and every point where it is. */
  lemma MarkKeeps(w: Wallet, seqNo: nat, accepted: set<TransferPackage>, p: nat)
    requires WalletOk(w) && MarkReceiptMissing(w, seqNo).Ok?
    ensures var w' := MarkReceiptMissing(w, seqNo).value;
            && WalletOk(w') && KeepsArchived(w.records, w'.records)
            && HeldBy(accepted, w'.records, p) == HeldBy(accepted, w.records, p)
  {
    var context, w' := w.pending[seqNo], MarkReceiptMissing(w, seqNo).value;
    var f := Marker(context.pendingIds);
    MarkMissingIsMap(w.records, context.pendingIds);
    LiveChangesKeep(w.address, w.nextId, w.receipts.Keys, w.records, f, accepted, p);
    UnchangedStay(w.records, f);
    forall x | x in w'.records ensures MarksOk(context, x) {
      var r := ChangedMembers(w.records, f, x);
      assert MarksOk(context, r);
    }
  }

  /** Rolling a bundle back keeps the wallet well and every point where it is. */
  lemma RollbackKeeps(w: Wallet, seqNo: nat, accepted: set<TransferPackage>, p: nat)
    requires WalletOk(w) && RollbackPendingBundle(w, seqNo).Ok?
    ensures var w' := RollbackPendingBundle(w, seqNo).value;
            && WalletOk(w') && KeepsArchived(w.records, w'.records) && AllSpendable(w'.records, w.pending[seqNo].pendingIds)
            && HeldBy(accepted, w'.records, p) == HeldBy(accepted, w.records, p)
  {
    hide AllSpendable;
    ReleasedAreSpendable(w.records, w.pending[seqNo].pendingIds);
    var context := w.pending[seqNo];
    var f := Releaser(context.pendingIds);
    ReleaseIsMap(w.records, context.pendingIds);
    forall r | r in w.records ensures LiveChange(r, f(r)) {
      assert MarksOk(context, r);
    }
    LiveChangesKeep(w.address, w.nextId, w.receipts.Keys, w.records, f, accepted, p);
    UnchangedStay(w.records, f);
  }

  // ----- Receiving

  /** The record a received package becomes. */
  function ReceivedRecord(w: Wallet, package: TransferPackage): LocalValueRecord
    requires package.history.chain != []
  {
    LocalValueRecord(w.nextId, package.value, Rehydrate(w, AcceptedWitness(package, w.address)), VerifiedSpendable,
                     package.history.chain[0].receipt.header.height)
  }

  lemma ReceiveShape(w: Wallet, package: TransferPackage, context: ValidationContext)
    requires ReceiveTransfer(w, package, context).Ok?
    ensures package !in w.accepted && Accepts(context, package.tx, package.value, package.history, w.address)
    ensures package.history.chain != []
    ensures ReceiveTransfer(w, package, context).value
         == w.(records := Stored(w.records + [ReceivedRecord(w, package)]), accepted := w.accepted + {package}, nextId := w.nextId + 1)
  {
  }

  lemma AppendRecordsOk(address: Address, nextId: nat, receipts: set<nat>, records: Records, r: LocalValueRecord)
    requires RecordsOk(address, nextId, receipts, records)
    requires r.id == nextId && r.status == VerifiedSpendable && r.history.owner == address
    ensures RecordsOk(address, nextId + 1, receipts, records + [r])
  {
    var more := records + [r];
    forall x | x in more ensures RecordOk(address, nextId + 1, receipts, x) {
      assert x in records ==> RecordOk(address, nextId, receipts, x);
    }
    forall i, j | 0 <= i < j < |more| ensures Distinct(more[i], more[j]) && Distinct(more[j], more[i]) {
      assert records[i] in records && RecordOk(address, nextId, receipts, records[i]);
      assert j < |records| ==> Distinct(records[i], records[j]);
    }
  }

  lemma AppendHeld(accepted: set<TransferPackage>, records: Records, r: LocalValueRecord, p: nat)
    requires r.status != Archived
    ensures HeldBy(accepted, Stored(records + [r]), p) == HeldBy(accepted, records, p) + if r.value.Has(p) then 1 else 0
  {
    SumConcat(Holder(accepted, p), records, [r]);
    SumOne(Holder(accepted, p), r);
    StoredHeld(accepted, records + [r], p);
  }

  /** One more spendable record keeps the wallet well, and adds its points. */
  lemma AppendKeeps(w: Wallet, r: LocalValueRecord, accepted: set<TransferPackage>, p: nat)
    requires WalletOk(w) && r.id == w.nextId && r.status == VerifiedSpendable && r.history.owner == w.address
    ensures var w' := w.(records := Stored(w.records + [r]), nextId := w.nextId + 1);
            && WalletOk(w') && KeepsArchived(w.records, w'.records)
            && HeldBy(accepted, w'.records, p) == HeldBy(accepted, w.records, p) + if r.value.Has(p) then 1 else 0
  {
    var more := w.records + [r];
    AppendRecordsOk(w.address, w.nextId, w.receipts.Keys, w.records, r);
    StoredRecordsOk(w.address, w.nextId + 1, w.receipts.Keys, more);
    StoredFacts(more);
    forall s | s in w.pending ensures ContextOk(w.pending[s], Stored(more), w.nextId + 1, w.receipts.Keys) {
      assert ContextOk(w.pending[s], w.records, w.nextId, w.receipts.Keys);
    }
    AppendHeld(accepted, w.records, r, p);
  }

  // ----- Bundles whose ranges do not overlap

  lemma {:induction false} AscendingOnce(ranges: seq<ValueRange>, v: ValueRange)
    requires Ascending(ranges)
    ensures multiset(ranges)[v] <= 1
  {
    if ranges != [] {
      var init, last := ranges[..|ranges| - 1], ranges[|ranges| - 1];
      assert ranges == init + [last];
      AscendingOnce(init, v);
      forall k | 0 <= k < |init| ensures init[k] != last {
        assert ranges[k] == init[k];
      }
    }
  }

  lemma {:induction false} SharedValueCountsTwice(txs: seq<OffChainTx>, i: nat, j: nat, v: ValueRange)
    requires i < j < |txs| && v in txs[i].values && v in txs[j].values
    ensures multiset(TxValues(txs))[v] >= 2
  {
    var init, last := txs[..|txs| - 1], txs[|txs| - 1];
    if j < |txs| - 1 {
      SharedValueCountsTwice(init, i, j, v);
    } else {
      TxValuesHold(init, v);
      assert v in init[i].values;
      assert v in multiset(TxValues(init)) && v in multiset(last.values);
    }
  }

  lemma {:induction false} FirstTxAt(txs: seq<OffChainTx>, v: ValueRange) returns (i: nat)
    requires FirstTxWith(txs, v).Some?
    ensures i < |txs| && FirstTxWith(txs, v) == Some(txs[i]) && v in txs[i].values
  {
    i := 0;
    if v !in txs[0].values {
      i := FirstTxAt(txs[1..], v);
      i := i + 1;
    }
  }

  lemma {:induction false} SomeTxHas(txs: seq<OffChainTx>, i: nat, v: ValueRange)
    requires i < |txs| && v in txs[i].values
    ensures FirstTxWith(txs, v).Some?
  {
    if i > 0 {
      SomeTxHas(txs[1..], i - 1, v);
    }
  }

  /** The one transfer of the bundle that covers a sent range is the transfer that names it. */
  lemma {:induction false} CoveringTxIsFirst(txs: seq<OffChainTx>, tx: OffChainTx, v: ValueRange)
    requires NonOverlapping(txs) && tx in txs && TxCovers(tx, v) && v in TxValues(txs)
    ensures FirstTxWith(txs, v) == Some(tx)
  {
    var i :| 0 <= i < |txs| && txs[i] == tx;
    var j :| 0 <= j < |tx.values| && tx.values[j].Contains(v);
    TxValuesHold(txs, tx.values[j]);
    assert tx.values[j] in txs[i].values;
    IntersectingIsEqual(txs, tx.values[j], v);
    SomeTxHas(txs, i, v);
    var k := FirstTxAt(txs, v);
    OneTxHas(txs, i, k, v);
  }

  lemma {:induction false} OneTxHas(txs: seq<OffChainTx>, i: nat, k: nat, v: ValueRange)
    requires i < |txs| && k < |txs| && v in txs[i].values && v in txs[k].values && multiset(TxValues(txs))[v] == 1
    ensures i == k
  {
    if k < i {
      SharedValueCountsTwice(txs, k, i, v);
    } else if i < k {
      SharedValueCountsTwice(txs, i, k, v);
    }
  }

  /** Intersecting ranges of a non-overlapping bundle are the same range. */
  lemma {:induction false} IntersectingIsEqual(txs: seq<OffChainTx>, x: ValueRange, v: ValueRange)
    requires NonOverlapping(txs) && x in TxValues(txs) && v in TxValues(txs) && x.Intersects(v)
    ensures x == v && multiset(TxValues(txs))[v] == 1
  {
    var sorted := SortRanges(TxValues(txs));
    SortRangesFacts(TxValues(txs));
    NeighboursDecideAscending(sorted);
    var a :| 0 <= a < |sorted| && sorted[a] == x;
    var b :| 0 <= b < |sorted| && sorted[b] == v;
    AscendingOnce(sorted, v);
    assert v in multiset(TxValues(txs));
  }

  /** Beside the transfer that names a range, a non-overlapping bundle has nothing on it. */
  lemma NothingBeside(txs: seq<OffChainTx>, tx: OffChainTx, v: ValueRange)
    requires NonOverlapping(txs) && tx in txs && v in tx.values
    ensures !ConflictsBeside(txs, tx, v)
  {
    var k :| 0 <= k < |txs| && txs[k] == tx;
    TxValuesHold(txs, v);
    assert v in txs[k].values;
    if i, j :| 0 <= i < |txs| && 0 <= j < |txs[i].values| && txs[i].values[j].Intersects(v) &&
               !(txs[i] == tx && txs[i].values[j].Contains(v)) {
      TxValuesHold(txs, txs[i].values[j]);
      IntersectingIsEqual(txs, txs[i].values[j], v);
      OneTxHas(txs, i, k, v);
    }
  }

  lemma {:induction false} CountAtMostOne(txs: seq<OffChainTx>, tx: OffChainTx)
    requires forall i, j :: 0 <= i < j < |txs| && txs[i] == tx ==> txs[j] != tx
    ensures CountTx(txs, tx) <= 1
  {
    if txs != [] {
      var last := |txs| - 1;
      CountAtMostOne(txs[..last], tx);
      if txs[last] == tx {
        CountedIsMember(txs[..last], tx);
      }
    }
  }

  /** Every transfer of a non-overlapping bundle occurs once. */
  lemma {:induction false} CountedOnce(txs: seq<OffChainTx>, tx: OffChainTx)
    requires NonOverlapping(txs) && tx in txs
    ensures CountTx(txs, tx) == 1
  {
    var v := tx.values[0];
    forall i, j | 0 <= i < j < |txs| && txs[i] == tx ensures txs[j] != tx {
      if txs[j] == tx {
        TxValuesHold(txs, v);
        assert v in txs[i].values;
        IntersectingIsEqual(txs, v, v);
        OneTxHas(txs, i, j, v);
      }
    }
    CountAtMostOne(txs, tx);
    CountedIsMember(txs, tx);
  }
}

/** What becomes of a bundle that never gets through: its records are released, and nothing stays locked for good. */
module Recoveries {
  import opened Prelude
  import opened Sorting
  import opened Values
  import opened Types
  import opened ClaimSets
  import opened Validation
  import opened Selection
  import opened Partitions
  import opened Wallets
  import opened TwoPhase
  import opened WalletInvariants
  import opened Conservation

  // ----- Exactly which records change

  /** The record as rolling back leaves it. */
  function Released(ids: seq<nat>, r: LocalValueRecord): LocalValueRecord {
    if r.id in ids then r.(status := VerifiedSpendable) else r
  }

  /** The record as a missing receipt leaves it. */
  function Marked(ids: seq<nat>, r: LocalValueRecord): LocalValueRecord {
    if r.id in ids && r.status == PendingBundle then r.(status := ReceiptMissing) else r
  }

  /** One table is the other with each record changed as told, up to the order. */
  ghost predicate ChangedInto(before: Records, after: Records, f: LocalValueRecord -> LocalValueRecord) {
    && |after| == |before|
    && (forall r :: r in before ==> f(r) in after)
    && forall x :: x in after ==> exists r :: r in before && x == f(r)
  }

  /** Rolling back makes every record of the bundle spendable, changes no other record, and forgets the bundle. */
  lemma {:induction false} RollbackReleases(w: Wallet, seqNo: nat)
    ensures RollbackPendingBundle(w, seqNo).Ok? <==> seqNo in w.pending
    ensures seqNo in w.pending ==>
              var after := RollbackPendingBundle(w, seqNo).value;
              && after == w.(records := after.records, pending := w.pending - {seqNo})
              && ChangedInto(w.records, after.records, r => Released(w.pending[seqNo].pendingIds, r))
  {
    if seqNo in w.pending {
      hide Release, MapSeq, Stored, Sort, ChangedInto;
      var ids := w.pending[seqNo].pendingIds;
      ReleaseIsMap(w.records, ids);
      MapMembers(w.records, Releaser(ids), r => Released(ids, r));
    }
  }

  /** Marking a receipt missing marks the bundle's pending records, changes no other record, and keeps the bundle. */
  lemma {:induction false} MissMarks(w: Wallet, seqNo: nat)
    ensures MarkReceiptMissing(w, seqNo).Ok? <==> seqNo in w.pending
    ensures seqNo in w.pending ==>
              var after := MarkReceiptMissing(w, seqNo).value;
              && after == w.(records := after.records)
              && ChangedInto(w.records, after.records, r => Marked(w.pending[seqNo].pendingIds, r))
  {
    if seqNo in w.pending {
      hide MarkMissing, MapSeq, Stored, Sort, ChangedInto;
      var ids := w.pending[seqNo].pendingIds;
      MarkMissingIsMap(w.records, ids);
      MapMembers(w.records, Marker(ids), r => Marked(ids, r));
    }
  }

  lemma {:induction false} MapMembers(
      records: Records, f: LocalValueRecord -> LocalValueRecord, g: LocalValueRecord -> LocalValueRecord)
    requires forall r :: f(r) == g(r)
    ensures ChangedInto(records, Stored(MapSeq(f, records)), g)
  {
    var changed := MapSeq(f, records);
    SortPermutes(changed, RecordLe);
    StoredFacts(changed);
    forall r | r in records ensures g(r) in changed {
      var k :| 0 <= k < |records| && records[k] == r;
      assert changed[k] == f(r) == g(r);
    }
    forall x | x in changed ensures exists r :: r in records && x == g(r) {
      var k :| 0 <= k < |changed| && changed[k] == x;
      assert records[k] in records && x == f(records[k]) == g(records[k]);
    }
  }

  // ----- Nothing is locked without a pending bundle

  /** A record that is neither spendable nor archived belongs to a bundle that is still pending. */
  ghost predicate Explained(pending: map<nat, PendingBundleContext>, r: LocalValueRecord) {
    r.status == VerifiedSpendable || r.status == Archived || exists s :: s in pending && r.id in pending[s].pendingIds
  }

  ghost predicate StatusesOk(w: Wallet) {
    forall r :: r in w.records ==> Explained(w.pending, r)
  }

  lemma {:induction false} RollbackExplains(w: Wallet, seqNo: nat)
    requires StatusesOk(w) && WalletOk(w) && seqNo in w.pending
    ensures StatusesOk(RollbackPendingBundle(w, seqNo).value) && RollbackPendingBundle(w, seqNo).value.pending == map[]
  {
    hide ContextOk, RecordsOk;
    RollbackReleases(w, seqNo);
    var after := RollbackPendingBundle(w, seqNo).value;
    assert after.pending == map[];
    forall x | x in after.records ensures Explained(after.pending, x) {
      var r :| r in w.records && x == Released(w.pending[seqNo].pendingIds, r);
      assert Explained(w.pending, r);
    }
  }

  lemma {:induction false} MissExplains(w: Wallet, seqNo: nat)
    requires StatusesOk(w) && seqNo in w.pending
    ensures StatusesOk(MarkReceiptMissing(w, seqNo).value)
  {
    MissMarks(w, seqNo);
    var after := MarkReceiptMissing(w, seqNo).value;
    forall x | x in after.records ensures Explained(after.pending, x) {
      var r :| r in w.records && x == Marked(w.pending[seqNo].pendingIds, r);
      assert Explained(w.pending, r);
    }
  }

  lemma {:induction false} ConfirmExplains(w: Wallet, receipt: Receipt)
    requires StatusesOk(w) && WalletOk(w) && OnReceiptConfirmed(w, receipt).Ok?
    ensures StatusesOk(OnReceiptConfirmed(w, receipt).value.0)
  {
    hide ContextOk, RecordsOk, OnReceiptConfirmed;
    ConfirmShape(w, receipt);
    var after, context := OnReceiptConfirmed(w, receipt).value.0, w.pending[receipt.seqNo];
    var f := Settler(ConfirmedUnit(receipt, context.sidecar), context.pendingIds, context.outgoingIds);
    forall x | x in after.records ensures Explained(after.pending, x) {
      var r := ChangedMembers(w.records, f, x);
      assert Explained(w.pending, r);
    }
  }

  lemma {:induction false} SplitExplains(
      w: Wallet, assignments: Assignments, b: Built, seqNo: nat, context: PendingBundleContext, x: LocalValueRecord)
    requires StatusesOk(w) && w.pending == map[] && RecordsOk(w.address, w.nextId, w.receipts.Keys, w.records)
    requires b == SplitAssigned(w.records, assignments, w.nextId) && x in b.records && context.pendingIds == b.pendingIds
    ensures Explained(map[seqNo := context], x)
  {
    hide RecordsOk, SplitAssigned;
    SplitMembers(w, assignments, b, x);
    NewIdsArePending(w.records, assignments, w.nextId, x.id);
    var pending := map[seqNo := context];
    if x.id < w.nextId {
      assert Explained(w.pending, x);
    } else {
      assert seqNo in pending && x.id in pending[seqNo].pendingIds;
    }
  }

  lemma {:induction false} SplitMembers(w: Wallet, assignments: Assignments, b: Built, x: LocalValueRecord)
    requires RecordsOk(w.address, w.nextId, w.receipts.Keys, w.records)
    requires b == SplitAssigned(w.records, assignments, w.nextId) && x in b.records
    ensures FromSplit(w.records, w.address, w.nextId, b.nextId, x)
  {
    hide SplitAssigned;
    OwnRecords(w);
    DistinctRecordsHaveDistinctIds(w.records);
    SplitIsOk(w.records, w.address, assignments, w.nextId, |w.records|);
    assert w.records[..|w.records|] == w.records;
  }

  lemma {:induction false} BuildExplains(
      w: Wallet, publicKey: PublicKey, signer: Address, txs: seq<OffChainTx>, seqNo: positive, options: BundleOptions)
    requires StatusesOk(w) && WalletOk(w) && BuildBundle(w, publicKey, signer, txs, seqNo, options).Ok?
    ensures StatusesOk(BuildBundle(w, publicKey, signer, txs, seqNo, options).value.0)
  {
    hide Assign, BuildBundle, ContextOk, Explained, NonOverlapping, RecordsOk, SplitAssigned, Sort, SortRanges;
    BuildShape(w, publicKey, signer, txs, seqNo, options);
    var (after, context) := BuildBundle(w, publicKey, signer, txs, seqNo, options).value;
    var assignments := Assign(w.records, SortRanges(TxValues(txs))).value;
    var b := SplitAssigned(w.records, assignments, w.nextId);
    StoredFacts(b.records);
    forall x | x in after.records ensures Explained(after.pending, x) {
      SplitExplains(w, assignments, b, seqNo, context, x);
    }
    assert StatusesOk(after);
  }

  lemma {:induction false} ReceiveExplains(w: Wallet, package: TransferPackage, context: ValidationContext)
    requires StatusesOk(w) && ReceiveTransfer(w, package, context).Ok?
    ensures StatusesOk(ReceiveTransfer(w, package, context).value)
  {
    hide ReceiveTransfer, Rehydrate;
    ReceiveShape(w, package, context);
    StoredFacts(w.records + [ReceivedRecord(w, package)]);
    var after := ReceiveTransfer(w, package, context).value;
    forall x | x in after.records ensures Explained(after.pending, x) {
      if x in w.records {
        assert Explained(w.pending, x);
      }
    }
  }

  lemma {:induction false} GenesisExplained(address: Address, genesisBlockHash: Hash, values: seq<ValueRange>)
    ensures StatusesOk(GenesisWallet(address, genesisBlockHash, values))
  {
    if values != [] {
      var w, value := GenesisWallet(address, genesisBlockHash, values[..|values| - 1]), values[|values| - 1];
      GenesisExplained(address, genesisBlockHash, values[..|values| - 1]);
      var history := Witness(value, w.address, [], GenesisAnchor(w.genesisBlockHash, w.address, value));
      StoredFacts(w.records + [LocalValueRecord(w.nextId, value, history, VerifiedSpendable, 0)]);
      forall x | x in AddGenesisValue(w, value).records ensures Explained(w.pending, x) {
        if x in w.records {
          assert Explained(w.pending, x);
        }
      }
    }
  }

  ghost predicate AllStatusesOk(wallets: seq<Wallet>) {
    forall i {:trigger StatusesOk(wallets[i])} :: 0 <= i < |wallets| ==> StatusesOk(wallets[i])
  }

  lemma {:induction false} GenesisStatuses(genesisBlockHash: Hash, allocations: seq<Allocation>)
    ensures AllStatusesOk(GenesisMarket(genesisBlockHash, allocations).wallets)
  {
    hide StatusesOk;
    var wallets := GenesisMarket(genesisBlockHash, allocations).wallets;
    forall i {:trigger StatusesOk(wallets[i])} | 0 <= i < |wallets| ensures StatusesOk(wallets[i]) {
      GenesisExplained(allocations[i].owner, genesisBlockHash, allocations[i].values);
    }
  }

  lemma {:induction false} WalletStaysExplained(m: Market, step: MarketStep)
    requires step.i < |m.wallets| && WalletAfter(m, step).Some?
    requires WalletOk(m.wallets[step.i]) && StatusesOk(m.wallets[step.i])
    ensures StatusesOk(WalletAfter(m, step).value)
  {
    hide BuildBundle, ContextOk, Explained, OnReceiptConfirmed, ReceiveTransfer, RecordsOk;
    hide MarkReceiptMissing, RollbackPendingBundle, SaveCheckpoint, CheckpointOf;
    var w := m.wallets[step.i];
    match step
    case Build(_, publicKey, signer, txs, seqNo, options) => BuildExplains(w, publicKey, signer, txs, seqNo, options);
    case Confirm(_, receipt) => ConfirmExplains(w, receipt);
    case Miss(_, seqNo) =>
      MissMarks(w, seqNo);
      MissExplains(w, seqNo);
    case Rollback(_, seqNo) =>
      RollbackReleases(w, seqNo);
      RollbackExplains(w, seqNo);
    case Observe(_, header) =>
    case Remember(_, record) =>
    case Send(_, _, _) =>
    case Deliver(_, package, context) => ReceiveExplains(w, package, context);
  }

  /** In every run, a record that is neither spendable nor archived belongs to the bundle its wallet has pending. */
  lemma {:induction false} RunExplains(genesisBlockHash: Hash, allocations: seq<Allocation>, steps: seq<MarketStep>)
    requires DistinctOwners(allocations) && forall q :: GenesisCount(allocations, q) <= 1
    requires RunFresh(GenesisMarket(genesisBlockHash, allocations), steps)
    ensures AllStatusesOk(RunMarket(GenesisMarket(genesisBlockHash, allocations), steps).wallets)
    ensures AllWalletsOk(RunMarket(GenesisMarket(genesisBlockHash, allocations), steps).wallets)
  {
    hide GenesisCount, StatusesOk, TotalHeld, WalletAfter, WalletOk;
    var genesis := GenesisMarket(genesisBlockHash, allocations);
    GenesisInv(genesisBlockHash, allocations);
    RunConserves(genesis, steps);
    if steps == [] {
      GenesisStatuses(genesisBlockHash, allocations);
    } else {
      RunExplains(genesisBlockHash, allocations, steps[..|steps| - 1]);
      StepExplains(RunMarket(genesis, steps[..|steps| - 1]), steps[|steps| - 1]);
    }
  }

  lemma {:induction false} StepExplains(m: Market, step: MarketStep)
    requires AllWalletsOk(m.wallets) && AllStatusesOk(m.wallets)
    ensures AllStatusesOk(StepMarket(m, step).wallets)
  {
    hide MailAfter, StatusesOk, WalletAfter, WalletOk;
    if step.i < |m.wallets| && WalletAfter(m, step).Some? {
      assert WalletOk(m.wallets[step.i]) && StatusesOk(m.wallets[step.i]);
      WalletStaysExplained(m, step);
    }
  }

  // ----- What a roll-back gives back

  /** A measure of ranges that a cut does not change: the size, or whether a point lies inside. */
  ghost predicate Additive(f: ValueRange -> nat) {
    forall x: ValueRange, y: ValueRange, z: ValueRange {:trigger f(x), f(y), f(z)} ::
      x.begin == z.begin && y.begin == x.end + 1 && y.end == z.end ==> f(x) + f(y) == f(z)
  }

  function SizeOf(): ValueRange -> nat {
    (v: ValueRange) => v.Size()
  }

  function OfSegment(f: ValueRange -> nat): Segment -> nat {
    (s: Segment) => f(s.value)
  }

  function LiveMeasure(f: ValueRange -> nat, r: LocalValueRecord): nat {
    if r.status == Archived then 0 else f(r.value)
  }

  function SpendableMeasure(f: ValueRange -> nat, r: LocalValueRecord): nat {
    if r.status == VerifiedSpendable then f(r.value) else 0
  }

  function IfLive(f: ValueRange -> nat): LocalValueRecord -> nat {
    (r: LocalValueRecord) => LiveMeasure(f, r)
  }

  function IfSpendable(f: ValueRange -> nat): LocalValueRecord -> nat {
    (r: LocalValueRecord) => SpendableMeasure(f, r)
  }

  /** What is left of the range from a cursor to the end, if anything. */
  function Rest(f: ValueRange -> nat, cursor: nat, end: nat): nat {
    if cursor <= end then f(Range(cursor, end)) else 0
  }

  lemma RestSplits(f: ValueRange -> nat, cursor: nat, target: ValueRange, end: nat)
    requires Additive(f) && cursor <= target.begin && target.end <= end
    ensures Rest(f, cursor, end) == Sum(OfSegment(f), Gap(cursor, target.begin)) + f(target) + Rest(f, target.end + 1, end)
  {
    var tail: ValueRange := Range(target.begin, end);
    assert f(target) + Rest(f, target.end + 1, end) == f(tail) by {
      if target.end < end {
        var after: ValueRange := Range(target.end + 1, end);
        assert f(target) + f(after) == f(tail);
      }
    }
    if cursor < target.begin {
      var gap: ValueRange := Range(cursor, target.begin - 1);
      var whole: ValueRange := Range(cursor, end);
      assert f(gap) + f(tail) == f(whole);
      SumOne(OfSegment(f), Segment(gap, false));
    }
  }

  lemma {:induction false} SumOfThree<T>(f: T -> nat, a: seq<T>, x: T, b: seq<T>)
    ensures Sum(f, a + [x] + b) == Sum(f, a) + f(x) + Sum(f, b)
  {
    SumConcat(f, a + [x], b);
    SumConcat(f, a, [x]);
    SumOne(f, x);
  }

  lemma {:induction false} SegmentsMeasure(f: ValueRange -> nat, cursor: nat, end: nat, targets: seq<ValueRange>)
    requires Additive(f) && Ascending(targets) && cursor <= end + 1
    requires forall i :: 0 <= i < |targets| ==> cursor <= targets[i].begin && targets[i].end <= end
    ensures Sum(OfSegment(f), SegmentsFrom(cursor, end, targets)) == Rest(f, cursor, end)
    decreases targets
  {
    if targets == [] {
      if cursor <= end {
        SumOne(OfSegment(f), Segment(Range(cursor, end), false));
      }
    } else {
      SegmentsMeasure(f, targets[0].end + 1, end, targets[1..]);
      RestSplits(f, cursor, targets[0], end);
      SumOfThree(OfSegment(f), Gap(cursor, targets[0].begin), Segment(targets[0], true),
                 SegmentsFrom(targets[0].end + 1, end, targets[1..]));
    }
  }

  lemma {:induction false} PiecesMeasure(
      f: ValueRange -> nat, records: Records, targets: seq<ValueRange>, i: nat, firstId: nat)
    requires Additive(f) && DistinctIds(records) && Assign(records, targets).Some? && i < |records|
    ensures PiecesAgree(IfLive(f), records[i], AssignedTo(Assign(records, targets).value, records[i].id), firstId)
  {
    var r, given := records[i], AssignedTo(Assign(records, targets).value, records[i].id);
    AssignedFit(records, targets, i);
    if given == [] {
      SumOne(IfLive(f), r);
    } else {
      var segments := SegmentsOf(r.value, given);
      FittedMeasure(f, r.value, given);
      SumAgrees(IfLive(f), OfSegment(f), PendingSegments(r, segments, firstId), segments);
    }
  }

  lemma FittedMeasure(f: ValueRange -> nat, source: ValueRange, given: seq<ValueRange>)
    requires Additive(f) && AllContained(source, given) && Pairwise(given, Apart) && given != []
    ensures Sum(OfSegment(f), SegmentsOf(source, given)) == f(source)
  {
    ApartFit(source, given);
    SortRangesFacts(given);
    NeighboursDecideAscending(SortRanges(given));
    forall i | 0 <= i < |SortRanges(given)| ensures source.Contains(SortRanges(given)[i]) {
      assert SortRanges(given)[i] in given;
    }
    SegmentsMeasure(f, source.begin, source.end, SortRanges(given));
  }

  /** Splitting keeps every additive measure of the live records. */
  lemma {:induction false} SplitMeasure(f: ValueRange -> nat, records: Records, targets: seq<ValueRange>, nextId: nat)
    requires Additive(f) && DistinctIds(records) && Assign(records, targets).Some?
    ensures Sum(IfLive(f), SplitAssigned(records, Assign(records, targets).value, nextId).records) == Sum(IfLive(f), records)
  {
    hide Additive, Assign, AssignedTo, PiecesAgree, SplitAssigned, Sum;
    var assignments := Assign(records, targets).value;
    forall i, firstId: nat | 0 <= i < |records|
      ensures PiecesAgree(IfLive(f), records[i], AssignedTo(assignments, records[i].id), firstId)
    {
      PiecesMeasure(f, records, targets, i, firstId);
    }
    SplitSum(IfLive(f), records, assignments, nextId, |records|);
    assert records[..|records|] == records;
  }

  lemma {:induction false} ReleaseMeasure(f: ValueRange -> nat, records: Records, ids: seq<nat>)
    requires forall r :: r in records && r.id in ids ==> r.status != Archived
    ensures Sum(IfLive(f), Stored(Release(records, ids))) == Sum(IfLive(f), records)
  {
    ReleaseIsMap(records, ids);
    var released := MapSeq(Releaser(ids), records);
    forall k | 0 <= k < |released| ensures IfLive(f)(released[k]) == IfLive(f)(records[k]) {
      assert records[k] in records;
    }
    SumAgrees(IfLive(f), IfLive(f), released, records);
    SumSort(IfLive(f), released, RecordLe);
  }

  /** No record waits for anything. */
  ghost predicate Settled(records: Records) {
    forall r :: r in records ==> r.status == VerifiedSpendable || r.status == Archived
  }

  lemma {:induction false} SettledMeasure(f: ValueRange -> nat, records: Records)
    requires Settled(records)
    ensures Sum(IfSpendable(f), records) == Sum(IfLive(f), records)
  {
    forall k | 0 <= k < |records| ensures IfSpendable(f)(records[k]) == IfLive(f)(records[k]) {
      assert records[k] in records;
    }
    SumAgrees(IfSpendable(f), IfLive(f), records, records);
  }

  lemma IdleSettles(w: Wallet)
    requires StatusesOk(w) && w.pending == map[]
    ensures Settled(w.records)
  {
    forall r | r in w.records ensures r.status == VerifiedSpendable || r.status == Archived {
      assert Explained(w.pending, r);
    }
  }

  /** Rolling back leaves every record spendable or archived, and everything that was live can be spent. */
  lemma {:induction false} RollbackFrees(w: Wallet, seqNo: nat, f: ValueRange -> nat)
    requires WalletOk(w) && StatusesOk(w) && seqNo in w.pending
    ensures RollbackPendingBundle(w, seqNo).Ok?
    ensures var after := RollbackPendingBundle(w, seqNo).value;
            && after.pending == map[] && Settled(after.records)
            && Sum(IfSpendable(f), after.records) == Sum(IfLive(f), w.records)
  {
    hide IfLive, IfSpendable, RecordsOk, Release, Settled, StatusesOk, Stored, Sum;
    var after := RollbackPendingBundle(w, seqNo).value;
    RollbackExplains(w, seqNo);
    IdleSettles(after);
    PendingIsLive(w, seqNo);
    ReleaseMeasure(f, w.records, w.pending[seqNo].pendingIds);
    SettledMeasure(f, after.records);
  }

  lemma PendingIsLive(w: Wallet, seqNo: nat)
    requires WalletOk(w) && seqNo in w.pending
    ensures forall r :: r in w.records && r.id in w.pending[seqNo].pendingIds ==> r.status != Archived
  {
    hide NonOverlapping, RecordsOk;
    assert ContextOk(w.pending[seqNo], w.records, w.nextId, w.receipts.Keys);
    forall r | r in w.records && r.id in w.pending[seqNo].pendingIds ensures r.status != Archived {
      assert MarksOk(w.pending[seqNo], r);
    }
  }

  /** Building and then rolling back gives back what could be spent before, point by point and in total. */
  lemma {:induction false} BuildThenRollback(
      w: Wallet, publicKey: PublicKey, signer: Address, txs: seq<OffChainTx>, seqNo: positive, options: BundleOptions,
      f: ValueRange -> nat)
    requires WalletOk(w) && StatusesOk(w) && seqNo !in w.receipts && Additive(f)
    requires BuildBundle(w, publicKey, signer, txs, seqNo, options).Ok?
    ensures var built := BuildBundle(w, publicKey, signer, txs, seqNo, options).value.0;
            && RollbackPendingBundle(built, seqNo).Ok?
            && var after := RollbackPendingBundle(built, seqNo).value;
               && after.pending == w.pending == map[] && Settled(after.records) && Settled(w.records)
               && Sum(IfSpendable(f), after.records) == Sum(IfSpendable(f), w.records)
  {
    hide Additive, Assign, BuildBundle, HeldBy, IfLive, IfSpendable, KeepsArchived, NonOverlapping;
    hide RollbackPendingBundle, Settled, SplitAssigned, StatusesOk, Stored, Sum, WalletOk;
    var built := BuildBundle(w, publicKey, signer, txs, seqNo, options).value.0;
    var targets := SortRanges(TxValues(txs));
    BuildShape(w, publicKey, signer, txs, seqNo, options);
    BuildKeeps(w, publicKey, signer, txs, seqNo, options, {}, 0);
    BuildExplains(w, publicKey, signer, txs, seqNo, options);
    RollbackFrees(built, seqNo, f);
    OwnIdsDiffer(w);
    SplitMeasure(f, w.records, targets, w.nextId);
    StoredMeasure(f, SplitAssigned(w.records, Assign(w.records, targets).value, w.nextId).records);
    IdleSettles(w);
    SettledMeasure(f, w.records);
  }

  lemma OwnIdsDiffer(w: Wallet)
    requires WalletOk(w)
    ensures DistinctIds(w.records)
  {
    DistinctRecordsHaveDistinctIds(w.records);
  }

  lemma {:induction false} StoredMeasure(f: ValueRange -> nat, records: Records)
    ensures Sum(IfLive(f), Stored(records)) == Sum(IfLive(f), records)
  {
    SumSort(IfLive(f), records, RecordLe);
  }

  lemma SizeIsAdditive()
    ensures Additive(SizeOf())
  {
  }

  lemma PointIsAdditive(p: nat)
    ensures Additive(HasPoint(p))
  {
  }

  // ----- Whole runs

  /** What a wallet has available is everything it has not sent away. */
  ghost predicate AllAvailable(records: Records) {
    && Sum(SizeIn(VerifiedSpendable), records) == Sum(LiveSize, records)
    && forall p: nat :: Sum(IfSpendable(HasPoint(p)), records) == Sum(IfLive(HasPoint(p)), records)
  }

  lemma SettledIsAvailable(records: Records)
    requires Settled(records)
    ensures AllAvailable(records)
  {
    forall p: nat ensures Sum(IfSpendable(HasPoint(p)), records) == Sum(IfLive(HasPoint(p)), records) {
      SettledMeasure(HasPoint(p), records);
    }
    forall k | 0 <= k < |records| ensures SizeIn(VerifiedSpendable)(records[k]) == LiveSize(records[k]) {
      assert records[k] in records;
    }
    SumAgrees(SizeIn(VerifiedSpendable), LiveSize, records, records);
  }

  /** In every state of every run, a wallet with nothing pending can spend everything it has not sent away. */
  lemma {:induction false} IdleIsSettled(
      genesisBlockHash: Hash, allocations: seq<Allocation>, steps: seq<MarketStep>, i: nat)
    requires DistinctOwners(allocations) && forall q :: GenesisCount(allocations, q) <= 1
    requires RunFresh(GenesisMarket(genesisBlockHash, allocations), steps)
    requires var wallets := RunMarket(GenesisMarket(genesisBlockHash, allocations), steps).wallets;
             i < |wallets| && wallets[i].pending == map[]
    ensures var w := RunMarket(GenesisMarket(genesisBlockHash, allocations), steps).wallets[i];
            Settled(w.records) && AllAvailable(w.records)
  {
    hide AllAvailable, GenesisCount, RunMarket, Settled, StatusesOk;
    RunExplains(genesisBlockHash, allocations, steps);
    var wallets := RunMarket(GenesisMarket(genesisBlockHash, allocations), steps).wallets;
    assert StatusesOk(wallets[i]);
    IdleSettles(wallets[i]);
    SettledIsAvailable(wallets[i].records);
  }

  /** In every state of every run, rolling back frees everything: nothing a wallet still holds stays locked. */
  lemma {:induction false} RollbackFreesAll(
      genesisBlockHash: Hash, allocations: seq<Allocation>, steps: seq<MarketStep>, i: nat, seqNo: nat)
    requires DistinctOwners(allocations) && forall q :: GenesisCount(allocations, q) <= 1
    requires RunFresh(GenesisMarket(genesisBlockHash, allocations), steps)
    requires var wallets := RunMarket(GenesisMarket(genesisBlockHash, allocations), steps).wallets;
             i < |wallets| && seqNo in wallets[i].pending
    ensures var w := RunMarket(GenesisMarket(genesisBlockHash, allocations), steps).wallets[i];
            && RollbackPendingBundle(w, seqNo).Ok?
            && var after := RollbackPendingBundle(w, seqNo).value;
               && after.pending == map[] && Settled(after.records)
               && Sum(SizeIn(VerifiedSpendable), after.records) == Sum(LiveSize, w.records)
               && forall p: nat :: Sum(IfSpendable(HasPoint(p)), after.records) == Sum(IfLive(HasPoint(p)), w.records)
  {
    hide GenesisCount, HasPoint, IfLive, IfSpendable, LiveSize, RollbackPendingBundle;
    hide RunMarket, Settled, SizeIn, StatusesOk, Sum, WalletOk;
    RunExplains(genesisBlockHash, allocations, steps);
    var wallets := RunMarket(GenesisMarket(genesisBlockHash, allocations), steps).wallets;
    var w := wallets[i];
    assert StatusesOk(w) && WalletOk(w);
    RollbackFrees(w, seqNo, SizeOf());
    SizesAgree(RollbackPendingBundle(w, seqNo).value.records);
    SizesAgree(w.records);
    forall p: nat
      ensures Sum(IfSpendable(HasPoint(p)), RollbackPendingBundle(w, seqNo).value.records) == Sum(IfLive(HasPoint(p)), w.records)
    {
      RollbackFrees(w, seqNo, HasPoint(p));
    }
  }

  lemma {:induction false} SizesAgree(records: Records)
    ensures Sum(IfSpendable(SizeOf()), records) == Sum(SizeIn(VerifiedSpendable), records)
    ensures Sum(IfLive(SizeOf()), records) == Sum(LiveSize, records)
  {
    SumAgrees(IfSpendable(SizeOf()), SizeIn(VerifiedSpendable), records, records);
    SumAgrees(IfLive(SizeOf()), LiveSize, records, records);
  }

  /** Building and then rolling back restores the available balance and how often each point can be spent. */
  lemma {:induction false} BuildThenRollbackRestores(
      w: Wallet, publicKey: PublicKey, signer: Address, txs: seq<OffChainTx>, seqNo: positive, options: BundleOptions)
    requires WalletOk(w) && StatusesOk(w) && seqNo !in w.receipts
    requires BuildBundle(w, publicKey, signer, txs, seqNo, options).Ok?
    ensures var built := BuildBundle(w, publicKey, signer, txs, seqNo, options).value.0;
            && RollbackPendingBundle(built, seqNo).Ok?
            && var after := RollbackPendingBundle(built, seqNo).value;
               && after.pending == w.pending && Settled(after.records)
               && Sum(SizeIn(VerifiedSpendable), after.records) == Sum(SizeIn(VerifiedSpendable), w.records)
               && forall p: nat :: Sum(IfSpendable(HasPoint(p)), after.records) == Sum(IfSpendable(HasPoint(p)), w.records)
  {
    hide Additive, BuildBundle, HasPoint, IfLive, IfSpendable, RollbackPendingBundle;
    hide Settled, SizeIn, SizeOf, StatusesOk, Sum, WalletOk;
    var built := BuildBundle(w, publicKey, signer, txs, seqNo, options).value.0;
    SizeIsAdditive();
    BuildThenRollback(w, publicKey, signer, txs, seqNo, options, SizeOf());
    var after := RollbackPendingBundle(built, seqNo).value;
    SizesAgree(after.records);
    SizesAgree(w.records);
    forall p: nat ensures Sum(IfSpendable(HasPoint(p)), after.records) == Sum(IfSpendable(HasPoint(p)), w.records) {
      PointIsAdditive(p);
      BuildThenRollback(w, publicKey, signer, txs, seqNo, options, HasPoint(p));
    }
  }
}

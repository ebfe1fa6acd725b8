/** One wallet beside a chain: what every honest operation of the wallet, and every new block, keeps. */
module Participants {
  import opened Prelude
  import opened Sorting
  import opened Values
  import opened Types
  import opened ClaimSets
  import opened Ledger
  import opened ReceiptCaches
  import opened BundlePools
  import opened Validation
  import opened Selection
  import opened Wallets
  import opened TwoPhase
  import opened WalletInvariants
  import opened HonestWallets
  import opened HonestConfirms
  import opened Traces

  // ----- A wallet in step with the chain

  /** The number of units the wallet has seen confirmed. */
  function ConfirmedCount(w: Wallet): nat {
    MaxOf(w.units.Keys)
  }

  /** Only the next bundle is pending, and records marked pending are its records. */
  ghost predicate PendingInStep(w: Wallet, n: nat) {
    && (forall s :: s in w.pending ==>
          s == n + 1 && w.pending[s].sidecar.sender == w.address && Covered(w.pending[s], w.records))
    && (forall r :: r in w.records && r.status == PendingBundle ==> n + 1 in w.pending && r.id in w.pending[n + 1].pendingIds)
  }

  ghost predicate AcquiredUpTo(records: Records, height: nat) {
    forall r :: r in records ==> r.acquiredAt <= height
  }

  ghost predicate AcquiredBefore(records: Records, ids: seq<nat>, height: nat) {
    forall r :: r in records && r.id in ids ==> r.acquiredAt < height
  }

  /** The chain is at most one bundle ahead, by the pending one, in a block above everything that bundle spends. */
  ghost predicate EmissionInStep(w: Wallet, n: nat, e: Emission) {
    e.sender == w.address && e.receipt.seqNo > n ==>
      && e.receipt.seqNo == n + 1 && n + 1 in w.pending
      && AcquiredBefore(w.records, w.pending[n + 1].pendingIds, e.Height())
  }

  ghost predicate EmissionsInStep(w: Wallet, n: nat, log: seq<BlockLog>) {
    forall e :: Emitted(log, 0, e) ==> EmissionInStep(w, n, e)
  }

  /** What waits in the pool for this wallet is its pending bundle. */
  ghost predicate PoolInStep(w: Wallet, n: nat, pool: Pool) {
    w.address in pool ==> n + 1 in w.pending && pool[w.address].envelope.payload.seqNo == n + 1
  }

  ghost predicate InStep(context: ValidationContext, w: Wallet, log: seq<BlockLog>, pool: Pool) {
    var n := ConfirmedCount(w);
    && WalletFine(context, w, n, |log|)
    && w.receipts.Keys == w.units.Keys
    && PendingInStep(w, n)
    && AcquiredUpTo(w.records, |log|)
    && EmissionsInStep(w, n, log)
    && PoolInStep(w, n, pool)
  }

  lemma HighestIs(keys: set<nat>, m: nat)
    requires IsHighest(m, keys)
    ensures MaxOf(keys) == m
  {
  }

  lemma CountOfChain(address: Address, units: map<nat, ConfirmedUnit>, n: nat, top: nat)
    requires UnitsChain(address, units, n, top)
    ensures MaxOf(units.Keys) == n
  {
    if n > 0 {
      HighestIs(units.Keys, n);
    } else {
      assert units.Keys == {};
    }
  }

  // ----- A new block

  lemma UnitsBelowHigher(address: Address, units: map<nat, ConfirmedUnit>, n: nat, top: nat, higher: nat)
    requires UnitsChain(address, units, n, top) && top <= higher
    ensures UnitsChain(address, units, n, higher)
  {
  }

  /** A block whose emissions are in step keeps the wallet in step. */
  lemma {:induction false} BlockKeepsInStep(
      context: ValidationContext, w: Wallet, log: seq<BlockLog>, last: BlockLog, pool: Pool, after: Pool)
    requires InStep(context, w, log, pool)
    requires forall e :: e in last.emissions ==> EmissionInStep(w, ConfirmedCount(w), e)
    requires w.address in after ==> w.address in pool && after[w.address] == pool[w.address]
    ensures InStep(context, w, log + [last], after)
  {
    var n, longer := ConfirmedCount(w), log + [last];
    UnitsBelowHigher(w.address, w.units, n, |log|, |longer|);
    forall e | Emitted(longer, 0, e) ensures EmissionInStep(w, n, e) {
      assert e in last.emissions || Emitted(log, 0, e);
    }
  }

  // ----- Live changes

  lemma ChangeStaysFine(
      context: ValidationContext, units: map<nat, ConfirmedUnit>, n: nat, r: LocalValueRecord, x: LocalValueRecord)
    requires RecordFine(context, units, n, r) && LiveChange(r, x) && (r.status == Archived ==> x == r)
    ensures RecordFine(context, units, n, x)
  {
  }

  /** The change moves live records between live statuses and keeps archived ones. */
  ghost predicate OnlyLiveChanges(records: Records, f: LocalValueRecord -> LocalValueRecord) {
    forall r :: r in records ==> LiveChange(r, f(r)) && (r.status == Archived ==> f(r) == r)
  }

  lemma ChangesStayFine(
      context: ValidationContext, units: map<nat, ConfirmedUnit>, n: nat, records: Records, f: LocalValueRecord -> LocalValueRecord)
    requires RecordsFine(context, units, n, records) && OnlyLiveChanges(records, f)
    ensures RecordsFine(context, units, n, Stored(MapSeq(f, records)))
  {
    var changed := Stored(MapSeq(f, records));
    forall x | x in changed ensures RecordFine(context, units, n, x) {
      var r := ChangedMembers(records, f, x);
      ChangeStaysFine(context, units, n, r, x);
    }
    forall x, y {:trigger NoSharedUnit(x, y)} | x in changed && y in changed && y.status == Archived && x.id != y.id
      ensures Apart(x.value, y.value) || NoSharedUnit(x, y)
    {
      var r := ChangedMembers(records, f, x);
      var s := ChangedMembers(records, f, y);
      assert Apart(r.value, s.value) || NoSharedUnit(r, s);
      if NoSharedUnit(r, s) {
        SameChainsUnshared(r, s, x, y);
      }
    }
  }

  lemma SameChainsUnshared(r: LocalValueRecord, s: LocalValueRecord, x: LocalValueRecord, y: LocalValueRecord)
    requires NoSharedUnit(r, s) && x.history.chain == r.history.chain && y.history.chain == s.history.chain
    ensures NoSharedUnit(x, y)
  {
  }

  /** The records keep what the chain's emissions and heights say of them. */
  ghost predicate SameAcquisitions(before: Records, after: Records) {
    forall x :: x in after ==> exists r :: r in before && r.id == x.id && r.acquiredAt == x.acquiredAt
  }

  lemma ChangesKeepAcquisitions(records: Records, f: LocalValueRecord -> LocalValueRecord)
    requires OnlyLiveChanges(records, f)
    ensures SameAcquisitions(records, Stored(MapSeq(f, records)))
  {
    forall x | x in Stored(MapSeq(f, records)) ensures exists r :: r in records && r.id == x.id && r.acquiredAt == x.acquiredAt {
      var r := ChangedMembers(records, f, x);
      assert LiveChange(r, x);
    }
  }

  lemma AcquisitionsBound(before: Records, after: Records, height: nat)
    requires SameAcquisitions(before, after) && AcquiredUpTo(before, height)
    ensures AcquiredUpTo(after, height)
  {
    forall x | x in after ensures x.acquiredAt <= height {
      var r :| r in before && r.id == x.id && r.acquiredAt == x.acquiredAt;
    }
  }

  lemma AcquisitionsBefore(before: Records, after: Records, ids: seq<nat>, height: nat)
    requires SameAcquisitions(before, after) && AcquiredBefore(before, ids, height)
    ensures AcquiredBefore(after, ids, height)
  {
    forall x | x in after && x.id in ids ensures x.acquiredAt < height {
      var r :| r in before && r.id == x.id && r.acquiredAt == x.acquiredAt;
    }
  }

  /** The same bundles are pending, over records acquired as before. */
  lemma EmissionsKeep(w: Wallet, after: Wallet, n: nat, log: seq<BlockLog>)
    requires EmissionsInStep(w, n, log) && after.address == w.address && after.pending == w.pending
    requires SameAcquisitions(w.records, after.records)
    ensures EmissionsInStep(after, n, log)
  {
    forall e | Emitted(log, 0, e) ensures EmissionInStep(after, n, e) {
      assert EmissionInStep(w, n, e);
      if e.sender == w.address && e.receipt.seqNo > n {
        AcquisitionsBefore(w.records, after.records, w.pending[n + 1].pendingIds, e.Height());
      }
    }
  }

  // ----- Marking a receipt missing

  lemma CoveredAfterChange(bundle: PendingBundleContext, records: Records, f: LocalValueRecord -> LocalValueRecord)
    requires Covered(bundle, records) && OnlyLiveChanges(records, f)
    ensures Covered(bundle, Stored(MapSeq(f, records)))
  {
    StoredFacts(MapSeq(f, records));
    forall v {:trigger v in TxValues(bundle.sidecar.txs)} | v in TxValues(bundle.sidecar.txs)
      ensures exists x :: x in Stored(MapSeq(f, records)) && x.id in bundle.outgoingIds && x.value == v
    {
      var r :| r in records && r.id in bundle.outgoingIds && r.value == v;
      var k :| 0 <= k < |records| && records[k] == r;
      assert MapSeq(f, records)[k] == f(r) && LiveChange(r, f(r));
    }
  }

  lemma MissKeepsPending(w: Wallet, n: nat, seqNo: nat)
    requires PendingInStep(w, n) && MarkReceiptMissing(w, seqNo).Ok?
    ensures PendingInStep(MarkReceiptMissing(w, seqNo).value, n)
  {
    var f, after := Marker(w.pending[seqNo].pendingIds), MarkReceiptMissing(w, seqNo).value;
    MarkMissingIsMap(w.records, w.pending[seqNo].pendingIds);
    CoveredAfterChange(w.pending[seqNo], w.records, f);
    forall x | x in after.records && x.status == PendingBundle
      ensures n + 1 in after.pending && x.id in after.pending[n + 1].pendingIds
    {
      var r := ChangedMembers(w.records, f, x);
    }
  }

  lemma ChangesInStep(
      context: ValidationContext, w: Wallet, f: LocalValueRecord -> LocalValueRecord, after: Wallet, log: seq<BlockLog>, pool: Pool)
    requires InStep(context, w, log, pool) && OnlyLiveChanges(w.records, f)
    requires after == w.(records := Stored(MapSeq(f, w.records)))
    requires WalletOk(after) && PendingInStep(after, ConfirmedCount(w))
    ensures InStep(context, after, log, pool)
  {
    var n := ConfirmedCount(w);
    ChangesStayFine(context, w.units, n, w.records, f);
    ChangesKeepAcquisitions(w.records, f);
    AcquisitionsBound(w.records, after.records, |log|);
    EmissionsKeep(w, after, n, log);
  }

  lemma MissKeepsInStep(context: ValidationContext, w: Wallet, seqNo: nat, log: seq<BlockLog>, pool: Pool)
    requires InStep(context, w, log, pool) && MarkReceiptMissing(w, seqNo).Ok? && WalletOk(MarkReceiptMissing(w, seqNo).value)
    ensures InStep(context, MarkReceiptMissing(w, seqNo).value, log, pool)
  {
    hide ContextOk, LiveValid, RecordsOk, SentValid, UnitsChain;
    var f, after := Marker(w.pending[seqNo].pendingIds), MarkReceiptMissing(w, seqNo).value;
    MarkMissingIsMap(w.records, w.pending[seqNo].pendingIds);
    MissKeepsPending(w, ConfirmedCount(w), seqNo);
    ChangesInStep(context, w, f, after, log, pool);
  }

  // ----- Rolling a bundle back

  /** The bundle is neither in the pool nor in any block. */
  ghost predicate NeverLeft(w: Wallet, seqNo: nat, log: seq<BlockLog>, pool: Pool) {
    && w.address !in pool
    && forall e :: Emitted(log, 0, e) && e.sender == w.address ==> e.receipt.seqNo != seqNo
  }

  lemma ReleaseIsLive(w: Wallet, seqNo: nat)
    requires WalletOk(w) && seqNo in w.pending
    ensures OnlyLiveChanges(w.records, Releaser(w.pending[seqNo].pendingIds))
  {
    forall r | r in w.records ensures LiveChange(r, Releaser(w.pending[seqNo].pendingIds)(r)) {
      assert MarksOk(w.pending[seqNo], r);
    }
  }

  lemma RollbackKeepsPending(w: Wallet, n: nat, seqNo: nat)
    requires PendingInStep(w, n) && RollbackPendingBundle(w, seqNo).Ok?
    ensures RollbackPendingBundle(w, seqNo).value.pending == map[] && PendingInStep(RollbackPendingBundle(w, seqNo).value, n)
  {
    var f, after := Releaser(w.pending[seqNo].pendingIds), RollbackPendingBundle(w, seqNo).value;
    ReleaseIsMap(w.records, w.pending[seqNo].pendingIds);
    assert seqNo == n + 1;
    assert after.pending == map[];
    forall x | x in after.records ensures x.status != PendingBundle {
      var r := ChangedMembers(w.records, f, x);
    }
  }

  lemma NothingLeftInStep(w: Wallet, after: Wallet, n: nat, log: seq<BlockLog>, pool: Pool)
    requires EmissionsInStep(w, n, log) && NeverLeft(w, n + 1, log, pool) && after.address == w.address
    ensures EmissionsInStep(after, n, log) && PoolInStep(after, n, pool)
  {
    forall e | Emitted(log, 0, e) ensures EmissionInStep(after, n, e) {
      assert EmissionInStep(w, n, e);
    }
  }

  lemma RollbackKeepsInStep(context: ValidationContext, w: Wallet, seqNo: nat, log: seq<BlockLog>, pool: Pool)
    requires InStep(context, w, log, pool) && WalletOk(w) && RollbackPendingBundle(w, seqNo).Ok?
    requires WalletOk(RollbackPendingBundle(w, seqNo).value) && NeverLeft(w, seqNo, log, pool)
    ensures InStep(context, RollbackPendingBundle(w, seqNo).value, log, pool)
    ensures AllSpendable(RollbackPendingBundle(w, seqNo).value.records, w.pending[seqNo].pendingIds)
  {
    hide ContextOk, RecordFine, RecordsOk, UnitsChain, AllSpendable;
    ReleasedAreSpendable(w.records, w.pending[seqNo].pendingIds);
    var f, after := Releaser(w.pending[seqNo].pendingIds), RollbackPendingBundle(w, seqNo).value;
    var n := ConfirmedCount(w);
    ReleaseIsLive(w, seqNo);
    ReleaseIsMap(w.records, w.pending[seqNo].pendingIds);
    ChangesStayFine(context, w.units, n, w.records, f);
    RollbackKeepsPending(w, n, seqNo);
    ChangesKeepAcquisitions(w.records, f);
    AcquisitionsBound(w.records, after.records, |log|);
    NothingLeftInStep(w, after, n, log, pool);
  }

  // ----- Building

  lemma BuiltRecord(w: Wallet, targets: seq<ValueRange>, b: Built, x: LocalValueRecord) returns (r: LocalValueRecord)
    requires RecordsOk(w.address, w.nextId, w.receipts.Keys, w.records) && Assign(w.records, targets).Some?
    requires b == SplitAssigned(w.records, Assign(w.records, targets).value, w.nextId) && x in b.records
    ensures r in w.records && x.acquiredAt == r.acquiredAt && x.history.anchor == r.history.anchor
    ensures x == r || x.id in b.pendingIds
  {
    DistinctRecordsHaveDistinctIds(w.records);
    assert w.records[..|w.records|] == w.records;
    r := SplitSource(w.records, targets, w.nextId, |w.records|, x);
    if x != r {
      OwnRecords(w);
      SplitIsOk(w.records, w.address, Assign(w.records, targets).value, w.nextId, |w.records|);
      assert FromSplit(w.records, w.address, w.nextId, b.nextId, x);
      NewIdsArePending(w.records, Assign(w.records, targets).value, w.nextId, x.id);
    }
  }

  lemma {:induction false} BuiltPending(w: Wallet, targets: seq<ValueRange>, b: Built, x: LocalValueRecord)
    requires RecordsOk(w.address, w.nextId, w.receipts.Keys, w.records) && Assign(w.records, targets).Some?
    requires forall r :: r in w.records ==> r.status != PendingBundle
    requires b == SplitAssigned(w.records, Assign(w.records, targets).value, w.nextId)
    requires x in Stored(b.records) && x.status == PendingBundle
    ensures x.id in b.pendingIds
  {
    StoredFacts(b.records);
    var r := BuiltRecord(w, targets, b, x);
  }

  lemma {:induction false} BuildKeepsPending(
      w: Wallet, n: nat, targets: seq<ValueRange>, b: Built, bundle: PendingBundleContext, after: Wallet)
    requires PendingInStep(w, n) && w.pending == map[] && RecordsOk(w.address, w.nextId, w.receipts.Keys, w.records)
    requires Assign(w.records, targets).Some? && b == SplitAssigned(w.records, Assign(w.records, targets).value, w.nextId)
    requires after.records == Stored(b.records) && after.address == w.address && after.pending == map[n + 1 := bundle]
    requires bundle.pendingIds == b.pendingIds && bundle.sidecar.sender == w.address && Covered(bundle, after.records)
    ensures PendingInStep(after, n)
  {
    forall x | x in after.records && x.status == PendingBundle ensures x.id in bundle.pendingIds {
      BuiltPending(w, targets, b, x);
    }
  }

  lemma {:induction false} BuildKeepsHeights(w: Wallet, targets: seq<ValueRange>, b: Built, height: nat)
    requires RecordsOk(w.address, w.nextId, w.receipts.Keys, w.records) && AcquiredUpTo(w.records, height)
    requires Assign(w.records, targets).Some? && b == SplitAssigned(w.records, Assign(w.records, targets).value, w.nextId)
    ensures AcquiredUpTo(Stored(b.records), height)
  {
    StoredFacts(b.records);
    forall x | x in b.records ensures x.acquiredAt <= height {
      var r := BuiltRecord(w, targets, b, x);
    }
  }

  /** Without a pending bundle the chain is not ahead, whatever is built next. */
  lemma IdleInStep(w: Wallet, after: Wallet, n: nat, log: seq<BlockLog>, pool: Pool)
    requires EmissionsInStep(w, n, log) && PoolInStep(w, n, pool) && w.pending == map[] && after.address == w.address
    ensures EmissionsInStep(after, n, log) && PoolInStep(after, n, pool)
  {
    forall e | Emitted(log, 0, e) ensures EmissionInStep(after, n, e) {
      assert EmissionInStep(w, n, e);
    }
  }

  lemma NextIsOneMore(w: Wallet)
    requires w.pending == map[] && w.receipts.Keys == w.units.Keys
    ensures NextSequence(w) == ConfirmedCount(w) + 1
  {
    assert w.receipts.Keys + w.pending.Keys == w.units.Keys;
  }

  lemma {:induction false} BuiltInStep(
      context: ValidationContext, w: Wallet, seqNo: nat, targets: seq<ValueRange>, b: Built, bundle: PendingBundleContext,
      after: Wallet, log: seq<BlockLog>, pool: Pool)
    requires InStep(context, w, log, pool) && w.pending == map[] && seqNo == ConfirmedCount(w) + 1
    requires Assign(w.records, targets).Some? && b == SplitAssigned(w.records, Assign(w.records, targets).value, w.nextId)
    requires after == w.(records := Stored(b.records), pending := map[seqNo := bundle], nextId := b.nextId)
    requires bundle.pendingIds == b.pendingIds && bundle.sidecar.sender == w.address && Covered(bundle, after.records)
    requires RecordsFine(context, w.units, ConfirmedCount(w), after.records) && WalletOk(after)
    ensures InStep(context, after, log, pool)
  {
    hide RecordsOk, UnitsChain;
    var n := ConfirmedCount(w);
    BuildKeepsPending(w, n, targets, b, bundle, after);
    BuildKeepsHeights(w, targets, b, |log|);
    IdleInStep(w, after, n, log, pool);
  }

  lemma {:induction false} BuildKeepsInStep(
      context: ValidationContext, w: Wallet, publicKey: PublicKey, signer: Address, txs: seq<OffChainTx>, options: BundleOptions,
      log: seq<BlockLog>, pool: Pool)
    requires InStep(context, w, log, pool) && WalletOk(w)
    requires BuildBundle(w, publicKey, signer, txs, NextSequence(w), options).Ok?
    requires WalletOk(BuildBundle(w, publicKey, signer, txs, NextSequence(w), options).value.0)
    ensures InStep(context, BuildBundle(w, publicKey, signer, txs, NextSequence(w), options).value.0, log, pool)
  {
    var seqNo, targets := NextSequence(w), SortRanges(TxValues(txs));
    var (after, bundle) := BuildBundle(w, publicKey, signer, txs, seqNo, options).value;
    var b := SplitAssigned(w.records, Assign(w.records, targets).value, w.nextId);
    BuildShape(w, publicKey, signer, txs, seqNo, options);
    NextIsOneMore(w);
    BuildKeepsFine(context, w, ConfirmedCount(w), publicKey, signer, txs, seqNo, options);
    BuiltInStep(context, w, seqNo, targets, b, bundle, after, log, pool);
  }

  // ----- Confirming

  lemma ReceiptIsForPending(w: Wallet, n: nat, receipt: Receipt)
    requires PendingInStep(w, n) && OnReceiptConfirmed(w, receipt).Ok?
    ensures receipt.seqNo in w.pending && receipt.seqNo == n + 1 && w.pending[n + 1].sidecar.sender == w.address
    ensures Covered(w.pending[n + 1], w.records)
    ensures receipt.proof.Single? && UnitProofVerifies(ConfirmedUnit(receipt, w.pending[n + 1].sidecar))
  {
    assert ReceiptError(w, receipt).None?;
  }

  /** The chain has emitted the receipt, and with it the pending bundle makes the wallet's next unit. */
  ghost predicate Confirmable(w: Wallet, n: nat, log: seq<BlockLog>, e: Emission) {
    && Emitted(log, 0, e) && e.sender == w.address
    && e.receipt.seqNo == n + 1 && n + 1 in w.pending
    && NextUnit(w.address, w.units, n, ConfirmedUnit(e.receipt, w.pending[n + 1].sidecar))
  }

  lemma ReadyOnReceipt(w: Wallet, n: nat, log: seq<BlockLog>, e: Emission)
    requires Confirmable(w, n, log, e) && UnitsChain(w.address, w.units, n, |log|)
    requires PendingInStep(w, n) && EmissionsInStep(w, n, log) && ContextOk(w.pending[n + 1], w.records, w.nextId, w.receipts.Keys)
    ensures ReadyToSettle(w, n, |log|, w.pending[n + 1], ConfirmedUnit(e.receipt, w.pending[n + 1].sidecar))
  {
    assert EmissionInStep(w, n, e);
  }

  lemma SettledHeights(w: Wallet, unit: ConfirmedUnit, bundle: PendingBundleContext, height: nat)
    requires AcquiredUpTo(w.records, height)
    ensures AcquiredUpTo(Stored(MapSeq(Settler(unit, bundle.pendingIds, bundle.outgoingIds), w.records)), height)
  {
    var f := Settler(unit, bundle.pendingIds, bundle.outgoingIds);
    forall x | x in Stored(MapSeq(f, w.records)) ensures x.acquiredAt <= height {
      var r := ChangedMembers(w.records, f, x);
    }
  }

  lemma NothingPendingAfterSettling(w: Wallet, n: nat, unit: ConfirmedUnit, bundle: PendingBundleContext)
    requires forall r :: r in w.records && r.status == PendingBundle ==> r.id in bundle.pendingIds
    ensures forall x :: x in Stored(MapSeq(Settler(unit, bundle.pendingIds, bundle.outgoingIds), w.records)) ==>
              x.status != PendingBundle
  {
    var f := Settler(unit, bundle.pendingIds, bundle.outgoingIds);
    forall x | x in Stored(MapSeq(f, w.records)) ensures x.status != PendingBundle {
      var r := ChangedMembers(w.records, f, x);
    }
  }

  /** Once the chain's only bundle ahead is confirmed, the chain is not ahead. */
  lemma CaughtUp(w: Wallet, after: Wallet, n: nat, log: seq<BlockLog>)
    requires EmissionsInStep(w, n, log) && after.address == w.address
    ensures EmissionsInStep(after, n + 1, log)
  {
    forall e | Emitted(log, 0, e) ensures EmissionInStep(after, n + 1, e) {
      assert EmissionInStep(w, n, e);
    }
  }

  lemma {:induction false} ConfirmedFine(
      context: ValidationContext, w: Wallet, n: nat, top: nat, bundle: PendingBundleContext, unit: ConfirmedUnit,
      accepted: set<TransferPackage>, after: Wallet)
    requires ReadyToSettle(w, n, top, bundle, unit) && WalletFine(context, w, n, top) && AcquiredUpTo(w.records, top)
    requires RecordsOk(after.address, after.nextId, after.receipts.Keys, after.records)
    requires forall p :: HeldBy(accepted, w.records, p) <= 1
    requires after.records == Stored(MapSeq(Settler(unit, bundle.pendingIds, bundle.outgoingIds), w.records))
    requires after.address == w.address && after.units == w.units[n + 1 := unit]
    ensures WalletFine(context, after, n + 1, top) && AcquiredUpTo(after.records, top)
  {
    SettledAreFine(context, w, n, top, bundle, unit, accepted);
    UnitsGrow(w.address, w.units, n, top, unit);
    SettledHeights(w, unit, bundle, top);
  }

  lemma ConfirmedPending(w: Wallet, n: nat, top: nat, bundle: PendingBundleContext, unit: ConfirmedUnit, after: Wallet)
    requires ReadyToSettle(w, n, top, bundle, unit) && PendingInStep(w, n)
    requires after.records == Stored(MapSeq(Settler(unit, bundle.pendingIds, bundle.outgoingIds), w.records))
    requires after.pending == w.pending - {n + 1}
    ensures PendingInStep(after, n + 1)
  {
    assert after.pending == map[];
    NothingPendingAfterSettling(w, n, unit, bundle);
  }

  /** Confirming a receipt the chain emitted keeps the wallet in step, one unit further. */
  lemma {:induction false} ConfirmKeepsInStep(
      context: ValidationContext, w: Wallet, log: seq<BlockLog>, pool: Pool, e: Emission, accepted: set<TransferPackage>)
    requires InStep(context, w, log, pool) && WalletOk(w) && w.address !in pool
    requires Confirmable(w, ConfirmedCount(w), log, e) && OnReceiptConfirmed(w, e.receipt).Ok?
    requires WalletOk(OnReceiptConfirmed(w, e.receipt).value.0) && forall p :: HeldBy(accepted, w.records, p) <= 1
    ensures InStep(context, OnReceiptConfirmed(w, e.receipt).value.0, log, pool)
  {
    hide ContextOk, NextUnit, ReadyToSettle, ReceiptError, RecordsFine, RecordsOk, UnitsChain;
    var n, after := ConfirmedCount(w), OnReceiptConfirmed(w, e.receipt).value.0;
    var bundle := w.pending[n + 1];
    var unit := ConfirmedUnit(e.receipt, bundle.sidecar);
    ConfirmShape(w, e.receipt);
    ReadyOnReceipt(w, n, log, e);
    ConfirmedFine(context, w, n, |log|, bundle, unit, accepted, after);
    ConfirmedPending(w, n, |log|, bundle, unit, after);
    CaughtUp(w, after, n, log);
    CountOfChain(after.address, after.units, n + 1, |log|);
  }

  // ----- Receiving

  lemma {:induction false} FreshRecordFine(context: ValidationContext, w: Wallet, n: nat, r: LocalValueRecord)
    requires r.history.value == r.value && !HasCheckpoint(r.history) && r.history.chain == [] && r.status != Archived
    requires r.acquiredAt == AcquiredHeight(r.history) && AnchorError(context, r.value, r.history).None?
    ensures RecordFine(context, w.units, n, r)
  {
  }

  lemma AppendKeepsFine(
      context: ValidationContext, units: map<nat, ConfirmedUnit>, n: nat, records: Records, r: LocalValueRecord)
    requires RecordsFine(context, units, n, records) && RecordFine(context, units, n, r)
    requires r.status != Archived && r.history.chain == []
    ensures RecordsFine(context, units, n, Stored(records + [r]))
  {
    hide RecordFine;
    StoredFacts(records + [r]);
  }

  lemma {:induction false} AppendKeepsPending(w: Wallet, after: Wallet, n: nat, r: LocalValueRecord)
    requires PendingInStep(w, n) && r.status == VerifiedSpendable
    requires after.records == Stored(w.records + [r]) && after.address == w.address && after.pending == w.pending
    ensures PendingInStep(after, n)
  {
    StoredFacts(w.records + [r]);
    forall s | s in w.pending ensures Covered(w.pending[s], after.records) {
      assert Covered(w.pending[s], w.records);
      CoveredByMore(w.pending[s], w.records, after.records);
    }
  }

  lemma CoveredByMore(bundle: PendingBundleContext, records: Records, more: Records)
    requires Covered(bundle, records) && forall r :: r in records ==> r in more
    ensures Covered(bundle, more)
  {
    forall v {:trigger v in TxValues(bundle.sidecar.txs)} | v in TxValues(bundle.sidecar.txs)
      ensures exists x :: x in more && x.id in bundle.outgoingIds && x.value == v
    {
      var r :| r in records && r.id in bundle.outgoingIds && r.value == v;
      assert r in more;
    }
  }

  /** A record with a new id belongs to no pending bundle. */
  lemma {:induction false} AppendKeepsEmissions(
      w: Wallet, after: Wallet, n: nat, r: LocalValueRecord, log: seq<BlockLog>)
    requires EmissionsInStep(w, n, log) && (n + 1 in w.pending ==> r.id !in w.pending[n + 1].pendingIds)
    requires after.records == Stored(w.records + [r]) && after.address == w.address && after.pending == w.pending
    ensures EmissionsInStep(after, n, log)
  {
    StoredFacts(w.records + [r]);
    forall e | Emitted(log, 0, e) ensures EmissionInStep(after, n, e) {
      assert EmissionInStep(w, n, e);
    }
  }

  lemma {:induction false} AppendKeepsWalletFine(
      context: ValidationContext, w: Wallet, after: Wallet, n: nat, top: nat, r: LocalValueRecord)
    requires WalletFine(context, w, n, top) && WalletOk(after) && RecordFine(context, w.units, n, r)
    requires r.status == VerifiedSpendable && r.history.chain == []
    requires after.records == Stored(w.records + [r]) && after.address == w.address && after.units == w.units
    ensures WalletFine(context, after, n, top)
  {
    AppendKeepsFine(context, w.units, n, w.records, r);
  }

  lemma {:induction false} AppendKeepsHeights(records: Records, r: LocalValueRecord, height: nat)
    requires AcquiredUpTo(records, height) && r.acquiredAt <= height
    ensures AcquiredUpTo(Stored(records + [r]), height)
  {
    StoredFacts(records + [r]);
  }

  /** A fresh spendable record acquired on this chain keeps the wallet in step. */
  lemma {:induction false} AppendKeepsInStep(
      context: ValidationContext, w: Wallet, after: Wallet, r: LocalValueRecord, log: seq<BlockLog>, pool: Pool)
    requires InStep(context, w, log, pool) && WalletOk(w) && WalletOk(after)
    requires RecordFine(context, w.units, ConfirmedCount(w), r)
    requires r.id == w.nextId && r.status == VerifiedSpendable && r.history.chain == [] && r.acquiredAt <= |log|
    requires after == w.(records := Stored(w.records + [r]), accepted := after.accepted, nextId := after.nextId)
    ensures InStep(context, after, log, pool)
  {
    var n := ConfirmedCount(w);
    AppendKeepsWalletFine(context, w, after, n, |log|, r);
    AppendKeepsPending(w, after, n, r);
    AppendKeepsEmissions(w, after, n, r, log);
    AppendKeepsHeights(w.records, r, |log|);
  }
}

/** Confirming a bundle in an honest run: what was sent becomes a record its recipient's validator accepts. */
module HonestConfirms {
  import opened Prelude
  import opened Sorting
  import opened Values
  import opened Types
  import opened ClaimSets
  import opened Ledger
  import opened Validation
  import opened Selection
  import opened Wallets
  import opened TwoPhase
  import opened WalletInvariants
  import opened HonestWallets

  // ----- One more unit

  /** The unit comes next after units 1 to `n`. */
  ghost predicate NextUnit(address: Address, units: map<nat, ConfirmedUnit>, n: nat, unit: ConfirmedUnit) {
    && unit.receipt.seqNo == n + 1 && UnitFine(address, unit)
    && (n > 0 ==> n in units && Follows(unit, units[n]))
  }

  lemma UnitsGrow(address: Address, units: map<nat, ConfirmedUnit>, n: nat, top: nat, unit: ConfirmedUnit)
    requires UnitsChain(address, units, n, top) && NextUnit(address, units, n, unit) && HeightOf(unit) <= top
    ensures UnitsChain(address, units[n + 1 := unit], n + 1, top)
  {
    var more := units[n + 1 := unit];
    forall k {:trigger FollowsAt(more, k)} | 1 < k <= n + 1 ensures FollowsAt(more, k) {
      assert k <= n ==> FollowsAt(units, k);
    }
  }

  lemma RunGrows(units: map<nat, ConfirmedUnit>, n: nat, unit: ConfirmedUnit, chain: seq<ConfirmedUnit>)
    requires IsRun(units, chain, n)
    ensures IsRun(units[n + 1 := unit], [unit] + chain, n + 1)
  {
    var longer, m := [unit] + chain, n + 1;
    var more := units[m := unit];
    forall i | 0 <= i < |longer| ensures RunAt(more, longer, m, i) {
      assert i > 0 ==> longer[i] == chain[i - 1] && RunAt(units, chain, n, i - 1);
    }
  }

  /** A run's units carry sequence numbers no higher than its newest. */
  lemma RunSeqs(
      address: Address, units: map<nat, ConfirmedUnit>, n: nat, top: nat, chain: seq<ConfirmedUnit>, m: nat, i: nat)
    requires UnitsChain(address, units, n, top) && IsRun(units, chain, m) && m <= n && i < |chain|
    ensures chain[i].receipt.seqNo == m - i && UnitFine(address, chain[i]) && HeightOf(chain[i]) <= HeightOf(units[m])
    ensures i + 1 < |chain| ==> Follows(chain[i], chain[i + 1])
  {
    var k := m - i;
    assert RunAt(units, chain, m, i);
    if i > 0 {
      HeightsRise(address, units, n, top, k, m);
    }
    if i + 1 < |chain| {
      assert RunAt(units, chain, m, i + 1);
      assert FollowsAt(units, k);
    }
  }

  // ----- What the bundle leaves alone

  /** A range that meets no outgoing range of the bundle meets none of its claims. */
  lemma UnclaimedRange(sidecar: Sidecar, value: ValueRange)
    requires forall v :: v in TxValues(sidecar.txs) ==> Apart(value, v)
    ensures !ClaimsIntersect(SidecarClaims(sidecar), value)
  {
    var values := TxValues(sidecar.txs);
    IntersectMeansSharedPoint(SidecarClaims(sidecar), value);
    ClaimRangesCover(values);
    forall point | Covers(values, point) ensures !value.Has(point) {
      var k :| 0 <= k < |values| && values[k].Has(point);
      assert values[k] in values && Apart(value, values[k]);
    }
  }

  /** A live record that is not outgoing shares no point with the bundle. */
  lemma BystanderIsUnclaimed(
      accepted: set<TransferPackage>, bundle: PendingBundleContext, records: Records, r: LocalValueRecord)
    requires (forall p :: HeldBy(accepted, records, p) <= 1) && Covered(bundle, records)
    requires (forall x :: x in records ==> MarksOk(bundle, x)) && (forall id :: id in bundle.outgoingIds ==> id in bundle.pendingIds)
    requires r in records && r.status != Archived && r.id !in bundle.outgoingIds
    ensures !ClaimsIntersect(SidecarClaims(bundle.sidecar), r.value)
  {
    forall v | v in TxValues(bundle.sidecar.txs) ensures Apart(r.value, v) {
      var x :| x in records && x.id in bundle.outgoingIds && x.value == v;
      assert MarksOk(bundle, x);
      LiveRecordsApart(accepted, records, r, x);
    }
    UnclaimedRange(bundle.sidecar, r.value);
  }

  // ----- Records that stay live

  lemma UntouchedStaysFine(
      context: ValidationContext, units: map<nat, ConfirmedUnit>, n: nat, unit: ConfirmedUnit, r: LocalValueRecord)
    requires RecordFine(context, units, n, r) && (r.status != Archived ==> r.history.chain == [])
    ensures RecordFine(context, units[n + 1 := unit], n + 1, r)
  {
    var chain, m, more := r.history.chain, TopSeq(r.history), units[n + 1 := unit];
    forall i | 0 <= i < |chain| ensures RunAt(more, chain, m, i) {
      assert RunAt(units, chain, m, i);
    }
  }

  /** The record gets the new unit on top of its history. */
  ghost predicate Lengthened(x: LocalValueRecord, r: LocalValueRecord, unit: ConfirmedUnit) {
    && r.status != Archived
    && x.value == r.value && x.acquiredAt == r.acquiredAt && x.history == WithUnit(r.history, r.value, unit)
  }

  /** What any lengthened record keeps. */
  lemma {:induction false} LengthenedAnchor(
      context: ValidationContext, units: map<nat, ConfirmedUnit>, n: nat, unit: ConfirmedUnit, r: LocalValueRecord, x: LocalValueRecord)
    requires RecordFine(context, units, n, r) && Lengthened(x, r, unit) && r.acquiredAt < HeightOf(unit)
    requires unit.receipt.seqNo == n + 1
    ensures x.history.value == x.value && !HasCheckpoint(x.history) && AnchorError(context, x.value, x.history).None?
    ensures TopSeq(x.history) == n + 1 && IsRun(units[n + 1 := unit], x.history.chain, n + 1)
    ensures x.acquiredAt == AcquiredHeight(x.history) < HeightOf(x.history.chain[|x.history.chain| - 1])
  {
    RunOfLive(units, n, r);
    RunGrows(units, n, unit, r.history.chain);
    SameAnchor(context, r.value, r.history, x.history);
  }

  lemma RunOfLive(units: map<nat, ConfirmedUnit>, n: nat, r: LocalValueRecord)
    requires IsRun(units, r.history.chain, TopSeq(r.history)) && (r.history.chain != [] ==> TopSeq(r.history) == n)
    ensures IsRun(units, r.history.chain, n)
  {
  }

  /** The older units of a lengthened record are those of the record, and miss its value. */
  lemma OlderUnitsMiss(context: ValidationContext, unit: ConfirmedUnit, r: LocalValueRecord, x: LocalValueRecord)
    requires Lengthened(x, r, unit) && LiveValid(context, r.history, r.value)
    ensures forall i {:trigger x.history.chain[i]} :: 0 < i < |x.history.chain| ==>
              !ClaimsIntersect(SidecarClaims(x.history.chain[i].sidecar), x.value)
  {
    forall i {:trigger x.history.chain[i]} | 0 < i < |x.history.chain|
      ensures !ClaimsIntersect(SidecarClaims(x.history.chain[i].sidecar), x.value)
    {
      assert x.history.chain[i] == r.history.chain[i - 1];
    }
  }

  lemma LengthenedStaysFine(
      context: ValidationContext, units: map<nat, ConfirmedUnit>, n: nat, unit: ConfirmedUnit, r: LocalValueRecord, x: LocalValueRecord)
    requires RecordFine(context, units, n, r) && Lengthened(x, r, unit) && r.acquiredAt < HeightOf(unit)
    requires unit.receipt.seqNo == n + 1 && !ClaimsIntersect(SidecarClaims(unit.sidecar), r.value) && x.status != Archived
    ensures RecordFine(context, units[n + 1 := unit], n + 1, x)
  {
    LengthenedAnchor(context, units, n, unit, r, x);
    OlderUnitsMiss(context, unit, r, x);
  }

  // ----- Records that are sent away

  lemma {:induction false} FirstTxNames(txs: seq<OffChainTx>, v: ValueRange)
    requires v in TxValues(txs)
    ensures FirstTxWith(txs, v).Some? && FirstTxWith(txs, v).value in txs && v in FirstTxWith(txs, v).value.values
  {
    TxValuesHold(txs, v);
    var i :| 0 <= i < |txs| && v in txs[i].values;
    SomeTxHas(txs, i, v);
    var k := FirstTxAt(txs, v);
  }

  /** Every unit of a lengthened record's chain passes the validator's checks. */
  lemma SentUnitPasses(
      address: Address, units: map<nat, ConfirmedUnit>, n: nat, top: nat, chain: seq<ConfirmedUnit>, i: nat,
      tx: OffChainTx, v: ValueRange)
    requires UnitsChain(address, units, n, top) && IsRun(units, chain, n) && i < |chain|
    requires i == 0 ==> NonOverlapping(chain[0].sidecar.txs) && tx in chain[0].sidecar.txs && v in tx.values
    requires i > 0 ==> !ClaimsIntersect(SidecarClaims(chain[i].sidecar), v)
    ensures UnitError(v, chain, i, tx).None?
  {
    RunSeqs(address, units, n, top, chain, n, i);
    if i == 0 {
      NothingBeside(chain[0].sidecar.txs, tx, v);
    }
  }

  lemma {:induction false} SentSegmentPasses(
      address: Address, units: map<nat, ConfirmedUnit>, n: nat, top: nat, chain: seq<ConfirmedUnit>, tx: OffChainTx, v: ValueRange)
    requires UnitsChain(address, units, n, top) && IsRun(units, chain, n) && chain != []
    requires NonOverlapping(chain[0].sidecar.txs) && tx in chain[0].sidecar.txs && v in tx.values
    requires forall i {:trigger chain[i]} :: 0 < i < |chain| ==> !ClaimsIntersect(SidecarClaims(chain[i].sidecar), v)
    ensures SegmentError(v, chain, 0, tx).None?
  {
    forall i | 0 <= i < |chain| ensures UnitError(v, chain, i, tx).None? {
      SentUnitPasses(address, units, n, top, chain, i, tx, v);
    }
  }

  lemma {:induction false} AcceptedIfPartsAre(context: ValidationContext, tx: OffChainTx, v: ValueRange, w: Witness)
    requires w.owner == tx.sender && v in tx.values && w.chain != [] && CountTx(w.chain[0].sidecar.txs, tx) == 1
    requires SegmentError(v, w.chain, 0, tx).None? && AnchorError(context, v, w).None?
    ensures Accepts(context, tx, v, w, tx.recipient)
  {
    var j :| 0 <= j < |tx.values| && tx.values[j] == v;
    assert tx.values[j].Contains(v);
  }

  /** A record with the unit that sends it away on top passes its recipient's validator. */
  lemma {:induction false} SentIsValid(
      context: ValidationContext, address: Address, units: map<nat, ConfirmedUnit>, n: nat, top: nat, x: LocalValueRecord)
    requires UnitsChain(address, units, n, top) && IsRun(units, x.history.chain, n) && x.history.chain != []
    requires x.history.owner == address && AnchorError(context, x.value, x.history).None?
    requires NonOverlapping(x.history.chain[0].sidecar.txs) && x.value in TxValues(x.history.chain[0].sidecar.txs)
    requires forall i {:trigger x.history.chain[i]} :: 0 < i < |x.history.chain| ==>
               !ClaimsIntersect(SidecarClaims(x.history.chain[i].sidecar), x.value)
    ensures SentValid(context, x)
  {
    var sidecar := x.history.chain[0].sidecar;
    FirstTxNames(sidecar.txs, x.value);
    var tx := TxOf(x).value;
    RunSeqs(address, units, n, top, x.history.chain, n, 0);
    var k :| 0 <= k < |sidecar.txs| && sidecar.txs[k] == tx;
    SentSegmentPasses(address, units, n, top, x.history.chain, tx, x.value);
    CountedOnce(sidecar.txs, tx);
    AcceptedIfPartsAre(context, tx, x.value, x.history);
  }

  lemma {:induction false} OutgoingIsSent(
      context: ValidationContext, address: Address, units: map<nat, ConfirmedUnit>, n: nat, top: nat, unit: ConfirmedUnit,
      r: LocalValueRecord, x: LocalValueRecord)
    requires UnitsChain(address, units, n, top) && IsRun(units, x.history.chain, n)
    requires Lengthened(x, r, unit) && LiveValid(context, r.history, r.value) && r.history.owner == address
    requires AnchorError(context, x.value, x.history).None?
    requires NonOverlapping(unit.sidecar.txs) && r.value in TxValues(unit.sidecar.txs)
    ensures SentValid(context, x)
  {
    OlderUnitsMiss(context, unit, r, x);
    SentIsValid(context, address, units, n, top, x);
  }

  lemma OutgoingBecomesFine(
      context: ValidationContext, address: Address, units: map<nat, ConfirmedUnit>, n: nat, top: nat, unit: ConfirmedUnit,
      r: LocalValueRecord, x: LocalValueRecord)
    requires UnitsChain(address, units[n + 1 := unit], n + 1, top) && unit.receipt.seqNo == n + 1
    requires RecordFine(context, units, n, r) && Lengthened(x, r, unit) && r.acquiredAt < HeightOf(unit)
    requires r.history.owner == address && x.status == Archived
    requires NonOverlapping(unit.sidecar.txs) && r.value in TxValues(unit.sidecar.txs)
    ensures RecordFine(context, units[n + 1 := unit], n + 1, x)
  {
    hide AnchorError, LiveValid, NonOverlapping, SentValid, UnitFine;
    LengthenedAnchor(context, units, n, unit, r, x);
    OutgoingIsSent(context, address, units[n + 1 := unit], n + 1, top, unit, r, x);
  }

  // ----- One record

  /** A pending bundle in an honest run, and the unit its receipt makes of it. */
  ghost predicate ReadyToSettle(w: Wallet, n: nat, top: nat, bundle: PendingBundleContext, unit: ConfirmedUnit) {
    && UnitsChain(w.address, w.units, n, top) && NextUnit(w.address, w.units, n, unit) && HeightOf(unit) <= top
    && unit.sidecar == bundle.sidecar
    && ContextOk(bundle, w.records, w.nextId, w.receipts.Keys) && Covered(bundle, w.records)
    && forall r :: r in w.records ==>
         && (r.status == PendingBundle ==> r.id in bundle.pendingIds)
         && (r.id in bundle.pendingIds ==> r.acquiredAt < HeightOf(unit))
  }

  /** A live record acquired at or above the unit's height has no confirmed unit yet. */
  lemma LateRecordIsFresh(
      context: ValidationContext, w: Wallet, n: nat, top: nat, unit: ConfirmedUnit, r: LocalValueRecord)
    requires UnitsChain(w.address, w.units, n, top) && NextUnit(w.address, w.units, n, unit)
    requires RecordFine(context, w.units, n, r) && r.status != Archived && r.acquiredAt >= HeightOf(unit)
    ensures r.history.chain == []
  {
    if r.history.chain != [] {
      RunSeqs(w.address, w.units, n, top, r.history.chain, n, |r.history.chain| - 1);
      assert false;
    }
  }

  lemma SettledLive(
      context: ValidationContext, w: Wallet, n: nat, top: nat, bundle: PendingBundleContext, unit: ConfirmedUnit,
      accepted: set<TransferPackage>, r: LocalValueRecord)
    requires ReadyToSettle(w, n, top, bundle, unit) && (forall p :: HeldBy(accepted, w.records, p) <= 1)
    requires RecordFine(context, w.units, n, r) && r in w.records && r.status != Archived && r.id !in bundle.outgoingIds
    ensures RecordFine(context, w.units[n + 1 := unit], n + 1, Settle(r, unit, bundle.pendingIds, bundle.outgoingIds))
  {
    if r.id in bundle.pendingIds || r.acquiredAt < HeightOf(unit) {
      BystanderIsUnclaimed(accepted, bundle, w.records, r);
      LengthenedStaysFine(context, w.units, n, unit, r, Settle(r, unit, bundle.pendingIds, bundle.outgoingIds));
    } else {
      LateRecordIsFresh(context, w, n, top, unit, r);
      UntouchedStaysFine(context, w.units, n, unit, r);
    }
  }

  lemma SettledOutgoing(
      context: ValidationContext, w: Wallet, n: nat, top: nat, bundle: PendingBundleContext, unit: ConfirmedUnit, r: LocalValueRecord)
    requires ReadyToSettle(w, n, top, bundle, unit)
    requires RecordFine(context, w.units, n, r) && r in w.records && r.history.owner == w.address && r.id in bundle.outgoingIds
    ensures RecordFine(context, w.units[n + 1 := unit], n + 1, Settle(r, unit, bundle.pendingIds, bundle.outgoingIds))
    ensures Settle(r, unit, bundle.pendingIds, bundle.outgoingIds).status == Archived
    ensures Settle(r, unit, bundle.pendingIds, bundle.outgoingIds).history.chain == [unit] + r.history.chain
  {
    assert MarksOk(bundle, r);
    UnitsGrow(w.address, w.units, n, top, unit);
    OutgoingBecomesFine(context, w.address, w.units, n, top, unit, r, Settle(r, unit, bundle.pendingIds, bundle.outgoingIds));
  }

  lemma SettledIsFine(
      context: ValidationContext, w: Wallet, n: nat, top: nat, bundle: PendingBundleContext, unit: ConfirmedUnit,
      accepted: set<TransferPackage>, r: LocalValueRecord)
    requires ReadyToSettle(w, n, top, bundle, unit) && (forall p :: HeldBy(accepted, w.records, p) <= 1)
    requires RecordFine(context, w.units, n, r) && r in w.records && r.history.owner == w.address
    ensures RecordFine(context, w.units[n + 1 := unit], n + 1, Settle(r, unit, bundle.pendingIds, bundle.outgoingIds))
  {
    if r.status == Archived {
      UntouchedStaysFine(context, w.units, n, unit, r);
    } else if r.id in bundle.outgoingIds {
      SettledOutgoing(context, w, n, top, bundle, unit, r);
    } else {
      SettledLive(context, w, n, top, bundle, unit, accepted, r);
    }
  }

  // ----- Pairs of records

  ghost predicate SeqsUpTo(r: LocalValueRecord, n: nat) {
    forall i {:trigger r.history.chain[i]} :: 0 <= i < |r.history.chain| ==> r.history.chain[i].receipt.seqNo <= n
  }

  lemma FineSeqs(
      context: ValidationContext, address: Address, units: map<nat, ConfirmedUnit>, n: nat, top: nat,
      r: LocalValueRecord)
    requires UnitsChain(address, units, n, top) && RecordFine(context, units, n, r)
    ensures SeqsUpTo(r, n)
  {
    forall i {:trigger r.history.chain[i]} | 0 <= i < |r.history.chain| ensures r.history.chain[i].receipt.seqNo <= n {
      RunSeqs(address, units, n, top, r.history.chain, TopSeq(r.history), i);
    }
  }

  /** A new unit is shared with no record whose units are all older. */
  lemma StillUnshared(x: LocalValueRecord, y: LocalValueRecord, longer: LocalValueRecord, unit: ConfirmedUnit, n: nat)
    requires NoSharedUnit(x, y) && SeqsUpTo(y, n) && unit.receipt.seqNo == n + 1
    requires longer.history.chain == x.history.chain || longer.history.chain == [unit] + x.history.chain
    ensures NoSharedUnit(longer, y) && NoSharedUnit(y, longer)
  {
    forall i, j {:trigger longer.history.chain[i], y.history.chain[j]} |
      0 <= i < |longer.history.chain| && 0 <= j < |y.history.chain|
      ensures longer.history.chain[i].receipt.seqNo != y.history.chain[j].receipt.seqNo
    {
      if longer.history.chain != x.history.chain && i > 0 {
        assert longer.history.chain[i] == x.history.chain[i - 1];
      }
    }
  }

  lemma SettledPairApart(
      context: ValidationContext, w: Wallet, n: nat, top: nat, unit: ConfirmedUnit, pendingIds: seq<nat>, outgoingIds: seq<nat>,
      accepted: set<TransferPackage>, x: LocalValueRecord, y: LocalValueRecord)
    requires UnitsChain(w.address, w.units, n, top) && unit.receipt.seqNo == n + 1
    requires RecordsFine(context, w.units, n, w.records) && forall p :: HeldBy(accepted, w.records, p) <= 1
    requires x in w.records && y in w.records && x.id != y.id
    ensures Apart(x.value, y.value)
         || NoSharedUnit(Settle(x, unit, pendingIds, outgoingIds), Settle(y, unit, pendingIds, outgoingIds))
         || (Settle(y, unit, pendingIds, outgoingIds).status != Archived)
  {
    hide HeldBy, LiveValid, SentValid, UnitsChain;
    if y.status == Archived {
      assert Apart(x.value, y.value) || NoSharedUnit(x, y);
      FineSeqs(context, w.address, w.units, n, top, y);
      if NoSharedUnit(x, y) {
        StillUnshared(x, y, Settle(x, unit, pendingIds, outgoingIds), unit, n);
      }
    } else if x.status == Archived {
      assert Apart(y.value, x.value) || NoSharedUnit(y, x);
      FineSeqs(context, w.address, w.units, n, top, x);
      if NoSharedUnit(y, x) {
        StillUnshared(y, x, Settle(y, unit, pendingIds, outgoingIds), unit, n);
      }
    } else {
      LiveRecordsApart(accepted, w.records, x, y);
    }
  }

  lemma SettledRecordsFine(
      context: ValidationContext, w: Wallet, n: nat, top: nat, bundle: PendingBundleContext, unit: ConfirmedUnit,
      accepted: set<TransferPackage>, settled: Records)
    requires ReadyToSettle(w, n, top, bundle, unit) && (forall p :: HeldBy(accepted, w.records, p) <= 1)
    requires (forall r :: r in w.records ==> RecordFine(context, w.units, n, r) && r.history.owner == w.address)
    requires settled == Stored(MapSeq(Settler(unit, bundle.pendingIds, bundle.outgoingIds), w.records))
    ensures forall x :: x in settled ==> RecordFine(context, w.units[n + 1 := unit], n + 1, x)
  {
    forall x | x in settled ensures RecordFine(context, w.units[n + 1 := unit], n + 1, x) {
      var r := ChangedMembers(w.records, Settler(unit, bundle.pendingIds, bundle.outgoingIds), x);
      SettledIsFine(context, w, n, top, bundle, unit, accepted, r);
    }
  }

  lemma SettledMembersApart(
      context: ValidationContext, w: Wallet, n: nat, top: nat, unit: ConfirmedUnit, pendingIds: seq<nat>, outgoingIds: seq<nat>,
      accepted: set<TransferPackage>, settled: Records, x: LocalValueRecord, y: LocalValueRecord)
    requires UnitsChain(w.address, w.units, n, top) && unit.receipt.seqNo == n + 1
    requires RecordsFine(context, w.units, n, w.records) && forall p :: HeldBy(accepted, w.records, p) <= 1
    requires settled == Stored(MapSeq(Settler(unit, pendingIds, outgoingIds), w.records))
    requires x in settled && y in settled && y.status == Archived && x.id != y.id
    ensures Apart(x.value, y.value) || NoSharedUnit(x, y)
  {
    hide HeldBy, LiveValid, SentValid, UnitsChain;
    var r := ChangedMembers(w.records, Settler(unit, pendingIds, outgoingIds), x);
    var s := ChangedMembers(w.records, Settler(unit, pendingIds, outgoingIds), y);
    SettledPairApart(context, w, n, top, unit, pendingIds, outgoingIds, accepted, r, s);
  }

  lemma SettledPairsApart(
      context: ValidationContext, w: Wallet, n: nat, top: nat, unit: ConfirmedUnit, pendingIds: seq<nat>, outgoingIds: seq<nat>,
      accepted: set<TransferPackage>, settled: Records)
    requires UnitsChain(w.address, w.units, n, top) && unit.receipt.seqNo == n + 1
    requires RecordsFine(context, w.units, n, w.records) && forall p :: HeldBy(accepted, w.records, p) <= 1
    requires settled == Stored(MapSeq(Settler(unit, pendingIds, outgoingIds), w.records))
    ensures ArchivedApart(settled)
  {
    forall x, y {:trigger NoSharedUnit(x, y)} | x in settled && y in settled && y.status == Archived && x.id != y.id
      ensures Apart(x.value, y.value) || NoSharedUnit(x, y)
    {
      SettledMembersApart(context, w, n, top, unit, pendingIds, outgoingIds, accepted, settled, x, y);
    }
  }

  /** Confirming keeps every record fine, now with one more unit. */
  lemma SettledAreFine(
      context: ValidationContext, w: Wallet, n: nat, top: nat, bundle: PendingBundleContext, unit: ConfirmedUnit,
      accepted: set<TransferPackage>)
    requires ReadyToSettle(w, n, top, bundle, unit) && (forall p :: HeldBy(accepted, w.records, p) <= 1)
    requires RecordsFine(context, w.units, n, w.records) && RecordsOk(w.address, w.nextId, w.receipts.Keys, w.records)
    ensures RecordsFine(context, w.units[n + 1 := unit], n + 1,
                        Stored(MapSeq(Settler(unit, bundle.pendingIds, bundle.outgoingIds), w.records)))
  {
    var settled := Stored(MapSeq(Settler(unit, bundle.pendingIds, bundle.outgoingIds), w.records));
    OwnRecords(w);
    SettledRecordsFine(context, w, n, top, bundle, unit, accepted, settled);
    SettledPairsApart(context, w, n, top, unit, bundle.pendingIds, bundle.outgoingIds, accepted, settled);
  }

  /** The unit a wallet confirms in an honest run is its next one. */
  lemma ConfirmedUnitIsNext(w: Wallet, n: nat, top: nat, receipt: Receipt)
    requires UnitsChain(w.address, w.units, n, top) && receipt.seqNo == n + 1 && OnReceiptConfirmed(w, receipt).Ok?
    requires w.pending[receipt.seqNo].sidecar.sender == w.address
    requires ClaimHashOk(receipt.claimSetHash, w.pending[receipt.seqNo].sidecar)
    requires receipt.prevRef.Some? ==> receipt.prevRef.value.height < receipt.header.height
    ensures NextUnit(w.address, w.units, n, ConfirmedUnit(receipt, w.pending[receipt.seqNo].sidecar))
  {
    assert ReceiptError(w, receipt).None?;
    if n > 0 {
      assert receipt.seqNo - 1 == n;
    }
  }

  /** Every range of a confirmed bundle has its archived record, whose history ends with the confirming unit. */
  lemma SentRecordExists(w: Wallet, n: nat, top: nat, bundle: PendingBundleContext, unit: ConfirmedUnit, v: ValueRange)
      returns (x: LocalValueRecord)
    requires ReadyToSettle(w, n, top, bundle, unit) && v in TxValues(bundle.sidecar.txs)
    ensures x in Stored(MapSeq(Settler(unit, bundle.pendingIds, bundle.outgoingIds), w.records))
    ensures x.status == Archived && x.value == v && x.history.chain != [] && x.history.chain[0] == unit
  {
    var f := Settler(unit, bundle.pendingIds, bundle.outgoingIds);
    var r :| r in w.records && r.id in bundle.outgoingIds && r.value == v;
    assert MarksOk(bundle, r);
    var k :| 0 <= k < |w.records| && w.records[k] == r;
    StoredFacts(MapSeq(f, w.records));
    x := MapSeq(f, w.records)[k];
  }
}

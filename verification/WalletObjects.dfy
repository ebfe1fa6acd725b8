/** The mutable wallet: every operation either finishes or raises before it has stored anything. */
module WalletObjects {
  import opened Prelude
  import opened Sorting
  import opened Values
  import opened Types
  import opened ClaimSets
  import opened Ledger
  import opened SparseMerkle
  import opened Validation
  import opened Selection
  import opened Partitions
  import opened Wallets
  import opened TwoPhase
  import opened BundleRules

  class WalletAccountV2 {
    const address: Address
    const genesisBlockHash: Hash
    var records: Records
    var checkpoints: seq<Checkpoint>
    var pending: map<nat, PendingBundleContext>
    var receipts: map<nat, Receipt>
    var units: map<nat, ConfirmedUnit>
    var headers: map<nat, HeaderLite>
    var accepted: set<TransferPackage>
    var nextId: nat

    function State(): Wallet reads this {
      Wallet(address, genesisBlockHash, records, checkpoints, pending, receipts, units, headers, accepted, nextId)
    }

    constructor (address: Address, genesisBlockHash: Hash)
      ensures State() == FreshWallet(address, genesisBlockHash)
    {
      this.address, this.genesisBlockHash := address, genesisBlockHash;
      records, checkpoints, pending, receipts, units, headers, accepted, nextId := [], [], map[], map[], map[], map[], {}, 0;
    }

    /** Replaces the stored records and reads them back in their stored order. */
    method PersistRecords(updated: Records)
      modifies this`records
      ensures records == Stored(updated)
    {
      records := Stored(updated);
    }

    method AddGenesis(value: ValueRange)
      modifies this
      ensures State() == AddGenesisValue(old(State()), value)
    {
      var history := Witness(value, address, [], GenesisAnchor(genesisBlockHash, address, value));
      PersistRecords(records + [LocalValueRecord(nextId, value, history, VerifiedSpendable, 0)]);
      nextId := nextId + 1;
    }

    method Observe(header: HeaderLite)
      modifies this
      ensures State() == ObserveHeader(old(State()), header)
    {
      headers := headers[header.height := header];
    }

    // ----- Assigning and building

    method FindFit(assignments: Assignments, target: ValueRange) returns (fit: Option<LocalValueRecord>)
      ensures fit == FirstFit(records, assignments, target)
    {
      assert records[0..] == records;
      for j := 0 to |records|
        invariant FirstFit(records[j..], assignments, target) == FirstFit(records, assignments, target)
      {
        assert records[j..][1..] == records[j + 1..];
        if Fits(records[j], assignments, target) {
          return Some(records[j]);
        }
      }
      fit := None;
    }

    static lemma {:induction false} AssignStaysNone(records: Records, targets: seq<ValueRange>, i: nat)
      requires i <= |targets| && Assign(records, targets[..i]).None?
      ensures Assign(records, targets).None?
    {
      if i < |targets| {
        assert targets[..|targets| - 1][..i] == targets[..i];
        AssignStaysNone(records, targets[..|targets| - 1], i);
      } else {
        assert targets[..i] == targets;
      }
    }

    /** Gives each target to the first record that can take it. */
    method AssignTargets(targets: seq<ValueRange>) returns (r: Option<Assignments>)
      ensures r == Assign(records, targets)
    {
      var assignments: Assignments := map[];
      for i := 0 to |targets|
        invariant Assign(records, targets[..i]) == Some(assignments)
      {
        assert targets[..i + 1][..i] == targets[..i];
        var fit := FindFit(assignments, targets[i]);
        if fit.None? {
          AssignStaysNone(records, targets, i + 1);
          return None;
        }
        assignments := assignments[fit.value.id := AssignedTo(assignments, fit.value.id) + [targets[i]]];
      }
      assert targets[..|targets|] == targets;
      r := Some(assignments);
    }

    static lemma {:induction false} RefusedStays(records: Records, assignments: Assignments, i: nat)
      requires i <= |records| && SplitError(records[..i], assignments).Some?
      ensures SplitError(records, assignments) == SplitError(records[..i], assignments)
    {
      if i < |records| {
        assert records[..|records| - 1][..i] == records[..i];
        RefusedStays(records[..|records| - 1], assignments, i);
      } else {
        assert records[..i] == records;
      }
    }

    static lemma {:induction false} SplitNext(records: Records, assignments: Assignments, firstId: nat, i: nat)
      requires i < |records|
      ensures var b, r := SplitAssigned(records[..i], assignments, firstId), records[i];
              var targets := AssignedTo(assignments, r.id);
              var segments := SegmentsOf(r.value, targets);
              && SplitAssigned(records[..i + 1], assignments, firstId)
                 == (if targets == [] then b.(records := b.records + [r])
                     else Built(b.records + PendingSegments(r, segments, b.nextId),
                                b.pendingIds + seq(|segments|, k requires 0 <= k < |segments| => b.nextId + k),
                                b.outgoingIds + OutgoingIdsOf(segments, b.nextId),
                                b.nextId + |segments|))
              && SplitError(records[..i + 1], assignments)
                 == (if SplitError(records[..i], assignments).Some? then SplitError(records[..i], assignments)
                     else if targets == [] then None else ErrorOf(r.value, targets))
    {
      assert records[..i + 1][..i] == records[..i];
    }

    /** Replaces every assigned record by its segments, on a copy of the list. */
    method SplitRecords(assignments: Assignments) returns (r: Result<Built, PartitionError>)
      ensures var error := SplitError(records, assignments);
              r == if error.Some? then Err(error.value) else Ok(SplitAssigned(records, assignments, nextId))
    {
      var built := Built([], [], [], nextId);
      for i := 0 to |records|
        invariant built == SplitAssigned(records[..i], assignments, nextId)
        invariant SplitError(records[..i], assignments).None?
      {
        SplitNext(records, assignments, nextId, i);
        var record := records[i];
        var targets := AssignedTo(assignments, record.id);
        if targets == [] {
          built := built.(records := built.records + [record]);
        } else {
          var segments := PartitionRange(record.value, targets);
          if segments.Err? {
            RefusedStays(records, assignments, i + 1);
            return Err(segments.error);
          }
          built := Built(built.records + PendingSegments(record, segments.value, built.nextId),
                         built.pendingIds + seq(|segments.value|, k requires 0 <= k < |segments.value| => built.nextId + k),
                         built.outgoingIds + OutgoingIdsOf(segments.value, built.nextId),
                         built.nextId + |segments.value|);
        }
      }
      assert records[..|records|] == records;
      r := Ok(built);
    }

    method BuildBundleFor(
        publicKey: PublicKey, signer: Address, txs: seq<OffChainTx>, seqNo: positive, options: BundleOptions)
        returns (r: Result<Submission, WalletError>)
      modifies this
      ensures var spec := BuildBundle(old(State()), publicKey, signer, txs, seqNo, options);
              && (spec.Ok? ==> State() == spec.value.0 && r == Ok(SubmissionFor(spec.value.1)))
              && (spec.Err? ==> State() == old(State()) && r == Err(spec.error))
    {
      hide Assign, SplitAssigned;
      if publicKey.address != address {
        return Err(KeyMismatch);
      }
      if pending != map[] {
        return Err(AlreadyPending);
      }
      if txs == [] {
        return Err(NoTransfers);
      }
      var outgoing := SortRanges(TxValues(txs));
      if !NeighboursDisjoint(outgoing) {
        return Err(OverlappingOutgoing);
      }
      var assignments := AssignTargets(outgoing);
      if assignments.None? {
        return Err(NoCoveringRecord);
      }
      var built := SplitRecords(assignments.value);
      if built.Err? {
        return Err(RangePartition(built.error));
      }
      if exists i :: 0 <= i < |txs| && txs[i].sender != address {
        return Err(TxSenderMismatch);
      }
      var sidecar := Sidecar(address, txs);
      var context := ContextFor(publicKey, sidecar, signer, seqNo, options, built.value);
      pending := pending[seqNo as nat := context];
      PersistRecords(built.value.records);
      nextId := built.value.nextId;
      r := Ok(SubmissionFor(context));
    }

    /** Chooses ranges worth the amount and builds a bundle with the one transfer that pays them. */
    method BuildPaymentBundle(
        recipient: Address, amount: int, publicKey: PublicKey, signer: Address, options: BundleOptions, time: int,
        seqNo: Option<positive>, extra: Bytes)
        returns (r: Result<Submission, WalletError>, ghost paid: seq<ValueRange>)
      modifies this
      ensures r.Err? ==> State() == old(State())
      ensures amount <= 0 || old(pending) != map[] || TotalSize(Spendable(old(records))) < amount ==> r.Err?
      ensures r.Ok? && DisjointRecords(PurseOf(old(records), old(checkpoints), address).records) ==>
                && paid != [] && Ascending(paid) && SizeOfRanges(paid) == amount
                && r.value.sidecar == Sidecar(address, [OffChainTx(address, recipient, paid, 0, time, extra)])
      ensures DistinctIds(old(records)) && DisjointRecords(PurseOf(old(records), old(checkpoints), address).records) ==>
                (r.Ok? <==> 0 < amount <= TotalSize(Spendable(old(records))) && old(pending) == map[] && publicKey.address == address)
      ensures r.Ok? ==>
                var number := if seqNo.Some? then seqNo.value else NextSequence(old(State()));
                var spec := BuildBundle(old(State()), publicKey, signer, r.value.sidecar.txs, number, options);
                spec.Ok? && State() == spec.value.0 && r.value == SubmissionFor(spec.value.1)
    {
      paid := [];
      if amount <= 0 {
        r := Err(Unselected(AmountNotPositive));
        return;
      }
      if pending != map[] {
        r := Err(AlreadyPending);
        return;
      }
      var ranges, plan := SelectPaymentRanges(records, checkpoints, address, amount);
      if ranges.Err? {
        r := Err(Unselected(ranges.error));
        return;
      }
      if ranges.value == [] || !Ascending(ranges.value) {
        r := Err(InvalidTransfer);
        return;
      }
      paid := ranges.value;
      var tx := OffChainTx(address, recipient, ranges.value, 0, time, extra);
      var number := if seqNo.Some? then seqNo.value else NextSequence(State());
      if DistinctIds(records) {
        OnePaymentDecides(State(), publicKey, signer, tx, number, options);
      }
      r := BuildBundleFor(publicKey, signer, [tx], number, options);
    }

    // ----- Confirming

    static lemma {:induction false} ConfirmErrorStays(
        records: Records, address: Address, unit: ConfirmedUnit, outgoing: seq<ValueRange>,
        pendingIds: seq<nat>, outgoingIds: seq<nat>, firstId: nat, i: nat)
      requires i <= |records| && ConfirmRecords(records[..i], address, unit, outgoing, pendingIds, outgoingIds, firstId).Err?
      ensures ConfirmRecords(records, address, unit, outgoing, pendingIds, outgoingIds, firstId)
           == ConfirmRecords(records[..i], address, unit, outgoing, pendingIds, outgoingIds, firstId)
    {
      if i < |records| {
        assert records[..|records| - 1][..i] == records[..i];
        ConfirmErrorStays(records[..|records| - 1], address, unit, outgoing, pendingIds, outgoingIds, firstId, i);
      } else {
        assert records[..i] == records;
      }
    }

    method ConfirmOneRecord(
        record: LocalValueRecord, unit: ConfirmedUnit, outgoing: seq<ValueRange>, pendingIds: seq<nat>, outgoingIds: seq<nat>,
        firstId: nat) returns (r: Result<Records, PartitionError>)
      ensures r == ConfirmRecord(record, address, unit, outgoing, pendingIds, outgoingIds, firstId)
    {
      if record.status == Archived {
        return Ok([record]);
      }
      if record.id in pendingIds {
        var status := if record.id in outgoingIds then Archived else VerifiedSpendable;
        return Ok([record.(history := WithUnit(record.history, record.value, unit), status := status)]);
      }
      if record.status == PendingBundle || record.acquiredAt >= unit.receipt.header.height {
        return Ok([record]);
      }
      var targets := Containing(record.value, outgoing);
      if targets == [] {
        return Ok([record.(history := WithUnit(record.history, record.value, unit), status := VerifiedSpendable)]);
      }
      var segments := PartitionRange(record.value, targets);
      if segments.Err? {
        return Err(segments.error);
      }
      r := Ok(ConfirmedSegments(record, address, unit, segments.value, firstId));
    }

    /** The records a confirmed unit leads to, built beside the current ones. */
    method ConfirmAll(unit: ConfirmedUnit, outgoing: seq<ValueRange>, pendingIds: seq<nat>, outgoingIds: seq<nat>)
        returns (r: Result<Confirmed, PartitionError>)
      ensures r == ConfirmRecords(records, address, unit, outgoing, pendingIds, outgoingIds, nextId)
    {
      var confirmed := Confirmed([], nextId);
      for i := 0 to |records|
        invariant ConfirmRecords(records[..i], address, unit, outgoing, pendingIds, outgoingIds, nextId) == Ok(confirmed)
      {
        assert records[..i + 1][..i] == records[..i];
        var one := ConfirmOneRecord(records[i], unit, outgoing, pendingIds, outgoingIds, confirmed.nextId);
        if one.Err? {
          ConfirmErrorStays(records, address, unit, outgoing, pendingIds, outgoingIds, nextId, i + 1);
          return Err(one.error);
        }
        confirmed := Confirmed(confirmed.records + one.value, confirmed.nextId + |one.value|);
      }
      assert records[..|records|] == records;
      r := Ok(confirmed);
    }

    method CheckReceipt(receipt: Receipt) returns (error: Option<WalletError>)
      ensures error == ReceiptError(State(), receipt)
      ensures error.None? ==> receipt.seqNo as nat in pending && Lookup(headers, receipt.header.height) == Some(receipt.header)
    {
      if receipt.seqNo !in pending {
        return Some(NoPendingBundle);
      }
      if Lookup(headers, receipt.header.height) != Some(receipt.header) {
        return Some(UnknownHeader);
      }
      if receipt.seqNo == 1 {
        if receipt.prevRef.Some? {
          return Some(PrevRefMismatch);
        }
      } else {
        if (receipt.seqNo - 1) !in units {
          return Some(MissingPreviousUnit);
        }
        if Some(ConfirmedRef(units[receipt.seqNo - 1])) != receipt.prevRef {
          return Some(PrevRefMismatch);
        }
      }
      if receipt.proof.Batched? {
        return Some(SingleProofRequired);
      }
      var unit := ConfirmedUnit(receipt, pending[receipt.seqNo].sidecar);
      var verified := CheckProof(receipt.header.stateRoot, AddrKey(address), AccountLeafHash(ReconstructedLeaf(unit)),
                                 receipt.proof.proof, TREE_DEPTH);
      error := if verified then None else Some(ProofInvalid);
    }

    method ReceiptConfirmed(receipt: Receipt) returns (r: Result<ConfirmedUnit, WalletError>)
      modifies this
      ensures var spec := OnReceiptConfirmed(old(State()), receipt);
              && (spec.Ok? ==> State() == spec.value.0 && r == Ok(spec.value.1))
              && (spec.Err? ==> State() == old(State()) && r == Err(spec.error))
      ensures r.Ok? ==>
                receipt.seqNo as nat in old(pending) && Lookup(headers, receipt.header.height) == Some(receipt.header)
    {
      var error := CheckReceipt(receipt);
      if error.Some? {
        return Err(error.value);
      }
      var context := pending[receipt.seqNo];
      var unit := ConfirmedUnit(receipt, context.sidecar);
      var confirmed := ConfirmAll(unit, [], context.pendingIds, context.outgoingIds);
      ConfirmPendingSucceeds(records, address, unit, context.pendingIds, context.outgoingIds, nextId);
      receipts := receipts[receipt.seqNo as nat := receipt];
      units := units[receipt.seqNo as nat := unit];
      pending := pending - {receipt.seqNo};
      PersistRecords(confirmed.value.records);
      nextId := confirmed.value.nextId;
      r := Ok(unit);
    }

    method ApplyConfirmedUnit(unit: ConfirmedUnit, outgoingValues: seq<ValueRange>) returns (error: Option<WalletError>)
      modifies this
      ensures var spec := ApplySenderConfirmedUnit(old(State()), unit, outgoingValues);
              && (spec.Ok? ==> State() == spec.value && error == None)
              && (spec.Err? ==> State() == old(State()) && error == Some(spec.error))
    {
      var confirmed := ConfirmAll(unit, SortRanges(outgoingValues), [], []);
      if confirmed.Err? {
        return Some(RangePartition(confirmed.error));
      }
      PersistRecords(confirmed.value.records);
      nextId := confirmed.value.nextId;
      error := None;
    }

    // ----- Missing receipts and rollback

    method ReceiptIsMissing(seqNo: nat) returns (error: Option<WalletError>)
      modifies this
      ensures var spec := MarkReceiptMissing(old(State()), seqNo);
              && (spec.Ok? ==> State() == spec.value && error == None)
              && (spec.Err? ==> State() == old(State()) && error == Some(spec.error))
    {
      if seqNo !in pending {
        return Some(NoPendingBundle);
      }
      var ids := pending[seqNo].pendingIds;
      var updated: Records := [];
      for i := 0 to |records|
        invariant updated == MarkMissing(records[..i], ids)
      {
        assert records[..i + 1][..i] == records[..i];
        var record := records[i];
        if record.id in ids && record.status == PendingBundle {
          updated := updated + [record.(status := ReceiptMissing)];
        } else {
          updated := updated + [record];
        }
      }
      assert records[..|records|] == records;
      PersistRecords(updated);
      error := None;
    }

    method RollBack(seqNo: nat) returns (error: Option<WalletError>)
      modifies this
      ensures var spec := RollbackPendingBundle(old(State()), seqNo);
              && (spec.Ok? ==> State() == spec.value && error == None)
              && (spec.Err? ==> State() == old(State()) && error == Some(spec.error))
      ensures error.None? <==> seqNo in old(pending)
      ensures error.None? ==> AllSpendable(records, old(pending)[seqNo].pendingIds)
    {
      if seqNo !in pending {
        return Some(NoPendingBundle);
      }
      var ids := pending[seqNo].pendingIds;
      var updated: Records := [];
      for i := 0 to |records|
        invariant updated == Release(records[..i], ids)
      {
        assert records[..i + 1][..i] == records[..i];
        updated := updated + [if records[i].id in ids then records[i].(status := VerifiedSpendable) else records[i]];
      }
      assert records[..|records|] == records;
      ReleasedAreSpendable(records, ids);
      pending := pending - {seqNo};
      PersistRecords(updated);
      error := None;
    }

    // ----- Packages

    method Export(tx: OffChainTx, value: ValueRange) returns (r: Result<TransferPackage, WalletError>)
      ensures r == ExportTransferPackage(State(), tx, value)
    {
      assert records[0..] == records;
      for i := 0 to |records|
        invariant FirstExport(records[i..], address, tx, value) == FirstExport(records, address, tx, value)
        invariant tx.sender != address ==> forall j :: 0 <= j < i ==> !SentAway(records[j], address, value)
      {
        assert records[i..][1..] == records[i + 1..];
        if SentAway(records[i], address, value) {
          if tx.sender != address {
            return Err(TxSenderMismatch);
          }
          if Exports(records[i], address, tx, value) {
            return Ok(PackageOf(records[i], tx));
          }
        }
      }
      r := Err(NoArchivedRecord);
    }

    method Receive(
        package: TransferPackage, context: ValidationContext) returns (r: Result<LocalValueRecord, WalletError>)
      modifies this
      ensures var spec := ReceiveTransfer(old(State()), package, context);
              && (spec.Ok? ==> State() == spec.value && r.Ok? && r.value.value == package.value && r.value.status == VerifiedSpendable)
              && (spec.Err? ==> State() == old(State()) && r == Err(spec.error))
    {
      if package in accepted {
        return Err(AlreadyAccepted);
      }
      var validated := ValidatePackage(context, package, Some(address));
      if validated.Err? {
        return Err(Refused(validated.error));
      }
      var record := LocalValueRecord(nextId, package.value, Rehydrate(State(), validated.value), VerifiedSpendable,
                                     package.history.chain[0].receipt.header.height);
      PersistRecords(records + [record]);
      accepted := accepted + {package};
      nextId := nextId + 1;
      r := Ok(record);
    }

    method Checkpoint(record: LocalValueRecord) returns (error: Option<WalletError>)
      modifies this
      ensures var spec := CreateExactCheckpoint(old(State()), record);
              && (spec.Ok? ==> State() == spec.value && error == None)
              && (spec.Err? ==> State() == old(State()) && error == Some(spec.error))
    {
      if record !in records {
        return Some(NoSuchRecord);
      }
      if record.history.chain == [] {
        return Some(NothingConfirmed);
      }
      var latest := record.history.chain[0];
      checkpoints := SaveCheckpoint(checkpoints, Types.Checkpoint(record.value, address, latest.receipt.header.height,
                                                                  latest.receipt.header.blockHash, BundleBodyHash(latest.sidecar)));
      error := None;
    }
  }
}

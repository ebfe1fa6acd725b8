/**
  Shortened histories: a package ends at the recipient's own earlier ownership of the range, which the recipient
  trusts because it still has the record, and from which it restores the full history.
 */
module Traces {
  import opened Prelude
  import opened Sorting
  import opened Values
  import opened Types
  import opened ClaimSets
  import opened Ledger
  import opened Validation
  import opened Selection
  import opened Wallets
  import opened TwoPhase
  import opened WalletInvariants
  import opened HonestWallets
  import opened HonestConfirms

  // ----- What a wallet still has of a history

  /** The archived record that a history's node was sent from. */
  ghost predicate KeptAs(r: LocalValueRecord, node: Witness) {
    && r.status == Archived
    && r.value == node.value == r.history.value && r.history.owner == node.owner
    && r.history.chain != [] && node.chain != [] && r.history.chain[0] == node.chain[0]
  }

  /** If the node is the wallet's, the wallet still has its record. */
  ghost predicate NodeKept(w: Wallet, node: Witness) {
    node.owner == w.address ==> exists r :: r in w.records && KeptAs(r, node)
  }

  /** The wallet still has the record of every earlier node that is its own. */
  ghost predicate TracedFor(w: Wallet, history: Witness)
    decreases history
  {
    history.anchor.PriorWitnessLink? ==> NodeKept(w, history.anchor.prior) && TracedFor(w, history.anchor.prior)
  }

  lemma NodeStaysKept(w: Wallet, after: Wallet, node: Witness)
    requires after.address == w.address && KeepsArchived(w.records, after.records) && NodeKept(w, node)
    ensures NodeKept(after, node)
  {
    if node.owner == w.address {
      var r :| r in w.records && KeptAs(r, node);
      assert r in after.records;
    }
  }

  lemma {:induction false} StaysTraced(w: Wallet, after: Wallet, history: Witness)
    requires after.address == w.address && KeepsArchived(w.records, after.records) && TracedFor(w, history)
    ensures TracedFor(after, history)
    decreases history
  {
    if history.anchor.PriorWitnessLink? {
      NodeStaysKept(w, after, history.anchor.prior);
      StaysTraced(w, after, history.anchor.prior);
    }
  }

  // ----- The recipient trusts where a package ends

  lemma {:induction false} FoundIfPresent(records: Records, checkpoint: Checkpoint, r: LocalValueRecord)
    requires r in records && r.value == checkpoint.value && CheckpointMatches(checkpoint, r.history)
    ensures FindCheckpointed(records, checkpoint).Some?
  {
    if !(records[0].value == checkpoint.value && CheckpointMatches(checkpoint, records[0].history)) {
      FoundIfPresent(records[1..], checkpoint, r);
    }
  }

  lemma {:induction false} FoundIsPresent(records: Records, checkpoint: Checkpoint) returns (r: LocalValueRecord)
    requires FindCheckpointed(records, checkpoint).Some?
    ensures r in records && r.value == checkpoint.value && CheckpointMatches(checkpoint, r.history)
    ensures FindCheckpointed(records, checkpoint) == Some(r.history)
  {
    r := records[0];
    if !(r.value == checkpoint.value && CheckpointMatches(checkpoint, r.history)) {
      r := FoundIsPresent(records[1..], checkpoint);
    }
  }

  /** The history ends at this node when it is sent to its owner. */
  predicate EndsHere(node: Witness, recipient: Address, value: ValueRange) {
    node.owner == recipient && node.value == value && node.chain != []
  }

  lemma KeptRecordMatches(w: Wallet, node: Witness, value: ValueRange) returns (r: LocalValueRecord)
    requires EndsHere(node, w.address, value) && NodeKept(w, node)
    ensures r in w.records && KeptAs(r, node) && CheckpointMatches(CheckpointOf(node).value, r.history)
    ensures LocalWitness(w, CheckpointOf(node).value).Some?
  {
    var checkpoint := CheckpointOf(node).value;
    r :| r in w.records && KeptAs(r, node);
    assert UnitMatches(checkpoint, r.history.chain[0]);
    FoundIfPresent(w.records, checkpoint, r);
  }

  lemma {:induction false} TrustedEnd(context: ValidationContext, w: Wallet, node: Witness, value: ValueRange)
    requires EndsHere(node, w.address, value) && NodeKept(w, node)
    requires forall c :: c in TrustedCheckpoints(w, TrimForRecipient(node, w.address, value)) ==> c in context.trusted
    ensures AnchorError(context, value, TrimForRecipient(node, w.address, value)).None?
  {
    var r := KeptRecordMatches(w, node, value);
    var checkpoint := CheckpointOf(node).value;
    assert checkpoint in TrustedCheckpoints(w, TrimForRecipient(node, w.address, value));
    var i :| 0 <= i < |context.trusted| && context.trusted[i] == checkpoint;
    assert context.trusted[i].Matches(value, w.address);
  }

  /** What the checks of one hop depend on, beside the anchor. */
  lemma {:induction false} HopOfSameTop(
      full: ValidationContext, context: ValidationContext, tx: OffChainTx, value: ValueRange, node: Witness, other: Witness, to: Address)
    requires Accepts(full, tx, value, node, to)
    requires other.owner == node.owner && other.chain == node.chain && AnchorError(context, value, other).None?
    ensures Accepts(context, tx, value, other, to)
  {
  }

  lemma {:induction false} LinkedAnchor(
      context: ValidationContext, value: ValueRange, node: Witness, linked: Witness, prior: Witness)
    requires node.anchor.PriorWitnessLink? && node.anchor.prior.chain != [] && prior.chain != [] && node.chain != []
    requires linked == node.(anchor := PriorWitnessLink(node.anchor.acquireTx, prior))
    requires Accepts(context, node.anchor.acquireTx, value, prior, node.owner)
    requires prior.chain[0] == node.anchor.prior.chain[0]
    requires node.anchor.prior.chain[0].receipt.header.height < node.chain[|node.chain| - 1].receipt.header.height
    ensures AnchorError(context, value, linked).None?
  {
  }

  /** What was accepted in full is accepted shortened, by the recipient with the checkpoints it can vouch for. */
  lemma {:induction false} TrimmedIsTrusted(
      full: ValidationContext, context: ValidationContext, w: Wallet, tx: OffChainTx, value: ValueRange, node: Witness, to: Address)
    requires Accepts(full, tx, value, node, to) && !HasCheckpoint(node) && NodeKept(w, node) && TracedFor(w, node)
    requires context.genesis == full.genesis
    requires forall c :: c in TrustedCheckpoints(w, TrimForRecipient(node, w.address, value)) ==> c in context.trusted
    ensures Accepts(context, tx, value, TrimForRecipient(node, w.address, value), to)
    decreases node
  {
    var trimmed := TrimForRecipient(node, w.address, value);
    TrimKeepsTop(node, w.address, value);
    if EndsHere(node, w.address, value) {
      TrustedEnd(context, w, node, value);
    } else {
      match node.anchor
      case GenesisAnchor(_, _, _) => assert AnchorError(full, value, node).None?;
      case PriorWitnessLink(acquireTx, prior) =>
        LinkAccepted(full, tx, value, node, to);
        TrimmedIsTrusted(full, context, w, acquireTx, value, prior, node.owner);
        TrimKeepsTop(prior, w.address, value);
        LinkedAnchor(context, value, node, trimmed, TrimForRecipient(prior, w.address, value));
    }
    HopOfSameTop(full, context, tx, value, node, trimmed, to);
  }

  // ----- The recipient restores the full history

  /** Two units of one wallet at one height are the same unit. */
  lemma SameHeightSameSeq(
      address: Address, units: map<nat, ConfirmedUnit>, n: nat, top: nat, a: seq<ConfirmedUnit>, m: nat, i: nat,
      b: seq<ConfirmedUnit>, k: nat, j: nat)
    requires UnitsChain(address, units, n, top) && m <= n && k <= n
    requires IsRun(units, a, m) && IsRun(units, b, k) && i < |a| && j < |b| && HeightOf(a[i]) == HeightOf(b[j])
    ensures a[i].receipt.seqNo == b[j].receipt.seqNo
  {
    assert RunAt(units, a, m, i) && RunAt(units, b, k, j);
    if m - i < k - j {
      HeightsRise(address, units, n, top, m - i, k - j);
    } else if k - j < m - i {
      HeightsRise(address, units, n, top, k - j, m - i);
    }
  }

  /** A wallet of an honest run, apart from its pending bundles. */
  ghost predicate WalletFine(context: ValidationContext, w: Wallet, n: nat, top: nat) {
    && UnitsChain(w.address, w.units, n, top)
    && RecordsFine(context, w.units, n, w.records)
    && RecordsOk(w.address, w.nextId, w.receipts.Keys, w.records)
  }

  lemma MatchSharesUnit(
      context: ValidationContext, w: Wallet, n: nat, top: nat, x: LocalValueRecord, r: LocalValueRecord, i: nat)
    requires WalletFine(context, w, n, top) && x in w.records && r in w.records
    requires i < |x.history.chain| && r.history.chain != [] && HeightOf(x.history.chain[i]) == HeightOf(r.history.chain[0])
    ensures !NoSharedUnit(x, r)
  {
    SameHeightSameSeq(w.address, w.units, n, top, x.history.chain, TopSeq(x.history), i,
                      r.history.chain, TopSeq(r.history), 0);
  }

  /** The record a checkpoint finds is the one the history was sent from. */
  lemma MatchIsKeptRecord(
      context: ValidationContext, w: Wallet, n: nat, top: nat, node: Witness, r: LocalValueRecord, x: LocalValueRecord)
    requires WalletFine(context, w, n, top) && r in w.records && KeptAs(r, node) && CheckpointOf(node).Some?
    requires x in w.records && x.value == node.value && CheckpointMatches(CheckpointOf(node).value, x.history)
    ensures x == r
  {
    var i :| 0 <= i < |x.history.chain| && UnitMatches(CheckpointOf(node).value, x.history.chain[i]);
    if x.id == r.id {
      SameIdSameRecord(w.records, x, r);
    } else {
      MatchSharesUnit(context, w, n, top, x, r, i);
      assert false;
    }
  }

  lemma RestoredEnd(
      context: ValidationContext, w: Wallet, n: nat, top: nat, node: Witness, value: ValueRange)
      returns (r: LocalValueRecord)
    requires WalletFine(context, w, n, top) && EndsHere(node, w.address, value) && NodeKept(w, node)
    ensures r in w.records && KeptAs(r, node)
    ensures Rehydrate(w, TrimForRecipient(node, w.address, value)) == r.history
  {
    hide NonOverlapping, RecordsFine, UnitsChain;
    var checkpoint := CheckpointOf(node).value;
    r := KeptRecordMatches(w, node, value);
    var x := FoundIsPresent(w.records, checkpoint);
    MatchIsKeptRecord(context, w, n, top, node, r, x);
  }

  /** The full history of the record a node was sent from does for the node's hop. */
  lemma KeptIsAccepted(
      context: ValidationContext, w: Wallet, n: nat, top: nat, tx: OffChainTx, node: Witness, to: Address, r: LocalValueRecord)
    requires WalletFine(context, w, n, top) && r in w.records && KeptAs(r, node)
    requires Accepts(context, tx, node.value, node, to)
    ensures Accepts(context, tx, node.value, r.history, to) && !HasCheckpoint(r.history)
  {
    assert RecordFine(context, w.units, n, r) && RecordOk(w.address, w.nextId, w.receipts.Keys, r);
    CountedIsMember(r.history.chain[0].sidecar.txs, tx);
    CoveringTxIsFirst(r.history.chain[0].sidecar.txs, tx, r.value);
  }

  lemma HopOverPrior(
      context: ValidationContext, tx: OffChainTx, value: ValueRange, node: Witness, prior: Witness, to: Address)
    requires Accepts(context, tx, value, node, to) && node.anchor.PriorWitnessLink?
    requires Accepts(context, node.anchor.acquireTx, value, prior, node.owner) && SameTop(prior, node.anchor.prior)
    ensures Accepts(context, tx, value, node.(anchor := PriorWitnessLink(node.anchor.acquireTx, prior)), to)
  {
    var linked := node.(anchor := PriorWitnessLink(node.anchor.acquireTx, prior));
    LinkAccepted(context, tx, value, node, to);
    LinkedAnchor(context, value, node, linked, prior);
    HopOfSameTop(context, context, tx, value, node, linked, to);
  }

  /** The restored history has the same top as the original. */
  ghost predicate SameTop(restored: Witness, node: Witness) {
    && restored.owner == node.owner && restored.value == node.value
    && restored.chain != [] && node.chain != [] && restored.chain[0] == node.chain[0]
  }

  /** What was accepted in full is accepted, trusting no checkpoint, after shortening and restoring. */
  lemma {:induction false} RestoredIsValid(
      context: ValidationContext, w: Wallet, n: nat, top: nat, tx: OffChainTx, value: ValueRange, node: Witness, to: Address)
    requires WalletFine(context, w, n, top) && NodeKept(w, node) && TracedFor(w, node)
    requires Accepts(context, tx, value, node, to) && !HasCheckpoint(node)
    ensures var restored := Rehydrate(w, TrimForRecipient(node, w.address, value));
            Accepts(context, tx, value, restored, to) && !HasCheckpoint(restored) && SameTop(restored, node)
    decreases node
  {
    if EndsHere(node, w.address, value) {
      var r := RestoredEnd(context, w, n, top, node, value);
      KeptIsAccepted(context, w, n, top, tx, node, to, r);
    } else {
      match node.anchor
      case GenesisAnchor(_, _, _) =>
      case PriorWitnessLink(acquireTx, prior) =>
        LinkAccepted(context, tx, value, node, to);
        RestoredIsValid(context, w, n, top, acquireTx, value, prior, node.owner);
        HopOverPrior(context, tx, value, node, Rehydrate(w, TrimForRecipient(prior, w.address, value)), to);
    }
  }

  /** The restored history is as traced as the original and the recipient's own records. */
  lemma {:induction false} RestoredIsTraced(
      context: ValidationContext, w: Wallet, n: nat, top: nat, tx: OffChainTx, value: ValueRange, node: Witness, to: Address, any: Wallet)
    requires WalletFine(context, w, n, top) && NodeKept(w, node) && TracedFor(w, node)
    requires Accepts(context, tx, value, node, to) && !HasCheckpoint(node)
    requires TracedFor(any, node) && forall r :: r in w.records ==> TracedFor(any, r.history)
    ensures TracedFor(any, Rehydrate(w, TrimForRecipient(node, w.address, value)))
    decreases node
  {
    if EndsHere(node, w.address, value) {
      var r := RestoredEnd(context, w, n, top, node, value);
    } else {
      match node.anchor
      case GenesisAnchor(_, _, _) =>
      case PriorWitnessLink(acquireTx, prior) =>
        LinkAccepted(context, tx, value, node, to);
        RestoredIsTraced(context, w, n, top, acquireTx, value, prior, node.owner, any);
        RestoredIsValid(context, w, n, top, acquireTx, value, prior, node.owner);
        SameTopSameKept(any, Rehydrate(w, TrimForRecipient(prior, w.address, value)), prior);
    }
  }

  lemma SameTopSameKept(w: Wallet, restored: Witness, node: Witness)
    requires SameTop(restored, node) && NodeKept(w, node)
    ensures NodeKept(w, restored)
  {
    if node.owner == w.address {
      var r :| r in w.records && KeptAs(r, node);
      assert KeptAs(r, restored);
    }
  }

  // ----- What a wallet exports

  lemma ArchivedIsExported(
      context: ValidationContext, w: Wallet, n: nat, top: nat, r: LocalValueRecord, tx: OffChainTx) returns (x: LocalValueRecord)
    requires WalletFine(context, w, n, top) && r in w.records && r.status == Archived && TxOf(r) == Some(tx)
    ensures x in w.records && x.status == Archived && x.value == r.value && TxOf(x) == Some(tx)
    ensures ExportTransferPackage(w, tx, r.value) == Ok(PackageOf(x, tx))
  {
    assert RecordFine(context, w.units, n, r) && RecordOk(w.address, w.nextId, w.receipts.Keys, r);
    var k :| 0 <= k < |w.records| && w.records[k] == r;
    assert Exports(w.records[k], w.address, tx, r.value);
    x := FirstExport(w.records, w.address, tx, r.value).value;
    assert RecordOk(w.address, w.nextId, w.receipts.Keys, x);
    CountedIsMember(x.history.chain[0].sidecar.txs, tx);
    CoveringTxIsFirst(x.history.chain[0].sidecar.txs, tx, r.value);
  }

  /** An exported package of an archived record is accepted by its recipient. */
  lemma {:induction false} ExportIsAccepted(
      context: ValidationContext, w: Wallet, n: nat, top: nat, r: LocalValueRecord, tx: OffChainTx, recipient: Wallet)
    requires WalletFine(context, w, n, top) && r in w.records && r.status == Archived && TxOf(r) == Some(tx)
    requires recipient.address == tx.recipient
    requires forall x :: x in w.records ==> TracedFor(recipient, x.history)
    requires recipient.address == w.address ==> recipient == w
    ensures var package := ExportTransferPackage(w, tx, r.value);
            && package.Ok?
            && ValidatePackage(ValidationContext(context.genesis, TrustedCheckpoints(recipient, package.value.history)),
                               package.value, Some(recipient.address)).Ok?
  {
    var x := ArchivedIsExported(context, w, n, top, r, tx);
    var package := PackageOf(x, tx);
    assert RecordFine(context, w.units, n, x) && RecordOk(w.address, w.nextId, w.receipts.Keys, x);
    assert KeptAs(x, x.history);
    TrimmedIsTrusted(context, ValidationContext(context.genesis, TrustedCheckpoints(recipient, package.history)), recipient,
                     tx, x.value, x.history, recipient.address);
  }
}

/** Many wallets in step with one chain: every honest wallet step keeps them so, and keeps every history traceable. */
module HonestTrades {
  import opened Prelude
  import opened Sorting
  import opened Values
  import opened Types
  import opened ClaimSets
  import opened Ledger
  import opened ReceiptCaches
  import opened BundlePools
  import opened Validation
  import opened Selection
  import opened Wallets
  import opened TwoPhase
  import opened WalletInvariants
  import opened Conservation
  import opened HonestWallets
  import opened HonestConfirms
  import opened Traces
  import opened Participants

  ghost predicate AllInStep(context: ValidationContext, wallets: seq<Wallet>, log: seq<BlockLog>, pool: Pool) {
    forall i {:trigger InStep(context, wallets[i], log, pool)} :: 0 <= i < |wallets| ==> InStep(context, wallets[i], log, pool)
  }

  /** Every node of the wallet's histories that belongs to the other wallet is still among its records. */
  ghost predicate TracedBy(w: Wallet, other: Wallet) {
    forall r :: r in w.records ==> TracedFor(other, r.history)
  }

  ghost predicate AllTraced(wallets: seq<Wallet>) {
    forall i, j {:trigger TracedBy(wallets[i], wallets[j])} ::
      0 <= i < |wallets| && 0 <= j < |wallets| ==> TracedBy(wallets[i], wallets[j])
  }

  /** A receipt that is confirmed makes the wallet's next unit; nothing else of the wallet is then pooled. */
  ghost predicate ReceiptReady(w: Wallet, log: seq<BlockLog>, pool: Pool, receipt: Receipt) {
    OnReceiptConfirmed(w, receipt).Ok? ==>
      && w.address !in pool
      && exists e :: Confirmable(w, ConfirmedCount(w), log, e) && e.receipt == receipt
  }

  /** Bundles are numbered in turn, receipts are ready, and what is rolled back never left; any package may be delivered, in any context. */
  ghost predicate StepReady(w: Wallet, log: seq<BlockLog>, pool: Pool, step: MarketStep) {
    match step
    case Build(_, _, _, _, seqNo, _) => seqNo == NextSequence(w)
    case Confirm(_, receipt) => ReceiptReady(w, log, pool, receipt)
    case Rollback(_, seqNo) => NeverLeft(w, seqNo, log, pool)
    case _ => true
  }

  // ----- Steps that deliver nothing

  lemma SameStateInStep(context: ValidationContext, w: Wallet, after: Wallet, log: seq<BlockLog>, pool: Pool)
    requires InStep(context, w, log, pool)
    requires after == w.(headers := after.headers, checkpoints := after.checkpoints)
    ensures InStep(context, after, log, pool)
  {
    hide AcquiredBefore, AcquiredUpTo, Covered, Emitted, MaxOf, RecordsFine, RecordsOk, UnitsChain;
  }

  lemma {:induction false} ConfirmInStep(
      context: ValidationContext, m: Market, i: nat, receipt: Receipt, log: seq<BlockLog>, pool: Pool)
    requires MarketInv(m) && i < |m.wallets| && InStep(context, m.wallets[i], log, pool)
    requires OnReceiptConfirmed(m.wallets[i], receipt).Ok? && WalletOk(OnReceiptConfirmed(m.wallets[i], receipt).value.0)
    requires ReceiptReady(m.wallets[i], log, pool, receipt)
    ensures InStep(context, OnReceiptConfirmed(m.wallets[i], receipt).value.0, log, pool)
  {
    var w, accepted := m.wallets[i], AllAccepted(m.wallets);
    var e :| Confirmable(w, ConfirmedCount(w), log, e) && e.receipt == receipt;
    assert WalletOk(w);
    forall p ensures HeldBy(accepted, w.records, p) <= 1 {
      WalletHoldsAtMostOnce(m, i, p);
    }
    ConfirmKeepsInStep(context, w, log, pool, e, accepted);
  }

  lemma {:induction false} QuietStepInStep(
      context: ValidationContext, m: Market, step: MarketStep, log: seq<BlockLog>, pool: Pool)
    requires MarketInv(m) && step.i < |m.wallets| && InStep(context, m.wallets[step.i], log, pool)
    requires !step.Deliver? && WalletAfter(m, step).Some? && WalletOk(WalletAfter(m, step).value)
    requires StepReady(m.wallets[step.i], log, pool, step)
    ensures InStep(context, WalletAfter(m, step).value, log, pool)
  {
    hide ConfirmRecords, Confirmable, ContextFor, ReceiveTransfer, RecordsFine, SplitAssigned, TotalHeld, UnitsChain;
    var w := m.wallets[step.i];
    assert WalletOk(w);
    match step
    case Build(_, publicKey, signer, txs, _, options) => BuildKeepsInStep(context, w, publicKey, signer, txs, options, log, pool);
    case Confirm(i, receipt) => ConfirmInStep(context, m, i, receipt, log, pool);
    case Miss(_, seqNo) => MissKeepsInStep(context, w, seqNo, log, pool);
    case Rollback(_, seqNo) => RollbackKeepsInStep(context, w, seqNo, log, pool);
    case Observe(_, header) => SameStateInStep(context, w, WalletAfter(m, step).value, log, pool);
    case Remember(_, record) => SameStateInStep(context, w, WalletAfter(m, step).value, log, pool);
    case Send(_, _, _) =>
    case Deliver(_, _, _) =>
  }

  // ----- Histories keep their anchors

  /** Every record's history is rooted as one of the former records' was. */
  ghost predicate SameRoots(before: Records, after: Records) {
    forall x :: x in after ==> exists r :: r in before && r.history.anchor == x.history.anchor
  }

  lemma MappedRoots(records: Records, f: LocalValueRecord -> LocalValueRecord)
    requires forall r :: r in records ==> f(r).history.anchor == r.history.anchor
    ensures SameRoots(records, Stored(MapSeq(f, records)))
  {
    forall x | x in Stored(MapSeq(f, records)) ensures exists r :: r in records && r.history.anchor == x.history.anchor {
      var r := ChangedMembers(records, f, x);
    }
  }

  lemma BuildRoots(
      w: Wallet, publicKey: PublicKey, signer: Address, txs: seq<OffChainTx>, seqNo: positive, options: BundleOptions)
    requires WalletOk(w) && BuildBundle(w, publicKey, signer, txs, seqNo, options).Ok?
    ensures SameRoots(w.records, BuildBundle(w, publicKey, signer, txs, seqNo, options).value.0.records)
  {
    var targets := SortRanges(TxValues(txs));
    var b := SplitAssigned(w.records, Assign(w.records, targets).value, w.nextId);
    BuildShape(w, publicKey, signer, txs, seqNo, options);
    StoredFacts(b.records);
    forall x | x in Stored(b.records) ensures exists r :: r in w.records && r.history.anchor == x.history.anchor {
      var r := BuiltRecord(w, targets, b, x);
    }
  }

  lemma ConfirmRoots(w: Wallet, receipt: Receipt)
    requires OnReceiptConfirmed(w, receipt).Ok?
    ensures SameRoots(w.records, OnReceiptConfirmed(w, receipt).value.0.records)
  {
    ConfirmShape(w, receipt);
    var context := w.pending[receipt.seqNo];
    MappedRoots(w.records, Settler(ConfirmedUnit(receipt, context.sidecar), context.pendingIds, context.outgoingIds));
  }

  lemma QuietRoots(m: Market, step: MarketStep)
    requires step.i < |m.wallets| && WalletOk(m.wallets[step.i]) && !step.Deliver? && WalletAfter(m, step).Some?
    ensures SameRoots(m.wallets[step.i].records, WalletAfter(m, step).value.records)
  {
    hide BuildBundle, ContextOk, OnReceiptConfirmed, ReceiveTransfer, RecordsOk, SaveCheckpoint;
    var w := m.wallets[step.i];
    match step
    case Build(_, publicKey, signer, txs, seqNo, options) => BuildRoots(w, publicKey, signer, txs, seqNo, options);
    case Confirm(_, receipt) => ConfirmRoots(w, receipt);
    case Miss(_, seqNo) =>
      MarkMissingIsMap(w.records, w.pending[seqNo].pendingIds);
      MappedRoots(w.records, Marker(w.pending[seqNo].pendingIds));
    case Rollback(_, seqNo) =>
      ReleaseIsMap(w.records, w.pending[seqNo].pendingIds);
      MappedRoots(w.records, Releaser(w.pending[seqNo].pendingIds));
    case Observe(_, header) =>
    case Remember(_, record) =>
    case Send(_, _, _) =>
    case Deliver(_, _, _) =>
  }

  lemma SameRootsTraced(w: Wallet, after: Wallet, other: Wallet)
    requires TracedBy(w, other) && SameRoots(w.records, after.records)
    ensures TracedBy(after, other)
  {
    forall x | x in after.records ensures TracedFor(other, x.history) {
      var r :| r in w.records && r.history.anchor == x.history.anchor;
    }
  }

  lemma KeptStaysTraced(w: Wallet, other: Wallet, after: Wallet)
    requires TracedBy(w, other) && after.address == other.address && KeepsArchived(other.records, after.records)
    ensures TracedBy(w, after)
  {
    forall r | r in w.records ensures TracedFor(after, r.history) {
      StaysTraced(other, after, r.history);
    }
  }

  /** One wallet changes; every history stays traced. */
  lemma UpdateStaysTraced(wallets: seq<Wallet>, i: nat, after: Wallet)
    requires i < |wallets| && AllTraced(wallets)
    requires after.address == wallets[i].address && KeepsArchived(wallets[i].records, after.records)
    requires forall k {:trigger TracedBy(after, wallets[k])} :: 0 <= k < |wallets| ==> TracedBy(after, wallets[k])
    ensures AllTraced(wallets[i := after])
  {
    var updated := wallets[i := after];
    forall j, k {:trigger TracedBy(updated[j], updated[k])} | 0 <= j < |updated| && 0 <= k < |updated|
      ensures TracedBy(updated[j], updated[k])
    {
      assert TracedBy(wallets[j], wallets[k]) && TracedBy(after, wallets[k]);
      if k == i {
        KeptStaysTraced(updated[j], wallets[i], after);
      }
    }
  }

  lemma QuietStaysTraced(wallets: seq<Wallet>, i: nat, after: Wallet)
    requires i < |wallets| && AllTraced(wallets) && SameRoots(wallets[i].records, after.records)
    requires after.address == wallets[i].address && KeepsArchived(wallets[i].records, after.records)
    ensures AllTraced(wallets[i := after])
  {
    forall k {:trigger TracedBy(after, wallets[k])} | 0 <= k < |wallets| ensures TracedBy(after, wallets[k]) {
      assert TracedBy(wallets[i], wallets[k]);
      SameRootsTraced(wallets[i], after, wallets[k]);
    }
    UpdateStaysTraced(wallets, i, after);
  }

  lemma UpdateInStep(
      context: ValidationContext, wallets: seq<Wallet>, i: nat, after: Wallet, log: seq<BlockLog>, pool: Pool)
    requires i < |wallets| && AllInStep(context, wallets, log, pool) && InStep(context, after, log, pool)
    ensures AllInStep(context, wallets[i := after], log, pool)
  {
    forall k {:trigger InStep(context, wallets[i := after][k], log, pool)} | 0 <= k < |wallets|
      ensures InStep(context, wallets[i := after][k], log, pool)
    {
      assert k != i ==> InStep(context, wallets[k], log, pool);
    }
  }

  lemma ReadyIsFresh(m: Market, step: MarketStep, log: seq<BlockLog>, pool: Pool)
    requires step.i < |m.wallets| ==> StepReady(m.wallets[step.i], log, pool, step)
    ensures StepFresh(m, step)
  {
    if step.i < |m.wallets| {
      NextIsFresh(m.wallets[step.i]);
    }
  }

  lemma {:induction false} QuietKeepsTrade(
      context: ValidationContext, m: Market, step: MarketStep, log: seq<BlockLog>, pool: Pool)
    requires MarketInv(m) && step.i < |m.wallets| && !step.Deliver? && WalletAfter(m, step).Some?
    requires AllInStep(context, m.wallets, log, pool) && AllTraced(m.wallets)
    requires StepReady(m.wallets[step.i], log, pool, step)
    ensures var wallets := m.wallets[step.i := WalletAfter(m, step).value];
            AllInStep(context, wallets, log, pool) && AllTraced(wallets)
  {
    hide BuildBundle, HeldBy, OnReceiptConfirmed, ReceiveTransfer, RecordsFine, StepReady, TotalHeld, UnitsChain;
    var i, after := step.i, WalletAfter(m, step).value;
    ReadyIsFresh(m, step, log, pool);
    StepIsQuiet(m, step);
    assert WalletOk(m.wallets[i]) && InStep(context, m.wallets[i], log, pool);
    QuietStepInStep(context, m, step, log, pool);
    UpdateInStep(context, m.wallets, i, after, log, pool);
    QuietRoots(m, step);
    QuietStaysTraced(m.wallets, i, after);
  }

  // ----- Deliveries

  /** An accepted package in the mail, and the archived record its sender sent it for. */
  ghost predicate SentFrom(sender: Wallet, r: LocalValueRecord, recipient: Wallet, package: TransferPackage) {
    && r in sender.records && r.status == Archived && TxOf(r) == Some(package.tx)
    && package == PackageOf(r, package.tx) && package.tx.recipient == recipient.address
    && (sender.address == recipient.address ==> sender == recipient)
  }

  lemma DeliveryHasSender(
      m: Market, i: nat, package: TransferPackage, context: ValidationContext) returns (j: nat, r: LocalValueRecord)
    requires MarketInv(m) && i < |m.wallets| && package in m.mail && ReceiveTransfer(m.wallets[i], package, context).Ok?
    ensures j < |m.wallets| && SentFrom(m.wallets[j], r, m.wallets[i], package)
  {
    ReceiveShape(m.wallets[i], package, context);
    assert Sent(m.wallets, package);
    var sender, x :| 0 <= sender < |m.wallets| && SentFor(m.wallets[sender], x, package);
    assert WalletOk(m.wallets[sender]);
    AcceptedIsPackageFor(m.wallets[sender], x, package, context, m.wallets[i].address);
    j, r := sender, x;
  }

  lemma SentNodeKept(sender: Wallet, r: LocalValueRecord, other: Wallet, top: nat, n: nat, context: ValidationContext)
    requires WalletFine(context, sender, n, top) && r in sender.records && r.status == Archived
    requires sender.address == other.address ==> sender == other
    ensures NodeKept(other, r.history)
  {
    assert RecordFine(context, sender.units, n, r) && RecordOk(sender.address, sender.nextId, sender.receipts.Keys, r);
    if r.history.owner == other.address {
      assert KeptAs(r, r.history);
    }
  }

  lemma SentIsFull(
      context: ValidationContext, sender: Wallet, n: nat, top: nat, r: LocalValueRecord, recipient: Wallet, package: TransferPackage)
    requires WalletFine(context, sender, n, top) && SentFrom(sender, r, recipient, package)
    ensures Accepts(context, package.tx, r.value, r.history, recipient.address) && !HasCheckpoint(r.history)
    ensures package.value == r.value && package.history == TrimForRecipient(r.history, recipient.address, r.value)
    ensures package.history.chain == r.history.chain && r.history.chain != [] && HeightOf(r.history.chain[0]) <= top
  {
    assert RecordFine(context, sender.units, n, r);
    TrimKeepsTop(r.history, recipient.address, r.value);
    RunSeqs(sender.address, sender.units, n, top, r.history.chain, TopSeq(r.history), 0);
  }

  /** The history of the received record, in full. */
  function RestoredHistory(recipient: Wallet, r: LocalValueRecord): Witness {
    Rehydrate(recipient, TrimForRecipient(r.history, recipient.address, r.value))
  }

  lemma {:induction false} RestoredIsFull(
      context: ValidationContext, sender: Wallet, n: nat, top: nat, r: LocalValueRecord, recipient: Wallet, k: nat, package: TransferPackage)
    requires WalletFine(context, sender, n, top) && WalletFine(context, recipient, k, top)
    requires SentFrom(sender, r, recipient, package) && TracedBy(sender, recipient)
    ensures var full := RestoredHistory(recipient, r);
            && Accepts(context, package.tx, r.value, full, recipient.address) && !HasCheckpoint(full)
            && SameTop(full, r.history)
  {
    SentIsFull(context, sender, n, top, r, recipient, package);
    SentNodeKept(sender, r, recipient, top, n, context);
    RestoredIsValid(context, recipient, k, top, package.tx, r.value, r.history, recipient.address);
  }

  lemma ReceivedHistory(recipient: Wallet, r: LocalValueRecord, package: TransferPackage)
    requires package.history == TrimForRecipient(r.history, recipient.address, r.value) && package.history.chain != []
    ensures ReceivedRecord(recipient, package).history
         == Witness(package.value, recipient.address, [], PriorWitnessLink(package.tx, RestoredHistory(recipient, r)))
  {
  }

  lemma {:induction false} LinkIsAccepted(
      context: ValidationContext, value: ValueRange, owner: Address, tx: OffChainTx, prior: Witness)
    requires Accepts(context, tx, value, prior, owner)
    ensures AnchorError(context, value, Witness(value, owner, [], PriorWitnessLink(tx, prior))).None?
  {
  }

  /** What a wallet receives in an honest run is as fine as its own records. */
  lemma {:induction false} ReceivedIsFine(
      context: ValidationContext, sender: Wallet, n: nat, top: nat, r: LocalValueRecord, recipient: Wallet, k: nat, package: TransferPackage)
    requires WalletFine(context, sender, n, top) && WalletFine(context, recipient, k, top)
    requires SentFrom(sender, r, recipient, package) && TracedBy(sender, recipient)
    ensures package.history.chain != []
    ensures var x := ReceivedRecord(recipient, package);
            && RecordFine(context, recipient.units, k, x) && x.history.chain == [] && x.acquiredAt <= top
            && x.history.anchor == PriorWitnessLink(package.tx, RestoredHistory(recipient, r))
  {
    SentIsFull(context, sender, n, top, r, recipient, package);
    RestoredIsFull(context, sender, n, top, r, recipient, k, package);
    ReceivedHistory(recipient, r, package);
    LinkIsAccepted(context, package.value, recipient.address, package.tx, RestoredHistory(recipient, r));
    FreshRecordFine(context, recipient, k, ReceivedRecord(recipient, package));
  }

  lemma {:induction false} ReceivedIsTraced(
      context: ValidationContext, sender: Wallet, n: nat, top: nat, r: LocalValueRecord, recipient: Wallet, k: nat,
      package: TransferPackage, other: Wallet)
    requires WalletFine(context, sender, n, top) && WalletFine(context, recipient, k, top)
    requires SentFrom(sender, r, recipient, package) && TracedBy(sender, recipient)
    requires TracedBy(sender, other) && TracedBy(recipient, other) && (sender.address == other.address ==> sender == other)
    ensures TracedFor(other, RestoredHistory(recipient, r)) && NodeKept(other, RestoredHistory(recipient, r))
  {
    SentIsFull(context, sender, n, top, r, recipient, package);
    SentNodeKept(sender, r, recipient, top, n, context);
    SentNodeKept(sender, r, other, top, n, context);
    RestoredIsTraced(context, recipient, k, top, package.tx, r.value, r.history, recipient.address, other);
    RestoredIsFull(context, sender, n, top, r, recipient, k, package);
    SameTopSameKept(other, RestoredHistory(recipient, r), r.history);
  }

  lemma {:induction false} AppendTraced(w: Wallet, x: LocalValueRecord, after: Wallet, other: Wallet)
    requires TracedBy(w, other) && after.records == Stored(w.records + [x]) && TracedFor(other, x.history)
    ensures TracedBy(after, other)
  {
    StoredFacts(w.records + [x]);
  }

  lemma {:induction false} DeliveredTraced(
      context: ValidationContext, wallets: seq<Wallet>, log: seq<BlockLog>, pool: Pool, j: nat, r: LocalValueRecord, i: nat,
      package: TransferPackage, x: LocalValueRecord, after: Wallet, l: nat)
    requires DistinctAddresses(wallets) && AllInStep(context, wallets, log, pool) && AllTraced(wallets)
    requires j < |wallets| && i < |wallets| && l < |wallets| && SentFrom(wallets[j], r, wallets[i], package)
    requires x.history.anchor == PriorWitnessLink(package.tx, RestoredHistory(wallets[i], r))
    requires after.records == Stored(wallets[i].records + [x])
    ensures TracedBy(after, wallets[l])
  {
    hide NonOverlapping, RecordsFine, RestoredHistory, UnitsChain;
    assert InStep(context, wallets[i], log, pool) && InStep(context, wallets[j], log, pool);
    assert TracedBy(wallets[j], wallets[i]) && TracedBy(wallets[j], wallets[l]) && TracedBy(wallets[i], wallets[l]);
    ReceivedIsTraced(context, wallets[j], ConfirmedCount(wallets[j]), |log|, r, wallets[i], ConfirmedCount(wallets[i]),
                     package, wallets[l]);
    AppendTraced(wallets[i], x, after, wallets[l]);
  }

  lemma {:induction false} DeliveredInStep(
      context: ValidationContext, wallets: seq<Wallet>, log: seq<BlockLog>, pool: Pool, j: nat, r: LocalValueRecord, i: nat,
      package: TransferPackage, after: Wallet)
    requires AllInStep(context, wallets, log, pool) && AllTraced(wallets)
    requires j < |wallets| && i < |wallets| && SentFrom(wallets[j], r, wallets[i], package) && WalletOk(wallets[i]) && WalletOk(after)
    requires package.history.chain != []
    requires after.records == Stored(wallets[i].records + [ReceivedRecord(wallets[i], package)])
    requires after == wallets[i].(records := after.records, accepted := after.accepted, nextId := after.nextId)
    ensures InStep(context, after, log, pool)
    ensures ReceivedRecord(wallets[i], package).history.anchor == PriorWitnessLink(package.tx, RestoredHistory(wallets[i], r))
  {
    assert InStep(context, wallets[i], log, pool) && InStep(context, wallets[j], log, pool) && TracedBy(wallets[j], wallets[i]);
    ReceivedIsFine(context, wallets[j], ConfirmedCount(wallets[j]), |log|, r, wallets[i], ConfirmedCount(wallets[i]), package);
    AppendKeepsInStep(context, wallets[i], after, ReceivedRecord(wallets[i], package), log, pool);
  }

  lemma {:induction false} DeliveryKeepsTrade(
      context: ValidationContext, m: Market, i: nat, package: TransferPackage, own: ValidationContext, log: seq<BlockLog>, pool: Pool)
    requires MarketInv(m) && AllInStep(context, m.wallets, log, pool) && AllTraced(m.wallets)
    requires i < |m.wallets| && package in m.mail && ReceiveTransfer(m.wallets[i], package, own).Ok?
    ensures var wallets := m.wallets[i := ReceiveTransfer(m.wallets[i], package, own).value];
            AllInStep(context, wallets, log, pool) && AllTraced(wallets)
  {
    var after := ReceiveTransfer(m.wallets[i], package, own).value;
    var j, r := DeliveryHasSender(m, i, package, own);
    DeliveryTotal(m, i, package, own, 0);
    ReceiveShape(m.wallets[i], package, own);
    assert WalletOk(m.wallets[i]);
    DeliveredInStep(context, m.wallets, log, pool, j, r, i, package, after);
    UpdateInStep(context, m.wallets, i, after, log, pool);
    forall l {:trigger TracedBy(after, m.wallets[l])} | 0 <= l < |m.wallets| ensures TracedBy(after, m.wallets[l]) {
      DeliveredTraced(context, m.wallets, log, pool, j, r, i, package, ReceivedRecord(m.wallets[i], package), after, l);
    }
    UpdateStaysTraced(m.wallets, i, after);
  }

  /** Every honest wallet step keeps everybody in step and every history traced. */
  lemma {:induction false} StepKeepsTrade(
      context: ValidationContext, m: Market, step: MarketStep, log: seq<BlockLog>, pool: Pool)
    requires MarketInv(m) && AllInStep(context, m.wallets, log, pool) && AllTraced(m.wallets)
    requires step.i < |m.wallets| ==> StepReady(m.wallets[step.i], log, pool, step)
    ensures AllInStep(context, StepMarket(m, step).wallets, log, pool) && AllTraced(StepMarket(m, step).wallets)
  {
    hide AllInStep, BuildBundle, CreateExactCheckpoint, MailAfter;
    hide MarketInv, OnReceiptConfirmed, ReceiveTransfer, StepReady;
    if step.i < |m.wallets| && WalletAfter(m, step).Some? {
      if step.Deliver? {
        DeliveryKeepsTrade(context, m, step.i, step.package, step.context, log, pool);
      } else {
        QuietKeepsTrade(context, m, step, log, pool);
      }
    }
  }
}

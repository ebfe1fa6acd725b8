/**
  Many wallets that send each other packages. In every run each genesis point is held exactly once: by one live
  record of one wallet, or by one archived record whose package has not been accepted yet.
 */
module Conservation {
  import opened Prelude
  import opened Sorting
  import opened Values
  import opened Types
  import opened ClaimSets
  import opened Validation
  import opened Selection
  import opened Wallets
  import opened TwoPhase
  import opened WalletInvariants

  /** The wallets, and every package ever sent; a package may be delivered any number of times. */
  datatype Market = Market(wallets: seq<Wallet>, mail: set<TransferPackage>)

  datatype MarketStep =
    | Build(i: nat, publicKey: PublicKey, signer: Address, txs: seq<OffChainTx>, number: positive, options: BundleOptions)
    | Confirm(i: nat, receipt: Receipt)
    | Miss(i: nat, seqNo: nat)
    | Rollback(i: nat, seqNo: nat)
    | Observe(i: nat, header: HeaderLite)
    | Remember(i: nat, record: LocalValueRecord)
    | Send(i: nat, tx: OffChainTx, value: ValueRange)
    | Deliver(i: nat, package: TransferPackage, context: ValidationContext)

  /** What the step makes of its wallet, or nothing when the call raises. */
  function WalletAfter(m: Market, step: MarketStep): Option<Wallet>
    requires step.i < |m.wallets|
  {
    var w := m.wallets[step.i];
    match step
    case Build(_, publicKey, signer, txs, seqNo, options) =>
      var r := BuildBundle(w, publicKey, signer, txs, seqNo, options);
      if r.Ok? then Some(r.value.0) else None
    case Confirm(_, receipt) =>
      var r := OnReceiptConfirmed(w, receipt);
      if r.Ok? then Some(r.value.0) else None
    case Miss(_, seqNo) =>
      var r := MarkReceiptMissing(w, seqNo);
      if r.Ok? then Some(r.value) else None
    case Rollback(_, seqNo) =>
      var r := RollbackPendingBundle(w, seqNo);
      if r.Ok? then Some(r.value) else None
    case Observe(_, header) => Some(ObserveHeader(w, header))
    case Remember(_, record) =>
      var r := CreateExactCheckpoint(w, record);
      if r.Ok? then Some(r.value) else None
    case Send(_, tx, value) => None
    case Deliver(_, package, context) =>
      if package !in m.mail then None
      else
        var r := ReceiveTransfer(w, package, context);
        if r.Ok? then Some(r.value) else None
  }

  function MailAfter(m: Market, step: MarketStep): set<TransferPackage>
    requires step.i < |m.wallets|
  {
    if step.Send? && ExportTransferPackage(m.wallets[step.i], step.tx, step.value).Ok? then
      m.mail + {ExportTransferPackage(m.wallets[step.i], step.tx, step.value).value}
    else m.mail
  }

  function StepMarket(m: Market, step: MarketStep): Market {
    if step.i >= |m.wallets| then m
    else
      var w := WalletAfter(m, step);
      Market(if w.Some? then m.wallets[step.i := w.value] else m.wallets, MailAfter(m, step))
  }

  function RunMarket(m: Market, steps: seq<MarketStep>): Market {
    if steps == [] then m else StepMarket(RunMarket(m, steps[..|steps| - 1]), steps[|steps| - 1])
  }

  /** A bundle is built under a sequence number that the wallet has no receipt for. */
  ghost predicate StepFresh(m: Market, step: MarketStep) {
    step.Build? && step.i < |m.wallets| ==> step.number !in m.wallets[step.i].receipts
  }

  ghost predicate RunFresh(m: Market, steps: seq<MarketStep>) {
    steps != [] ==>
      RunFresh(m, steps[..|steps| - 1]) && StepFresh(RunMarket(m, steps[..|steps| - 1]), steps[|steps| - 1])
  }

  lemma NextIsFresh(w: Wallet)
    ensures NextSequence(w) !in w.receipts
  {
    var keys := w.receipts.Keys + w.pending.Keys;
    assert NextSequence(w) in w.receipts ==> NextSequence(w) in keys;
  }

  // ----- Counting holders

  function AllAccepted(wallets: seq<Wallet>): set<TransferPackage> {
    if wallets == [] then {} else AllAccepted(wallets[..|wallets| - 1]) + wallets[|wallets| - 1].accepted
  }

  function WalletHolds(accepted: set<TransferPackage>, p: nat): Wallet -> nat {
    (w: Wallet) => HeldBy(accepted, w.records, p)
  }

  /** How many records hold a point, over all wallets. */
  function TotalHeld(wallets: seq<Wallet>, p: nat): nat {
    Sum(WalletHolds(AllAccepted(wallets), p), wallets)
  }

  // ----- The invariant

  /** The package is what the wallet sends for one of its archived records. */
  ghost predicate SentFor(w: Wallet, r: LocalValueRecord, package: TransferPackage) {
    && r in w.records && r.status == Archived && r.history.chain != []
    && package == PackageOf(r, package.tx)
    && CountTx(r.history.chain[0].sidecar.txs, package.tx) == 1
  }

  ghost predicate Sent(wallets: seq<Wallet>, package: TransferPackage) {
    exists i, r {:trigger SentFor(wallets[i], r, package)} :: 0 <= i < |wallets| && SentFor(wallets[i], r, package)
  }

  ghost predicate DistinctAddresses(wallets: seq<Wallet>) {
    forall i, j :: 0 <= i < j < |wallets| ==> wallets[i].address != wallets[j].address
  }

  ghost predicate AllWalletsOk(wallets: seq<Wallet>) {
    forall i {:trigger WalletOk(wallets[i])} :: 0 <= i < |wallets| ==> WalletOk(wallets[i])
  }

  ghost predicate AllSent(wallets: seq<Wallet>, mail: set<TransferPackage>) {
    forall package :: package in mail ==> Sent(wallets, package)
  }

  /** Wallets accept only what is addressed to them. */
  ghost predicate RightRecipients(wallets: seq<Wallet>) {
    forall i, package {:trigger package in wallets[i].accepted} ::
      0 <= i < |wallets| && package in wallets[i].accepted ==> package.tx.recipient == wallets[i].address
  }

  ghost predicate MarketInv(m: Market) {
    && DistinctAddresses(m.wallets)
    && AllWalletsOk(m.wallets)
    && (forall p :: TotalHeld(m.wallets, p) <= 1)
    && AllSent(m.wallets, m.mail)
    && AllAccepted(m.wallets) <= m.mail
    && RightRecipients(m.wallets)
  }

  // ----- Changing one wallet

  lemma {:induction false} AcceptedAfterUpdate(wallets: seq<Wallet>, i: nat, w: Wallet, added: set<TransferPackage>)
    requires i < |wallets| && w.accepted == wallets[i].accepted + added
    ensures AllAccepted(wallets[i := w]) == AllAccepted(wallets) + added
  {
    var last := |wallets| - 1;
    if i == last {
      assert wallets[i := w][..last] == wallets[..last];
    } else {
      assert wallets[i := w][..last] == wallets[..last][i := w];
      AcceptedAfterUpdate(wallets[..last], i, w, added);
    }
  }

  lemma {:induction false} AcceptedSomewhere(wallets: seq<Wallet>, package: TransferPackage) returns (i: nat)
    requires package in AllAccepted(wallets)
    ensures i < |wallets| && package in wallets[i].accepted
  {
    i := |wallets| - 1;
    if package !in wallets[i].accepted {
      i := AcceptedSomewhere(wallets[..i], package);
    }
  }

  lemma {:induction false} SumAfterUpdate<T>(f: T -> nat, s: seq<T>, i: nat, x: T)
    requires i < |s|
    ensures Sum(f, s[i := x]) + f(s[i]) == Sum(f, s) + f(x)
  {
    var last := |s| - 1;
    if i == last {
      assert s[i := x][..last] == s[..last];
    } else {
      assert s[i := x][..last] == s[..last][i := x];
      SumAfterUpdate(f, s[..last], i, x);
    }
  }

  lemma SentStays(wallets: seq<Wallet>, i: nat, w: Wallet, package: TransferPackage)
    requires i < |wallets| && KeepsArchived(wallets[i].records, w.records) && Sent(wallets, package)
    ensures Sent(wallets[i := w], package)
  {
    var j, r :| 0 <= j < |wallets| && SentFor(wallets[j], r, package);
    assert SentFor(wallets[i := w][j], r, package);
  }

  /** A wallet changes without accepting anything, and no point moves. */
  ghost predicate QuietChange(accepted: set<TransferPackage>, w: Wallet, after: Wallet) {
    && WalletOk(after)
    && after.address == w.address && after.accepted == w.accepted
    && KeepsArchived(w.records, after.records)
    && forall p :: HeldBy(accepted, after.records, p) == HeldBy(accepted, w.records, p)
  }

  lemma QuietTotal(wallets: seq<Wallet>, i: nat, w: Wallet, p: nat)
    requires i < |wallets| && QuietChange(AllAccepted(wallets), wallets[i], w)
    ensures TotalHeld(wallets[i := w], p) == TotalHeld(wallets, p) && AllAccepted(wallets[i := w]) == AllAccepted(wallets)
  {
    assert w.accepted == wallets[i].accepted + {} && AllAccepted(wallets) + {} == AllAccepted(wallets);
    AcceptedAfterUpdate(wallets, i, w, {});
    SumAfterUpdate(WalletHolds(AllAccepted(wallets), p), wallets, i, w);
  }

  lemma WalletsStayOk(wallets: seq<Wallet>, i: nat, w: Wallet)
    requires i < |wallets| && AllWalletsOk(wallets) && WalletOk(w)
    ensures AllWalletsOk(wallets[i := w])
  {
    forall j {:trigger WalletOk(wallets[i := w][j])} | 0 <= j < |wallets| ensures WalletOk(wallets[i := w][j]) {
      assert j != i ==> WalletOk(wallets[j]);
    }
  }

  lemma MailStaysSent(wallets: seq<Wallet>, i: nat, w: Wallet, mail: set<TransferPackage>)
    requires i < |wallets| && KeepsArchived(wallets[i].records, w.records) && AllSent(wallets, mail)
    ensures AllSent(wallets[i := w], mail)
  {
    forall package | package in mail ensures Sent(wallets[i := w], package) {
      SentStays(wallets, i, w, package);
    }
  }

  lemma RecipientsStayRight(wallets: seq<Wallet>, i: nat, w: Wallet)
    requires i < |wallets| && w.address == wallets[i].address && RightRecipients(wallets)
    requires forall package :: package in w.accepted && package !in wallets[i].accepted ==> package.tx.recipient == w.address
    ensures RightRecipients(wallets[i := w])
  {
    forall j, package {:trigger package in wallets[i := w][j].accepted} | 0 <= j < |wallets| && package in wallets[i := w][j].accepted
      ensures package.tx.recipient == wallets[i := w][j].address
    {
      if j != i || package in wallets[i].accepted {
        assert package in wallets[j].accepted;
      }
    }
  }

  lemma TotalsStayLow(before: seq<Wallet>, after: seq<Wallet>)
    requires (forall p :: TotalHeld(after, p) == TotalHeld(before, p)) && forall p :: TotalHeld(before, p) <= 1
    ensures forall p :: TotalHeld(after, p) <= 1
  {
    forall p ensures TotalHeld(after, p) <= 1 {
      assert TotalHeld(after, p) == TotalHeld(before, p);
    }
  }

  lemma QuietKeepsInv(m: Market, i: nat, w: Wallet)
    requires MarketInv(m) && i < |m.wallets| && QuietChange(AllAccepted(m.wallets), m.wallets[i], w)
    ensures MarketInv(m.(wallets := m.wallets[i := w]))
    ensures forall p :: TotalHeld(m.wallets[i := w], p) == TotalHeld(m.wallets, p)
  {
    forall p ensures TotalHeld(m.wallets[i := w], p) == TotalHeld(m.wallets, p) {
      QuietTotal(m.wallets, i, w, p);
    }
    QuietTotal(m.wallets, i, w, 0);
    TotalsStayLow(m.wallets, m.wallets[i := w]);
    RecipientsStayRight(m.wallets, i, w);
    WalletsStayOk(m.wallets, i, w);
    MailStaysSent(m.wallets, i, w, m.mail);
  }

  // ----- The quiet steps

  /** Whoever sent a package has the receipt of the bundle that sent it. */
  lemma SenderHasReceipt(m: Market, i: nat)
    requires MarketInv(m) && i < |m.wallets|
    ensures SentBefore(m.wallets[i].address, m.wallets[i].receipts.Keys, AllAccepted(m.wallets))
  {
    var w := m.wallets[i];
    forall package | package in AllAccepted(m.wallets) && package.history.owner == w.address && package.history.chain != []
      ensures package.history.chain[0].receipt.seqNo in w.receipts.Keys
    {
      assert Sent(m.wallets, package);
      var j, r :| 0 <= j < |m.wallets| && SentFor(m.wallets[j], r, package);
      SenderIsOwner(m, j, r, package);
      assert j == i;
    }
  }

  lemma SenderIsOwner(m: Market, j: nat, r: LocalValueRecord, package: TransferPackage)
    requires j < |m.wallets| && WalletOk(m.wallets[j]) && SentFor(m.wallets[j], r, package)
    ensures package.history.owner == m.wallets[j].address && package.value == r.value
    ensures package.history.chain == r.history.chain && package.history.chain[0].receipt.seqNo in m.wallets[j].receipts
  {
    assert RecordOk(m.wallets[j].address, m.wallets[j].nextId, m.wallets[j].receipts.Keys, r);
    TrimKeepsTop(r.history, package.tx.recipient, r.value);
  }

  lemma WalletHoldsAtMostOnce(m: Market, i: nat, p: nat)
    requires MarketInv(m) && i < |m.wallets|
    ensures HeldBy(AllAccepted(m.wallets), m.wallets[i].records, p) <= 1
  {
    SumAtLeast(WalletHolds(AllAccepted(m.wallets), p), m.wallets, i);
    assert TotalHeld(m.wallets, p) <= 1;
  }

  lemma ConfirmIsQuiet(m: Market, i: nat, receipt: Receipt)
    requires MarketInv(m) && i < |m.wallets| && OnReceiptConfirmed(m.wallets[i], receipt).Ok?
    ensures QuietChange(AllAccepted(m.wallets), m.wallets[i], OnReceiptConfirmed(m.wallets[i], receipt).value.0)
  {
    var w, accepted := m.wallets[i], AllAccepted(m.wallets);
    var after := OnReceiptConfirmed(w, receipt).value.0;
    assert WalletOk(w);
    SenderHasReceipt(m, i);
    forall q ensures HeldBy(accepted, w.records, q) <= 1 {
      WalletHoldsAtMostOnce(m, i, q);
    }
    ConfirmShape(w, receipt);
    ConfirmKeeps(w, receipt, accepted, 0);
    forall p ensures HeldBy(accepted, after.records, p) == HeldBy(accepted, w.records, p) {
      ConfirmKeeps(w, receipt, accepted, p);
    }
  }

  lemma BuildIsQuiet(
      w: Wallet, publicKey: PublicKey, signer: Address, txs: seq<OffChainTx>, seqNo: positive, options: BundleOptions,
      accepted: set<TransferPackage>)
    requires WalletOk(w) && seqNo !in w.receipts && BuildBundle(w, publicKey, signer, txs, seqNo, options).Ok?
    ensures QuietChange(accepted, w, BuildBundle(w, publicKey, signer, txs, seqNo, options).value.0)
  {
    var after := BuildBundle(w, publicKey, signer, txs, seqNo, options).value.0;
    BuildShape(w, publicKey, signer, txs, seqNo, options);
    BuildKeeps(w, publicKey, signer, txs, seqNo, options, accepted, 0);
    forall p ensures HeldBy(accepted, after.records, p) == HeldBy(accepted, w.records, p) {
      BuildKeeps(w, publicKey, signer, txs, seqNo, options, accepted, p);
    }
  }

  lemma MissIsQuiet(w: Wallet, seqNo: nat, accepted: set<TransferPackage>)
    requires WalletOk(w) && MarkReceiptMissing(w, seqNo).Ok?
    ensures QuietChange(accepted, w, MarkReceiptMissing(w, seqNo).value)
  {
    MarkKeeps(w, seqNo, accepted, 0);
    forall p ensures HeldBy(accepted, MarkReceiptMissing(w, seqNo).value.records, p) == HeldBy(accepted, w.records, p) {
      MarkKeeps(w, seqNo, accepted, p);
    }
  }

  lemma RollbackIsQuiet(w: Wallet, seqNo: nat, accepted: set<TransferPackage>)
    requires WalletOk(w) && RollbackPendingBundle(w, seqNo).Ok?
    ensures QuietChange(accepted, w, RollbackPendingBundle(w, seqNo).value)
  {
    RollbackKeeps(w, seqNo, accepted, 0);
    forall p ensures HeldBy(accepted, RollbackPendingBundle(w, seqNo).value.records, p) == HeldBy(accepted, w.records, p) {
      RollbackKeeps(w, seqNo, accepted, p);
    }
  }

  /** Every step but a delivery leaves every point with its holder. */
  lemma StepIsQuiet(m: Market, step: MarketStep)
    requires MarketInv(m) && StepFresh(m, step) && step.i < |m.wallets| && !step.Deliver? && WalletAfter(m, step).Some?
    ensures QuietChange(AllAccepted(m.wallets), m.wallets[step.i], WalletAfter(m, step).value)
  {
    hide AllSent, BuildBundle, ContextOk, HeldBy, NonOverlapping, OnReceiptConfirmed, ReceiveTransfer, TotalHeld;
    var w, accepted := m.wallets[step.i], AllAccepted(m.wallets);
    assert WalletOk(w);
    match step
    case Build(_, publicKey, signer, txs, seqNo, options) => BuildIsQuiet(w, publicKey, signer, txs, seqNo, options, accepted);
    case Confirm(i, receipt) => ConfirmIsQuiet(m, i, receipt);
    case Miss(_, seqNo) => MissIsQuiet(w, seqNo, accepted);
    case Rollback(_, seqNo) => RollbackIsQuiet(w, seqNo, accepted);
    case Observe(_, header) =>
    case Remember(_, record) =>
    case Send(_, _, _) =>
    case Deliver(_, _, _) =>
  }

  // ----- Sending

  lemma ExportIsSent(m: Market, i: nat, tx: OffChainTx, value: ValueRange)
    requires i < |m.wallets| && ExportTransferPackage(m.wallets[i], tx, value).Ok?
    ensures Sent(m.wallets, ExportTransferPackage(m.wallets[i], tx, value).value)
  {
    var r := FirstExport(m.wallets[i].records, m.wallets[i].address, tx, value).value;
    assert SentFor(m.wallets[i], r, PackageOf(r, tx));
  }

  // ----- Delivering: the accepted package is the one for the record that was sent

  /** A sent package that a validator accepts is the one package for its record. */
  lemma AcceptedIsPackageFor(
      w: Wallet, r: LocalValueRecord, package: TransferPackage, context: ValidationContext, recipient: Address)
    requires WalletOk(w) && SentFor(w, r, package)
    requires Accepts(context, package.tx, package.value, package.history, recipient)
    ensures PackageFor(r) == Some(package)
  {
    assert RecordOk(w.address, w.nextId, w.receipts.Keys, r);
    CountedIsMember(r.history.chain[0].sidecar.txs, package.tx);
    CoveringTxIsFirst(r.history.chain[0].sidecar.txs, package.tx, r.value);
  }

  // ----- Delivering: one holder for another

  lemma PackageNamesRecord(r: LocalValueRecord, package: TransferPackage)
    requires PackageFor(r) == Some(package)
    ensures package.value == r.value && package.history.owner == r.history.owner && package.history.chain == r.history.chain
    ensures r.history.chain != []
  {
    TrimKeepsTop(r.history, package.tx.recipient, r.value);
  }

  /** Accepting a package releases exactly the record it was sent for. */
  lemma SenderReleases(w: Wallet, k: nat, package: TransferPackage, accepted: set<TransferPackage>, p: nat)
    requires WalletOk(w) && k < |w.records| && w.records[k].status == Archived
    requires PackageFor(w.records[k]) == Some(package) && package !in accepted
    ensures HeldBy(accepted + {package}, w.records, p) + (if package.value.Has(p) then 1 else 0) == HeldBy(accepted, w.records, p)
  {
    PackageNamesRecord(w.records[k], package);
    forall j | 0 <= j < |w.records| && j != k
      ensures Holder(accepted + {package}, p)(w.records[j]) == Holder(accepted, p)(w.records[j])
    {
      OtherRecordStays(w, k, j, package, accepted, p);
    }
    SumDiffersAt(Holder(accepted + {package}, p), Holder(accepted, p), w.records, k, if package.value.Has(p) then 1 else 0);
  }

  lemma OtherRecordStays(w: Wallet, k: nat, j: nat, package: TransferPackage, accepted: set<TransferPackage>, p: nat)
    requires WalletOk(w) && k < |w.records| && w.records[k].status == Archived && j < |w.records| && j != k
    requires PackageFor(w.records[k]) == Some(package)
    ensures Held(accepted + {package}, w.records[j], p) == Held(accepted, w.records[j], p)
  {
    assert j < k ==> Distinct(w.records[j], w.records[k]);
    assert k < j ==> Distinct(w.records[k], w.records[j]);
    PackageNamesRecord(w.records[k], package);
    if w.records[j].status == Archived && PackageFor(w.records[j]) == Some(package) {
      PackageNamesRecord(w.records[j], package);
      assert false;
    }
  }

  lemma OtherWalletStays(w: Wallet, package: TransferPackage, accepted: set<TransferPackage>, p: nat)
    requires WalletOk(w) && package.history.owner != w.address
    ensures HeldBy(accepted + {package}, w.records, p) == HeldBy(accepted, w.records, p)
  {
    forall k | 0 <= k < |w.records| ensures Holder(accepted + {package}, p)(w.records[k]) == Holder(accepted, p)(w.records[k]) {
      assert w.records[k] in w.records && RecordOk(w.address, w.nextId, w.receipts.Keys, w.records[k]);
      if PackageFor(w.records[k]) == Some(package) {
        PackageNamesRecord(w.records[k], package);
        assert false;
      }
    }
    SumAgrees(Holder(accepted + {package}, p), Holder(accepted, p), w.records, w.records);
  }

  /** Over all wallets, accepting a package takes its points from exactly one holder. */
  lemma {:induction false} MarketReleases(
      wallets: seq<Wallet>, i: nat, k: nat, package: TransferPackage, accepted: set<TransferPackage>, p: nat)
    requires DistinctAddresses(wallets) && AllWalletsOk(wallets) && i < |wallets|
    requires k < |wallets[i].records| && wallets[i].records[k].status == Archived
    requires PackageFor(wallets[i].records[k]) == Some(package) && package !in accepted
    ensures Sum(WalletHolds(accepted + {package}, p), wallets) + (if package.value.Has(p) then 1 else 0)
         == Sum(WalletHolds(accepted, p), wallets)
  {
    assert WalletOk(wallets[i]);
    SenderReleases(wallets[i], k, package, accepted, p);
    PackageNamesRecord(wallets[i].records[k], package);
    assert wallets[i].records[k] in wallets[i].records;
    assert RecordOk(wallets[i].address, wallets[i].nextId, wallets[i].receipts.Keys, wallets[i].records[k]);
    forall j | 0 <= j < |wallets| && j != i
      ensures WalletHolds(accepted + {package}, p)(wallets[j]) == WalletHolds(accepted, p)(wallets[j])
    {
      assert WalletOk(wallets[j]) && wallets[j].address != wallets[i].address;
      OtherWalletStays(wallets[j], package, accepted, p);
    }
    SumDiffersAt(WalletHolds(accepted + {package}, p), WalletHolds(accepted, p), wallets, i, if package.value.Has(p) then 1 else 0);
  }

  /** What a wallet has not accepted, no wallet has. */
  lemma NotYetAccepted(m: Market, i: nat, package: TransferPackage)
    requires MarketInv(m) && i < |m.wallets| && package !in m.wallets[i].accepted
    requires package.tx.recipient == m.wallets[i].address
    ensures package !in AllAccepted(m.wallets)
  {
    if package in AllAccepted(m.wallets) {
      var j := AcceptedSomewhere(m.wallets, package);
      assert false;
    }
  }

  /** A delivery moves the package's points from the sender's archived record to the recipient's new one. */
  lemma DeliveryTotal(m: Market, i: nat, package: TransferPackage, context: ValidationContext, p: nat)
    requires MarketInv(m) && i < |m.wallets| && package in m.mail
    requires ReceiveTransfer(m.wallets[i], package, context).Ok?
    ensures var w := ReceiveTransfer(m.wallets[i], package, context).value;
            && WalletOk(w) && KeepsArchived(m.wallets[i].records, w.records)
            && AllAccepted(m.wallets[i := w]) == AllAccepted(m.wallets) + {package}
            && TotalHeld(m.wallets[i := w], p) == TotalHeld(m.wallets, p)
  {
    hide Accepts, AnchorError, ContextOk, HeldBy, RecordOk, SegmentError, Sent;
    var before, accepted := m.wallets[i], AllAccepted(m.wallets);
    var w := ReceiveTransfer(before, package, context).value;
    ReceiveShape(before, package, context);
    assert Sent(m.wallets, package) && WalletOk(before);
    NotYetAccepted(m, i, package);
    DeliveryReleases(m, package, context, before.address, p);
    AcceptedAfterUpdate(m.wallets, i, w, {package});
    AppendKeeps(before, ReceivedRecord(before, package), accepted + {package}, p);
    SumAfterUpdate(WalletHolds(accepted + {package}, p), m.wallets, i, w);
  }

  lemma DeliveryReleases(m: Market, package: TransferPackage, context: ValidationContext, recipient: Address, p: nat)
    requires MarketInv(m) && package in m.mail && package !in AllAccepted(m.wallets)
    requires Accepts(context, package.tx, package.value, package.history, recipient)
    ensures Sum(WalletHolds(AllAccepted(m.wallets) + {package}, p), m.wallets) + (if package.value.Has(p) then 1 else 0)
         == TotalHeld(m.wallets, p)
  {
    assert Sent(m.wallets, package);
    var j, r :| 0 <= j < |m.wallets| && SentFor(m.wallets[j], r, package);
    assert WalletOk(m.wallets[j]);
    AcceptedIsPackageFor(m.wallets[j], r, package, context, recipient);
    var k :| 0 <= k < |m.wallets[j].records| && m.wallets[j].records[k] == r;
    MarketReleases(m.wallets, j, k, package, AllAccepted(m.wallets), p);
  }

  // ----- Runs

  lemma DeliveryTotals(m: Market, i: nat, package: TransferPackage, context: ValidationContext)
    requires MarketInv(m) && i < |m.wallets| && package in m.mail
    requires ReceiveTransfer(m.wallets[i], package, context).Ok?
    ensures var wallets := m.wallets[i := ReceiveTransfer(m.wallets[i], package, context).value];
            && (forall p :: TotalHeld(wallets, p) == TotalHeld(m.wallets, p))
            && (forall p :: TotalHeld(wallets, p) <= 1)
            && AllAccepted(wallets) <= m.mail
  {
    var wallets := m.wallets[i := ReceiveTransfer(m.wallets[i], package, context).value];
    DeliveryTotal(m, i, package, context, 0);
    forall p ensures TotalHeld(wallets, p) == TotalHeld(m.wallets, p) {
      DeliveryTotal(m, i, package, context, p);
    }
    TotalsStayLow(m.wallets, wallets);
  }

  lemma DeliveryWallets(m: Market, i: nat, package: TransferPackage, context: ValidationContext)
    requires MarketInv(m) && i < |m.wallets| && package in m.mail
    requires ReceiveTransfer(m.wallets[i], package, context).Ok?
    ensures var wallets := m.wallets[i := ReceiveTransfer(m.wallets[i], package, context).value];
            AllWalletsOk(wallets) && AllSent(wallets, m.mail)
  {
    var w := ReceiveTransfer(m.wallets[i], package, context).value;
    DeliveryTotal(m, i, package, context, 0);
    WalletsStayOk(m.wallets, i, w);
    MailStaysSent(m.wallets, i, w, m.mail);
  }

  lemma DeliveryRecipients(m: Market, i: nat, package: TransferPackage, context: ValidationContext)
    requires MarketInv(m) && i < |m.wallets| && ReceiveTransfer(m.wallets[i], package, context).Ok?
    ensures var wallets := m.wallets[i := ReceiveTransfer(m.wallets[i], package, context).value];
            DistinctAddresses(wallets) && RightRecipients(wallets)
  {
    ReceiveShape(m.wallets[i], package, context);
    RecipientsStayRight(m.wallets, i, ReceiveTransfer(m.wallets[i], package, context).value);
  }

  lemma DeliveryKeepsInv(m: Market, i: nat, package: TransferPackage, context: ValidationContext)
    requires MarketInv(m) && i < |m.wallets| && package in m.mail
    requires ReceiveTransfer(m.wallets[i], package, context).Ok?
    ensures var wallets := m.wallets[i := ReceiveTransfer(m.wallets[i], package, context).value];
            MarketInv(m.(wallets := wallets)) && forall p :: TotalHeld(wallets, p) == TotalHeld(m.wallets, p)
  {
    DeliveryTotals(m, i, package, context);
    DeliveryWallets(m, i, package, context);
    DeliveryRecipients(m, i, package, context);
  }

  lemma SendKeepsInv(m: Market, step: MarketStep)
    requires MarketInv(m) && step.i < |m.wallets| && step.Send?
    ensures MarketInv(StepMarket(m, step)) && StepMarket(m, step).wallets == m.wallets
  {
    hide AllWalletsOk, BuildBundle, CreateExactCheckpoint, ExportTransferPackage;
    hide MarkReceiptMissing, OnReceiptConfirmed, ReceiveTransfer, TotalHeld;
    if ExportTransferPackage(m.wallets[step.i], step.tx, step.value).Ok? {
      ExportIsSent(m, step.i, step.tx, step.value);
    }
  }

  /** Every step keeps the invariant, and leaves the number of holders of every point alone. */
  lemma StepConserves(m: Market, step: MarketStep)
    requires MarketInv(m) && StepFresh(m, step)
    ensures MarketInv(StepMarket(m, step))
    ensures forall p :: TotalHeld(StepMarket(m, step).wallets, p) == TotalHeld(m.wallets, p)
  {
    hide BuildBundle, CreateExactCheckpoint, ExportTransferPackage, MarketInv;
    hide OnReceiptConfirmed, QuietChange, ReceiveTransfer, TotalHeld;
    if step.i < |m.wallets| {
      if step.Send? {
        SendKeepsInv(m, step);
      } else if WalletAfter(m, step).Some? {
        var w := WalletAfter(m, step).value;
        if step.Deliver? {
          DeliveryKeepsInv(m, step.i, step.package, step.context);
        } else {
          StepIsQuiet(m, step);
          QuietKeepsInv(m, step.i, w);
        }
        assert StepMarket(m, step) == m.(wallets := m.wallets[step.i := w]);
      }
    }
  }

  lemma {:induction false} RunConserves(m: Market, steps: seq<MarketStep>)
    requires MarketInv(m) && RunFresh(m, steps)
    ensures MarketInv(RunMarket(m, steps))
    ensures forall p :: TotalHeld(RunMarket(m, steps).wallets, p) == TotalHeld(m.wallets, p)
  {
    if steps != [] {
      RunConserves(m, steps[..|steps| - 1]);
      StepConserves(RunMarket(m, steps[..|steps| - 1]), steps[|steps| - 1]);
    }
  }

  // ----- Genesis

  function GenesisWallet(address: Address, genesisBlockHash: Hash, values: seq<ValueRange>): Wallet {
    if values == [] then FreshWallet(address, genesisBlockHash)
    else AddGenesisValue(GenesisWallet(address, genesisBlockHash, values[..|values| - 1]), values[|values| - 1])
  }

  datatype Allocation = Allocation(owner: Address, values: seq<ValueRange>)

  function OpenWallet(genesisBlockHash: Hash): Allocation -> Wallet {
    (a: Allocation) => GenesisWallet(a.owner, genesisBlockHash, a.values)
  }

  function GenesisMarket(genesisBlockHash: Hash, allocations: seq<Allocation>): Market {
    Market(MapSeq(OpenWallet(genesisBlockHash), allocations), {})
  }

  function HasPoint(p: nat): ValueRange -> nat {
    (v: ValueRange) => if v.Has(p) then 1 else 0
  }

  function AllocatedTo(p: nat): Allocation -> nat {
    (a: Allocation) => Sum(HasPoint(p), a.values)
  }

  /** How many genesis ranges cover a point. */
  function GenesisCount(allocations: seq<Allocation>, p: nat): nat {
    Sum(AllocatedTo(p), allocations)
  }

  lemma {:induction false} GenesisWalletHolds(address: Address, genesisBlockHash: Hash, values: seq<ValueRange>, p: nat)
    ensures var w := GenesisWallet(address, genesisBlockHash, values);
            && WalletOk(w) && w.address == address && w.accepted == {} && w.pending == map[] && w.receipts == map[]
            && HeldBy({}, w.records, p) == Sum(HasPoint(p), values)
  {
    if values != [] {
      var w, value := GenesisWallet(address, genesisBlockHash, values[..|values| - 1]), values[|values| - 1];
      GenesisWalletHolds(address, genesisBlockHash, values[..|values| - 1], p);
      var history := Witness(value, w.address, [], GenesisAnchor(w.genesisBlockHash, w.address, value));
      AppendKeeps(w, LocalValueRecord(w.nextId, value, history, VerifiedSpendable, 0), {}, p);
    }
  }

  lemma {:induction false} NothingAccepted(wallets: seq<Wallet>)
    requires forall i :: 0 <= i < |wallets| ==> wallets[i].accepted == {}
    ensures AllAccepted(wallets) == {}
  {
    if wallets != [] {
      NothingAccepted(wallets[..|wallets| - 1]);
    }
  }

  ghost predicate DistinctOwners(allocations: seq<Allocation>) {
    forall i, j :: 0 <= i < j < |allocations| ==> allocations[i].owner != allocations[j].owner
  }

  lemma GenesisTotal(genesisBlockHash: Hash, allocations: seq<Allocation>, p: nat)
    ensures var m := GenesisMarket(genesisBlockHash, allocations);
            AllAccepted(m.wallets) == {} && AllWalletsOk(m.wallets) && TotalHeld(m.wallets, p) == GenesisCount(allocations, p)
  {
    var m := GenesisMarket(genesisBlockHash, allocations);
    forall i {:trigger m.wallets[i]} | 0 <= i < |m.wallets|
      ensures m.wallets[i].accepted == {} && WalletOk(m.wallets[i])
      ensures WalletHolds({}, p)(m.wallets[i]) == AllocatedTo(p)(allocations[i])
    {
      GenesisWalletHolds(allocations[i].owner, genesisBlockHash, allocations[i].values, p);
    }
    NothingAccepted(m.wallets);
    SumAgrees(WalletHolds({}, p), AllocatedTo(p), m.wallets, allocations);
  }

  lemma GenesisInv(genesisBlockHash: Hash, allocations: seq<Allocation>)
    requires DistinctOwners(allocations) && forall p :: GenesisCount(allocations, p) <= 1
    ensures MarketInv(GenesisMarket(genesisBlockHash, allocations))
  {
    var m := GenesisMarket(genesisBlockHash, allocations);
    forall p ensures TotalHeld(m.wallets, p) <= 1 {
      GenesisTotal(genesisBlockHash, allocations, p);
    }
    GenesisTotal(genesisBlockHash, allocations, 0);
    forall i {:trigger m.wallets[i]} | 0 <= i < |m.wallets|
      ensures m.wallets[i].address == allocations[i].owner && m.wallets[i].accepted == {}
    {
      GenesisWalletHolds(allocations[i].owner, genesisBlockHash, allocations[i].values, 0);
    }
  }

  /**
    Conservation: in every run from disjoint genesis allocations that never reuses a confirmed sequence number, each
    genesis point has exactly one holder among all wallets, and no other point has any.
   */
  lemma {:induction false} ValueIsConserved(
      genesisBlockHash: Hash, allocations: seq<Allocation>, steps: seq<MarketStep>, p: nat)
    requires DistinctOwners(allocations) && forall q :: GenesisCount(allocations, q) <= 1
    requires RunFresh(GenesisMarket(genesisBlockHash, allocations), steps)
    ensures TotalHeld(RunMarket(GenesisMarket(genesisBlockHash, allocations), steps).wallets, p) == GenesisCount(allocations, p)
  {
    hide *;
    GenesisInv(genesisBlockHash, allocations);
    GenesisTotal(genesisBlockHash, allocations, p);
    RunConserves(GenesisMarket(genesisBlockHash, allocations), steps);
  }

  /** The record at this place holds the point. */
  ghost predicate HoldsAt(wallets: seq<Wallet>, i: nat, k: nat, p: nat)
    requires i < |wallets| && k < |wallets[i].records|
  {
    Held(AllAccepted(wallets), wallets[i].records[k], p) == 1
  }

  /** No two places hold the same point: nothing is ever duplicated or accepted twice. */
  lemma {:induction false} HoldersAreUnique(
      genesisBlockHash: Hash, allocations: seq<Allocation>, steps: seq<MarketStep>, p: nat, i: nat, k: nat, j: nat, l: nat)
    requires DistinctOwners(allocations) && forall q :: GenesisCount(allocations, q) <= 1
    requires RunFresh(GenesisMarket(genesisBlockHash, allocations), steps)
    requires var wallets := RunMarket(GenesisMarket(genesisBlockHash, allocations), steps).wallets;
             && i < |wallets| && k < |wallets[i].records| && HoldsAt(wallets, i, k, p)
             && j < |wallets| && l < |wallets[j].records| && HoldsAt(wallets, j, l, p)
    ensures i == j && k == l
  {
    hide *;
    var wallets := RunMarket(GenesisMarket(genesisBlockHash, allocations), steps).wallets;
    ValueIsConserved(genesisBlockHash, allocations, steps, p);
    TwoPlaces(wallets, p, i, k, j, l);
  }

  lemma TwoPlaces(wallets: seq<Wallet>, p: nat, i: nat, k: nat, j: nat, l: nat)
    requires i < |wallets| && k < |wallets[i].records| && HoldsAt(wallets, i, k, p)
    requires j < |wallets| && l < |wallets[j].records| && HoldsAt(wallets, j, l, p)
    ensures (i, k) == (j, l) || TotalHeld(wallets, p) >= 2
  {
    var f, g := WalletHolds(AllAccepted(wallets), p), Holder(AllAccepted(wallets), p);
    SumAtLeast(g, wallets[i].records, k);
    SumAtLeast(g, wallets[j].records, l);
    if i < j {
      SumAtLeastTwo(f, wallets, i, j);
    } else if j < i {
      SumAtLeastTwo(f, wallets, j, i);
    } else if k != l {
      SumAtLeastTwo(g, wallets[i].records, if k < l then k else l, if k < l then l else k);
      SumAtLeast(f, wallets, i);
    }
  }

  /** Every genesis point still has a place: nothing is ever lost. */
  lemma NothingIsLost(
      genesisBlockHash: Hash, allocations: seq<Allocation>, steps: seq<MarketStep>, p: nat) returns (i: nat, k: nat)
    requires DistinctOwners(allocations) && (forall q :: GenesisCount(allocations, q) <= 1) && GenesisCount(allocations, p) == 1
    requires RunFresh(GenesisMarket(genesisBlockHash, allocations), steps)
    ensures var wallets := RunMarket(GenesisMarket(genesisBlockHash, allocations), steps).wallets;
            i < |wallets| && k < |wallets[i].records| && HoldsAt(wallets, i, k, p)
  {
    var wallets := RunMarket(GenesisMarket(genesisBlockHash, allocations), steps).wallets;
    ValueIsConserved(genesisBlockHash, allocations, steps, p);
    i := SumSomewhere(WalletHolds(AllAccepted(wallets), p), wallets);
    k := SumSomewhere(Holder(AllAccepted(wallets), p), wallets[i].records);
  }
}

/** Which receipts a wallet confirms: exactly those proved under a header it knows, in sequence; on every run at that. */
module ReceiptRules {
  import opened Prelude
  import opened Sorting
  import opened Values
  import opened Types
  import opened ClaimSets
  import opened Ledger
  import opened SparseMerkle
  import opened Chains
  import opened ChainRuns
  import opened Validation
  import opened Histories
  import opened Selection
  import opened Wallets
  import opened TwoPhase
  import opened WalletInvariants
  import opened Conservation

  /** The reference under which a unit is found on the chain. */
  function RefOf(unit: ConfirmedUnit): BundleRef {
    BundleRef(unit.receipt.header.height, unit.receipt.header.blockHash, BundleBodyHash(unit.sidecar), unit.receipt.seqNo)
  }

  /** The wallet has seen this very header. */
  ghost predicate Knows(w: Wallet, header: HeaderLite) {
    header.height in w.headers && w.headers[header.height] == header
  }

  /** The receipt follows the wallet's unit before, and the first one follows none. */
  ghost predicate InSequence(w: Wallet, receipt: Receipt) {
    if receipt.seqNo == 1 then receipt.prevRef == None
    else receipt.seqNo - 1 in w.units && receipt.prevRef == Some(RefOf(w.units[receipt.seqNo - 1]))
  }

  /** The wallet's leaf with this bundle is proved under the receipt's own header. */
  ghost predicate LeafProved(w: Wallet, receipt: Receipt, sidecar: Sidecar) {
    && receipt.proof.Single?
    && VerifyProof(receipt.header.stateRoot, w.address.key,
                   AccountLeafHash(AccountLeaf(sidecar.sender, Some(RefOf(ConfirmedUnit(receipt, sidecar))), receipt.prevRef,
                                               receipt.claimSetHash)),
                   receipt.proof.proof, 256)
  }

  /** A receipt is confirmed exactly if it is for a pending bundle, under a known header, in sequence and proved. */
  lemma ConfirmDecides(w: Wallet, receipt: Receipt)
    ensures OnReceiptConfirmed(w, receipt).Ok? <==>
            && receipt.seqNo as nat in w.pending && Knows(w, receipt.header) && InSequence(w, receipt)
            && LeafProved(w, receipt, w.pending[receipt.seqNo].sidecar)
  {
    hide VerifyProof;
  }

  /** Observing a header makes it the one known at its height, and changes nothing else. */
  lemma ObserveKnows(w: Wallet, header: HeaderLite, known: HeaderLite)
    ensures var after := ObserveHeader(w, header);
            && after == w.(headers := after.headers)
            && (Knows(after, known) <==> known == header || (known.height != header.height && Knows(w, known)))
  {
  }

  // ----- What a wallet has seen

  ghost predicate SeenBefore(steps: seq<MarketStep>, k: nat, i: nat, header: HeaderLite) {
    exists j :: 0 <= j < k && j < |steps| && steps[j] == Observe(i, header)
  }

  /** The unit's receipt was confirmed at a step before which the wallet had observed the receipt's header. */
  ghost predicate ConfirmedUnderSeen(steps: seq<MarketStep>, i: nat, unit: ConfirmedUnit) {
    exists k {:trigger steps[k]} :: 0 <= k < |steps| && steps[k] == Confirm(i, unit.receipt) && SeenBefore(steps, k, i, unit.receipt.header)
  }

  /** The wallet's pending and confirmed bundles are its own, and every confirmed one was proved under its receipt's header. */
  ghost predicate OwnUnits(w: Wallet) {
    && (forall s :: s in w.pending ==> w.pending[s].sidecar.sender == w.address)
    && forall n :: n in w.units ==> w.units[n].sidecar.sender == w.address && UnitProofVerifies(w.units[n])
  }

  /** All the wallet knows it has observed, and all it confirmed it confirmed under what it had observed. */
  ghost predicate WellInformed(steps: seq<MarketStep>, i: nat, w: Wallet) {
    && OwnUnits(w)
    && (forall header {:trigger Knows(w, header)} :: Knows(w, header) ==> SeenBefore(steps, |steps|, i, header))
    && forall n :: n in w.units ==> ConfirmedUnderSeen(steps, i, w.units[n])
  }

  lemma MoreStepsInform(steps: seq<MarketStep>, step: MarketStep, i: nat, w: Wallet)
    requires WellInformed(steps, i, w)
    ensures WellInformed(steps + [step], i, w)
  {
    hide Knows, OwnUnits;
    var more := steps + [step];
    forall header {:trigger Knows(w, header)} | Knows(w, header) ensures SeenBefore(more, |more|, i, header) {
      var j :| 0 <= j < |steps| && steps[j] == Observe(i, header);
      assert more[j] == steps[j];
    }
    forall n | n in w.units ensures ConfirmedUnderSeen(more, i, w.units[n]) {
      StillUnderSeen(steps, step, i, w.units[n]);
    }
  }

  lemma StillUnderSeen(steps: seq<MarketStep>, step: MarketStep, i: nat, unit: ConfirmedUnit)
    requires ConfirmedUnderSeen(steps, i, unit)
    ensures ConfirmedUnderSeen(steps + [step], i, unit)
  {
    var more := steps + [step];
    var k :| 0 <= k < |steps| && steps[k] == Confirm(i, unit.receipt) && SeenBefore(steps, k, i, unit.receipt.header);
    var j :| 0 <= j < k && j < |steps| && steps[j] == Observe(i, unit.receipt.header);
    assert more[k] == steps[k] && more[j] == steps[j];
  }

  /** Nothing that concerns units or headers changed. */
  ghost predicate SameUnits(w: Wallet, after: Wallet) {
    && after.address == w.address && after.units == w.units && after.headers == w.headers
    && forall s :: s in after.pending ==> after.pending[s].sidecar.sender == w.address
  }

  lemma OtherStepsKeepUnits(m: Market, step: MarketStep)
    requires step.i < |m.wallets| && !step.Confirm? && !step.Observe? && WalletAfter(m, step).Some? && OwnUnits(m.wallets[step.i])
    ensures SameUnits(m.wallets[step.i], WalletAfter(m, step).value)
  {
    hide BundleError, TransferError, SplitAssigned, Assign, UnitProofVerifies, MarkMissing, Release;
  }

  lemma SameStaysInformed(steps: seq<MarketStep>, i: nat, w: Wallet, after: Wallet)
    requires WellInformed(steps, i, w) && SameUnits(w, after)
    ensures WellInformed(steps, i, after)
  {
    hide ConfirmedUnderSeen, SeenBefore, UnitProofVerifies;
    forall header {:trigger Knows(after, header)} | Knows(after, header) ensures SeenBefore(steps, |steps|, i, header) {
      assert Knows(w, header);
    }
  }

  lemma ObservingInforms(steps: seq<MarketStep>, i: nat, w: Wallet, header: HeaderLite)
    requires WellInformed(steps, i, w)
    ensures WellInformed(steps + [Observe(i, header)], i, ObserveHeader(w, header))
  {
    hide ConfirmedUnderSeen, UnitProofVerifies;
    var more, after := steps + [Observe(i, header)], ObserveHeader(w, header);
    MoreStepsInform(steps, Observe(i, header), i, w);
    forall known {:trigger Knows(after, known)} | Knows(after, known) ensures SeenBefore(more, |more|, i, known) {
      if known == header {
        assert more[|steps|] == Observe(i, header);
      } else {
        assert Knows(w, known);
      }
    }
  }

  lemma ConfirmedIsProved(w: Wallet, receipt: Receipt)
    requires OwnUnits(w) && OnReceiptConfirmed(w, receipt).Ok?
    ensures var (after, unit) := OnReceiptConfirmed(w, receipt).value;
            && unit.receipt == receipt && unit.sidecar.sender == w.address && UnitProofVerifies(unit)
            && Knows(w, receipt.header)
            && after.units == w.units[receipt.seqNo := unit] && after.headers == w.headers && after.address == w.address
            && after.pending == w.pending - {receipt.seqNo as nat}
  {
    hide VerifyProof;
    ConfirmDecides(w, receipt);
    ConfirmShape(w, receipt);
  }

  lemma {:induction false} ConfirmingInforms(steps: seq<MarketStep>, i: nat, w: Wallet, receipt: Receipt)
    requires WellInformed(steps, i, w) && OnReceiptConfirmed(w, receipt).Ok?
    ensures WellInformed(steps + [Confirm(i, receipt)], i, OnReceiptConfirmed(w, receipt).value.0)
  {
    hide OnReceiptConfirmed, UnitProofVerifies;
    var more := steps + [Confirm(i, receipt)];
    var (after, unit) := OnReceiptConfirmed(w, receipt).value;
    ConfirmedIsProved(w, receipt);
    MoreStepsInform(steps, Confirm(i, receipt), i, w);
    assert ConfirmedUnderSeen(more, i, unit) by {
      assert SeenBefore(steps, |steps|, i, receipt.header);
      assert more[|steps|] == Confirm(i, receipt) && SeenBefore(more, |steps|, i, receipt.header);
    }
    assert forall header {:trigger Knows(after, header)} :: Knows(after, header) ==> Knows(w, header);
  }

  // ----- Whole runs

  ghost predicate AllInformed(steps: seq<MarketStep>, wallets: seq<Wallet>) {
    forall i {:trigger WellInformed(steps, i, wallets[i])} :: 0 <= i < |wallets| ==> WellInformed(steps, i, wallets[i])
  }

  lemma {:induction false} ActingStaysInformed(steps: seq<MarketStep>, m: Market, step: MarketStep)
    requires step.i < |m.wallets| && WalletAfter(m, step).Some? && WellInformed(steps, step.i, m.wallets[step.i])
    ensures WellInformed(steps + [step], step.i, WalletAfter(m, step).value)
  {
    hide WellInformed, SameUnits, BuildBundle, OnReceiptConfirmed;
    hide ReceiveTransfer, MarkReceiptMissing, RollbackPendingBundle, CreateExactCheckpoint;
    var w := m.wallets[step.i];
    if step.Confirm? {
      ConfirmingInforms(steps, step.i, w, step.receipt);
    } else if step.Observe? {
      ObservingInforms(steps, step.i, w, step.header);
    } else {
      InformedOwns(steps, step.i, w);
      OtherStepsKeepUnits(m, step);
      SameStaysInformed(steps, step.i, w, WalletAfter(m, step).value);
      MoreStepsInform(steps, step, step.i, WalletAfter(m, step).value);
    }
  }

  lemma InformedOwns(steps: seq<MarketStep>, i: nat, w: Wallet)
    requires WellInformed(steps, i, w)
    ensures OwnUnits(w)
  {
  }

  lemma {:induction false} StepStaysInformed(steps: seq<MarketStep>, m: Market, step: MarketStep)
    requires AllInformed(steps, m.wallets)
    ensures AllInformed(steps + [step], StepMarket(m, step).wallets)
  {
    hide WellInformed, WalletAfter, MailAfter;
    var after := StepMarket(m, step).wallets;
    forall i {:trigger WellInformed(steps + [step], i, after[i])} | 0 <= i < |after| ensures WellInformed(steps + [step], i, after[i]) {
      assert WellInformed(steps, i, m.wallets[i]);
      if i == step.i && WalletAfter(m, step).Some? {
        ActingStaysInformed(steps, m, step);
      } else {
        MoreStepsInform(steps, step, i, m.wallets[i]);
      }
    }
  }

  lemma {:induction false} GenesisInformed(address: Address, genesisBlockHash: Hash, values: seq<ValueRange>)
    ensures var w := GenesisWallet(address, genesisBlockHash, values);
            w.headers == map[] && w.units == map[] && w.pending == map[] && w.address == address
  {
    if values != [] {
      GenesisInformed(address, genesisBlockHash, values[..|values| - 1]);
    }
  }

  lemma {:induction false} MarketStartsInformed(genesisBlockHash: Hash, allocations: seq<Allocation>)
    ensures AllInformed([], GenesisMarket(genesisBlockHash, allocations).wallets)
  {
    var wallets := GenesisMarket(genesisBlockHash, allocations).wallets;
    forall i {:trigger WellInformed([], i, wallets[i])} | 0 <= i < |wallets| ensures WellInformed([], i, wallets[i]) {
      GenesisInformed(allocations[i].owner, genesisBlockHash, allocations[i].values);
    }
  }

  lemma {:induction false} RunStaysInformed(m: Market, steps: seq<MarketStep>)
    requires AllInformed([], m.wallets)
    ensures AllInformed(steps, RunMarket(m, steps).wallets)
  {
    hide AllInformed, StepMarket;
    if steps == [] {
      assert steps == [];
    } else {
      var init, last := steps[..|steps| - 1], steps[|steps| - 1];
      RunStaysInformed(m, init);
      StepStaysInformed(init, RunMarket(m, init), last);
      assert steps == init + [last];
    }
  }

  /**
    Whatever receipts, headers and packages the wallets are offered, in whatever order: every unit a wallet stores was
    confirmed at some step, before which the wallet had observed the receipt's header.
   */
  lemma {:induction false} ConfirmedOnlyUnderObserved(
      genesisBlockHash: Hash, allocations: seq<Allocation>, steps: seq<MarketStep>, i: nat, n: nat)
    requires i < |RunMarket(GenesisMarket(genesisBlockHash, allocations), steps).wallets|
    requires n in RunMarket(GenesisMarket(genesisBlockHash, allocations), steps).wallets[i].units
    ensures ConfirmedUnderSeen(steps, i, RunMarket(GenesisMarket(genesisBlockHash, allocations), steps).wallets[i].units[n])
  {
    hide ConfirmedUnderSeen, GenesisMarket, RunMarket;
    MarketStartsInformed(genesisBlockHash, allocations);
    RunStaysInformed(GenesisMarket(genesisBlockHash, allocations), steps);
    var w := RunMarket(GenesisMarket(genesisBlockHash, allocations), steps).wallets[i];
    assert WellInformed(steps, i, w);
  }

  /** The wallet observes headers of these blocks only. */
  ghost predicate ObservesOnly(steps: seq<MarketStep>, i: nat, blocks: seq<Block>) {
    forall j :: 0 <= j < |steps| && steps[j].Observe? && steps[j].i == i ==>
      var header := steps[j].header;
      1 <= header.height <= |blocks| && header == LiteOf(blocks[header.height - 1])
  }

  lemma {:induction false} SeenIsCanonical(steps: seq<MarketStep>, i: nat, unit: ConfirmedUnit, blocks: seq<Block>)
    requires ConfirmedUnderSeen(steps, i, unit) && ObservesOnly(steps, i, blocks)
    ensures 1 <= HeightOf(unit) <= |blocks| && unit.receipt.header == LiteOf(blocks[HeightOf(unit) - 1])
  {
    var k :| 0 <= k < |steps| && steps[k] == Confirm(i, unit.receipt) && SeenBefore(steps, k, i, unit.receipt.header);
    var j :| 0 <= j < k && j < |steps| && steps[j] == Observe(i, unit.receipt.header);
  }

  /**
    A wallet that observes only headers of the chain stores only what the chain holds, whoever made the receipts: each
    of its units that was proved by existence is the bundle the block of its height packaged for the wallet.
   */
  lemma {:induction false} StoredUnitsAreOnChain(
      genesisBlockHash: Hash, allocations: seq<Allocation>, steps: seq<MarketStep>, i: nat, n: nat, blocks: seq<Block>)
    requires i < |RunMarket(GenesisMarket(genesisBlockHash, allocations), steps).wallets|
    requires n in RunMarket(GenesisMarket(genesisBlockHash, allocations), steps).wallets[i].units
    requires GoodBlocks(blocks) && ObservesOnly(steps, i, blocks)
    requires var unit := RunMarket(GenesisMarket(genesisBlockHash, allocations), steps).wallets[i].units[n];
             unit.receipt.proof.Single? && unit.receipt.proof.proof.existence
    ensures OnChain(blocks, RunMarket(GenesisMarket(genesisBlockHash, allocations), steps).wallets[i].units[n])
  {
    hide AllInformed, ConfirmedUnderSeen, GenesisMarket, GoodBlocks;
    hide ObservesOnly, OnChain, RunMarket, UnitProofVerifies;
    MarketStartsInformed(genesisBlockHash, allocations);
    RunStaysInformed(GenesisMarket(genesisBlockHash, allocations), steps);
    var w := RunMarket(GenesisMarket(genesisBlockHash, allocations), steps).wallets[i];
    InformedAt(steps, RunMarket(GenesisMarket(genesisBlockHash, allocations), steps).wallets, i);
    SeenIsCanonical(steps, i, w.units[n], blocks);
    ProvenUnitIsOnChain(blocks, w.units[n]);
  }

  lemma InformedAt(steps: seq<MarketStep>, wallets: seq<Wallet>, i: nat)
    requires AllInformed(steps, wallets) && i < |wallets|
    ensures WellInformed(steps, i, wallets[i])
  {
  }
}

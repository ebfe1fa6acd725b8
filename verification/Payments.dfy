/**
  Honest runs get somewhere: a wallet confirms exactly the receipts of its own bundles, and a bundle that is built,
  submitted, packaged and observed is confirmed, exported and accepted.
 */
module Payments {
  import opened Prelude
  import opened Sorting
  import opened Values
  import opened Types
  import opened ClaimSets
  import opened Ledger
  import opened ReceiptCaches
  import opened BundlePools
  import opened Chains
  import opened ChainRuns
  import opened Agreement
  import opened ChainInvariants
  import opened Runs
  import opened Validation
  import opened Histories
  import opened Selection
  import opened Wallets
  import opened WalletInvariants
  import opened Conservation
  import opened HonestWallets
  import opened HonestConfirms
  import opened Traces
  import opened EmittedReceipts
  import opened Participants
  import opened HonestTrades
  import opened HonestRuns

  // ----- The newest unit is the chain's

  ghost predicate NewestOnChain(w: Wallet, blocks: seq<Block>) {
    var n := ConfirmedCount(w);
    n > 0 ==> n in w.units && w.units[n].receipt.seqNo == n && w.units[n].sidecar.sender == w.address && OnChain(blocks, w.units[n])
  }

  ghost predicate AllNewest(wallets: seq<Wallet>, blocks: seq<Block>) {
    forall i {:trigger NewestOnChain(wallets[i], blocks)} :: 0 <= i < |wallets| ==> NewestOnChain(wallets[i], blocks)
  }

  lemma OnLongerChain(blocks: seq<Block>, b: Block, unit: ConfirmedUnit)
    requires OnChain(blocks, unit)
    ensures OnChain(blocks + [b], unit)
  {
    var h := unit.receipt.header.height;
    assert (blocks + [b])[..h - 1] == blocks[..h - 1] && (blocks + [b])[h - 1] == blocks[h - 1];
  }

  lemma NewestOnLonger(w: Wallet, blocks: seq<Block>, b: Block)
    requires NewestOnChain(w, blocks)
    ensures NewestOnChain(w, blocks + [b])
  {
    if ConfirmedCount(w) > 0 {
      OnLongerChain(blocks, b, w.units[ConfirmedCount(w)]);
    }
  }

  lemma AllNewestOnLonger(wallets: seq<Wallet>, blocks: seq<Block>, b: Block)
    requires AllNewest(wallets, blocks)
    ensures AllNewest(wallets, blocks + [b])
  {
    forall i {:trigger NewestOnChain(wallets[i], blocks + [b])} | 0 <= i < |wallets|
      ensures NewestOnChain(wallets[i], blocks + [b])
    {
      assert NewestOnChain(wallets[i], blocks);
      NewestOnLonger(wallets[i], blocks, b);
    }
  }

  /** A step either leaves the blocks alone or adds one. */
  lemma StepExtends(c: ChainState, step: ChainStep) returns (more: seq<Block>)
    requires ChainInv(c)
    ensures |more| <= 1 && Step(c, step).blocks == c.blocks + more
  {
    hide BuildBlock, ChainInv, FirstEntryError, GoodBlock, NewBlock, RecordBlock, RootError, SubmitTo;
    more := [];
    match step
    case Submit(_, _) =>
    case Produce(timestamp, sig, extra, limit) =>
      if SnapshotOf(c.pool, limit) != [] {
        BuildIsCommit(c, timestamp, sig, extra, limit);
        more := [BuildBlock(c, timestamp, sig, extra, limit).block];
      }
    case Receive(b) =>
      if ApplyBlock(c, b).Ok? {
        more := [b];
      }
  }

  lemma ExtendedNewest(wallets: seq<Wallet>, blocks: seq<Block>, more: seq<Block>)
    requires AllNewest(wallets, blocks) && |more| <= 1
    ensures AllNewest(wallets, blocks + more)
  {
    if more == [] {
      assert blocks + more == blocks;
    } else {
      AllNewestOnLonger(wallets, blocks, more[0]);
      assert more == [more[0]];
    }
  }

  lemma ChainStepKeepsNewest(wallets: seq<Wallet>, c: ChainState, step: ChainStep)
    requires ChainInv(c) && AllNewest(wallets, c.blocks)
    ensures AllNewest(wallets, Step(c, step).blocks)
  {
    hide *;
    var more := StepExtends(c, step);
    ExtendedNewest(wallets, c.blocks, more);
  }

  lemma QuietUnits(m: Market, step: MarketStep)
    requires step.i < |m.wallets| && !step.Confirm? && WalletAfter(m, step).Some?
    ensures WalletAfter(m, step).value.units == m.wallets[step.i].units
    ensures WalletAfter(m, step).value.address == m.wallets[step.i].address
  {
  }

  lemma {:induction false} ConfirmedIsOnChain(w: Wallet, n: nat, blocks: seq<Block>, e: Emission)
    requires GoodBlocks(blocks) && Confirmable(w, n, LogOf(blocks), e) && UnitsChain(w.address, w.units, n, |blocks|)
    requires OnReceiptConfirmed(w, e.receipt).Ok?
    ensures NewestOnChain(OnReceiptConfirmed(w, e.receipt).value.0, blocks)
  {
    var unit, after := ConfirmedUnit(e.receipt, w.pending[n + 1].sidecar), OnReceiptConfirmed(w, e.receipt).value.0;
    ProvenEmissionIsOnChain(blocks, e, unit);
    ConfirmShape(w, e.receipt);
    UnitsGrow(w.address, w.units, n, |blocks|, unit);
    CountOfChain(w.address, after.units, n + 1, |blocks|);
  }

  lemma {:induction false} WalletStepNewest(context: ValidationContext, c: ChainState, m: Market, step: MarketStep)
    requires ChainInv(c) && step.i < |m.wallets| && InStep(context, m.wallets[step.i], LogOf(c.blocks), c.pool)
    requires NewestOnChain(m.wallets[step.i], c.blocks) && WalletStepHonest(m.wallets[step.i], LogOf(c.blocks), c.pool, step)
    requires WalletAfter(m, step).Some?
    ensures NewestOnChain(WalletAfter(m, step).value, c.blocks)
  {
    hide BuildBundle, Confirmable, GoodBlocks, LogOf, ReceiveTransfer, RecordsFine;
    var w := m.wallets[step.i];
    if step.Confirm? {
      EmittedIsReady(context, c, w, step.receipt);
      var e :| Confirmable(w, ConfirmedCount(w), LogOf(c.blocks), e) && e.receipt == step.receipt;
      ConfirmedIsOnChain(w, ConfirmedCount(w), c.blocks, e);
    } else {
      QuietUnits(m, step);
    }
  }

  lemma UpdateNewest(wallets: seq<Wallet>, i: nat, after: Wallet, blocks: seq<Block>)
    requires i < |wallets| && AllNewest(wallets, blocks) && NewestOnChain(after, blocks)
    ensures AllNewest(wallets[i := after], blocks)
  {
    forall k {:trigger NewestOnChain(wallets[i := after][k], blocks)} | 0 <= k < |wallets|
      ensures NewestOnChain(wallets[i := after][k], blocks)
    {
      assert k != i ==> NewestOnChain(wallets[k], blocks);
    }
  }

  lemma {:induction false} WalletStepKeepsNewest(context: ValidationContext, c: ChainState, m: Market, step: MarketStep)
    requires ChainInv(c) && AllInStep(context, m.wallets, LogOf(c.blocks), c.pool) && AllNewest(m.wallets, c.blocks)
    requires step.i < |m.wallets| ==> WalletStepHonest(m.wallets[step.i], LogOf(c.blocks), c.pool, step)
    ensures AllNewest(StepMarket(m, step).wallets, c.blocks)
  {
    hide ChainInv, InStep, LogOf, MailAfter, NewestOnChain, WalletAfter, WalletStepHonest;
    if step.i < |m.wallets| && WalletAfter(m, step).Some? {
      assert InStep(context, m.wallets[step.i], LogOf(c.blocks), c.pool) && NewestOnChain(m.wallets[step.i], c.blocks);
      WalletStepNewest(context, c, m, step);
      UpdateNewest(m.wallets, step.i, WalletAfter(m, step).value, c.blocks);
    }
  }

  /** The joint invariant of honest runs, and with it that every wallet's newest unit is on the chain. */
  ghost predicate LiveInv(context: ValidationContext, s: World) {
    WorldInv(context, s) && AllNewest(s.market.wallets, s.chain.blocks)
  }

  lemma {:induction false} StepKeepsLive(context: ValidationContext, s: World, step: WorldStep)
    requires LiveInv(context, s) && StepHonest(s, step)
    ensures LiveInv(context, StepWorld(s, step))
  {
    hide AllInStep, AllNewest, ChainInv, MarketInv, Step, StepMarket, WalletStepHonest;
    match step
    case ByWallet(m) =>
      WalletStepKeepsWorld(context, s, m);
      WalletStepKeepsNewest(context, s.chain, s.market, m);
    case ByChain(c) =>
      ChainStepKeepsWorld(context, s, c);
      ChainStepKeepsNewest(s.market.wallets, s.chain, c);
  }

  lemma {:induction false} RunKeepsLive(context: ValidationContext, s: World, steps: seq<WorldStep>)
    requires LiveInv(context, s) && RunHonest(s, steps)
    ensures LiveInv(context, RunWorld(s, steps))
  {
    hide LiveInv, StepHonest, StepWorld;
    if steps != [] {
      RunKeepsLive(context, s, steps[..|steps| - 1]);
      StepKeepsLive(context, RunWorld(s, steps[..|steps| - 1]), steps[|steps| - 1]);
    }
  }

  lemma {:induction false} GenesisLive(genesisBlockHash: Hash, allocations: seq<Allocation>, config: ChainConfig, cacheBlocks: positive)
    requires DistinctOwners(allocations) && forall p :: GenesisCount(allocations, p) <= 1
    ensures LiveInv(GenesisContext(allocations), GenesisWorld(genesisBlockHash, allocations, config, cacheBlocks))
  {
    hide OnChain, WorldInv;
    var s := GenesisWorld(genesisBlockHash, allocations, config, cacheBlocks);
    GenesisWorldInv(genesisBlockHash, allocations, config, cacheBlocks);
    forall i {:trigger s.market.wallets[i]} | 0 <= i < |s.market.wallets| ensures NewestOnChain(s.market.wallets[i], []) {
      GenesisRecords(allocations[i].owner, genesisBlockHash, allocations[i].values);
      assert s.market.wallets[i].units.Keys == {};
    }
  }

  // ----- Which receipts a wallet confirms

  /** The receipt names the wallet's next bundle and its predecessor, under a header the wallet knows. */
  ghost predicate NextReceipt(w: Wallet, n: nat, receipt: Receipt) {
    && receipt.seqNo == n + 1 && n + 1 in w.pending && receipt.proof.Single?
    && Lookup(w.headers, receipt.header.height) == Some(receipt.header)
    && (n == 0 ==> receipt.prevRef.None?)
    && (n > 0 ==> n in w.units && receipt.prevRef == Some(ConfirmedRef(w.units[n])))
  }

  lemma NextReceiptConfirms(w: Wallet, n: nat, receipt: Receipt)
    requires NextReceipt(w, n, receipt) && w.pending[n + 1].sidecar.sender == w.address
    ensures OnReceiptConfirmed(w, receipt).Ok? <==> UnitProofVerifies(ConfirmedUnit(receipt, w.pending[n + 1].sidecar))
  {
  }

  lemma {:induction false} EmittedPredecessor(w: Wallet, n: nat, blocks: seq<Block>, e: Emission)
    requires GoodBlocks(blocks) && n == ConfirmedCount(w) && NewestOnChain(w, blocks)
    requires Emitted(LogOf(blocks), 0, e) && e.sender == w.address && e.receipt.seqNo == n + 1
    ensures e.receipt.proof.Single?
    ensures n == 0 ==> e.receipt.prevRef.None?
    ensures n > 0 ==> n in w.units && e.receipt.prevRef == Some(ConfirmedRef(w.units[n]))
  {
    var before, after, leaf := FindEmission(blocks, e);
    if n > 0 {
      HeadIsNewest(blocks, e.Height(), w.units[n]);
    } else {
      NoHeadAtZero(before, e.sender);
    }
  }

  lemma NoHeadAtZero(leaves: Leaves, addr: Address)
    requires SeqOf(leaves, addr) == 0
    ensures HeadOf(leaves, addr).None?
  {
  }

  /** Once it knows the header, a wallet confirms a receipt for its pending number exactly if the block packaged its own bundle. */
  lemma {:induction false} ConfirmsOwnBundle(w: Wallet, n: nat, blocks: seq<Block>, e: Emission)
    requires GoodBlocks(blocks) && n == ConfirmedCount(w) && NewestOnChain(w, blocks) && PendingInStep(w, n)
    requires Emitted(LogOf(blocks), 0, e) && e.sender == w.address && e.receipt.seqNo as nat in w.pending
    requires Lookup(w.headers, e.Height()) == Some(e.receipt.header)
    ensures OnReceiptConfirmed(w, e.receipt).Ok? <==>
            e.ref.bundleHash == BundleBodyHash(w.pending[e.receipt.seqNo].sidecar)
  {
    EmittedPredecessor(w, n, blocks, e);
    NextReceiptConfirms(w, n, e.receipt);
    EmittedVerifies(blocks, e, w.pending[n + 1].sidecar);
  }

  // ----- From the wallet into the pool

  lemma {:induction false} ChainNotBehind(w: Wallet, blocks: seq<Block>)
    requires GoodBlocks(blocks) && NewestOnChain(w, blocks)
    ensures ConfirmedCount(w) <= SeqOf(LeavesAfter(blocks), w.address)
  {
    var n := ConfirmedCount(w);
    if n > 0 {
      var e := LeafIsEmitted(blocks, HeightOf(w.units[n]), w.address);
      EmissionsAreBehind(blocks, e);
    }
  }

  /** An account's head was emitted. */
  lemma {:induction false} HeadEmission(blocks: seq<Block>, addr: Address) returns (e: Emission)
    requires GoodBlocks(blocks) && SeqOf(LeavesAfter(blocks), addr) > 0
    ensures Emitted(LogOf(blocks), 0, e) && e.sender == addr && e.receipt.seqNo == SeqOf(LeavesAfter(blocks), addr)
  {
    hide GoodBlocks, LogOf;
    LeavesAreLastWritten(blocks, addr);
    e := LeafIsEmitted(blocks, LeavesAfter(blocks)[addr].headRef.value.height, addr);
  }

  lemma {:induction false} ChainNotAhead(w: Wallet, n: nat, blocks: seq<Block>)
    requires GoodBlocks(blocks) && EmissionsInStep(w, n, LogOf(blocks)) && w.pending == map[]
    ensures SeqOf(LeavesAfter(blocks), w.address) <= n
  {
    if SeqOf(LeavesAfter(blocks), w.address) > 0 {
      var e := HeadEmission(blocks, w.address);
      assert EmissionInStep(w, n, e);
    }
  }

  /** With nothing pending, the chain and the wallet have counted the same bundles. */
  lemma {:induction false} CountsAgree(context: ValidationContext, w: Wallet, c: ChainState)
    requires ChainInv(c) && InStep(context, w, LogOf(c.blocks), c.pool) && NewestOnChain(w, c.blocks) && w.pending == map[]
    ensures c.ConfirmedSeq(w.address) == ConfirmedCount(w) && w.address !in c.pool
  {
    ChainNotBehind(w, c.blocks);
    ChainNotAhead(w, ConfirmedCount(w), c.blocks);
  }

  /** The bundle is within the pool's limits and not expired. */
  predicate WithinLimits(c: ChainState, txs: seq<OffChainTx>, options: BundleOptions, encodedSize: nat) {
    && options.chainId == c.config.ChainId() && options.expiryHeight >= c.height
    && encodedSize <= c.config.limits.maxBundleBytes && |txs| <= c.config.limits.maxTxPerBundle
    && forall i :: 0 <= i < |txs| ==> |txs[i].values| <= c.config.limits.maxValuesPerTx
  }

  lemma BuiltSubmission(
      w: Wallet, publicKey: PublicKey, txs: seq<OffChainTx>, seqNo: positive, options: BundleOptions)
    requires BuildBundle(w, publicKey, w.address, txs, seqNo, options).Ok?
    ensures w.pending == map[] && publicKey.address == w.address
    ensures var (after, bundle) := BuildBundle(w, publicKey, w.address, txs, seqNo, options).value;
            && after.pending == map[seqNo := bundle] && after.address == w.address && after.units == w.units
            && bundle.sidecar.sender == w.address && bundle.sidecar.txs == txs && bundle.publicKey == publicKey
            && bundle.envelope == SignEnvelope(PayloadFor(bundle.sidecar, seqNo, options), w.address, options.nonce)
  {
    BuildShape(w, publicKey, w.address, txs, seqNo, options);
  }

  lemma SubmissionIsPooled(
      c: ChainState, sidecar: Sidecar, publicKey: PublicKey, seqNo: positive, options: BundleOptions, encodedSize: nat)
    requires sidecar.sender == publicKey.address && publicKey.address !in c.pool && WithinLimits(c, sidecar.txs, options, encodedSize)
    requires seqNo == c.ConfirmedSeq(publicKey.address) + 1
    ensures var sub := Submission(SignEnvelope(PayloadFor(sidecar, seqNo, options), sidecar.sender, options.nonce), sidecar, publicKey);
            SubmitBundle(c, sub, encodedSize) == Ok(c.(pool := c.pool[publicKey.address := sub]))
  {
  }

  // ----- From the pool into a block

  lemma {:induction false} PooledIsInSnapshot(pool: Pool, a: Address) returns (k: nat)
    requires a in pool
    ensures k < |SnapshotOf(pool, None)| && SnapshotOf(pool, None)[k] == pool[a]
  {
    InKeyOrderListsOnce(pool.Keys);
    assert a in InKeyOrder(pool.Keys);
    k :| 0 <= k < |InKeyOrder(pool.Keys)| && InKeyOrder(pool.Keys)[k] == a;
  }

  lemma {:induction false} GoodEntryIsLeaf(c: ChainState, b: Block, k: nat)
    requires k < |b.entries| && GoodBlock(c.leaves, c.tree, b, c.height + 1)
    ensures LeafIn(b.entries, b.entries[k].newLeaf.addr) == Some(b.entries[k].newLeaf)
  {
    hide DistinctKeys, GoodEntry, KeyedByAddress, LeafIn, PutValues;
    GoodBlockIsKeyed(c.leaves, c.tree, b, c.height + 1);
    EntryIsLeafIn(b.entries, k);
  }

  lemma {:induction false} PackagedEntry(c: ChainState, b: Block, subs: seq<Submission>, k: nat)
    requires Packages(c, b, subs) && k < |subs| && GoodBlock(c.leaves, c.tree, b, c.height + 1)
    ensures LeafIn(b.entries, subs[k].sidecar.sender) == Some(b.entries[k].newLeaf)
    ensures b.entries[k].newLeaf.headRef ==
            Some(BundleRef(c.height + 1, b.blockHash, subs[k].envelope.payload.bundleHash, subs[k].envelope.payload.seqNo))
  {
    hide GoodBlock, LeafIn;
    GoodEntryIsLeaf(c, b, k);
    assert b.entries[k] == EntryOf(c.leaves, subs[k], c.height + 1, b.blockHash);
  }

  lemma {:induction false} PackagedIsEmitted(c: ChainState, b: Block, subs: seq<Submission>, k: nat) returns (e: Emission)
    requires ChainInv(c) && Packages(c, b, subs) && k < |subs| && GoodBlock(c.leaves, c.tree, b, c.height + 1)
    ensures Emitted(LogOf(c.blocks + [b]), 0, e) && e.sender == subs[k].sidecar.sender
    ensures e.receipt.seqNo == subs[k].envelope.payload.seqNo && e.ref.bundleHash == subs[k].envelope.payload.bundleHash
  {
    PackagedEntry(c, b, subs, k);
    GrowBlocks(c.blocks, b);
    e := LeafIsEmitted(c.blocks + [b], |c.blocks| + 1, subs[k].sidecar.sender);
  }

  lemma {:induction false} ProducedPackages(
      c: ChainState, timestamp: nat, proposerSig: Bytes, consensusExtra: Bytes) returns (b: Block)
    requires ChainInv(c) && SnapshotOf(c.pool, None) != []
    ensures Packages(c, b, SnapshotOf(c.pool, None)) && GoodBlock(c.leaves, c.tree, b, c.height + 1)
    ensures Step(c, Produce(timestamp, proposerSig, consensusExtra, None)).blocks == c.blocks + [b]
  {
    hide ApplyBlock, BuildBlock, ChainInv, Emissions, GoodBlock, NewBlock, RecordBlock, SubmitBundle;
    b := NewBlock(c, SnapshotOf(c.pool, None), timestamp, proposerSig, consensusExtra);
    BuildIsCommit(c, timestamp, proposerSig, consensusExtra, None);
    ProducedIsPackaged(c, timestamp, proposerSig, consensusExtra, None);
  }

  /** Producing from the whole pool emits a receipt for every pooled bundle. */
  lemma {:induction false} PooledIsEmitted(
      c: ChainState, timestamp: nat, proposerSig: Bytes, consensusExtra: Bytes, a: Address) returns (e: Emission)
    requires ChainInv(c) && a in c.pool
    ensures Emitted(LogOf(Step(c, Produce(timestamp, proposerSig, consensusExtra, None)).blocks), 0, e) && e.sender == a
    ensures e.receipt.seqNo == c.pool[a].envelope.payload.seqNo && e.ref.bundleHash == BundleBodyHash(c.pool[a].sidecar)
  {
    var k := PooledIsInSnapshot(c.pool, a);
    var b := ProducedPackages(c, timestamp, proposerSig, consensusExtra);
    PooledIsOk(c, a);
    e := PackagedIsEmitted(c, b, SnapshotOf(c.pool, None), k);
  }

  lemma PooledIsOk(c: ChainState, a: Address)
    requires PoolOk(c.config, c.leaves, c.pool) && a in c.pool
    ensures c.pool[a].sidecar.sender == a && c.pool[a].envelope.payload.bundleHash == BundleBodyHash(c.pool[a].sidecar)
  {
    assert SubmissionOk(c.config, c.leaves, a, c.pool[a]);
  }

  // ----- The whole way

  /** The wallet's pending bundle is the one that waits in the pool. */
  ghost predicate OwnBundlePooled(w: Wallet, pool: Pool) {
    var n := ConfirmedCount(w);
    w.address in pool && n + 1 in w.pending && pool[w.address].sidecar == w.pending[n + 1].sidecar
  }

  lemma {:induction false} WalletOfLive(context: ValidationContext, s: World, i: nat)
    requires LiveInv(context, s) && i < |s.market.wallets|
    ensures InStep(context, s.market.wallets[i], LogOf(s.chain.blocks), s.chain.pool)
    ensures NewestOnChain(s.market.wallets[i], s.chain.blocks) && WalletOk(s.market.wallets[i]) && ChainInv(s.chain)
  {
    hide GoodBlocks, HoldsWindow, LogOf, PoolOk, RecordsFine, TotalHeld, UnitsChain, WalletOk;
    assert InStep(context, s.market.wallets[i], LogOf(s.chain.blocks), s.chain.pool);
    assert NewestOnChain(s.market.wallets[i], s.chain.blocks) && WalletOk(s.market.wallets[i]);
  }

  /** The chain has emitted a receipt for the wallet's pending bundle. */
  ghost predicate EmittedForPending(w: Wallet, log: seq<BlockLog>, e: Emission) {
    var n := ConfirmedCount(w);
    && Emitted(log, 0, e) && e.sender == w.address && e.receipt.seqNo == n + 1 && n + 1 in w.pending
    && e.ref.bundleHash == BundleBodyHash(w.pending[n + 1].sidecar)
  }

  lemma {:induction false} PooledIsForWallet(
      context: ValidationContext, w: Wallet, c: ChainState, timestamp: nat, proposerSig: Bytes, consensusExtra: Bytes)
      returns (e: Emission)
    requires ChainInv(c) && InStep(context, w, LogOf(c.blocks), c.pool) && OwnBundlePooled(w, c.pool)
    ensures EmittedForPending(w, LogOf(Step(c, Produce(timestamp, proposerSig, consensusExtra, None)).blocks), e)
  {
    hide ChainInv, LogOf, Step, WalletFine;
    e := PooledIsEmitted(c, timestamp, proposerSig, consensusExtra, w.address);
  }

  /** Producing a block emits the receipt of a pooled bundle; the wallets stay as they are. */
  lemma {:induction false} ProduceStep(
      context: ValidationContext, s: World, w: Wallet, i: nat, timestamp: nat, proposerSig: Bytes, consensusExtra: Bytes)
      returns (produced: World, e: Emission)
    requires LiveInv(context, s) && i < |s.market.wallets| && w == s.market.wallets[i] && OwnBundlePooled(w, s.chain.pool)
    ensures produced == StepWorld(s, ByChain(Produce(timestamp, proposerSig, consensusExtra, None)))
    ensures LiveInv(context, produced) && produced.market == s.market
    ensures EmittedForPending(w, LogOf(produced.chain.blocks), e)
  {
    hide InStep, LiveInv, LogOf, MarketInv, NewestOnChain, Step, StepMarket;
    WalletOfLive(context, s, i);
    e := PooledIsForWallet(context, w, s.chain, timestamp, proposerSig, consensusExtra);
    produced := StepWorld(s, ByChain(Produce(timestamp, proposerSig, consensusExtra, None)));
    StepKeepsLive(context, s, ByChain(Produce(timestamp, proposerSig, consensusExtra, None)));
  }

  lemma {:induction false} SeenConfirms(context: ValidationContext, w: Wallet, c: ChainState, e: Emission)
    requires ChainInv(c) && InStep(context, w, LogOf(c.blocks), c.pool) && NewestOnChain(w, c.blocks)
    requires EmittedForPending(w, LogOf(c.blocks), e)
    ensures OnReceiptConfirmed(ObserveHeader(w, e.receipt.header), e.receipt).Ok?
  {
    hide GoodBlocks, HoldsWindow, LogOf, OnChain, OnReceiptConfirmed, PoolOk, WalletFine;
    ConfirmsOwnBundle(ObserveHeader(w, e.receipt.header), ConfirmedCount(w), c.blocks, e);
  }

  /** A wallet that learns the header of its bundle's block can confirm. */
  lemma {:induction false} ObserveStep(context: ValidationContext, s: World, w: Wallet, i: nat, e: Emission) returns (seen: World)
    requires LiveInv(context, s) && i < |s.market.wallets| && w == s.market.wallets[i] && EmittedForPending(w, LogOf(s.chain.blocks), e)
    ensures seen == StepWorld(s, ByWallet(Observe(i, e.receipt.header))) && LiveInv(context, seen) && seen.chain == s.chain
    ensures seen.market.wallets == s.market.wallets[i := ObserveHeader(w, e.receipt.header)]
    ensures OnReceiptConfirmed(ObserveHeader(w, e.receipt.header), e.receipt).Ok?
  {
    hide EmittedForPending, InStep, LiveInv, OnReceiptConfirmed, Step;
    WalletOfLive(context, s, i);
    SeenConfirms(context, w, s.chain, e);
    seen := StepWorld(s, ByWallet(Observe(i, e.receipt.header)));
    StepKeepsLive(context, s, ByWallet(Observe(i, e.receipt.header)));
  }

  /** The bundle just built is the wallet's only pending one, signed with its own key. */
  ghost predicate JustBuilt(w: Wallet, publicKey: PublicKey, txs: seq<OffChainTx>, options: BundleOptions, bundle: PendingBundleContext) {
    var n := ConfirmedCount(w);
    && publicKey.address == w.address && w.pending == map[n + 1 := bundle]
    && bundle.sidecar == Sidecar(w.address, txs) && bundle.publicKey == publicKey
    && bundle.envelope == SignEnvelope(PayloadFor(bundle.sidecar, n + 1, options), w.address, options.nonce)
  }

  lemma {:induction false} BuildStep(
      context: ValidationContext, s: World, w: Wallet, i: nat, publicKey: PublicKey, txs: seq<OffChainTx>, options: BundleOptions,
      result: (Wallet, PendingBundleContext)) returns (built: World)
    requires LiveInv(context, s) && i < |s.market.wallets| && w == s.market.wallets[i]
    requires BuildBundle(w, publicKey, w.address, txs, NextSequence(w), options) == Ok(result)
    ensures built == StepWorld(s, ByWallet(Build(i, publicKey, w.address, txs, NextSequence(w), options)))
    ensures LiveInv(context, built) && built.chain == s.chain && built.market.wallets == s.market.wallets[i := result.0]
    ensures JustBuilt(result.0, publicKey, txs, options, result.1) && result.0.address == w.address
    ensures w.address !in s.chain.pool && s.chain.ConfirmedSeq(w.address) == ConfirmedCount(result.0)
  {
    hide BuildBundle, ChainInv, JustBuilt, LiveInv, NewestOnChain, RecordsFine, Step, UnitsChain;
    var step := ByWallet(Build(i, publicKey, w.address, txs, NextSequence(w), options));
    WalletOfLive(context, s, i);
    StepKeepsLive(context, s, step);
    built := StepWorld(s, step);
    BuiltNext(w, publicKey, txs, options, result);
    CountsAgree(context, w, s.chain);
  }

  lemma BuiltWallet(
      w: Wallet, n: nat, publicKey: PublicKey, txs: seq<OffChainTx>, options: BundleOptions, result: (Wallet, PendingBundleContext))
    requires n == ConfirmedCount(w) && BuildBundle(w, publicKey, w.address, txs, n + 1, options) == Ok(result)
    ensures JustBuilt(result.0, publicKey, txs, options, result.1)
    ensures result.0.address == w.address && ConfirmedCount(result.0) == n && w.pending == map[]
  {
    hide Assign, BundleError, PayloadFor, SplitAssigned;
    BuiltSubmission(w, publicKey, txs, n + 1, options);
  }

  lemma {:induction false} BuiltNext(
      w: Wallet, publicKey: PublicKey, txs: seq<OffChainTx>, options: BundleOptions, result: (Wallet, PendingBundleContext))
    requires w.receipts.Keys == w.units.Keys
    requires BuildBundle(w, publicKey, w.address, txs, NextSequence(w), options) == Ok(result)
    ensures JustBuilt(result.0, publicKey, txs, options, result.1)
    ensures result.0.address == w.address && ConfirmedCount(result.0) == ConfirmedCount(w) && w.pending == map[]
  {
    hide *;
    BuiltNeedsIdle(w, publicKey, txs, NextSequence(w), options);
    NextIsOneMore(w);
    BuiltWallet(w, ConfirmedCount(w), publicKey, txs, options, result);
  }

  lemma BuiltNeedsIdle(w: Wallet, publicKey: PublicKey, txs: seq<OffChainTx>, seqNo: positive, options: BundleOptions)
    requires BuildBundle(w, publicKey, w.address, txs, seqNo, options).Ok?
    ensures w.pending == map[]
  {
    BuildShape(w, publicKey, w.address, txs, seqNo, options);
  }

  /** The chain pools a bundle that was just built. */
  lemma SubmittedIsPooled(
      c: ChainState, w: Wallet, publicKey: PublicKey, txs: seq<OffChainTx>, options: BundleOptions, bundle: PendingBundleContext,
      encodedSize: nat)
    requires JustBuilt(w, publicKey, txs, options, bundle) && WithinLimits(c, txs, options, encodedSize)
    requires w.address !in c.pool && c.ConfirmedSeq(w.address) == ConfirmedCount(w)
    ensures OwnBundlePooled(w, Step(c, Submit(SubmissionFor(bundle), encodedSize)).pool)
  {
    hide ApplyBlock, BuildBlock, SubmitBundle;
    SubmissionIsPooled(c, bundle.sidecar, publicKey, ConfirmedCount(w) + 1, options, encodedSize);
  }

  lemma {:induction false} SubmitStep(
      context: ValidationContext, s: World, w: Wallet, i: nat, publicKey: PublicKey, txs: seq<OffChainTx>, options: BundleOptions,
      bundle: PendingBundleContext, encodedSize: nat) returns (submitted: World)
    requires LiveInv(context, s) && i < |s.market.wallets| && w == s.market.wallets[i]
    requires JustBuilt(w, publicKey, txs, options, bundle) && WithinLimits(s.chain, txs, options, encodedSize)
    requires w.address !in s.chain.pool && s.chain.ConfirmedSeq(w.address) == ConfirmedCount(w)
    ensures submitted == StepWorld(s, ByChain(Submit(SubmissionFor(bundle), encodedSize)))
    ensures StepHonest(s, ByChain(Submit(SubmissionFor(bundle), encodedSize)))
    ensures LiveInv(context, submitted) && submitted.market == s.market && OwnBundlePooled(w, submitted.chain.pool)
  {
    hide AllInStep, AllNewest, ChainInv, JustBuilt, MarketInv;
    hide OwnBundlePooled, Step, StepMarket, SubmissionHonest, WithinLimits;
    var step := ByChain(Submit(SubmissionFor(bundle), encodedSize));
    OwnSubmissionIsHonest(s.market, w, i, publicKey, txs, options, bundle);
    StepKeepsLive(context, s, step);
    submitted := StepWorld(s, step);
    SubmittedIsPooled(s.chain, w, publicKey, txs, options, bundle, encodedSize);
  }

  lemma OwnSubmissionIsHonest(
      m: Market, w: Wallet, i: nat, publicKey: PublicKey, txs: seq<OffChainTx>, options: BundleOptions, bundle: PendingBundleContext)
    requires MarketInv(m) && i < |m.wallets| && w == m.wallets[i] && JustBuilt(w, publicKey, txs, options, bundle)
    ensures SubmissionHonest(m.wallets, SubmissionFor(bundle))
  {
    forall k {:trigger m.wallets[k]} | 0 <= k < |m.wallets| && publicKey.address == m.wallets[k].address ensures k == i {
    }
  }

  lemma {:induction false} RunOneMore(start: World, steps: seq<WorldStep>, step: WorldStep)
    requires RunHonest(start, steps) && StepHonest(RunWorld(start, steps), step)
    ensures RunHonest(start, steps + [step]) && RunWorld(start, steps + [step]) == StepWorld(RunWorld(start, steps), step)
  {
    hide StepHonest, StepWorld;
    var more := steps + [step];
    assert more[..|more| - 1] == steps;
  }

  /** A wallet builds a bundle and submits it, a block is produced from the whole pool, and the wallet learns its header. */
  function PaymentSteps(
      w: Wallet, i: nat, publicKey: PublicKey, txs: seq<OffChainTx>, options: BundleOptions, bundle: PendingBundleContext,
      encodedSize: nat, production: ChainStep, header: HeaderLite): seq<WorldStep>
  {
    [ByWallet(Build(i, publicKey, w.address, txs, NextSequence(w), options)), ByChain(Submit(SubmissionFor(bundle), encodedSize)),
     ByChain(production), ByWallet(Observe(i, header))]
  }

  lemma InLine<T>(s: seq<T>, a: T, b: T, c: T, d: T)
    ensures s + [a] + [b] + [c] + [d] == s + [a, b, c, d]
  {
  }

  /** The wallet can confirm the receipt, which the chain emitted for its bundle of these transfers. */
  ghost predicate ReadyToConfirm(s: World, i: nat, txs: seq<OffChainTx>, receipt: Receipt) {
    && i < |s.market.wallets|
    && var w := s.market.wallets[i];
    && EmittedTo(w, LogOf(s.chain.blocks), receipt)
    && OnReceiptConfirmed(w, receipt).Ok?
    && receipt.seqNo as nat in w.pending && w.pending[receipt.seqNo].sidecar.txs == txs
  }

  lemma {:induction false} SeenIsReady(s: World, seen: World, w: Wallet, i: nat, txs: seq<OffChainTx>, e: Emission)
    requires i < |s.market.wallets| && EmittedForPending(w, LogOf(s.chain.blocks), e) && w.pending[e.receipt.seqNo].sidecar.txs == txs
    requires seen.chain == s.chain && seen.market.wallets == s.market.wallets[i := ObserveHeader(w, e.receipt.header)]
    requires OnReceiptConfirmed(ObserveHeader(w, e.receipt.header), e.receipt).Ok?
    ensures ReadyToConfirm(seen, i, txs, e.receipt)
  {
    assert EmittedTo(ObserveHeader(w, e.receipt.header), LogOf(s.chain.blocks), e.receipt);
  }

  /** The world is one an honest run reaches, and the wallet is there. */
  ghost predicate Reached(context: ValidationContext, start: World, steps: seq<WorldStep>, s: World, i: nat, w: Wallet) {
    && RunHonest(start, steps) && s == RunWorld(start, steps) && LiveInv(context, s)
    && i < |s.market.wallets| && w == s.market.wallets[i]
  }

  /** The wallet's pending bundle, of these transfers, waits in the pool. */
  ghost predicate PaymentPooled(w: Wallet, pool: Pool, txs: seq<OffChainTx>) {
    OwnBundlePooled(w, pool) && w.pending[ConfirmedCount(w) + 1].sidecar.txs == txs
  }

  lemma {:induction false} ProduceAndObserve(
      context: ValidationContext, start: World, steps: seq<WorldStep>, s: World, w: Wallet, i: nat, txs: seq<OffChainTx>,
      timestamp: nat, proposerSig: Bytes, consensusExtra: Bytes) returns (receipt: Receipt)
    requires Reached(context, start, steps, s, i, w) && PaymentPooled(w, s.chain.pool, txs)
    ensures var more := steps + [ByChain(Produce(timestamp, proposerSig, consensusExtra, None))] + [ByWallet(Observe(i, receipt.header))];
            RunHonest(start, more) && ReadyToConfirm(RunWorld(start, more), i, txs, receipt)
  {
    hide LiveInv, ReadyToConfirm, RunHonest, RunWorld, Step, StepMarket, OnReceiptConfirmed;
    var produced, e := ProduceStep(context, s, w, i, timestamp, proposerSig, consensusExtra);
    var seen := ObserveStep(context, produced, w, i, e);
    receipt := e.receipt;
    SeenIsReady(produced, seen, w, i, txs, e);
    RunOneMore(start, steps, ByChain(Produce(timestamp, proposerSig, consensusExtra, None)));
    RunOneMore(start, steps + [ByChain(Produce(timestamp, proposerSig, consensusExtra, None))], ByWallet(Observe(i, e.receipt.header)));
  }

  lemma {:induction false} BuildAndSubmit(
      context: ValidationContext, start: World, steps: seq<WorldStep>, s: World, w: Wallet, i: nat, publicKey: PublicKey,
      txs: seq<OffChainTx>, options: BundleOptions, result: (Wallet, PendingBundleContext), encodedSize: nat)
      returns (submitted: World, after: Wallet)
    requires Reached(context, start, steps, s, i, w) && WithinLimits(s.chain, txs, options, encodedSize)
    requires BuildBundle(w, publicKey, w.address, txs, NextSequence(w), options) == Ok(result)
    ensures var build := ByWallet(Build(i, publicKey, w.address, txs, NextSequence(w), options));
            Reached(context, start, steps + [build] + [ByChain(Submit(SubmissionFor(result.1), encodedSize))], submitted, i, after)
    ensures PaymentPooled(after, submitted.chain.pool, txs)
  {
    hide BuildBundle, LiveInv, RunHonest, RunWorld, Step, StepMarket;
    var build := ByWallet(Build(i, publicKey, w.address, txs, NextSequence(w), options));
    after := result.0;
    var built := BuildStep(context, s, w, i, publicKey, txs, options, result);
    submitted := SubmitStep(context, built, after, i, publicKey, txs, options, result.1, encodedSize);
    RunOneMore(start, steps, build);
    RunOneMore(start, steps + [build], ByChain(Submit(SubmissionFor(result.1), encodedSize)));
  }

  lemma {:induction false} PaymentReady(
      context: ValidationContext, start: World, steps: seq<WorldStep>, s: World, w: Wallet, i: nat, publicKey: PublicKey,
      txs: seq<OffChainTx>, options: BundleOptions, result: (Wallet, PendingBundleContext), encodedSize: nat,
      timestamp: nat, proposerSig: Bytes, consensusExtra: Bytes) returns (receipt: Receipt)
    requires Reached(context, start, steps, s, i, w) && WithinLimits(s.chain, txs, options, encodedSize)
    requires BuildBundle(w, publicKey, w.address, txs, NextSequence(w), options) == Ok(result)
    ensures var production := Produce(timestamp, proposerSig, consensusExtra, None);
            var more := steps + PaymentSteps(w, i, publicKey, txs, options, result.1, encodedSize, production, receipt.header);
            RunHonest(start, more) && ReadyToConfirm(RunWorld(start, more), i, txs, receipt)
  {
    hide BuildBundle, Reached, ReadyToConfirm, RunHonest, RunWorld;
    var build, submit := ByWallet(Build(i, publicKey, w.address, txs, NextSequence(w), options)), ByChain(Submit(SubmissionFor(result.1), encodedSize));
    var submitted, after := BuildAndSubmit(context, start, steps, s, w, i, publicKey, txs, options, result, encodedSize);
    receipt := ProduceAndObserve(context, start, steps + [build] + [submit], submitted, after, i, txs, timestamp, proposerSig, consensusExtra);
    InLine(steps, build, submit, ByChain(Produce(timestamp, proposerSig, consensusExtra, None)), ByWallet(Observe(i, receipt.header)));
  }

  /**
    A payment goes through: at every moment of an honest run, if a wallet can build a bundle and the bundle is within the
    pool's limits, then after submitting it, producing a block from the whole pool and learning the block's header the
    wallet can confirm the chain's receipt for it.
   */
  lemma {:induction false} PaymentGoesThrough(
      genesisBlockHash: Hash, allocations: seq<Allocation>, config: ChainConfig, cacheBlocks: positive, steps: seq<WorldStep>,
      s: World, i: nat, w: Wallet, publicKey: PublicKey, txs: seq<OffChainTx>, options: BundleOptions,
      result: (Wallet, PendingBundleContext), encodedSize: nat, timestamp: nat, proposerSig: Bytes, consensusExtra: Bytes)
      returns (receipt: Receipt)
    requires DistinctOwners(allocations) && forall p :: GenesisCount(allocations, p) <= 1
    requires RunHonest(GenesisWorld(genesisBlockHash, allocations, config, cacheBlocks), steps)
    requires s == RunWorld(GenesisWorld(genesisBlockHash, allocations, config, cacheBlocks), steps)
    requires i < |s.market.wallets| && w == s.market.wallets[i]
    requires BuildBundle(w, publicKey, w.address, txs, NextSequence(w), options) == Ok(result)
    requires WithinLimits(s.chain, txs, options, encodedSize)
    ensures var start := GenesisWorld(genesisBlockHash, allocations, config, cacheBlocks);
            var production := Produce(timestamp, proposerSig, consensusExtra, None);
            var more := steps + PaymentSteps(w, i, publicKey, txs, options, result.1, encodedSize, production, receipt.header);
            RunHonest(start, more) && ReadyToConfirm(RunWorld(start, more), i, txs, receipt)
  {
    hide BuildBundle, GenesisCount, LiveInv, PaymentSteps, ReadyToConfirm, RunHonest, RunWorld;
    var start, context := GenesisWorld(genesisBlockHash, allocations, config, cacheBlocks), GenesisContext(allocations);
    GenesisLive(genesisBlockHash, allocations, config, cacheBlocks);
    RunKeepsLive(context, start, steps);
    receipt := PaymentReady(context, start, steps, s, w, i, publicKey, txs, options, result, encodedSize,
                            timestamp, proposerSig, consensusExtra);
  }

  /** And what it pays arrives: once the receipt is confirmed, every range of every transfer is exported and accepted. */
  lemma {:induction false} PaymentArrives(
      genesisBlockHash: Hash, allocations: seq<Allocation>, config: ChainConfig, cacheBlocks: positive, steps: seq<WorldStep>,
      s: World, i: nat, txs: seq<OffChainTx>, receipt: Receipt, tx: OffChainTx, v: ValueRange, j: nat)
    requires DistinctOwners(allocations) && forall p :: GenesisCount(allocations, p) <= 1
    requires RunHonest(GenesisWorld(genesisBlockHash, allocations, config, cacheBlocks), steps)
    requires s == RunWorld(GenesisWorld(genesisBlockHash, allocations, config, cacheBlocks), steps)
    requires ReadyToConfirm(s, i, txs, receipt) && tx in txs && v in tx.values
    requires j < |s.market.wallets| && s.market.wallets[j].address == tx.recipient
    ensures var wallets := StepWorld(s, ByWallet(Confirm(i, receipt))).market.wallets;
            |wallets| == |s.market.wallets| && ReachesRecipient(allocations, wallets[i], wallets[j], tx, v)
  {
    hide GenesisCount, GenesisWorld, LogOf, OnReceiptConfirmed, ReachesRecipient, RunHonest, RunWorld, StepWorld;
    ConfirmedBundleIsAccepted(genesisBlockHash, allocations, config, cacheBlocks, steps, i, receipt, tx, v, j);
  }
}

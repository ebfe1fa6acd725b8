/**
  Whole honest runs: many wallets and one chain, each wallet confirming what the chain emitted and trusting only
  its own records. Whatever a confirmed bundle sends is exported and accepted.
 */
module HonestRuns {
  import opened Prelude
  import opened Sorting
  import opened Values
  import opened Types
  import opened ClaimSets
  import opened Ledger
  import opened ReceiptCaches
  import opened BundlePools
  import opened Chains
  import opened ChainRuns
  import opened Agreement
  import opened ChainInvariants
  import opened Runs
  import opened Validation
  import opened Selection
  import opened Wallets
  import opened TwoPhase
  import opened WalletInvariants
  import opened Conservation
  import opened Recoveries
  import opened HonestWallets
  import opened HonestConfirms
  import opened Traces
  import opened EmittedReceipts
  import opened Participants
  import opened HonestTrades

  datatype World = World(market: Market, chain: ChainState)

  datatype WorldStep = ByWallet(step: MarketStep) | ByChain(chainStep: ChainStep)

  function StepWorld(s: World, step: WorldStep): World {
    match step
    case ByWallet(m) => s.(market := StepMarket(s.market, m))
    case ByChain(c) => s.(chain := Step(s.chain, c))
  }

  function RunWorld(s: World, steps: seq<WorldStep>): World {
    if steps == [] then s else StepWorld(RunWorld(s, steps[..|steps| - 1]), steps[|steps| - 1])
  }

  // ----- Honest steps

  /** Whatever the block packages for one of the wallets is pending there. */
  ghost predicate BlockHonest(wallets: seq<Wallet>, b: Block) {
    forall i, k {:trigger wallets[i], b.entries[k]} ::
      0 <= i < |wallets| && 0 <= k < |b.entries| && b.entries[k].newLeaf.addr == wallets[i].address ==>
        b.entries[k].envelope.payload.seqNo as nat in wallets[i].pending
  }

  /** Only a wallet itself submits for its account, and only what it has pending. */
  ghost predicate SubmissionHonest(wallets: seq<Wallet>, sub: Submission) {
    forall i {:trigger wallets[i]} :: 0 <= i < |wallets| && sub.publicKey.address == wallets[i].address ==>
      sub.envelope.payload.seqNo as nat in wallets[i].pending
  }

  ghost predicate ChainStepHonest(wallets: seq<Wallet>, step: ChainStep) {
    match step
    case Submit(sub, _) => SubmissionHonest(wallets, sub)
    case Produce(_, _, _, _) => true
    case Receive(b) => Shaped(b) && BlockHonest(wallets, b)
  }

  ghost predicate EmittedTo(w: Wallet, log: seq<BlockLog>, receipt: Receipt) {
    exists e :: Emitted(log, 0, e) && e.sender == w.address && e.receipt == receipt
  }

  /** Bundles are numbered in turn, receipts come from the chain, and what is rolled back never left; any package may be delivered, in any context. */
  ghost predicate WalletStepHonest(w: Wallet, log: seq<BlockLog>, pool: Pool, step: MarketStep) {
    match step
    case Build(_, _, _, _, seqNo, _) => seqNo == NextSequence(w)
    case Confirm(_, receipt) => EmittedTo(w, log, receipt)
    case Rollback(_, seqNo) => NeverLeft(w, seqNo, log, pool)
    case _ => true
  }

  ghost predicate StepHonest(s: World, step: WorldStep) {
    match step
    case ByWallet(m) =>
      m.i < |s.market.wallets| ==> WalletStepHonest(s.market.wallets[m.i], LogOf(s.chain.blocks), s.chain.pool, m)
    case ByChain(c) => ChainStepHonest(s.market.wallets, c)
  }

  ghost predicate RunHonest(s: World, steps: seq<WorldStep>) {
    steps != [] ==>
      && RunHonest(s, steps[..|steps| - 1])
      && StepHonest(RunWorld(s, steps[..|steps| - 1]), steps[|steps| - 1])
  }

  // ----- The invariant

  ghost predicate WorldInv(context: ValidationContext, s: World) {
    && MarketInv(s.market)
    && ChainInv(s.chain)
    && AllInStep(context, s.market.wallets, LogOf(s.chain.blocks), s.chain.pool)
    && AllTraced(s.market.wallets)
  }

  // ----- New blocks

  lemma {:induction false} EntryOfEmission(
      before: Leaves, tree: AccountTree, after: AccountTree, b: Block, height: nat, e: Emission) returns (i: nat)
    requires GoodBlock(before, tree, b, height) && e in EmittedBy(before, after, b).emissions
    ensures i < |b.entries| && b.entries[i].newLeaf.addr == e.sender && b.entries[i].envelope.payload.seqNo == e.receipt.seqNo
    ensures e.Height() == height
  {
    i := EmissionIndex(before, tree, after, b, height, e);
    assert GoodEntry(before, b, i);
  }

  /** What is packaged for the wallet is its next bundle, above everything the wallet has acquired. */
  lemma {:induction false} EntryInStep(w: Wallet, n: nat, log: seq<BlockLog>, b: Block, i: nat, e: Emission)
    requires i < |b.entries| && b.entries[i].newLeaf.addr == e.sender && b.entries[i].envelope.payload.seqNo == e.receipt.seqNo
    requires e.sender == w.address ==> b.entries[i].envelope.payload.seqNo as nat in w.pending
    requires e.Height() == |log| + 1 && PendingInStep(w, n) && AcquiredUpTo(w.records, |log|)
    ensures EmissionInStep(w, n, e)
  {
  }

  lemma {:induction false} BlockEmissionsInStep(
      context: ValidationContext, w: Wallet, blocks: seq<Block>, pool: Pool, b: Block, e: Emission)
    requires InStep(context, w, LogOf(blocks), pool)
    requires GoodBlock(LeavesAfter(blocks), TreeAfter(blocks), b, |blocks| + 1)
    requires forall k :: 0 <= k < |b.entries| && b.entries[k].newLeaf.addr == w.address ==>
               b.entries[k].envelope.payload.seqNo as nat in w.pending
    requires e in EmittedBy(LeavesAfter(blocks), TreeAfter(blocks + [b]), b).emissions
    ensures EmissionInStep(w, ConfirmedCount(w), e)
  {
    var i := EntryOfEmission(LeavesAfter(blocks), TreeAfter(blocks), TreeAfter(blocks + [b]), b, |blocks| + 1, e);
    EntryInStep(w, ConfirmedCount(w), LogOf(blocks), b, i, e);
  }

  lemma {:induction false} WalletAfterBlock(
      context: ValidationContext, w: Wallet, blocks: seq<Block>, pool: Pool, b: Block)
    requires InStep(context, w, LogOf(blocks), pool)
    requires GoodBlock(LeavesAfter(blocks), TreeAfter(blocks), b, |blocks| + 1)
    requires forall k :: 0 <= k < |b.entries| && b.entries[k].newLeaf.addr == w.address ==>
               b.entries[k].envelope.payload.seqNo as nat in w.pending
    ensures InStep(context, w, LogOf(blocks + [b]), RemoveEntries(pool, b.entries))
  {
    hide *;
    var last := EmittedBy(LeavesAfter(blocks), TreeAfter(blocks + [b]), b);
    forall e | e in last.emissions ensures EmissionInStep(w, ConfirmedCount(w), e) {
      BlockEmissionsInStep(context, w, blocks, pool, b, e);
    }
    RemoveEntriesAt(pool, b.entries, w.address);
    BlockKeepsInStep(context, w, LogOf(blocks), last, pool, RemoveEntries(pool, b.entries));
    LogGrows(blocks, b);
  }

  lemma {:induction false} WalletsAfterBlock(
      context: ValidationContext, wallets: seq<Wallet>, blocks: seq<Block>, pool: Pool, b: Block)
    requires AllInStep(context, wallets, LogOf(blocks), pool) && BlockHonest(wallets, b)
    requires GoodBlock(LeavesAfter(blocks), TreeAfter(blocks), b, |blocks| + 1)
    ensures AllInStep(context, wallets, LogOf(blocks + [b]), RemoveEntries(pool, b.entries))
  {
    forall i | 0 <= i < |wallets| ensures InStep(context, wallets[i], LogOf(blocks + [b]), RemoveEntries(pool, b.entries)) {
      assert InStep(context, wallets[i], LogOf(blocks), pool);
      WalletAfterBlock(context, wallets[i], blocks, pool, b);
    }
  }

  /** Committing a good block that packages only what wallets have pending keeps everybody in step. */
  lemma {:induction false} CommitKeepsWallets(context: ValidationContext, wallets: seq<Wallet>, c: ChainState, b: Block)
    requires ChainInv(c) && AllInStep(context, wallets, LogOf(c.blocks), c.pool) && BlockHonest(wallets, b)
    requires GoodBlock(c.leaves, c.tree, b, c.height + 1) && HaveHeads(b.entries)
    ensures AllInStep(context, wallets, LogOf(Commit(c, b).chain.blocks), Commit(c, b).chain.pool)
  {
    WalletsAfterBlock(context, wallets, c.blocks, c.pool, b);
  }

  // ----- Produced blocks package what is pooled

  lemma {:induction false} PackagedIsPending(
      context: ValidationContext, w: Wallet, log: seq<BlockLog>, c: ChainState, b: Block, subs: seq<Submission>, k: nat)
    requires InStep(context, w, log, c.pool) && Packages(c, b, subs) && k < |subs|
    requires subs[k].sidecar.sender in c.pool && c.pool[subs[k].sidecar.sender] == subs[k]
    requires b.entries[k].newLeaf.addr == w.address
    ensures b.entries[k].envelope.payload.seqNo as nat in w.pending
  {
  }

  lemma {:induction false} PackagesAreHonest(
      context: ValidationContext, wallets: seq<Wallet>, log: seq<BlockLog>, c: ChainState, b: Block, subs: seq<Submission>)
    requires AllInStep(context, wallets, log, c.pool) && Packages(c, b, subs)
    requires forall k :: 0 <= k < |subs| ==> subs[k].sidecar.sender in c.pool && c.pool[subs[k].sidecar.sender] == subs[k]
    ensures BlockHonest(wallets, b)
  {
    forall i, k {:trigger wallets[i], b.entries[k]} |
      0 <= i < |wallets| && 0 <= k < |b.entries| && b.entries[k].newLeaf.addr == wallets[i].address
      ensures b.entries[k].envelope.payload.seqNo as nat in wallets[i].pending
    {
      assert InStep(context, wallets[i], log, c.pool);
      PackagedIsPending(context, wallets[i], log, c, b, subs, k);
    }
  }

  lemma {:induction false} ProducedIsHonest(
      context: ValidationContext, wallets: seq<Wallet>, c: ChainState, timestamp: nat, proposerSig: Bytes, consensusExtra: Bytes,
      limit: Option<nat>)
    requires ChainInv(c) && AllInStep(context, wallets, LogOf(c.blocks), c.pool)
    ensures BlockHonest(wallets, NewBlock(c, SnapshotOf(c.pool, limit), timestamp, proposerSig, consensusExtra))
  {
    var subs := SnapshotOf(c.pool, limit);
    SnapshotInOrder(c.config, c.leaves, c.pool, limit);
    ProducedIsPackaged(c, timestamp, proposerSig, consensusExtra, limit);
    PackagesAreHonest(context, wallets, LogOf(c.blocks), c, NewBlock(c, subs, timestamp, proposerSig, consensusExtra), subs);
  }

  // ----- Chain steps

  lemma {:induction false} SubmitKeepsWallets(
      context: ValidationContext, wallets: seq<Wallet>, c: ChainState, sub: Submission, size: nat)
    requires AllInStep(context, wallets, LogOf(c.blocks), c.pool) && SubmissionHonest(wallets, sub)
    requires SubmitBundle(c, sub, size).Ok?
    ensures AllInStep(context, wallets, LogOf(c.blocks), SubmitBundle(c, sub, size).value.pool)
  {
    var pool := SubmitBundle(c, sub, size).value.pool;
    forall i | 0 <= i < |wallets| ensures InStep(context, wallets[i], LogOf(c.blocks), pool) {
      assert InStep(context, wallets[i], LogOf(c.blocks), c.pool);
      PoolTakesPending(context, wallets[i], LogOf(c.blocks), c.pool, sub);
    }
  }

  lemma PoolTakesPending(context: ValidationContext, w: Wallet, log: seq<BlockLog>, pool: Pool, sub: Submission)
    requires InStep(context, w, log, pool)
    requires sub.publicKey.address == w.address ==> sub.envelope.payload.seqNo as nat in w.pending
    ensures InStep(context, w, log, pool[sub.publicKey.address := sub])
  {
  }

  lemma {:induction false} ChainStepKeepsWallets(
      context: ValidationContext, wallets: seq<Wallet>, c: ChainState, step: ChainStep)
    requires ChainInv(c) && AllInStep(context, wallets, LogOf(c.blocks), c.pool) && ChainStepHonest(wallets, step)
    ensures AllInStep(context, wallets, LogOf(Step(c, step).blocks), Step(c, step).pool)
  {
    hide AllInStep, BlockError, BuildBlock, ChainInv, Commit, GoodBlock, LogOf, NewBlock;
    match step
    case Submit(sub, size) =>
      if SubmitBundle(c, sub, size).Ok? {
        SubmitKeepsWallets(context, wallets, c, sub, size);
      }
    case Produce(timestamp, sig, extra, limit) =>
      if SnapshotOf(c.pool, limit) != [] {
        BuildIsCommit(c, timestamp, sig, extra, limit);
        ProducedIsHonest(context, wallets, c, timestamp, sig, extra, limit);
        CommitKeepsWallets(context, wallets, c, BuildBlock(c, timestamp, sig, extra, limit).block);
      }
    case Receive(b) =>
      if ApplyBlock(c, b).Ok? {
        AcceptedBlockIsGood(c, b);
        CommitKeepsWallets(context, wallets, c, b);
      }
  }

  lemma ChainStepIsAllowed(wallets: seq<Wallet>, step: ChainStep)
    requires ChainStepHonest(wallets, step)
    ensures StepAllowed(step)
  {
  }

  lemma {:induction false} ChainStepKeepsWorld(context: ValidationContext, s: World, step: ChainStep)
    requires WorldInv(context, s) && ChainStepHonest(s.market.wallets, step)
    ensures WorldInv(context, StepWorld(s, ByChain(step)))
  {
    hide AllInStep, ChainInv, Step, StepMarket;
    assert ChainInv(Step(s.chain, step)) by {
      ChainStepIsAllowed(s.market.wallets, step);
      StepKeepsInv(s.chain, step);
    }
    ChainStepKeepsWallets(context, s.market.wallets, s.chain, step);
  }

  // ----- Wallet steps

  lemma {:induction false} EmittedIsNotPooled(
      config: ChainConfig, w: Wallet, n: nat, blocks: seq<Block>, pool: Pool, e: Emission)
    requires GoodBlocks(blocks) && PoolOk(config, LeavesAfter(blocks), pool) && PoolInStep(w, n, pool)
    requires Emitted(LogOf(blocks), 0, e) && e.sender == w.address && e.receipt.seqNo == n + 1
    ensures w.address !in pool
  {
    EmissionsAreBehind(blocks, e);
    assert w.address in pool ==> SubmissionOk(config, LeavesAfter(blocks), w.address, pool[w.address]);
  }

  lemma {:induction false} EmittedMakesNextUnit(w: Wallet, n: nat, blocks: seq<Block>, e: Emission)
    requires GoodBlocks(blocks) && UnitsChain(w.address, w.units, n, |blocks|) && PendingInStep(w, n)
    requires Emitted(LogOf(blocks), 0, e) && e.sender == w.address && OnReceiptConfirmed(w, e.receipt).Ok?
    ensures Confirmable(w, n, LogOf(blocks), e)
  {
    ReceiptIsForPending(w, n, e.receipt);
    ProvenEmission(blocks, e, ConfirmedUnit(e.receipt, w.pending[n + 1].sidecar));
    ConfirmedUnitIsNext(w, n, |blocks|, e.receipt);
  }

  lemma {:induction false} EmittedIsReady(context: ValidationContext, c: ChainState, w: Wallet, receipt: Receipt)
    requires ChainInv(c) && InStep(context, w, LogOf(c.blocks), c.pool) && EmittedTo(w, LogOf(c.blocks), receipt)
    ensures ReceiptReady(w, LogOf(c.blocks), c.pool, receipt)
  {
    hide NextUnit, OnReceiptConfirmed, PoolOk, RecordsFine, RecordsOk, UnitsChain;
    var e :| Emitted(LogOf(c.blocks), 0, e) && e.sender == w.address && e.receipt == receipt;
    if OnReceiptConfirmed(w, receipt).Ok? {
      EmittedMakesNextUnit(w, ConfirmedCount(w), c.blocks, e);
      EmittedIsNotPooled(c.config, w, ConfirmedCount(w), c.blocks, c.pool, e);
    }
  }

  lemma {:induction false} HonestIsReady(context: ValidationContext, c: ChainState, w: Wallet, step: MarketStep)
    requires ChainInv(c) && InStep(context, w, LogOf(c.blocks), c.pool)
    requires WalletStepHonest(w, LogOf(c.blocks), c.pool, step)
    ensures StepReady(w, LogOf(c.blocks), c.pool, step)
  {
    if step.Confirm? {
      EmittedIsReady(context, c, w, step.receipt);
    }
  }

  lemma {:induction false} WalletStepKeepsWorld(context: ValidationContext, s: World, step: MarketStep)
    requires WorldInv(context, s) && StepHonest(s, ByWallet(step))
    ensures WorldInv(context, StepWorld(s, ByWallet(step)))
  {
    hide ChainInv, InStep, MailAfter, MarketInv, Step, StepReady, TotalHeld, WalletAfter;
    if step.i < |s.market.wallets| {
      assert InStep(context, s.market.wallets[step.i], LogOf(s.chain.blocks), s.chain.pool);
      HonestIsReady(context, s.chain, s.market.wallets[step.i], step);
    }
    ReadyIsFresh(s.market, step, LogOf(s.chain.blocks), s.chain.pool);
    StepConserves(s.market, step);
    StepKeepsTrade(context, s.market, step, LogOf(s.chain.blocks), s.chain.pool);
  }

  lemma {:induction false} StepKeepsWorld(context: ValidationContext, s: World, step: WorldStep)
    requires WorldInv(context, s) && StepHonest(s, step)
    ensures WorldInv(context, StepWorld(s, step))
  {
    hide ChainStepHonest, Step, StepMarket, WalletStepHonest, WorldInv;
    match step
    case ByWallet(m) => WalletStepKeepsWorld(context, s, m);
    case ByChain(c) => ChainStepKeepsWorld(context, s, c);
  }

  /** Every state of an honest run satisfies the invariant. */
  lemma {:induction false} RunKeepsWorld(context: ValidationContext, s: World, steps: seq<WorldStep>)
    requires WorldInv(context, s) && RunHonest(s, steps)
    ensures WorldInv(context, RunWorld(s, steps))
  {
    hide StepHonest, StepWorld, WorldInv;
    if steps != [] {
      RunKeepsWorld(context, s, steps[..|steps| - 1]);
      StepKeepsWorld(context, RunWorld(s, steps[..|steps| - 1]), steps[|steps| - 1]);
    }
  }

  // ----- Genesis

  /** The allocations as the table validators consult. */
  function GenesisTable(allocations: seq<Allocation>): map<Address, seq<ValueRange>> {
    if allocations == [] then map[]
    else GenesisTable(allocations[..|allocations| - 1])[allocations[|allocations| - 1].owner := allocations[|allocations| - 1].values]
  }

  lemma {:induction false} TableHolds(allocations: seq<Allocation>, i: nat)
    requires DistinctOwners(allocations) && i < |allocations|
    ensures Lookup(GenesisTable(allocations), allocations[i].owner) == Some(allocations[i].values)
  {
    if i < |allocations| - 1 {
      TableHolds(allocations[..|allocations| - 1], i);
    }
  }

  function GenesisContext(allocations: seq<Allocation>): ValidationContext {
    ValidationContext(GenesisTable(allocations), [])
  }

  function GenesisWorld(
      genesisBlockHash: Hash, allocations: seq<Allocation>, config: ChainConfig, cacheBlocks: positive): World
  {
    World(GenesisMarket(genesisBlockHash, allocations), InitialChain(config, genesisBlockHash, cacheBlocks))
  }

  /** A record of a wallet that has only been given genesis values. */
  ghost predicate GenesisRecord(w: Wallet, values: seq<ValueRange>, r: LocalValueRecord) {
    && r.value in values && r.status == VerifiedSpendable && r.acquiredAt == 0
    && r.history == Witness(r.value, w.address, [], GenesisAnchor(w.genesisBlockHash, w.address, r.value))
  }

  lemma {:induction false} GenesisRecords(address: Address, genesisBlockHash: Hash, values: seq<ValueRange>)
    ensures var w := GenesisWallet(address, genesisBlockHash, values);
            && w.address == address && w.units == map[] && w.pending == map[] && w.receipts == map[]
            && forall r :: r in w.records ==> GenesisRecord(w, values, r)
  {
    if values != [] {
      var init, value := values[..|values| - 1], values[|values| - 1];
      GenesisRecords(address, genesisBlockHash, init);
      var before, w := GenesisWallet(address, genesisBlockHash, init), GenesisWallet(address, genesisBlockHash, values);
      var added := LocalValueRecord(before.nextId, value, Witness(value, address, [], GenesisAnchor(before.genesisBlockHash, address, value)),
                                    VerifiedSpendable, 0);
      StoredFacts(before.records + [added]);
      forall r | r in w.records ensures GenesisRecord(w, values, r) {
        assert r in before.records ==> GenesisRecord(before, init, r);
      }
    }
  }

  lemma GenesisRecordFine(context: ValidationContext, w: Wallet, values: seq<ValueRange>, r: LocalValueRecord)
    requires GenesisRecord(w, values, r) && Lookup(context.genesis, w.address) == Some(values)
    ensures RecordFine(context, w.units, 0, r)
  {
    var i :| 0 <= i < |values| && values[i] == r.value;
    assert context.genesis[w.address][i].Contains(r.value);
  }

  lemma {:induction false} GenesisInStep(context: ValidationContext, w: Wallet, values: seq<ValueRange>)
    requires WalletOk(w) && w.units == map[] && w.pending == map[] && w.receipts == map[]
    requires (forall r :: r in w.records ==> GenesisRecord(w, values, r)) && Lookup(context.genesis, w.address) == Some(values)
    ensures InStep(context, w, [], map[])
  {
    assert w.units.Keys == {};
    forall r | r in w.records ensures RecordFine(context, w.units, 0, r) {
      GenesisRecordFine(context, w, values, r);
    }
    assert RecordsFine(context, w.units, 0, w.records);
  }

  lemma {:induction false} GenesisWalletsInStep(genesisBlockHash: Hash, allocations: seq<Allocation>)
    requires DistinctOwners(allocations) && AllWalletsOk(GenesisMarket(genesisBlockHash, allocations).wallets)
    ensures AllInStep(GenesisContext(allocations), GenesisMarket(genesisBlockHash, allocations).wallets, [], map[])
    ensures AllTraced(GenesisMarket(genesisBlockHash, allocations).wallets)
  {
    var wallets := GenesisMarket(genesisBlockHash, allocations).wallets;
    forall i {:trigger wallets[i]} | 0 <= i < |wallets|
      ensures InStep(GenesisContext(allocations), wallets[i], [], map[])
      ensures forall r :: r in wallets[i].records ==> GenesisRecord(wallets[i], allocations[i].values, r)
    {
      assert WalletOk(wallets[i]);
      GenesisRecords(allocations[i].owner, genesisBlockHash, allocations[i].values);
      TableHolds(allocations, i);
      GenesisInStep(GenesisContext(allocations), wallets[i], allocations[i].values);
    }
  }

  lemma {:induction false} GenesisWorldInv(
      genesisBlockHash: Hash, allocations: seq<Allocation>, config: ChainConfig, cacheBlocks: positive)
    requires DistinctOwners(allocations) && forall p :: GenesisCount(allocations, p) <= 1
    ensures WorldInv(GenesisContext(allocations), GenesisWorld(genesisBlockHash, allocations, config, cacheBlocks))
  {
    hide AllInStep, AllWalletsOk, GenesisMarket, HoldsWindow, MarketInv, PoolOk;
    GenesisInv(genesisBlockHash, allocations);
    InitialInv(config, genesisBlockHash, cacheBlocks);
    GenesisWalletsInStep(genesisBlockHash, allocations);
  }

  // ----- Export implies acceptance

  /** The recipient's own context: the genesis allocation, and the checkpoints it can vouch for itself. */
  function OwnContext(allocations: seq<Allocation>, recipient: Wallet, package: TransferPackage): ValidationContext {
    ValidationContext(GenesisTable(allocations), TrustedCheckpoints(recipient, package.history))
  }

  /** The sender exports the value, and the recipient's validator accepts the package. */
  predicate ReachesRecipient(allocations: seq<Allocation>, sender: Wallet, recipient: Wallet, tx: OffChainTx, value: ValueRange) {
    var package := ExportTransferPackage(sender, tx, value);
    && package.Ok?
    && ValidatePackage(OwnContext(allocations, recipient, package.value), package.value, Some(recipient.address)).Ok?
  }

  lemma {:induction false} ArchivedReaches(
      allocations: seq<Allocation>, w: Wallet, n: nat, top: nat, r: LocalValueRecord, tx: OffChainTx, recipient: Wallet)
    requires WalletFine(GenesisContext(allocations), w, n, top) && TracedBy(w, recipient)
    requires r in w.records && r.status == Archived && TxOf(r) == Some(tx)
    requires recipient.address == tx.recipient && (recipient.address == w.address ==> recipient == w)
    ensures ReachesRecipient(allocations, w, recipient, tx, r.value)
  {
    ExportIsAccepted(GenesisContext(allocations), w, n, top, r, tx, recipient);
  }

  lemma {:induction false} SenderInWorld(context: ValidationContext, s: World, i: nat, j: nat)
    requires WorldInv(context, s) && i < |s.market.wallets| && j < |s.market.wallets|
    ensures var w, log := s.market.wallets[i], LogOf(s.chain.blocks);
            && InStep(context, w, log, s.chain.pool) && WalletFine(context, w, ConfirmedCount(w), |log|) && WalletOk(w)
            && TracedBy(w, s.market.wallets[j])
    ensures s.market.wallets[i].address == s.market.wallets[j].address ==> i == j
  {
    hide AllSent, ChainInv, ContextOk, LogOf, RecordsOk, TotalHeld, WalletFine;
    assert InStep(context, s.market.wallets[i], LogOf(s.chain.blocks), s.chain.pool);
    assert WalletOk(s.market.wallets[i]);
    assert TracedBy(s.market.wallets[i], s.market.wallets[j]);
  }

  lemma {:induction false} ArchivedReachesRecipient(
      allocations: seq<Allocation>, s: World, i: nat, r: LocalValueRecord, tx: OffChainTx, j: nat)
    requires WorldInv(GenesisContext(allocations), s) && i < |s.market.wallets| && j < |s.market.wallets|
    requires r in s.market.wallets[i].records && r.status == Archived && TxOf(r) == Some(tx)
    requires s.market.wallets[j].address == tx.recipient
    ensures ReachesRecipient(allocations, s.market.wallets[i], s.market.wallets[j], tx, r.value)
  {
    hide *;
    var w := s.market.wallets[i];
    SenderInWorld(GenesisContext(allocations), s, i, j);
    ArchivedReaches(allocations, w, ConfirmedCount(w), |LogOf(s.chain.blocks)|, r, tx, s.market.wallets[j]);
  }

  /** At every moment of an honest run, whatever a wallet has sent away can be exported, and its recipient accepts it. */
  lemma {:induction false} SentValuesAreAccepted(
      genesisBlockHash: Hash, allocations: seq<Allocation>, config: ChainConfig, cacheBlocks: positive, steps: seq<WorldStep>,
      i: nat, r: LocalValueRecord, tx: OffChainTx, j: nat)
    requires DistinctOwners(allocations) && forall p :: GenesisCount(allocations, p) <= 1
    requires RunHonest(GenesisWorld(genesisBlockHash, allocations, config, cacheBlocks), steps)
    requires var wallets := RunWorld(GenesisWorld(genesisBlockHash, allocations, config, cacheBlocks), steps).market.wallets;
             && i < |wallets| && j < |wallets| && wallets[j].address == tx.recipient
             && r in wallets[i].records && r.status == Archived && TxOf(r) == Some(tx)
    ensures var wallets := RunWorld(GenesisWorld(genesisBlockHash, allocations, config, cacheBlocks), steps).market.wallets;
            ReachesRecipient(allocations, wallets[i], wallets[j], tx, r.value)
  {
    hide *;
    var start := GenesisWorld(genesisBlockHash, allocations, config, cacheBlocks);
    GenesisWorldInv(genesisBlockHash, allocations, config, cacheBlocks);
    RunKeepsWorld(GenesisContext(allocations), start, steps);
    ArchivedReachesRecipient(allocations, RunWorld(start, steps), i, r, tx, j);
  }

  /** The record that a confirmed bundle leaves of one of its ranges. */
  lemma {:induction false} ConfirmArchives(
      context: ValidationContext, w: Wallet, log: seq<BlockLog>, pool: Pool, receipt: Receipt, tx: OffChainTx, v: ValueRange)
      returns (x: LocalValueRecord)
    requires InStep(context, w, log, pool) && WalletOk(w) && ReceiptReady(w, log, pool, receipt)
    requires OnReceiptConfirmed(w, receipt).Ok?
    requires receipt.seqNo in w.pending && tx in w.pending[receipt.seqNo].sidecar.txs && v in tx.values
    ensures x in OnReceiptConfirmed(w, receipt).value.0.records && x.status == Archived && x.value == v && TxOf(x) == Some(tx)
  {
    hide ConfirmRecords, NextUnit, NonOverlapping, ReadyToSettle, ReceiptError, RecordsFine, RecordsOk, UnitsChain;
    var n, bundle := ConfirmedCount(w), w.pending[receipt.seqNo];
    var unit := ConfirmedUnit(receipt, bundle.sidecar);
    var e :| Confirmable(w, n, log, e) && e.receipt == receipt;
    ReadyOnReceipt(w, n, log, e);
    ConfirmShape(w, receipt);
    NamedByBundle(bundle.sidecar.txs, tx, v);
    x := SentRecordExists(w, n, |log|, bundle, unit, v);
  }

  lemma {:induction false} NamedByBundle(txs: seq<OffChainTx>, tx: OffChainTx, v: ValueRange)
    requires NonOverlapping(txs) && tx in txs && v in tx.values
    ensures v in TxValues(txs) && FirstTxWith(txs, v) == Some(tx)
  {
    var i :| 0 <= i < |txs| && txs[i] == tx;
    var k :| 0 <= k < |tx.values| && tx.values[k] == v;
    assert v in txs[i].values && tx.values[k].Contains(v);
    TxValuesHold(txs, v);
    CoveringTxIsFirst(txs, tx, v);
  }

  /** The wallet can confirm the emitted receipt, and its bundle of that number pays the range. */
  ghost predicate CanConfirm(w: Wallet, log: seq<BlockLog>, receipt: Receipt, tx: OffChainTx, v: ValueRange) {
    && EmittedTo(w, log, receipt) && OnReceiptConfirmed(w, receipt).Ok?
    && receipt.seqNo as nat in w.pending && tx in w.pending[receipt.seqNo].sidecar.txs && v in tx.values
  }

  lemma {:induction false} ConfirmedWorld(
      context: ValidationContext, s: World, i: nat, w: Wallet, receipt: Receipt, confirmed: Wallet) returns (after: World)
    requires WorldInv(context, s) && i < |s.market.wallets| && w == s.market.wallets[i]
    requires EmittedTo(w, LogOf(s.chain.blocks), receipt) && OnReceiptConfirmed(w, receipt).Ok?
    requires confirmed == OnReceiptConfirmed(w, receipt).value.0
    ensures after == StepWorld(s, ByWallet(Confirm(i, receipt))) && WorldInv(context, after)
    ensures after.market.wallets == s.market.wallets[i := confirmed] && confirmed.address == w.address
  {
    hide WorldInv, InStep, LogOf, Step, BuildBundle, ReceiveTransfer;
    after := StepWorld(s, ByWallet(Confirm(i, receipt)));
    WalletStepKeepsWorld(context, s, Confirm(i, receipt));
    ConfirmShape(w, receipt);
  }

  lemma {:induction false} ArchivedByConfirming(
      context: ValidationContext, s: World, i: nat, w: Wallet, receipt: Receipt, tx: OffChainTx, v: ValueRange) returns (x: LocalValueRecord)
    requires WorldInv(context, s) && i < |s.market.wallets| && w == s.market.wallets[i]
    requires CanConfirm(w, LogOf(s.chain.blocks), receipt, tx, v)
    ensures x in OnReceiptConfirmed(w, receipt).value.0.records && x.status == Archived && x.value == v && TxOf(x) == Some(tx)
  {
    hide InStep, LogOf, OnReceiptConfirmed, ReceiptReady, Step, WalletFine;
    SenderInWorld(context, s, i, i);
    EmittedIsReady(context, s.chain, w, receipt);
    x := ConfirmArchives(context, w, LogOf(s.chain.blocks), s.chain.pool, receipt, tx, v);
  }

  lemma {:induction false} ConfirmedReachesRecipient(
      allocations: seq<Allocation>, s: World, i: nat, w: Wallet, receipt: Receipt, tx: OffChainTx, v: ValueRange, j: nat)
    requires WorldInv(GenesisContext(allocations), s) && i < |s.market.wallets| && w == s.market.wallets[i]
    requires CanConfirm(w, LogOf(s.chain.blocks), receipt, tx, v)
    requires j < |s.market.wallets| && s.market.wallets[j].address == tx.recipient
    ensures var wallets := StepWorld(s, ByWallet(Confirm(i, receipt))).market.wallets;
            |wallets| == |s.market.wallets| && ReachesRecipient(allocations, wallets[i], wallets[j], tx, v)
  {
    hide WorldInv, LogOf, OnReceiptConfirmed, ReachesRecipient, StepWorld;
    var x := ArchivedByConfirming(GenesisContext(allocations), s, i, w, receipt, tx, v);
    var after := ConfirmedWorld(GenesisContext(allocations), s, i, w, receipt, OnReceiptConfirmed(w, receipt).value.0);
    ArchivedReachesRecipient(allocations, after, i, x, tx, j);
  }

  /**
    Export implies acceptance: in every honest run, once a wallet has confirmed a bundle's receipt, each range of
    each of its transfers can be exported, and the recipient's validator, trusting only the recipient's own
    records, accepts the package.
   */
  lemma {:induction false} ConfirmedBundleIsAccepted(
      genesisBlockHash: Hash, allocations: seq<Allocation>, config: ChainConfig, cacheBlocks: positive, steps: seq<WorldStep>,
      i: nat, receipt: Receipt, tx: OffChainTx, v: ValueRange, j: nat)
    requires DistinctOwners(allocations) && forall p :: GenesisCount(allocations, p) <= 1
    requires RunHonest(GenesisWorld(genesisBlockHash, allocations, config, cacheBlocks), steps)
    requires var s := RunWorld(GenesisWorld(genesisBlockHash, allocations, config, cacheBlocks), steps);
             && i < |s.market.wallets| && CanConfirm(s.market.wallets[i], LogOf(s.chain.blocks), receipt, tx, v)
             && j < |s.market.wallets| && s.market.wallets[j].address == tx.recipient
    ensures var s := RunWorld(GenesisWorld(genesisBlockHash, allocations, config, cacheBlocks), steps);
            var wallets := StepWorld(s, ByWallet(Confirm(i, receipt))).market.wallets;
            |wallets| == |s.market.wallets| && ReachesRecipient(allocations, wallets[i], wallets[j], tx, v)
  {
    hide *;
    var start := GenesisWorld(genesisBlockHash, allocations, config, cacheBlocks);
    GenesisWorldInv(genesisBlockHash, allocations, config, cacheBlocks);
    RunKeepsWorld(GenesisContext(allocations), start, steps);
    ConfirmedReachesRecipient(allocations, RunWorld(start, steps), i, RunWorld(start, steps).market.wallets[i], receipt, tx, v, j);
  }

  // ----- Nothing stays locked

  lemma {:induction false} WorldExplains(context: ValidationContext, s: World, steps: seq<WorldStep>)
    requires WorldInv(context, s) && AllStatusesOk(s.market.wallets) && RunHonest(s, steps)
    ensures AllStatusesOk(RunWorld(s, steps).market.wallets)
  {
    if steps != [] {
      var before, last := RunWorld(s, steps[..|steps| - 1]), steps[|steps| - 1];
      hide WorldInv, AllStatusesOk, Step, StepMarket, StepHonest;
      WorldExplains(context, s, steps[..|steps| - 1]);
      RunKeepsWorld(context, s, steps[..|steps| - 1]);
      WalletsOfWorld(context, before);
      if last.ByWallet? {
        StepExplains(before.market, last.step);
      }
    }
  }

  lemma WalletsOfWorld(context: ValidationContext, s: World)
    requires WorldInv(context, s)
    ensures AllWalletsOk(s.market.wallets)
  {
    hide AllSent, AllWalletsOk, TotalHeld, ChainInv, AllInStep, AllTraced;
  }

  /**
    In every state of an honest run, each record is spendable, archived, or one of the bundle its wallet has pending. So a
    wallet with nothing pending can spend everything it has not sent away.
   */
  lemma {:induction false} NothingStaysLocked(
      genesisBlockHash: Hash, allocations: seq<Allocation>, config: ChainConfig, cacheBlocks: positive, steps: seq<WorldStep>,
      i: nat)
    requires DistinctOwners(allocations) && forall p :: GenesisCount(allocations, p) <= 1
    requires RunHonest(GenesisWorld(genesisBlockHash, allocations, config, cacheBlocks), steps)
    requires i < |RunWorld(GenesisWorld(genesisBlockHash, allocations, config, cacheBlocks), steps).market.wallets|
    ensures var w := RunWorld(GenesisWorld(genesisBlockHash, allocations, config, cacheBlocks), steps).market.wallets[i];
            StatusesOk(w) && (w.pending == map[] ==> Settled(w.records) && AllAvailable(w.records))
  {
    hide AllAvailable, ChainInv, GenesisCount, GenesisMarket, RunHonest, RunWorld, Settled, StatusesOk, WorldInv;
    var start := GenesisWorld(genesisBlockHash, allocations, config, cacheBlocks);
    GenesisWorldInv(genesisBlockHash, allocations, config, cacheBlocks);
    GenesisStatuses(genesisBlockHash, allocations);
    WorldExplains(GenesisContext(allocations), start, steps);
    var w := RunWorld(start, steps).market.wallets[i];
    assert StatusesOk(w);
    if w.pending == map[] {
      IdleSettles(w);
      SettledIsAvailable(w.records);
    }
  }
}

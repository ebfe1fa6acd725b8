/**
  A wallet's database beside an honest run: the batches it saves are the chain's own, none is ever overwritten by a
  different one, and so the records read back are the records that were stored.
 */
module HonestStorage {
  import opened Prelude
  import opened Sorting
  import opened Values
  import opened Types
  import opened Ledger
  import opened SparseMerkle
  import opened ReceiptCaches
  import opened Chains
  import opened ChainRuns
  import opened ChainInvariants
  import opened Runs
  import opened Validation
  import opened Histories
  import opened Selection
  import opened Wallets
  import opened TwoPhase
  import opened WalletInvariants
  import opened Conservation
  import opened HonestWallets
  import opened HonestConfirms
  import opened Traces
  import opened EmittedReceipts
  import opened Participants
  import opened HonestTrades
  import opened HonestRuns
  import opened Payments
  import WalletStorage

  type BatchTable = WalletStorage.BatchTable

  // ----- Receipts that arrive without their proofs

  datatype FetchError = MissingRef | RefMismatch | BatchRootMismatch | KeyLengthMismatch

  /** Expands a fetched receipt from the batch that came with it. */
  function MaterializeFromBatch(receipt: Receipt, batch: ProofBatch): Result<Receipt, FetchError> {
    if receipt.proof.Single? then Err(MissingRef)
    else if receipt.proof.batchId != batch.batchId then Err(RefMismatch)
    else if batch.stateRoot != receipt.header.stateRoot then Err(BatchRootMismatch)
    else if |receipt.proof.key| != batch.multiProof.depth then Err(KeyLengthMismatch)
    else Ok(receipt.(proof := Single(Materialize(batch.multiProof, receipt.proof.key))))
  }

  /** The batch is saved before the receipt is expanded, which may still fail. */
  predicate SavesBatch(receipt: Receipt, batch: ProofBatch) {
    MaterializeFromBatch(receipt, batch).Ok? || MaterializeFromBatch(receipt, batch) == Err(KeyLengthMismatch)
  }

  /** Exactly a reference to this batch, under its root and with keys of its length, is expanded; an unequal length is noticed late. */
  lemma ExpandDecides(receipt: Receipt, batch: ProofBatch)
    ensures MaterializeFromBatch(receipt, batch).Ok? <==>
            SavesBatch(receipt, batch) && |receipt.proof.key| == batch.multiProof.depth
    ensures SavesBatch(receipt, batch) <==>
            receipt.proof.Batched? && receipt.proof.batchId == batch.batchId && receipt.header.stateRoot == batch.stateRoot
    ensures MaterializeFromBatch(receipt, batch).Ok? ==>
              MaterializeFromBatch(receipt, batch).value == receipt.(proof := Single(Materialize(batch.multiProof, receipt.proof.key)))
  {
  }

  /** The receipt as it is sent: its proof replaced by a reference to the batch. */
  function Stripped(receipt: Receipt, sender: Address, batch: ProofBatch): Receipt {
    receipt.(proof := Batched(batch.batchId, AddrKey(sender)))
  }

  lemma {:induction false} SharedProofExpands(tree: AccountTree, entries: seq<DiffEntry>, i: nat, root: Hash, id: BatchId, receipt: Receipt)
    requires i < |entries| && entries[i].addrKey in tree && receipt.header.stateRoot == root
    requires receipt.proof == Single(Prove(TREE_DEPTH, tree, entries[i].addrKey))
    ensures var batch := ProofBatch(id, root, MultiProofOf(TREE_DEPTH, tree, EntryKeys(entries)));
            MaterializeFromBatch(receipt.(proof := Batched(id, entries[i].addrKey)), batch) == Ok(receipt)
  {
    assert EntryKeys(entries)[i] == entries[i].addrKey;
    MaterializeRefinesProve(TREE_DEPTH, tree, EntryKeys(entries), entries[i].addrKey);
  }

  lemma {:induction false} BlockFetched(before: Leaves, tree: AccountTree, b: Block, height: nat, e: Emission)
    requires GoodBlock(before, tree, b, height) && e in EmittedBy(before, PutValues(tree, b.entries), b).emissions
    ensures var batch := EmittedBy(before, PutValues(tree, b.entries), b).batch;
            MaterializeFromBatch(Stripped(e.receipt, e.sender, batch), batch) == Ok(e.receipt)
  {
    var i := EmissionIndex(before, tree, PutValues(tree, b.entries), b, height, e);
    assert GoodEntry(before, b, i);
    PutValuesStoresLast(tree, b.entries, i);
    SharedProofExpands(PutValues(tree, b.entries), b.entries, i, b.header.stateRoot, BatchId(b.header.height, b.blockHash), e.receipt);
  }

  /** A receipt fetched without its proof, expanded from the batch of its block, is the receipt the chain emitted. */
  lemma {:induction false} FetchedIsEmitted(blocks: seq<Block>, e: Emission)
    requires GoodBlocks(blocks) && Emitted(LogOf(blocks), 0, e)
    ensures var batch := LogOf(blocks)[e.Height() - 1].batch;
            MaterializeFromBatch(Stripped(e.receipt, e.sender, batch), batch) == Ok(e.receipt)
  {
    var h := e.Height();
    LogAt(blocks, h);
    BlockAt(blocks, h);
    BlockFetched(LeavesAfter(blocks[..h - 1]), TreeAfter(blocks[..h - 1]), blocks[h - 1], h, e);
  }

  // ----- Tables of the chain's own batches

  ghost predicate OwnBatch(log: seq<BlockLog>, batch: ProofBatch) {
    1 <= batch.batchId.height <= |log| && log[batch.batchId.height - 1].batch == batch
  }

  ghost predicate BatchesInStep(log: seq<BlockLog>, batches: BatchTable) {
    WalletStorage.FiledByOwnId(batches) && forall id :: id in batches ==> OwnBatch(log, batches[id])
  }

  lemma SavedInStep(log: seq<BlockLog>, batches: BatchTable, batch: ProofBatch)
    requires BatchesInStep(log, batches) && OwnBatch(log, batch)
    ensures BatchesInStep(log, batches[batch.batchId := batch]) && WalletStorage.Grows(batches, batches[batch.batchId := batch])
  {
  }

  lemma LongerInStep(log: seq<BlockLog>, more: seq<BlockLog>, batches: BatchTable)
    requires BatchesInStep(log, batches)
    ensures BatchesInStep(log + more, batches)
  {
  }

  lemma {:induction false} LogOfOneMore(blocks: seq<Block>, b: Block, batches: BatchTable)
    requires BatchesInStep(LogOf(blocks), batches)
    ensures BatchesInStep(LogOf(blocks + [b]), batches)
  {
    LogGrows(blocks, b);
    LongerInStep(LogOf(blocks), [EmittedBy(LeavesAfter(blocks), TreeAfter(blocks + [b]), b)], batches);
  }

  lemma AtMostOneMore<T>(s: seq<T>, more: seq<T>)
    requires |more| <= 1
    ensures s + more == if more == [] then s else s + [more[0]]
  {
  }

  lemma {:induction false} ChainStepKeepsBatches(c: ChainState, step: ChainStep, batches: BatchTable)
    requires ChainInv(c) && BatchesInStep(LogOf(c.blocks), batches)
    ensures BatchesInStep(LogOf(Step(c, step).blocks), batches)
  {
    hide *;
    var more := StepExtends(c, step);
    AtMostOneMore(c.blocks, more);
    if more != [] {
      LogOfOneMore(c.blocks, more[0], batches);
    }
  }

  // ----- Runs with a database

  /** The protocol's world, and the batch table of one wallet's database. */
  datatype Host = Host(world: World, batches: BatchTable)

  datatype HostStep = Protocol(step: WorldStep) | Fetch(receipt: Receipt, batch: ProofBatch)

  function StepHost(h: Host, step: HostStep): Host {
    match step
    case Protocol(s) => h.(world := StepWorld(h.world, s))
    case Fetch(receipt, batch) =>
      if SavesBatch(receipt, batch) then h.(batches := h.batches[batch.batchId := batch]) else h
  }

  function RunHost(h: Host, steps: seq<HostStep>): Host {
    if steps == [] then h else StepHost(RunHost(h, steps[..|steps| - 1]), steps[|steps| - 1])
  }

  /** Batches come from the chain. */
  ghost predicate HostStepHonest(h: Host, step: HostStep) {
    match step
    case Protocol(s) => StepHonest(h.world, s)
    case Fetch(_, batch) => OwnBatch(LogOf(h.world.chain.blocks), batch)
  }

  ghost predicate HostHonest(h: Host, steps: seq<HostStep>) {
    steps != [] ==>
      && HostHonest(h, steps[..|steps| - 1])
      && HostStepHonest(RunHost(h, steps[..|steps| - 1]), steps[|steps| - 1])
  }

  ghost predicate HostInv(context: ValidationContext, h: Host) {
    WorldInv(context, h.world) && BatchesInStep(LogOf(h.world.chain.blocks), h.batches)
  }

  lemma {:induction false} WorldStepKeepsBatches(s: World, step: WorldStep, batches: BatchTable)
    requires ChainInv(s.chain) && BatchesInStep(LogOf(s.chain.blocks), batches)
    ensures BatchesInStep(LogOf(StepWorld(s, step).chain.blocks), batches)
  {
    hide ChainInv, LogOf, Step, StepMarket;
    if step.ByChain? {
      ChainStepKeepsBatches(s.chain, step.chainStep, batches);
    }
  }

  lemma {:induction false} ProtocolKeeps(context: ValidationContext, h: Host, step: WorldStep)
    requires HostInv(context, h) && StepHonest(h.world, step)
    ensures HostInv(context, h.(world := StepWorld(h.world, step)))
  {
    hide AllInStep, ChainInv, MarketInv, StepHonest, StepWorld;
    StepKeepsWorld(context, h.world, step);
    WorldStepKeepsBatches(h.world, step, h.batches);
  }

  lemma {:induction false} HostStepKeeps(context: ValidationContext, h: Host, step: HostStep)
    requires HostInv(context, h) && HostStepHonest(h, step)
    ensures HostInv(context, StepHost(h, step)) && WalletStorage.Grows(h.batches, StepHost(h, step).batches)
  {
    hide AllInStep, ChainInv, MarketInv, SavesBatch, StepHonest, StepWorld;
    if step.Protocol? {
      ProtocolKeeps(context, h, step.step);
    } else {
      SavedInStep(LogOf(h.world.chain.blocks), h.batches, step.batch);
    }
  }

  /** Along an honest run the table holds only batches of the chain, and loses and replaces none. */
  lemma {:induction false} BatchesOnlyGrow(context: ValidationContext, h: Host, steps: seq<HostStep>)
    requires HostInv(context, h) && HostHonest(h, steps)
    ensures HostInv(context, RunHost(h, steps)) && WalletStorage.Grows(h.batches, RunHost(h, steps).batches)
  {
    hide HostInv, HostStepHonest, StepHost;
    if steps != [] {
      var before := RunHost(h, steps[..|steps| - 1]);
      BatchesOnlyGrow(context, h, steps[..|steps| - 1]);
      HostStepKeeps(context, before, steps[|steps| - 1]);
    }
  }

  // ----- Histories carry their own proofs

  lemma {:induction false} RunIsSingle(address: Address, units: map<nat, ConfirmedUnit>, n: nat, top: nat, chain: seq<ConfirmedUnit>, m: nat)
    requires UnitsChain(address, units, n, top) && m <= n && IsRun(units, chain, m)
    ensures forall i :: 0 <= i < |chain| ==> chain[i].receipt.proof.Single?
  {
    forall i | 0 <= i < |chain| ensures chain[i].receipt.proof.Single? {
      assert RunAt(units, chain, m, i);
      assert UnitFine(address, units[m - i]);
    }
  }

  lemma {:induction false} AnchoredIsSingle(context: ValidationContext, value: ValueRange, w: Witness)
    requires AnchorError(context, value, w).None? && w.anchor.PriorWitnessLink?
    ensures WalletStorage.SingleProofs(w.anchor.prior)
  {
    WalletStorage.AcceptedHasSingleProofs(context, w.anchor.acquireTx, value, w.anchor.prior, w.owner);
  }

  lemma {:induction false} FineIsSingle(context: ValidationContext, w: Wallet, n: nat, top: nat, r: LocalValueRecord)
    requires WalletFine(context, w, n, top) && r in w.records
    ensures WalletStorage.SingleProofs(r.history)
  {
    assert RecordFine(context, w.units, n, r);
    if r.status == Archived {
      WalletStorage.AcceptedHasSingleProofs(context, TxOf(r).value, r.value, r.history, TxOf(r).value.recipient);
    } else {
      RunIsSingle(w.address, w.units, n, top, r.history.chain, TopSeq(r.history));
      if r.history.anchor.PriorWitnessLink? {
        AnchoredIsSingle(context, r.value, r.history);
      }
    }
  }

  lemma {:induction false} RecordsAreSingle(context: ValidationContext, s: World, i: nat)
    requires WorldInv(context, s) && i < |s.market.wallets|
    ensures forall r :: r in s.market.wallets[i].records ==> WalletStorage.SingleProofs(r.history)
  {
    var w := s.market.wallets[i];
    assert InStep(context, w, LogOf(s.chain.blocks), s.chain.pool);
    forall r | r in w.records ensures WalletStorage.SingleProofs(r.history) {
      FineIsSingle(context, w, ConfirmedCount(w), |LogOf(s.chain.blocks)|, r);
    }
  }

  // ----- What is stored is what is read

  lemma {:induction false} GrownReadsBack(records: Records, batches: BatchTable, later: BatchTable)
    requires WalletStorage.FiledByOwnId(batches) && WalletStorage.Grows(batches, later)
    requires forall r :: r in records ==> WalletStorage.SingleProofs(r.history)
    ensures MapSeq(WalletStorage.Materializer(later), Stored(MapSeq(WalletStorage.Compactor(batches), records))) == Stored(records)
  {
    forall r | r in records ensures WalletStorage.AllReproduced(r.history, batches, later) {
      WalletStorage.GrowthReproduces(r.history, batches, later);
    }
    WalletStorage.RecordsReadBack(records, batches, later);
  }

  /**
    Records are never lost to compaction: in an honest run, a wallet's records stored at any moment, with proofs replaced
    by references to the batches known then, are listed at any later moment just as they were stored.
   */
  lemma {:induction false} StoredRecordsReadBack(
      genesisBlockHash: Hash, allocations: seq<Allocation>, config: ChainConfig, cacheBlocks: positive, steps: seq<HostStep>,
      h: Host, later: seq<HostStep>, i: nat)
    requires DistinctOwners(allocations) && forall p :: GenesisCount(allocations, p) <= 1
    requires HostHonest(Host(GenesisWorld(genesisBlockHash, allocations, config, cacheBlocks), map[]), steps)
    requires h == RunHost(Host(GenesisWorld(genesisBlockHash, allocations, config, cacheBlocks), map[]), steps)
    requires HostHonest(h, later) && i < |h.world.market.wallets|
    ensures var records := h.world.market.wallets[i].records;
            MapSeq(WalletStorage.Materializer(RunHost(h, later).batches),
                   Stored(MapSeq(WalletStorage.Compactor(h.batches), records))) == Stored(records)
  {
    hide AllInStep, ChainInv, EmittedBy, GenesisMarket, HostHonest, MarketInv, RunHost;
    var context := GenesisContext(allocations);
    GenesisWorldInv(genesisBlockHash, allocations, config, cacheBlocks);
    BatchesOnlyGrow(context, Host(GenesisWorld(genesisBlockHash, allocations, config, cacheBlocks), map[]), steps);
    BatchesOnlyGrow(context, h, later);
    RecordsAreSingle(context, h.world, i);
    GrownReadsBack(h.world.market.wallets[i].records, h.batches, RunHost(h, later).batches);
  }
}

/** The mutable store: saving is one transaction, loading replays the saved blocks into a new chain. */
module StoreObjects {
  import opened Prelude
  import opened Types
  import opened ReceiptCaches
  import opened SparseMerkle
  import opened Chains
  import opened ChainObjects
  import opened Replay
  import opened ConsensusStores
  import opened Nodes

  class ConsensusStateStore {
    var metadata: Option<Metadata>
    var blocks: map<nat, Block>
    var table: RowTable
    var batches: map<BatchId, BatchRow>

    function State(): Store reads this {
      Store(metadata, blocks, table, batches)
    }

    constructor ()
      ensures State() == EMPTY_STORE
    {
      metadata, blocks, table, batches := None, map[], RowTable(map[], map[]), map[];
    }

    /** Upserts the rows one by one into a copy of the table; nothing is written when one of them conflicts. */
    method UpsertRows(rows: seq<Emission>, batch: Option<ProofBatch>) returns (r: Option<RowTable>)
      ensures r == UpsertAll(table, rows, batch)
    {
      var staged := table;
      for i := 0 to |rows|
        invariant UpsertAll(table, rows[..i], batch) == Some(staged)
      {
        assert rows[..i + 1][..i] == rows[..i];
        var next := Upsert(staged, rows[i].SeqKey(), RowOf(rows[i], batch));
        if next.None? {
          ConflictStays(table, rows, batch, i + 1);
          return None;
        }
        staged := next.value;
      }
      assert rows[..|rows|] == rows;
      r := Some(staged);
    }

    static lemma {:induction false} ConflictStays(t: RowTable, rows: seq<Emission>, batch: Option<ProofBatch>, i: nat)
      requires i <= |rows| && UpsertAll(t, rows[..i], batch).None?
      ensures UpsertAll(t, rows, batch).None?
    {
      if i < |rows| {
        assert rows[..|rows| - 1][..i] == rows[..i];
        ConflictStays(t, rows[..|rows| - 1], batch, i);
      } else {
        assert rows[..i] == rows;
      }
    }

    /** The transaction: every write, or none when a unique column would be violated. */
    method WriteRows(
        b: Block, rows: seq<Emission>, version: nat, chainId: nat, cacheBlocks: nat, genesisBlockHash: Hash,
        batch: Option<ProofBatch>) returns (ok: bool)
      modifies this
      ensures var spec := SaveRows(old(State()), b, rows, version, chainId, cacheBlocks, genesisBlockHash, batch);
              && ok == spec.Ok?
              && State() == if spec.Ok? then spec.value else old(State())
    {
      var staged := UpsertRows(rows, batch);
      if b.header.height in blocks || HasBlockHash(blocks, b.blockHash) || staged.None? {
        return false;
      }
      var min := MinHeight(b.header.height, cacheBlocks);
      blocks := blocks[b.header.height := b];
      if batch.Some? {
        batches := batches[batch.value.batchId := BatchRow(b.header.height, batch.value)];
      }
      table := DropBelow(staged.value, min);
      batches := BatchesFrom(batches, min);
      metadata := Some(Metadata(version, chainId, cacheBlocks, genesisBlockHash, b.header.height, b.blockHash,
                                b.header.stateRoot));
      ok := true;
    }

    method SaveAppliedBlock(
        b: Block, receipts: map<Address, Receipt>, version: nat, chainId: nat, cacheBlocks: nat, genesisBlockHash: Hash,
        batch: Option<ProofBatch>) returns (error: Option<StoreError>)
      requires HaveHeads(b.entries)
      modifies this
      ensures var spec := ConsensusStores.SaveAppliedBlock(old(State()), b, receipts, version, chainId, cacheBlocks,
                                                           genesisBlockHash, batch);
              && (spec.Ok? ==> error == None && State() == spec.value)
              && (spec.Err? ==> error == Some(spec.error) && State() == old(State()))
    {
      hide CompactReceipt, DropBelow, UpsertAll, Materialize;
      if exists i :: 0 <= i < |b.entries| && b.entries[i].newLeaf.addr !in receipts {
        return Some(MissingReceipts);
      }
      if exists a :: a in receipts && !NamesSender(b.entries, a) {
        return Some(UnknownSender);
      }
      var ok := WriteRows(b, ReceiptRows(b.entries, receipts), version, chainId, cacheBlocks, genesisBlockHash, batch);
      error := if ok then None else Some(IntegrityError);
    }

    static lemma {:induction false} RefusalStays(c: ChainState, list: seq<Block>, i: nat)
      requires i <= |list| && ReplayBlocks(c, list[..i]).Err?
      ensures ReplayBlocks(c, list) == ReplayBlocks(c, list[..i])
    {
      if i < |list| {
        assert list[..|list| - 1][..i] == list[..i];
        RefusalStays(c, list[..|list| - 1], i);
      } else {
        assert list[..i] == list;
      }
    }

    static lemma {:induction false} ReplayStep(start: ChainState, list: seq<Block>, i: nat, at: ChainState)
      requires i < |list| && ReplayBlocks(start, list[..i]) == Ok(at)
      ensures var applied := ApplyBlock(at, list[i]);
              ReplayBlocks(start, list[..i + 1]) == if applied.Ok? then Ok(applied.value.chain) else Err(applied.error)
    {
      assert list[..i + 1][..i] == list[..i];
    }

    /** Applies the listed blocks to a new chain until one is refused. */
    static method ReplayInto(chain: ChainStateV2, list: seq<Block>) returns (error: Option<ChainError>)
      requires chain.Valid()
      modifies chain, chain.receiptCache, chain.bundlePool
      ensures chain.Valid()
      ensures var spec := ReplayBlocks(old(chain.State()), list);
              if spec.Ok? then error == None && chain.State() == spec.value else error == Some(spec.error)
    {
      ghost var start := chain.State();
      for i := 0 to |list|
        invariant chain.Valid() && ReplayBlocks(start, list[..i]) == Ok(chain.State())
      {
        ReplayStep(start, list, i, chain.State());
        var applied := chain.Apply(list[i]);
        if applied.Err? {
          RefusalStays(start, list, i + 1);
          return Some(applied.error);
        }
      }
      assert list[..|list|] == list;
      error := None;
    }

    method LoadChainState(config: ChainConfig, cacheBlocks: nat, genesisBlockHash: Hash)
        returns (r: Result<ChainStateV2, LoadError>)
      ensures var spec := Nodes.LoadChainState(State(), config, cacheBlocks, genesisBlockHash);
              && (spec.Ok? ==> r.Ok? && fresh(r.value) && r.value.Valid() && r.value.State() == spec.value)
              && (spec.Err? ==> r.Err? && r.error == spec.error)
    {
      hide ApplyBlock, BlockError, BuildBlock, Commit, Root, RecordBlock, ListBlocks, ReplayBlocks;
      if metadata.None? {
        var empty := new ChainStateV2(config, genesisBlockHash, cacheBlocks);
        return Ok(empty);
      }
      var saved := metadata.value;
      if saved.version != config.version {
        return Err(PersistedVersionMismatch);
      }
      if saved.chainId != config.ChainId() {
        return Err(PersistedChainIdMismatch);
      }
      var chain := new ChainStateV2(config, saved.genesisBlockHash, saved.cacheBlocks);
      var error := ReplayInto(chain, ListBlocks(blocks));
      if error.Some? {
        return Err(BlockRefused(error.value));
      }
      if chain.currentHeight != saved.height {
        return Err(PersistedHeightMismatch);
      }
      if chain.currentBlockHash != saved.blockHash {
        return Err(PersistedBlockHashMismatch);
      }
      if Root(TREE_DEPTH, chain.tree.values) != saved.stateRoot {
        return Err(PersistedStateRootMismatch);
      }
      r := Ok(chain);
    }
  }
}

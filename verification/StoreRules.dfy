/** Exactly when a block is saved, a receipt row is written, a proof is expanded, and a chain is loaded. */
module StoreRules {
  import opened Prelude
  import opened Types
  import opened Ledger
  import opened ReceiptCaches
  import opened SparseMerkle
  import opened Chains
  import opened Replay
  import opened ConsensusStores
  import opened Nodes

  // ----- Writing receipt rows

  /** A row is refused exactly if another key's row has the same reference. */
  lemma UpsertDecides(t: RowTable, key: (Address, nat), row: Row)
    requires IndexOk(t)
    ensures Upsert(t, key, row).Some? <==> forall k :: k in t.rows && t.rows[k].ref == row.ref ==> k == key
    ensures Upsert(t, key, row).Some? ==> Upsert(t, key, row).value.rows == t.rows[key := row]
  {
  }

  ghost predicate OwnKeys(emissions: seq<Emission>) {
    forall i, j :: 0 <= i < j < |emissions| ==>
      emissions[i].SeqKey() != emissions[j].SeqKey() && emissions[i].ref != emissions[j].ref
  }

  /** The key is written by one of the rows. */
  ghost predicate Writes(emissions: seq<Emission>, key: (Address, nat)) {
    exists i :: 0 <= i < |emissions| && emissions[i].SeqKey() == key
  }

  /** The rows after all writes: the written ones replaced, the others as they were. */
  ghost predicate WrittenOver(
      before: map<(Address, nat), Row>, emissions: seq<Emission>, batch: Option<ProofBatch>, after: map<(Address, nat), Row>)
  {
    && (forall i :: 0 <= i < |emissions| ==>
          emissions[i].SeqKey() in after && after[emissions[i].SeqKey()] == RowOf(emissions[i], batch))
    && forall k {:trigger Writes(emissions, k)} :: !Writes(emissions, k) ==>
         (k in after <==> k in before) && (k in after ==> after[k] == before[k])
  }

  /** The reference of this row is held by a key written neither earlier in the block nor by this row itself. */
  ghost predicate Conflicts(rows: map<(Address, nat), Row>, emissions: seq<Emission>, i: nat)
    requires i < |emissions|
  {
    exists k :: k in rows && rows[k].ref == emissions[i].ref && k != emissions[i].SeqKey() && !Writes(emissions[..i], k)
  }

  /** All receipts of a block are written or none: they are refused exactly if one of their references is taken. */
  lemma {:induction false} UpsertAllDecides(t: RowTable, emissions: seq<Emission>, batch: Option<ProofBatch>)
    requires IndexOk(t) && OwnKeys(emissions)
    ensures UpsertAll(t, emissions, batch).Some? <==> forall i :: 0 <= i < |emissions| ==> !Conflicts(t.rows, emissions, i)
    ensures UpsertAll(t, emissions, batch).Some? ==>
              var u := UpsertAll(t, emissions, batch).value;
              IndexOk(u) && WrittenOver(t.rows, emissions, batch, u.rows)
  {
    if emissions != [] {
      var init, last := emissions[..|emissions| - 1], emissions[|emissions| - 1];
      UpsertAllDecides(t, init, batch);
      forall i | 0 <= i < |init| ensures Conflicts(t.rows, emissions, i) <==> Conflicts(t.rows, init, i) {
        assert emissions[..i] == init[..i];
      }
      if UpsertAll(t, init, batch).Some? {
        LastUpsert(t, emissions, batch);
      }
    }
  }

  lemma {:induction false} LastUpsert(t: RowTable, emissions: seq<Emission>, batch: Option<ProofBatch>)
    requires OwnKeys(emissions) && emissions != []
    requires var u := UpsertAll(t, emissions[..|emissions| - 1], batch);
             u.Some? && IndexOk(u.value) && WrittenOver(t.rows, emissions[..|emissions| - 1], batch, u.value.rows)
    ensures UpsertAll(t, emissions, batch).Some? <==> !Conflicts(t.rows, emissions, |emissions| - 1)
    ensures UpsertAll(t, emissions, batch).Some? ==>
              var u := UpsertAll(t, emissions, batch).value;
              IndexOk(u) && WrittenOver(t.rows, emissions, batch, u.rows)
  {
    var init, last := emissions[..|emissions| - 1], emissions[|emissions| - 1];
    var u := UpsertAll(t, init, batch).value;
    UpsertDecides(u, last.SeqKey(), RowOf(last, batch));
    LastConflicts(t.rows, emissions, batch, u.rows);
    if UpsertAll(t, emissions, batch).Some? {
      UpsertKeepsIndex(u, last.SeqKey(), RowOf(last, batch));
      OneMoreWritten(t.rows, emissions, batch, u.rows);
    }
  }

  lemma {:induction false} LastConflicts(
      before: map<(Address, nat), Row>, emissions: seq<Emission>, batch: Option<ProofBatch>, rows: map<(Address, nat), Row>)
    requires OwnKeys(emissions) && emissions != [] && WrittenOver(before, emissions[..|emissions| - 1], batch, rows)
    ensures var last := emissions[|emissions| - 1];
            (exists k :: k in rows && rows[k].ref == last.ref && k != last.SeqKey()) <==> Conflicts(before, emissions, |emissions| - 1)
  {
    var init, last := emissions[..|emissions| - 1], emissions[|emissions| - 1];
    if k :| k in rows && rows[k].ref == last.ref && k != last.SeqKey() {
      assert !Writes(init, k);
      assert k in before && before[k] == rows[k];
    }
    if k :| k in before && before[k].ref == last.ref && k != last.SeqKey() && !Writes(init, k) {
      assert k in rows && rows[k].ref == last.ref;
    }
  }

  lemma {:induction false} OneMoreWritten(
      before: map<(Address, nat), Row>, emissions: seq<Emission>, batch: Option<ProofBatch>, rows: map<(Address, nat), Row>)
    requires OwnKeys(emissions) && emissions != [] && WrittenOver(before, emissions[..|emissions| - 1], batch, rows)
    ensures var last := emissions[|emissions| - 1];
            WrittenOver(before, emissions, batch, rows[last.SeqKey() := RowOf(last, batch)])
  {
    var init, last := emissions[..|emissions| - 1], emissions[|emissions| - 1];
    forall k ensures Writes(emissions, k) <==> Writes(init, k) || k == last.SeqKey() {
      if Writes(init, k) {
        var i :| 0 <= i < |init| && init[i].SeqKey() == k;
        assert emissions[i].SeqKey() == k;
      }
      if i :| 0 <= i < |emissions| && emissions[i].SeqKey() == k {
        assert i < |init| ==> init[i].SeqKey() == k;
      }
    }
    forall i | 0 <= i < |init| ensures emissions[i] == init[i] {
    }
  }

  // ----- Saving a block

  /**
    A block is saved exactly if its receipts are those of its senders, neither its height nor its hash is stored, and
    no reference of its receipts is taken.
   */
  lemma {:induction false} SaveDecides(
      s: Store, b: Block, receipts: map<Address, Receipt>, version: nat, chainId: nat, cacheBlocks: nat,
      genesisBlockHash: Hash, batch: Option<ProofBatch>)
    requires HaveHeads(b.entries) && IndexOk(s.table)
    ensures SaveAppliedBlock(s, b, receipts, version, chainId, cacheBlocks, genesisBlockHash, batch).Ok? <==>
              && (forall i :: 0 <= i < |b.entries| ==> b.entries[i].newLeaf.addr in receipts)
              && (forall a :: a in receipts ==> exists i :: 0 <= i < |b.entries| && b.entries[i].newLeaf.addr == a)
              && b.header.height !in s.blocks
              && (forall h :: h in s.blocks ==> s.blocks[h].blockHash != b.blockHash)
              && UpsertAll(s.table, ReceiptRows(b.entries, receipts), batch).Some?
  {
    hide UpsertAll, DropBelow, BatchesFrom, ReceiptRows;
  }

  // ----- Compacting and expanding a proof

  /** A receipt is stored with a reference exactly if the batch, under its root, reproduces its proof for the sender's key. */
  lemma CompactDecides(receipt: Receipt, sender: Address, batch: Option<ProofBatch>)
    requires receipt.proof.Single?
    ensures var r := CompactReceipt(receipt, sender, batch);
            && (r.proof.Batched? <==>
                  batch.Some? && batch.value.stateRoot == receipt.header.stateRoot && |sender.key| == batch.value.multiProof.depth &&
                  Materialize(batch.value.multiProof, sender.key) == receipt.proof.proof)
            && r == receipt.(proof := if r.proof.Batched? then Batched(batch.value.batchId, sender.key) else receipt.proof)
  {
  }

  /** A stored receipt comes back with a proof of its own exactly if it has one, or a batch with its root and key length is found. */
  lemma MaterializeDecides(receipt: Receipt, batch: Option<ProofBatch>)
    ensures var r := MaterializeReceipt(receipt, batch);
            && r == receipt.(proof := r.proof)
            && (r.proof.Single? <==>
                  || receipt.proof.Single?
                  || (batch.Some? && batch.value.stateRoot == receipt.header.stateRoot
                      && |receipt.proof.key| == batch.value.multiProof.depth))
            && (r.proof.Single? && receipt.proof.Batched? ==>
                  r.proof == Single(Materialize(batch.value.multiProof, receipt.proof.key)))
  {
  }

  // ----- Loading a chain

  /** The keys in rising order, each once. */
  ghost predicate InOrder(keys: set<nat>, order: seq<nat>) {
    && (forall i, j :: 0 <= i < j < |order| ==> order[i] < order[j])
    && forall k :: k in keys <==> k in order
  }

  function BlocksAt(table: map<nat, Block>, order: seq<nat>): seq<Block>
    requires forall h :: h in order ==> h in table
  {
    seq(|order|, i requires 0 <= i < |order| && order[i] in order && order[i] in table => table[order[i]])
  }

  /** Listing the blocks lists them by rising height. */
  lemma {:induction false} ListedInOrder(table: map<nat, Block>, order: seq<nat>)
    requires InOrder(table.Keys, order)
    ensures ListBlocks(table) == BlocksAt(table, order)
    decreases |order|
  {
    if order == [] {
      assert table.Keys == {};
    } else {
      hide ListBlocks, BlocksAt, InOrder;
      var first, rest := order[0], order[1..];
      FirstIsLowest(table.Keys, order);
      LowestFirst(table, first);
      RestInOrder(table.Keys, order);
      assert (table - {first}).Keys == table.Keys - {first};
      ListedInOrder(table - {first}, rest);
      RestOfBlocks(table, order);
    }
  }

  lemma FirstIsLowest(keys: set<nat>, order: seq<nat>)
    requires InOrder(keys, order) && order != []
    ensures IsLowest(order[0], keys)
  {
    assert order[0] in order;
    forall k | k in keys ensures order[0] <= k {
      var i :| 0 <= i < |order| && order[i] == k;
    }
  }

  lemma RestOfBlocks(table: map<nat, Block>, order: seq<nat>)
    requires InOrder(table.Keys, order) && order != [] && InOrder((table - {order[0]}).Keys, order[1..])
    ensures BlocksAt(table, order) == [table[order[0]]] + BlocksAt(table - {order[0]}, order[1..])
  {
    var all, rest := BlocksAt(table, order), BlocksAt(table - {order[0]}, order[1..]);
    forall i | 0 <= i < |all| ensures all[i] == ([table[order[0]]] + rest)[i] {
      assert i > 0 ==> order[i] == order[1..][i - 1] && order[i] in order[1..];
    }
  }

  lemma RestInOrder(keys: set<nat>, order: seq<nat>)
    requires InOrder(keys, order) && order != []
    ensures InOrder(keys - {order[0]}, order[1..])
  {
    var rest := order[1..];
    forall k ensures k in keys - {order[0]} <==> k in rest {
      if k in rest {
        var i :| 0 <= i < |rest| && rest[i] == k;
        assert order[i + 1] == k && order[0] < order[i + 1];
      }
      assert order == [order[0]] + rest;
    }
  }

  /**
    A store with metadata is loaded exactly if version and chain id are the configured ones, the stored blocks apply in
    the order of their heights, and the chain they make has the height, hash and root of the metadata.
   */
  lemma {:induction false} LoadDecides(
      s: Store, config: ChainConfig, cacheBlocks: nat, genesisBlockHash: Hash, order: seq<nat>, c: ChainState)
    requires s.metadata.Some? && InOrder(s.blocks.Keys, order)
    ensures var m := s.metadata.value;
            LoadChainState(s, config, cacheBlocks, genesisBlockHash) == Ok(c) <==>
              && m.version == config.version && m.chainId == config.ChainId()
              && ReplayBlocks(InitialChain(config, m.genesisBlockHash, AtLeastOne(m.cacheBlocks)), BlocksAt(s.blocks, order)) == Ok(c)
              && c.height == m.height && c.blockHash == m.blockHash && Root(TREE_DEPTH, c.tree) == m.stateRoot
  {
    hide ReplayBlocks, ListBlocks, BlocksAt, Root, InitialChain;
    ListedInOrder(s.blocks, order);
  }
}

/** The persistent store of blocks, receipts and proof batches, and its agreement with the in-memory window. */
module ConsensusStores {
  import opened Prelude
  import opened Types
  import opened Ledger
  import opened SparseMerkle
  import opened ReceiptCaches
  import opened Chains

  // ----- Compact receipts

  /** Replaces a proof that the batch reproduces by a reference to the batch. */
  function CompactReceipt(receipt: Receipt, sender: Address, batch: Option<ProofBatch>): Receipt {
    if receipt.proof.Batched? || batch.None? then receipt
    else if batch.value.stateRoot != receipt.header.stateRoot then receipt
    else if |AddrKey(sender)| != batch.value.multiProof.depth then receipt
    else if Materialize(batch.value.multiProof, AddrKey(sender)) != receipt.proof.proof then receipt
    else receipt.(proof := Batched(batch.value.batchId, AddrKey(sender)))
  }

  /** Expands a batch reference back into a proof, when the batch was found. */
  function MaterializeReceipt(receipt: Receipt, batch: Option<ProofBatch>): Receipt {
    if receipt.proof.Single? || batch.None? then receipt
    else if batch.value.stateRoot != receipt.header.stateRoot then receipt
    else if |receipt.proof.key| != batch.value.multiProof.depth then receipt
    else receipt.(proof := Single(Materialize(batch.value.multiProof, receipt.proof.key)))
  }

  /** Compacting and expanding with the same batch gives a receipt with its own proof back. */
  lemma CompactThenMaterialize(receipt: Receipt, sender: Address, batch: ProofBatch)
    requires receipt.proof.Single?
    ensures MaterializeReceipt(CompactReceipt(receipt, sender, Some(batch)), Some(batch)) == receipt
    ensures CompactReceipt(receipt, sender, Some(batch)).proof.Batched? ==>
              CompactReceipt(receipt, sender, Some(batch)).proof.batchId == batch.batchId
  {
  }

  // ----- The tables

  datatype Row = Row(height: nat, ref: BundleRef, receipt: Receipt)

  datatype BatchRow = BatchRow(height: nat, batch: ProofBatch)

  datatype Metadata = Metadata(
    version: nat, chainId: nat, cacheBlocks: nat, genesisBlockHash: Hash, height: nat, blockHash: Hash, stateRoot: Hash)

  /** The receipt rows by account sequence number, with the index of their unique reference column. */
  datatype RowTable = RowTable(rows: map<(Address, nat), Row>, byRef: map<BundleRef, (Address, nat)>)

  datatype Store = Store(
    metadata: Option<Metadata>,
    blocks: map<nat, Block>,
    table: RowTable,
    batches: map<BatchId, BatchRow>)
  {
    function BatchOf(receipt: Receipt): Option<ProofBatch> {
      if receipt.proof.Batched? && receipt.proof.batchId in batches then Some(batches[receipt.proof.batchId].batch) else None
    }

    function GetReceipt(sender: Address, seqNo: nat): Option<Receipt> {
      if (sender, seqNo) !in table.rows then None
      else
        var receipt := table.rows[(sender, seqNo)].receipt;
        Some(MaterializeReceipt(receipt, BatchOf(receipt)))
    }

    function GetReceiptByRef(ref: BundleRef): Option<Receipt> {
      if ref in table.byRef then GetReceipt(table.byRef[ref].0, table.byRef[ref].1) else None
    }
  }

  const EMPTY_STORE := Store(None, map[], RowTable(map[], map[]), map[])

  datatype StoreError = MissingReceipts | UnknownSender | IntegrityError

  /** Inserts or replaces a row; a reference already used by another row violates the unique column. */
  function Upsert(t: RowTable, key: (Address, nat), row: Row): Option<RowTable> {
    if row.ref in t.byRef && t.byRef[row.ref] != key then None
    else
      var index := if key in t.rows then t.byRef - {t.rows[key].ref} else t.byRef;
      Some(RowTable(t.rows[key := row], index[row.ref := key]))
  }

  function RowOf(e: Emission, batch: Option<ProofBatch>): Row {
    Row(e.Height(), e.ref, CompactReceipt(e.receipt, e.sender, batch))
  }

  function UpsertAll(t: RowTable, emissions: seq<Emission>, batch: Option<ProofBatch>): Option<RowTable> {
    if emissions == [] then Some(t)
    else
      var before, last := UpsertAll(t, emissions[..|emissions| - 1], batch), emissions[|emissions| - 1];
      if before.None? then None else Upsert(before.value, last.SeqKey(), RowOf(last, batch))
  }

  function RowsFrom(rows: map<(Address, nat), Row>, minHeight: nat): map<(Address, nat), Row> {
    map k | k in rows && rows[k].height >= minHeight :: rows[k]
  }

  /** Deletes the rows below a height. */
  function DropBelow(t: RowTable, minHeight: nat): RowTable {
    RowTable(RowsFrom(t.rows, minHeight),
             map r | r in t.byRef && t.byRef[r] in t.rows && t.rows[t.byRef[r]].height >= minHeight :: t.byRef[r])
  }

  function BatchesFrom(batches: map<BatchId, BatchRow>, minHeight: nat): map<BatchId, BatchRow> {
    map id | id in batches && batches[id].height >= minHeight :: batches[id]
  }

  function MinHeight(height: nat, cacheBlocks: nat): nat {
    if height < cacheBlocks then 1 else height - cacheBlocks + 1
  }

  predicate HasBlockHash(blocks: map<nat, Block>, hash: Hash) {
    exists h :: h in blocks && blocks[h].blockHash == hash
  }

  /** The receipts to persist, in entry order. */
  function ReceiptRows(entries: seq<DiffEntry>, receipts: map<Address, Receipt>): (rows: seq<Emission>)
    requires HaveHeads(entries) && forall i :: 0 <= i < |entries| ==> entries[i].newLeaf.addr in receipts
    ensures |rows| == |entries|
  {
    seq(|entries|, i requires 0 <= i < |entries| && HaveHeads(entries) && entries[i].newLeaf.addr in receipts =>
      Emission(entries[i].newLeaf.addr, receipts[entries[i].newLeaf.addr], entries[i].newLeaf.headRef.value))
  }

  predicate NamesSender(entries: seq<DiffEntry>, addr: Address) {
    exists i :: 0 <= i < |entries| && entries[i].newLeaf.addr == addr
  }

  /** One transaction: the block, its batch, its receipts, the pruning and the metadata, or nothing at all. */
  function SaveRows(
      s: Store, b: Block, rows: seq<Emission>, version: nat, chainId: nat, cacheBlocks: nat, genesisBlockHash: Hash,
      batch: Option<ProofBatch>): Result<Store, StoreError>
  {
    var table := UpsertAll(s.table, rows, batch);
    if b.header.height in s.blocks || HasBlockHash(s.blocks, b.blockHash) || table.None? then Err(IntegrityError)
    else
      var min := MinHeight(b.header.height, cacheBlocks);
      var batches := if batch.Some? then s.batches[batch.value.batchId := BatchRow(b.header.height, batch.value)] else s.batches;
      Ok(Store(
        Some(Metadata(version, chainId, cacheBlocks, genesisBlockHash, b.header.height, b.blockHash, b.header.stateRoot)),
        s.blocks[b.header.height := b],
        DropBelow(table.value, min),
        BatchesFrom(batches, min)))
  }

  function SaveAppliedBlock(
      s: Store, b: Block, receipts: map<Address, Receipt>, version: nat, chainId: nat, cacheBlocks: nat,
      genesisBlockHash: Hash, batch: Option<ProofBatch>): Result<Store, StoreError>
    requires HaveHeads(b.entries)
  {
    if exists i :: 0 <= i < |b.entries| && b.entries[i].newLeaf.addr !in receipts then Err(MissingReceipts)
    else if exists a :: a in receipts && !NamesSender(b.entries, a) then Err(UnknownSender)
    else SaveRows(s, b, ReceiptRows(b.entries, receipts), version, chainId, cacheBlocks, genesisBlockHash, batch)
  }

  // ----- What the tables hold

  /** The reference index and the rows are inverse to each other. */
  ghost predicate IndexOk(t: RowTable) {
    && (forall k :: k in t.rows ==> t.rows[k].ref in t.byRef && t.byRef[t.rows[k].ref] == k)
    && (forall r :: r in t.byRef ==> t.byRef[r] in t.rows && t.rows[t.byRef[r]].ref == r)
  }

  function BatchAt(log: seq<BlockLog>, height: nat): Option<ProofBatch> {
    if 1 <= height <= |log| then Some(log[height - 1].batch) else None
  }

  /** Exactly the receipts above `low` have a row, compacted with their block's batch. */
  ghost predicate HoldsRows(rows: map<(Address, nat), Row>, log: seq<BlockLog>, low: nat) {
    && (forall e {:trigger Emitted(log, low, e)} :: Emitted(log, low, e) ==>
          e.SeqKey() in rows && rows[e.SeqKey()] == RowOf(e, BatchAt(log, e.Height())))
    && (forall k {:trigger rows[k]} :: k in rows ==>
          low < rows[k].height <= |log| && HasSeq(log[rows[k].height - 1].emissions, k))
  }

  ghost predicate HoldsBatchRows(batches: map<BatchId, BatchRow>, log: seq<BlockLog>, low: nat) {
    forall h {:trigger BatchAt(log, h)} :: low < h <= |log| ==>
      var batch := BatchAt(log, h).value;
      batch.batchId in batches && batches[batch.batchId] == BatchRow(h, batch)
  }

  ghost predicate EmitsAtOwnHeight(log: seq<BlockLog>) {
    forall i, e {:trigger e in log[i].emissions} :: 0 <= i < |log| && e in log[i].emissions ==> e.Height() == i + 1
  }

  lemma UpsertKeepsIndex(t: RowTable, key: (Address, nat), row: Row)
    requires IndexOk(t) && Upsert(t, key, row).Some?
    ensures IndexOk(Upsert(t, key, row).value)
  {
  }

  lemma DropKeepsIndex(t: RowTable, minHeight: nat)
    requires IndexOk(t)
    ensures IndexOk(DropBelow(t, minHeight))
  {
  }

  lemma FindRow(rows: map<(Address, nat), Row>, log: seq<BlockLog>, low: nat, key: (Address, nat)) returns (e: Emission)
    requires HoldsRows(rows, log, low) && key in rows && EmitsAtOwnHeight(log)
    ensures Emitted(log, 0, e) && Emitted(log, low, e) && e.SeqKey() == key
    ensures rows[key] == RowOf(e, BatchAt(log, e.Height()))
  {
    var h := rows[key].height;
    HasSeqMeans(log[h - 1].emissions, key);
    e :| e in log[h - 1].emissions && e.SeqKey() == key;
    assert Emitted(log, low, e);
  }

  /** Among the emissions of a distinct log the reference of a new one is not in use. */
  lemma RefIsFree(
      rows: map<(Address, nat), Row>, log: seq<BlockLog>, longer: seq<BlockLog>, low: nat, e: Emission,
      key: (Address, nat))
    requires LogDistinct(longer) && OneMore(log, longer, low, e) && HoldsRows(rows, log, low) && EmitsAtOwnHeight(log)
    requires key in rows && rows[key].ref == e.ref
    ensures key == e.SeqKey()
  {
    var f := FindRow(rows, log, low, key);
    assert Emitted(longer, low, f) && Emitted(longer, low, e);
    assert Emitted(longer, 0, f) && Emitted(longer, 0, e);
  }

  lemma UpsertedRows(rows: map<(Address, nat), Row>, log: seq<BlockLog>, longer: seq<BlockLog>, low: nat, e: Emission)
    requires LogDistinct(longer) && OneMore(log, longer, low, e) && HoldsRows(rows, log, low)
    requires forall h: nat :: h <= |log| ==> BatchAt(longer, h) == BatchAt(log, h)
    ensures HoldsRows(rows[e.SeqKey() := RowOf(e, BatchAt(longer, e.Height()))], longer, low)
  {
    var more := rows[e.SeqKey() := RowOf(e, BatchAt(longer, e.Height()))];
    assert Emitted(longer, low, e);
    forall x {:trigger Emitted(longer, low, x)} | Emitted(longer, low, x)
      ensures x.SeqKey() in more && more[x.SeqKey()] == RowOf(x, BatchAt(longer, x.Height()))
    {
      assert Emitted(longer, 0, x) && Emitted(longer, 0, e);
    }
    forall k | k in more
      ensures low < more[k].height <= |longer| && HasSeq(longer[more[k].height - 1].emissions, k)
    {
      HasSeqMeans(longer[more[k].height - 1].emissions, k);
      if k != e.SeqKey() {
        HasSeqMeans(log[more[k].height - 1].emissions, k);
      }
    }
  }

  /** One more receipt of the block can always be upserted. */
  lemma UpsertKeepsRows(t: RowTable, log: seq<BlockLog>, longer: seq<BlockLog>, low: nat, e: Emission)
    requires IndexOk(t) && HoldsRows(t.rows, log, low) && EmitsAtOwnHeight(log)
    requires LogDistinct(longer) && OneMore(log, longer, low, e)
    requires forall h: nat :: h <= |log| ==> BatchAt(longer, h) == BatchAt(log, h)
    ensures var u := Upsert(t, e.SeqKey(), RowOf(e, BatchAt(longer, e.Height())));
            u.Some? && IndexOk(u.value) && HoldsRows(u.value.rows, longer, low)
  {
    if e.ref in t.byRef {
      RefIsFree(t.rows, log, longer, low, e, t.byRef[e.ref]);
    }
    UpsertKeepsIndex(t, e.SeqKey(), RowOf(e, BatchAt(longer, e.Height())));
    UpsertedRows(t.rows, log, longer, low, e);
  }

  lemma HeightsAreOwn(log: seq<BlockLog>)
    requires LogHeights(log)
    ensures EmitsAtOwnHeight(log)
  {
  }

  lemma {:induction false} FirstRow(t: RowTable, log: seq<BlockLog>, low: nat, e: Emission, batch: ProofBatch)
    requires IndexOk(t) && HoldsRows(t.rows, log, low) && LogHeights(log) && low <= |log|
    requires LogHeights(log + [BlockLog([e], batch)]) && LogDistinct(log + [BlockLog([e], batch)])
    ensures var u := UpsertAll(t, [e], Some(batch));
            u.Some? && IndexOk(u.value) && HoldsRows(u.value.rows, log + [BlockLog([e], batch)], low)
  {
    var longer := log + [BlockLog([e], batch)];
    assert longer[|log|] == BlockLog([e], batch) && e in longer[|log|].emissions;
    HeightsAreOwn(log);
    NewBlockIsOneMore(log, low, e, batch);
    UpsertKeepsRows(t, log, longer, low, e);
    assert [e][..0] == [];
  }

  lemma NextRow(t: RowTable, log: seq<BlockLog>, low: nat, emissions: seq<Emission>, e: Emission, batch: ProofBatch)
    requires low <= |log| && IndexOk(t) && HoldsRows(t.rows, log + [BlockLog(emissions, batch)], low)
    requires LogHeights(log + [BlockLog(emissions, batch)])
    requires LogHeights(log + [BlockLog(emissions + [e], batch)]) && LogDistinct(log + [BlockLog(emissions + [e], batch)])
    ensures var u := Upsert(t, e.SeqKey(), RowOf(e, Some(batch)));
            u.Some? && IndexOk(u.value) && HoldsRows(u.value.rows, log + [BlockLog(emissions + [e], batch)], low)
  {
    var shorter, longer := log + [BlockLog(emissions, batch)], log + [BlockLog(emissions + [e], batch)];
    assert longer[|log|] == BlockLog(emissions + [e], batch) && e in longer[|log|].emissions;
    HeightsAreOwn(shorter);
    LongerBlockIsOneMore(log, low, emissions, e, batch);
    UpsertKeepsRows(t, shorter, longer, low, e);
  }

  /** All receipts of a new block can be upserted, and then have their rows. */
  lemma {:induction false} BlockRows(
      t: RowTable, log: seq<BlockLog>, low: nat, emissions: seq<Emission>, batch: ProofBatch)
    requires IndexOk(t) && HoldsRows(t.rows, log, low) && LogHeights(log) && low <= |log| && emissions != []
    requires LogHeights(log + [BlockLog(emissions, batch)]) && LogDistinct(log + [BlockLog(emissions, batch)])
    ensures var u := UpsertAll(t, emissions, Some(batch));
            u.Some? && IndexOk(u.value) && HoldsRows(u.value.rows, log + [BlockLog(emissions, batch)], low)
    decreases |emissions|
  {
    var last := |emissions| - 1;
    if last == 0 {
      assert emissions == [emissions[0]];
      FirstRow(t, log, low, emissions[0], batch);
    } else {
      var init := emissions[..last];
      assert emissions == init + [emissions[last]];
      ShorterLastBlock(log, emissions, batch, last);
      BlockRows(t, log, low, init, batch);
      NextRow(UpsertAll(t, init, Some(batch)).value, log, low, init, emissions[last], batch);
    }
  }

  /** Deleting below a height keeps exactly the rows of the later blocks. */
  lemma DropKeepsRows(rows: map<(Address, nat), Row>, log: seq<BlockLog>, low: nat, low': nat)
    requires HoldsRows(rows, log, low) && low <= low'
    ensures HoldsRows(RowsFrom(rows, low' + 1), log, low')
  {
    forall e {:trigger Emitted(log, low', e)} | Emitted(log, low', e) ensures Emitted(log, low, e) {
    }
  }

  lemma NewBatchRow(batches: map<BatchId, BatchRow>, log: seq<BlockLog>, low: nat, low': nat, block: BlockLog)
    requires HoldsBatchRows(batches, log, low) && low <= low' && LogHeights(log + [block])
    ensures HoldsBatchRows(BatchesFrom(batches[block.batch.batchId := BatchRow(|log| + 1, block.batch)], low' + 1),
                           log + [block], low')
  {
    var longer := log + [block];
    forall h {:trigger BatchAt(longer, h)} | low' < h <= |longer|
      ensures var batch := BatchAt(longer, h).value;
              && (h <= |log| ==> BatchAt(longer, h) == BatchAt(log, h) && batch.batchId != block.batch.batchId)
              && (h == |longer| ==> batch == block.batch)
    {
      assert longer[h - 1].batch.batchId.height == h && longer[|log|].batch.batchId.height == |log| + 1;
    }
  }

  // ----- The answers

  /** Every receipt emitted carries its own proof. */
  ghost predicate OwnProofs(log: seq<BlockLog>) {
    forall e {:trigger Emitted(log, 0, e)} :: Emitted(log, 0, e) ==> e.receipt.proof.Single?
  }

  ghost predicate HoldsStore(s: Store, log: seq<BlockLog>, low: nat) {
    IndexOk(s.table) && HoldsRows(s.table.rows, log, low) && HoldsBatchRows(s.batches, log, low)
  }

  /** A receipt with a row is read back as it was emitted. */
  lemma StoredRow(s: Store, log: seq<BlockLog>, low: nat, e: Emission)
    requires HoldsStore(s, log, low) && OwnProofs(log) && Emitted(log, low, e)
    ensures s.GetReceipt(e.sender, e.receipt.seqNo) == Some(e.receipt)
    ensures s.GetReceiptByRef(e.ref) == Some(e.receipt)
  {
    assert Emitted(log, 0, e);
    var batch := BatchAt(log, e.Height()).value;
    CompactThenMaterialize(e.receipt, e.sender, batch);
    assert s.table.rows[e.SeqKey()] == RowOf(e, Some(batch));
  }

  /** The store and the in-memory window give the same answer to every question. */
  lemma StoreAnswersLikeWindow(s: Store, c: CacheState, log: seq<BlockLog>, sender: Address, seqNo: nat, ref: BundleRef)
    requires HoldsWindow(c, log) && OwnProofs(log) && HoldsStore(s, log, WindowLow(|log|, c.maxBlocks))
    ensures s.GetReceipt(sender, seqNo) == c.GetReceipt(sender, seqNo)
    ensures s.GetReceiptByRef(ref) == c.GetReceiptByRef(ref)
  {
    SameAnswerBySeq(s, c, log, sender, seqNo);
    SameAnswerByRef(s, c, log, ref);
  }

  lemma SameAnswerBySeq(s: Store, c: CacheState, log: seq<BlockLog>, sender: Address, seqNo: nat)
    requires HoldsWindow(c, log) && OwnProofs(log) && HoldsStore(s, log, WindowLow(|log|, c.maxBlocks))
    ensures s.GetReceipt(sender, seqNo) == c.GetReceipt(sender, seqNo)
  {
    var low := WindowLow(|log|, c.maxBlocks);
    if c.GetReceipt(sender, seqNo).Some? {
      var e := FoundBySeqWasEmitted(c, log, sender, seqNo);
      StoredRow(s, log, low, e);
    } else if (sender, seqNo) in s.table.rows {
      HeightsAreOwn(log);
      var e := FindRow(s.table.rows, log, low, (sender, seqNo));
      WindowAnswersBySeq(c, log, e);
      assert false;
    }
  }

  lemma SameAnswerByRef(s: Store, c: CacheState, log: seq<BlockLog>, ref: BundleRef)
    requires HoldsWindow(c, log) && OwnProofs(log) && HoldsStore(s, log, WindowLow(|log|, c.maxBlocks))
    ensures s.GetReceiptByRef(ref) == c.GetReceiptByRef(ref)
  {
    var low := WindowLow(|log|, c.maxBlocks);
    if c.GetReceiptByRef(ref).Some? {
      var e := FoundByRefWasEmitted(c, log, ref);
      StoredRow(s, log, low, e);
    } else if ref in s.table.byRef {
      HeightsAreOwn(log);
      var e := FindRow(s.table.rows, log, low, s.table.byRef[ref]);
      WindowAnswersByRef(c, log, e);
      assert false;
    }
  }

  /** The tables after one more block, before the old ones are dropped and after. */
  lemma SavedTables(s: Store, log: seq<BlockLog>, low: nat, low': nat, block: BlockLog)
    requires HoldsStore(s, log, low) && LogHeights(log) && low <= |log| && low <= low'
    requires LogHeights(log + [block]) && LogDistinct(log + [block])
    ensures var t := UpsertAll(s.table, block.emissions, Some(block.batch));
            && t.Some?
            && IndexOk(DropBelow(t.value, low' + 1))
            && HoldsRows(DropBelow(t.value, low' + 1).rows, log + [block], low')
  {
    assert (log + [block])[|log|] == block;
    assert block == BlockLog(block.emissions, block.batch);
    BlockRows(s.table, log, low, block.emissions, block.batch);
    var t := UpsertAll(s.table, block.emissions, Some(block.batch)).value;
    DropKeepsIndex(t, low' + 1);
    DropKeepsRows(t.rows, log + [block], low, low');
  }

  lemma MinHeightIsWindow(height: nat, cacheBlocks: positive)
    requires height > 0
    ensures MinHeight(height, cacheBlocks) == WindowLow(height, cacheBlocks) + 1
    ensures WindowLow(height - 1, cacheBlocks) <= WindowLow(height, cacheBlocks)
  {
  }

  lemma SavedFields(
      s: Store, b: Block, rows: seq<Emission>, version: nat, chainId: nat, cacheBlocks: nat, genesisBlockHash: Hash,
      batch: ProofBatch, t: RowTable, min: nat) returns (after: Store)
    requires UpsertAll(s.table, rows, Some(batch)) == Some(t) && min == MinHeight(b.header.height, cacheBlocks)
    requires b.header.height !in s.blocks && !HasBlockHash(s.blocks, b.blockHash)
    ensures SaveRows(s, b, rows, version, chainId, cacheBlocks, genesisBlockHash, Some(batch)) == Ok(after)
    ensures after.table == DropBelow(t, min)
    ensures after.batches == BatchesFrom(s.batches[batch.batchId := BatchRow(b.header.height, batch)], min)
  {
    after := SaveRows(s, b, rows, version, chainId, cacheBlocks, genesisBlockHash, Some(batch)).value;
  }

  /** Saving one more emitted block: never refused, and the tables hold the window that ends with it. */
  lemma SaveKeepsStore(
      s: Store, log: seq<BlockLog>, longer: seq<BlockLog>, b: Block, block: BlockLog, version: nat, chainId: nat,
      cacheBlocks: positive, genesisBlockHash: Hash) returns (after: Store)
    requires longer == log + [block] && LogHeights(log) && LogHeights(longer) && LogDistinct(longer)
    requires HoldsStore(s, log, WindowLow(|log|, cacheBlocks))
    requires b.header.height == |log| + 1 && b.header.height !in s.blocks && !HasBlockHash(s.blocks, b.blockHash)
    ensures SaveRows(s, b, block.emissions, version, chainId, cacheBlocks, genesisBlockHash, Some(block.batch)) == Ok(after)
    ensures HoldsStore(after, longer, WindowLow(|longer|, cacheBlocks))
  {
    hide HoldsStore, SaveRows, UpsertAll;
    var low' := WindowLow(|longer|, cacheBlocks);
    MinHeightIsWindow(|longer|, cacheBlocks);
    var t := SavedContents(s, log, longer, WindowLow(|log|, cacheBlocks), low', block);
    after := SavedFields(s, b, block.emissions, version, chainId, cacheBlocks, genesisBlockHash, block.batch, t, low' + 1);
  }

  lemma SavedContents(s: Store, log: seq<BlockLog>, longer: seq<BlockLog>, low: nat, low': nat, block: BlockLog)
      returns (t: RowTable)
    requires longer == log + [block] && LogHeights(log) && LogHeights(longer) && LogDistinct(longer)
    requires HoldsStore(s, log, low) && low <= |log| && low <= low'
    ensures UpsertAll(s.table, block.emissions, Some(block.batch)) == Some(t)
    ensures forall after: Store {:trigger HoldsStore(after, longer, low')} ::
              && after.table == DropBelow(t, low' + 1)
              && after.batches == BatchesFrom(s.batches[block.batch.batchId := BatchRow(|longer|, block.batch)], low' + 1)
              ==> HoldsStore(after, longer, low')
  {
    SavedTables(s, log, low, low', block);
    NewBatchRow(s.batches, log, low, low', block);
    t := UpsertAll(s.table, block.emissions, Some(block.batch)).value;
  }
}

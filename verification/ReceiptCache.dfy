/** The chain's in-memory receipt window: receipts and proof batches of the most recent block heights. */
module ReceiptCaches {
  import opened Prelude
  import opened Types

  /** One receipt as a block emits it, with its sender and the reference of its bundle. */
  datatype Emission = Emission(sender: Address, receipt: Receipt, ref: BundleRef) {
    function SeqKey(): (Address, nat) {
      (sender, receipt.seqNo)
    }

    function Height(): nat {
      receipt.header.height
    }
  }

  datatype CacheState = CacheState(
    maxBlocks: positive,
    byHeight: map<nat, seq<Emission>>,
    bySeq: map<(Address, nat), Receipt>,
    byRef: map<BundleRef, Receipt>,
    batchesByHeight: map<nat, seq<BatchId>>,
    batches: map<BatchId, ProofBatch>)
  {
    function GetReceipt(sender: Address, seqNo: nat): Option<Receipt> {
      Lookup(bySeq, (sender, seqNo))
    }

    function GetReceiptByRef(ref: BundleRef): Option<Receipt> {
      Lookup(byRef, ref)
    }
  }

  function EmptyCache(maxBlocks: positive): CacheState {
    CacheState(maxBlocks, map[], map[], map[], map[], map[])
  }

  function SeqKeys(emissions: seq<Emission>): set<(Address, nat)> {
    set e | e in emissions :: e.SeqKey()
  }

  function Refs(emissions: seq<Emission>): set<BundleRef> {
    set e | e in emissions :: e.ref
  }

  function ItemsOf<T>(s: seq<T>): set<T> {
    set x | x in s
  }

  function At<T>(m: map<nat, seq<T>>, height: nat): seq<T> {
    if height in m then m[height] else []
  }

  predicate IsLowest(h: nat, heights: set<nat>) {
    h in heights && forall k :: k in heights ==> h <= k
  }

  lemma {:induction false} LowestExists(heights: set<nat>)
    requires heights != {}
    ensures exists h :: IsLowest(h, heights)
    decreases |heights|
  {
    var x :| x in heights;
    var rest := heights - {x};
    assert heights == rest + {x};
    if rest == {} {
      assert IsLowest(x, heights);
    } else {
      LowestExists(rest);
      var m :| IsLowest(m, rest);
      assert IsLowest(if x < m then x else m, heights);
    }
  }

  function Lowest(heights: set<nat>): (h: nat)
    requires heights != {}
    ensures IsLowest(h, heights)
  {
    LowestExists(heights);
    var h :| h in heights && IsLowest(h, heights);
    h
  }

  /** Forgets everything recorded for one height. */
  function DropHeight(c: CacheState, height: nat): CacheState {
    c.(byHeight := c.byHeight - {height},
       bySeq := c.bySeq - SeqKeys(At(c.byHeight, height)),
       byRef := c.byRef - Refs(At(c.byHeight, height)),
       batchesByHeight := c.batchesByHeight - {height},
       batches := c.batches - ItemsOf(At(c.batchesByHeight, height)))
  }

  function Pruned(c: CacheState): CacheState
    decreases |c.byHeight|
  {
    if |c.byHeight| <= c.maxBlocks then c
    else
      assert c.byHeight.Keys != {};
      Pruned(DropHeight(c, Lowest(c.byHeight.Keys)))
  }

  function RecordReceipt(c: CacheState, e: Emission): CacheState {
    var height := e.receipt.header.height;
    c.(bySeq := c.bySeq[e.SeqKey() := e.receipt],
       byRef := c.byRef[e.ref := e.receipt],
       byHeight := c.byHeight[height := At(c.byHeight, height) + [e]])
  }

  function RecordBatch(c: CacheState, height: nat, batch: ProofBatch): CacheState {
    var ids := At(c.batchesByHeight, height);
    c.(batches := c.batches[batch.batchId := batch],
       batchesByHeight := c.batchesByHeight[height := if batch.batchId in ids then ids else ids + [batch.batchId]])
  }

  function WithReceipt(c: CacheState, e: Emission): CacheState {
    Pruned(RecordReceipt(c, e))
  }

  function WithBatch(c: CacheState, height: nat, batch: ProofBatch): CacheState {
    Pruned(RecordBatch(c, height, batch))
  }

  function WithReceipts(c: CacheState, emissions: seq<Emission>): CacheState {
    if emissions == [] then c
    else WithReceipt(WithReceipts(c, emissions[..|emissions| - 1]), emissions[|emissions| - 1])
  }

  // ----- The mutable cache

  class ReceiptCache {
    const maxBlocks: positive
    var byHeight: map<nat, seq<Emission>>
    var bySeq: map<(Address, nat), Receipt>
    var byRef: map<BundleRef, Receipt>
    var batchesByHeight: map<nat, seq<BatchId>>
    var batches: map<BatchId, ProofBatch>

    function State(): CacheState reads this {
      CacheState(maxBlocks, byHeight, bySeq, byRef, batchesByHeight, batches)
    }

    /** A window of fewer than one block is widened to one. */
    constructor (maxBlocks: int)
      ensures State() == EmptyCache(if maxBlocks < 1 then 1 else maxBlocks)
    {
      this.maxBlocks := if maxBlocks < 1 then 1 else maxBlocks;
      byHeight, bySeq, byRef, batchesByHeight, batches := map[], map[], map[], map[], map[];
    }

    method Prune()
      modifies this
      ensures State() == Pruned(old(State()))
    {
      while |byHeight| > maxBlocks
        invariant Pruned(State()) == Pruned(old(State()))
        decreases |byHeight|
      {
        assert byHeight.Keys != {};
        RemoveHeight(Lowest(byHeight.Keys));
      }
    }

    method RemoveHeight(height: nat)
      requires height in byHeight
      modifies this
      ensures State() == DropHeight(old(State()), height)
      ensures |byHeight| < |old(byHeight)|
    {
      DropReceipts(byHeight[height]);
      DropBatches(At(batchesByHeight, height));
      assert byHeight.Keys == (byHeight - {height}).Keys + {height};
      byHeight := byHeight - {height};
      batchesByHeight := batchesByHeight - {height};
    }

    method DropReceipts(emissions: seq<Emission>)
      modifies this`bySeq, this`byRef
      ensures bySeq == old(bySeq) - SeqKeys(emissions)
      ensures byRef == old(byRef) - Refs(emissions)
    {
      for i := 0 to |emissions|
        invariant bySeq == old(bySeq) - SeqKeys(emissions[..i])
        invariant byRef == old(byRef) - Refs(emissions[..i])
      {
        assert emissions[..i + 1] == emissions[..i] + [emissions[i]];
        bySeq := bySeq - {emissions[i].SeqKey()};
        byRef := byRef - {emissions[i].ref};
      }
      assert emissions[..|emissions|] == emissions;
    }

    method DropBatches(ids: seq<BatchId>)
      modifies this`batches
      ensures batches == old(batches) - ItemsOf(ids)
    {
      for i := 0 to |ids|
        invariant batches == old(batches) - ItemsOf(ids[..i])
      {
        assert ids[..i + 1] == ids[..i] + [ids[i]];
        batches := batches - {ids[i]};
      }
      assert ids[..|ids|] == ids;
    }

    method Add(sender: Address, receipt: Receipt, ref: BundleRef)
      modifies this
      ensures State() == WithReceipt(old(State()), Emission(sender, receipt, ref))
    {
      bySeq := bySeq[(sender, receipt.seqNo as nat) := receipt];
      byRef := byRef[ref := receipt];
      var height := receipt.header.height;
      byHeight := byHeight[height := At(byHeight, height) + [Emission(sender, receipt, ref)]];
      Prune();
    }

    method AddProofBatch(height: nat, batch: ProofBatch)
      modifies this
      ensures State() == WithBatch(old(State()), height, batch)
    {
      batches := batches[batch.batchId := batch];
      var ids := At(batchesByHeight, height);
      batchesByHeight := batchesByHeight[height := if batch.batchId in ids then ids else ids + [batch.batchId]];
      Prune();
    }
  }

  // ----- The window

  /** What one block puts into the cache; the block at height h is entry h - 1 of a log. */
  datatype BlockLog = BlockLog(emissions: seq<Emission>, batch: ProofBatch)

  /** The emission belongs to a block of the log above height `low`. */
  ghost predicate Emitted(log: seq<BlockLog>, low: nat, e: Emission) {
    low < e.Height() <= |log| && e in log[e.Height() - 1].emissions
  }

  /** Every block emits something, and at its own height. */
  ghost predicate LogHeights(log: seq<BlockLog>) {
    && (forall i :: 0 <= i < |log| ==> log[i].emissions != [] && log[i].batch.batchId.height == i + 1)
    && (forall i, e {:trigger e in log[i].emissions} ::
          0 <= i < |log| && e in log[i].emissions ==> e.Height() == i + 1)
  }

  /** No account sequence number and no bundle reference occurs twice. */
  ghost predicate LogDistinct(log: seq<BlockLog>) {
    forall e, f {:trigger Emitted(log, 0, e), Emitted(log, 0, f)} ::
      Emitted(log, 0, e) && Emitted(log, 0, f) && (e.SeqKey() == f.SeqKey() || e.ref == f.ref) ==> e == f
  }

  function WindowLow(size: nat, maxBlocks: nat): nat {
    if size <= maxBlocks then 0 else size - maxBlocks
  }

  ghost predicate KeysAre<V>(m: map<nat, V>, low: nat, high: nat) {
    forall h :: h in m <==> low < h <= high
  }

  lemma {:induction false} KeysCount(keys: set<nat>, low: nat, high: nat)
    requires low <= high && forall h :: h in keys <==> low < h <= high
    ensures |keys| == high - low
    decreases high
  {
    if low == high {
      assert keys == {};
    } else {
      KeysCount(keys - {high}, low, high - 1);
    }
  }

  ghost predicate HoldsHeights(
      byHeight: map<nat, seq<Emission>>, batchesByHeight: map<nat, seq<BatchId>>, log: seq<BlockLog>, low: nat)
  {
    && KeysAre(byHeight, low, |log|)
    && KeysAre(batchesByHeight, low, |log|)
    && forall i :: low <= i < |log| ==>
        byHeight[i + 1] == log[i].emissions && batchesByHeight[i + 1] == [log[i].batch.batchId]
  }

  /** Some emission in the list carries this account sequence number. */
  predicate HasSeq(emissions: seq<Emission>, key: (Address, nat)) {
    emissions != [] && (emissions[|emissions| - 1].SeqKey() == key || HasSeq(emissions[..|emissions| - 1], key))
  }

  /** Some emission in the list carries this bundle reference. */
  predicate HasRef(emissions: seq<Emission>, ref: BundleRef) {
    emissions != [] && (emissions[|emissions| - 1].ref == ref || HasRef(emissions[..|emissions| - 1], ref))
  }

  lemma {:induction false} HasSeqMeans(emissions: seq<Emission>, key: (Address, nat))
    ensures HasSeq(emissions, key) <==> key in SeqKeys(emissions)
  {
    if emissions != [] {
      var last := |emissions| - 1;
      HasSeqMeans(emissions[..last], key);
      assert emissions == emissions[..last] + [emissions[last]];
    }
  }

  lemma {:induction false} HasRefMeans(emissions: seq<Emission>, ref: BundleRef)
    ensures HasRef(emissions, ref) <==> ref in Refs(emissions)
  {
    if emissions != [] {
      var last := |emissions| - 1;
      HasRefMeans(emissions[..last], ref);
      assert emissions == emissions[..last] + [emissions[last]];
    }
  }

  ghost predicate HoldsSeqs(bySeq: map<(Address, nat), Receipt>, log: seq<BlockLog>, low: nat) {
    && (forall e :: Emitted(log, low, e) ==> e.SeqKey() in bySeq && bySeq[e.SeqKey()] == e.receipt)
    && (forall k :: k in bySeq ==>
          low < bySeq[k].header.height <= |log| && HasSeq(log[bySeq[k].header.height - 1].emissions, k))
  }

  ghost predicate HoldsRefs(byRef: map<BundleRef, Receipt>, log: seq<BlockLog>, low: nat) {
    && (forall e :: Emitted(log, low, e) ==> e.ref in byRef && byRef[e.ref] == e.receipt)
    && (forall r :: r in byRef ==>
          low < byRef[r].header.height <= |log| && HasRef(log[byRef[r].header.height - 1].emissions, r))
  }

  ghost predicate HoldsBatches(batches: map<BatchId, ProofBatch>, log: seq<BlockLog>, low: nat) {
    && (forall i :: low <= i < |log| ==>
          log[i].batch.batchId in batches && batches[log[i].batch.batchId] == log[i].batch)
    && (forall id :: id in batches ==> low < id.height <= |log| && id == log[id.height - 1].batch.batchId)
  }

  /** The cache holds exactly what the blocks above `low` emitted. */
  ghost predicate HoldsAbove(c: CacheState, log: seq<BlockLog>, low: nat) {
    && low <= |log|
    && HoldsHeights(c.byHeight, c.batchesByHeight, log, low)
    && HoldsSeqs(c.bySeq, log, low)
    && HoldsRefs(c.byRef, log, low)
    && HoldsBatches(c.batches, log, low)
  }

  /** The cache holds exactly the last `maxBlocks` blocks of a well-formed log. */
  ghost predicate HoldsWindow(c: CacheState, log: seq<BlockLog>) {
    && LogHeights(log) && LogDistinct(log)
    && HoldsAbove(c, log, WindowLow(|log|, c.maxBlocks))
  }

  lemma DroppedDoNotClash(log: seq<BlockLog>, low: nat, e: Emission)
    requires LogHeights(log) && LogDistinct(log) && low < |log| && Emitted(log, low + 1, e)
    ensures e.SeqKey() !in SeqKeys(log[low].emissions) && e.ref !in Refs(log[low].emissions)
  {
    if f :| f in log[low].emissions && (f.SeqKey() == e.SeqKey() || f.ref == e.ref) {
      assert Emitted(log, 0, f) && Emitted(log, 0, e);
      assert false;
    }
  }

  lemma DropLowestSeqs(bySeq: map<(Address, nat), Receipt>, log: seq<BlockLog>, low: nat)
    requires LogHeights(log) && LogDistinct(log) && low < |log| && HoldsSeqs(bySeq, log, low)
    ensures HoldsSeqs(bySeq - SeqKeys(log[low].emissions), log, low + 1)
  {
    hide HasSeq;
    var kept := bySeq - SeqKeys(log[low].emissions);
    forall e | Emitted(log, low + 1, e)
      ensures e.SeqKey() in kept && kept[e.SeqKey()] == e.receipt
    {
      DroppedDoNotClash(log, low, e);
      assert Emitted(log, low, e);
    }
    forall k | k in kept ensures low + 1 < kept[k].header.height {
      HasSeqMeans(log[low].emissions, k);
    }
  }

  lemma DropLowestRefs(byRef: map<BundleRef, Receipt>, log: seq<BlockLog>, low: nat)
    requires LogHeights(log) && LogDistinct(log) && low < |log| && HoldsRefs(byRef, log, low)
    ensures HoldsRefs(byRef - Refs(log[low].emissions), log, low + 1)
  {
    hide HasRef;
    var kept := byRef - Refs(log[low].emissions);
    forall e | Emitted(log, low + 1, e)
      ensures e.ref in kept && kept[e.ref] == e.receipt
    {
      DroppedDoNotClash(log, low, e);
      assert Emitted(log, low, e);
    }
    forall r | r in kept ensures low + 1 < kept[r].header.height {
      HasRefMeans(log[low].emissions, r);
    }
  }

  lemma DropLowestHeights(
      byHeight: map<nat, seq<Emission>>, batchesByHeight: map<nat, seq<BatchId>>, log: seq<BlockLog>, low: nat)
    requires low < |log| && HoldsHeights(byHeight, batchesByHeight, log, low)
    ensures At(byHeight, low + 1) == log[low].emissions
    ensures At(batchesByHeight, low + 1) == [log[low].batch.batchId]
    ensures HoldsHeights(byHeight - {low + 1}, batchesByHeight - {low + 1}, log, low + 1)
  {
  }

  lemma DropLowestBatches(batches: map<BatchId, ProofBatch>, log: seq<BlockLog>, low: nat)
    requires LogHeights(log) && low < |log| && HoldsBatches(batches, log, low)
    ensures HoldsBatches(batches - {log[low].batch.batchId}, log, low + 1)
  {
  }

  /** Dropping the lowest height shrinks the window by exactly that block. */
  lemma DropLowest(c: CacheState, log: seq<BlockLog>, low: nat)
    requires LogHeights(log) && LogDistinct(log) && HoldsAbove(c, log, low) && low < |log|
    ensures HoldsAbove(DropHeight(c, low + 1), log, low + 1)
  {
    DropLowestSeqs(c.bySeq, log, low);
    DropLowestRefs(c.byRef, log, low);
    DropLowestHeights(c.byHeight, c.batchesByHeight, log, low);
    DropLowestBatches(c.batches, log, low);
    assert ItemsOf([log[low].batch.batchId]) == {log[low].batch.batchId};
  }

  /** How many heights a window has, and which is dropped when there is one too many. */
  lemma {:induction false} PruneDropsLowest(c: CacheState, low: nat, high: nat)
    requires low <= high && KeysAre(c.byHeight, low, high)
    ensures high - low <= c.maxBlocks ==> Pruned(c) == c
    ensures high - low == c.maxBlocks + 1 ==> Pruned(c) == DropHeight(c, low + 1)
  {
    KeysCount(c.byHeight.Keys, low, high);
    if high - low == c.maxBlocks + 1 {
      assert IsLowest(low + 1, c.byHeight.Keys);
      var d := DropHeight(c, low + 1);
      KeysCount(d.byHeight.Keys, low + 1, high);
      assert Pruned(d) == d;
    }
  }

  /** A state that is at most one block too full is pruned to the window. */
  lemma {:induction false} PruneToWindow(c: CacheState, log: seq<BlockLog>, low: nat)
    requires LogHeights(log) && LogDistinct(log) && HoldsAbove(c, log, low) && log != []
    requires low == WindowLow(|log|, c.maxBlocks) || low == WindowLow(|log| - 1, c.maxBlocks)
    ensures HoldsWindow(Pruned(c), log) && Pruned(c).maxBlocks == c.maxBlocks
  {
    PruneDropsLowest(c, low, |log|);
    var pruned := Pruned(c);
    if |log| - low == c.maxBlocks + 1 {
      DropLowest(c, log, low);
      assert pruned == DropHeight(c, low + 1);
    } else {
      assert pruned == c;
    }
    assert WindowLow(|log|, c.maxBlocks) == if |log| - low == c.maxBlocks + 1 then low + 1 else low;
  }

  // ----- Adding one block

  /** The longer log emits one more receipt above `low`, and nothing else. */
  ghost predicate OneMore(log: seq<BlockLog>, longer: seq<BlockLog>, low: nat, e: Emission) {
    && (forall x :: Emitted(longer, low, x) <==> Emitted(log, low, x) || x == e)
    && |log| <= |longer|
    && forall i, x :: 0 <= i < |log| && x in log[i].emissions ==> x in longer[i].emissions
  }

  lemma RecordKeepsSeqs(
      bySeq: map<(Address, nat), Receipt>, log: seq<BlockLog>, longer: seq<BlockLog>, low: nat, e: Emission)
    requires LogDistinct(longer) && OneMore(log, longer, low, e) && HoldsSeqs(bySeq, log, low)
    ensures HoldsSeqs(bySeq[e.SeqKey() := e.receipt], longer, low)
  {
    hide HasSeq;
    var more := bySeq[e.SeqKey() := e.receipt];
    assert Emitted(longer, low, e);
    forall x | Emitted(longer, low, x) ensures x.SeqKey() in more && more[x.SeqKey()] == x.receipt {
      assert Emitted(longer, 0, x) && Emitted(longer, 0, e);
    }
    forall k | k in more
      ensures low < more[k].header.height <= |longer| && HasSeq(longer[more[k].header.height - 1].emissions, k)
    {
      var i := more[k].header.height - 1;
      HasSeqMeans(longer[i].emissions, k);
      if k != e.SeqKey() {
        HasSeqMeans(log[i].emissions, k);
      }
    }
  }

  lemma RecordKeepsRefs(
      byRef: map<BundleRef, Receipt>, log: seq<BlockLog>, longer: seq<BlockLog>, low: nat, e: Emission)
    requires LogDistinct(longer) && OneMore(log, longer, low, e) && HoldsRefs(byRef, log, low)
    ensures HoldsRefs(byRef[e.ref := e.receipt], longer, low)
  {
    hide HasRef;
    var more := byRef[e.ref := e.receipt];
    assert Emitted(longer, low, e);
    forall x | Emitted(longer, low, x) ensures x.ref in more && more[x.ref] == x.receipt {
      assert Emitted(longer, 0, x) && Emitted(longer, 0, e);
    }
    forall r | r in more
      ensures low < more[r].header.height <= |longer| && HasRef(longer[more[r].header.height - 1].emissions, r)
    {
      var i := more[r].header.height - 1;
      HasRefMeans(longer[i].emissions, r);
      if r != e.ref {
        HasRefMeans(log[i].emissions, r);
      }
    }
  }

  lemma NewBlockIsOneMore(log: seq<BlockLog>, low: nat, e: Emission, batch: ProofBatch)
    requires low <= |log| && e.Height() == |log| + 1
    ensures OneMore(log, log + [BlockLog([e], batch)], low, e)
  {
  }

  lemma LongerBlockIsOneMore(log: seq<BlockLog>, low: nat, emissions: seq<Emission>, e: Emission, batch: ProofBatch)
    requires low <= |log| && e.Height() == |log| + 1
    ensures OneMore(log + [BlockLog(emissions, batch)], log + [BlockLog(emissions + [e], batch)], low, e)
  {
  }

  lemma OpenBlockHeights(c: CacheState, log: seq<BlockLog>, low: nat, e: Emission, batch: ProofBatch)
    requires low <= |log| && e.Height() == |log| + 1
    requires HoldsHeights(c.byHeight, c.batchesByHeight, log, low)
    ensures var d := RecordReceipt(RecordBatch(c, |log| + 1, batch), e);
            HoldsHeights(d.byHeight, d.batchesByHeight, log + [BlockLog([e], batch)], low)
  {
    assert At(c.byHeight, |log| + 1) == [] && At(c.batchesByHeight, |log| + 1) == [];
  }

  lemma OpenBlockBatches(
      batches: map<BatchId, ProofBatch>, log: seq<BlockLog>, low: nat, e: Emission, batch: ProofBatch)
    requires low <= |log| && HoldsBatches(batches, log, low) && batch.batchId.height == |log| + 1
    ensures HoldsBatches(batches[batch.batchId := batch], log + [BlockLog([e], batch)], low)
  {
  }

  /** The first receipt of a block opens its height, and may push the lowest one out. */
  lemma FirstReceiptOpensBlock(c: CacheState, log: seq<BlockLog>, e: Emission, batch: ProofBatch)
    requires HoldsWindow(c, log)
    requires LogHeights(log + [BlockLog([e], batch)]) && LogDistinct(log + [BlockLog([e], batch)])
    ensures HoldsWindow(WithReceipt(WithBatch(c, |log| + 1, batch), e), log + [BlockLog([e], batch)])
    ensures WithReceipt(WithBatch(c, |log| + 1, batch), e).maxBlocks == c.maxBlocks
  {
    var low, longer := WindowLow(|log|, c.maxBlocks), log + [BlockLog([e], batch)];
    assert longer[|log|] == BlockLog([e], batch) && e in longer[|log|].emissions;
    OpenedAbove(c, log, low, e, batch);
    var b := RecordBatch(c, |log| + 1, batch);
    PruneDropsLowest(b, low, |log|);
    PruneToWindow(RecordReceipt(b, e), longer, low);
  }

  lemma OpenedAbove(c: CacheState, log: seq<BlockLog>, low: nat, e: Emission, batch: ProofBatch)
    requires HoldsAbove(c, log, low) && e.Height() == batch.batchId.height == |log| + 1
    requires LogDistinct(log + [BlockLog([e], batch)])
    ensures HoldsAbove(RecordReceipt(RecordBatch(c, |log| + 1, batch), e), log + [BlockLog([e], batch)], low)
  {
    var longer := log + [BlockLog([e], batch)];
    NewBlockIsOneMore(log, low, e, batch);
    RecordKeepsSeqs(c.bySeq, log, longer, low, e);
    RecordKeepsRefs(c.byRef, log, longer, low, e);
    OpenBlockHeights(c, log, low, e, batch);
    OpenBlockBatches(c.batches, log, low, e, batch);
  }

  lemma ExtendBlockHeights(
      byHeight: map<nat, seq<Emission>>, batchesByHeight: map<nat, seq<BatchId>>, log: seq<BlockLog>, low: nat,
      emissions: seq<Emission>, e: Emission, batch: ProofBatch)
    requires low <= |log|
    requires HoldsHeights(byHeight, batchesByHeight, log + [BlockLog(emissions, batch)], low)
    ensures HoldsHeights(byHeight[|log| + 1 := At(byHeight, |log| + 1) + [e]], batchesByHeight,
                         log + [BlockLog(emissions + [e], batch)], low)
  {
    var shorter, longer := log + [BlockLog(emissions, batch)], log + [BlockLog(emissions + [e], batch)];
    assert shorter[|log|] == BlockLog(emissions, batch) && longer[|log|] == BlockLog(emissions + [e], batch);
    assert At(byHeight, |log| + 1) == byHeight[|log| + 1] == emissions;
    forall i | low <= i < |log| ensures longer[i] == shorter[i] == log[i] {
    }
  }

  lemma ExtendBlockBatches(
      batches: map<BatchId, ProofBatch>, log: seq<BlockLog>, low: nat, emissions: seq<Emission>, e: Emission,
      batch: ProofBatch)
    requires low <= |log| && HoldsBatches(batches, log + [BlockLog(emissions, batch)], low)
    ensures HoldsBatches(batches, log + [BlockLog(emissions + [e], batch)], low)
  {
    var shorter, longer := log + [BlockLog(emissions, batch)], log + [BlockLog(emissions + [e], batch)];
    forall i | 0 <= i < |longer| ensures longer[i].batch == shorter[i].batch {
    }
  }

  lemma ExtendedAbove(
      c: CacheState, log: seq<BlockLog>, low: nat, emissions: seq<Emission>, e: Emission, batch: ProofBatch)
    requires low <= |log| && HoldsAbove(c, log + [BlockLog(emissions, batch)], low) && e.Height() == |log| + 1
    requires LogDistinct(log + [BlockLog(emissions + [e], batch)])
    ensures HoldsAbove(RecordReceipt(c, e), log + [BlockLog(emissions + [e], batch)], low)
  {
    var shorter, longer := log + [BlockLog(emissions, batch)], log + [BlockLog(emissions + [e], batch)];
    LongerBlockIsOneMore(log, low, emissions, e, batch);
    RecordKeepsSeqs(c.bySeq, shorter, longer, low, e);
    RecordKeepsRefs(c.byRef, shorter, longer, low, e);
    ExtendBlockHeights(c.byHeight, c.batchesByHeight, log, low, emissions, e, batch);
    ExtendBlockBatches(c.batches, log, low, emissions, e, batch);
  }

  /** Every further receipt of the block joins the same height. */
  lemma NextReceiptExtendsBlock(
      c: CacheState, log: seq<BlockLog>, emissions: seq<Emission>, e: Emission, batch: ProofBatch)
    requires HoldsWindow(c, log + [BlockLog(emissions, batch)])
    requires LogHeights(log + [BlockLog(emissions + [e], batch)]) && LogDistinct(log + [BlockLog(emissions + [e], batch)])
    ensures HoldsWindow(WithReceipt(c, e), log + [BlockLog(emissions + [e], batch)])
    ensures WithReceipt(c, e).maxBlocks == c.maxBlocks
  {
    var low := WindowLow(|log| + 1, c.maxBlocks);
    WindowIsAbove(c, log + [BlockLog(emissions, batch)], low);
    NextReceiptAbove(c, log, low, emissions, e, batch);
  }

  lemma WindowIsAbove(c: CacheState, log: seq<BlockLog>, low: nat)
    requires HoldsWindow(c, log) && low == WindowLow(|log|, c.maxBlocks)
    ensures HoldsAbove(c, log, low)
  {
  }

  lemma NextReceiptAbove(
      c: CacheState, log: seq<BlockLog>, low: nat, emissions: seq<Emission>, e: Emission, batch: ProofBatch)
    requires low == WindowLow(|log| + 1, c.maxBlocks) && HoldsAbove(c, log + [BlockLog(emissions, batch)], low)
    requires LogHeights(log + [BlockLog(emissions + [e], batch)]) && LogDistinct(log + [BlockLog(emissions + [e], batch)])
    ensures HoldsWindow(WithReceipt(c, e), log + [BlockLog(emissions + [e], batch)])
    ensures WithReceipt(c, e).maxBlocks == c.maxBlocks
  {
    var longer := log + [BlockLog(emissions + [e], batch)];
    assert longer[|log|] == BlockLog(emissions + [e], batch) && e in longer[|log|].emissions;
    ExtendedAbove(c, log, low, emissions, e, batch);
    PruneToWindow(RecordReceipt(c, e), longer, low);
  }

  /** A log stays well formed when its last block is cut short, but not emptied. */
  lemma ShorterLastBlock(log: seq<BlockLog>, emissions: seq<Emission>, batch: ProofBatch, count: nat)
    requires 0 < count <= |emissions|
    requires LogHeights(log + [BlockLog(emissions, batch)]) && LogDistinct(log + [BlockLog(emissions, batch)])
    ensures LogHeights(log + [BlockLog(emissions[..count], batch)])
    ensures LogDistinct(log + [BlockLog(emissions[..count], batch)])
  {
    var full, cut := log + [BlockLog(emissions, batch)], log + [BlockLog(emissions[..count], batch)];
    assert full[|log|].emissions == emissions;
    forall i | 0 <= i < |cut| ensures cut[i].batch == full[i].batch && cut[i].emissions != []
      ensures forall e :: e in cut[i].emissions ==> e in full[i].emissions
    {
    }
    forall e | Emitted(cut, 0, e) ensures Emitted(full, 0, e) {
    }
  }

  lemma {:induction false} WithOneMore(c: CacheState, cut: seq<Emission>, e: Emission)
    ensures WithReceipts(c, cut + [e]) == WithReceipt(WithReceipts(c, cut), e)
  {
    hide WithReceipt;
    assert (cut + [e])[..|cut|] == cut;
  }

  lemma {:induction false} LastReceiptOfBlock(
      c: CacheState, started: CacheState, log: seq<BlockLog>, cut: seq<Emission>, e: Emission, batch: ProofBatch)
    requires HoldsWindow(WithReceipts(started, cut), log + [BlockLog(cut, batch)])
    requires WithReceipts(started, cut).maxBlocks == c.maxBlocks
    requires LogHeights(log + [BlockLog(cut + [e], batch)]) && LogDistinct(log + [BlockLog(cut + [e], batch)])
    ensures HoldsWindow(WithReceipts(started, cut + [e]), log + [BlockLog(cut + [e], batch)])
    ensures WithReceipts(started, cut + [e]).maxBlocks == c.maxBlocks
  {
    hide *;
    WithOneMore(started, cut, e);
    NextReceiptExtendsBlock(WithReceipts(started, cut), log, cut, e, batch);
  }

  /** Recording a whole block keeps the window. */
  lemma {:induction false} BlockKeepsWindow(
      c: CacheState, log: seq<BlockLog>, emissions: seq<Emission>, batch: ProofBatch)
    requires HoldsWindow(c, log) && emissions != []
    requires LogHeights(log + [BlockLog(emissions, batch)]) && LogDistinct(log + [BlockLog(emissions, batch)])
    ensures HoldsWindow(WithReceipts(WithBatch(c, |log| + 1, batch), emissions), log + [BlockLog(emissions, batch)])
    ensures WithReceipts(WithBatch(c, |log| + 1, batch), emissions).maxBlocks == c.maxBlocks
    decreases |emissions|
  {
    hide HoldsWindow, LogDistinct, LogHeights, WithBatch, WithReceipt, WithReceipts;
    var last := |emissions| - 1;
    var started := WithBatch(c, |log| + 1, batch);
    if last == 0 {
      SingleReceipt(started, emissions);
      FirstReceiptOpensBlock(c, log, emissions[0], batch);
    } else {
      var cut, e := emissions[..last], emissions[last];
      ShorterLastBlock(log, emissions, batch, last);
      BlockKeepsWindow(c, log, cut, batch);
      assert cut + [e] == emissions;
      LastReceiptOfBlock(c, started, log, cut, e, batch);
    }
  }

  lemma {:induction false} SingleReceipt(c: CacheState, emissions: seq<Emission>)
    requires |emissions| == 1
    ensures emissions == [emissions[0]] && WithReceipts(c, emissions) == WithReceipt(c, emissions[0])
  {
    assert emissions[..0] == [];
    assert WithReceipts(c, emissions[..0]) == c;
  }

  lemma FindSeq(
      log: seq<BlockLog>, low: nat, bySeq: map<(Address, nat), Receipt>, key: (Address, nat)) returns (e: Emission)
    requires LogHeights(log) && HoldsSeqs(bySeq, log, low) && key in bySeq
    ensures Emitted(log, 0, e) && Emitted(log, low, e) && e.SeqKey() == key && bySeq[key] == e.receipt
  {
    var h := bySeq[key].header.height;
    HasSeqMeans(log[h - 1].emissions, key);
    e :| e in log[h - 1].emissions && e.SeqKey() == key;
    assert Emitted(log, low, e);
  }

  lemma FindRef(log: seq<BlockLog>, low: nat, byRef: map<BundleRef, Receipt>, ref: BundleRef) returns (e: Emission)
    requires LogHeights(log) && HoldsRefs(byRef, log, low) && ref in byRef
    ensures Emitted(log, 0, e) && Emitted(log, low, e) && e.ref == ref && byRef[ref] == e.receipt
  {
    var h := byRef[ref].header.height;
    HasRefMeans(log[h - 1].emissions, ref);
    e :| e in log[h - 1].emissions && e.ref == ref;
    assert Emitted(log, low, e);
  }

  lemma SeqAnswer(bySeq: map<(Address, nat), Receipt>, log: seq<BlockLog>, low: nat, e: Emission)
    requires LogHeights(log) && LogDistinct(log) && HoldsSeqs(bySeq, log, low) && Emitted(log, 0, e)
    ensures Lookup(bySeq, e.SeqKey()) == if e.Height() > low then Some(e.receipt) else None
  {
    if e.Height() > low {
      assert Emitted(log, low, e);
    } else if e.SeqKey() in bySeq {
      var f := FindSeq(log, low, bySeq, e.SeqKey());
      assert false;
    }
  }

  lemma RefAnswer(byRef: map<BundleRef, Receipt>, log: seq<BlockLog>, low: nat, e: Emission)
    requires LogHeights(log) && LogDistinct(log) && HoldsRefs(byRef, log, low) && Emitted(log, 0, e)
    ensures Lookup(byRef, e.ref) == if e.Height() > low then Some(e.receipt) else None
  {
    if e.Height() > low {
      assert Emitted(log, low, e);
    } else if e.ref in byRef {
      var f := FindRef(log, low, byRef, e.ref);
      assert false;
    }
  }

  lemma WindowParts(c: CacheState, log: seq<BlockLog>, low: nat)
    requires HoldsWindow(c, log) && low == WindowLow(|log|, c.maxBlocks)
    ensures HoldsSeqs(c.bySeq, log, low) && HoldsRefs(c.byRef, log, low)
  {
  }

  /** Looking a receipt up by sequence number finds it exactly while its height is one of the last `maxBlocks`. */
  lemma WindowAnswersBySeq(c: CacheState, log: seq<BlockLog>, e: Emission)
    requires HoldsWindow(c, log) && Emitted(log, 0, e)
    ensures c.GetReceipt(e.sender, e.receipt.seqNo)
         == if e.Height() > WindowLow(|log|, c.maxBlocks) then Some(e.receipt) else None
  {
    var low := WindowLow(|log|, c.maxBlocks);
    WindowParts(c, log, low);
    SeqAnswer(c.bySeq, log, low, e);
  }

  /** Looking a receipt up by bundle reference finds it exactly while its height is one of the last `maxBlocks`. */
  lemma WindowAnswersByRef(c: CacheState, log: seq<BlockLog>, e: Emission)
    requires HoldsWindow(c, log) && Emitted(log, 0, e)
    ensures c.GetReceiptByRef(e.ref)
         == if e.Height() > WindowLow(|log|, c.maxBlocks) then Some(e.receipt) else None
  {
    var low := WindowLow(|log|, c.maxBlocks);
    WindowParts(c, log, low);
    RefAnswer(c.byRef, log, low, e);
  }

  /** What is found was emitted, under that sequence number, at one of the last `maxBlocks` heights. */
  lemma FoundBySeqWasEmitted(c: CacheState, log: seq<BlockLog>, sender: Address, seqNo: nat) returns (e: Emission)
    requires HoldsWindow(c, log) && c.GetReceipt(sender, seqNo).Some?
    ensures Emitted(log, WindowLow(|log|, c.maxBlocks), e)
    ensures e.SeqKey() == (sender, seqNo) && c.GetReceipt(sender, seqNo) == Some(e.receipt)
  {
    var low := WindowLow(|log|, c.maxBlocks);
    WindowParts(c, log, low);
    e := FindSeq(log, low, c.bySeq, (sender, seqNo));
  }

  /** What is found was emitted, with that reference, at one of the last `maxBlocks` heights. */
  lemma FoundByRefWasEmitted(c: CacheState, log: seq<BlockLog>, ref: BundleRef) returns (e: Emission)
    requires HoldsWindow(c, log) && c.GetReceiptByRef(ref).Some?
    ensures Emitted(log, WindowLow(|log|, c.maxBlocks), e)
    ensures e.ref == ref && c.GetReceiptByRef(ref) == Some(e.receipt)
  {
    var low := WindowLow(|log|, c.maxBlocks);
    WindowParts(c, log, low);
    e := FindRef(log, low, c.byRef, ref);
  }
}

/** A receipt the chain emitted, once its proof verifies for a wallet's own bundle, makes a unit of the chain. */
module EmittedReceipts {
  import opened Prelude
  import opened Types
  import opened ClaimSets
  import opened Ledger
  import opened SparseMerkle
  import opened ReceiptCaches
  import opened Chains
  import opened ChainRuns
  import opened ChainInvariants
  import opened Validation
  import opened Histories

  lemma {:induction false} NewestEmissionIsCanonical(
      before: Leaves, tree: AccountTree, b: Block, height: nat, e: Emission)
    requires GoodBlock(before, tree, b, height) && e in EmittedBy(before, PutValues(tree, b.entries), b).emissions
    ensures e.receipt.header == LiteOf(b) && e.Height() == height
    ensures e.receipt.proof.Single? && e.receipt.proof.proof.existence
  {
    var i := EmissionIndex(before, tree, PutValues(tree, b.entries), b, height, e);
    PutValuesStoresLast(tree, b.entries, i);
  }

  /** Every emitted receipt has the chain's header and an existence proof. */
  lemma {:induction false} EmissionIsCanonical(blocks: seq<Block>, e: Emission)
    requires GoodBlocks(blocks) && Emitted(LogOf(blocks), 0, e)
    ensures 1 <= e.Height() <= |blocks| && e.receipt.header == LiteOf(blocks[e.Height() - 1])
    ensures e.receipt.proof.Single? && e.receipt.proof.proof.existence
  {
    var init, b := blocks[..|blocks| - 1], blocks[|blocks| - 1];
    LogSplit(blocks, 0, e);
    if Emitted(LogOf(init), 0, e) {
      EmissionIsCanonical(init, e);
    } else {
      NewestEmissionIsCanonical(LeavesAfter(init), TreeAfter(init), b, |blocks|, e);
    }
  }

  lemma {:induction false} OnChainClaimsAreOk(blocks: seq<Block>, unit: ConfirmedUnit)
    requires GoodBlocks(blocks) && OnChain(blocks, unit)
    ensures ClaimHashOk(unit.receipt.claimSetHash, unit.sidecar)
  {
    var h := unit.receipt.header.height;
    BlockAt(blocks, h);
    var i := SidecarBesideLeaf(blocks[h - 1].entries, blocks[h - 1].sidecars, unit.sidecar.sender);
    assert GoodEntry(LeavesAfter(blocks[..h - 1]), blocks[h - 1], i);
  }

  lemma {:induction false} OnChainFollows(blocks: seq<Block>, unit: ConfirmedUnit)
    requires GoodBlocks(blocks) && OnChain(blocks, unit)
    ensures unit.receipt.prevRef.Some? ==> unit.receipt.prevRef.value.height < unit.receipt.header.height
  {
    GapIsQuiet(blocks, unit.receipt.header.height, unit.sidecar.sender);
  }

  lemma {:induction false} ProvenEmissionIsOnChain(blocks: seq<Block>, e: Emission, unit: ConfirmedUnit)
    requires GoodBlocks(blocks) && Emitted(LogOf(blocks), 0, e)
    requires unit.receipt == e.receipt && UnitProofVerifies(unit)
    ensures OnChain(blocks, unit) && 1 <= e.Height() <= |blocks|
  {
    hide GoodBlocks, LogOf, OnChain, UnitProofVerifies;
    EmissionIsCanonical(blocks, e);
    assert CanonicalUnit(blocks, unit);
    ProvenUnitIsOnChain(blocks, unit);
  }

  /** The unit's bundle has the claims its leaf declares, and follows the bundle its receipt refers to. */
  lemma {:induction false} ProvenEmission(blocks: seq<Block>, e: Emission, unit: ConfirmedUnit)
    requires GoodBlocks(blocks) && Emitted(LogOf(blocks), 0, e)
    requires unit.receipt == e.receipt && UnitProofVerifies(unit)
    ensures 1 <= unit.receipt.header.height <= |blocks|
    ensures ClaimHashOk(unit.receipt.claimSetHash, unit.sidecar)
    ensures unit.receipt.prevRef.Some? ==> unit.receipt.prevRef.value.height < unit.receipt.header.height
  {
    ProvenEmissionIsOnChain(blocks, e, unit);
    OnChainClaimsAreOk(blocks, unit);
    OnChainFollows(blocks, unit);
  }

  // ----- Emissions by height

  lemma SameSlices<T>(s: seq<T>, h: nat)
    requires 1 <= h < |s|
    ensures s[..|s| - 1][..h - 1] == s[..h - 1] && s[..|s| - 1][..h] == s[..h]
  {
  }

  lemma {:induction false} LogAt(blocks: seq<Block>, h: nat)
    requires 1 <= h <= |blocks|
    ensures LogOf(blocks)[h - 1] == EmittedBy(LeavesAfter(blocks[..h - 1]), TreeAfter(blocks[..h]), blocks[h - 1])
  {
    if h < |blocks| {
      LogAt(blocks[..|blocks| - 1], h);
      SameSlices(blocks, h);
    } else {
      assert blocks[..h] == blocks;
    }
  }

  /** An emission, traced to the leaf it was made for, between the leaves before its block and the tree after it. */
  ghost predicate EmissionAt(before: Leaves, after: AccountTree, leaf: AccountLeaf, e: Emission) {
    && leaf == AccountLeaf(e.sender, Some(e.ref), e.receipt.prevRef, e.receipt.claimSetHash)
    && e.ref == BundleRef(e.Height(), e.receipt.header.blockHash, e.ref.bundleHash, e.receipt.seqNo)
    && e.receipt.seqNo == SeqOf(before, e.sender) + 1
    && e.receipt.prevRef == HeadOf(before, e.sender)
    && e.receipt.header.stateRoot == Root(TREE_DEPTH, after)
    && e.receipt.proof == Single(Prove(TREE_DEPTH, after, AddrKey(e.sender)))
    && Lookup(after, AddrKey(e.sender)) == Some(AccountLeafHash(leaf))
  }

  lemma {:induction false} BlockEmissionAt(before: Leaves, tree: AccountTree, b: Block, height: nat, e: Emission) returns (leaf: AccountLeaf)
    requires GoodBlock(before, tree, b, height) && e in EmittedBy(before, PutValues(tree, b.entries), b).emissions
    ensures EmissionAt(before, PutValues(tree, b.entries), leaf, e)
  {
    var i := EmissionIndex(before, tree, PutValues(tree, b.entries), b, height, e);
    assert GoodEntry(before, b, i);
    PutValuesStoresLast(tree, b.entries, i);
    leaf := b.entries[i].newLeaf;
  }

  lemma {:induction false} FindEmission(blocks: seq<Block>, e: Emission) returns (before: Leaves, after: AccountTree, leaf: AccountLeaf)
    requires GoodBlocks(blocks) && Emitted(LogOf(blocks), 0, e)
    ensures 1 <= e.Height() <= |blocks| && before == LeavesAfter(blocks[..e.Height() - 1])
    ensures EmissionAt(before, after, leaf, e)
  {
    var h := e.Height();
    LogAt(blocks, h);
    BlockAt(blocks, h);
    before, after := LeavesAfter(blocks[..h - 1]), TreeAfter(blocks[..h]);
    leaf := BlockEmissionAt(before, TreeAfter(blocks[..h - 1]), blocks[h - 1], h, e);
  }

  /** Every leaf a block writes comes with an emission under the leaf's reference. */
  lemma {:induction false} LeafIsEmitted(blocks: seq<Block>, h: nat, addr: Address) returns (e: Emission)
    requires GoodBlocks(blocks) && 1 <= h <= |blocks| && LeafIn(blocks[h - 1].entries, addr).Some?
    ensures Emitted(LogOf(blocks), 0, e) && e.sender == addr
    ensures LeafIn(blocks[h - 1].entries, addr).value.headRef == Some(e.ref) && e.receipt.seqNo == e.ref.seqNo
  {
    LogAt(blocks, h);
    BlockAt(blocks, h);
    e := LeafEmission(LeavesAfter(blocks[..h - 1]), TreeAfter(blocks[..h - 1]), blocks[h - 1], h, addr);
  }

  lemma {:induction false} LeafEmission(before: Leaves, tree: AccountTree, b: Block, height: nat, addr: Address) returns (e: Emission)
    requires GoodBlock(before, tree, b, height) && LeafIn(b.entries, addr).Some?
    ensures e in EmittedBy(before, PutValues(tree, b.entries), b).emissions && e.Height() == height && e.sender == addr
    ensures LeafIn(b.entries, addr).value.headRef == Some(e.ref) && e.receipt.seqNo == e.ref.seqNo
  {
    GoodBlockHasHeads(before, tree, b, height);
    var i := LeafInIsAnEntry(b.entries, addr);
    assert GoodEntry(before, b, i);
    e := EmissionFor(LiteOf(b), b.entries[i], before, PutValues(tree, b.entries));
    assert Emissions(LiteOf(b), b.entries, before, PutValues(tree, b.entries))[i] == e;
  }

  /** One account's leaves with one sequence number have one reference. */
  lemma {:induction false} OneRefPerSeq(blocks: seq<Block>, h: nat, k: nat, addr: Address)
    requires GoodBlocks(blocks) && 1 <= h <= |blocks| && 1 <= k <= |blocks|
    requires LeafIn(blocks[h - 1].entries, addr).Some? && LeafIn(blocks[h - 1].entries, addr).value.headRef.Some?
    requires LeafIn(blocks[k - 1].entries, addr).Some? && LeafIn(blocks[k - 1].entries, addr).value.headRef.Some?
    requires LeafIn(blocks[h - 1].entries, addr).value.headRef.value.seqNo == LeafIn(blocks[k - 1].entries, addr).value.headRef.value.seqNo
    ensures LeafIn(blocks[h - 1].entries, addr).value.headRef == LeafIn(blocks[k - 1].entries, addr).value.headRef
  {
    var e := LeafIsEmitted(blocks, h, addr);
    var f := LeafIsEmitted(blocks, k, addr);
    LogIsDistinct(blocks, e, f);
  }

  /** The reference an account's next bundle follows is that of its newest unit on the chain. */
  lemma {:induction false} HeadIsNewest(blocks: seq<Block>, h: nat, unit: ConfirmedUnit)
    requires GoodBlocks(blocks) && OnChain(blocks, unit) && 1 <= h <= |blocks|
    requires SeqOf(LeavesAfter(blocks[..h - 1]), unit.sidecar.sender) == unit.receipt.seqNo
    ensures HeadOf(LeavesAfter(blocks[..h - 1]), unit.sidecar.sender) == Some(ConfirmedRef(unit))
  {
    var addr := unit.sidecar.sender;
    var ref := HeadOf(LeavesAfter(blocks[..h - 1]), addr);
    GapIsQuiet(blocks, h, addr);
    OneRefPerSeq(blocks, ref.value.height, unit.receipt.header.height, addr);
  }

  // ----- Which receipts verify

  /** An emitted receipt verifies for a bundle exactly if the bundle is the one its block packaged. */
  lemma {:induction false} EmittedVerifies(blocks: seq<Block>, e: Emission, sidecar: Sidecar)
    requires GoodBlocks(blocks) && Emitted(LogOf(blocks), 0, e) && sidecar.sender == e.sender
    ensures UnitProofVerifies(ConfirmedUnit(e.receipt, sidecar)) <==> e.ref.bundleHash == BundleBodyHash(sidecar)
  {
    var before, after, leaf := FindEmission(blocks, e);
    LeafVerifies(before, after, leaf, e, ConfirmedUnit(e.receipt, sidecar));
  }

  lemma LeafVerifies(before: Leaves, after: AccountTree, leaf: AccountLeaf, e: Emission, unit: ConfirmedUnit)
    requires EmissionAt(before, after, leaf, e) && unit.receipt == e.receipt && unit.sidecar.sender == e.sender
    ensures UnitProofVerifies(unit) <==> e.ref.bundleHash == BundleBodyHash(unit.sidecar)
  {
    VerifyDecides(TREE_DEPTH, after, AddrKey(e.sender), AccountLeafHash(ReconstructedLeaf(unit)), unit.receipt.proof.proof);
  }
}

/**
  Ownership history is unique. The chain itself determines, for every point of value, who spends it when: an
  accepted package whose history is canonical tells a beginning of that story, so any two of them agree.
 */
module Histories {
  import opened Prelude
  import opened Values
  import opened Types
  import opened ClaimSets
  import opened Ledger
  import opened SparseMerkle
  import opened Chains
  import opened ChainRuns
  import opened Validation

  // ----- Bundles in blocks

  /** The sidecar a block holds for a sender: that of the last entry, if there is any. */
  function SidecarIn(entries: seq<DiffEntry>, sidecars: seq<Sidecar>, addr: Address): Option<Sidecar>
    requires |entries| == |sidecars|
  {
    if entries == [] then None
    else
      var last := |entries| - 1;
      if entries[last].newLeaf.addr == addr then Some(sidecars[last]) else SidecarIn(entries[..last], sidecars[..last], addr)
  }

  function BundleOf(b: Block, addr: Address): Option<Sidecar> {
    SidecarIn(b.entries, b.sidecars, addr)
  }

  lemma {:induction false} SidecarBesideLeaf(
      entries: seq<DiffEntry>, sidecars: seq<Sidecar>, addr: Address) returns (i: nat)
    requires |entries| == |sidecars|
    ensures LeafIn(entries, addr).None? <==> SidecarIn(entries, sidecars, addr).None?
    ensures LeafIn(entries, addr).Some? ==>
              i < |entries| && LeafIn(entries, addr) == Some(entries[i].newLeaf) && SidecarIn(entries, sidecars, addr) == Some(sidecars[i])
  {
    i := 0;
    if entries != [] {
      var last := |entries| - 1;
      if entries[last].newLeaf.addr == addr {
        i := last;
      } else {
        i := SidecarBesideLeaf(entries[..last], sidecars[..last], addr);
      }
    }
  }

  lemma InitOfPrefix<T>(s: seq<T>, n: nat)
    requires n < |s|
    ensures s[..|s| - 1][..n] == s[..n]
  {
  }

  lemma {:induction false} GoodPrefix(blocks: seq<Block>, n: nat)
    requires GoodBlocks(blocks) && n <= |blocks|
    ensures GoodBlocks(blocks[..n])
  {
    if n < |blocks| {
      GoodPrefix(blocks[..|blocks| - 1], n);
      InitOfPrefix(blocks, n);
    } else {
      assert blocks[..n] == blocks;
    }
  }

  lemma {:induction false} LastBlockIsGood(blocks: seq<Block>, init: seq<Block>, b: Block)
    requires GoodBlocks(blocks) && |blocks| > 0 && init == blocks[..|blocks| - 1] && b == blocks[|blocks| - 1]
    ensures GoodBlocks(init) && GoodBlock(LeavesAfter(init), TreeAfter(init), b, |blocks|)
    ensures TreeAfter(blocks) == PutValues(TreeAfter(init), b.entries)
    ensures LeavesAfter(blocks) == PutLeaves(LeavesAfter(init), b.entries)
  {
  }

  lemma LastOfPrefix<T>(s: seq<T>, n: nat)
    requires 1 <= n <= |s|
    ensures s[..n][..n - 1] == s[..n - 1] && s[..n][n - 1] == s[n - 1]
  {
  }

  /** The block at a height, on top of the ones below it. */
  lemma {:induction false} BlockAt(blocks: seq<Block>, h: nat)
    requires GoodBlocks(blocks) && 1 <= h <= |blocks|
    ensures GoodBlocks(blocks[..h]) && GoodBlocks(blocks[..h - 1])
    ensures GoodBlock(LeavesAfter(blocks[..h - 1]), TreeAfter(blocks[..h - 1]), blocks[h - 1], h)
    ensures TreeAfter(blocks[..h]) == PutValues(TreeAfter(blocks[..h - 1]), blocks[h - 1].entries)
    ensures LeavesAfter(blocks[..h]) == PutLeaves(LeavesAfter(blocks[..h - 1]), blocks[h - 1].entries)
  {
    GoodPrefix(blocks, h);
    LastOfPrefix(blocks, h);
    LastBlockIsGood(blocks[..h], blocks[..h - 1], blocks[h - 1]);
  }

  // ----- Canonical units

  /** The unit's header is the chain's, and it carries an existence proof. */
  ghost predicate CanonicalUnit(blocks: seq<Block>, unit: ConfirmedUnit) {
    && 1 <= unit.receipt.header.height <= |blocks|
    && unit.receipt.header == LiteOf(blocks[unit.receipt.header.height - 1])
    && unit.receipt.proof.Single? && unit.receipt.proof.proof.existence
  }

  /** The unit is what the chain holds for its sender at its height. */
  ghost predicate OnChain(blocks: seq<Block>, unit: ConfirmedUnit) {
    var h, addr := unit.receipt.header.height, unit.sidecar.sender;
    && 1 <= h <= |blocks|
    && LeafIn(blocks[h - 1].entries, addr) == Some(ReconstructedLeaf(unit))
    && BundleOf(blocks[h - 1], addr) == Some(unit.sidecar)
    && unit.receipt.prevRef == HeadOf(LeavesAfter(blocks[..h - 1]), addr)
  }

  /** An existence proof that verifies against the root the blocks lead to shows the account's leaf. */
  lemma {:induction false} LeafOfProof(blocks: seq<Block>, unit: ConfirmedUnit)
    requires GoodBlocks(blocks) && UnitProofVerifies(unit) && unit.receipt.proof.proof.existence
    requires unit.receipt.header.stateRoot == Root(TREE_DEPTH, TreeAfter(blocks))
    ensures Lookup(LeavesAfter(blocks), unit.sidecar.sender) == Some(ReconstructedLeaf(unit))
  {
    var addr := unit.sidecar.sender;
    VerifyDecides(TREE_DEPTH, TreeAfter(blocks), AddrKey(addr), AccountLeafHash(ReconstructedLeaf(unit)),
                  unit.receipt.proof.proof);
    TreeCommitsToLeaves(blocks, addr);
  }

  lemma {:induction false} RootAt(blocks: seq<Block>, h: nat)
    requires GoodBlocks(blocks) && 1 <= h <= |blocks|
    ensures GoodBlocks(blocks[..h]) && blocks[h - 1].header.stateRoot == Root(TREE_DEPTH, TreeAfter(blocks[..h]))
  {
    BlockAt(blocks, h);
  }

  lemma {:induction false} ProvenLeaf(blocks: seq<Block>, unit: ConfirmedUnit)
    requires GoodBlocks(blocks) && CanonicalUnit(blocks, unit) && UnitProofVerifies(unit)
    ensures Lookup(LeavesAfter(blocks[..unit.receipt.header.height]), unit.sidecar.sender) == Some(ReconstructedLeaf(unit))
  {
    var h := unit.receipt.header.height;
    RootAt(blocks, h);
    LeafOfProof(blocks[..h], unit);
  }

  /** The block's entry for the sender of a proven unit. */
  lemma {:induction false} ProvenEntry(blocks: seq<Block>, unit: ConfirmedUnit)
    requires GoodBlocks(blocks) && CanonicalUnit(blocks, unit) && UnitProofVerifies(unit)
    ensures LeafIn(blocks[unit.receipt.header.height - 1].entries, unit.sidecar.sender) == Some(ReconstructedLeaf(unit))
  {
    var h, addr := unit.receipt.header.height, unit.sidecar.sender;
    ProvenLeaf(blocks, unit);
    BlockAt(blocks, h);
    LeavesAreLastWritten(blocks[..h], addr);
    assert LastWritten(blocks[..h], addr, Some(ReconstructedLeaf(unit)));
    assert blocks[..h][h - 1] == blocks[h - 1];
  }

  /** The sidecar beside an entry is the one its leaf's bundle hash commits to. */
  lemma CommittedSidecar(blocks: seq<Block>, h: nat, addr: Address)
    requires GoodBlocks(blocks) && 1 <= h <= |blocks| && LeafIn(blocks[h - 1].entries, addr).Some?
    ensures var leaf, bundle := LeafIn(blocks[h - 1].entries, addr).value, BundleOf(blocks[h - 1], addr);
            && bundle.Some? && bundle.value.sender == addr
            && leaf.headRef.Some? && leaf.headRef.value.bundleHash == BundleBodyHash(bundle.value)
            && leaf.headRef.value.height == h
            && leaf.prevRef == HeadOf(LeavesAfter(blocks[..h - 1]), addr)
  {
    BlockAt(blocks, h);
    var before := LeavesAfter(blocks[..h - 1]);
    var i := SidecarBesideLeaf(blocks[h - 1].entries, blocks[h - 1].sidecars, addr);
    GoodLeafIn(before, TreeAfter(blocks[..h - 1]), blocks[h - 1], h, addr);
    assert GoodEntry(before, blocks[h - 1], i);
  }

  /** A proof that verifies under a canonical header binds the whole unit: bundle, predecessor and height. */
  lemma {:induction false} ProvenUnitIsOnChain(blocks: seq<Block>, unit: ConfirmedUnit)
    requires GoodBlocks(blocks) && CanonicalUnit(blocks, unit) && UnitProofVerifies(unit)
    ensures OnChain(blocks, unit)
  {
    hide BundleOf, GoodBlocks, LeafIn, LeavesAfter, UnitProofVerifies;
    ProvenEntry(blocks, unit);
    CommittedSidecar(blocks, unit.receipt.header.height, unit.sidecar.sender);
  }

  // ----- Between a unit and its predecessor

  /** No bundle of the account lies in the blocks at positions from `low` up to, not including, `high`. */
  ghost predicate Quiet(blocks: seq<Block>, addr: Address, low: nat, high: nat) {
    forall k :: low <= k < high && k < |blocks| ==> BundleOf(blocks[k], addr).None?
  }

  lemma {:induction false} SilentBlock(b: Block, addr: Address)
    ensures LeafIn(b.entries, addr).None? <==> BundleOf(b, addr).None?
  {
    var i := SidecarBesideLeaf(b.entries, b.sidecars, addr);
  }

  lemma {:induction false} WrittenIsQuiet(blocks: seq<Block>, n: nat, addr: Address, leaf: Option<AccountLeaf>)
    requires n <= |blocks| && LastWritten(blocks[..n], addr, leaf)
    ensures leaf.None? ==> Quiet(blocks, addr, 0, n)
    ensures leaf.Some? ==> leaf.value.headRef.Some? && Quiet(blocks, addr, leaf.value.headRef.value.height, n)
  {
    hide BundleOf, LeafIn;
    forall k | 0 <= k < n
      ensures blocks[..n][k] == blocks[k] && (LeafIn(blocks[k].entries, addr).None? <==> BundleOf(blocks[k], addr).None?)
    {
      SilentBlock(blocks[k], addr);
    }
  }

  lemma GapIsQuiet(blocks: seq<Block>, h: nat, addr: Address)
    requires GoodBlocks(blocks) && 1 <= h <= |blocks|
    ensures var ref := HeadOf(LeavesAfter(blocks[..h - 1]), addr);
            && (ref.None? ==> Quiet(blocks, addr, 0, h - 1))
            && (ref.Some? ==>
                  && 1 <= ref.value.height <= h - 1
                  && LeafIn(blocks[ref.value.height - 1].entries, addr).Some?
                  && LeafIn(blocks[ref.value.height - 1].entries, addr).value.headRef == ref
                  && Quiet(blocks, addr, ref.value.height, h - 1))
  {
    hide GoodBlocks, LeafIn, LeavesAfter, Quiet;
    GoodPrefix(blocks, h - 1);
    LeavesAreLastWritten(blocks[..h - 1], addr);
    WrittenIsQuiet(blocks, h - 1, addr, Lookup(LeavesAfter(blocks[..h - 1]), addr));
  }

  lemma {:induction false} GapAfter(blocks: seq<Block>, h: nat, addr: Address, ref: BundleRef)
    requires GoodBlocks(blocks) && 1 <= h <= |blocks| && HeadOf(LeavesAfter(blocks[..h - 1]), addr) == Some(ref)
    ensures 1 <= ref.height < h && LeafIn(blocks[ref.height - 1].entries, addr).Some?
    ensures LeafIn(blocks[ref.height - 1].entries, addr).value.headRef == Some(ref)
    ensures Quiet(blocks, addr, ref.height, h - 1)
  {
    hide *;
    GapIsQuiet(blocks, h, addr);
  }

  /** A leaf's reference commits to a bundle of the leaf's own account. */
  lemma {:induction false} OwnBundle(blocks: seq<Block>, addr: Address, ref: BundleRef) returns (sidecar: Sidecar)
    requires GoodBlocks(blocks) && 1 <= ref.height <= |blocks| && LeafIn(blocks[ref.height - 1].entries, addr).Some?
    requires LeafIn(blocks[ref.height - 1].entries, addr).value.headRef == Some(ref)
    ensures sidecar.sender == addr && ref.bundleHash == BundleBodyHash(sidecar)
  {
    hide GoodBlocks, LeavesAfter;
    CommittedSidecar(blocks, ref.height, addr);
    sidecar := BundleOf(blocks[ref.height - 1], addr).value;
  }

  /** A unit that its successor on the chain refers to belongs to the same sender. */
  lemma {:induction false} PredecessorSender(blocks: seq<Block>, unit: ConfirmedUnit, prior: ConfirmedUnit)
    requires GoodBlocks(blocks) && OnChain(blocks, unit) && unit.receipt.prevRef == Some(ConfirmedRef(prior))
    ensures prior.sidecar.sender == unit.sidecar.sender
    ensures 1 <= prior.receipt.header.height < unit.receipt.header.height
    ensures Quiet(blocks, unit.sidecar.sender, prior.receipt.header.height, unit.receipt.header.height - 1)
  {
    hide BundleOf, GoodBlocks, LeafIn, LeavesAfter, Quiet;
    GapAfter(blocks, HeightOf(unit), unit.sidecar.sender, ConfirmedRef(prior));
    var sidecar := OwnBundle(blocks, unit.sidecar.sender, ConfirmedRef(prior));
  }

  // ----- Spending

  /** The first transfer of a bundle that takes a point. */
  ghost function SpendingTx(txs: seq<OffChainTx>, p: nat): Option<OffChainTx> {
    if txs == [] then None
    else if Covers(txs[0].values, p) then Some(txs[0])
    else SpendingTx(txs[1..], p)
  }

  ghost function SpendIn(b: Block, owner: Address, p: nat): Option<OffChainTx> {
    var bundle := BundleOf(b, owner);
    if bundle.Some? then SpendingTx(bundle.value.txs, p) else None
  }

  datatype Hop = Hop(height: nat, tx: OffChainTx)

  /** The owner's first spend of a point at a height above `after`. */
  ghost function NextSpend(blocks: seq<Block>, owner: Address, p: nat, after: nat): (hop: Option<Hop>)
    ensures hop.Some? ==> after < hop.value.height <= |blocks|
    decreases |blocks| - after
  {
    if after >= |blocks| then None
    else
      var spend := SpendIn(blocks[after], owner, p);
      if spend.Some? then Some(Hop(after + 1, spend.value)) else NextSpend(blocks, owner, p, after + 1)
  }

  /** The chain's own story of a point: who passed it on, in which transfer, at which height. */
  ghost function Trace(blocks: seq<Block>, owner: Address, p: nat, after: nat): seq<Hop>
    decreases |blocks| - after
  {
    var hop := NextSpend(blocks, owner, p, after);
    if hop.None? then [] else [hop.value] + Trace(blocks, hop.value.tx.recipient, p, hop.value.height)
  }

  lemma {:induction false} NextSpendIs(blocks: seq<Block>, owner: Address, p: nat, after: nat, h: nat)
    requires after < h <= |blocks|
    requires forall k :: after <= k < h - 1 ==> SpendIn(blocks[k], owner, p).None?
    requires SpendIn(blocks[h - 1], owner, p).Some?
    ensures NextSpend(blocks, owner, p, after) == Some(Hop(h, SpendIn(blocks[h - 1], owner, p).value))
    decreases h - after
  {
    if after < h - 1 {
      NextSpendIs(blocks, owner, p, after + 1, h);
    }
  }

  lemma {:induction false} SpentIsClaimed(txs: seq<OffChainTx>, tx: OffChainTx, p: nat)
    requires tx in txs && Covers(tx.values, p)
    ensures Covers(TxValues(txs), p)
  {
    var j :| 0 <= j < |tx.values| && tx.values[j].Has(p);
    var i :| 0 <= i < |txs| && txs[i] == tx;
    TxValuesHold(txs, tx.values[j]);
    assert tx.values[j] in txs[i].values;
  }

  lemma {:induction false} NoSpendOutsideClaims(txs: seq<OffChainTx>, p: nat)
    requires !Covers(TxValues(txs), p)
    ensures SpendingTx(txs, p).None?
  {
    forall tx | tx in txs ensures Covers(tx.values, p) ==> Covers(TxValues(txs), p) {
      if Covers(tx.values, p) {
        SpentIsClaimed(txs, tx, p);
      }
    }
    NothingCoversNothingSpends(txs, p);
  }

  lemma {:induction false} NothingCoversNothingSpends(txs: seq<OffChainTx>, p: nat)
    requires forall tx :: tx in txs ==> !Covers(tx.values, p)
    ensures SpendingTx(txs, p).None?
  {
    if txs != [] {
      NothingCoversNothingSpends(txs[1..], p);
    }
  }

  /** An older bundle of an accepted segment spends no point of the value. */
  lemma {:induction false} UnclaimedIsUnspent(sidecar: Sidecar, value: ValueRange, p: nat)
    requires !ClaimsIntersect(SidecarClaims(sidecar), value) && value.Has(p)
    ensures SpendingTx(sidecar.txs, p).None?
  {
    IntersectMeansSharedPoint(SidecarClaims(sidecar), value);
    ClaimRangesCover(TxValues(sidecar.txs));
    NoSpendOutsideClaims(sidecar.txs, p);
  }

  lemma {:induction false} OnlyTargetSpends(txs: seq<OffChainTx>, target: OffChainTx, p: nat)
    requires target in txs && Covers(target.values, p)
    requires forall tx :: tx in txs && Covers(tx.values, p) ==> tx == target
    ensures SpendingTx(txs, p) == Some(target)
  {
    if txs[0] != target {
      OnlyTargetSpends(txs[1..], target, p);
    }
  }

  /** The newest bundle of an accepted segment spends every point of the value, in the target transfer alone. */
  lemma {:induction false} TargetSpends(txs: seq<OffChainTx>, target: OffChainTx, value: ValueRange, p: nat)
    requires CountTx(txs, target) == 1 && TxCovers(target, value) && !ConflictsBeside(txs, target, value) && value.Has(p)
    ensures SpendingTx(txs, p) == Some(target)
  {
    CountedIsMember(txs, target);
    var j :| 0 <= j < |target.values| && target.values[j].Contains(value);
    assert target.values[j].Has(p);
    forall tx | tx in txs && Covers(tx.values, p) ensures tx == target {
      var i :| 0 <= i < |txs| && txs[i] == tx;
      var l :| 0 <= l < |tx.values| && tx.values[l].Has(p);
      assert txs[i].values[l].Intersects(value);
    }
    OnlyTargetSpends(txs, target, p);
  }

  // ----- One accepted segment

  /** The segment tells everything the owner did since acquiring the value. */
  ghost predicate CompleteSince(chain: seq<ConfirmedUnit>, acquired: nat) {
    chain != [] ==>
      var oldest := chain[|chain| - 1].receipt.prevRef;
      oldest.None? || oldest.value.height <= acquired
  }

  ghost predicate CanonicalUnits(blocks: seq<Block>, chain: seq<ConfirmedUnit>) {
    forall i {:trigger chain[i]} :: 0 <= i < |chain| ==> CanonicalUnit(blocks, chain[i])
  }

  /** A unit of an accepted segment: on the chain, linked to the next one, and clear of the value unless it is the newest. */
  ghost predicate SegmentUnit(blocks: seq<Block>, value: ValueRange, chain: seq<ConfirmedUnit>, i: nat)
    requires i < |chain|
  {
    && OnChain(blocks, chain[i])
    && (i + 1 < |chain| ==> chain[i].receipt.prevRef == Some(ConfirmedRef(chain[i + 1])))
    && (i > 0 ==> !ClaimsIntersect(SidecarClaims(chain[i].sidecar), value))
  }

  ghost predicate SegmentUnits(blocks: seq<Block>, value: ValueRange, chain: seq<ConfirmedUnit>) {
    forall i :: 0 <= i < |chain| ==> SegmentUnit(blocks, value, chain, i)
  }

  lemma {:induction false} SegmentIsOnChain(blocks: seq<Block>, value: ValueRange, chain: seq<ConfirmedUnit>, tx: OffChainTx)
    requires GoodBlocks(blocks) && CanonicalUnits(blocks, chain) && SegmentError(value, chain, 0, tx).None?
    ensures SegmentUnits(blocks, value, chain)
  {
    hide GoodBlocks, UnitProofVerifies, OnChain, LeafIn, LeavesAfter;
    forall i | 0 <= i < |chain| ensures SegmentUnit(blocks, value, chain, i) {
      assert UnitError(value, chain, i, tx).None?;
      ProvenUnitIsOnChain(blocks, chain[i]);
    }
  }

  /** The owner spends the point nowhere from height `low` + 1 up to, not including, height `high`. */
  ghost predicate Unspent(blocks: seq<Block>, owner: Address, p: nat, low: nat, high: nat) {
    forall k :: low <= k < high - 1 && k < |blocks| ==> SpendIn(blocks[k], owner, p).None?
  }

  lemma {:induction false} OldestUnit(blocks: seq<Block>, unit: ConfirmedUnit, acquired: nat, p: nat)
    requires GoodBlocks(blocks) && OnChain(blocks, unit) && CompleteSince([unit], acquired)
    ensures Unspent(blocks, unit.sidecar.sender, p, acquired, unit.receipt.header.height)
  {
    hide BundleOf, GoodBlocks, HeadOf, LeafIn, LeavesAfter, ReconstructedLeaf;
    GapIsQuiet(blocks, unit.receipt.header.height, unit.sidecar.sender);
  }

  lemma {:induction false} NewerUnit(
      blocks: seq<Block>, unit: ConfirmedUnit, prior: ConfirmedUnit, acquired: nat, value: ValueRange, p: nat)
    requires GoodBlocks(blocks) && OnChain(blocks, unit) && OnChain(blocks, prior)
    requires unit.receipt.prevRef == Some(ConfirmedRef(prior))
    requires Unspent(blocks, unit.sidecar.sender, p, acquired, prior.receipt.header.height)
    requires !ClaimsIntersect(SidecarClaims(prior.sidecar), value) && value.Has(p)
    ensures prior.receipt.header.height < unit.receipt.header.height
    ensures Unspent(blocks, unit.sidecar.sender, p, acquired, unit.receipt.header.height)
  {
    hide GoodBlocks, LeavesAfter, LeafIn;
    PredecessorSender(blocks, unit, prior);
    UnclaimedIsUnspent(prior.sidecar, value, p);
  }

  /** Since the acquisition and before a unit of the segment the owner has not spent the point. */
  ghost predicate UnspentAt(blocks: seq<Block>, unit: ConfirmedUnit, p: nat, acquired: nat) {
    acquired < HeightOf(unit) && Unspent(blocks, unit.sidecar.sender, p, acquired, HeightOf(unit))
  }

  lemma {:induction false} UnspentAtOldest(
      blocks: seq<Block>, value: ValueRange, chain: seq<ConfirmedUnit>, acquired: nat, p: nat, i: nat)
    requires GoodBlocks(blocks) && i == |chain| - 1 && SegmentUnit(blocks, value, chain, i)
    requires CompleteSince(chain, acquired) && acquired < HeightOf(chain[i])
    ensures UnspentAt(blocks, chain[i], p, acquired)
  {
    OldestUnit(blocks, chain[i], acquired, p);
  }

  lemma {:induction false} UnspentAtNewer(
      blocks: seq<Block>, value: ValueRange, unit: ConfirmedUnit, prior: ConfirmedUnit, acquired: nat, p: nat)
    requires GoodBlocks(blocks) && value.Has(p) && OnChain(blocks, unit) && OnChain(blocks, prior)
    requires unit.receipt.prevRef == Some(ConfirmedRef(prior)) && !ClaimsIntersect(SidecarClaims(prior.sidecar), value)
    requires UnspentAt(blocks, prior, p, acquired)
    ensures UnspentAt(blocks, unit, p, acquired)
  {
    PredecessorSender(blocks, unit, prior);
    NewerUnit(blocks, unit, prior, acquired, value, p);
  }

  lemma {:induction false} NeighboursInSegment(blocks: seq<Block>, value: ValueRange, chain: seq<ConfirmedUnit>, i: nat)
    requires SegmentUnits(blocks, value, chain) && i + 1 < |chain|
    ensures SegmentUnit(blocks, value, chain, i) && SegmentUnit(blocks, value, chain, i + 1)
  {
  }

  /** The owner does not spend the point between the acquisition and any unit of the segment. */
  lemma {:induction false} UnspentBefore(
      blocks: seq<Block>, value: ValueRange, chain: seq<ConfirmedUnit>, acquired: nat, p: nat, i: nat)
    requires GoodBlocks(blocks) && SegmentUnits(blocks, value, chain) && i < |chain| && value.Has(p)
    requires CompleteSince(chain, acquired) && acquired < HeightOf(chain[|chain| - 1])
    ensures UnspentAt(blocks, chain[i], p, acquired)
    decreases |chain| - i
  {
    if i == |chain| - 1 {
      UnspentAtOldest(blocks, value, chain, acquired, p, i);
    } else {
      NeighboursInSegment(blocks, value, chain, i);
      UnspentBefore(blocks, value, chain, acquired, p, i + 1);
      UnspentAtNewer(blocks, value, chain[i], chain[i + 1], acquired, p);
    }
  }

  lemma {:induction false} NewestHasNoConflict(value: ValueRange, chain: seq<ConfirmedUnit>, tx: OffChainTx)
    requires chain != [] && SegmentError(value, chain, 0, tx).None?
    ensures !ConflictsBeside(chain[0].sidecar.txs, tx, value)
  {
    assert UnitError(value, chain, 0, tx).None?;
  }

  /** The transfer an accepted segment ends with is the owner's first spend of each point since the acquisition. */
  lemma {:induction false} SegmentIsNextSpend(
      blocks: seq<Block>, value: ValueRange, chain: seq<ConfirmedUnit>, tx: OffChainTx, acquired: nat, p: nat)
    requires GoodBlocks(blocks) && CanonicalUnits(blocks, chain) && chain != []
    requires SegmentError(value, chain, 0, tx).None? && value.Has(p)
    requires CompleteSince(chain, acquired) && acquired < chain[|chain| - 1].receipt.header.height
    requires CountTx(chain[0].sidecar.txs, tx) == 1 && TxCovers(tx, value)
    ensures NextSpend(blocks, tx.sender, p, acquired) == Some(Hop(chain[0].receipt.header.height, tx))
  {
    SegmentIsOnChain(blocks, value, chain, tx);
    UnspentBefore(blocks, value, chain, acquired, p, 0);
    assert SegmentUnit(blocks, value, chain, 0);
    NewestHasNoConflict(value, chain, tx);
    TargetSpends(chain[0].sidecar.txs, tx, value, p);
    CountedIsMember(chain[0].sidecar.txs, tx);
    NextSpendIs(blocks, tx.sender, p, acquired, chain[0].receipt.header.height);
  }

  // ----- Whole histories

  /** Every header is the chain's, every proof an existence proof, every segment complete, and the root a genesis range. */
  ghost predicate CanonicalHistory(blocks: seq<Block>, w: Witness)
    decreases w
  {
    && CanonicalUnits(blocks, w.chain)
    && match w.anchor
       case GenesisAnchor(_, _, _) => CompleteSince(w.chain, 0)
       case CheckpointAnchor(_) => false
       case PriorWitnessLink(_, prior) =>
         && prior.chain != []
         && CompleteSince(w.chain, prior.chain[0].receipt.header.height)
         && CanonicalHistory(blocks, prior)
  }

  /** The transfers of a package's history, oldest first, ending with its own. */
  function PathOf(tx: OffChainTx, w: Witness): seq<Hop>
    decreases w
  {
    (match w.anchor
     case GenesisAnchor(_, _, _) => []
     case CheckpointAnchor(_) => []
     case PriorWitnessLink(acquireTx, prior) => PathOf(acquireTx, prior))
    + if w.chain == [] then [] else [Hop(w.chain[0].receipt.header.height, tx)]
  }

  /** The owner whose genesis allocation a history starts from. */
  function FirstOwner(w: Witness): Address
    decreases w
  {
    match w.anchor
    case PriorWitnessLink(_, prior) => FirstOwner(prior)
    case _ => w.owner
  }

  lemma {:induction false} TraceStep(blocks: seq<Block>, owner: Address, p: nat, after: nat, hop: Hop)
    requires NextSpend(blocks, owner, p, after) == Some(hop)
    ensures Trace(blocks, owner, p, after) == [hop] + Trace(blocks, hop.tx.recipient, p, hop.height)
  {
  }

  lemma {:induction false} GenesisTrace(
      ctx: ValidationContext, blocks: seq<Block>, tx: OffChainTx, value: ValueRange, w: Witness, recipient: Address,
      p: nat)
    requires GoodBlocks(blocks) && CanonicalHistory(blocks, w) && Accepts(ctx, tx, value, w, recipient) && value.Has(p)
    requires w.anchor.GenesisAnchor?
    ensures NextSpend(blocks, w.owner, p, 0) == Some(Hop(w.chain[0].receipt.header.height, tx))
  {
    assert CanonicalUnit(blocks, w.chain[|w.chain| - 1]);
    SegmentIsNextSpend(blocks, value, w.chain, tx, 0, p);
  }

  lemma {:induction false} TraceFromGenesis(blocks: seq<Block>, tx: OffChainTx, w: Witness, p: nat)
    requires w.anchor.GenesisAnchor? && w.chain != []
    requires NextSpend(blocks, w.owner, p, 0) == Some(Hop(w.chain[0].receipt.header.height, tx))
    ensures Trace(blocks, FirstOwner(w), p, 0) == PathOf(tx, w) + Trace(blocks, tx.recipient, p, w.chain[0].receipt.header.height)
  {
    TraceStep(blocks, w.owner, p, 0, Hop(w.chain[0].receipt.header.height, tx));
  }

  lemma {:induction false} LinkTrace(
      ctx: ValidationContext, blocks: seq<Block>, tx: OffChainTx, value: ValueRange, w: Witness, recipient: Address,
      p: nat)
    requires GoodBlocks(blocks) && CanonicalHistory(blocks, w) && Accepts(ctx, tx, value, w, recipient) && value.Has(p)
    requires w.anchor.PriorWitnessLink?
    ensures Accepts(ctx, w.anchor.acquireTx, value, w.anchor.prior, w.owner)
    ensures NextSpend(blocks, w.owner, p, w.anchor.prior.chain[0].receipt.header.height)
         == Some(Hop(w.chain[0].receipt.header.height, tx))
  {
    LinkAccepted(ctx, tx, value, w, recipient);
    SegmentIsNextSpend(blocks, value, w.chain, tx, w.anchor.prior.chain[0].receipt.header.height, p);
  }

  lemma {:induction false} TraceThroughLink(blocks: seq<Block>, tx: OffChainTx, w: Witness, p: nat)
    requires w.anchor.PriorWitnessLink? && w.chain != [] && w.anchor.prior.chain != []
    requires var acquired := w.anchor.prior.chain[0].receipt.header.height;
             && NextSpend(blocks, w.owner, p, acquired) == Some(Hop(w.chain[0].receipt.header.height, tx))
             && Trace(blocks, FirstOwner(w.anchor.prior), p, 0)
                == PathOf(w.anchor.acquireTx, w.anchor.prior) + Trace(blocks, w.owner, p, acquired)
    ensures Trace(blocks, FirstOwner(w), p, 0) == PathOf(tx, w) + Trace(blocks, tx.recipient, p, w.chain[0].receipt.header.height)
  {
    var hop := Hop(w.chain[0].receipt.header.height, tx);
    TraceStep(blocks, w.owner, p, w.anchor.prior.chain[0].receipt.header.height, hop);
    ConcatShifts(PathOf(w.anchor.acquireTx, w.anchor.prior), hop, Trace(blocks, tx.recipient, p, hop.height));
  }

  lemma ConcatShifts<T>(front: seq<T>, x: T, back: seq<T>)
    ensures front + ([x] + back) == (front + [x]) + back
  {
  }

  /**
    The chain's own story of a point, told from its first owner, begins with the history of any accepted package
    covering the point, and goes on from that package's recipient.
   */
  lemma {:induction false} AcceptedHistoryIsTrace(
      ctx: ValidationContext, blocks: seq<Block>, tx: OffChainTx, value: ValueRange, w: Witness, recipient: Address, p: nat)
    requires GoodBlocks(blocks) && CanonicalHistory(blocks, w) && Accepts(ctx, tx, value, w, recipient) && value.Has(p)
    ensures Trace(blocks, FirstOwner(w), p, 0)
         == PathOf(tx, w) + Trace(blocks, recipient, p, w.chain[0].receipt.header.height)
    decreases w
  {
    match w.anchor
    case GenesisAnchor(_, _, _) =>
      GenesisTrace(ctx, blocks, tx, value, w, recipient, p);
      TraceFromGenesis(blocks, tx, w, p);
    case PriorWitnessLink(acquireTx, prior) =>
      LinkTrace(ctx, blocks, tx, value, w, recipient, p);
      AcceptedHistoryIsTrace(ctx, blocks, acquireTx, value, prior, w.owner, p);
      TraceThroughLink(blocks, tx, w, p);
  }

  /** The genesis ranges of one point have one owner. */
  ghost predicate DisjointGenesis(genesis: map<Address, seq<ValueRange>>) {
    forall a, b, p {:trigger Covers(genesis[a], p), Covers(genesis[b], p)} ::
      a in genesis && b in genesis && Covers(genesis[a], p) && Covers(genesis[b], p) ==> a == b
  }

  lemma {:induction false} FirstOwnerHoldsPoint(
      ctx: ValidationContext, blocks: seq<Block>, tx: OffChainTx, value: ValueRange, w: Witness, recipient: Address, p: nat)
    requires CanonicalHistory(blocks, w) && Accepts(ctx, tx, value, w, recipient) && value.Has(p)
    ensures FirstOwner(w) in ctx.genesis && Covers(ctx.genesis[FirstOwner(w)], p)
    decreases w
  {
    assert AnchorError(ctx, value, w).None?;
    match w.anchor
    case GenesisAnchor(_, firstOwner, range) =>
      var i :| 0 <= i < |ctx.genesis[w.owner]| && ctx.genesis[w.owner][i].Contains(value) && ctx.genesis[w.owner][i] == range;
      assert ctx.genesis[w.owner][i].Has(p);
    case PriorWitnessLink(acquireTx, prior) =>
      FirstOwnerHoldsPoint(ctx, blocks, acquireTx, value, prior, w.owner, p);
  }

  /**
    Ownership history is unique: any two accepted packages that share a point tell the same story of it, one of them
    perhaps further; and if they tell equally much, they are the same transfer at the same height.
   */
  lemma {:induction false} HistoryIsUnique(
      a: ValidationContext, b: ValidationContext, blocks: seq<Block>, p: nat,
      x: TransferPackage, xRecipient: Address, y: TransferPackage, yRecipient: Address)
    requires GoodBlocks(blocks) && a.genesis == b.genesis && DisjointGenesis(a.genesis)
    requires CanonicalHistory(blocks, x.history) && CanonicalHistory(blocks, y.history)
    requires Accepts(a, x.tx, x.value, x.history, xRecipient) && Accepts(b, y.tx, y.value, y.history, yRecipient)
    requires x.value.Has(p) && y.value.Has(p)
    ensures PathOf(x.tx, x.history) <= PathOf(y.tx, y.history) || PathOf(y.tx, y.history) <= PathOf(x.tx, x.history)
    ensures |PathOf(x.tx, x.history)| == |PathOf(y.tx, y.history)| ==>
              && x.tx == y.tx && xRecipient == yRecipient
              && x.history.chain[0].receipt.header == y.history.chain[0].receipt.header
  {
    hide AnchorError, GoodBlocks, NextSpend, SegmentError;
    SameFirstOwner(a, b, blocks, p, x, xRecipient, y, yRecipient);
    AcceptedHistoryIsTrace(a, blocks, x.tx, x.value, x.history, xRecipient, p);
    AcceptedHistoryIsTrace(b, blocks, y.tx, y.value, y.history, yRecipient, p);
    PrefixesCompare(PathOf(x.tx, x.history), PathOf(y.tx, y.history), Trace(blocks, FirstOwner(x.history), p, 0));
    if PathOf(x.tx, x.history) == PathOf(y.tx, y.history) {
      SamePathSameEnd(blocks, x.tx, x.history, y.tx, y.history);
    }
  }

  lemma {:induction false} SameFirstOwner(
      a: ValidationContext, b: ValidationContext, blocks: seq<Block>, p: nat,
      x: TransferPackage, xRecipient: Address, y: TransferPackage, yRecipient: Address)
    requires a.genesis == b.genesis && DisjointGenesis(a.genesis)
    requires CanonicalHistory(blocks, x.history) && CanonicalHistory(blocks, y.history)
    requires Accepts(a, x.tx, x.value, x.history, xRecipient) && Accepts(b, y.tx, y.value, y.history, yRecipient)
    requires x.value.Has(p) && y.value.Has(p)
    ensures FirstOwner(x.history) == FirstOwner(y.history)
  {
    FirstOwnerHoldsPoint(a, blocks, x.tx, x.value, x.history, xRecipient, p);
    FirstOwnerHoldsPoint(b, blocks, y.tx, y.value, y.history, yRecipient, p);
  }

  lemma {:induction false} PathEndsWithItself(blocks: seq<Block>, tx: OffChainTx, w: Witness)
    requires w.chain != [] && CanonicalHistory(blocks, w)
    ensures PathOf(tx, w) != [] && PathOf(tx, w)[|PathOf(tx, w)| - 1] == Hop(w.chain[0].receipt.header.height, tx)
    ensures 1 <= w.chain[0].receipt.header.height <= |blocks|
    ensures w.chain[0].receipt.header == LiteOf(blocks[w.chain[0].receipt.header.height - 1])
  {
    assert CanonicalUnit(blocks, w.chain[0]);
  }

  lemma {:induction false} SamePathSameEnd(blocks: seq<Block>, tx: OffChainTx, w: Witness, tx': OffChainTx, w': Witness)
    requires w.chain != [] && CanonicalHistory(blocks, w) && w'.chain != [] && CanonicalHistory(blocks, w')
    requires PathOf(tx, w) == PathOf(tx', w')
    ensures tx == tx' && w.chain[0].receipt.header == w'.chain[0].receipt.header
  {
    PathEndsWithItself(blocks, tx, w);
    PathEndsWithItself(blocks, tx', w');
  }

  lemma PrefixesCompare<T>(a: seq<T>, b: seq<T>, whole: seq<T>)
    requires a <= whole && b <= whole
    ensures a <= b || b <= a
    ensures |a| == |b| ==> a == b
  {
    assert a == whole[..|a|] && b == whole[..|b|];
    if |a| <= |b| {
      assert whole[..|b|][..|a|] == whole[..|a|];
    } else {
      assert whole[..|a|][..|b|] == whole[..|b|];
    }
  }
}

/**
  What a recipient's validator accepts, told without its code: every layer of the history stands, each owner got the
  value before spending it, and the bottom is a genesis range or a checkpoint the recipient trusts.
 */
module Acceptance {
  import opened Prelude
  import opened Sorting
  import opened Values
  import opened Types
  import opened ClaimSets
  import opened Ledger
  import opened SparseMerkle
  import opened Validation
  import opened Selection
  import opened Wallets
  import opened TwoPhase

  // ----- Layers

  /** One owner's part of a history: the owner's bundles, newest first, and the transfer that hands the value on. */
  datatype Layer = Layer(tx: OffChainTx, owner: Address, chain: seq<ConfirmedUnit>, recipient: Address)

  function Layers(tx: OffChainTx, w: Witness, recipient: Address): (layers: seq<Layer>)
    ensures layers != []
    decreases w
  {
    [Layer(tx, w.owner, w.chain, recipient)]
    + match w.anchor
      case PriorWitnessLink(acquireTx, prior) => Layers(acquireTx, prior, w.owner)
      case _ => []
  }

  /** The first owner's part. */
  function Bottom(w: Witness): (bottom: Witness)
    ensures !bottom.anchor.PriorWitnessLink?
    decreases w
  {
    match w.anchor
    case PriorWitnessLink(_, prior) => Bottom(prior)
    case _ => w
  }

  ghost predicate HoldsAll(range: ValueRange, value: ValueRange) {
    forall p :: value.Has(p) ==> range.Has(p)
  }

  ghost predicate SharesPoint(range: ValueRange, value: ValueRange) {
    exists p :: range.Has(p) && value.Has(p)
  }

  /** Some range that the bundle spends shares a point with the value. */
  ghost predicate Touches(sidecar: Sidecar, value: ValueRange) {
    exists i, k :: 0 <= i < |sidecar.txs| && 0 <= k < |sidecar.txs[i].values| && SharesPoint(sidecar.txs[i].values[k], value)
  }

  /** Whatever the newest bundle spends of the value, the target transfer spends, in a range that holds all of it. */
  ghost predicate SpentByTargetOnly(sidecar: Sidecar, target: OffChainTx, value: ValueRange) {
    forall i, k :: 0 <= i < |sidecar.txs| && 0 <= k < |sidecar.txs[i].values| && SharesPoint(sidecar.txs[i].values[k], value) ==>
      sidecar.txs[i] == target && HoldsAll(sidecar.txs[i].values[k], value)
  }

  /** The unit's leaf, with the bundle's own claims if it declares any, is proved under its header, and it follows the next unit. */
  ghost predicate UnitProved(chain: seq<ConfirmedUnit>, i: nat)
    requires i < |chain|
  {
    var receipt, sidecar := chain[i].receipt, chain[i].sidecar;
    var head := BundleRef(receipt.header.height, receipt.header.blockHash, BundleBodyHash(sidecar), receipt.seqNo);
    && (receipt.claimSetHash == None || receipt.claimSetHash == Some(ClaimHash(sidecar)))
    && receipt.proof.Single?
    && VerifyProof(receipt.header.stateRoot, sidecar.sender.key,
                   AccountLeafHash(AccountLeaf(sidecar.sender, Some(head), receipt.prevRef, receipt.claimSetHash)),
                   receipt.proof.proof, 256)
    && (i + 1 < |chain| ==>
          var prior := chain[i + 1];
          receipt.prevRef == Some(BundleRef(prior.receipt.header.height, prior.receipt.header.blockHash,
                                            BundleBodyHash(prior.sidecar), prior.receipt.seqNo)))
  }

  /** The layer's owner sends exactly the value: once, in the newest bundle, and in no other transfer or bundle. */
  ghost predicate LayerStands(value: ValueRange, l: Layer) {
    && l.owner == l.tx.sender && l.tx.recipient == l.recipient
    && (exists i :: 0 <= i < |l.tx.values| && HoldsAll(l.tx.values[i], value))
    && l.chain != []
    && multiset(l.chain[0].sidecar.txs)[l.tx] == 1
    && (forall i {:trigger UnitProved(l.chain, i)} :: 0 <= i < |l.chain| ==> UnitProved(l.chain, i))
    && SpentByTargetOnly(l.chain[0].sidecar, l.tx, value)
    && forall i :: 0 < i < |l.chain| ==> !Touches(l.chain[i].sidecar, value)
  }

  /** The upper owner's oldest bundle lies above the bundle by which the lower owner handed the value on. */
  ghost predicate AcquiredBelow(upper: Layer, lower: Layer) {
    && upper.chain != [] && lower.chain != []
    && lower.chain[0].receipt.header.height < upper.chain[|upper.chain| - 1].receipt.header.height
  }

  /** The first owner was allotted a range that holds the value, or the recipient trusts a checkpoint of exactly this value and owner. */
  ghost predicate Rooted(ctx: ValidationContext, value: ValueRange, bottom: Witness) {
    match bottom.anchor
    case GenesisAnchor(_, firstOwner, range) =>
      && firstOwner == bottom.owner && bottom.owner in ctx.genesis && range in ctx.genesis[bottom.owner]
      && HoldsAll(range, value)
    case CheckpointAnchor(checkpoint) => checkpoint in ctx.trusted && checkpoint.value == value && checkpoint.owner == bottom.owner
    case PriorWitnessLink(_, _) => false
  }

  // ----- Points instead of interval tests

  lemma ContainsIsPoints(range: ValueRange, value: ValueRange)
    ensures range.Contains(value) <==> HoldsAll(range, value)
  {
    assert value.Has(value.begin) && value.Has(value.end);
  }

  lemma IntersectsIsPoint(range: ValueRange, value: ValueRange)
    ensures range.Intersects(value) <==> SharesPoint(range, value)
  {
    if range.Intersects(value) {
      var p := if range.begin < value.begin then value.begin else range.begin;
      assert range.Has(p) && value.Has(p);
    }
  }

  lemma CoveringIsPoints(tx: OffChainTx, value: ValueRange)
    ensures TxCovers(tx, value) <==> exists i :: 0 <= i < |tx.values| && HoldsAll(tx.values[i], value)
  {
    hide HoldsAll;
    forall i | 0 <= i < |tx.values| ensures tx.values[i].Contains(value) <==> HoldsAll(tx.values[i], value) {
      ContainsIsPoints(tx.values[i], value);
    }
  }

  lemma RangesAreTested(sidecar: Sidecar, value: ValueRange)
    ensures forall i, k :: 0 <= i < |sidecar.txs| && 0 <= k < |sidecar.txs[i].values| ==>
              && (sidecar.txs[i].values[k].Intersects(value) <==> SharesPoint(sidecar.txs[i].values[k], value))
              && (sidecar.txs[i].values[k].Contains(value) <==> HoldsAll(sidecar.txs[i].values[k], value))
  {
    hide HoldsAll, SharesPoint;
    forall i, k | 0 <= i < |sidecar.txs| && 0 <= k < |sidecar.txs[i].values|
      ensures sidecar.txs[i].values[k].Intersects(value) <==> SharesPoint(sidecar.txs[i].values[k], value)
      ensures sidecar.txs[i].values[k].Contains(value) <==> HoldsAll(sidecar.txs[i].values[k], value)
    {
      IntersectsIsPoint(sidecar.txs[i].values[k], value);
      ContainsIsPoints(sidecar.txs[i].values[k], value);
    }
  }

  lemma ClaimsTouch(sidecar: Sidecar, value: ValueRange)
    ensures ClaimsIntersect(SidecarClaims(sidecar), value) <==> Touches(sidecar, value)
  {
    hide ClaimsIntersect, SharesPoint, SidecarClaims;
    ClaimTestAgreesWithScan(sidecar, value);
    RangesAreTested(sidecar, value);
  }

  lemma ConflictIsPoint(sidecar: Sidecar, target: OffChainTx, value: ValueRange)
    ensures !ConflictsBeside(sidecar.txs, target, value) <==> SpentByTargetOnly(sidecar, target, value)
  {
    hide HoldsAll, SharesPoint;
    RangesAreTested(sidecar, value);
  }

  lemma {:induction false} CountIsMultiplicity(txs: seq<OffChainTx>, tx: OffChainTx)
    ensures CountTx(txs, tx) == multiset(txs)[tx]
  {
    if txs != [] {
      CountIsMultiplicity(txs[..|txs| - 1], tx);
      assert txs == txs[..|txs| - 1] + [txs[|txs| - 1]];
    }
  }

  // ----- The checks decide the layers

  lemma UnitChecksDecide(value: ValueRange, chain: seq<ConfirmedUnit>, i: nat, target: OffChainTx)
    requires i < |chain|
    ensures UnitError(value, chain, i, target).None? <==>
            && UnitProved(chain, i)
            && (i == 0 ==> SpentByTargetOnly(chain[i].sidecar, target, value))
            && (i > 0 ==> !Touches(chain[i].sidecar, value))
  {
    hide ClaimsIntersect, ConflictsBeside, SpentByTargetOnly, Touches, VerifyProof;
    ClaimsTouch(chain[i].sidecar, value);
    ConflictIsPoint(chain[i].sidecar, target, value);
  }

  lemma {:induction false} SegmentChecksDecide(value: ValueRange, chain: seq<ConfirmedUnit>, target: OffChainTx)
    requires chain != []
    ensures SegmentError(value, chain, 0, target).None? <==>
            && (forall i {:trigger UnitProved(chain, i)} :: 0 <= i < |chain| ==> UnitProved(chain, i))
            && SpentByTargetOnly(chain[0].sidecar, target, value)
            && forall i :: 0 < i < |chain| ==> !Touches(chain[i].sidecar, value)
  {
    hide SegmentError, SpentByTargetOnly, Touches, UnitError, UnitProved;
    forall i | 0 <= i < |chain|
      ensures UnitError(value, chain, i, target).None? <==>
              && UnitProved(chain, i)
              && (i == 0 ==> SpentByTargetOnly(chain[i].sidecar, target, value))
              && (i > 0 ==> !Touches(chain[i].sidecar, value))
    {
      UnitChecksDecide(value, chain, i, target);
    }
  }

  /** Without its anchor, a transfer passes exactly if its layer stands. */
  lemma {:induction false} LayerChecksDecide(ctx: ValidationContext, tx: OffChainTx, value: ValueRange, w: Witness, recipient: Address)
    ensures Accepts(ctx, tx, value, w, recipient) <==>
            LayerStands(value, Layer(tx, w.owner, w.chain, recipient)) && AnchorError(ctx, value, w).None?
  {
    hide AnchorError, CountTx, SegmentError, SpentByTargetOnly, Touches, TxCovers, UnitProved;
    CoveringIsPoints(tx, value);
    if w.chain != [] {
      CountIsMultiplicity(w.chain[0].sidecar.txs, tx);
      SegmentChecksDecide(value, w.chain, tx);
    }
  }

  lemma {:induction false} GenesisDecides(ctx: ValidationContext, value: ValueRange, w: Witness)
    requires w.anchor.GenesisAnchor?
    ensures AnchorError(ctx, value, w).None? <==> Rooted(ctx, value, w)
  {
    ContainsIsPoints(w.anchor.range, value);
    if Rooted(ctx, value, w) {
      var i :| 0 <= i < |ctx.genesis[w.owner]| && ctx.genesis[w.owner][i] == w.anchor.range;
      assert ctx.genesis[w.owner][i].Contains(value);
    }
  }

  lemma {:induction false} CheckpointDecides(ctx: ValidationContext, value: ValueRange, w: Witness)
    requires w.anchor.CheckpointAnchor?
    ensures AnchorError(ctx, value, w).None? <==> Rooted(ctx, value, w)
  {
    if Rooted(ctx, value, w) {
      var i :| 0 <= i < |ctx.trusted| && ctx.trusted[i] == w.anchor.checkpoint;
      assert ctx.trusted[i].Matches(value, w.owner);
    }
  }

  /** Every layer stands, and each owner got the value before spending it. */
  ghost predicate LayersStand(value: ValueRange, layers: seq<Layer>) {
    && (forall k {:trigger layers[k]} :: 0 <= k < |layers| ==> LayerStands(value, layers[k]))
    && forall k {:trigger layers[k]} :: 0 < k < |layers| ==> AcquiredBelow(layers[k - 1], layers[k])
  }

  lemma OneMoreLayer(value: ValueRange, first: Layer, rest: seq<Layer>)
    requires rest != []
    ensures LayersStand(value, [first] + rest) <==> LayerStands(value, first) && AcquiredBelow(first, rest[0]) && LayersStand(value, rest)
  {
    hide AcquiredBelow, LayerStands;
    var all := [first] + rest;
    forall k | 0 <= k < |rest| ensures all[k + 1] == rest[k] {
    }
    if LayersStand(value, all) {
      assert all[0] == first && all[1] == rest[0];
      forall k {:trigger rest[k]} | 0 <= k < |rest|
        ensures LayerStands(value, rest[k]) && (0 < k ==> AcquiredBelow(rest[k - 1], rest[k]))
      {
        assert all[k + 1] == rest[k] && (0 < k ==> all[k] == rest[k - 1]);
      }
    }
    if LayerStands(value, first) && AcquiredBelow(first, rest[0]) && LayersStand(value, rest) {
      forall k {:trigger all[k]} | 0 <= k < |all|
        ensures LayerStands(value, all[k]) && (0 < k ==> AcquiredBelow(all[k - 1], all[k]))
      {
        assert k > 0 ==> all[k] == rest[k - 1];
        assert k > 1 ==> all[k - 1] == rest[k - 2];
      }
    }
  }

  lemma OneLayer(value: ValueRange, l: Layer, layers: seq<Layer>)
    requires layers == [l]
    ensures LayersStand(value, layers) <==> LayerStands(value, l)
  {
    hide LayerStands;
    assert layers[0] == l;
  }

  /**
    The validator accepts a transfer if and only if every layer of its history stands, each owner got the value before
    spending it, and the bottom is a genesis range or a trusted checkpoint.
   */
  lemma {:induction false} AcceptedIffStanding(
      ctx: ValidationContext, tx: OffChainTx, value: ValueRange, w: Witness, recipient: Address)
    ensures Accepts(ctx, tx, value, w, recipient) <==> LayersStand(value, Layers(tx, w, recipient)) && Rooted(ctx, value, Bottom(w))
    decreases w
  {
    hide LayerStands, Rooted;
    LayerChecksDecide(ctx, tx, value, w, recipient);
    var l := Layer(tx, w.owner, w.chain, recipient);
    match w.anchor
    case GenesisAnchor(_, _, _) =>
      OneLayer(value, l, Layers(tx, w, recipient));
      GenesisDecides(ctx, value, w);
    case CheckpointAnchor(_) =>
      OneLayer(value, l, Layers(tx, w, recipient));
      CheckpointDecides(ctx, value, w);
    case PriorWitnessLink(acquireTx, prior) =>
      AcceptedIffStanding(ctx, acquireTx, value, prior, w.owner);
      LinkDecides(ctx, tx, value, w, recipient);
  }

  lemma {:induction false} LinkDecides(ctx: ValidationContext, tx: OffChainTx, value: ValueRange, w: Witness, recipient: Address)
    requires w.anchor.PriorWitnessLink?
    requires Accepts(ctx, w.anchor.acquireTx, value, w.anchor.prior, w.owner) <==>
             LayersStand(value, Layers(w.anchor.acquireTx, w.anchor.prior, w.owner)) && Rooted(ctx, value, Bottom(w.anchor.prior))
    requires Accepts(ctx, tx, value, w, recipient) <==>
             LayerStands(value, Layer(tx, w.owner, w.chain, recipient)) && AnchorError(ctx, value, w).None?
    ensures Accepts(ctx, tx, value, w, recipient) <==> LayersStand(value, Layers(tx, w, recipient)) && Rooted(ctx, value, Bottom(w))
  {
    hide LayersStand, Rooted;
    OneMoreLayer(value, Layer(tx, w.owner, w.chain, recipient), Layers(w.anchor.acquireTx, w.anchor.prior, w.owner));
  }

  /** A checkpoint that an accepted history ends in is one the recipient trusts, of exactly this value and owner. */
  lemma {:induction false} CheckpointIsTrusted(
      ctx: ValidationContext, tx: OffChainTx, value: ValueRange, w: Witness, recipient: Address)
    requires Accepts(ctx, tx, value, w, recipient) && Bottom(w).anchor.CheckpointAnchor?
    ensures Bottom(w).anchor.checkpoint in ctx.trusted
    ensures Bottom(w).anchor.checkpoint.value == value && Bottom(w).anchor.checkpoint.owner == Bottom(w).owner
  {
    hide LayersStand;
    AcceptedIffStanding(ctx, tx, value, w, recipient);
  }

  // ----- Checkpoints a wallet vouches for

  /** One of the records holds the checkpoint's range for its owner, with a unit in the checkpoint's block, of its bundle. */
  ghost predicate Remembers(records: Records, c: Checkpoint) {
    exists r, i {:trigger r.history.chain[i]} :: r in records && 0 <= i < |r.history.chain|
      && r.value == c.value && r.history.value == c.value && r.history.owner == c.owner
      && r.history.chain[i].receipt.header.height == c.height
      && r.history.chain[i].receipt.header.blockHash == c.blockHash
      && BundleBodyHash(r.history.chain[i].sidecar) == c.bundleHash
  }

  lemma {:induction false} FoundIffRemembered(records: Records, c: Checkpoint)
    ensures FindCheckpointed(records, c).Some? <==> Remembers(records, c)
  {
    if records != [] {
      FoundIffRemembered(records[1..], c);
      if records[0].value == c.value && CheckpointMatches(c, records[0].history) {
        var i :| 0 <= i < |records[0].history.chain| && UnitMatches(c, records[0].history.chain[i]);
        assert records[0] in records && UnitMatches(c, records[0].history.chain[i]);
      }
      if r, i :| r in records && 0 <= i < |r.history.chain| && r.value == c.value && r.history.value == c.value &&
                 r.history.owner == c.owner && UnitMatches(c, r.history.chain[i]) {
        assert r == records[0] || r in records[1..];
      }
    }
  }

  /** A wallet vouches for the checkpoint a history ends in exactly if it is the owner and remembers it. */
  lemma {:induction false} VouchesForOwn(w: Wallet, history: Witness, c: Checkpoint)
    ensures c in TrustedCheckpoints(w, history) <==>
            Bottom(history).anchor == CheckpointAnchor(c) && c.owner == w.address && Remembers(w.records, c)
    decreases history
  {
    if history.anchor.PriorWitnessLink? {
      VouchesForOwn(w, history.anchor.prior, c);
    } else if history.anchor.CheckpointAnchor? {
      FoundIffRemembered(w.records, history.anchor.checkpoint);
    }
  }

  /**
    A recipient that trusts only itself accepts a history if and only if its layers stand and it goes back to a genesis
    range, or to the recipient's own earlier ownership of exactly this value, which its records still show.
   */
  lemma {:induction false} TrustingItself(
      genesis: map<Address, seq<ValueRange>>, me: Wallet, tx: OffChainTx, value: ValueRange, w: Witness)
    ensures var bottom := Bottom(w);
            Accepts(ValidationContext(genesis, TrustedCheckpoints(me, w)), tx, value, w, me.address) <==>
              && LayersStand(value, Layers(tx, w, me.address))
              && match bottom.anchor
                 case GenesisAnchor(_, firstOwner, range) =>
                   firstOwner == bottom.owner && bottom.owner in genesis && range in genesis[bottom.owner] && HoldsAll(range, value)
                 case CheckpointAnchor(c) =>
                   c.value == value && c.owner == bottom.owner && bottom.owner == me.address && Remembers(me.records, c)
                 case PriorWitnessLink(_, _) => false
  {
    hide HoldsAll, LayersStand, Remembers;
    AcceptedIffStanding(ValidationContext(genesis, TrustedCheckpoints(me, w)), tx, value, w, me.address);
    if Bottom(w).anchor.CheckpointAnchor? {
      VouchesForOwn(me, w, Bottom(w).anchor.checkpoint);
    }
  }

  // ----- What cutting a history leaves

  /** The parts of a history, newest owner first. */
  function Nodes(w: Witness): (nodes: seq<Witness>)
    ensures nodes != [] && nodes[0] == w
    decreases w
  {
    [w] + if w.anchor.PriorWitnessLink? then Nodes(w.anchor.prior) else []
  }

  function ChainLength(): Witness -> nat {
    (n: Witness) => |n.chain|
  }

  /** The units the planner counts: those of all parts, and the way to a checkpoint is all of them if there is one. */
  lemma {:induction false} UnitsOfAllParts(w: Witness)
    ensures TotalUnits(w) == Sum(ChainLength(), Nodes(w))
    ensures UnitsToCheckpoint(w) == if Bottom(w).anchor.CheckpointAnchor? then Finite(TotalUnits(w)) else Infinite
    decreases w
  {
    if w.anchor.PriorWitnessLink? {
      UnitsOfAllParts(w.anchor.prior);
      SumConcat(ChainLength(), [w], Nodes(w.anchor.prior));
    }
    SumOne(ChainLength(), w);
  }

  /** The recipient held the very range there and spent it in confirmed bundles. */
  ghost predicate OwnBefore(node: Witness, recipient: Address, target: ValueRange) {
    node.owner == recipient && node.value == target && node.chain != []
  }

  /** Up to a node both histories tell the same. */
  ghost predicate SameUpTo(x: Witness, y: Witness, k: nat) {
    && k < |Nodes(x)| && k < |Nodes(y)|
    && (forall j {:trigger Nodes(x)[j]} {:trigger Nodes(y)[j]} :: 0 <= j <= k ==>
          Nodes(x)[j].value == Nodes(y)[j].value && Nodes(x)[j].owner == Nodes(y)[j].owner && Nodes(x)[j].chain == Nodes(y)[j].chain)
    && forall j {:trigger Nodes(x)[j]} {:trigger Nodes(y)[j]} :: 0 <= j < k ==>
         && Nodes(x)[j].anchor.PriorWitnessLink? && Nodes(y)[j].anchor.PriorWitnessLink?
         && Nodes(x)[j].anchor.acquireTx == Nodes(y)[j].anchor.acquireTx
  }

  lemma {:induction false} TrimKeepsForeign(w: Witness, recipient: Address, target: ValueRange)
    requires forall j :: 0 <= j < |Nodes(w)| ==> !OwnBefore(Nodes(w)[j], recipient, target)
    ensures TrimForRecipient(w, recipient, target) == w
    decreases w
  {
    assert !OwnBefore(Nodes(w)[0], recipient, target);
    if w.anchor.PriorWitnessLink? {
      forall j | 0 <= j < |Nodes(w.anchor.prior)| ensures !OwnBefore(Nodes(w.anchor.prior)[j], recipient, target) {
        assert Nodes(w)[j + 1] == Nodes(w.anchor.prior)[j];
      }
      TrimKeepsForeign(w.anchor.prior, recipient, target);
    }
  }

  lemma SameOneDeeper(x: Witness, y: Witness, k: nat)
    requires x.anchor.PriorWitnessLink? && y.anchor.PriorWitnessLink? && SameUpTo(x.anchor.prior, y.anchor.prior, k)
    requires x.value == y.value && x.owner == y.owner && x.chain == y.chain && x.anchor.acquireTx == y.anchor.acquireTx
    ensures SameUpTo(x, y, k + 1)
  {
    forall j {:trigger Nodes(x)[j]} {:trigger Nodes(y)[j]} | 0 <= j <= k + 1
      ensures Nodes(x)[j].value == Nodes(y)[j].value && Nodes(x)[j].owner == Nodes(y)[j].owner && Nodes(x)[j].chain == Nodes(y)[j].chain
      ensures j < k + 1 ==> Nodes(x)[j].anchor.PriorWitnessLink? && Nodes(y)[j].anchor.PriorWitnessLink? &&
                            Nodes(x)[j].anchor.acquireTx == Nodes(y)[j].anchor.acquireTx
    {
      if j > 0 {
        assert Nodes(x)[j] == Nodes(x.anchor.prior)[j - 1] && Nodes(y)[j] == Nodes(y.anchor.prior)[j - 1];
      }
    }
  }

  /** The cut history ends at this node, in a checkpoint of the node's newest unit, and keeps everything above. */
  ghost predicate EndsAt(cut: Witness, w: Witness, recipient: Address, target: ValueRange, k: nat)
    requires k < |Nodes(w)| && Nodes(w)[k].chain != []
  {
    var unit := Nodes(w)[k].chain[0];
    && |Nodes(cut)| == k + 1 && SameUpTo(cut, w, k)
    && Nodes(cut)[k].anchor == CheckpointAnchor(Checkpoint(
         target, recipient, unit.receipt.header.height, unit.receipt.header.blockHash, BundleBodyHash(unit.sidecar)))
  }

  lemma {:induction false} CutHere(w: Witness, recipient: Address, target: ValueRange)
    requires OwnBefore(w, recipient, target)
    ensures EndsAt(TrimForRecipient(w, recipient, target), w, recipient, target, 0)
  {
  }

  lemma {:induction false} CutOneDeeper(cut: Witness, w: Witness, recipient: Address, target: ValueRange, k: nat)
    requires cut.anchor.PriorWitnessLink? && w.anchor.PriorWitnessLink? && cut == w.(anchor := cut.anchor)
    requires cut.anchor.acquireTx == w.anchor.acquireTx
    requires k < |Nodes(w.anchor.prior)| && Nodes(w.anchor.prior)[k].chain != []
    requires EndsAt(cut.anchor.prior, w.anchor.prior, recipient, target, k)
    ensures k + 1 < |Nodes(w)| && Nodes(w)[k + 1] == Nodes(w.anchor.prior)[k] && EndsAt(cut, w, recipient, target, k + 1)
  {
    hide SameUpTo;
    SameOneDeeper(cut, w, k);
  }

  /**
    Cutting ends a history at the recipient's first own node, in a checkpoint of its newest unit, and keeps everything
    above; a history without such a node is kept whole.
   */
  lemma {:induction false} TrimEndsAtOwn(w: Witness, recipient: Address, target: ValueRange, k: nat)
    requires k < |Nodes(w)| && OwnBefore(Nodes(w)[k], recipient, target)
    requires forall j :: 0 <= j < k ==> !OwnBefore(Nodes(w)[j], recipient, target)
    ensures EndsAt(TrimForRecipient(w, recipient, target), w, recipient, target, k)
    decreases w
  {
    hide EndsAt;
    if k == 0 {
      CutHere(w, recipient, target);
    } else {
      assert !OwnBefore(Nodes(w)[0], recipient, target);
      var prior := w.anchor.prior;
      forall j | 0 <= j < |Nodes(prior)| ensures Nodes(w)[j + 1] == Nodes(prior)[j] {
      }
      TrimEndsAtOwn(prior, recipient, target, k - 1);
      CutOneDeeper(TrimForRecipient(w, recipient, target), w, recipient, target, k - 1);
    }
  }

  // ----- Sending and receiving

  /** An archived record of exactly this range, the wallet's own, whose newest bundle holds the transfer once. */
  ghost predicate CanSend(r: LocalValueRecord, address: Address, tx: OffChainTx, value: ValueRange) {
    && r.status == Archived && r.value == value && r.history.owner == address
    && r.history.chain != [] && multiset(r.history.chain[0].sidecar.txs)[tx] == 1
  }

  /** A wallet exports its own transfer exactly if one of its records can send the value, with that record's history. */
  lemma {:induction false} ExportDecides(w: Wallet, tx: OffChainTx, value: ValueRange)
    ensures ExportTransferPackage(w, tx, value).Ok? <==>
            tx.sender == w.address && exists r :: r in w.records && CanSend(r, w.address, tx, value)
    ensures ExportTransferPackage(w, tx, value).Ok? ==>
              exists r :: r in w.records && CanSend(r, w.address, tx, value) &&
                ExportTransferPackage(w, tx, value).value == TransferPackage(tx, value, TrimForRecipient(r.history, tx.recipient, value))
  {
    forall r: LocalValueRecord ensures Exports(r, w.address, tx, value) <==> CanSend(r, w.address, tx, value) {
      if r.history.chain != [] {
        CountIsMultiplicity(r.history.chain[0].sidecar.txs, tx);
      }
    }
    if r :| r in w.records && CanSend(r, w.address, tx, value) {
      var i :| 0 <= i < |w.records| && w.records[i] == r;
      assert Exports(w.records[i], w.address, tx, value) && SentAway(w.records[i], w.address, value);
    }
  }

  /** A wallet takes a package once, and if it validates; it then owns one more record, spendable from the transfer's block on. */
  lemma {:induction false} ReceiveDecides(w: Wallet, package: TransferPackage, context: ValidationContext)
    ensures ReceiveTransfer(w, package, context).Ok? <==>
            package !in w.accepted && Accepts(context, package.tx, package.value, package.history, w.address)
    ensures ReceiveTransfer(w, package, context).Ok? ==>
              var after := ReceiveTransfer(w, package, context).value;
              && after.accepted == w.accepted + {package}
              && package.history.chain != []
              && multiset(after.records) == multiset(w.records) + multiset{LocalValueRecord(
                   w.nextId, package.value, Rehydrate(w, Witness(package.value, w.address, [], PriorWitnessLink(package.tx, package.history))),
                   VerifiedSpendable, package.history.chain[0].receipt.header.height)}
  {
    hide Rehydrate, TransferError, RecordLe;
    if ReceiveTransfer(w, package, context).Ok? {
      assert package.history.chain != [] by {
        assert TransferError(context, package.tx, package.value, package.history, w.address).None?;
      }
      SortPermutes(w.records + [LocalValueRecord(
        w.nextId, package.value, Rehydrate(w, AcceptedWitness(package, w.address)), VerifiedSpendable,
        package.history.chain[0].receipt.header.height)], RecordLe);
    }
  }
}

/**
  The sparse Merkle tree over account leaves, its membership proofs, and the multiproof that shares
  sibling hashes between several keys.
 */
module SparseMerkle {
  import opened Prelude
  import opened Types

  /** Every stored key is a full path of the tree. */
  ghost predicate WellKeyed(depth: nat, values: map<Bits, Hash>) {
    forall k :: k in values ==> |k| == depth
  }

  /** The items handed to a subtree all lie below one prefix of length `nodeDepth`. */
  ghost predicate BelowOneNode(depth: nat, nodeDepth: nat, items: map<Bits, Hash>)
    requires nodeDepth <= depth
  {
    && WellKeyed(depth, items)
    && forall k, l :: k in items && l in items ==> k[..nodeDepth] == l[..nodeDepth]
  }

  function DefaultHash(height: nat): Hash {
    if height == 0 then EmptyLeafHash else NodeHash(DefaultHash(height - 1), DefaultHash(height - 1))
  }

  function LeftItems(nodeDepth: nat, items: map<Bits, Hash>): map<Bits, Hash> {
    map k | k in items && nodeDepth < |k| && !k[nodeDepth] :: items[k]
  }

  function RightItems(nodeDepth: nat, items: map<Bits, Hash>): map<Bits, Hash> {
    map k | k in items && nodeDepth < |k| && k[nodeDepth] :: items[k]
  }

  lemma HalvesStayBelowOneNode(depth: nat, nodeDepth: nat, items: map<Bits, Hash>)
    requires nodeDepth < depth && BelowOneNode(depth, nodeDepth, items)
    ensures BelowOneNode(depth, nodeDepth + 1, LeftItems(nodeDepth, items))
    ensures BelowOneNode(depth, nodeDepth + 1, RightItems(nodeDepth, items))
  {
    forall k, l | k in items && l in items && k[nodeDepth] == l[nodeDepth]
      ensures k[..nodeDepth + 1] == l[..nodeDepth + 1]
    {
      assert k[..nodeDepth + 1] == k[..nodeDepth] + [k[nodeDepth]];
      assert l[..nodeDepth + 1] == l[..nodeDepth] + [l[nodeDepth]];
    }
  }

  /**
    The hash of a subtree, recursing on the items below it and using a precomputed default for an
    empty one. At leaf depth the precondition leaves exactly one item.
   */
  function SubtreeHash(depth: nat, nodeDepth: nat, items: map<Bits, Hash>): Hash
    requires nodeDepth <= depth && BelowOneNode(depth, nodeDepth, items)
    decreases depth - nodeDepth
  {
    if items == map[] then
      DefaultHash(depth - nodeDepth)
    else if nodeDepth == depth then
      assert forall k, l :: k in items && l in items ==> k == k[..depth] == l[..depth] == l;
      var key :| key in items;
      LeafHash(key, items[key])
    else
      HalvesStayBelowOneNode(depth, nodeDepth, items);
      NodeHash(
        SubtreeHash(depth, nodeDepth + 1, LeftItems(nodeDepth, items)),
        SubtreeHash(depth, nodeDepth + 1, RightItems(nodeDepth, items)))
  }

  /** The sibling hashes of a path, leaf level first. */
  function Siblings(depth: nat, nodeDepth: nat, key: Bits, items: map<Bits, Hash>): (siblings: seq<Hash>)
    requires nodeDepth <= depth == |key| && BelowOneNode(depth, nodeDepth, items)
    ensures |siblings| == depth - nodeDepth
    decreases depth - nodeDepth
  {
    if nodeDepth == depth then []
    else
      HalvesStayBelowOneNode(depth, nodeDepth, items);
      var left, right := LeftItems(nodeDepth, items), RightItems(nodeDepth, items);
      var (path, other) := if key[nodeDepth] then (right, left) else (left, right);
      Siblings(depth, nodeDepth + 1, key, path) + [SubtreeHash(depth, nodeDepth + 1, other)]
  }

  function Root(depth: nat, values: map<Bits, Hash>): Hash
    requires WellKeyed(depth, values)
  {
    SubtreeHash(depth, 0, values)
  }

  function Prove(depth: nat, values: map<Bits, Hash>, key: Bits): SmtProof
    requires WellKeyed(depth, values) && |key| == depth
  {
    SmtProof(Siblings(depth, 0, key, values), key in values)
  }

  /** The verifier's fold, from the leaf upwards, steered by the key's bits from the least significant one. */
  function FoldProof(key: Bits, siblings: seq<Hash>, level: nat, current: Hash): Hash
    requires level <= |siblings| == |key|
    decreases |siblings| - level
  {
    if level == |siblings| then current
    else
      var sibling := siblings[level];
      FoldProof(key, siblings, level + 1,
                if key[|key| - 1 - level] then NodeHash(sibling, current) else NodeHash(current, sibling))
  }

  /** The leaf the fold starts from: an absence proof does not look at the value. */
  function StartHash(key: Bits, valueHash: Hash, proof: SmtProof): Hash {
    if proof.existence then LeafHash(key, valueHash) else EmptyLeafHash
  }

  predicate VerifyProof(root: Hash, key: Bits, valueHash: Hash, proof: SmtProof, depth: nat) {
    && |key| == depth
    && |proof.siblings| == depth
    && FoldProof(key, proof.siblings, 0, StartHash(key, valueHash, proof)) == root
  }

  // ----- The reference meaning of a tree: one hash a prefix, with no special case for empty subtrees.

  function NodeAt(depth: nat, values: map<Bits, Hash>, prefix: Bits): Hash
    requires |prefix| <= depth
    decreases depth - |prefix|
  {
    if |prefix| == depth then
      if prefix in values then LeafHash(prefix, values[prefix]) else EmptyLeafHash
    else
      NodeHash(NodeAt(depth, values, prefix + [false]), NodeAt(depth, values, prefix + [true]))
  }

  /** The items of a map that lie below a prefix. */
  function Below(values: map<Bits, Hash>, prefix: Bits): map<Bits, Hash> {
    map k | k in values && prefix <= k :: values[k]
  }

  lemma SplitBelow(depth: nat, values: map<Bits, Hash>, prefix: Bits)
    requires WellKeyed(depth, values) && |prefix| < depth
    ensures LeftItems(|prefix|, Below(values, prefix)) == Below(values, prefix + [false])
    ensures RightItems(|prefix|, Below(values, prefix)) == Below(values, prefix + [true])
  {
    forall k, b | k in values
      ensures prefix <= k && k[|prefix|] == b <==> prefix + [b] <= k
    {
      if prefix <= k && k[|prefix|] == b {
        assert k[..|prefix| + 1] == prefix + [b];
      }
    }
  }

  lemma {:induction false} EmptySubtreeHasDefaultHash(depth: nat, values: map<Bits, Hash>, prefix: Bits)
    requires WellKeyed(depth, values) && |prefix| <= depth && Below(values, prefix) == map[]
    ensures NodeAt(depth, values, prefix) == DefaultHash(depth - |prefix|)
    decreases depth - |prefix|
  {
    if |prefix| == depth {
      assert prefix in values ==> prefix in Below(values, prefix);
    } else {
      SplitBelow(depth, values, prefix);
      EmptySubtreeHasDefaultHash(depth, values, prefix + [false]);
      EmptySubtreeHasDefaultHash(depth, values, prefix + [true]);
    }
  }

  lemma {:induction false} LeafSubtree(depth: nat, values: map<Bits, Hash>, prefix: Bits)
    requires WellKeyed(depth, values) && |prefix| == depth && Below(values, prefix) != map[]
    ensures BelowOneNode(depth, depth, Below(values, prefix))
    ensures prefix in values && SubtreeHash(depth, depth, Below(values, prefix)) == LeafHash(prefix, values[prefix])
  {
    assert forall k :: k in Below(values, prefix) ==> k == prefix;
    assert Below(values, prefix) == map[prefix := values[prefix]];
  }

  /** The recursion over items computes the reference hash of the prefix they lie below. */
  lemma {:induction false} SubtreeIsNode(depth: nat, values: map<Bits, Hash>, prefix: Bits, items: map<Bits, Hash>)
    requires WellKeyed(depth, values) && |prefix| <= depth && items == Below(values, prefix)
    requires BelowOneNode(depth, |prefix|, items)
    ensures SubtreeHash(depth, |prefix|, items) == NodeAt(depth, values, prefix)
    decreases depth - |prefix|, 1
  {
    if items == map[] {
      EmptySubtreeHasDefaultHash(depth, values, prefix);
    } else if |prefix| == depth {
      LeafSubtree(depth, values, prefix);
    } else {
      InnerSubtree(depth, values, prefix, items);
    }
  }

  lemma {:induction false} InnerSubtree(depth: nat, values: map<Bits, Hash>, prefix: Bits, items: map<Bits, Hash>)
    requires WellKeyed(depth, values) && |prefix| < depth && items == Below(values, prefix) && items != map[]
    requires BelowOneNode(depth, |prefix|, items)
    ensures SubtreeHash(depth, |prefix|, items) == NodeAt(depth, values, prefix)
    decreases depth - |prefix|, 0
  {
    SplitBelow(depth, values, prefix);
    HalvesStayBelowOneNode(depth, |prefix|, items);
    SubtreeIsNode(depth, values, prefix + [false], LeftItems(|prefix|, items));
    SubtreeIsNode(depth, values, prefix + [true], RightItems(|prefix|, items));
  }

  lemma {:induction false} SubtreeHashIsNode(depth: nat, values: map<Bits, Hash>, prefix: Bits)
    requires WellKeyed(depth, values) && |prefix| <= depth
    ensures BelowOneNode(depth, |prefix|, Below(values, prefix))
    ensures SubtreeHash(depth, |prefix|, Below(values, prefix)) == NodeAt(depth, values, prefix)
  {
    assert forall k :: k in Below(values, prefix) ==> k[..|prefix|] == prefix;
    SubtreeIsNode(depth, values, prefix, Below(values, prefix));
  }

  /** The prefix of the node beside the path, `level` steps above the leaf. */
  function SiblingPrefix(key: Bits, level: nat): (prefix: Bits)
    requires level < |key|
    ensures |prefix| == |key| - level
  {
    var split := |key| - level - 1;
    key[..split] + [!key[split]]
  }

  /** One step of the proof walk: the half on the key's path lies below the next prefix, the other half is the sibling. */
  lemma SiblingStep(depth: nat, values: map<Bits, Hash>, key: Bits, nodeDepth: nat)
    requires WellKeyed(depth, values) && nodeDepth < depth == |key|
    ensures var items := Below(values, key[..nodeDepth]);
            && (if key[nodeDepth] then RightItems(nodeDepth, items) else LeftItems(nodeDepth, items))
               == Below(values, key[..nodeDepth + 1])
            && (if key[nodeDepth] then LeftItems(nodeDepth, items) else RightItems(nodeDepth, items))
               == Below(values, SiblingPrefix(key, depth - nodeDepth - 1))
  {
    var prefix := key[..nodeDepth];
    assert key[..nodeDepth + 1] == prefix + [key[nodeDepth]];
    assert SiblingPrefix(key, depth - nodeDepth - 1) == prefix + [!key[nodeDepth]];
    SplitBelow(depth, values, prefix);
  }

  lemma {:induction false} SiblingsAreNodes(depth: nat, values: map<Bits, Hash>, key: Bits, nodeDepth: nat, level: nat)
    requires WellKeyed(depth, values) && nodeDepth + level < depth == |key|
    ensures BelowOneNode(depth, nodeDepth, Below(values, key[..nodeDepth]))
    ensures Siblings(depth, nodeDepth, key, Below(values, key[..nodeDepth]))[level]
         == NodeAt(depth, values, SiblingPrefix(key, level))
    decreases depth - nodeDepth
  {
    SubtreeHashIsNode(depth, values, key[..nodeDepth]);
    SiblingStep(depth, values, key, nodeDepth);
    if nodeDepth + level + 1 == depth {
      SubtreeHashIsNode(depth, values, SiblingPrefix(key, level));
    } else {
      SiblingsAreNodes(depth, values, key, nodeDepth + 1, level);
    }
  }

  lemma WholeTreeBelowRoot(values: map<Bits, Hash>)
    ensures Below(values, []) == values
  {
  }

  /** The recursive root and the recursive proof compute the reference hashes. */
  lemma {:induction false} TreeRefinesNodes(depth: nat, values: map<Bits, Hash>, key: Bits)
    requires WellKeyed(depth, values) && |key| == depth
    ensures Root(depth, values) == NodeAt(depth, values, [])
    ensures forall level :: 0 <= level < depth ==>
              Prove(depth, values, key).siblings[level] == NodeAt(depth, values, SiblingPrefix(key, level))
  {
    WholeTreeBelowRoot(values);
    SubtreeHashIsNode(depth, values, []);
    assert key[..0] == [];
    forall level | 0 <= level < depth
      ensures Prove(depth, values, key).siblings[level] == NodeAt(depth, values, SiblingPrefix(key, level))
    {
      SiblingsAreNodes(depth, values, key, 0, level);
    }
  }

  /** From the level on, the siblings are the tree's own. */
  ghost predicate OwnSiblings(depth: nat, values: map<Bits, Hash>, key: Bits, siblings: seq<Hash>, level: nat)
    requires depth == |key| == |siblings|
  {
    forall j :: level <= j < depth ==> siblings[j] == NodeAt(depth, values, SiblingPrefix(key, j))
  }

  /** One hash of the fold is a node exactly when what it hashes are the node's children. */
  lemma {:induction false} FoldStep(depth: nat, values: map<Bits, Hash>, key: Bits, level: nat, current: Hash, sibling: Hash, next: Hash)
    requires level < depth == |key|
    requires next == if key[depth - 1 - level] then NodeHash(sibling, current) else NodeHash(current, sibling)
    ensures next == NodeAt(depth, values, key[..depth - (level + 1)]) <==>
            current == NodeAt(depth, values, key[..depth - level]) && sibling == NodeAt(depth, values, SiblingPrefix(key, level))
  {
    assert key[..depth - level] == key[..depth - (level + 1)] + [key[depth - 1 - level]];
  }

  /** Folding upwards reaches the root exactly when the current hash and every remaining sibling are the tree's own. */
  lemma {:induction false} FoldReachesRoot(
      depth: nat, values: map<Bits, Hash>, key: Bits, siblings: seq<Hash>, level: nat, current: Hash)
    requires level <= depth == |key| == |siblings|
    ensures FoldProof(key, siblings, level, current) == NodeAt(depth, values, []) <==>
            current == NodeAt(depth, values, key[..depth - level]) && OwnSiblings(depth, values, key, siblings, level)
    decreases depth - level
  {
    hide NodeAt, SiblingPrefix;
    if level == depth {
      assert key[..0] == [];
    } else {
      var sibling := siblings[level];
      var next := if key[depth - 1 - level] then NodeHash(sibling, current) else NodeHash(current, sibling);
      FoldReachesRoot(depth, values, key, siblings, level + 1, next);
      FoldStep(depth, values, key, level, current, sibling, next);
    }
  }

  /**
    A proof verifies against a tree's root exactly when its siblings are the tree's and, for an existence
    proof, the value is the stored one; for an absence proof the key is missing and the value is ignored.
   */
  lemma VerifyDecides(depth: nat, values: map<Bits, Hash>, key: Bits, valueHash: Hash, proof: SmtProof)
    requires WellKeyed(depth, values) && |key| == depth
    ensures VerifyProof(Root(depth, values), key, valueHash, proof, depth) <==>
            && proof.siblings == Prove(depth, values, key).siblings
            && if proof.existence then key in values && values[key] == valueHash else key !in values
  {
    hide Root, Siblings;
    TreeRefinesNodes(depth, values, key);
    if |proof.siblings| == depth {
      assert key[..depth] == key;
      FoldReachesRoot(depth, values, key, proof.siblings, 0, StartHash(key, valueHash, proof));
      var own := Prove(depth, values, key).siblings;
      assert proof.siblings == own <==> forall j :: 0 <= j < depth ==> proof.siblings[j] == own[j];
    }
  }

  /** The tree's own proof verifies for a stored key with its value, and, as absence, for a missing key with any value. */
  lemma ProveVerifies(depth: nat, values: map<Bits, Hash>, key: Bits, valueHash: Hash)
    requires WellKeyed(depth, values) && |key| == depth
    ensures VerifyProof(Root(depth, values), key, valueHash, Prove(depth, values, key), depth) <==>
            (key in values ==> values[key] == valueHash)
  {
    VerifyDecides(depth, values, key, valueHash, Prove(depth, values, key));
  }

  /** No two trees with different contents share a root. */
  lemma RootBindsContents(depth: nat, a: map<Bits, Hash>, b: map<Bits, Hash>)
    requires WellKeyed(depth, a) && WellKeyed(depth, b) && Root(depth, a) == Root(depth, b)
    ensures a == b
  {
    forall k | |k| == depth
      ensures k in a <==> k in b
      ensures k in a ==> a[k] == b[k]
    {
      var v := if k in a then a[k] else EmptyLeafHash;
      ProveVerifies(depth, a, k, v);
      VerifyDecides(depth, b, k, v, Prove(depth, a, k));
    }
  }

  // ----- Multiproofs

  /** The sibling prefixes of the lowest `levels` levels of a key's path. */
  function KeyPrefixes(key: Bits, levels: nat): set<Bits>
    requires levels <= |key|
  {
    if levels == 0 then {} else KeyPrefixes(key, levels - 1) + {SiblingPrefix(key, levels - 1)}
  }

  function SiblingPrefixes(depth: nat, keys: seq<Bits>): set<Bits>
    requires forall k :: k in keys ==> |k| == depth
  {
    if keys == [] then {}
    else SiblingPrefixes(depth, keys[..|keys| - 1]) + KeyPrefixes(keys[|keys| - 1], depth)
  }

  lemma {:induction false} KeyPrefixesHoldSiblings(key: Bits, levels: nat, level: nat)
    requires level < levels <= |key|
    ensures SiblingPrefix(key, level) in KeyPrefixes(key, levels)
  {
    if level + 1 < levels {
      KeyPrefixesHoldSiblings(key, levels - 1, level);
    }
  }

  lemma {:induction false} ListedSiblingsAreShared(depth: nat, keys: seq<Bits>, key: Bits, level: nat)
    requires (forall k :: k in keys ==> |k| == depth) && key in keys && level < depth
    ensures SiblingPrefix(key, level) in SiblingPrefixes(depth, keys)
  {
    if key == keys[|keys| - 1] {
      KeyPrefixesHoldSiblings(key, depth, level);
    } else {
      ListedSiblingsAreShared(depth, keys[..|keys| - 1], key, level);
    }
  }

  lemma {:induction false} KeyPrefixesFit(key: Bits, levels: nat)
    requires levels <= |key|
    ensures forall p :: p in KeyPrefixes(key, levels) ==> |p| <= |key|
  {
    if levels != 0 {
      KeyPrefixesFit(key, levels - 1);
    }
  }

  lemma {:induction false} SiblingPrefixesFit(depth: nat, keys: seq<Bits>)
    requires forall k :: k in keys ==> |k| == depth
    ensures forall p :: p in SiblingPrefixes(depth, keys) ==> |p| <= depth
  {
    if keys != [] {
      SiblingPrefixesFit(depth, keys[..|keys| - 1]);
      KeyPrefixesFit(keys[|keys| - 1], depth);
    }
  }

  /** One node for each sibling prefix of a listed key. */
  function SharedNodes(depth: nat, values: map<Bits, Hash>, keys: seq<Bits>): map<Bits, Hash>
    requires forall k :: k in keys ==> |k| == depth
  {
    SiblingPrefixesFit(depth, keys);
    map p | p in SiblingPrefixes(depth, keys) :: NodeAt(depth, values, p)
  }

  function MultiProofOf(depth: nat, values: map<Bits, Hash>, keys: seq<Bits>): MultiProof
    requires forall k :: k in keys ==> |k| == depth
  {
    MultiProof(depth, keys, SharedNodes(depth, values, keys))
  }

  function MaterializedSibling(multi: MultiProof, key: Bits, level: nat): Hash
    requires level < |key|
  {
    var prefix := SiblingPrefix(key, level);
    if prefix in multi.nodes then multi.nodes[prefix] else DefaultHash(level)
  }

  function Materialize(multi: MultiProof, key: Bits): SmtProof
    requires |key| == multi.depth
  {
    SmtProof(seq(multi.depth, level requires 0 <= level < |key| => MaterializedSibling(multi, key, level)),
             key in multi.keys)
  }

  /** For a listed key the shared proof expands to the tree's own proof exactly when the key is stored. */
  lemma MaterializeRefinesProve(depth: nat, values: map<Bits, Hash>, keys: seq<Bits>, key: Bits)
    requires WellKeyed(depth, values) && (forall k :: k in keys ==> |k| == depth) && key in keys
    ensures Materialize(MultiProofOf(depth, values, keys), key).siblings == Prove(depth, values, key).siblings
    ensures Materialize(MultiProofOf(depth, values, keys), key) == Prove(depth, values, key) <==> key in values
  {
    TreeRefinesNodes(depth, values, key);
    var multi := MultiProofOf(depth, values, keys);
    forall level | 0 <= level < depth
      ensures MaterializedSibling(multi, key, level) == Prove(depth, values, key).siblings[level]
    {
      ListedSiblingsAreShared(depth, keys, key, level);
    }
  }

  // ----- The imperative forms

  method SplitItems(nodeDepth: nat, items: map<Bits, Hash>) returns (left: map<Bits, Hash>, right: map<Bits, Hash>)
    requires forall k :: k in items ==> nodeDepth < |k|
    ensures left == LeftItems(nodeDepth, items) && right == RightItems(nodeDepth, items)
  {
    left, right := map[], map[];
    var todo := items.Keys;
    while todo != {}
      invariant todo <= items.Keys
      invariant left == LeftItems(nodeDepth, items - todo)
      invariant right == RightItems(nodeDepth, items - todo)
      decreases todo
    {
      var key :| key in todo;
      if key[nodeDepth] {
        right := right[key := items[key]];
      } else {
        left := left[key := items[key]];
      }
      todo := todo - {key};
    }
    assert items - {} == items;
  }

  method CheckProof(root: Hash, key: Bits, valueHash: Hash, proof: SmtProof, depth: nat) returns (ok: bool)
    ensures ok <==> VerifyProof(root, key, valueHash, proof, depth)
  {
    if |key| != depth || |proof.siblings| != depth {
      return false;
    }
    var current := StartHash(key, valueHash, proof);
    for level := 0 to |proof.siblings|
      invariant FoldProof(key, proof.siblings, level, current)
             == FoldProof(key, proof.siblings, 0, StartHash(key, valueHash, proof))
    {
      var sibling := proof.siblings[level];
      current := if key[|key| - 1 - level] then NodeHash(sibling, current) else NodeHash(current, sibling);
    }
    ok := current == root;
  }

  class SparseMerkleTree {
    const depth: nat
    var values: map<Bits, Hash>

    ghost predicate Valid() reads this {
      WellKeyed(depth, values)
    }

    constructor (depth: nat, values: map<Bits, Hash> := map[])
      requires WellKeyed(depth, values)
      ensures Valid() && this.depth == depth && this.values == values
    {
      this.depth := depth;
      this.values := values;
    }

    /** Stores a value; a key of the wrong length is refused and nothing changes. */
    method Set(key: Bits, valueHash: Hash) returns (ok: bool)
      requires Valid()
      modifies this`values
      ensures Valid()
      ensures ok <==> |key| == depth
      ensures values == if ok then old(values)[key := valueHash] else old(values)
    {
      if |key| != depth {
        return false;
      }
      values := values[key := valueHash];
      ok := true;
    }

    method ProveRecursive(nodeDepth: nat, key: Bits, items: map<Bits, Hash>) returns (proof: seq<Hash>)
      requires nodeDepth <= depth == |key| && BelowOneNode(depth, nodeDepth, items)
      ensures proof == Siblings(depth, nodeDepth, key, items)
      decreases depth - nodeDepth
    {
      if nodeDepth == depth {
        return [];
      }
      HalvesStayBelowOneNode(depth, nodeDepth, items);
      var left, right := SplitItems(nodeDepth, items);
      var path, other := left, right;
      if key[nodeDepth] {
        path, other := right, left;
      }
      var siblingHash := SubtreeHash(depth, nodeDepth + 1, other);
      proof := ProveRecursive(nodeDepth + 1, key, path);
      proof := proof + [siblingHash];
    }

    /** A fresh proof, or nothing for a key of the wrong length. */
    method ProveKey(key: Bits) returns (r: Option<SmtProof>)
      requires Valid()
      ensures r == if |key| == depth then Some(Prove(depth, values, key)) else None
    {
      if |key| != depth {
        return None;
      }
      var siblings := ProveRecursive(0, key, values);
      r := Some(SmtProof(siblings, key in values));
    }
  }

  /** Adds one key's siblings, keeping the first hash seen for a prefix: the map keeps agreeing with `node`. */
  method AddSiblings(key: Bits, siblings: seq<Hash>, before: map<Bits, Hash>, ghost node: Bits -> Hash)
      returns (nodes: map<Bits, Hash>)
    requires |siblings| == |key|
    requires forall l :: 0 <= l < |key| ==> siblings[l] == node(SiblingPrefix(key, l))
    requires forall p :: p in before ==> before[p] == node(p)
    ensures nodes.Keys == before.Keys + KeyPrefixes(key, |key|)
    ensures forall p :: p in nodes ==> nodes[p] == node(p)
  {
    nodes := before;
    for level := 0 to |siblings|
      invariant nodes.Keys == before.Keys + KeyPrefixes(key, level)
      invariant forall p :: p in nodes ==> nodes[p] == node(p)
    {
      var prefix := SiblingPrefix(key, level);
      if prefix !in nodes {
        nodes := nodes[prefix := siblings[level]];
      }
    }
  }

  ghost function NodeOracle(depth: nat, values: map<Bits, Hash>): Bits -> Hash {
    p => if |p| <= depth then NodeAt(depth, values, p) else EmptyLeafHash
  }

  /** What one more key adds to the shared nodes. */
  lemma {:induction false} SharedNodesGrow(
      depth: nat, values: map<Bits, Hash>, keys: seq<Bits>, key: Bits, nodes: map<Bits, Hash>)
    requires |key| == depth && forall k :: k in keys ==> |k| == depth
    requires nodes.Keys == SharedNodes(depth, values, keys).Keys + KeyPrefixes(key, depth)
    requires forall p :: p in nodes ==> nodes[p] == NodeOracle(depth, values)(p)
    ensures nodes == SharedNodes(depth, values, keys + [key])
  {
    assert (keys + [key])[..|keys|] == keys;
    SiblingPrefixesFit(depth, keys + [key]);
  }

  /** Builds the shared proof by proving each key in turn; a key of the wrong length is refused. */
  method BuildMultiproof(tree: SparseMerkleTree, keys: seq<Bits>) returns (r: Option<MultiProof>)
    requires tree.Valid()
    ensures r.Some? <==> forall k :: k in keys ==> |k| == tree.depth
    ensures r.Some? ==> r.value == MultiProofOf(tree.depth, tree.values, keys)
  {
    var nodes: map<Bits, Hash> := map[];
    for i := 0 to |keys|
      invariant forall k :: k in keys[..i] ==> |k| == tree.depth
      invariant nodes == SharedNodes(tree.depth, tree.values, keys[..i])
    {
      assert keys[..i + 1] == keys[..i] + [keys[i]];
      if |keys[i]| != tree.depth {
        assert keys[i] in keys;
        return None;
      }
      var proof := tree.ProveKey(keys[i]);
      TreeRefinesNodes(tree.depth, tree.values, keys[i]);
      SiblingPrefixesFit(tree.depth, keys[..i]);
      nodes := AddSiblings(keys[i], proof.value.siblings, nodes, NodeOracle(tree.depth, tree.values));
      SharedNodesGrow(tree.depth, tree.values, keys[..i], keys[i], nodes);
    }
    assert keys[..|keys|] == keys;
    r := Option.Some(MultiProof(tree.depth, keys, nodes));
  }

  method MaterializeProof(multi: MultiProof, key: Bits) returns (r: Option<SmtProof>)
    ensures r == if |key| == multi.depth then Some(Materialize(multi, key)) else None
  {
    if |key| != multi.depth {
      return None;
    }
    var siblings: seq<Hash> := [];
    for level := 0 to multi.depth
      invariant |siblings| == level
      invariant forall l :: 0 <= l < level ==> siblings[l] == MaterializedSibling(multi, key, l)
    {
      siblings := siblings + [MaterializedSibling(multi, key, level)];
    }
    assert siblings == Materialize(multi, key).siblings;
    r := Some(SmtProof(siblings, key in multi.keys));
  }
}

/** Hashing helpers of the chain, and the order in which accounts appear in a block. */
module Ledger {
  import opened Prelude
  import opened Sorting
  import opened Types
  import opened ClaimSets

  // ----- Bundles

  predicate VerifyEnvelope(envelope: Envelope, publicKey: PublicKey) {
    && envelope.sig.Signed?
    && envelope.sig.signer == publicKey.address
    && envelope.sig.digest == EnvelopeDigest(envelope.payload)
  }

  function SignEnvelope(payload: SigningPayload, signer: Address, nonce: nat): (envelope: Envelope)
    ensures forall publicKey :: VerifyEnvelope(envelope, publicKey) <==> publicKey.address == signer
  {
    Envelope(payload, Signed(signer, EnvelopeDigest(payload), nonce))
  }

  /** A declared claim-set hash, when there is one, is that of the bundle. */
  predicate ClaimHashOk(declared: Option<Hash>, sidecar: Sidecar) {
    declared.Some? ==> declared.value == ClaimHash(sidecar)
  }

  function ConfirmedRef(unit: ConfirmedUnit): BundleRef {
    BundleRef(unit.receipt.header.height, unit.receipt.header.blockHash, BundleBodyHash(unit.sidecar), unit.receipt.seqNo)
  }

  function HeightOf(unit: ConfirmedUnit): nat {
    unit.receipt.header.height
  }

  function ReconstructedLeaf(unit: ConfirmedUnit): AccountLeaf {
    AccountLeaf(unit.sidecar.sender, Some(ConfirmedRef(unit)), unit.receipt.prevRef, unit.receipt.claimSetHash)
  }

  // ----- The diff root

  function PairUp(level: seq<Hash>): seq<Hash> {
    if level == [] then []
    else if |level| == 1 then [DiffNodeHash(level[0], level[0])]
    else [DiffNodeHash(level[0], level[1])] + PairUp(level[2..])
  }

  lemma {:induction false} PairUpHalves(level: seq<Hash>)
    ensures |PairUp(level)| == (|level| + 1) / 2
  {
    if |level| > 1 {
      PairUpHalves(level[2..]);
    }
  }

  function MerkleRoot(level: seq<Hash>): Hash
    decreases |level|
  {
    PairUpHalves(level);
    if level == [] then MerkleEmptyHash
    else if |level| == 1 then level[0]
    else MerkleRoot(PairUp(level))
  }

  /** One pass over a level: an odd last node is paired with itself. */
  method PairLevel(level: seq<Hash>) returns (nextLevel: seq<Hash>)
    ensures nextLevel == PairUp(level)
  {
    nextLevel := [];
    var index := 0;
    while index < |level|
      invariant 0 <= index <= |level| + 1
      invariant index <= |level| ==> nextLevel + PairUp(level[index..]) == PairUp(level)
      invariant index > |level| ==> nextLevel == PairUp(level)
    {
      var left := level[index];
      var right := if index + 1 < |level| then level[index + 1] else left;
      if index + 2 <= |level| {
        assert level[index..][2..] == level[index + 2..];
      }
      nextLevel := nextLevel + [DiffNodeHash(left, right)];
      index := index + 2;
    }
  }

  method ComputeMerkleRoot(leaves: seq<Hash>) returns (root: Hash)
    ensures root == MerkleRoot(leaves)
  {
    if leaves == [] {
      return MerkleEmptyHash;
    }
    var level := leaves;
    while |level| > 1
      invariant level != [] && MerkleRoot(level) == MerkleRoot(leaves)
    {
      PairUpHalves(level);
      level := PairLevel(level);
    }
    root := level[0];
  }

  function EntryHashes(entries: seq<DiffEntry>): seq<Hash> {
    seq(|entries|, i requires 0 <= i < |entries| => DiffLeafHash(entries[i]))
  }

  function DiffRoot(entries: seq<DiffEntry>): Hash {
    if entries == [] then EmptyDiffRootHash else MerkleRoot(EntryHashes(entries))
  }

  function DeriveBlockHash(
      version: nat, chainId: nat, height: nat, prevBlockHash: Hash, timestamp: nat, proposerSig: Bytes,
      consensusExtra: Bytes, entries: seq<DiffEntry>): Hash
  {
    BlockIdHash(BlockId(version, chainId, height, prevBlockHash, timestamp, proposerSig, consensusExtra,
                        EntryKeys(entries),
                        seq(|entries|, i requires 0 <= i < |entries| => entries[i].bundleHash)))
  }

  function EntryKeys(entries: seq<DiffEntry>): seq<Key> {
    seq(|entries|, i requires 0 <= i < |entries| => entries[i].addrKey)
  }

  /** The block hash of these header fields, whatever keys and bundles the id itself lists, and these entries. */
  function BlockHashOf(id: BlockId, entries: seq<DiffEntry>): Hash {
    DeriveBlockHash(id.version, id.chainId, id.height, id.prevBlockHash, id.timestamp, id.proposerSig, id.consensusExtra, entries)
  }

  ghost predicate SameHeaderFields(x: BlockId, y: BlockId) {
    && x.version == y.version && x.chainId == y.chainId && x.height == y.height && x.prevBlockHash == y.prevBlockHash
    && x.timestamp == y.timestamp && x.proposerSig == y.proposerSig && x.consensusExtra == y.consensusExtra
  }

  ghost predicate SameKeysAndBundles(entries: seq<DiffEntry>, others: seq<DiffEntry>) {
    && |entries| == |others|
    && forall i :: 0 <= i < |entries| ==> entries[i].addrKey == others[i].addrKey && entries[i].bundleHash == others[i].bundleHash
  }

  lemma EqualKeysAndBundles(entries: seq<DiffEntry>, others: seq<DiffEntry>)
    ensures EntryKeys(entries) == EntryKeys(others)
         && seq(|entries|, i requires 0 <= i < |entries| => entries[i].bundleHash)
            == seq(|others|, i requires 0 <= i < |others| => others[i].bundleHash)
       <==> SameKeysAndBundles(entries, others)
  {
    var hashes := seq(|entries|, i requires 0 <= i < |entries| => entries[i].bundleHash);
    var otherHashes := seq(|others|, i requires 0 <= i < |others| => others[i].bundleHash);
    if EntryKeys(entries) == EntryKeys(others) && hashes == otherHashes {
      forall i | 0 <= i < |entries|
        ensures entries[i].addrKey == others[i].addrKey && entries[i].bundleHash == others[i].bundleHash
      {
        assert EntryKeys(entries)[i] == EntryKeys(others)[i] && hashes[i] == otherHashes[i];
      }
    }
  }

  /** Equal block hashes name the same header fields, and entry by entry the same key and bundle hash. */
  lemma BlockHashNames(x: BlockId, entries: seq<DiffEntry>, y: BlockId, others: seq<DiffEntry>)
    ensures BlockHashOf(x, entries) == BlockHashOf(y, others) <==> SameHeaderFields(x, y) && SameKeysAndBundles(entries, others)
  {
    hide EntryKeys, SameKeysAndBundles;
    EqualKeysAndBundles(entries, others);
  }

  // ----- What the diff root determines

  lemma {:induction false} PairsDetermineLevel(a: seq<Hash>, b: seq<Hash>)
    requires |a| == |b| && PairUp(a) == PairUp(b)
    ensures a == b
  {
    if |a| == 1 {
      assert PairUp(a)[0] == PairUp(b)[0];
    } else if |a| > 1 {
      assert PairUp(a)[0] == PairUp(b)[0] && PairUp(a)[1..] == PairUp(a[2..]) && PairUp(b)[1..] == PairUp(b[2..]);
      PairsDetermineLevel(a[2..], b[2..]);
      assert a == [a[0], a[1]] + a[2..] && b == [b[0], b[1]] + b[2..];
    }
  }

  lemma {:induction false} RootDeterminesLevel(a: seq<Hash>, b: seq<Hash>)
    requires |a| == |b| && MerkleRoot(a) == MerkleRoot(b)
    ensures a == b
    decreases |a|
  {
    if |a| > 1 {
      PairUpHalves(a);
      PairUpHalves(b);
      RootDeterminesLevel(PairUp(a), PairUp(b));
      PairsDetermineLevel(a, b);
    }
  }

  /** Of as many entries, the diff root determines each one, although an odd node is paired with itself. */
  lemma {:induction false} DiffRootDetermines(entries: seq<DiffEntry>, others: seq<DiffEntry>)
    requires |entries| == |others|
    ensures DiffRoot(entries) == DiffRoot(others) <==> entries == others
  {
    if entries != [] && DiffRoot(entries) == DiffRoot(others) {
      RootDeterminesLevel(EntryHashes(entries), EntryHashes(others));
      forall i | 0 <= i < |entries| ensures entries[i] == others[i] {
        assert EntryHashes(entries)[i] == EntryHashes(others)[i];
      }
    }
  }

  lemma {:induction false} LastNodeTwice(level: seq<Hash>)
    requires |level| % 2 == 1
    ensures PairUp(level + [level[|level| - 1]]) == PairUp(level)
  {
    var twice := level + [level[|level| - 1]];
    if |level| > 1 {
      assert twice[2..] == level[2..] + [level[|level| - 1]];
      LastNodeTwice(level[2..]);
    } else {
      assert twice[2..] == [];
    }
  }

  /** Across lengths it does not: repeating the last of an odd number of entries, at least three, leaves the root alone. */
  lemma {:induction false} LastEntryTwice(entries: seq<DiffEntry>)
    requires |entries| > 1 && |entries| % 2 == 1
    ensures DiffRoot(entries + [entries[|entries| - 1]]) == DiffRoot(entries)
  {
    var hashes := EntryHashes(entries);
    assert EntryHashes(entries + [entries[|entries| - 1]]) == hashes + [hashes[|hashes| - 1]];
    LastNodeTwice(hashes);
  }

  // ----- The byte order of keys, bit by bit

  predicate BitsLe(a: Bits, b: Bits) {
    if a == [] then true
    else if b == [] then false
    else if a[0] == b[0] then BitsLe(a[1..], b[1..])
    else b[0]
  }

  lemma {:induction false} BitsLeTotal(a: Bits, b: Bits)
    ensures BitsLe(a, b) || BitsLe(b, a)
    ensures BitsLe(a, b) && BitsLe(b, a) ==> a == b
  {
    if a != [] && b != [] && a[0] == b[0] {
      BitsLeTotal(a[1..], b[1..]);
      assert a == [a[0]] + a[1..] && b == [b[0]] + b[1..];
    }
  }

  lemma {:induction false} BitsLeTransitive(a: Bits, b: Bits, c: Bits)
    requires BitsLe(a, b) && BitsLe(b, c)
    ensures BitsLe(a, c)
  {
    if a != [] && b != [] && c != [] && a[0] == b[0] == c[0] {
      BitsLeTransitive(a[1..], b[1..], c[1..]);
    }
  }

  predicate EntryLe(x: DiffEntry, y: DiffEntry) {
    BitsLe(x.addrKey, y.addrKey)
  }

  lemma EntryLeIsTotalPreorder()
    ensures TotalPreorder(EntryLe)
  {
    forall x: DiffEntry, y: DiffEntry ensures EntryLe(x, y) || EntryLe(y, x) {
      BitsLeTotal(x.addrKey, y.addrKey);
    }
    forall x: DiffEntry, y: DiffEntry, z: DiffEntry | EntryLe(x, y) && EntryLe(y, z) ensures EntryLe(x, z) {
      BitsLeTransitive(x.addrKey, y.addrKey, z.addrKey);
    }
  }

  predicate DistinctKeys(entries: seq<DiffEntry>) {
    forall i, j :: 0 <= i < j < |entries| ==> entries[i].addrKey != entries[j].addrKey
  }

  // ----- Accounts in key order

  predicate IsFirst(a: Address, s: set<Address>) {
    a in s && forall b :: b in s ==> BitsLe(a.key, b.key)
  }

  lemma {:induction false} FirstExists(s: set<Address>)
    requires s != {}
    ensures exists a :: IsFirst(a, s)
    decreases |s|
  {
    var x :| x in s;
    var rest := s - {x};
    if rest == {} {
      BitsLeTotal(x.key, x.key);
      assert s == {x};
      assert IsFirst(x, s);
    } else {
      FirstExists(rest);
      var m :| IsFirst(m, rest);
      BitsLeTotal(x.key, m.key);
      BitsLeTotal(x.key, x.key);
      var first := if BitsLe(x.key, m.key) then x else m;
      forall b | b in s ensures BitsLe(first.key, b.key) {
        if b != x {
          BitsLeTransitive(first.key, m.key, b.key);
        }
      }
      assert IsFirst(first, s);
    }
  }

  lemma FirstIsUnique(s: set<Address>, a: Address, b: Address)
    requires IsFirst(a, s) && IsFirst(b, s)
    ensures a == b
  {
    BitsLeTotal(a.key, b.key);
  }

  function First(s: set<Address>): (a: Address)
    requires s != {}
    ensures IsFirst(a, s)
  {
    FirstExists(s);
    assert forall x, y | IsFirst(x, s) && IsFirst(y, s) :: x == y by {
      forall x, y | IsFirst(x, s) && IsFirst(y, s) ensures x == y {
        FirstIsUnique(s, x, y);
      }
    }
    var a :| a in s && IsFirst(a, s);
    a
  }

  function InKeyOrder(s: set<Address>): seq<Address> {
    if s == {} then [] else [First(s)] + InKeyOrder(s - {First(s)})
  }

  lemma {:induction false} InKeyOrderListsOnce(s: set<Address>)
    ensures forall a :: a in InKeyOrder(s) <==> a in s
    ensures forall i, j :: 0 <= i < j < |InKeyOrder(s)| ==>
              InKeyOrder(s)[i] != InKeyOrder(s)[j] && BitsLe(InKeyOrder(s)[i].key, InKeyOrder(s)[j].key)
  {
    if s != {} {
      var rest := s - {First(s)};
      InKeyOrderListsOnce(rest);
      var tail := InKeyOrder(rest);
      forall j | 0 <= j < |tail| ensures tail[j] != First(s) && BitsLe(First(s).key, tail[j].key) {
        assert tail[j] in rest;
      }
    }
  }
}

/** Which blocks a chain accepts: entry by entry, and as a whole exactly those an honest proposer could have written. */
module BlockRules {
  import opened Prelude
  import opened Sorting
  import opened Types
  import opened ClaimSets
  import opened Ledger
  import opened SparseMerkle
  import opened BundlePools
  import opened Chains
  import opened ChainRuns
  import opened Agreement
  import opened Runs

  // ----- Entries

  /** The entry belongs to one account, whose key signed its bundle. */
  ghost predicate OwnedAndSigned(b: Block, i: nat)
    requires i < |b.entries| == |b.publicKeys|
  {
    var entry, addr := b.entries[i], b.entries[i].newLeaf.addr;
    && b.publicKeys[i].address == addr && b.sidecars[i].sender == addr
    && (forall j :: 0 <= j < i ==> b.publicKeys[j].address != addr)
    && entry.envelope.sig.Signed? && entry.envelope.sig.signer == addr
    && entry.envelope.sig.digest == EnvelopeDigest(entry.envelope.payload)
  }

  /** Payload, entry and leaf commit to the sidecar and, if they declare any, to its claims; the bundle has not expired. */
  ghost predicate CommitsToBundle(b: Block, i: nat)
    requires i < |b.entries|
  {
    var entry, payload := b.entries[i], b.entries[i].envelope.payload;
    && payload.bundleHash == BundleBodyHash(b.sidecars[i]) && entry.bundleHash == payload.bundleHash
    && (payload.claimSetHash == None || payload.claimSetHash == Some(ClaimHash(b.sidecars[i])))
    && entry.newLeaf.claimSetHash == payload.claimSetHash
    && b.header.height <= payload.expiryHeight
  }

  /** The new leaf follows the account's old one by one bundle and points to this block. */
  ghost predicate FollowsLeaf(leaves: Leaves, b: Block, i: nat)
    requires i < |b.entries|
  {
    var leaf, seqNo := b.entries[i].newLeaf, b.entries[i].envelope.payload.seqNo;
    && (if leaf.addr in leaves then
          leaves[leaf.addr].headRef.Some? && leaf.prevRef == leaves[leaf.addr].headRef
          && seqNo == leaves[leaf.addr].headRef.value.seqNo + 1
        else leaf.prevRef == None && seqNo == 1)
    && leaf.headRef.Some? && leaf.headRef.value.blockHash == b.blockHash
    && leaf.headRef.value.bundleHash == b.entries[i].bundleHash
  }

  /** The checks of an entry decide these three facts. */
  lemma EntryChecksDecide(leaves: Leaves, b: Block, i: nat)
    requires i < |b.entries| == |b.publicKeys|
    ensures EntryError(leaves, b, i).None? <==> OwnedAndSigned(b, i) && CommitsToBundle(b, i) && FollowsLeaf(leaves, b, i)
  {
  }

  /** Whatever block is accepted, each of its bundles was signed by the account it moves, and moves it by one. */
  lemma {:induction false} AcceptedEntriesAreSigned(c: ChainState, b: Block, i: nat)
    requires ApplyBlock(c, b).Ok? && i < |b.entries|
    ensures |b.publicKeys| == |b.entries| && OwnedAndSigned(b, i) && CommitsToBundle(b, i) && FollowsLeaf(c.leaves, b, i)
  {
    AcceptedBlockShape(c, b);
    EntryChecksDecide(c.leaves, b, i);
  }

  /** What a chain takes into its pool: admissible at its own height and limits, and next for its own leaves. */
  lemma ChainSubmitDecides(c: ChainState, sub: Submission, encodedSize: nat)
    ensures var sender := sub.publicKey.address;
            var confirmed := if sender in c.leaves && c.leaves[sender].headRef.Some? then c.leaves[sender].headRef.value.seqNo else 0;
            var r := SubmitBundle(c, sub, encodedSize);
            && (r.Ok? <==> Admissible(c.config.limits, sub, encodedSize, c.height) && MayQueue(c.pool, sub, confirmed))
            && (r.Ok? ==> r.value == c.(pool := c.pool[sub.sidecar.sender := sub]))
  {
    hide Admissible, MayQueue, SubmitTo;
    SubmitDecides(c.pool, c.config.limits, sub, encodedSize, c.height, c.ConfirmedSeq(sub.publicKey.address));
  }

  // ----- The header

  ghost predicate KeysAscend(entries: seq<DiffEntry>) {
    forall i, j :: 0 <= i < j < |entries| ==>
      BitsLe(entries[i].addrKey, entries[j].addrKey) && entries[i].addrKey != entries[j].addrKey
  }

  /** The block is the chain's next one and its hash names header, keys and bundles. */
  ghost predicate NamesNextBlock(c: ChainState, b: Block) {
    var h := b.header;
    && h.version == c.config.version && h.chainId == c.config.limits.chainId
    && h.height == c.height + 1 && h.prevBlockHash == c.blockHash
    && b.blockHash == BlockIdHash(BlockId(
         h.version, h.chainId, h.height, h.prevBlockHash, h.timestamp, h.proposerSig, h.consensusExtra,
         seq(|b.entries|, i requires 0 <= i < |b.entries| => b.entries[i].addrKey),
         seq(|b.entries|, i requires 0 <= i < |b.entries| => b.entries[i].bundleHash)))
  }

  lemma {:induction false} SortedIffAscending(entries: seq<DiffEntry>)
    ensures entries == Sort(entries, EntryLe) && DistinctKeys(entries) <==> KeysAscend(entries)
  {
    EntryLeIsTotalPreorder();
    SortFixedPoint(entries, EntryLe);
    assert SortedBy(entries, EntryLe) <==>
           forall i, j :: 0 <= i < j < |entries| ==> BitsLe(entries[i].addrKey, entries[j].addrKey) by {
      hide BitsLe;
      assert forall i, j :: 0 <= i < j < |entries| ==> (EntryLe(entries[i], entries[j]) <==> BitsLe(entries[i].addrKey, entries[j].addrKey));
    }
  }

  lemma HashNames(b: Block)
    ensures var h := b.header;
            DeriveBlockHash(h.version, h.chainId, h.height, h.prevBlockHash, h.timestamp, h.proposerSig, h.consensusExtra, b.entries)
            == BlockIdHash(BlockId(
                 h.version, h.chainId, h.height, h.prevBlockHash, h.timestamp, h.proposerSig, h.consensusExtra,
                 seq(|b.entries|, i requires 0 <= i < |b.entries| => b.entries[i].addrKey),
                 seq(|b.entries|, i requires 0 <= i < |b.entries| => b.entries[i].bundleHash)))
  {
    assert EntryKeys(b.entries) == seq(|b.entries|, i requires 0 <= i < |b.entries| => b.entries[i].addrKey);
  }

  lemma HeaderChecksDecide(c: ChainState, b: Block)
    ensures HeaderError(c, b).None? <==> NamesNextBlock(c, b) && KeysAscend(b.entries) && |b.publicKeys| == |b.entries|
  {
    hide DeriveBlockHash, DistinctKeys, KeysAscend, Sort;
    HashNames(b);
    SortedIffAscending(b.entries);
  }

  // ----- Whole blocks

  /** The bundles a block packages, as they were submitted. */
  function PackagedIn(b: Block): seq<Submission>
    requires |b.publicKeys| == |b.entries|
  {
    seq(|b.entries|, i requires 0 <= i < |b.entries| => Submission(b.entries[i].envelope, b.sidecars[i], b.publicKeys[i]))
  }

  /** The block is what an honest proposer writes for some bundles: signed, executable, unexpired, one a sender, in key order. */
  ghost predicate HonestlyProposed(c: ChainState, b: Block, subs: seq<Submission>) {
    && subs != [] && InOrder(subs) && AllExecutable(c.leaves, subs) && NoneExpired(subs, c.height + 1)
    && b == NewBlock(c, subs, b.header.timestamp, b.header.proposerSig, b.header.consensusExtra)
  }

  /** An accepted entry of a proposer's shape is the entry of its bundle. */
  lemma AcceptedEntryIsEntryOf(c: ChainState, b: Block, i: nat)
    requires i < |b.entries| == |b.publicKeys| && Shaped(b) && b.header.height == c.height + 1
    requires OwnedAndSigned(b, i) && CommitsToBundle(b, i) && FollowsLeaf(c.leaves, b, i)
    ensures var sub := PackagedIn(b)[i];
            && b.entries[i] == EntryOf(c.leaves, sub, c.height + 1, b.blockHash)
            && Executable(c.leaves, sub) && c.height + 1 <= sub.envelope.payload.expiryHeight
            && sub.sidecar.sender == b.entries[i].newLeaf.addr
  {
    assert b.entries[i].newLeaf.headRef.Some?;
  }

  lemma AcceptedIsOrdered(c: ChainState, b: Block)
    requires |b.entries| == |b.publicKeys| && Shaped(b) && KeysAscend(b.entries)
    requires forall i :: 0 <= i < |b.entries| ==> b.sidecars[i].sender == b.entries[i].newLeaf.addr
    ensures InOrder(PackagedIn(b))
  {
    hide BitsLe;
    var subs := PackagedIn(b);
    forall i, j | 0 <= i < j < |subs|
      ensures SubmissionLe(subs[i], subs[j]) && subs[i].sidecar.sender != subs[j].sidecar.sender
    {
      assert b.entries[i].addrKey == AddrKey(b.entries[i].newLeaf.addr);
      assert b.entries[j].addrKey == AddrKey(b.entries[j].newLeaf.addr);
    }
  }

  lemma AllChecksPassed(c: ChainState, b: Block)
    requires ApplyBlock(c, b).Ok?
    ensures HeaderError(c, b).None? && RootError(c, b).None?
  {
    hide Commit, FirstEntryError, HeaderError, RootError;
  }

  lemma AcceptedRoots(c: ChainState, b: Block)
    requires RootError(c, b).None?
    ensures b.header.diffRoot == DiffRoot(b.entries) && b.header.stateRoot == Root(TREE_DEPTH, PutValues(c.tree, b.entries))
  {
    hide DiffRoot, PutValues, Root;
  }

  lemma {:induction false} AcceptedHeader(c: ChainState, b: Block)
    requires ApplyBlock(c, b).Ok?
    ensures |b.publicKeys| == |b.entries| && NamesNextBlock(c, b) && KeysAscend(b.entries)
    ensures b.header.diffRoot == DiffRoot(b.entries) && b.header.stateRoot == Root(TREE_DEPTH, PutValues(c.tree, b.entries))
    ensures forall i :: 0 <= i < |b.entries| ==> EntryError(c.leaves, b, i).None?
  {
    hide Commit, DiffRoot, EntryError, FirstEntryError, HeaderError;
    hide KeysAscend, NamesNextBlock, PutValues, Root, RootError;
    AllChecksPassed(c, b);
    HeaderChecksDecide(c, b);
    AcceptedRoots(c, b);
    AcceptedBlockShape(c, b);
  }

  lemma {:induction false} AcceptedEntryAt(c: ChainState, b: Block, i: nat)
    requires Shaped(b) && i < |b.entries| == |b.publicKeys| && b.header.height == c.height + 1 && EntryError(c.leaves, b, i).None?
    ensures var sub := PackagedIn(b)[i];
            && b.entries[i] == EntryOf(c.leaves, sub, c.height + 1, b.blockHash)
            && Executable(c.leaves, sub) && c.height + 1 <= sub.envelope.payload.expiryHeight
            && b.sidecars[i].sender == b.entries[i].newLeaf.addr
  {
    hide EntryError, EntryOf, Executable, CommitsToBundle, FollowsLeaf, Shaped;
    EntryChecksDecide(c.leaves, b, i);
    AcceptedEntryIsEntryOf(c, b, i);
  }

  /** What an accepted block of a proposer's shape packages is executable, in order, and gives back its entries. */
  lemma {:induction false} AcceptedPackages(c: ChainState, b: Block)
    requires Shaped(b) && |b.publicKeys| == |b.entries| && KeysAscend(b.entries) && b.header.height == c.height + 1
    requires forall i :: 0 <= i < |b.entries| ==> EntryError(c.leaves, b, i).None?
    ensures var subs := PackagedIn(b);
            && subs != [] && InOrder(subs) && AllExecutable(c.leaves, subs) && NoneExpired(subs, c.height + 1)
            && b.entries == PrepareEntries(c.leaves, subs, c.height + 1, b.blockHash)
  {
    hide EntryError, EntryOf, Executable, InOrder, KeysAscend;
    forall i | 0 <= i < |b.entries|
      ensures b.entries[i] == EntryOf(c.leaves, PackagedIn(b)[i], c.height + 1, b.blockHash) && Executable(c.leaves, PackagedIn(b)[i])
      ensures c.height + 1 <= PackagedIn(b)[i].envelope.payload.expiryHeight && b.sidecars[i].sender == b.entries[i].newLeaf.addr
    {
      AcceptedEntryAt(c, b, i);
    }
    AcceptedIsOrdered(c, b);
  }

  lemma DerivedName(c: ChainState, b: Block)
    requires NamesNextBlock(c, b)
    ensures b.blockHash == DeriveBlockHash(c.config.version, c.config.ChainId(), c.height + 1, c.blockHash, b.header.timestamp,
                                           b.header.proposerSig, b.header.consensusExtra, b.entries)
  {
  }

  lemma AcceptedIsAssembled(c: ChainState, b: Block, subs: seq<Submission>)
    requires |b.publicKeys| == |b.entries| && subs == PackagedIn(b) && NamesNextBlock(c, b)
    requires b.header.diffRoot == DiffRoot(b.entries) && b.header.stateRoot == Root(TREE_DEPTH, PutValues(c.tree, b.entries))
    requires b.entries == PrepareEntries(c.leaves, subs, c.height + 1, b.blockHash)
    ensures b == AssembleBlock(c, b.blockHash, subs, PrepareEntries(c.leaves, subs, c.height + 1, b.blockHash),
                               b.header.timestamp, b.header.proposerSig, b.header.consensusExtra)
  {
    hide DiffRoot, PrepareEntries, PutValues, Root;
    assert b.sidecars == seq(|subs|, i requires 0 <= i < |subs| => subs[i].sidecar);
    assert b.publicKeys == seq(|subs|, i requires 0 <= i < |subs| => subs[i].publicKey);
  }

  /** Soundness: an accepted block of a proposer's shape is an honest proposal of what it packages. */
  lemma {:induction false} AcceptedIsHonest(c: ChainState, b: Block)
    requires Shaped(b) && ApplyBlock(c, b).Ok?
    ensures |b.publicKeys| == |b.entries| && HonestlyProposed(c, b, PackagedIn(b))
  {
    hide AllExecutable, ApplyBlock, AssembleBlock, DeriveBlockHash, EntryError, InOrder, KeysAscend, NewBlock;
    hide NewBlockHash, NoneExpired, PackagedIn, PrepareEntries, Root, DiffRoot, PutValues, Shaped;
    AcceptedHeader(c, b);
    AcceptedPackages(c, b);
    var subs := PackagedIn(b);
    DerivedName(c, b);
    NewBlockHashIsDerived(c, subs, b.header.timestamp, b.header.proposerSig, b.header.consensusExtra, b.blockHash);
    NewBlockOfOrdered(c, subs, b.header.timestamp, b.header.proposerSig, b.header.consensusExtra);
    AcceptedIsAssembled(c, b, subs);
  }

  /** Completeness: every honest proposal is accepted. */
  lemma {:induction false} HonestIsAccepted(c: ChainState, b: Block, subs: seq<Submission>)
    requires (forall a :: a in c.leaves ==> c.leaves[a].headRef.Some?) && HonestlyProposed(c, b, subs)
    ensures ApplyBlock(c, b).Ok?
  {
    hide AllExecutable, BlockError, InOrder, NewBlock, NoneExpired;
    ProducedBlockChecks(c, subs, b.header.timestamp, b.header.proposerSig, b.header.consensusExtra);
  }

  /**
    In every reachable state, a block of the shape proposers write is accepted if and only if an honest proposer could
    have written it: version, chain, height, predecessor, block hash, diff root and state root included.
   */
  lemma {:induction false} AcceptedIffHonest(c: ChainState, b: Block)
    requires ChainInv(c) && Shaped(b)
    ensures ApplyBlock(c, b).Ok? <==> exists subs :: HonestlyProposed(c, b, subs)
  {
    hide ApplyBlock, ChainInv, HonestlyProposed, PackagedIn, Shaped;
    LeavesHaveHeads(c);
    if ApplyBlock(c, b).Ok? {
      AcceptedIsHonest(c, b);
      assert HonestlyProposed(c, b, PackagedIn(b));
    }
    if subs :| HonestlyProposed(c, b, subs) {
      HonestIsAccepted(c, b, subs);
    }
  }
}

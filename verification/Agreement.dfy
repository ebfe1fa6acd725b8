/** Producing and applying agree: a replica in the producer's state commits the producer's block to the same state. */
module Agreement {
  import opened Prelude
  import opened Sorting
  import opened Types
  import opened ClaimSets
  import opened Ledger
  import opened SparseMerkle
  import opened ReceiptCaches
  import opened BundlePools
  import opened Chains
  import opened ChainRuns

  // ----- What the pool holds

  /** A pooled bundle has passed the pool's checks and carries the sender's next sequence number. */
  ghost predicate SubmissionOk(config: ChainConfig, leaves: Leaves, sender: Address, sub: Submission) {
    var payload := sub.envelope.payload;
    && sub.sidecar.sender == sub.publicKey.address == sender
    && payload.chainId == config.ChainId()
    && payload.bundleHash == BundleBodyHash(sub.sidecar)
    && ClaimHashOk(payload.claimSetHash, sub.sidecar)
    && VerifyEnvelope(sub.envelope, sub.publicKey)
    && payload.seqNo == SeqOf(leaves, sender) + 1
  }

  ghost predicate PoolOk(config: ChainConfig, leaves: Leaves, pool: Pool) {
    forall a {:trigger SubmissionOk(config, leaves, a, pool[a])} :: a in pool ==> SubmissionOk(config, leaves, a, pool[a])
  }

  /**
    What applying a block asks of a bundle but its expiry: it is its sender's next one, declares its own hash and, if any,
    its own claims, and the sender signed the payload. The payload's chain id is not looked at.
   */
  ghost predicate Executable(leaves: Leaves, sub: Submission) {
    var sender, payload, sig := sub.sidecar.sender, sub.envelope.payload, sub.envelope.sig;
    && sub.publicKey.address == sender
    && payload.bundleHash == BundleBodyHash(sub.sidecar)
    && (payload.claimSetHash == None || payload.claimSetHash == Some(ClaimHash(sub.sidecar)))
    && sig.Signed? && sig.signer == sender && sig.digest == EnvelopeDigest(payload)
    && payload.seqNo == SeqOf(leaves, sender) + 1
  }

  ghost predicate AllExecutable(leaves: Leaves, subs: seq<Submission>) {
    forall i {:trigger Executable(leaves, subs[i])} :: 0 <= i < |subs| ==> Executable(leaves, subs[i])
  }

  lemma OkIsExecutable(config: ChainConfig, leaves: Leaves, subs: seq<Submission>)
    requires AllOk(config, leaves, subs)
    ensures AllExecutable(leaves, subs)
  {
    forall i | 0 <= i < |subs| ensures Executable(leaves, subs[i]) {
      assert SubmissionOk(config, leaves, subs[i].sidecar.sender, subs[i]);
    }
  }

  /** Submissions of distinct senders in key order. */
  ghost predicate InOrder(subs: seq<Submission>) {
    forall i, j :: 0 <= i < j < |subs| ==>
      SubmissionLe(subs[i], subs[j]) && subs[i].sidecar.sender != subs[j].sidecar.sender
  }

  ghost predicate AllOk(config: ChainConfig, leaves: Leaves, subs: seq<Submission>) {
    forall i {:trigger SubmissionOk(config, leaves, subs[i].sidecar.sender, subs[i])} ::
      0 <= i < |subs| ==> SubmissionOk(config, leaves, subs[i].sidecar.sender, subs[i])
  }

  lemma SnapshotInOrder(config: ChainConfig, leaves: Leaves, pool: Pool, limit: Option<nat>)
    requires PoolOk(config, leaves, pool)
    ensures InOrder(SnapshotOf(pool, limit)) && AllOk(config, leaves, SnapshotOf(pool, limit))
    ensures forall i :: 0 <= i < |SnapshotOf(pool, limit)| ==>
              var sub := SnapshotOf(pool, limit)[i]; sub.sidecar.sender in pool && pool[sub.sidecar.sender] == sub
  {
    InKeyOrderListsOnce(pool.Keys);
    var ordered, subs := InKeyOrder(pool.Keys), SnapshotOf(pool, limit);
    forall i | 0 <= i < |subs| ensures ordered[i] in pool && subs[i] == pool[ordered[i]] && subs[i].sidecar.sender == ordered[i] {
      assert SubmissionOk(config, leaves, ordered[i], pool[ordered[i]]);
    }
  }

  // ----- The shape of a produced block

  lemma SubmissionLeIsTotalPreorder()
    ensures TotalPreorder(SubmissionLe)
  {
    forall x: Submission, y: Submission ensures SubmissionLe(x, y) || SubmissionLe(y, x) {
      BitsLeTotal(AddrKey(x.sidecar.sender), AddrKey(y.sidecar.sender));
    }
    forall x: Submission, y: Submission, z: Submission | SubmissionLe(x, y) && SubmissionLe(y, z) ensures SubmissionLe(x, z) {
      BitsLeTransitive(AddrKey(x.sidecar.sender), AddrKey(y.sidecar.sender), AddrKey(z.sidecar.sender));
    }
  }

  lemma OrderedStaysPut(leaves: Leaves, subs: seq<Submission>, height: nat, blockHash: Hash)
    requires InOrder(subs)
    ensures SortSubmissions(subs) == subs
    ensures var entries := PrepareEntries(leaves, subs, height, blockHash);
            && Sort(entries, EntryLe) == entries && SortedEntries(leaves, subs, height, blockHash) == entries
            && DistinctKeys(entries) && KeyedByAddress(entries)
  {
    SubmissionLeIsTotalPreorder();
    SortFixedPoint(subs, SubmissionLe);
    var entries := PrepareEntries(leaves, subs, height, blockHash);
    EntryLeIsTotalPreorder();
    SortFixedPoint(entries, EntryLe);
    forall i, j | 0 <= i < j < |entries| ensures EntryLe(entries[i], entries[j]) && entries[i].addrKey != entries[j].addrKey {
      assert SubmissionLe(subs[i], subs[j]);
    }
  }

  /** Bundles of distinct senders in key order are packaged as they come. */
  lemma NewBlockOfOrdered(
      c: ChainState, subs: seq<Submission>, timestamp: nat, proposerSig: Bytes, consensusExtra: Bytes)
    requires InOrder(subs)
    ensures var blockHash := NewBlockHash(c, subs, timestamp, proposerSig, consensusExtra);
            NewBlock(c, subs, timestamp, proposerSig, consensusExtra)
            == AssembleBlock(c, blockHash, subs, PrepareEntries(c.leaves, subs, c.height + 1, blockHash),
                             timestamp, proposerSig, consensusExtra)
  {
    var blockHash := NewBlockHash(c, subs, timestamp, proposerSig, consensusExtra);
    OrderedStaysPut(c.leaves, subs, c.height + 1, blockHash);
    NewBlockOfSorted(c, subs, blockHash, timestamp, proposerSig, consensusExtra);
  }

  lemma NewBlockOfSorted(
      c: ChainState, subs: seq<Submission>, blockHash: Hash, timestamp: nat, proposerSig: Bytes, consensusExtra: Bytes)
    requires blockHash == NewBlockHash(c, subs, timestamp, proposerSig, consensusExtra)
    requires SortSubmissions(subs) == subs
    requires SortedEntries(c.leaves, subs, c.height + 1, blockHash) == PrepareEntries(c.leaves, subs, c.height + 1, blockHash)
    ensures NewBlock(c, subs, timestamp, proposerSig, consensusExtra)
         == AssembleBlock(c, blockHash, subs, PrepareEntries(c.leaves, subs, c.height + 1, blockHash),
                          timestamp, proposerSig, consensusExtra)
  {
    hide AssembleBlock, NewBlockHash, PrepareEntries;
  }

  /** Block hashes name entries by key and bundle hash only, so provisional entries derive the final hash. */
  lemma ProvisionalHashIsFinal(leaves: Leaves, subs: seq<Submission>, height: nat, x: Hash, y: Hash, id: BlockId)
    ensures var p, q := PrepareEntries(leaves, subs, height, x), PrepareEntries(leaves, subs, height, y);
            DeriveBlockHash(id.version, id.chainId, id.height, id.prevBlockHash, id.timestamp, id.proposerSig, id.consensusExtra, p)
            == DeriveBlockHash(id.version, id.chainId, id.height, id.prevBlockHash, id.timestamp, id.proposerSig, id.consensusExtra, q)
  {
    var p, q := PrepareEntries(leaves, subs, height, x), PrepareEntries(leaves, subs, height, y);
    assert EntryKeys(p) == EntryKeys(q);
    assert seq(|p|, i requires 0 <= i < |p| => p[i].bundleHash) == seq(|q|, i requires 0 <= i < |q| => q[i].bundleHash);
  }

  /** The hash was derived from provisional entries; the final entries derive the same one. */
  lemma NewBlockHashIsDerived(
      c: ChainState, subs: seq<Submission>, timestamp: nat, proposerSig: Bytes, consensusExtra: Bytes, final: Hash)
    requires InOrder(subs)
    ensures NewBlockHash(c, subs, timestamp, proposerSig, consensusExtra)
         == DeriveBlockHash(c.config.version, c.config.ChainId(), c.height + 1, c.blockHash, timestamp, proposerSig,
                            consensusExtra, PrepareEntries(c.leaves, subs, c.height + 1, final))
  {
    OrderedStaysPut(c.leaves, subs, c.height + 1, ZERO_HASH);
    ProvisionalHashIsFinal(c.leaves, subs, c.height + 1, ZERO_HASH, final,
                           BlockId(c.config.version, c.config.ChainId(), c.height + 1, c.blockHash, timestamp,
                                   proposerSig, consensusExtra, [], []));
  }

  // ----- Checking a produced block

  /** The block packages the submissions one by one. */
  ghost predicate Packages(c: ChainState, b: Block, subs: seq<Submission>) {
    && |b.entries| == |b.publicKeys| == |subs|
    && b.header.height == c.height + 1
    && forall i :: 0 <= i < |subs| ==>
        && b.entries[i] == EntryOf(c.leaves, subs[i], c.height + 1, b.blockHash)
        && b.sidecars[i] == subs[i].sidecar && b.publicKeys[i] == subs[i].publicKey
  }

  lemma ProducedEntryIsGood(c: ChainState, b: Block, subs: seq<Submission>, i: nat)
    requires Packages(c, b, subs) && i < |subs|
    requires SubmissionOk(c.config, c.leaves, subs[i].sidecar.sender, subs[i])
    ensures GoodEntry(c.leaves, b, i)
  {
  }

  /** Of all the checks of a replica only the expiry check can fail on a produced entry. */
  lemma ProducedEntryChecks(c: ChainState, b: Block, subs: seq<Submission>, i: nat)
    requires Packages(c, b, subs) && i < |subs| && InOrder(subs) && AllExecutable(c.leaves, subs)
    requires forall a :: a in c.leaves ==> c.leaves[a].headRef.Some?
    ensures EntryError(c.leaves, b, i) == if subs[i].envelope.payload.expiryHeight < c.height + 1 then Some(EntryExpired) else None
  {
    assert Executable(c.leaves, subs[i]);
    forall j | 0 <= j < i ensures b.publicKeys[j].address != b.publicKeys[i].address {
      assert Executable(c.leaves, subs[j]);
    }
  }

  ghost predicate NoneExpired(subs: seq<Submission>, height: nat) {
    forall i :: 0 <= i < |subs| ==> height <= subs[i].envelope.payload.expiryHeight
  }

  lemma AssembledPackages(
      c: ChainState, blockHash: Hash, subs: seq<Submission>, timestamp: nat, proposerSig: Bytes, consensusExtra: Bytes)
    ensures Packages(c, AssembleBlock(c, blockHash, subs, PrepareEntries(c.leaves, subs, c.height + 1, blockHash),
                                      timestamp, proposerSig, consensusExtra), subs)
  {
    hide Root, DiffRoot, PutValues;
  }

  lemma AssembledHeaderChecks(
      c: ChainState, blockHash: Hash, subs: seq<Submission>, timestamp: nat, proposerSig: Bytes, consensusExtra: Bytes)
    requires InOrder(subs)
    requires blockHash == NewBlockHash(c, subs, timestamp, proposerSig, consensusExtra)
    ensures HeaderError(c, AssembleBlock(c, blockHash, subs, PrepareEntries(c.leaves, subs, c.height + 1, blockHash),
                                         timestamp, proposerSig, consensusExtra)).None?
  {
    OrderedStaysPut(c.leaves, subs, c.height + 1, blockHash);
    NewBlockHashIsDerived(c, subs, timestamp, proposerSig, consensusExtra, blockHash);
  }

  lemma {:induction false} ProducedEntriesCheck(c: ChainState, b: Block, subs: seq<Submission>)
    requires Packages(c, b, subs) && InOrder(subs) && AllExecutable(c.leaves, subs)
    requires forall a :: a in c.leaves ==> c.leaves[a].headRef.Some?
    ensures FirstEntryError(c.leaves, b, 0).None? <==> NoneExpired(subs, c.height + 1)
  {
    forall i | 0 <= i < |subs|
      ensures EntryError(c.leaves, b, i).None? <==> c.height + 1 <= subs[i].envelope.payload.expiryHeight
    {
      ProducedEntryChecks(c, b, subs, i);
    }
  }

  /** A replica in the producer's state accepts the block exactly when every packaged bundle outlives the next height. */
  lemma ProducedBlockChecks(
      c: ChainState, subs: seq<Submission>, timestamp: nat, proposerSig: Bytes, consensusExtra: Bytes)
    requires InOrder(subs) && AllExecutable(c.leaves, subs)
    requires forall a :: a in c.leaves ==> c.leaves[a].headRef.Some?
    ensures var b := NewBlock(c, subs, timestamp, proposerSig, consensusExtra);
            && Packages(c, b, subs)
            && (BlockError(c, b).None? <==> NoneExpired(subs, c.height + 1))
  {
    hide AllExecutable, FirstEntryError, HeaderError, NewBlock, NewBlockHash, Root;
    var b := NewBlock(c, subs, timestamp, proposerSig, consensusExtra);
    NewBlockOfOrdered(c, subs, timestamp, proposerSig, consensusExtra);
    AssembledPackages(c, b.blockHash, subs, timestamp, proposerSig, consensusExtra);
    AssembledHeaderChecks(c, b.blockHash, subs, timestamp, proposerSig, consensusExtra);
    ProducedEntriesCheck(c, b, subs);
  }
}

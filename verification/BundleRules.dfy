/** Exactly when a bundle is built, what is signed and submitted then, and which checkpoint a wallet stores. */
module BundleRules {
  import opened Prelude
  import opened Sorting
  import opened Values
  import opened Types
  import opened ClaimSets
  import opened Ledger
  import opened Validation
  import opened Selection
  import opened Partitions
  import opened Wallets
  import opened TwoPhase
  import opened WalletInvariants
  import opened Acceptance

  // ----- What holds between sorted items holds between the items

  lemma PairwiseHead<T>(x: T, s: seq<T>, rel: (T, T) -> bool)
    requires Pairwise([x] + s, rel)
    ensures RelatesTo(x, s, rel) && Pairwise(s, rel)
  {
    var all := [x] + s;
    forall k | 0 <= k < |s| ensures rel(x, s[k]) && rel(s[k], x) {
      assert all[0] == x && all[k + 1] == s[k];
    }
    forall i, j | 0 <= i < j < |s| ensures rel(s[i], s[j]) && rel(s[j], s[i]) {
      assert all[i + 1] == s[i] && all[j + 1] == s[j];
    }
  }

  lemma RelatesToMembers<T>(x: T, s: seq<T>, part: seq<T>, rel: (T, T) -> bool)
    requires RelatesTo(x, s, rel) && forall y :: y in part ==> y in s
    ensures RelatesTo(x, part, rel)
  {
    forall k | 0 <= k < |part| ensures rel(x, part[k]) && rel(part[k], x) {
      assert part[k] in s;
    }
  }

  lemma {:induction false} UninsertPairwise<T>(x: T, s: seq<T>, le: (T, T) -> bool, rel: (T, T) -> bool)
    requires Pairwise(Insert(x, s, le), rel)
    ensures Pairwise(s, rel) && RelatesTo(x, s, rel)
  {
    if s == [] || le(x, s[0]) {
      PairwiseHead(x, s, rel);
    } else {
      var first, tail := s[0], s[1..];
      assert s == [first] + tail;
      PairwiseHead(first, Insert(x, tail, le), rel);
      UninsertPairwise(x, tail, le, rel);
      InsertedMembers(x, tail, le);
      RelatesToMembers(first, Insert(x, tail, le), tail, rel);
      RelatesToMembers(first, Insert(x, tail, le), [x], rel);
      PairwiseCons(first, tail, rel);
      assert rel(first, [x][0]) && rel([x][0], first);
    }
  }

  lemma {:induction false} InsertedMembers<T>(x: T, s: seq<T>, le: (T, T) -> bool)
    ensures x in Insert(x, s, le) && forall y :: y in s ==> y in Insert(x, s, le)
  {
    InsertPermutes(x, s, le);
    assert x in multiset(Insert(x, s, le));
    forall y | y in s ensures y in Insert(x, s, le) {
      assert y in multiset(Insert(x, s, le));
    }
  }

  lemma {:induction false} UnsortPairwise<T>(s: seq<T>, le: (T, T) -> bool, rel: (T, T) -> bool)
    requires Pairwise(Sort(s, le), rel)
    ensures Pairwise(s, rel)
  {
    if s != [] {
      var first, rest := s[0], s[1..];
      UninsertPairwise(first, Sort(rest, le), le, rel);
      UnsortPairwise(rest, le, rel);
      SortMembers(rest, le);
      RelatesToMembers(first, Sort(rest, le), rest, rel);
      PairwiseCons(first, rest, rel);
      assert s == [first] + rest;
    }
  }

  /** The check on the sorted ranges decides that no two ranges overlap. */
  lemma {:induction false} OverlapCheckDecides(ranges: seq<ValueRange>)
    ensures NeighboursDisjoint(SortRanges(ranges)) <==> Pairwise(ranges, Apart)
  {
    SortRangesFacts(ranges);
    NeighboursDecideAscending(SortRanges(ranges));
    if NeighboursDisjoint(SortRanges(ranges)) {
      UnsortPairwise(ranges, RangeLe, Apart);
    }
    if Pairwise(ranges, Apart) {
      SortedDisjointAscends(ranges);
    }
  }

  // ----- When a bundle is built

  /** Ranges that do not overlap are all found if and only if each lies in a spendable record. */
  lemma {:induction false} AssignDecides(records: Records, targets: seq<ValueRange>)
    requires DistinctIds(records) && Pairwise(targets, Apart)
    ensures Assign(records, targets).Some? <==> forall t :: t in targets ==> InSpendable(records, t)
  {
    if targets != [] {
      var init, t := targets[..|targets| - 1], targets[|targets| - 1];
      assert targets == init + [t];
      AssignDecides(records, init);
      if Assign(records, init).Some? {
        LastFits(records, init, t);
      }
    }
  }

  lemma {:induction false} LastFits(records: Records, init: seq<ValueRange>, t: ValueRange)
    requires DistinctIds(records) && Assign(records, init).Some?
    requires forall k :: 0 <= k < |init| ==> Apart(init[k], t)
    ensures FirstFit(records, Assign(records, init).value, t).Some? <==> InSpendable(records, t)
  {
    var prior := Assign(records, init).value;
    var fit := FirstFit(records, prior, t);
    if fit.Some? {
      var i :| 0 <= i < |records| && records[i] == fit.value;
    }
    if InSpendable(records, t) {
      var i :| 0 <= i < |records| && IsSpendable(records[i]) && records[i].value.Contains(t);
      AssignedFit(records, init, i);
      var given := AssignedTo(prior, records[i].id);
      forall k | 0 <= k < |given| ensures !given[k].Intersects(t) {
        assert given[k] in init;
        var j :| 0 <= j < |init| && init[j] == given[k];
      }
      assert Fits(records[i], prior, t);
    }
  }

  /** The bundle may be built: an own key, nothing pending, own transfers, and ranges apart that spendable records contain. */
  ghost predicate Buildable(w: Wallet, publicKey: PublicKey, txs: seq<OffChainTx>) {
    && publicKey.address == w.address
    && w.pending == map[]
    && txs != []
    && (forall tx :: tx in txs ==> tx.sender == w.address)
    && Pairwise(TxValues(txs), Apart)
    && forall v :: v in TxValues(txs) ==> InSpendable(w.records, v)
  }

  /** A bundle is built exactly if it may be. */
  lemma {:induction false} BuildDecides(
      w: Wallet, publicKey: PublicKey, signer: Address, txs: seq<OffChainTx>, seqNo: positive, options: BundleOptions)
    requires DistinctIds(w.records)
    ensures BuildBundle(w, publicKey, signer, txs, seqNo, options).Ok? <==> Buildable(w, publicKey, txs)
  {
    hide Apart, Assign, ContextFor, InSpendable, NeighboursDisjoint;
    hide Pairwise, Sort, SplitAssigned, SplitError, TxValues;
    OverlapCheckDecides(TxValues(txs));
    if Pairwise(TxValues(txs), Apart) {
      AssignmentDecides(w.records, TxValues(txs));
    }
  }

  /** Splitting never refuses: whether ranges apart can be sent depends on the spendable records alone. */
  lemma {:induction false} AssignmentDecides(records: Records, ranges: seq<ValueRange>)
    requires DistinctIds(records) && Pairwise(ranges, Apart)
    ensures var found := Assign(records, SortRanges(ranges));
            && (found.Some? <==> forall v :: v in ranges ==> InSpendable(records, v))
            && (found.Some? ==> SplitError(records, found.value).None?)
  {
    hide Assign, InSpendable, Pairwise, Sort, SplitError;
    var targets := SortRanges(ranges);
    SortRangesFacts(ranges);
    SortPairwise(ranges, RangeLe, Apart);
    AssignDecides(records, targets);
    if Assign(records, targets).Some? {
      SplitIsNeverRefused(records, targets, |records|);
      assert records[..|records|] == records;
    }
  }

  /** A single own transfer whose ranges lie in spendable records is built exactly with the own key and nothing pending. */
  lemma {:induction false} OnePaymentDecides(
      w: Wallet, publicKey: PublicKey, signer: Address, tx: OffChainTx, seqNo: positive, options: BundleOptions)
    requires DistinctIds(w.records) && tx.sender == w.address && forall v :: v in tx.values ==> InSpendable(w.records, v)
    ensures BuildBundle(w, publicKey, signer, [tx], seqNo, options).Ok? <==> publicKey.address == w.address && w.pending == map[]
  {
    hide BuildBundle, DistinctIds, InSpendable;
    assert TxValues([tx]) == tx.values by {
      assert [tx][..0] == [];
    }
    BuildDecides(w, publicKey, signer, [tx], seqNo, options);
  }

  /** The next number is above all received and pending ones, and no higher than that asks for. */
  lemma {:induction false} NextIsFirstUnused(w: Wallet)
    ensures forall n :: n in w.receipts || n in w.pending ==> n < NextSequence(w)
    ensures NextSequence(w) == 1 || (NextSequence(w) - 1) as nat in w.receipts || (NextSequence(w) - 1) as nat in w.pending
  {
    var keys := w.receipts.Keys + w.pending.Keys;
    assert forall n :: n in w.receipts || n in w.pending ==> n in keys;
    assert NextSequence(w) == MaxOf(keys) + 1;
  }

  /** What is signed names the options, the number, and the hashes of the bundle and its claims; what is pending is that bundle. */
  lemma {:induction false} BuiltEnvelope(
      w: Wallet, publicKey: PublicKey, signer: Address, txs: seq<OffChainTx>, seqNo: positive, options: BundleOptions)
    requires BuildBundle(w, publicKey, signer, txs, seqNo, options).Ok?
    ensures var (after, context) := BuildBundle(w, publicKey, signer, txs, seqNo, options).value;
            var payload := context.envelope.payload;
            && context.sidecar == Sidecar(w.address, txs) && context.publicKey == publicKey && context.seqNo == seqNo
            && payload.version == 2 && payload.chainId == options.chainId && payload.expiryHeight == options.expiryHeight
            && payload.fee == options.fee && payload.antiSpamNonce == options.antiSpamNonce && payload.seqNo == seqNo
            && payload.bundleHash == BundleBodyHash(context.sidecar) && payload.claimSetHash == Some(ClaimHash(context.sidecar))
            && context.envelope.sig == Signed(signer, EnvelopeDigest(payload), options.nonce)
            && after.pending == map[seqNo := context]
  {
  }

  // ----- Checkpoints

  /** A checkpoint of the record's newest unit is stored under its key; every checkpoint with another key stays. */
  lemma {:induction false} CheckpointDecides(w: Wallet, r: LocalValueRecord)
    requires Pairwise(w.checkpoints, DifferentKeys)
    ensures CreateExactCheckpoint(w, r).Ok? <==> r in w.records && r.history.chain != []
    ensures CreateExactCheckpoint(w, r).Ok? ==>
              var after, latest := CreateExactCheckpoint(w, r).value, r.history.chain[0];
              var c := Checkpoint(r.value, w.address, latest.receipt.header.height, latest.receipt.header.blockHash,
                                  BundleBodyHash(latest.sidecar));
              && after == w.(checkpoints := after.checkpoints) && Pairwise(after.checkpoints, DifferentKeys)
              && forall x :: x in after.checkpoints <==>
                   || x == c
                   || (x in w.checkpoints &&
                       (x.owner != c.owner || x.value != c.value || x.blockHash != c.blockHash || x.bundleHash != c.bundleHash))
  {
    if CreateExactCheckpoint(w, r).Ok? {
      var latest := r.history.chain[0];
      CheckpointSaved(w.checkpoints,
                      Checkpoint(r.value, w.address, latest.receipt.header.height, latest.receipt.header.blockHash,
                                 BundleBodyHash(latest.sidecar)));
    }
  }

  /** Checkpoints stay ordered by range and height, whether one of the same key and height is replaced or a new one added. */
  lemma {:induction false} CheckpointsStayOrdered(checkpoints: seq<Checkpoint>, c: Checkpoint)
    requires SortedBy(checkpoints, CheckpointLe) && forall x :: x in checkpoints && SameKey(x, c) ==> x.height == c.height
    ensures forall i, j :: 0 <= i < j < |SaveCheckpoint(checkpoints, c)| ==>
              var x, y := SaveCheckpoint(checkpoints, c)[i], SaveCheckpoint(checkpoints, c)[j];
              if x.value == y.value then x.height <= y.height
              else x.value.begin < y.value.begin || (x.value.begin == y.value.begin && x.value.end <= y.value.end)
  {
    if Replaced(checkpoints, c).Some? {
      ReplacedInPlace(checkpoints, c);
    } else {
      SortSorts(checkpoints + [c], CheckpointLe);
    }
  }

  lemma {:induction false} ReplacedInPlace(checkpoints: seq<Checkpoint>, c: Checkpoint)
    requires Replaced(checkpoints, c).Some?
    ensures var after := Replaced(checkpoints, c).value;
            |after| == |checkpoints| &&
            exists k :: 0 <= k < |checkpoints| && SameKey(checkpoints[k], c) && after == checkpoints[k := c]
  {
    if SameKey(checkpoints[0], c) {
      assert Replaced(checkpoints, c).value == checkpoints[0 := c];
    } else {
      ReplacedInPlace(checkpoints[1..], c);
      var k :| 0 <= k < |checkpoints[1..]| && SameKey(checkpoints[1..][k], c) &&
               Replaced(checkpoints[1..], c).value == checkpoints[1..][k := c];
      assert SameKey(checkpoints[k + 1], c) && Replaced(checkpoints, c).value == checkpoints[k + 1 := c];
    }
  }

  /** The stored checkpoint is one its wallet vouches for, and the one a history sent back to the wallet is cut at. */
  lemma {:induction false} StoredCheckpointIsKnown(w: Wallet, r: LocalValueRecord)
    requires CreateExactCheckpoint(w, r).Ok? && Pairwise(w.checkpoints, DifferentKeys)
    requires r.history.value == r.value && r.history.owner == w.address
    ensures exists c :: c in CreateExactCheckpoint(w, r).value.checkpoints && Remembers(w.records, c) &&
                        TrimForRecipient(r.history, w.address, r.value).anchor == CheckpointAnchor(c)
  {
    CheckpointDecides(w, r);
    var latest := r.history.chain[0];
    var c := Checkpoint(r.value, w.address, latest.receipt.header.height, latest.receipt.header.blockHash,
                        BundleBodyHash(latest.sidecar));
    assert c in CreateExactCheckpoint(w, r).value.checkpoints;
    assert r in w.records && r.history.chain[0] == latest;
  }
}

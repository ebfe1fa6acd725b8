/** The pool of signed bundles waiting for a block: at most one per sender. */
module BundlePools {
  import opened Prelude
  import opened Types
  import opened ClaimSets
  import opened Ledger

  datatype PoolLimits = PoolLimits(chainId: nat, maxBundleBytes: nat, maxTxPerBundle: nat, maxValuesPerTx: nat)

  datatype PoolError =
    | ChainIdMismatch
    | SenderMismatch
    | BundleExpired
    | BundleHashMismatch
    | ClaimSetHashMismatch
    | InvalidSignature
    | BundleTooLarge
    | TooManyTxs
    | TooManyValues
    | SeqNotExecutable
    | DifferentPendingBundle
    | ReplacementFeeTooLow

  type Pool = map<Address, Submission>

  /** The checks made before the pool itself is consulted. `encodedSize` is the length of the encoded sidecar. */
  function IntrinsicError(limits: PoolLimits, sub: Submission, encodedSize: nat, currentHeight: nat): Option<PoolError> {
    var payload := sub.envelope.payload;
    if payload.chainId != limits.chainId then Some(ChainIdMismatch)
    else if sub.sidecar.sender != sub.publicKey.address then Some(SenderMismatch)
    else if payload.expiryHeight < currentHeight then Some(BundleExpired)
    else if BundleBodyHash(sub.sidecar) != payload.bundleHash then Some(BundleHashMismatch)
    else if !ClaimHashOk(payload.claimSetHash, sub.sidecar) then Some(ClaimSetHashMismatch)
    else if !VerifyEnvelope(sub.envelope, sub.publicKey) then Some(InvalidSignature)
    else if encodedSize > limits.maxBundleBytes then Some(BundleTooLarge)
    else if |sub.sidecar.txs| > limits.maxTxPerBundle then Some(TooManyTxs)
    else if exists i :: 0 <= i < |sub.sidecar.txs| && |sub.sidecar.txs[i].values| > limits.maxValuesPerTx then Some(TooManyValues)
    else None
  }

  /** The checks against the confirmed sequence number and the sender's pending bundle. */
  function QueueError(pool: Pool, sub: Submission, confirmedSeq: nat): Option<PoolError> {
    var payload, existing := sub.envelope.payload, Lookup(pool, sub.publicKey.address);
    if payload.seqNo != confirmedSeq + 1 && (existing.None? || existing.value.envelope.payload.seqNo != payload.seqNo) then
      Some(SeqNotExecutable)
    else if existing.Some? then
      var queued := existing.value.envelope.payload;
      if queued.seqNo != payload.seqNo || queued.bundleHash != payload.bundleHash then Some(DifferentPendingBundle)
      else if existing.value == sub then None
      else if payload.fee <= queued.fee then Some(ReplacementFeeTooLow)
      else None
    else None
  }

  function SubmitTo(
      pool: Pool, limits: PoolLimits, sub: Submission, encodedSize: nat, currentHeight: nat, confirmedSeq: nat)
      : Result<Pool, PoolError>
  {
    var intrinsic := IntrinsicError(limits, sub, encodedSize, currentHeight);
    if intrinsic.Some? then Err(intrinsic.value)
    else
      var queue := QueueError(pool, sub, confirmedSeq);
      if queue.Some? then Err(queue.value) else Ok(pool[sub.publicKey.address := sub])
  }

  function RemoveFinalized(pool: Pool, sender: Address, seqNo: nat, bundleHash: Hash): Pool {
    if sender !in pool then pool
    else
      var pending := pool[sender].envelope.payload;
      if pending.seqNo > seqNo then pool
      else if pending.seqNo < seqNo || pending.bundleHash == bundleHash || pending.seqNo == seqNo then pool - {sender}
      else pool
  }

  /** The pending bundles in key order, cut to the limit if there is one. */
  function SnapshotOf(pool: Pool, limit: Option<nat>): seq<Submission> {
    var ordered := InKeyOrder(pool.Keys);
    InKeyOrderListsOnce(pool.Keys);
    var cut := if limit.Some? && limit.value < |ordered| then ordered[..limit.value] else ordered;
    seq(|cut|, i requires 0 <= i < |cut| && cut[i] in pool => pool[cut[i]])
  }

  // ----- What the pool takes, lists and gives up

  /** The bundle is for this chain, from its sender, within the limits and not expired, and commits to its sidecar and claims. */
  ghost predicate Admissible(limits: PoolLimits, sub: Submission, encodedSize: nat, currentHeight: nat) {
    var payload, sender := sub.envelope.payload, sub.sidecar.sender;
    && payload.chainId == limits.chainId && sub.publicKey.address == sender
    && currentHeight <= payload.expiryHeight
    && payload.bundleHash == BundleBodyHash(sub.sidecar)
    && (payload.claimSetHash == None || payload.claimSetHash == Some(ClaimHash(sub.sidecar)))
    && sub.envelope.sig.Signed? && sub.envelope.sig.signer == sender && sub.envelope.sig.digest == EnvelopeDigest(payload)
    && encodedSize <= limits.maxBundleBytes && |sub.sidecar.txs| <= limits.maxTxPerBundle
    && forall i :: 0 <= i < |sub.sidecar.txs| ==> |sub.sidecar.txs[i].values| <= limits.maxValuesPerTx
  }

  /** Nothing is pending and this is the next number, or this is the pending bundle again, the same or for a higher fee. */
  ghost predicate MayQueue(pool: Pool, sub: Submission, confirmedSeq: nat) {
    var payload, sender := sub.envelope.payload, sub.publicKey.address;
    if sender !in pool then payload.seqNo == confirmedSeq + 1
    else
      var queued := pool[sender].envelope.payload;
      && payload.seqNo == queued.seqNo && payload.bundleHash == queued.bundleHash
      && (sub == pool[sender] || payload.fee > queued.fee)
  }

  /** The pool takes exactly the admissible bundles that may queue, each in place of what its sender had pending. */
  lemma SubmitDecides(
      pool: Pool, limits: PoolLimits, sub: Submission, encodedSize: nat, currentHeight: nat, confirmedSeq: nat)
    ensures SubmitTo(pool, limits, sub, encodedSize, currentHeight, confirmedSeq).Ok?
       <==> Admissible(limits, sub, encodedSize, currentHeight) && MayQueue(pool, sub, confirmedSeq)
    ensures SubmitTo(pool, limits, sub, encodedSize, currentHeight, confirmedSeq).Ok? ==>
              SubmitTo(pool, limits, sub, encodedSize, currentHeight, confirmedSeq).value == pool[sub.sidecar.sender := sub]
  {
  }

  /** Removing a finalized bundle removes its sender's pending one unless that has a later number, and nothing else. */
  lemma RemoveDecides(pool: Pool, sender: Address, seqNo: nat, bundleHash: Hash, a: Address)
    ensures Lookup(RemoveFinalized(pool, sender, seqNo, bundleHash), a)
         == if a == sender && a in pool && pool[a].envelope.payload.seqNo <= seqNo then None else Lookup(pool, a)
  {
  }

  lemma {:induction false} KeyOrderSize(s: set<Address>)
    ensures |InKeyOrder(s)| == |s|
  {
    if s != {} {
      KeyOrderSize(s - {First(s)});
    }
  }

  /** The snapshot lists the bundles of the first senders in key order, up to the limit if there is one, else of all. */
  lemma SnapshotIsPrefix(pool: Pool, limit: Option<nat>)
    ensures |InKeyOrder(pool.Keys)| == |pool|
    ensures |SnapshotOf(pool, limit)| == if limit.Some? && limit.value < |pool| then limit.value else |pool|
    ensures forall k :: 0 <= k < |SnapshotOf(pool, limit)| ==>
              InKeyOrder(pool.Keys)[k] in pool && SnapshotOf(pool, limit)[k] == pool[InKeyOrder(pool.Keys)[k]]
  {
    KeyOrderSize(pool.Keys);
    InKeyOrderListsOnce(pool.Keys);
    assert |pool.Keys| == |pool|;
  }

  class BundlePool {
    const limits: PoolLimits
    var pending: Pool

    constructor (limits: PoolLimits)
      ensures this.limits == limits && pending == map[]
    {
      this.limits := limits;
      pending := map[];
    }

    method Submit(sub: Submission, encodedSize: nat, currentHeight: nat, confirmedSeq: nat)
        returns (r: Result<Address, PoolError>)
      modifies this
      ensures var spec := SubmitTo(old(pending), limits, sub, encodedSize, currentHeight, confirmedSeq);
              && (spec.Ok? ==> r == Ok(sub.publicKey.address) && pending == spec.value)
              && (spec.Err? ==> r == Err(spec.error) && pending == old(pending))
    {
      var intrinsic := IntrinsicError(limits, sub, encodedSize, currentHeight);
      if intrinsic.Some? {
        return Err(intrinsic.value);
      }
      var sender, payload := sub.publicKey.address, sub.envelope.payload;
      if payload.seqNo != confirmedSeq + 1 {
        if sender !in pending || pending[sender].envelope.payload.seqNo != payload.seqNo {
          return Err(SeqNotExecutable);
        }
      }
      if sender in pending {
        var existing := pending[sender];
        if existing.envelope.payload.seqNo != payload.seqNo {
          return Err(DifferentPendingBundle);
        }
        if existing.envelope.payload.bundleHash != payload.bundleHash {
          return Err(DifferentPendingBundle);
        }
        if existing == sub {
          return Ok(sender);
        }
        if payload.fee <= existing.envelope.payload.fee {
          return Err(ReplacementFeeTooLow);
        }
      }
      pending := pending[sender := sub];
      r := Ok(sender);
    }

    method RemoveFinalizedBundle(sender: Address, seqNo: nat, bundleHash: Hash) returns (removed: bool)
      modifies this
      ensures pending == RemoveFinalized(old(pending), sender, seqNo, bundleHash)
      ensures removed <==> pending != old(pending)
    {
      if sender !in pending {
        return false;
      }
      var existing := pending[sender].envelope.payload;
      if existing.seqNo > seqNo {
        return false;
      }
      if existing.seqNo < seqNo || existing.bundleHash == bundleHash || existing.seqNo == seqNo {
        assert sender !in pending - {sender};
        pending := pending - {sender};
        return true;
      }
      removed := false;
    }
  }
}

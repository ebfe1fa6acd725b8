/**
  The wallet's database: histories are stored with proofs replaced by references to shared batches, and stored
  bundles are counted by who refers to them, so that collection removes exactly the unused ones.
 */
module WalletStorage {
  import opened Prelude
  import opened Sorting
  import opened Values
  import opened Types
  import opened ClaimSets
  import opened Ledger
  import opened SparseMerkle
  import opened Validation
  import opened Selection
  import opened Wallets
  import opened TwoPhase
  import opened ConsensusStores
  import opened Acceptance

  // ----- Compact histories

  type BatchTable = map<BatchId, ProofBatch>

  /** Every batch is filed under its own id. */
  ghost predicate FiledByOwnId(batches: BatchTable) {
    forall id :: id in batches ==> batches[id].batchId == id
  }

  /** The batch that a unit's header points to. */
  function BatchFor(unit: ConfirmedUnit, batches: BatchTable): Option<ProofBatch> {
    Lookup(batches, BatchId(unit.receipt.header.height, unit.receipt.header.blockHash))
  }

  function CompactUnit(unit: ConfirmedUnit, batches: BatchTable): ConfirmedUnit {
    unit.(receipt := CompactReceipt(unit.receipt, unit.sidecar.sender, BatchFor(unit, batches)))
  }

  function MaterializeUnit(unit: ConfirmedUnit, batches: BatchTable): ConfirmedUnit {
    var batch := if unit.receipt.proof.Batched? then Lookup(batches, unit.receipt.proof.batchId) else None;
    unit.(receipt := MaterializeReceipt(unit.receipt, batch))
  }

  function CompactWitness(w: Witness, batches: BatchTable): Witness
    decreases w
  {
    var chain := seq(|w.chain|, i requires 0 <= i < |w.chain| => CompactUnit(w.chain[i], batches));
    match w.anchor
    case PriorWitnessLink(acquireTx, prior) =>
      w.(chain := chain, anchor := PriorWitnessLink(acquireTx, CompactWitness(prior, batches)))
    case _ => w.(chain := chain)
  }

  function MaterializeWitness(w: Witness, batches: BatchTable): Witness
    decreases w
  {
    var chain := seq(|w.chain|, i requires 0 <= i < |w.chain| => MaterializeUnit(w.chain[i], batches));
    match w.anchor
    case PriorWitnessLink(acquireTx, prior) =>
      w.(chain := chain, anchor := PriorWitnessLink(acquireTx, MaterializeWitness(prior, batches)))
    case _ => w.(chain := chain)
  }

  predicate SingleProofs(w: Witness)
    decreases w
  {
    && (forall i :: 0 <= i < |w.chain| ==> w.chain[i].receipt.proof.Single?)
    && (w.anchor.PriorWitnessLink? ==> SingleProofs(w.anchor.prior))
  }

  /** What the validator accepts carries every proof itself. */
  lemma {:induction false} AcceptedHasSingleProofs(
      ctx: ValidationContext, tx: OffChainTx, value: ValueRange, w: Witness, recipient: Address)
    requires Accepts(ctx, tx, value, w, recipient)
    ensures SingleProofs(w)
    decreases w
  {
    forall i | 0 <= i < |w.chain| ensures w.chain[i].receipt.proof.Single? {
      assert UnitError(value, w.chain, i, tx).None?;
    }
    if w.anchor.PriorWitnessLink? {
      LinkAccepted(ctx, tx, value, w, recipient);
      AcceptedHasSingleProofs(ctx, w.anchor.acquireTx, value, w.anchor.prior, w.owner);
    }
  }

  /** A unit stored without its own proof finds it again: its batch is there, under its root, and yields that proof. */
  predicate Reproduced(unit: ConfirmedUnit, batches: BatchTable, later: BatchTable) {
    CompactUnit(unit, batches).receipt.proof.Batched? ==>
      var batch := BatchFor(unit, later);
      && batch.Some?
      && batch.value.stateRoot == unit.receipt.header.stateRoot
      && batch.value.multiProof.depth == TREE_DEPTH
      && Single(Materialize(batch.value.multiProof, AddrKey(unit.sidecar.sender))) == unit.receipt.proof
  }

  predicate AllReproduced(w: Witness, batches: BatchTable, later: BatchTable)
    decreases w
  {
    && (forall i :: 0 <= i < |w.chain| ==> Reproduced(w.chain[i], batches, later))
    && (w.anchor.PriorWitnessLink? ==> AllReproduced(w.anchor.prior, batches, later))
  }

  lemma UnitReadBack(unit: ConfirmedUnit, batches: BatchTable, later: BatchTable)
    requires FiledByOwnId(batches) && unit.receipt.proof.Single?
    ensures MaterializeUnit(CompactUnit(unit, batches), later) == unit <==> Reproduced(unit, batches, later)
  {
  }

  /**
    A history reads back as it was stored exactly if every batch it was compacted against still yields the proofs;
    batches may be overwritten in between.
   */
  lemma {:induction false} WitnessReadBack(w: Witness, batches: BatchTable, later: BatchTable)
    requires FiledByOwnId(batches) && SingleProofs(w)
    ensures MaterializeWitness(CompactWitness(w, batches), later) == w <==> AllReproduced(w, batches, later)
    decreases w
  {
    var back := MaterializeWitness(CompactWitness(w, batches), later);
    forall i | 0 <= i < |w.chain|
      ensures back.chain[i] == MaterializeUnit(CompactUnit(w.chain[i], batches), later)
      ensures back.chain[i] == w.chain[i] <==> Reproduced(w.chain[i], batches, later)
    {
      UnitReadBack(w.chain[i], batches, later);
    }
    assert back.chain == w.chain <==> forall i :: 0 <= i < |w.chain| ==> back.chain[i] == w.chain[i];
    if w.anchor.PriorWitnessLink? {
      WitnessReadBack(w.anchor.prior, batches, later);
    }
  }

  /** Overwriting a batch can lose a proof: the key is listed in the first batch and not in the second. */
  lemma OverwritingLosesProof(a: Address, id: BatchId)
    ensures var first := ProofBatch(id, ZERO_HASH, MultiProof(TREE_DEPTH, [AddrKey(a)], map[]));
            var second := ProofBatch(id, ZERO_HASH, MultiProof(TREE_DEPTH, [], map[]));
            var receipt := Receipt(HeaderLite(id.height, id.blockHash, ZERO_HASH), 1, None, None,
                                   Single(Materialize(first.multiProof, AddrKey(a))));
            var unit := ConfirmedUnit(receipt, Sidecar(a, []));
            && MaterializeUnit(CompactUnit(unit, map[id := first]), map[id := first]) == unit
            && MaterializeUnit(CompactUnit(unit, map[id := first]), map[id := second]) != unit
  {
    assert AddrKey(a) in [AddrKey(a)];
  }

  /** Batches that were there are there unchanged. */
  ghost predicate Grows(batches: BatchTable, later: BatchTable) {
    forall id :: id in batches ==> id in later && later[id] == batches[id]
  }

  lemma {:induction false} GrowthReproduces(w: Witness, batches: BatchTable, later: BatchTable)
    requires SingleProofs(w) && Grows(batches, later)
    ensures AllReproduced(w, batches, later)
    decreases w
  {
    if w.anchor.PriorWitnessLink? {
      GrowthReproduces(w.anchor.prior, batches, later);
    }
  }

  // ----- Compact records

  function Compactor(batches: BatchTable): LocalValueRecord -> LocalValueRecord {
    (r: LocalValueRecord) => r.(history := CompactWitness(r.history, batches))
  }

  function Materializer(batches: BatchTable): LocalValueRecord -> LocalValueRecord {
    (r: LocalValueRecord) => r.(history := MaterializeWitness(r.history, batches))
  }

  lemma {:induction false} InsertCommutes<A>(f: A -> A, x: A, s: seq<A>, le: (A, A) -> bool)
    requires forall a, b :: le(f(a), f(b)) <==> le(a, b)
    ensures Insert(f(x), MapSeq(f, s), le) == MapSeq(f, Insert(x, s, le))
  {
    if s == [] || le(x, s[0]) {
      assert MapSeq(f, [x] + s) == [f(x)] + MapSeq(f, s);
    } else {
      InsertCommutes(f, x, s[1..], le);
      assert MapSeq(f, s)[1..] == MapSeq(f, s[1..]);
      assert MapSeq(f, [s[0]] + Insert(x, s[1..], le)) == [f(s[0])] + MapSeq(f, Insert(x, s[1..], le));
    }
  }

  /** Sorting by what a change leaves alone commutes with the change. */
  lemma {:induction false} SortCommutes<A>(f: A -> A, s: seq<A>, le: (A, A) -> bool)
    requires forall a, b :: le(f(a), f(b)) <==> le(a, b)
    ensures Sort(MapSeq(f, s), le) == MapSeq(f, Sort(s, le))
  {
    if s != [] {
      SortCommutes(f, s[1..], le);
      assert MapSeq(f, s)[1..] == MapSeq(f, s[1..]);
      InsertCommutes(f, s[0], Sort(s[1..], le), le);
    }
  }

  /** The records listed after storing them are the same ones, in order, exactly if every history is reproduced. */
  lemma {:induction false} RecordsReadBack(records: Records, batches: BatchTable, later: BatchTable)
    requires FiledByOwnId(batches) && forall r :: r in records ==> SingleProofs(r.history)
    ensures MapSeq(Materializer(later), Stored(MapSeq(Compactor(batches), records))) == Stored(records)
       <==> forall r :: r in records ==> AllReproduced(r.history, batches, later)
  {
    var ordered := Stored(records);
    SortCommutes(Compactor(batches), records, RecordLe);
    SortMembers(records, RecordLe);
    var back := MapSeq(Materializer(later), MapSeq(Compactor(batches), ordered));
    forall i | 0 <= i < |ordered| ensures back[i] == ordered[i] <==> AllReproduced(ordered[i].history, batches, later) {
      assert ordered[i] in records;
      WitnessReadBack(ordered[i].history, batches, later);
    }
    assert back == ordered <==> forall i :: 0 <= i < |ordered| ==> back[i] == ordered[i];
    assert (forall r :: r in records ==> AllReproduced(r.history, batches, later)) <==>
           forall i :: 0 <= i < |ordered| ==> AllReproduced(ordered[i].history, batches, later) by {
      assert forall r :: r in records <==> r in ordered;
    }
  }

  // ----- References to bundles

  function BundleHashes(w: Witness): set<Hash>
    decreases w
  {
    (set i | 0 <= i < |w.chain| :: BundleBodyHash(w.chain[i].sidecar))
    + match w.anchor
      case PriorWitnessLink(_, prior) => BundleHashes(prior)
      case _ => {}
  }

  /** A unit of some layer of the history has this bundle. */
  ghost predicate Names(w: Witness, h: Hash) {
    exists k, i {:trigger Nodes(w)[k].chain[i]} ::
      0 <= k < |Nodes(w)| && 0 <= i < |Nodes(w)[k].chain| && BundleBodyHash(Nodes(w)[k].chain[i].sidecar) == h
  }

  /** The hashes of a history are those of the bundles of all its layers. */
  lemma {:induction false} HashesOfAllLayers(w: Witness, h: Hash)
    ensures h in BundleHashes(w) <==> Names(w, h)
    decreases w
  {
    if w.anchor.PriorWitnessLink? {
      var prior := w.anchor.prior;
      HashesOfAllLayers(prior, h);
      assert Nodes(w) == [w] + Nodes(prior);
      if Names(prior, h) {
        var k, i :| 0 <= k < |Nodes(prior)| && 0 <= i < |Nodes(prior)[k].chain| && BundleBodyHash(Nodes(prior)[k].chain[i].sidecar) == h;
        assert Nodes(w)[k + 1].chain[i] == Nodes(prior)[k].chain[i];
      }
      if k, i :| 0 <= k < |Nodes(w)| && 0 <= i < |Nodes(w)[k].chain| && BundleBodyHash(Nodes(w)[k].chain[i].sidecar) == h {
        assert k > 0 ==> Nodes(w)[k] == Nodes(prior)[k - 1] && Nodes(prior)[k - 1].chain[i] == Nodes(w)[k].chain[i];
      }
    }
    if i :| 0 <= i < |w.chain| && BundleBodyHash(w.chain[i].sidecar) == h {
      assert Nodes(w)[0].chain[i] == w.chain[i];
    }
  }

  lemma {:induction false} CompactKeepsHashes(w: Witness, batches: BatchTable)
    ensures BundleHashes(CompactWitness(w, batches)) == BundleHashes(w)
    decreases w
  {
    var compact := CompactWitness(w, batches);
    assert forall i :: 0 <= i < |w.chain| ==> compact.chain[i].sidecar == w.chain[i].sidecar;
    if w.anchor.PriorWitnessLink? {
      CompactKeepsHashes(w.anchor.prior, batches);
    }
  }

  function RecordRefers(h: Hash): LocalValueRecord -> nat {
    (r: LocalValueRecord) => if h in BundleHashes(r.history) then 1 else 0
  }

  function ContextRefers(h: Hash): PendingBundleContext -> nat {
    (context: PendingBundleContext) => if context.envelope.payload.bundleHash == h then 1 else 0
  }

  /** How many records and pending bundles refer to a bundle. */
  function References(records: Records, contexts: seq<PendingBundleContext>, h: Hash): nat {
    Sum(RecordRefers(h), records) + Sum(ContextRefers(h), contexts)
  }

  type Tally = map<Hash, nat>

  function CountIn(counts: Tally, h: Hash): nat {
    if h in counts then counts[h] else 0
  }

  function AddOne(counts: Tally, h: Hash): Tally {
    counts[h := CountIn(counts, h) + 1]
  }

  /** The tally names exactly what is referred to, with the number of references. */
  ghost predicate Tallies(counts: Tally, records: Records, contexts: seq<PendingBundleContext>) {
    forall h {:trigger CountIn(counts, h)} {:trigger References(records, contexts, h)} ::
      CountIn(counts, h) == References(records, contexts, h) && (h in counts ==> counts[h] > 0)
  }

  /** Adds one reference to each of the hashes. */
  method AddAll(counts: Tally, hashes: set<Hash>) returns (more: Tally)
    ensures forall h {:trigger CountIn(more, h)} :: CountIn(more, h) == CountIn(counts, h) + if h in hashes then 1 else 0
    ensures forall h :: h in more ==> h in hashes || (h in counts && more[h] == counts[h])
  {
    more := counts;
    var todo := hashes;
    while todo != {}
      invariant todo <= hashes
      invariant forall h {:trigger CountIn(more, h)} ::
        CountIn(more, h) == CountIn(counts, h) + if h in hashes && h !in todo then 1 else 0
      invariant forall h :: h in more ==> h in hashes || (h in counts && more[h] == counts[h])
      decreases todo
    {
      var h :| h in todo;
      ghost var before := more;
      more := AddOne(more, h);
      todo := todo - {h};
      forall g
        ensures CountIn(more, g) == CountIn(counts, g) + if g in hashes && g !in todo then 1 else 0
      {
        assert CountIn(more, g) == CountIn(before, g) + if g == h then 1 else 0;
      }
    }
  }

  method CountReferences(records: Records, contexts: seq<PendingBundleContext>) returns (counts: Tally)
    ensures Tallies(counts, records, contexts)
  {
    counts := map[];
    for i := 0 to |records|
      invariant Tallies(counts, records[..i], [])
    {
      var more := AddAll(counts, BundleHashes(records[i].history));
      RecordCounted(counts, more, records, i);
      counts := more;
    }
    assert records[..|records|] == records;
    for i := 0 to |contexts|
      invariant Tallies(counts, records, contexts[..i])
    {
      ContextCounted(counts, records, contexts, i);
      counts := AddOne(counts, contexts[i].envelope.payload.bundleHash);
    }
    assert contexts[..|contexts|] == contexts;
  }

  lemma TallyIsReferences(counts: Tally, records: Records, contexts: seq<PendingBundleContext>)
    requires Tallies(counts, records, contexts)
    ensures forall h :: h in counts <==> References(records, contexts, h) > 0
    ensures forall h :: h in counts ==> counts[h] == References(records, contexts, h)
  {
    forall h ensures h in counts <==> References(records, contexts, h) > 0
      ensures h in counts ==> counts[h] == References(records, contexts, h)
    {
      assert CountIn(counts, h) == References(records, contexts, h);
    }
  }

  lemma RecordCounted(counts: Tally, more: Tally, records: Records, i: nat)
    requires i < |records| && Tallies(counts, records[..i], [])
    requires forall h {:trigger CountIn(more, h)} ::
               CountIn(more, h) == CountIn(counts, h) + if h in BundleHashes(records[i].history) then 1 else 0
    requires forall h :: h in more ==> h in BundleHashes(records[i].history) || (h in counts && more[h] == counts[h])
    ensures Tallies(more, records[..i + 1], [])
  {
    forall h {:trigger CountIn(more, h)} {:trigger References(records[..i + 1], [], h)}
      ensures CountIn(more, h) == References(records[..i + 1], [], h) && (h in more ==> more[h] > 0)
    {
      assert CountIn(counts, h) == References(records[..i], [], h) && CountIn(more, h) >= CountIn(counts, h);
      SumPrefix(RecordRefers(h), records, i);
    }
  }

  lemma ContextCounted(counts: Tally, records: Records, contexts: seq<PendingBundleContext>, i: nat)
    requires i < |contexts| && Tallies(counts, records, contexts[..i])
    ensures Tallies(AddOne(counts, contexts[i].envelope.payload.bundleHash), records, contexts[..i + 1])
  {
    var more := AddOne(counts, contexts[i].envelope.payload.bundleHash);
    forall h {:trigger CountIn(more, h)} {:trigger References(records, contexts[..i + 1], h)}
      ensures CountIn(more, h) == References(records, contexts[..i + 1], h) && (h in more ==> more[h] > 0)
    {
      assert CountIn(counts, h) == References(records, contexts[..i], h);
      SumPrefix(ContextRefers(h), contexts, i);
    }
  }

  // ----- The sidecar table

  /** A counted hash has a row even while its bundle is not stored. */
  datatype SidecarRow = SidecarRow(sidecar: Option<Sidecar>, claims: Option<seq<ValueRange>>, refCount: nat)

  type SidecarTable = map<Hash, SidecarRow>

  function StoredSidecar(rows: SidecarTable, h: Hash): Option<Sidecar> {
    if h in rows then rows[h].sidecar else None
  }

  function ClaimsOf(sidecar: Option<Sidecar>): Option<seq<ValueRange>> {
    if sidecar.Some? then Some(SidecarClaims(sidecar.value)) else None
  }

  /** What recounting makes of a hash's row. */
  function RecountedRow(rows: SidecarTable, h: Hash, count: nat): SidecarRow {
    if count == 0 && h in rows then rows[h].(refCount := 0)
    else SidecarRow(StoredSidecar(rows, h), ClaimsOf(StoredSidecar(rows, h)), count)
  }

  /** The table holds the former rows and a row for everything referred to, each with its number of references. */
  ghost predicate Recounted(before: SidecarTable, after: SidecarTable, records: Records, contexts: seq<PendingBundleContext>) {
    && (forall h :: h in after <==> h in before || References(records, contexts, h) > 0)
    && (forall h :: h in after ==> after[h] == RecountedRow(before, h, References(records, contexts, h)))
  }

  /** Every row with its count written, and all others zero, is what recounting asks for. */
  lemma WrittenIsRecounted(
      before: SidecarTable, after: SidecarTable, counts: Tally, records: Records, contexts: seq<PendingBundleContext>)
    requires Tallies(counts, records, contexts)
    requires forall h :: h in after <==> h in before || h in counts
    requires forall h :: h in after && h !in counts ==> after[h] == before[h].(refCount := 0)
    requires forall h :: h in counts ==>
               after[h] == SidecarRow(StoredSidecar(before, h), ClaimsOf(StoredSidecar(before, h)), counts[h])
    ensures Recounted(before, after, records, contexts)
  {
    hide ClaimsOf, References, StoredSidecar, Tallies;
    TallyIsReferences(counts, records, contexts);
    forall h | h in after ensures after[h] == RecountedRow(before, h, References(records, contexts, h)) {
      assert h !in counts ==> References(records, contexts, h) == 0;
    }
  }

  class LocalWalletDB {
    var batches: BatchTable
    var rows: Records
    var pending: seq<PendingBundleContext>
    var sidecars: SidecarTable

    constructor ()
      ensures batches == map[] && rows == [] && pending == [] && sidecars == map[]
    {
      batches, rows, pending, sidecars := map[], [], [], map[];
    }

    method SaveReceiptProofBatch(batch: ProofBatch)
      modifies this`batches
      ensures batches == old(batches)[batch.batchId := batch]
      ensures FiledByOwnId(old(batches)) ==> FiledByOwnId(batches)
    {
      batches := batches[batch.batchId := batch];
    }

    /** Stores the records with compact histories, in place of the former ones, and recounts the references. */
    method ReplaceValueRecordsAndRecount(records: Records)
      modifies this`rows, this`sidecars
      ensures rows == MapSeq(Compactor(batches), records)
      ensures Recounted(old(sidecars), sidecars, records, pending)
    {
      var compact: Records := [];
      for i := 0 to |records|
        invariant compact == MapSeq(Compactor(batches), records[..i])
      {
        compact := compact + [records[i].(history := CompactWitness(records[i].history, batches))];
      }
      assert records[..|records|] == records;
      rows := compact;
      RecomputeSidecarRefCounts();
      CompactSameReferences(records, pending, batches);
    }

    /** The records as the wallet gets them: in order of range and id, with proofs put back. */
    method ListValueRecords() returns (records: Records)
      ensures records == MapSeq(Materializer(batches), Stored(rows))
    {
      var ordered := Stored(rows);
      records := [];
      for i := 0 to |ordered|
        invariant records == MapSeq(Materializer(batches), ordered[..i])
      {
        records := records + [ordered[i].(history := MaterializeWitness(ordered[i].history, batches))];
      }
      assert ordered[..|ordered|] == ordered;
    }

    method SaveSidecar(sidecar: Sidecar) returns (h: Hash)
      modifies this`sidecars
      ensures h == BundleBodyHash(sidecar)
      ensures sidecars == old(sidecars)[h := SidecarRow(Some(sidecar), Some(SidecarClaims(sidecar)),
                                                        if h in old(sidecars) then old(sidecars)[h].refCount else 0)]
    {
      h := BundleBodyHash(sidecar);
      var claims := ClaimRangeSetFromSidecar(sidecar);
      sidecars := sidecars[h := SidecarRow(Some(sidecar), Some(claims), if h in sidecars then sidecars[h].refCount else 0)];
    }

    /** Sets every count to zero and then each counted hash's row to its count. */
    method WriteCounts(counts: Tally)
      modifies this`sidecars
      ensures forall h :: h in sidecars <==> h in old(sidecars) || h in counts
      ensures forall h :: h in sidecars && h !in counts ==> sidecars[h] == old(sidecars)[h].(refCount := 0)
      ensures forall h :: h in counts ==>
                sidecars[h] == SidecarRow(StoredSidecar(old(sidecars), h), ClaimsOf(StoredSidecar(old(sidecars), h)), counts[h])
    {
      ghost var before := sidecars;
      sidecars := map h | h in sidecars :: sidecars[h].(refCount := 0);
      var todo := counts.Keys;
      while todo != {}
        invariant todo <= counts.Keys
        invariant forall h :: h in sidecars <==> h in before || (h in counts && h !in todo)
        invariant forall h {:trigger h in todo} :: h in sidecars && (h in todo || h !in counts) ==>
                    h in before && sidecars[h] == before[h].(refCount := 0)
        invariant forall h {:trigger h in todo} :: h in counts && h !in todo ==>
                    sidecars[h] == SidecarRow(StoredSidecar(before, h), ClaimsOf(StoredSidecar(before, h)), counts[h])
        decreases todo
      {
        var h :| h in todo;
        var sidecar := StoredSidecar(sidecars, h);
        sidecars := sidecars[h := SidecarRow(sidecar, ClaimsOf(sidecar), counts[h])];
        todo := todo - {h};
      }
      forall h | h in counts
        ensures sidecars[h] == SidecarRow(StoredSidecar(before, h), ClaimsOf(StoredSidecar(before, h)), counts[h])
      {
        assert h !in todo;
      }
    }

    method RecomputeSidecarRefCounts()
      modifies this`sidecars
      ensures Recounted(old(sidecars), sidecars, rows, pending)
    {
      var counts := CountReferences(rows, pending);
      ghost var before := sidecars;
      WriteCounts(counts);
      WrittenIsRecounted(before, sidecars, counts, rows, pending);
    }

    /** Deletes what nothing refers to, by the counts in the table. */
    method DeleteUnreferenced() returns (deleted: nat)
      modifies this`sidecars
      ensures sidecars == map h | h in old(sidecars) && old(sidecars)[h].refCount > 0 :: old(sidecars)[h]
      ensures deleted + |sidecars| == |old(sidecars)|
    {
      ghost var before := sidecars;
      var kept := map h | h in sidecars && sidecars[h].refCount > 0 :: sidecars[h];
      assert kept.Keys <= sidecars.Keys;
      var gone := sidecars.Keys - kept.Keys;
      assert sidecars.Keys == kept.Keys + gone;
      deleted := |gone|;
      sidecars := kept;
    }

    /**
      Collection leaves exactly the bundles that a record's history or a pending bundle refers to, with their counts
      and contents, and reports how many rows went.
     */
    method GcUnusedSidecars() returns (deleted: nat)
      modifies this`sidecars
      ensures forall h :: h in sidecars <==> References(rows, pending, h) > 0
      ensures forall h :: h in sidecars ==>
                sidecars[h].refCount == References(rows, pending, h) && sidecars[h].sidecar == StoredSidecar(old(sidecars), h)
      ensures (forall h :: h in old(sidecars) ==> References(rows, pending, h) > 0) ==> deleted == 0
    {
      ghost var before := sidecars;
      RecomputeSidecarRefCounts();
      ghost var counted := sidecars;
      deleted := DeleteUnreferenced();
      assert forall h :: h in counted ==> counted[h].refCount == References(rows, pending, h);
      if forall h :: h in before ==> References(rows, pending, h) > 0 {
        assert sidecars == counted;
      }
    }
  }

  lemma {:induction false} CompactSameReferences(
      records: Records, contexts: seq<PendingBundleContext>, batches: BatchTable)
    ensures forall h :: References(MapSeq(Compactor(batches), records), contexts, h) == References(records, contexts, h)
  {
    var rows := MapSeq(Compactor(batches), records);
    forall h ensures References(rows, contexts, h) == References(records, contexts, h) {
      forall i | 0 <= i < |records| ensures RecordRefers(h)(rows[i]) == RecordRefers(h)(records[i]) {
        CompactKeepsHashes(records[i].history, batches);
      }
      SumAgrees(RecordRefers(h), RecordRefers(h), rows, records);
    }
  }

  // ----- What collection keeps

  /** Whatever a record's history needs is referred to, so it survives every collection. */
  lemma {:induction false} NeededIsReferenced(
      records: Records, contexts: seq<PendingBundleContext>, r: LocalValueRecord, h: Hash)
    requires r in records && h in BundleHashes(r.history)
    ensures References(records, contexts, h) > 0
  {
    var k :| 0 <= k < |records| && records[k] == r;
    SumAtLeast(RecordRefers(h), records, k);
  }

  lemma PendingIsReferenced(records: Records, contexts: seq<PendingBundleContext>, context: PendingBundleContext)
    requires context in contexts
    ensures References(records, contexts, context.envelope.payload.bundleHash) > 0
  {
    var k :| 0 <= k < |contexts| && contexts[k] == context;
    SumAtLeast(ContextRefers(context.envelope.payload.bundleHash), contexts, k);
  }

  /** Only what some history or pending bundle names is referred to. */
  lemma {:induction false} ReferencedIsNeeded(records: Records, contexts: seq<PendingBundleContext>, h: Hash)
    requires References(records, contexts, h) > 0
    ensures (exists r :: r in records && h in BundleHashes(r.history))
         || (exists context :: context in contexts && context.envelope.payload.bundleHash == h)
  {
    if Sum(RecordRefers(h), records) > 0 {
      var i := SumSomewhere(RecordRefers(h), records);
      assert records[i] in records;
    } else {
      var i := SumSomewhere(ContextRefers(h), contexts);
      assert contexts[i] in contexts;
    }
  }
}

/** Building a bundle and then confirming it does to the records what applying the confirmed unit at once does. */
module TwoPhase {
  import opened Prelude
  import opened Sorting
  import opened Values
  import opened Types
  import opened ClaimSets
  import opened Selection
  import opened Partitions
  import opened Wallets

  /** What a record is, apart from its id. */
  datatype Shape = Shape(value: ValueRange, status: Status, history: Witness)

  function ShapeOf(r: LocalValueRecord): Shape {
    Shape(r.value, r.status, r.history)
  }

  function MapSeq<A, B>(f: A -> B, s: seq<A>): seq<B> {
    seq(|s|, i requires 0 <= i < |s| => f(s[i]))
  }

  function Shapes(records: Records): multiset<Shape> {
    multiset(MapSeq(ShapeOf, records))
  }

  // ----- Sorting keeps shapes

  lemma {:induction false} InsertMapped<A, B>(f: A -> B, x: A, s: seq<A>, le: (A, A) -> bool)
    ensures multiset(MapSeq(f, Insert(x, s, le))) == multiset{f(x)} + multiset(MapSeq(f, s))
  {
    if s == [] || le(x, s[0]) {
      assert MapSeq(f, [x] + s) == [f(x)] + MapSeq(f, s);
    } else {
      InsertMapped(f, x, s[1..], le);
      assert MapSeq(f, [s[0]] + Insert(x, s[1..], le)) == [f(s[0])] + MapSeq(f, Insert(x, s[1..], le));
      assert MapSeq(f, s) == [f(s[0])] + MapSeq(f, s[1..]);
    }
  }

  lemma {:induction false} SortMapped<A, B>(f: A -> B, s: seq<A>, le: (A, A) -> bool)
    ensures multiset(MapSeq(f, Sort(s, le))) == multiset(MapSeq(f, s))
  {
    if s != [] {
      SortMapped(f, s[1..], le);
      InsertMapped(f, s[0], Sort(s[1..], le), le);
      assert MapSeq(f, s) == [f(s[0])] + MapSeq(f, s[1..]);
    }
  }

  // ----- The second phase, record by record

  /** Confirming without further outgoing values never cuts a record. */
  function Settle(r: LocalValueRecord, unit: ConfirmedUnit, pendingIds: seq<nat>, outgoingIds: seq<nat>): LocalValueRecord {
    if r.status == Archived then r
    else if r.id in pendingIds then
      r.(history := WithUnit(r.history, r.value, unit),
         status := if r.id in outgoingIds then Archived else VerifiedSpendable)
    else if r.status == PendingBundle || r.acquiredAt >= unit.receipt.header.height then r
    else r.(history := WithUnit(r.history, r.value, unit), status := VerifiedSpendable)
  }

  function Settler(unit: ConfirmedUnit, pendingIds: seq<nat>, outgoingIds: seq<nat>): LocalValueRecord -> LocalValueRecord {
    r => Settle(r, unit, pendingIds, outgoingIds)
  }

  function SettledShape(unit: ConfirmedUnit, pendingIds: seq<nat>, outgoingIds: seq<nat>): LocalValueRecord -> Shape {
    r => ShapeOf(Settle(r, unit, pendingIds, outgoingIds))
  }

  lemma MapLast<A, B>(f: A -> B, init: seq<A>, x: A)
    ensures MapSeq(f, init + [x]) == MapSeq(f, init) + [f(x)]
  {
  }

  lemma ConfirmOne(
      r: LocalValueRecord, address: Address, unit: ConfirmedUnit, pendingIds: seq<nat>, outgoingIds: seq<nat>, nextId: nat)
    ensures ConfirmRecord(r, address, unit, [], pendingIds, outgoingIds, nextId) == Ok([Settle(r, unit, pendingIds, outgoingIds)])
  {
  }

  lemma {:induction false} ConfirmIsSettle(
      records: Records, address: Address, unit: ConfirmedUnit, pendingIds: seq<nat>, outgoingIds: seq<nat>, nextId: nat)
    ensures var c := ConfirmRecords(records, address, unit, [], pendingIds, outgoingIds, nextId);
            c.Ok? && c.value.records == MapSeq(Settler(unit, pendingIds, outgoingIds), records)
  {
    if records != [] {
      var init, last := records[..|records| - 1], records[|records| - 1];
      ConfirmIsSettle(init, address, unit, pendingIds, outgoingIds, nextId);
      var before := ConfirmRecords(init, address, unit, [], pendingIds, outgoingIds, nextId).value;
      ConfirmOne(last, address, unit, pendingIds, outgoingIds, before.nextId);
      MapLast(Settler(unit, pendingIds, outgoingIds), init, last);
      assert records == init + [last];
    }
  }

  // ----- Assignments are the contained targets

  ghost predicate DistinctIds(records: Records) {
    forall i, j :: 0 <= i < j < |records| ==> records[i].id != records[j].id
  }

  ghost predicate SpendableDisjoint(records: Records) {
    forall i, j :: 0 <= i < j < |records| && IsSpendable(records[i]) && IsSpendable(records[j]) ==>
      !records[i].value.Intersects(records[j].value)
  }

  lemma {:induction false} ContainingLast(value: ValueRange, targets: seq<ValueRange>, t: ValueRange)
    ensures Containing(value, targets + [t]) == Containing(value, targets) + if value.Contains(t) then [t] else []
  {
    if targets == [] {
      assert ([] + [t])[1..] == [];
    } else {
      assert (targets + [t])[1..] == targets[1..] + [t];
      ContainingLast(value, targets[1..], t);
    }
  }

  /** With disjoint spendable records every target has one home, and gets there. */
  lemma {:induction false} AssignedIsContained(records: Records, targets: seq<ValueRange>, i: nat)
    requires DistinctIds(records) && SpendableDisjoint(records) && i < |records|
    requires Assign(records, targets).Some?
    ensures AssignedTo(Assign(records, targets).value, records[i].id)
         == if IsSpendable(records[i]) then Containing(records[i].value, targets) else []
  {
    if targets != [] {
      var init, t := targets[..|targets| - 1], targets[|targets| - 1];
      AssignedIsContained(records, init, i);
      var fit := FirstFit(records, Assign(records, init).value, t).value;
      var j :| 0 <= j < |records| && records[j] == fit;
      OneHome(records, i, j, t);
      assert targets == init + [t];
      ContainingLast(records[i].value, init, t);
    }
  }

  lemma OneHome(records: Records, i: nat, j: nat, t: ValueRange)
    requires DistinctIds(records) && SpendableDisjoint(records) && i < |records| && j < |records|
    requires IsSpendable(records[j]) && records[j].value.Contains(t)
    ensures records[i].id == records[j].id <==> i == j
    ensures IsSpendable(records[i]) && i != j ==> !records[i].value.Contains(t)
  {
    if i < j {
      assert records[i].id != records[j].id;
    } else if j < i {
      assert records[j].id != records[i].id;
    }
  }

  // ----- The ids drawn while splitting

  lemma {:induction false} OutgoingIdAt(segments: seq<Segment>, firstId: nat, id: nat)
    ensures id in OutgoingIdsOf(segments, firstId) <==>
            firstId <= id < firstId + |segments| && segments[id - firstId].outgoing
  {
    if segments != [] {
      OutgoingIdAt(segments[1..], firstId + 1, id);
    }
  }

  /** Exactly the new ids are pending, and the outgoing ones are among them. */
  lemma {:induction false} NewIdsArePending(records: Records, assignments: Assignments, nextId: nat, id: nat)
    ensures var b := SplitAssigned(records, assignments, nextId);
            && nextId <= b.nextId
            && (id in b.pendingIds <==> nextId <= id < b.nextId)
            && (id in b.outgoingIds ==> nextId <= id < b.nextId)
  {
    if records != [] {
      NewIdsArePending(records[..|records| - 1], assignments, nextId, id);
      var b, r := SplitAssigned(records[..|records| - 1], assignments, nextId), records[|records| - 1];
      var segments := SegmentsOf(r.value, AssignedTo(assignments, r.id));
      OutgoingIdAt(segments, b.nextId, id);
      if b.nextId <= id < b.nextId + |segments| {
        assert seq(|segments|, k requires 0 <= k < |segments| => b.nextId + k)[id - b.nextId] == id;
      }
    }
  }

  /** Whether an id is outgoing is settled when it is drawn. */
  lemma {:induction false} OutgoingIsSettled(records: Records, assignments: Assignments, nextId: nat, n: nat, id: nat)
    requires n <= |records| && id < SplitAssigned(records[..n], assignments, nextId).nextId
    ensures id in SplitAssigned(records, assignments, nextId).outgoingIds <==>
            id in SplitAssigned(records[..n], assignments, nextId).outgoingIds
  {
    if n < |records| {
      var init := records[..|records| - 1];
      assert init[..n] == records[..n];
      OutgoingIsSettled(init, assignments, nextId, n, id);
      NextIdGrows(init, assignments, nextId, n);
      var b, r := SplitAssigned(init, assignments, nextId), records[|records| - 1];
      OutgoingIdAt(SegmentsOf(r.value, AssignedTo(assignments, r.id)), b.nextId, id);
    } else {
      assert records[..n] == records;
    }
  }

  lemma {:induction false} NextIdGrows(records: Records, assignments: Assignments, nextId: nat, n: nat)
    requires n <= |records|
    ensures SplitAssigned(records[..n], assignments, nextId).nextId <= SplitAssigned(records, assignments, nextId).nextId
  {
    if n < |records| {
      assert records[..|records| - 1][..n] == records[..n];
      NextIdGrows(records[..|records| - 1], assignments, nextId, n);
    } else {
      assert records[..n] == records;
    }
  }

  // ----- One record through both ways

  lemma {:induction false} ContainedTargets(value: ValueRange, targets: seq<ValueRange>)
    requires Ascending(targets)
    ensures Ascending(Containing(value, targets)) && AllContained(value, Containing(value, targets))
    ensures forall t :: t in Containing(value, targets) ==> t in targets
  {
    if targets != [] {
      ContainedTargets(value, targets[1..]);
      var rest := Containing(value, targets[1..]);
      forall k | 0 <= k < |rest| ensures targets[0].end < rest[k].begin {
        assert rest[k] in targets[1..];
      }
    }
  }

  /** The targets a record contains are a partition of it that is not refused. */
  lemma {:induction false} ContainedFit(value: ValueRange, targets: seq<ValueRange>)
    requires Ascending(targets)
    ensures ErrorOf(value, Containing(value, targets)).None?
  {
    ContainedTargets(value, targets);
    ListCheckDecidesAscending(Containing(value, targets));
  }

  /** A record without targets is treated alike. */
  lemma {:induction false} KeptRecord(
      r: LocalValueRecord, address: Address, unit: ConfirmedUnit, outgoing: seq<ValueRange>, pendingIds: seq<nat>,
      outgoingIds: seq<nat>, nextId: nat)
    requires r.id !in pendingIds
    requires r.status == Archived || r.status == PendingBundle || Containing(r.value, outgoing) == []
          || r.acquiredAt >= unit.receipt.header.height
    ensures ConfirmRecord(r, address, unit, outgoing, [], [], nextId) == Ok([Settle(r, unit, pendingIds, outgoingIds)])
  {
  }

  lemma SettledSegment(r: LocalValueRecord, unit: ConfirmedUnit, pendingIds: seq<nat>, outgoingIds: seq<nat>)
    requires r.status == PendingBundle && r.id in pendingIds
    ensures SettledShape(unit, pendingIds, outgoingIds)(r)
         == Shape(r.value, if r.id in outgoingIds then Archived else VerifiedSpendable, WithUnit(r.history, r.value, unit))
  {
  }

  /** The segment's id is pending, and outgoing exactly if the segment is. */
  ghost predicate IdMatches(segments: seq<Segment>, firstId: nat, pendingIds: seq<nat>, outgoingIds: seq<nat>, k: nat)
    requires k < |segments|
  {
    firstId + k in pendingIds && (firstId + k in outgoingIds <==> segments[k].outgoing)
  }

  ghost predicate IdsMatch(segments: seq<Segment>, firstId: nat, pendingIds: seq<nat>, outgoingIds: seq<nat>) {
    forall k :: 0 <= k < |segments| ==> IdMatches(segments, firstId, pendingIds, outgoingIds, k)
  }

  /** The pending segments of a record settle into the segments that the one-shot form cuts. */
  lemma CutRecord(
      r: LocalValueRecord, address: Address, unit: ConfirmedUnit, segments: seq<Segment>, pendingIds: seq<nat>,
      outgoingIds: seq<nat>, firstId: nat, otherId: nat)
    requires r.history.owner == address
    requires IdsMatch(segments, firstId, pendingIds, outgoingIds)
    ensures MapSeq(ShapeOf, ConfirmedSegments(r, address, unit, segments, otherId))
         == MapSeq(SettledShape(unit, pendingIds, outgoingIds), PendingSegments(r, segments, firstId))
  {
    var cut, pending := ConfirmedSegments(r, address, unit, segments, otherId), PendingSegments(r, segments, firstId);
    forall k | 0 <= k < |segments| ensures ShapeOf(cut[k]) == SettledShape(unit, pendingIds, outgoingIds)(pending[k]) {
      assert IdMatches(segments, firstId, pendingIds, outgoingIds, k);
      SettledSegment(pending[k], unit, pendingIds, outgoingIds);
    }
  }

  // ----- All records through both ways

  /** Records that cannot be spent are not touched by what goes out, and the outgoing values were acquired below the height. */
  ghost predicate ReadyToSpend(w: Wallet, outgoing: seq<ValueRange>, height: nat) {
    && DistinctIds(w.records) && SpendableDisjoint(w.records)
    && (forall i {:trigger w.records[i]} :: 0 <= i < |w.records| ==>
          && w.records[i].id < w.nextId
          && (w.records[i].status == Archived || w.records[i].status == PendingBundle || IsSpendable(w.records[i])
              || Containing(w.records[i].value, outgoing) == [] || w.records[i].acquiredAt >= height)
          && (IsSpendable(w.records[i]) && Containing(w.records[i].value, outgoing) != [] ==>
                w.records[i].acquiredAt < height && w.records[i].history.owner == w.address))
  }

  lemma MapConcat<A, B>(f: A -> B, a: seq<A>, b: seq<A>)
    ensures MapSeq(f, a + b) == MapSeq(f, a) + MapSeq(f, b)
  {
  }

  /** What one more record adds on either side. */
  lemma {:induction false} NextRecord(
      w: Wallet, unit: ConfirmedUnit, outgoing: seq<ValueRange>, assignments: Assignments, n: nat, otherId: nat)
    requires ReadyToSpend(w, outgoing, unit.receipt.header.height) && Ascending(outgoing)
    requires Assign(w.records, outgoing) == Some(assignments) && n < |w.records|
    ensures var final := SplitAssigned(w.records, assignments, w.nextId);
            var firstId := SplitAssigned(w.records[..n], assignments, w.nextId).nextId;
            var r := w.records[n];
            var one := ConfirmRecord(r, w.address, unit, outgoing, [], [], otherId);
            var targets := AssignedTo(assignments, r.id);
            && one.Ok?
            && MapSeq(ShapeOf, one.value)
               == MapSeq(SettledShape(unit, final.pendingIds, final.outgoingIds),
                         SplitOne(r, targets, firstId))
  {
    var r := w.records[n];
    AssignedIsContained(w.records, outgoing, n);
    if AssignedTo(assignments, r.id) == [] {
      var final := SplitAssigned(w.records, assignments, w.nextId);
      NewIdsArePending(w.records, assignments, w.nextId, r.id);
      KeptRecord(r, w.address, unit, outgoing, final.pendingIds, final.outgoingIds, otherId);
    } else {
      NextCut(w, unit, outgoing, assignments, n, otherId);
    }
  }

  lemma {:induction false} NextCut(
      w: Wallet, unit: ConfirmedUnit, outgoing: seq<ValueRange>, assignments: Assignments, n: nat, otherId: nat)
    requires ReadyToSpend(w, outgoing, unit.receipt.header.height) && Ascending(outgoing)
    requires Assign(w.records, outgoing) == Some(assignments) && n < |w.records|
    requires var r := w.records[n];
             IsSpendable(r) && AssignedTo(assignments, r.id) == Containing(r.value, outgoing) != []
    ensures var final := SplitAssigned(w.records, assignments, w.nextId);
            var firstId := SplitAssigned(w.records[..n], assignments, w.nextId).nextId;
            var r := w.records[n];
            var one := ConfirmRecord(r, w.address, unit, outgoing, [], [], otherId);
            && one.Ok?
            && MapSeq(ShapeOf, one.value)
               == MapSeq(SettledShape(unit, final.pendingIds, final.outgoingIds),
                         PendingSegments(r, SegmentsOf(r.value, Containing(r.value, outgoing)), firstId))
  {
    hide Assign, ErrorOf, SegmentsOf, SplitAssigned;
    var r := w.records[n];
    var segments := SegmentsOf(r.value, Containing(r.value, outgoing));
    var final := SplitAssigned(w.records, assignments, w.nextId);
    var firstId := SplitAssigned(w.records[..n], assignments, w.nextId).nextId;
    ContainedFit(r.value, outgoing);
    SegmentIdsMatch(w.records, assignments, w.nextId, n, segments, final, firstId);
    CutRecord(r, w.address, unit, segments, final.pendingIds, final.outgoingIds, firstId, otherId);
  }

  /** The ids of one record's segments, seen at the end of the split. */
  lemma {:induction false} SegmentIds(
      records: Records, assignments: Assignments, nextId: nat, n: nat, segments: seq<Segment>, k: nat, final: Built, firstId: nat)
    requires n < |records| && AssignedTo(assignments, records[n].id) != []
    requires segments == SegmentsOf(records[n].value, AssignedTo(assignments, records[n].id)) && k < |segments|
    requires final == SplitAssigned(records, assignments, nextId)
    requires firstId == SplitAssigned(records[..n], assignments, nextId).nextId
    ensures IdMatches(segments, firstId, final.pendingIds, final.outgoingIds, k)
  {
    hide SegmentsOf, PendingSegments, AssignedTo, OutgoingIdsOf;
    var id := firstId + k;
    assert records[..n + 1][..n] == records[..n];
    NextIdGrows(records, assignments, nextId, n + 1);
    NewIdsArePending(records[..n], assignments, nextId, id);
    NewIdsArePending(records, assignments, nextId, id);
    OutgoingIdAt(segments, firstId, id);
    OutgoingIsSettled(records, assignments, nextId, n + 1, id);
  }

  lemma {:induction false} SegmentIdsMatch(
      records: Records, assignments: Assignments, nextId: nat, n: nat, segments: seq<Segment>, final: Built, firstId: nat)
    requires n < |records| && AssignedTo(assignments, records[n].id) != []
    requires segments == SegmentsOf(records[n].value, AssignedTo(assignments, records[n].id))
    requires final == SplitAssigned(records, assignments, nextId)
    requires firstId == SplitAssigned(records[..n], assignments, nextId).nextId
    ensures IdsMatch(segments, firstId, final.pendingIds, final.outgoingIds)
  {
    forall k | 0 <= k < |segments| ensures IdMatches(segments, firstId, final.pendingIds, final.outgoingIds, k) {
      SegmentIds(records, assignments, nextId, n, segments, k, final, firstId);
    }
  }

  /** What a record becomes when its bundle is built. */
  function SplitOne(r: LocalValueRecord, targets: seq<ValueRange>, firstId: nat): Records {
    if targets == [] then [r] else PendingSegments(r, SegmentsOf(r.value, targets), firstId)
  }

  lemma {:induction false} SplitStep(records: Records, assignments: Assignments, nextId: nat, n: nat)
    requires n < |records|
    ensures var b := SplitAssigned(records[..n], assignments, nextId);
            SplitAssigned(records[..n + 1], assignments, nextId).records
            == b.records + SplitOne(records[n], AssignedTo(assignments, records[n].id), b.nextId)
  {
    assert records[..n + 1][..n] == records[..n];
  }

  lemma {:induction false} ConfirmStep(
      records: Records, address: Address, unit: ConfirmedUnit, outgoing: seq<ValueRange>, nextId: nat, n: nat)
    requires n < |records|
    requires var before := ConfirmRecords(records[..n], address, unit, outgoing, [], [], nextId);
             before.Ok? && ConfirmRecord(records[n], address, unit, outgoing, [], [], before.value.nextId).Ok?
    ensures var before := ConfirmRecords(records[..n], address, unit, outgoing, [], [], nextId).value;
            var after := ConfirmRecords(records[..n + 1], address, unit, outgoing, [], [], nextId);
            && after.Ok?
            && after.value.records
               == before.records + ConfirmRecord(records[n], address, unit, outgoing, [], [], before.nextId).value
  {
    assert records[..n + 1][..n] == records[..n];
  }

  lemma {:induction false} BothWaysAgree(
      w: Wallet, unit: ConfirmedUnit, outgoing: seq<ValueRange>, assignments: Assignments, n: nat, otherId: nat)
    requires ReadyToSpend(w, outgoing, unit.receipt.header.height) && Ascending(outgoing)
    requires Assign(w.records, outgoing) == Some(assignments) && n <= |w.records|
    ensures var final := SplitAssigned(w.records, assignments, w.nextId);
            var one := ConfirmRecords(w.records[..n], w.address, unit, outgoing, [], [], otherId);
            && one.Ok?
            && MapSeq(ShapeOf, one.value.records)
               == MapSeq(SettledShape(unit, final.pendingIds, final.outgoingIds),
                         SplitAssigned(w.records[..n], assignments, w.nextId).records)
  {
    if n > 0 {
      var final := SplitAssigned(w.records, assignments, w.nextId);
      var f, r := SettledShape(unit, final.pendingIds, final.outgoingIds), w.records[n - 1];
      BothWaysAgree(w, unit, outgoing, assignments, n - 1, otherId);
      var before := ConfirmRecords(w.records[..n - 1], w.address, unit, outgoing, [], [], otherId).value;
      var b := SplitAssigned(w.records[..n - 1], assignments, w.nextId);
      NextRecord(w, unit, outgoing, assignments, n - 1, before.nextId);
      ConfirmStep(w.records, w.address, unit, outgoing, otherId, n - 1);
      SplitStep(w.records, assignments, w.nextId, n - 1);
      MapConcat(ShapeOf, before.records, ConfirmRecord(r, w.address, unit, outgoing, [], [], before.nextId).value);
      MapConcat(f, b.records, SplitOne(r, AssignedTo(assignments, r.id), b.nextId));
    }
  }

  /** Building then confirming gives the same records, up to ids and order, as applying the unit at once. */
  lemma {:induction false} TwoPhaseRefinesOneShot(
      w: Wallet, publicKey: PublicKey, signer: Address, txs: seq<OffChainTx>, seqNo: positive, options: BundleOptions, receipt: Receipt)
    requires BuildBundle(w, publicKey, signer, txs, seqNo, options).Ok? && receipt.seqNo == seqNo
    requires OnReceiptConfirmed(BuildBundle(w, publicKey, signer, txs, seqNo, options).value.0, receipt).Ok?
    requires ReadyToSpend(w, SortRanges(TxValues(txs)), receipt.header.height)
    ensures var (built, context) := BuildBundle(w, publicKey, signer, txs, seqNo, options).value;
            var once := ApplySenderConfirmedUnit(w, ConfirmedUnit(receipt, context.sidecar), context.outgoingValues);
            && once.Ok?
            && Shapes(once.value.records) == Shapes(OnReceiptConfirmed(built, receipt).value.0.records)
  {
    hide AddrKey, ConfirmRecords, SplitAssigned, PayloadFor, SplitError, ReadyToSpend, SettledShape;
    var (built, context) := BuildBundle(w, publicKey, signer, txs, seqNo, options).value;
    var outgoing, unit := context.outgoingValues, ConfirmedUnit(receipt, context.sidecar);
    var assignments := Assign(w.records, outgoing).value;
    var split := SplitAssigned(w.records, assignments, w.nextId);
    SortRangesFacts(TxValues(txs));
    NeighboursDecideAscending(outgoing);
    ListCheckDecidesAscending(outgoing);
    BothWaysAgree(w, unit, outgoing, assignments, |w.records|, w.nextId);
    assert w.records[..|w.records|] == w.records;
    SecondPhase(built.records, split, w.address, unit, built.nextId);
    var once := ConfirmRecords(w.records, w.address, unit, outgoing, [], [], w.nextId).value.records;
    SortMapped(ShapeOf, once, RecordLe);
  }

  lemma {:induction false} SecondPhase(
      stored: Records, split: Built, address: Address, unit: ConfirmedUnit, nextId: nat)
    requires stored == Stored(split.records)
    ensures var c := ConfirmRecords(stored, address, unit, [], split.pendingIds, split.outgoingIds, nextId);
            c.Ok? && Shapes(Stored(c.value.records))
                     == multiset(MapSeq(SettledShape(unit, split.pendingIds, split.outgoingIds), split.records))
  {
    var settle, shape := Settler(unit, split.pendingIds, split.outgoingIds), SettledShape(unit, split.pendingIds, split.outgoingIds);
    ConfirmIsSettle(stored, address, unit, split.pendingIds, split.outgoingIds, nextId);
    SortMapped(ShapeOf, MapSeq(settle, stored), RecordLe);
    SortMapped(shape, split.records, RecordLe);
    assert MapSeq(ShapeOf, MapSeq(settle, stored)) == MapSeq(shape, stored);
  }
}

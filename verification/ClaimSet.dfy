/** Claim sets: the normalised union of every range a bundle transfers, and its intersection test. */
module ClaimSets {
  import opened Sorting
  import opened Values
  import opened Types

  /** The constructor check of a claim set: sorted, with a gap between neighbours. */
  predicate NormalForm(s: seq<ValueRange>) {
    forall i :: 0 <= i < |s| - 1 ==> s[i].end + 1 < s[i + 1].begin
  }

  /** Merges one more range into the last one when they touch or overlap. */
  function Absorb(merged: seq<ValueRange>, item: ValueRange): seq<ValueRange> {
    var last := |merged| - 1;
    if merged != [] && item.begin <= merged[last].end + 1 then
      merged[..last] + [Range(merged[last].begin, if merged[last].end < item.end then item.end else merged[last].end)]
    else
      merged + [item]
  }

  function MergeFrom(merged: seq<ValueRange>, rest: seq<ValueRange>): seq<ValueRange>
    decreases rest
  {
    if rest == [] then merged else MergeFrom(Absorb(merged, rest[0]), rest[1..])
  }

  function ClaimRanges(values: seq<ValueRange>): seq<ValueRange> {
    MergeFrom([], SortRanges(values))
  }

  function TxValues(txs: seq<OffChainTx>): seq<ValueRange> {
    if txs == [] then [] else TxValues(txs[..|txs| - 1]) + txs[|txs| - 1].values
  }

  function SidecarClaims(sidecar: Sidecar): seq<ValueRange> {
    ClaimRanges(TxValues(sidecar.txs))
  }

  function ClaimHash(sidecar: Sidecar): Hash {
    ClaimSetHash(SidecarClaims(sidecar))
  }

  predicate ClaimsIntersect(claims: seq<ValueRange>, value: ValueRange) {
    exists i :: 0 <= i < |claims| &&
      (claims[i].Intersects(value) || claims[i].Contains(value) || value.Contains(claims[i]))
  }

  // ----- Merging

  method BuildClaimRangeSet(values: seq<ValueRange>) returns (merged: seq<ValueRange>)
    ensures merged == ClaimRanges(values)
  {
    var ordered := SortRanges(values);
    if ordered == [] {
      return [];
    }
    merged := [ordered[0]];
    assert Absorb([], ordered[0]) == merged;
    for i := 1 to |ordered|
      invariant merged != [] && MergeFrom(merged, ordered[i..]) == MergeFrom([], ordered)
    {
      var previous, item := merged[|merged| - 1], ordered[i];
      assert ordered[i..][0] == item && ordered[i..][1..] == ordered[i + 1..];
      if item.begin <= previous.end + 1 {
        var joined := Range(previous.begin, if previous.end < item.end then item.end else previous.end);
        assert Absorb(merged, item) == merged[|merged| - 1 := joined];
        merged := merged[|merged| - 1 := joined];
        continue;
      }
      merged := merged + [item];
    }
  }

  method ClaimRangeSetFromSidecar(sidecar: Sidecar) returns (claims: seq<ValueRange>)
    ensures claims == SidecarClaims(sidecar)
  {
    var values: seq<ValueRange> := [];
    for i := 0 to |sidecar.txs|
      invariant values == TxValues(sidecar.txs[..i])
    {
      assert sidecar.txs[..i + 1][..i] == sidecar.txs[..i];
      values := values + sidecar.txs[i].values;
    }
    assert sidecar.txs[..|sidecar.txs|] == sidecar.txs;
    claims := BuildClaimRangeSet(values);
  }

  lemma AbsorbKeepsPoints(merged: seq<ValueRange>, item: ValueRange, point: nat)
    requires merged != [] ==> merged[|merged| - 1].begin <= item.begin
    ensures Covers(Absorb(merged, item), point) <==> Covers(merged, point) || item.Has(point)
  {
    var after, last := Absorb(merged, item), |merged| - 1;
    if Covers(merged, point) {
      var i :| 0 <= i < |merged| && merged[i].Has(point);
      assert after[i].Has(point);
    }
    if item.Has(point) {
      assert after[|after| - 1].Has(point);
    }
    if Covers(after, point) {
      var i :| 0 <= i < |after| && after[i].Has(point);
      if i < |merged| && !merged[i].Has(point) {
        assert i == last && item.Has(point);
      }
    }
  }

  lemma {:induction false} MergeKeepsPoints(merged: seq<ValueRange>, rest: seq<ValueRange>, point: nat)
    requires SortedBy(rest, RangeLe)
    requires merged != [] && rest != [] ==> merged[|merged| - 1].begin <= rest[0].begin
    ensures Covers(MergeFrom(merged, rest), point) <==> Covers(merged, point) || Covers(rest, point)
    decreases rest
  {
    if rest != [] {
      AbsorbKeepsPoints(merged, rest[0], point);
      MergeKeepsPoints(Absorb(merged, rest[0]), rest[1..], point);
      assert Covers(rest, point) <==> rest[0].Has(point) || Covers(rest[1..], point) by {
        if Covers(rest, point) {
          var i :| 0 <= i < |rest| && rest[i].Has(point);
          assert i > 0 ==> rest[1..][i - 1].Has(point);
        }
        if Covers(rest[1..], point) {
          var i :| 0 <= i < |rest[1..]| && rest[1..][i].Has(point);
          assert rest[i + 1].Has(point);
        }
      }
    }
  }

  lemma {:induction false} MergeIsNormal(merged: seq<ValueRange>, rest: seq<ValueRange>)
    requires NormalForm(merged)
    ensures NormalForm(MergeFrom(merged, rest))
    decreases rest
  {
    if rest != [] {
      MergeIsNormal(Absorb(merged, rest[0]), rest[1..]);
    }
  }

  lemma SamePointsEitherOrder(values: seq<ValueRange>, point: nat)
    ensures Covers(SortRanges(values), point) <==> Covers(values, point)
  {
    SortRangesFacts(values);
    var sorted := SortRanges(values);
    if Covers(sorted, point) {
      var i :| 0 <= i < |sorted| && sorted[i].Has(point);
      assert sorted[i] in values;
    }
    if Covers(values, point) {
      var i :| 0 <= i < |values| && values[i].Has(point);
      assert values[i] in sorted;
    }
  }

  /** The merge covers exactly the input's points and passes the claim set's constructor check. */
  lemma ClaimRangesCover(values: seq<ValueRange>)
    ensures NormalForm(ClaimRanges(values))
    ensures forall point :: Covers(ClaimRanges(values), point) <==> Covers(values, point)
  {
    MergeIsNormal([], SortRanges(values));
    SortRangesFacts(values);
    forall point ensures Covers(ClaimRanges(values), point) <==> Covers(values, point) {
      MergeKeepsPoints([], SortRanges(values), point);
      SamePointsEitherOrder(values, point);
    }
  }

  // ----- Canonicity

  lemma {:induction false} NormalFormGap(s: seq<ValueRange>, i: nat, j: nat)
    requires NormalForm(s) && i < j < |s|
    ensures s[i].end + 1 < s[j].begin
    decreases j - i
  {
    if i + 1 < j {
      NormalFormGap(s, i + 1, j);
    }
  }

  /** In normal form, the points after the first range are those of the tail. */
  lemma TailPoints(s: seq<ValueRange>, point: nat)
    requires NormalForm(s) && s != []
    ensures Covers(s[1..], point) <==> Covers(s, point) && s[0].end < point
    ensures Covers(s, point) ==> s[0].begin <= point && point != s[0].end + 1
  {
    if Covers(s, point) {
      var i :| 0 <= i < |s| && s[i].Has(point);
      if i > 0 {
        NormalFormGap(s, 0, i);
        assert s[1..][i - 1].Has(point);
      }
    }
    if Covers(s[1..], point) {
      var i :| 0 <= i < |s[1..]| && s[1..][i].Has(point);
      NormalFormGap(s, 0, i + 1);
      assert s[i + 1].Has(point);
    }
  }

  lemma NonEmptyCovers(s: seq<ValueRange>)
    ensures s == [] <==> forall point :: !Covers(s, point)
  {
    if s != [] {
      assert s[0].Has(s[0].begin) && Covers(s, s[0].begin);
    }
  }

  /** A set of points has one normal form. */
  lemma {:induction false} NormalFormIsUnique(a: seq<ValueRange>, b: seq<ValueRange>)
    requires NormalForm(a) && NormalForm(b)
    requires forall point :: Covers(a, point) <==> Covers(b, point)
    ensures a == b
  {
    if a == [] || b == [] {
      NonEmptyCovers(a);
      NonEmptyCovers(b);
    } else {
      FirstRangesAgree(a, b);
      forall point ensures Covers(a[1..], point) <==> Covers(b[1..], point) {
        TailPoints(a, point);
        TailPoints(b, point);
      }
      NormalFormIsUnique(a[1..], b[1..]);
    }
  }

  lemma FirstRangesAgree(a: seq<ValueRange>, b: seq<ValueRange>)
    requires NormalForm(a) && NormalForm(b) && a != [] && b != []
    requires forall point :: Covers(a, point) <==> Covers(b, point)
    ensures a[0] == b[0]
  {
    FirstRangeWithin(a, b);
    FirstRangeWithin(b, a);
  }

  lemma FirstRangeWithin(a: seq<ValueRange>, b: seq<ValueRange>)
    requires NormalForm(a) && NormalForm(b) && a != [] && b != []
    requires forall point :: Covers(a, point) <==> Covers(b, point)
    ensures b[0].begin <= a[0].begin
    ensures a[0].begin <= b[0].begin ==> a[0].end <= b[0].end
  {
    assert a[0].Has(a[0].begin) && a[0].Has(a[0].end);
    TailPoints(b, a[0].begin);
    var next := b[0].end + 1;
    TailPoints(b, next);
    assert a[0].Has(next) ==> Covers(a, next);
  }

  /** Two value lists covering the same points give the same claim set. */
  lemma ClaimRangesAreCanonical(a: seq<ValueRange>, b: seq<ValueRange>)
    ensures ClaimRanges(a) == ClaimRanges(b) <==> forall point :: Covers(a, point) <==> Covers(b, point)
  {
    ClaimRangesCover(a);
    ClaimRangesCover(b);
    if forall point :: Covers(a, point) <==> Covers(b, point) {
      NormalFormIsUnique(ClaimRanges(a), ClaimRanges(b));
    } else {
      var point: nat :| Covers(a, point) != Covers(b, point);
      assert Covers(ClaimRanges(a), point) != Covers(ClaimRanges(b), point);
    }
  }

  // ----- The intersection test

  lemma IntersectMeansSharedPoint(s: seq<ValueRange>, value: ValueRange)
    ensures ClaimsIntersect(s, value) <==> exists point :: value.Has(point) && Covers(s, point)
  {
    if ClaimsIntersect(s, value) {
      var i :| 0 <= i < |s| &&
               (s[i].Intersects(value) || s[i].Contains(value) || value.Contains(s[i]));
      var point := if s[i].begin < value.begin then value.begin else s[i].begin;
      assert s[i].Has(point) && value.Has(point);
    }
    if exists point :: value.Has(point) && Covers(s, point) {
      var point :| value.Has(point) && Covers(s, point);
      var i :| 0 <= i < |s| && s[i].Has(point);
      assert s[i].Intersects(value);
    }
  }

  lemma {:induction false} TxValuesHold(txs: seq<OffChainTx>, value: ValueRange)
    ensures value in TxValues(txs) <==> exists i :: 0 <= i < |txs| && value in txs[i].values
  {
    if txs != [] {
      var last := |txs| - 1;
      TxValuesHold(txs[..last], value);
      if value in TxValues(txs[..last]) {
        var i :| 0 <= i < |txs[..last]| && value in txs[..last][i].values;
        assert value in txs[i].values;
      }
      if i :| 0 <= i < |txs| && value in txs[i].values {
        if i < last {
          assert value in txs[..last][i].values;
        }
      }
    }
  }

  ghost predicate SomeTxIntersects(sidecar: Sidecar, value: ValueRange) {
    exists i, j :: 0 <= i < |sidecar.txs| && 0 <= j < |sidecar.txs[i].values| &&
      sidecar.txs[i].values[j].Intersects(value)
  }

  /** Testing the claim set agrees with scanning every range of every transfer. */
  lemma ClaimTestAgreesWithScan(sidecar: Sidecar, value: ValueRange)
    ensures ClaimsIntersect(SidecarClaims(sidecar), value) <==> SomeTxIntersects(sidecar, value)
  {
    hide ClaimRanges, TxValues;
    var values := TxValues(sidecar.txs);
    ClaimRangesCover(values);
    IntersectMeansSharedPoint(ClaimRanges(values), value);
    IntersectMeansSharedPoint(values, value);
    if ClaimsIntersect(values, value) {
      var k :| 0 <= k < |values| &&
               (values[k].Intersects(value) || values[k].Contains(value) || value.Contains(values[k]));
      TxValuesHold(sidecar.txs, values[k]);
      var i :| 0 <= i < |sidecar.txs| && values[k] in sidecar.txs[i].values;
      var j :| 0 <= j < |sidecar.txs[i].values| && sidecar.txs[i].values[j] == values[k];
      assert sidecar.txs[i].values[j].Intersects(value);
    }
    if SomeTxIntersects(sidecar, value) {
      var i, j :| 0 <= i < |sidecar.txs| && 0 <= j < |sidecar.txs[i].values| &&
                  sidecar.txs[i].values[j].Intersects(value);
      TxValuesHold(sidecar.txs, sidecar.txs[i].values[j]);
      var k :| 0 <= k < |values| && values[k] == sidecar.txs[i].values[j];
      assert values[k].Intersects(value);
    }
  }
}

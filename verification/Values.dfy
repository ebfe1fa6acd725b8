/** Inclusive integer value ranges and the statuses of a wallet's value records. */
module Values {
  import opened Sorting

  datatype Range = Range(begin: nat, end: nat) {
    function Size(): int {
      end - begin + 1
    }

    predicate Has(point: nat) {
      begin <= point <= end
    }

    predicate Intersects(other: Range) {
      begin <= other.end && other.begin <= end
    }

    predicate Contains(other: Range) {
      begin <= other.begin && other.end <= end
    }
  }

  /** The constructor check of the source's value range: begin never exceeds end. */
  type ValueRange = r: Range | r.begin <= r.end witness Range(0, 0)

  datatype Status =
    | VerifiedSpendable
    | PendingBundle
    | PendingConfirmation
    | ReceiptPending
    | ReceiptMissing
    | LockedForVerification
    | Archived

  /** The sort key of ranges: begin, then end. */
  predicate RangeLe(x: ValueRange, y: ValueRange) {
    x.begin < y.begin || (x.begin == y.begin && x.end <= y.end)
  }

  function SortRanges(s: seq<ValueRange>): seq<ValueRange> {
    Sort(s, RangeLe)
  }

  /** Neighbours do not overlap: the check made on sorted ranges. */
  predicate NeighboursDisjoint(s: seq<ValueRange>) {
    forall i :: 0 <= i < |s| - 1 ==> !s[i].Intersects(s[i + 1])
  }

  ghost predicate Covers(s: seq<ValueRange>, point: nat) {
    exists i :: 0 <= i < |s| && s[i].Has(point)
  }

  lemma RangeLeIsTotalPreorder()
    ensures TotalPreorder(RangeLe)
  {
  }

  lemma SortRangesFacts(s: seq<ValueRange>)
    ensures SortedBy(SortRanges(s), RangeLe)
    ensures |SortRanges(s)| == |s|
    ensures multiset(SortRanges(s)) == multiset(s)
    ensures forall v :: v in SortRanges(s) <==> v in s
  {
    RangeLeIsTotalPreorder();
    SortSorts(s, RangeLe);
    SortPermutes(s, RangeLe);
    SortMembers(s, RangeLe);
  }

  /** Each range ends before every later one begins. */
  predicate Ascending(s: seq<ValueRange>) {
    forall i, j :: 0 <= i < j < |s| ==> s[i].end < s[j].begin
  }

  /** The two checks made on a range list, being sorted and having disjoint neighbours, decide that it ascends. */
  lemma {:induction false} ListCheckDecidesAscending(s: seq<ValueRange>)
    ensures Sort(s, RangeLe) == s && NeighboursDisjoint(s) <==> Ascending(s)
  {
    RangeLeIsTotalPreorder();
    SortFixedPoint(s, RangeLe);
    if SortedBy(s, RangeLe) {
      NeighboursDecideAscending(s);
    }
  }

  /** On sorted ranges the neighbour check decides pairwise disjointness. */
  lemma {:induction false} NeighboursDecideAscending(s: seq<ValueRange>)
    requires SortedBy(s, RangeLe)
    ensures NeighboursDisjoint(s) <==> Ascending(s)
  {
    if NeighboursDisjoint(s) {
      forall i, j | 0 <= i < j < |s| ensures s[i].end < s[j].begin {
        NeighbourGap(s, i, j);
      }
    } else {
      var i :| 0 <= i < |s| - 1 && s[i].Intersects(s[i + 1]);
      assert s[i].end >= s[i + 1].begin;
    }
  }

  lemma {:induction false} NeighbourGap(s: seq<ValueRange>, i: nat, j: nat)
    requires SortedBy(s, RangeLe) && NeighboursDisjoint(s)
    requires i < j < |s|
    ensures s[i].end < s[j].begin
    decreases j - i
  {
    assert !s[i].Intersects(s[i + 1]) && RangeLe(s[i], s[i + 1]);
    if i + 1 < j {
      NeighbourGap(s, i + 1, j);
    }
  }
}

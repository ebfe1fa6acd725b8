/** Cutting a value range into the parts that leave and the parts that stay. */
module Partitions {
  import opened Prelude
  import opened Sorting
  import opened Values

  datatype Segment = Segment(value: ValueRange, outgoing: bool)

  datatype PartitionError = NotContained | TargetsOverlap

  function Gap(cursor: nat, begin: nat): seq<Segment> {
    if cursor < begin then [Segment(Range(cursor, begin - 1), false)] else []
  }

  /** The parts from the cursor up to the end, given the ordered targets still ahead. */
  function SegmentsFrom(cursor: nat, end: nat, targets: seq<ValueRange>): seq<Segment>
    decreases targets
  {
    if targets == [] then Gap(cursor, end + 1)
    else Gap(cursor, targets[0].begin) + [Segment(targets[0], true)] + SegmentsFrom(targets[0].end + 1, end, targets[1..])
  }

  function SegmentsOf(source: ValueRange, targets: seq<ValueRange>): seq<Segment> {
    if targets == [] then [Segment(source, false)] else SegmentsFrom(source.begin, source.end, SortRanges(targets))
  }

  predicate AllContained(source: ValueRange, targets: seq<ValueRange>) {
    forall i :: 0 <= i < |targets| ==> source.Contains(targets[i])
  }

  function ErrorOf(source: ValueRange, targets: seq<ValueRange>): Option<PartitionError> {
    if !AllContained(source, SortRanges(targets)) then Some(NotContained)
    else if !NeighboursDisjoint(SortRanges(targets)) then Some(TargetsOverlap)
    else None
  }

  lemma {:induction false} NextSegments(done: seq<Segment>, cursor: nat, end: nat, targets: seq<ValueRange>, i: nat)
    requires i < |targets|
    ensures done + SegmentsFrom(cursor, end, targets[i..])
         == (done + Gap(cursor, targets[i].begin) + [Segment(targets[i], true)]) + SegmentsFrom(targets[i].end + 1, end, targets[i + 1..])
  {
    assert targets[i..][1..] == targets[i + 1..];
  }

  /** Walks a cursor over the ordered targets, emitting the gaps between them. */
  method PartitionRange(source: ValueRange, targets: seq<ValueRange>) returns (r: Result<seq<Segment>, PartitionError>)
    ensures r == if targets != [] && ErrorOf(source, targets).Some? then Err(ErrorOf(source, targets).value)
                 else Ok(SegmentsOf(source, targets))
  {
    if targets == [] {
      return Ok([Segment(source, false)]);
    }
    var ordered := SortRanges(targets);
    SortRangesFacts(targets);
    if !AllContained(source, ordered) {
      return Err(NotContained);
    }
    if !NeighboursDisjoint(ordered) {
      return Err(TargetsOverlap);
    }
    var segments := WalkTargets(source, ordered);
    r := Ok(segments);
  }

  lemma {:induction false} NothingLeft(cursor: nat, end: nat)
    ensures SegmentsFrom(cursor, end, []) == Gap(cursor, end + 1)
  {
  }

  method WalkTargets(source: ValueRange, ordered: seq<ValueRange>) returns (segments: seq<Segment>)
    ensures segments == SegmentsFrom(source.begin, source.end, ordered)
  {
    hide SegmentsFrom;
    segments := [];
    var cursor: nat := source.begin;
    ghost var whole := SegmentsFrom(source.begin, source.end, ordered);
    assert ordered[0..] == ordered;
    for i := 0 to |ordered|
      invariant segments + SegmentsFrom(cursor, source.end, ordered[i..]) == whole
    {
      var target := ordered[i];
      NextSegments(segments, cursor, source.end, ordered, i);
      ghost var withGap := segments + Gap(cursor, target.begin);
      if cursor < target.begin {
        segments := segments + [Segment(Range(cursor, target.begin - 1), false)];
      }
      assert segments == withGap;
      segments := segments + [Segment(target, true)];
      cursor := target.end + 1;
    }
    assert ordered[|ordered|..] == [];
    NothingLeft(cursor, source.end);
    if cursor <= source.end {
      segments := segments + [Segment(Range(cursor, source.end), false)];
    }
    assert segments == whole;
  }

  // ----- What a partition is

  function PointCount(segments: seq<Segment>, p: nat): nat {
    if segments == [] then 0 else (if segments[0].value.Has(p) then 1 else 0) + PointCount(segments[1..], p)
  }

  function OutgoingOf(segments: seq<Segment>): seq<ValueRange> {
    if segments == [] then []
    else if segments[0].outgoing then [segments[0].value] + OutgoingOf(segments[1..])
    else OutgoingOf(segments[1..])
  }

  lemma {:induction false} CountConcat(a: seq<Segment>, b: seq<Segment>, p: nat)
    ensures PointCount(a + b, p) == PointCount(a, p) + PointCount(b, p)
  {
    if a == [] {
      assert a + b == b;
    } else {
      assert (a + b)[1..] == a[1..] + b;
      CountConcat(a[1..], b, p);
    }
  }

  lemma {:induction false} OutgoingConcat(a: seq<Segment>, b: seq<Segment>)
    ensures OutgoingOf(a + b) == OutgoingOf(a) + OutgoingOf(b)
  {
    if a == [] {
      assert a + b == b;
    } else {
      assert (a + b)[1..] == a[1..] + b;
      OutgoingConcat(a[1..], b);
    }
  }

  /** The first gap and the first target, before the rest. */
  lemma {:induction false} HeadSegments(cursor: nat, target: ValueRange, p: nat)
    ensures PointCount(Gap(cursor, target.begin) + [Segment(target, true)], p)
         == (if cursor <= p < target.begin then 1 else 0) + (if target.Has(p) then 1 else 0)
    ensures OutgoingOf(Gap(cursor, target.begin) + [Segment(target, true)]) == [target]
  {
    var gap, last := Gap(cursor, target.begin), [Segment(target, true)];
    assert last[1..] == [] && (gap != [] ==> gap[1..] == []);
    CountConcat(gap, last, p);
    OutgoingConcat(gap, last);
  }

  lemma {:induction false} SegmentsTile(cursor: nat, end: nat, targets: seq<ValueRange>, p: nat)
    requires Ascending(targets) && cursor <= end + 1
    requires forall i :: 0 <= i < |targets| ==> cursor <= targets[i].begin && targets[i].end <= end
    ensures PointCount(SegmentsFrom(cursor, end, targets), p) == if cursor <= p <= end then 1 else 0
    decreases targets
  {
    if targets != [] {
      SegmentsTile(targets[0].end + 1, end, targets[1..], p);
      HeadSegments(cursor, targets[0], p);
      CountConcat(Gap(cursor, targets[0].begin) + [Segment(targets[0], true)], SegmentsFrom(targets[0].end + 1, end, targets[1..]), p);
    }
  }

  lemma {:induction false} SegmentsOutgoing(cursor: nat, end: nat, targets: seq<ValueRange>)
    ensures OutgoingOf(SegmentsFrom(cursor, end, targets)) == targets
    decreases targets
  {
    if targets != [] {
      SegmentsOutgoing(targets[0].end + 1, end, targets[1..]);
      HeadSegments(cursor, targets[0], 0);
      OutgoingConcat(Gap(cursor, targets[0].begin) + [Segment(targets[0], true)], SegmentsFrom(targets[0].end + 1, end, targets[1..]));
    }
  }

  /**
    A partition that is not refused puts every point of the source in exactly one part and no other point in any,
    and its outgoing parts are the targets in order.
   */
  lemma {:induction false} PartitionTiles(source: ValueRange, targets: seq<ValueRange>, p: nat)
    requires ErrorOf(source, targets).None?
    ensures PointCount(SegmentsOf(source, targets), p) == if source.Has(p) then 1 else 0
    ensures OutgoingOf(SegmentsOf(source, targets)) == SortRanges(targets)
  {
    if targets != [] {
      SortRangesFacts(targets);
      NeighboursDecideAscending(SortRanges(targets));
      SegmentsTile(source.begin, source.end, SortRanges(targets), p);
      SegmentsOutgoing(source.begin, source.end, SortRanges(targets));
    }
  }
}

/** Small shared vocabulary: Option and Result, and a stable sort standing for Python's `sorted`. */
module Prelude {

  datatype Option<+T> = None | Some(value: T)

  datatype Result<+T, +E> = Ok(value: T) | Err(error: E)

  /** Looks a key up the way `dict.get` does. */
  function Lookup<K, V>(m: map<K, V>, k: K): Option<V> {
    if k in m then Some(m[k]) else None
  }
}

/** A stable insertion sort, the specification of every `sorted(...)` call in the modelled code. */
module Sorting {

  /** The comparison is a total preorder: any two items compare, and comparing is transitive. */
  ghost predicate TotalPreorder<T(!new)>(le: (T, T) -> bool) {
    && (forall x, y :: le(x, y) || le(y, x))
    && (forall x, y, z :: le(x, y) && le(y, z) ==> le(x, z))
  }

  ghost predicate SortedBy<T>(s: seq<T>, le: (T, T) -> bool) {
    forall i, j :: 0 <= i < j < |s| ==> le(s[i], s[j])
  }

  function Insert<T>(x: T, s: seq<T>, le: (T, T) -> bool): seq<T> {
    if s == [] || le(x, s[0]) then [x] + s else [s[0]] + Insert(x, s[1..], le)
  }

  function Sort<T>(s: seq<T>, le: (T, T) -> bool): seq<T> {
    if s == [] then [] else Insert(s[0], Sort(s[1..], le), le)
  }

  lemma {:induction false} InsertPermutes<T>(x: T, s: seq<T>, le: (T, T) -> bool)
    ensures multiset(Insert(x, s, le)) == multiset{x} + multiset(s)
    ensures |Insert(x, s, le)| == |s| + 1
  {
    if s == [] || le(x, s[0]) {
    } else {
      InsertPermutes(x, s[1..], le);
      assert s == [s[0]] + s[1..];
    }
  }

  lemma {:induction false} SortPermutes<T>(s: seq<T>, le: (T, T) -> bool)
    ensures multiset(Sort(s, le)) == multiset(s)
    ensures |Sort(s, le)| == |s|
  {
    if s != [] {
      SortPermutes(s[1..], le);
      InsertPermutes(s[0], Sort(s[1..], le), le);
      assert s == [s[0]] + s[1..];
    }
  }

  lemma {:induction false} SortMembers<T>(s: seq<T>, le: (T, T) -> bool)
    ensures forall x :: x in Sort(s, le) <==> x in s
  {
    SortPermutes(s, le);
    forall x ensures x in Sort(s, le) <==> x in s {
      assert x in Sort(s, le) <==> x in multiset(Sort(s, le));
      assert x in s <==> x in multiset(s);
    }
  }

  lemma {:induction false} InsertSorts<T(!new)>(x: T, s: seq<T>, le: (T, T) -> bool)
    requires TotalPreorder(le) && SortedBy(s, le)
    ensures SortedBy(Insert(x, s, le), le)
  {
    if s == [] || le(x, s[0]) {
    } else {
      InsertSorts(x, s[1..], le);
      var rest := Insert(x, s[1..], le);
      InsertPermutes(x, s[1..], le);
      forall j | 0 <= j < |rest| ensures le(s[0], rest[j]) {
        assert rest[j] in multiset(rest);
      }
    }
  }

  lemma {:induction false} SortSorts<T(!new)>(s: seq<T>, le: (T, T) -> bool)
    requires TotalPreorder(le)
    ensures SortedBy(Sort(s, le), le)
  {
    if s != [] {
      SortSorts(s[1..], le);
      InsertSorts(s[0], Sort(s[1..], le), le);
    }
  }

  /** Sorting leaves exactly the sorted sequences alone, so `xs == sorted(xs)` tests sortedness. */
  lemma {:induction false} SortFixedPoint<T(!new)>(s: seq<T>, le: (T, T) -> bool)
    requires TotalPreorder(le)
    ensures Sort(s, le) == s <==> SortedBy(s, le)
  {
    SortSorts(s, le);
    if s != [] && SortedBy(s, le) {
      SortFixedPoint(s[1..], le);
    }
  }

  // ----- Relations between any two items

  ghost predicate RelatesTo<T>(x: T, s: seq<T>, rel: (T, T) -> bool) {
    forall k :: 0 <= k < |s| ==> rel(x, s[k]) && rel(s[k], x)
  }

  ghost predicate Pairwise<T>(s: seq<T>, rel: (T, T) -> bool) {
    forall i, j :: 0 <= i < j < |s| ==> rel(s[i], s[j]) && rel(s[j], s[i])
  }

  lemma PairwiseCons<T>(x: T, s: seq<T>, rel: (T, T) -> bool)
    requires Pairwise(s, rel) && RelatesTo(x, s, rel)
    ensures Pairwise([x] + s, rel)
  {
  }

  lemma {:induction false} InsertRelates<T>(y: T, x: T, s: seq<T>, le: (T, T) -> bool, rel: (T, T) -> bool)
    requires rel(y, x) && rel(x, y) && RelatesTo(y, s, rel)
    ensures RelatesTo(y, Insert(x, s, le), rel)
  {
    var inserted := Insert(x, s, le);
    InsertPermutes(x, s, le);
    forall k | 0 <= k < |inserted| ensures rel(y, inserted[k]) && rel(inserted[k], y) {
      assert inserted[k] in multiset(inserted);
      assert inserted[k] == x || inserted[k] in s;
    }
  }

  lemma {:induction false} InsertPairwise<T>(x: T, s: seq<T>, le: (T, T) -> bool, rel: (T, T) -> bool)
    requires Pairwise(s, rel) && RelatesTo(x, s, rel)
    ensures Pairwise(Insert(x, s, le), rel)
  {
    if s == [] || le(x, s[0]) {
      PairwiseCons(x, s, rel);
    } else {
      InsertPairwise(x, s[1..], le, rel);
      InsertRelates(s[0], x, s[1..], le, rel);
      PairwiseCons(s[0], Insert(x, s[1..], le), rel);
    }
  }

  lemma {:induction false} SortRelates<T>(x: T, s: seq<T>, le: (T, T) -> bool, rel: (T, T) -> bool)
    requires RelatesTo(x, s, rel)
    ensures RelatesTo(x, Sort(s, le), rel)
  {
    SortPermutes(s, le);
    var sorted := Sort(s, le);
    forall k | 0 <= k < |sorted| ensures rel(x, sorted[k]) && rel(sorted[k], x) {
      assert sorted[k] in multiset(sorted);
      var m :| 0 <= m < |s| && s[m] == sorted[k];
    }
  }

  /** Sorting keeps what holds between any two items. */
  lemma {:induction false} SortPairwise<T>(s: seq<T>, le: (T, T) -> bool, rel: (T, T) -> bool)
    requires Pairwise(s, rel)
    ensures Pairwise(Sort(s, le), rel)
  {
    if s != [] {
      SortPairwise(s[1..], le, rel);
      SortRelates(s[0], s[1..], le, rel);
      InsertPairwise(s[0], Sort(s[1..], le), le, rel);
    }
  }

  // ----- Sums

  function Sum<T>(f: T -> nat, s: seq<T>): nat {
    if s == [] then 0 else Sum(f, s[..|s| - 1]) + f(s[|s| - 1])
  }

  lemma SumOne<T>(f: T -> nat, x: T)
    ensures Sum(f, [x]) == f(x)
  {
    assert [x][..0] == [];
  }

  lemma SumPrefix<T>(f: T -> nat, s: seq<T>, n: nat)
    requires n < |s|
    ensures Sum(f, s[..n + 1]) == Sum(f, s[..n]) + f(s[n])
  {
    assert s[..n + 1][..n] == s[..n];
  }

  lemma {:induction false} SumConcat<T>(f: T -> nat, a: seq<T>, b: seq<T>)
    ensures Sum(f, a + b) == Sum(f, a) + Sum(f, b)
  {
    if b == [] {
      assert a + b == a;
    } else {
      assert (a + b)[..|a + b| - 1] == a + b[..|b| - 1];
      SumConcat(f, a, b[..|b| - 1]);
    }
  }

  lemma {:induction false} SumFirst<T>(f: T -> nat, s: seq<T>)
    requires s != []
    ensures Sum(f, s) == f(s[0]) + Sum(f, s[1..])
  {
    assert s == [s[0]] + s[1..] && [s[0]][..0] == [];
    SumConcat(f, [s[0]], s[1..]);
  }

  lemma {:induction false} SumInsert<T>(f: T -> nat, x: T, s: seq<T>, le: (T, T) -> bool)
    ensures Sum(f, Insert(x, s, le)) == f(x) + Sum(f, s)
  {
    var inserted := Insert(x, s, le);
    SumFirst(f, inserted);
    if s == [] || le(x, s[0]) {
      assert inserted[1..] == s;
    } else {
      assert inserted[1..] == Insert(x, s[1..], le);
      SumInsert(f, x, s[1..], le);
      SumFirst(f, s);
    }
  }

  lemma {:induction false} SumSort<T>(f: T -> nat, s: seq<T>, le: (T, T) -> bool)
    ensures Sum(f, Sort(s, le)) == Sum(f, s)
  {
    if s != [] {
      SumSort(f, s[1..], le);
      SumInsert(f, s[0], Sort(s[1..], le), le);
      SumFirst(f, s);
    }
  }

  /** A sum is zero, or at least one item, or at least two, as its items say. */
  lemma {:induction false} SumAtLeast<T>(f: T -> nat, s: seq<T>, i: nat)
    requires i < |s|
    ensures f(s[i]) <= Sum(f, s)
  {
    if i < |s| - 1 {
      SumAtLeast(f, s[..|s| - 1], i);
    }
  }

  lemma {:induction false} SumAtLeastTwo<T>(f: T -> nat, s: seq<T>, i: nat, j: nat)
    requires i < j < |s|
    ensures f(s[i]) + f(s[j]) <= Sum(f, s)
  {
    if j < |s| - 1 {
      SumAtLeastTwo(f, s[..|s| - 1], i, j);
    } else {
      SumAtLeast(f, s[..|s| - 1], i);
    }
  }

  /** A positive sum has a positive item. */
  lemma {:induction false} SumSomewhere<T>(f: T -> nat, s: seq<T>) returns (i: nat)
    requires Sum(f, s) > 0
    ensures i < |s| && f(s[i]) > 0
  {
    i := |s| - 1;
    if f(s[i]) == 0 {
      i := SumSomewhere(f, s[..i]);
    }
  }

  lemma {:induction false} SumAgrees<A, B>(f: A -> nat, g: B -> nat, a: seq<A>, b: seq<B>)
    requires |a| == |b| && forall k :: 0 <= k < |a| ==> f(a[k]) == g(b[k])
    ensures Sum(f, a) == Sum(g, b)
  {
    if a != [] {
      SumAgrees(f, g, a[..|a| - 1], b[..|b| - 1]);
    }
  }

  /** Two functions that agree but at one item, and differ there by `d`, have sums that differ by `d`. */
  lemma {:induction false} SumDiffersAt<T>(f: T -> nat, g: T -> nat, s: seq<T>, k: nat, d: nat)
    requires k < |s| && f(s[k]) + d == g(s[k])
    requires forall j :: 0 <= j < |s| && j != k ==> f(s[j]) == g(s[j])
    ensures Sum(f, s) + d == Sum(g, s)
  {
    var last := |s| - 1;
    if k < last {
      SumDiffersAt(f, g, s[..last], k, d);
    } else {
      SumAgrees(f, g, s[..last], s[..last]);
    }
  }
}

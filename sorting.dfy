/** Stable sorting, as every sort in the application is: Python's `sorted`,
    JavaScript's `Array.prototype.sort` (stable since ES2019) and the
    model's reading of SQL `ORDER BY` ties. `le(a, b)` means "`a` may come
    before `b`"; a descending sort by a key `k` uses `k(a) >= k(b)`. */
module Sorting {
  import opened Seqs

  ghost predicate TotalPreorder<T(!new)>(le: (T, T) -> bool)
  {
    && (forall a, b :: le(a, b) || le(b, a))
    && (forall a, b, c :: le(a, b) && le(b, c) ==> le(a, c))
  }

  ghost predicate SortedBy<T>(s: seq<T>, le: (T, T) -> bool)
  {
    forall i, j :: 0 <= i < j < |s| ==> le(s[i], s[j])
  }

  /** Inserts `x` in front of the first element it may precede. */
  function Insert<T>(x: T, s: seq<T>, le: (T, T) -> bool): (r: seq<T>)
    ensures multiset(r) == multiset(s) + multiset{x}
    ensures |r| == |s| + 1
  {
    if s == [] || le(x, s[0]) then [x] + s
    else
      assert s == [s[0]] + s[1..];
      [s[0]] + Insert(x, s[1..], le)
  }

  /** Insertion sort: a permutation of `s`. */
  function SortBy<T>(s: seq<T>, le: (T, T) -> bool): (r: seq<T>)
    ensures multiset(r) == multiset(s)
    ensures |r| == |s|
  {
    if s == [] then []
    else
      assert s == [s[0]] + s[1..];
      Insert(s[0], SortBy(s[1..], le), le)
  }

  lemma {:induction false} InsertSorted<T(!new)>(x: T, s: seq<T>, le: (T, T) -> bool)
    requires TotalPreorder(le) && SortedBy(s, le)
    ensures SortedBy(Insert(x, s, le), le)
  {
    if s != [] && !le(x, s[0]) {
      var t := Insert(x, s[1..], le);
      InsertSorted(x, s[1..], le);
      forall j | 0 <= j < |t| ensures le(s[0], t[j]) {
        assert t[j] in multiset(t);
        if t[j] != x {
          assert t[j] in multiset(s[1..]);
          var m :| 0 <= m < |s[1..]| && s[1..][m] == t[j];
          assert s[m + 1] == t[j];
        }
      }
      assert Insert(x, s, le) == [s[0]] + t;
    }
  }

  /** The result of `SortBy` is sorted. */
  lemma {:induction false} SortSorted<T(!new)>(s: seq<T>, le: (T, T) -> bool)
    requires TotalPreorder(le)
    ensures SortedBy(SortBy(s, le), le)
  {
    if s != [] {
      SortSorted(s[1..], le);
      InsertSorted(s[0], SortBy(s[1..], le), le);
    }
  }

  /** The elements of `s` equivalent to `x` under `le`, in their order in `s`. */
  function Ties<T>(s: seq<T>, x: T, le: (T, T) -> bool): seq<T>
  {
    if s == [] then []
    else (if le(s[0], x) && le(x, s[0]) then [s[0]] else []) + Ties(s[1..], x, le)
  }

  lemma {:induction false} InsertTies<T(!new)>(y: T, s: seq<T>, x: T, le: (T, T) -> bool)
    requires TotalPreorder(le)
    ensures Ties(Insert(y, s, le), x, le)
         == (if le(y, x) && le(x, y) then [y] else []) + Ties(s, x, le)
  {
    if s != [] && !le(y, s[0]) {
      InsertTies(y, s[1..], x, le);
      var r := Insert(y, s, le);
      assert r[0] == s[0] && r[1..] == Insert(y, s[1..], le);
    } else {
      var r := Insert(y, s, le);
      assert r[0] == y && r[1..] == s;
    }
  }

  /** Stability: within each class of equivalent elements, the sorted
      sequence keeps the order of the input. */
  lemma {:induction false} SortStable<T(!new)>(s: seq<T>, x: T, le: (T, T) -> bool)
    requires TotalPreorder(le)
    ensures Ties(SortBy(s, le), x, le) == Ties(s, x, le)
  {
    if s != [] {
      SortStable(s[1..], x, le);
      InsertTies(s[0], SortBy(s[1..], le), x, le);
    }
  }

  /** Every prefix and every slice of a sorted sequence is sorted, and an
      element of the prefix may precede every element after it. */
  lemma SortedSlice<T>(s: seq<T>, lo: int, hi: int, le: (T, T) -> bool)
    requires SortedBy(s, le) && 0 <= lo <= hi <= |s|
    ensures SortedBy(s[lo..hi], le)
    ensures forall i, j :: lo <= i < hi <= j < |s| ==> le(s[i], s[j])
  {
  }

  lemma MapConcat<T, B>(a: seq<T>, b: seq<T>, f: T -> B)
    ensures Map(a + b, f) == Map(a, f) + Map(b, f)
  {
    assert forall i :: 0 <= i < |a| + |b| ==> Map(a + b, f)[i] == (Map(a, f) + Map(b, f))[i];
  }

  /** Projecting after inserting adds exactly the projection of `x`. */
  lemma {:induction false} InsertMap<T, B>(x: T, s: seq<T>, le: (T, T) -> bool, f: T -> B)
    ensures multiset(Map(Insert(x, s, le), f)) == multiset(Map(s, f)) + multiset{f(x)}
  {
    if s == [] || le(x, s[0]) {
      MapConcat([x], s, f);
    } else {
      var t := Insert(x, s[1..], le);
      assert s == [s[0]] + s[1..];
      InsertMap(x, s[1..], le, f);
      MapConcat([s[0]], t, f);
      MapConcat([s[0]], s[1..], f);
    }
  }

  /** Sorting and then projecting gives the projections of the input,
      each as often as before. */
  lemma {:induction false} SortMap<T, B>(s: seq<T>, le: (T, T) -> bool, f: T -> B)
    ensures multiset(Map(SortBy(s, le), f)) == multiset(Map(s, f))
  {
    if s != [] {
      var rest := SortBy(s[1..], le);
      assert SortBy(s, le) == Insert(s[0], rest, le);
      SortMap(s[1..], le, f);
      InsertMap(s[0], rest, le, f);
      assert Map(s, f) == [f(s[0])] + Map(s[1..], f);
    }
  }
}

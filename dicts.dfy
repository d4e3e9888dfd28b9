/** Python dictionaries and JavaScript objects used as counters. Both keep
    their keys in insertion order, and the order of `por_bano` decides the
    order of ties in the top-ten list, so a dictionary is modelled as a
    sequence of (key, value) entries in insertion order. */
module Dicts {

  type Dict<K> = seq<(K, int)>

  function Keys<K>(d: Dict<K>): (r: seq<K>)
    ensures |r| == |d| && forall i :: 0 <= i < |d| ==> r[i] == d[i].0
  {
    seq(|d|, i requires 0 <= i < |d| => d[i].0)
  }

  /** `d.get(k, 0)`. */
  function Get<K(==)>(d: Dict<K>, k: K): int
  {
    if d == [] then 0 else if d[0].0 == k then d[0].1 else Get(d[1..], k)
  }

  /** `d[k] = d.get(k, 0) + 1`: the value of an existing key is updated in
      place, a new key goes at the end. */
  function Bump<K(==)>(d: Dict<K>, k: K): Dict<K>
  {
    if d == [] then [(k, 1)]
    else if d[0].0 == k then [(k, d[0].1 + 1)] + d[1..]
    else [d[0]] + Bump(d[1..], k)
  }

  /** The sum of the values. */
  function Sum<K>(d: Dict<K>): int
  {
    if d == [] then 0 else d[0].1 + Sum(d[1..])
  }

  /** The distinct elements of `xs` in order of first occurrence. */
  function Dedup<K(==)>(xs: seq<K>): seq<K>
  {
    if xs == [] then []
    else
      var d := Dedup(xs[..|xs| - 1]);
      if xs[|xs| - 1] in d then d else d + [xs[|xs| - 1]]
  }

  ghost predicate Distinct<K>(xs: seq<K>)
  {
    forall i, j :: 0 <= i < j < |xs| ==> xs[i] != xs[j]
  }

  /** The counter a loop builds by bumping each element of `xs` in turn. */
  function Tally<K(==)>(xs: seq<K>): Dict<K>
  {
    if xs == [] then [] else Bump(Tally(xs[..|xs| - 1]), xs[|xs| - 1])
  }

  // ---------------- properties of one step ----------------

  lemma {:induction false} BumpKeys<K>(d: Dict<K>, k: K)
    ensures Keys(Bump(d, k)) == if k in Keys(d) then Keys(d) else Keys(d) + [k]
  {
    if d != [] && d[0].0 != k {
      BumpKeys(d[1..], k);
      assert Keys(d) == [d[0].0] + Keys(d[1..]);
      assert Keys(Bump(d, k)) == [d[0].0] + Keys(Bump(d[1..], k));
    } else if d != [] {
      assert Keys(Bump(d, k)) == [k] + Keys(d[1..]);
      assert Keys(d) == [k] + Keys(d[1..]);
    }
  }

  lemma {:induction false} BumpGet<K>(d: Dict<K>, k: K, j: K)
    ensures Get(Bump(d, k), j) == Get(d, j) + (if j == k then 1 else 0)
  {
    if d != [] && d[0].0 != k {
      BumpGet(d[1..], k, j);
    }
  }

  lemma {:induction false} BumpSum<K>(d: Dict<K>, k: K)
    ensures Sum(Bump(d, k)) == Sum(d) + 1
  {
    if d != [] && d[0].0 != k {
      BumpSum(d[1..], k);
    }
  }

  lemma {:induction false} BumpPositive<K>(d: Dict<K>, k: K)
    requires forall i :: 0 <= i < |d| ==> d[i].1 >= 1
    ensures forall i :: 0 <= i < |Bump(d, k)| ==> Bump(d, k)[i].1 >= 1
  {
    if d != [] && d[0].0 != k {
      BumpPositive(d[1..], k);
    }
  }

  lemma {:induction false} DedupDistinct<K>(xs: seq<K>)
    ensures Distinct(Dedup(xs))
    ensures forall x :: x in Dedup(xs) <==> x in xs
  {
    if xs != [] {
      var init := xs[..|xs| - 1];
      DedupDistinct(init);
      assert xs == init + [xs[|xs| - 1]];
    }
  }

  /** In a sequence without repetitions every element occurs at most once. */
  lemma {:induction false} DistinctCount<K>(xs: seq<K>, x: K)
    requires Distinct(xs)
    ensures multiset(xs)[x] <= 1
  {
    if xs != [] {
      assert xs == [xs[0]] + xs[1..];
      DistinctCount(xs[1..], x);
      if xs[0] == x {
        assert x !in xs[1..];
      }
    }
  }

  /** A sequence in which nothing occurs twice has no repetitions. */
  lemma CountsDistinct<K>(xs: seq<K>)
    requires forall x :: multiset(xs)[x] <= 1
    ensures Distinct(xs)
  {
    forall i, j | 0 <= i < j < |xs| ensures xs[i] != xs[j] {
      var x := xs[j];
      assert xs == xs[..j] + xs[j..];
      assert x in xs[j..] && xs[i] in xs[..j];
      assert multiset(xs)[x] == multiset(xs[..j])[x] + multiset(xs[j..])[x];
    }
  }

  /** Reordering a sequence without repetitions leaves none. */
  lemma DistinctPermutation<K>(a: seq<K>, b: seq<K>)
    requires Distinct(a) && multiset(a) == multiset(b)
    ensures Distinct(b)
  {
    forall x ensures multiset(b)[x] <= 1 {
      DistinctCount(a, x);
    }
    CountsDistinct(b);
  }

  /** A present key: `Get` reads the value of an entry with that key. */
  lemma {:induction false} GetPresent<K>(d: Dict<K>, k: K)
    requires k in Keys(d)
    ensures exists i :: 0 <= i < |d| && d[i] == (k, Get(d, k))
  {
    if d[0].0 != k {
      assert Keys(d) == [d[0].0] + Keys(d[1..]);
      GetPresent(d[1..], k);
      var i :| 0 <= i < |d| - 1 && d[1..][i] == (k, Get(d[1..], k));
      assert d[i + 1] == (k, Get(d, k));
    }
  }

  /** With distinct keys, `Get` reads each entry's own value. */
  lemma {:induction false} GetDistinct<K>(d: Dict<K>, i: int)
    requires Distinct(Keys(d)) && 0 <= i < |d|
    ensures Get(d, d[i].0) == d[i].1
  {
    if i > 0 {
      assert Keys(d)[0] != Keys(d)[i];
      assert Distinct(Keys(d[1..])) by {
        forall a, b | 0 <= a < b < |d| - 1 ensures Keys(d[1..])[a] != Keys(d[1..])[b] {
          assert Keys(d)[a + 1] != Keys(d)[b + 1];
        }
      }
      GetDistinct(d[1..], i - 1);
    }
  }

  // ---------------- the counter a loop builds ----------------

  /** The keys of the counter are the distinct elements in order of first
      occurrence. */
  lemma {:induction false} TallyKeys<K>(xs: seq<K>)
    ensures Keys(Tally(xs)) == Dedup(xs)
  {
    if xs != [] {
      TallyKeys(xs[..|xs| - 1]);
      BumpKeys(Tally(xs[..|xs| - 1]), xs[|xs| - 1]);
    }
  }

  /** The value of each key is the number of its occurrences. */
  lemma {:induction false} TallyGet<K>(xs: seq<K>, k: K)
    ensures Get(Tally(xs), k) == multiset(xs)[k]
  {
    if xs != [] {
      var init := xs[..|xs| - 1];
      TallyGet(init, k);
      BumpGet(Tally(init), xs[|xs| - 1], k);
      assert xs == init + [xs[|xs| - 1]];
    }
  }

  /** The values add up to the number of elements counted. */
  lemma {:induction false} TallySum<K>(xs: seq<K>)
    ensures Sum(Tally(xs)) == |xs|
  {
    if xs != [] {
      TallySum(xs[..|xs| - 1]);
      BumpSum(Tally(xs[..|xs| - 1]), xs[|xs| - 1]);
    }
  }

  /** Every value is at least 1. */
  lemma {:induction false} TallyPositive<K>(xs: seq<K>)
    ensures forall i :: 0 <= i < |Tally(xs)| ==> Tally(xs)[i].1 >= 1
  {
    if xs != [] {
      TallyPositive(xs[..|xs| - 1]);
      BumpPositive(Tally(xs[..|xs| - 1]), xs[|xs| - 1]);
    }
  }

  /** Everything a counter says, in one place: keys distinct and in order of
      first occurrence, exactly the elements counted, each with its number of
      occurrences, all positive, adding up to `|xs|`. */
  lemma TallyFacts<K>(xs: seq<K>)
    ensures Keys(Tally(xs)) == Dedup(xs) && Distinct(Keys(Tally(xs)))
    ensures forall k :: k in Keys(Tally(xs)) <==> k in xs
    ensures forall k :: Get(Tally(xs), k) == multiset(xs)[k]
    ensures forall i :: 0 <= i < |Tally(xs)| ==> Tally(xs)[i].1 >= 1
    ensures Sum(Tally(xs)) == |xs|
  {
    TallyKeys(xs);
    DedupDistinct(xs);
    forall k ensures Get(Tally(xs), k) == multiset(xs)[k] {
      TallyGet(xs, k);
    }
    TallyPositive(xs);
    TallySum(xs);
  }
}

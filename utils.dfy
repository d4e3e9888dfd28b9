/** static/reportes/assets/js/utils.js: `toSortedEntries`, which turns a
    counter object into its `[key, value]` entries, largest value first. */
module Utils {
  import opened Base
  import opened Sorting
  import opened Dicts

  /** `(a, b) => b[1] - a[1]`: `a` may precede `b` when its value is not
      smaller. */
  predicate ByValueDesc(a: (string, int), b: (string, int))
  {
    a.1 >= b.1
  }

  lemma ByValueDescTotal()
    ensures TotalPreorder(ByValueDesc)
  {
  }

  /** `Object.entries(obj || {}).sort((a, b) => b[1] - a[1])`; `None`
      stands for `null` or `undefined`. */
  function ToSortedEntries(obj: Option<Dict<string>>): (r: seq<(string, int)>)
    ensures obj.None? ==> r == []
    ensures obj.Some? ==> multiset(r) == multiset(obj.value) && |r| == |obj.value|
    ensures SortedBy(r, ByValueDesc)
  {
    match obj
    case None => []
    case Some(d) =>
      ByValueDescTotal();
      SortSorted(d, ByValueDesc);
      SortBy(d, ByValueDesc)
  }

  /** Entries with equal values keep the object's order (the sort is
      stable). */
  lemma ToSortedEntriesStable(d: Dict<string>, e: (string, int))
    ensures Ties(ToSortedEntries(Some(d)), e, ByValueDesc) == Ties(d, e, ByValueDesc)
  {
    ByValueDescTotal();
    SortStable(d, e, ByValueDesc);
  }
}

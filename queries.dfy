/** The query helpers of models.py: the restroom catalog (`get_banos`), the
    report filters, the free-text search, newest-first ordering and the
    paginated listing (`list_reportes`), and the rows behind the KPIs
    (`fetch_rows_for_kpis`). The database is the restroom table, a map from
    id to `Bano`, and the report table, a sequence of `Reporte` in insertion
    order. */
module Queries {
  import opened Base
  import opened Text
  import opened Sorting
  import opened Seqs
  import opened Records
  import Dicts
  import Like

  // ---------------- filters ----------------

  /** The optional filters. A date bound is a UTC day number; an empty
      string stands for a text filter that was not supplied (models.py
      tests each one for truthiness, so `None` and `""` behave alike). */
  datatype Filters = Filters(
    desde: Option<int>,
    hasta: Option<int>,
    zona: string,
    idBano: string,
    search: string)

  /** A report joined with its restroom. */
  type Row = (Reporte, Bano)

  /** The date, zone and restroom filters, AND-combined. The date bounds are
      inclusive and compare the UTC calendar day of `creado_en`. */
  predicate MatchesBase(r: Reporte, b: Bano, f: Filters)
  {
    && (f.desde.Some? ==> UtcDay(r.creadoEn) >= f.desde.value)
    && (f.hasta.Some? ==> UtcDay(r.creadoEn) <= f.hasta.value)
    && (f.zona != "" ==> b.zona == Some(f.zona))
    && (f.idBano != "" ==> r.idBano == f.idBano)
  }

  /** A nullable column matches the term when it holds the term as a
      case-insensitive substring; SQL `NULL` never matches. */
  predicate FieldHit(field: Option<string>, term: string)
  {
    field.Some? && Contains(Lower(field.value), Lower(term))
  }

  /** The six searched columns, OR-combined. */
  predicate SearchHit(term: string, r: Reporte, b: Bano)
  {
    || FieldHit(Some(r.categoria), term)
    || FieldHit(r.comentario, term)
    || FieldHit(Some(b.nombre), term)
    || FieldHit(Some(b.id), term)
    || FieldHit(b.zona, term)
    || FieldHit(b.piso, term)
  }

  /** `term` occurs, ignoring case, at some position of the column. */
  ghost predicate OccursIn(field: Option<string>, term: string)
  {
    field.Some? && exists k :: OccursAt(Lower(field.value), Lower(term), k)
  }

  /** The search keeps a row exactly when the term occurs, ignoring case,
      somewhere in one of the six columns. */
  lemma SearchHitSubstring(term: string, r: Reporte, b: Bano)
    ensures SearchHit(term, r, b) <==>
              || OccursIn(Some(r.categoria), term) || OccursIn(r.comentario, term)
              || OccursIn(Some(b.nombre), term) || OccursIn(Some(b.id), term)
              || OccursIn(b.zona, term) || OccursIn(b.piso, term)
  {
    ContainsIff(Lower(r.categoria), Lower(term));
    if r.comentario.Some? { ContainsIff(Lower(r.comentario.value), Lower(term)); }
    ContainsIff(Lower(b.nombre), Lower(term));
    ContainsIff(Lower(b.id), Lower(term));
    if b.zona.Some? { ContainsIff(Lower(b.zona.value), Lower(term)); }
    if b.piso.Some? { ContainsIff(Lower(b.piso.value), Lower(term)); }
  }

  /** All supplied filters, search included. */
  predicate Matches(r: Reporte, b: Bano, f: Filters)
  {
    MatchesBase(r, b, f) && (f.search != "" ==> SearchHit(f.search, r, b))
  }

  // ---------------- the search as models.py writes it ----------------

  predicate FieldHitAsWritten(field: Option<string>, term: string)
  {
    field.Some? && Like.ILike(field.value, Like.SearchPattern(term))
  }

  /** The search as written: each column `ILIKE '%term%'`. */
  predicate SearchHitAsWritten(term: string, r: Reporte, b: Bano)
  {
    || FieldHitAsWritten(Some(r.categoria), term)
    || FieldHitAsWritten(r.comentario, term)
    || FieldHitAsWritten(Some(b.nombre), term)
    || FieldHitAsWritten(Some(b.id), term)
    || FieldHitAsWritten(b.zona, term)
    || FieldHitAsWritten(b.piso, term)
  }

  /** For a term without `%` or `_`, the search as written is exactly the
      case-insensitive substring search. */
  lemma SearchAsWrittenAgrees(term: string, r: Reporte, b: Bano)
    requires Like.Literal(term)
    ensures SearchHitAsWritten(term, r, b) <==> SearchHit(term, r, b)
  {
    Like.ILikeIsSubstring(r.categoria, term);
    if r.comentario.Some? { Like.ILikeIsSubstring(r.comentario.value, term); }
    Like.ILikeIsSubstring(b.nombre, term);
    Like.ILikeIsSubstring(b.id, term);
    if b.zona.Some? { Like.ILikeIsSubstring(b.zona.value, term); }
    if b.piso.Some? { Like.ILikeIsSubstring(b.piso.value, term); }
  }

  /** A search for `_` matches a report none of whose columns contains an
      underscore. */
  lemma UnderscoreSearchMatchesAnything()
    ensures var r := Reporte(1, "B", "x", None, None, DefaultOrigen, 0, None, DefaultEstado);
            var b := Bano("B", "y", None, None, None, true);
            SearchHitAsWritten("_", r, b) && !SearchHit("_", r, b)
  {
    var p := Like.SearchPattern("_");
    assert Lower(p) == p;
    assert Lower("y") == "y";
    assert Like.LikeMatch(p[2..], "y"[1..]);
    assert Like.LikeMatch(p[1..], "y");
    assert Lower("x") == "x" && Lower("B") == "b";
    ContainsChar("x", '_');
    ContainsChar("y", '_');
    ContainsChar("b", '_');
  }

  // ---------------- the joined, filtered, ordered selection ----------------

  /** `select(Reporte).join(Bano)`: each report with its restroom, in
      insertion order; a report whose restroom is missing drops out. */
  function Joined(banos: map<string, Bano>, reportes: seq<Reporte>): (rows: seq<Row>)
    ensures forall row :: row in rows ==> row.0 in reportes && row.0.idBano in banos && row.1 == banos[row.0.idBano]
    ensures (forall r :: r in reportes ==> r.idBano in banos) ==>
              |rows| == |reportes| && forall i :: 0 <= i < |rows| ==> rows[i] == (reportes[i], banos[reportes[i].idBano])
  {
    if reportes == [] then []
    else
      (if reportes[0].idBano in banos then [(reportes[0], banos[reportes[0].idBano])] else [])
      + Joined(banos, reportes[1..])
  }

  /** The rows that satisfy every filter, in insertion order. */
  function Select(banos: map<string, Bano>, reportes: seq<Reporte>, f: Filters): seq<Row>
  {
    Filter(Joined(banos, reportes), (row: Row) => Matches(row.0, row.1, f))
  }

  /** The rows that satisfy the date, zone and restroom filters. */
  function SelectBase(banos: map<string, Bano>, reportes: seq<Reporte>, f: Filters): seq<Row>
  {
    Filter(Joined(banos, reportes), (row: Row) => MatchesBase(row.0, row.1, f))
  }

  /** `order_by(creado_en.desc())`. */
  predicate NewestFirst(a: Row, b: Row)
  {
    a.0.creadoEn >= b.0.creadoEn
  }

  lemma NewestFirstTotal()
    ensures TotalPreorder(NewestFirst)
  {
  }

  /** `.offset(offset).limit(limit)`; a negative offset counts as 0, as in
      SQLite. The limit is always a positive page size here. */
  function Window<T>(s: seq<T>, offset: int, limit: int): (r: seq<T>)
    requires limit > 0
    ensures |r| <= limit
    ensures var lo := Min(Max(offset, 0), |s|);
            |r| == Min(limit, |s| - lo) && r == s[lo..lo + |r|]
  {
    var lo := Min(Max(offset, 0), |s|);
    s[lo..Min(|s|, lo + limit)]
  }

  /** Integer ceiling of `a / b` (`math.ceil(total / per_page)`). */
  function CeilDiv(a: nat, b: int): (q: nat)
    requires b > 0
    ensures a == 0 ==> q == 0
    ensures a > 0 ==> (q - 1) * b < a <= q * b
  {
    var q := (a + b - 1) / b;
    var m := (a + b - 1) % b;
    assert q * b + m == a + b - 1;
    assert (q - 1) * b == q * b - b;
    q
  }

  /** `pages = max(1, ceil(total / per_page)) if total else 1`. */
  function PagesOf(total: nat, perPage: int): (pages: int)
    requires perPage > 0
    ensures pages >= 1
    ensures total == 0 ==> pages == 1
    ensures total > 0 ==> (pages - 1) * perPage < total <= pages * perPage
  {
    if total == 0 then 1 else Max(1, CeilDiv(total, perPage))
  }

  /** The paginated envelope `{page, per_page, total, pages, items}`. */
  datatype ListPage<I> = ListPage(page: int, perPage: int, total: int, pages: int, items: seq<I>)

  /** The page, clamped into `[1, pages]`. */
  function ClampedPage(page: int, pages: int): (p: int)
    requires pages >= 1
    ensures 1 <= p <= pages
    ensures 1 <= page <= pages ==> p == page
    ensures page < 1 ==> p == 1
    ensures page > pages ==> p == pages
  {
    Max(1, Min(page, pages))
  }

  /** The offset of the clamped page: it never passes the last row, so a
      non-empty selection always has a row at this offset. */
  function PageStart(total: nat, page: int, perPage: int): (lo: nat)
    requires perPage > 0
    ensures lo <= total
    ensures total > 0 ==> lo < total
    ensures lo == (ClampedPage(page, PagesOf(total, perPage)) - 1) * perPage
  {
    var pages := PagesOf(total, perPage);
    var p := ClampedPage(page, pages);
    assert (p - 1) * perPage <= (pages - 1) * perPage;
    (p - 1) * perPage
  }

  /** `.offset((page - 1) * per_page).limit(per_page)` on the clamped page. */
  function PageOf<T>(s: seq<T>, page: int, perPage: int): (r: seq<T>)
    requires perPage > 0
    ensures var lo := PageStart(|s|, page, perPage);
            && |r| == Min(perPage, |s| - lo)
            && r == s[lo..lo + |r|]
    ensures |r| <= perPage
    ensures |s| > 0 ==> |r| > 0
  {
    Window(s, PageStart(|s|, page, perPage), perPage)
  }

  /** The rows `list_reportes` puts on the requested page. */
  function ListRows(banos: map<string, Bano>, reportes: seq<Reporte>, f: Filters, page: int, perPage: int): seq<Row>
    requires perPage > 0
  {
    PageOf(SortBy(Select(banos, reportes, f), NewestFirst), page, perPage)
  }

  function JoinRow(row: Row): JoinedDict
  {
    ToDictJoined(row.0, Some(row.1))
  }

  /** `list_reportes`: `per_page` is taken as given (positive), `page` is
      clamped into range, and a non-empty selection never yields an empty
      page. */
  function ListReportes(banos: map<string, Bano>, reportes: seq<Reporte>, f: Filters, page: int, perPage: int)
    : (r: ListPage<JoinedDict>)
    requires perPage > 0
    ensures r.perPage == perPage
    ensures r.total == |Select(banos, reportes, f)|
    ensures r.pages == PagesOf(r.total, perPage)
    ensures 1 <= r.page <= r.pages && r.page == ClampedPage(page, r.pages)
    ensures r.items == Map(ListRows(banos, reportes, f, page, perPage), JoinRow)
  {
    var total := |Select(banos, reportes, f)|;
    var pages := PagesOf(total, perPage);
    ListPage(ClampedPage(page, pages), perPage, total, pages, Map(ListRows(banos, reportes, f, page, perPage), JoinRow))
  }

  /** The page holds at most `per_page` items: exactly `per_page` except on
      the last page, and at least one whenever something matches. */
  lemma ListReportesCount(banos: map<string, Bano>, reportes: seq<Reporte>, f: Filters, page: int, perPage: int)
    requires perPage > 0
    ensures var r := ListReportes(banos, reportes, f, page, perPage);
            && |r.items| <= perPage
            && (r.total > 0 ==> |r.items| == Min(perPage, r.total - (r.page - 1) * perPage) > 0)
  {
    PageOfLength(SortBy(Select(banos, reportes, f), NewestFirst), page, perPage);
  }

  /** The length of a page in terms of the clamped page number. */
  lemma PageOfLength<T>(s: seq<T>, page: int, perPage: int)
    requires perPage > 0
    ensures var p := ClampedPage(page, PagesOf(|s|, perPage));
            && |PageOf(s, page, perPage)| == Min(perPage, |s| - (p - 1) * perPage)
            && (|s| > 0 ==> |PageOf(s, page, perPage)| > 0)
  {
  }

  /** Each listed row is a stored report whose restroom exists, and it
      satisfies every filter. */
  lemma ListRowsMatch(banos: map<string, Bano>, reportes: seq<Reporte>, f: Filters, page: int, perPage: int)
    requires perPage > 0
    ensures forall row :: row in ListRows(banos, reportes, f, page, perPage) ==>
              && Matches(row.0, row.1, f) && row.0 in reportes
              && row.0.idBano in banos && row.1 == banos[row.0.idBano]
  {
    var sel := Select(banos, reportes, f);
    PageMembers(sel, NewestFirst, page, perPage);
  }

  /** The whole selection is sorted newest first, rows created at the same
      instant keep their insertion order, and so the page is ordered too. */
  lemma ListRowsOrder(banos: map<string, Bano>, reportes: seq<Reporte>, f: Filters, page: int, perPage: int)
    requires perPage > 0
    ensures SortedBy(ListRows(banos, reportes, f, page, perPage), NewestFirst)
    ensures var sel := Select(banos, reportes, f);
            && SortedBy(SortBy(sel, NewestFirst), NewestFirst)
            && forall x :: Ties(SortBy(sel, NewestFirst), x, NewestFirst) == Ties(sel, x, NewestFirst)
  {
    NewestFirstTotal();
    SortedPage(Select(banos, reportes, f), NewestFirst, page, perPage);
  }

  /** The page is the run of the whole ordered selection that starts at the
      page's offset. */
  lemma ListRowsSlice(banos: map<string, Bano>, reportes: seq<Reporte>, f: Filters, page: int, perPage: int)
    requires perPage > 0
    ensures var sorted := SortBy(Select(banos, reportes, f), NewestFirst);
            var lo := PageStart(|sorted|, page, perPage);
            ListRows(banos, reportes, f, page, perPage) == sorted[lo..lo + |ListRows(banos, reportes, f, page, perPage)|]
  {
  }

  /** A page holds only elements of the input. */
  lemma PageMembers<T>(sel: seq<T>, le: (T, T) -> bool, page: int, perPage: int)
    requires perPage > 0
    ensures forall x :: x in PageOf(SortBy(sel, le), page, perPage) ==> x in sel
  {
    var sorted := SortBy(sel, le);
    forall x | x in PageOf(sorted, page, perPage) ensures x in sel {
      assert x in multiset(sorted);
    }
  }

  /** A page of a stable sort under a total preorder: the sort is ordered
      and keeps the input order among ties, and the page is ordered too. */
  lemma SortedPage<T(!new)>(sel: seq<T>, le: (T, T) -> bool, page: int, perPage: int)
    requires perPage > 0 && TotalPreorder(le)
    ensures SortedBy(SortBy(sel, le), le)
    ensures forall x :: Ties(SortBy(sel, le), x, le) == Ties(sel, x, le)
    ensures SortedBy(PageOf(SortBy(sel, le), page, perPage), le)
  {
    var sorted := SortBy(sel, le);
    SortSorted(sel, le);
    forall x ensures Ties(sorted, x, le) == Ties(sel, x, le) {
      SortStable(sel, x, le);
    }
    var rows := PageOf(sorted, page, perPage);
    var lo := PageStart(|sel|, page, perPage);
    SortedSlice(sorted, lo, lo + |rows|, le);
  }

  // ---------------- rows for the KPIs ----------------

  /** One row of `fetch_rows_for_kpis`: `(categoria, creado_en, id_bano, zona)`. */
  datatype KpiRow = KpiRow(categoria: string, creadoEn: int, idBano: string, zona: Option<string>)

  function KpiRowOf(row: Row): KpiRow
  {
    KpiRow(row.0.categoria, row.0.creadoEn, row.0.idBano, row.1.zona)
  }

  /** `fetch_rows_for_kpis`: the rows that pass the date, zone and restroom
      filters (no search), newest first, projected to four columns. */
  function FetchRowsForKpis(banos: map<string, Bano>, reportes: seq<Reporte>, f: Filters): (rows: seq<KpiRow>)
    ensures |rows| == |SelectBase(banos, reportes, f)|
    ensures forall i, j :: 0 <= i < j < |rows| ==> rows[i].creadoEn >= rows[j].creadoEn
    ensures forall row :: row in SelectBase(banos, reportes, f) ==> KpiRowOf(row) in rows
    ensures forall i :: 0 <= i < |rows| ==> rows[i] in Map(SelectBase(banos, reportes, f), KpiRowOf)
    ensures multiset(rows) == multiset(Map(SelectBase(banos, reportes, f), KpiRowOf))
  {
    var sel := SelectBase(banos, reportes, f);
    var rows := Map(SortBy(sel, NewestFirst), KpiRowOf);
    KpiRowsOrdered(sel, rows);
    KpiRowsComplete(sel, rows);
    KpiRowsSound(sel, rows);
    SortMap(sel, NewestFirst, KpiRowOf);
    rows
  }

  lemma {:induction false} KpiRowsOrdered(sel: seq<Row>, rows: seq<KpiRow>)
    requires rows == Map(SortBy(sel, NewestFirst), KpiRowOf)
    ensures |rows| == |sel|
    ensures forall i, j :: 0 <= i < j < |rows| ==> rows[i].creadoEn >= rows[j].creadoEn
  {
    NewestFirstTotal();
    SortSorted(sel, NewestFirst);
  }

  lemma {:induction false} KpiRowsComplete(sel: seq<Row>, rows: seq<KpiRow>)
    requires rows == Map(SortBy(sel, NewestFirst), KpiRowOf)
    ensures forall row :: row in sel ==> KpiRowOf(row) in rows
  {
    var sorted := SortBy(sel, NewestFirst);
    forall row | row in sel ensures KpiRowOf(row) in rows {
      assert row in multiset(sorted);
      var i :| 0 <= i < |sorted| && sorted[i] == row;
      assert rows[i] == KpiRowOf(row);
    }
  }

  lemma {:induction false} KpiRowsSound(sel: seq<Row>, rows: seq<KpiRow>)
    requires rows == Map(SortBy(sel, NewestFirst), KpiRowOf)
    ensures forall i :: 0 <= i < |rows| ==> rows[i] in Map(sel, KpiRowOf)
  {
    var sorted := SortBy(sel, NewestFirst);
    var all := Map(sel, KpiRowOf);
    forall i | 0 <= i < |rows| ensures rows[i] in all {
      assert sorted[i] in multiset(sorted);
      var j :| 0 <= j < |sel| && sel[j] == sorted[i];
      assert all[j] == rows[i];
    }
  }

  // ---------------- the restroom catalog ----------------

  /** SQL `ORDER BY col NULLS LAST` on a nullable text column. */
  function CmpNullsLast(a: Option<string>, b: Option<string>): int
  {
    match (a, b)
    case (None, None) => 0
    case (None, Some(_)) => 1
    case (Some(_), None) => -1
    case (Some(x), Some(y)) => CmpStr(x, y)
  }

  /** `order_by(zona.nulls_last(), piso.nulls_last(), nombre)`. */
  function CmpBano(a: Bano, b: Bano): int
  {
    var z := CmpNullsLast(a.zona, b.zona);
    if z != 0 then z
    else
      var p := CmpNullsLast(a.piso, b.piso);
      if p != 0 then p else CmpStr(a.nombre, b.nombre)
  }

  predicate BanoLe(a: Bano, b: Bano)
  {
    CmpBano(a, b) <= 0
  }

  lemma NullsLastOrder(a: Option<string>, b: Option<string>, c: Option<string>)
    ensures CmpNullsLast(a, b) == -CmpNullsLast(b, a)
    ensures CmpNullsLast(a, b) == 0 <==> a == b
    ensures CmpNullsLast(a, b) <= 0 && CmpNullsLast(b, c) <= 0 ==> CmpNullsLast(a, c) <= 0
  {
    if a.Some? && b.Some? {
      CmpStrAntisym(a.value, b.value);
    }
    if a.Some? && b.Some? && c.Some? && CmpNullsLast(a, b) <= 0 && CmpNullsLast(b, c) <= 0 {
      CmpStrTrans(a.value, b.value, c.value);
    }
  }

  lemma BanoLeTransitive(a: Bano, b: Bano, c: Bano)
    requires BanoLe(a, b) && BanoLe(b, c)
    ensures BanoLe(a, c)
  {
    NullsLastOrder(a.zona, b.zona, c.zona);
    NullsLastOrder(b.zona, c.zona, a.zona);
    NullsLastOrder(c.zona, a.zona, b.zona);
    NullsLastOrder(a.piso, b.piso, c.piso);
    NullsLastOrder(b.piso, c.piso, a.piso);
    NullsLastOrder(c.piso, a.piso, b.piso);
    StrLeTotal(a.nombre, b.nombre, c.nombre);
  }

  lemma BanoLeTotal()
    ensures TotalPreorder(BanoLe)
  {
    forall a: Bano, b: Bano ensures BanoLe(a, b) || BanoLe(b, a) {
      NullsLastOrder(a.zona, b.zona, a.zona);
      NullsLastOrder(a.piso, b.piso, a.piso);
      CmpStrAntisym(a.nombre, b.nombre);
    }
    forall a: Bano, b: Bano, c: Bano | BanoLe(a, b) && BanoLe(b, c) ensures BanoLe(a, c) {
      BanoLeTransitive(a, b, c);
    }
  }

  /** The restroom table is keyed by its primary key `id`. */
  predicate Keyed(banos: map<string, Bano>)
  {
    forall k :: k in banos ==> banos[k].id == k
  }

  /** The keys of a map, in an unspecified but fixed order. */
  ghost function KeySeq(keys: set<string>): (r: seq<string>)
    ensures |r| == |keys|
    ensures forall k :: k in r <==> k in keys
    ensures Dicts.Distinct(r)
    decreases |keys|
  {
    if keys == {} then []
    else
      var k :| k in keys;
      [k] + KeySeq(keys - {k})
  }

  /** The rows of the restroom table, in the table's unspecified order. */
  ghost function TableRows(banos: map<string, Bano>): (r: seq<Bano>)
    ensures forall b :: b in r <==> b in banos.Values
    ensures Keyed(banos) ==> Dicts.Distinct(r)
  {
    var ks := KeySeq(banos.Keys);
    var r := seq(|ks|, i requires 0 <= i < |ks| => banos[ks[i]]);
    assert Keyed(banos) ==> Dicts.Distinct(r) by {
      if Keyed(banos) {
        forall i, j | 0 <= i < j < |r| ensures r[i] != r[j] {
          assert r[i].id == ks[i] && r[j].id == ks[j];
        }
      }
    }
    assert forall b :: b in banos.Values ==> b in r by {
      forall b | b in banos.Values ensures b in r {
        var k :| k in banos && banos[k] == b;
        var i :| 0 <= i < |ks| && ks[i] == k;
        assert r[i] == b;
      }
    }
    r
  }

  /** Selecting and sorting rows without repetitions leaves none. */
  lemma SelectionDistinct(rows: seq<Bano>, keep: Bano -> bool)
    ensures Dicts.Distinct(rows) ==> Dicts.Distinct(SortBy(Filter(rows, keep), BanoLe))
  {
    if Dicts.Distinct(rows) {
      var r := SortBy(Filter(rows, keep), BanoLe);
      FilterCount(rows, keep);
      forall x ensures multiset(r)[x] <= 1 {
        Dicts.DistinctCount(rows, x);
      }
      Dicts.CountsDistinct(r);
    }
  }

  /** `get_banos`: the restrooms (only the active ones when `soloActivos`),
      ordered by zone, then floor (nulls last), then name. */
  ghost function GetBanos(banos: map<string, Bano>, soloActivos: bool): (r: seq<Bano>)
    ensures forall b :: b in r <==> b in banos.Values && (soloActivos ==> b.activo)
    ensures SortedBy(r, BanoLe)
    ensures Keyed(banos) ==> Dicts.Distinct(r)
  {
    var rows := TableRows(banos);
    var keep := (b: Bano) => soloActivos ==> b.activo;
    var sel := Filter(rows, keep);
    BanoLeTotal();
    SortSorted(sel, BanoLe);
    var r := SortBy(sel, BanoLe);
    SelectionDistinct(rows, keep);
    assert forall b :: b in r <==> b in sel by {
      forall b ensures b in r <==> b in sel {
        assert b in r <==> b in multiset(r);
      }
    }
    r
  }
}

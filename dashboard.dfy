/** static/reportes/assets/js/reportes.js: the dashboard's date helpers,
    the default date range, and the page state `H` of the report history
    with its previous, next and refresh buttons. */
module Dashboard {
  import opened Base
  import opened Text
  import Api
  import opened Records
  import Queries

  // ---------------- dates ----------------

  /** `pad2`: numbers below 10 get a leading `'0'`. */
  function Pad2(n: int): (r: string)
  {
    if n < 10 then "0" + Decimal(n) else Decimal(n)
  }

  /** For 0..99 the result is exactly two digits that read back as `n`. */
  lemma Pad2TwoDigits(n: int)
    requires 0 <= n < 100
    ensures |Pad2(n)| == 2
    ensures forall i :: 0 <= i < 2 ==> IsDigit(Pad2(n)[i])
    ensures DigitsValue(Pad2(n)) == n
  {
    DigitCountRanges(n);
    var r := Pad2(n);
    if n < 10 {
      var d := Digits(n);
      assert r == "0" + d;
      assert r[..1] == "0";
      assert DigitsValue(r[..1]) == 0;
    }
  }

  /** `toYMD`: year, month (`getMonth() + 1`) and day, joined by `-`.
      `month0` is the zero-based month. */
  function ToYMD(year: int, month0: int, day: int): string
  {
    Decimal(year) + "-" + Pad2(month0 + 1) + "-" + Pad2(day)
  }

  /** For a four-digit year the result has the `YYYY-MM-DD` layout and
      each part reads back as its number. */
  lemma ToYMDLayout(year: int, month0: int, day: int)
    requires 1000 <= year <= 9999 && 0 <= month0 <= 11 && 1 <= day <= 31
    ensures var s := ToYMD(year, month0, day);
            && |s| == 10 && s[4] == '-' && s[7] == '-'
            && (forall i :: 0 <= i < 10 && i != 4 && i != 7 ==> IsDigit(s[i]))
            && DigitsValue(s[..4]) == year
            && DigitsValue(s[5..7]) == month0 + 1
            && DigitsValue(s[8..]) == day
  {
    DigitCountRanges(year);
    Pad2TwoDigits(month0 + 1);
    Pad2TwoDigits(day);
    var s := ToYMD(year, month0, day);
    var y := Digits(year);
    var m := Pad2(month0 + 1);
    var d := Pad2(day);
    assert s == y + "-" + m + "-" + d;
    assert s[..4] == y && s[5..7] == m && s[8..] == d;
  }

  /** Distinct dates give distinct strings. */
  lemma ToYMDInjective(y1: int, m1: int, d1: int, y2: int, m2: int, d2: int)
    requires 1000 <= y1 <= 9999 && 0 <= m1 <= 11 && 1 <= d1 <= 31
    requires 1000 <= y2 <= 9999 && 0 <= m2 <= 11 && 1 <= d2 <= 31
    requires ToYMD(y1, m1, d1) == ToYMD(y2, m2, d2)
    ensures y1 == y2 && m1 == m2 && d1 == d2
  {
    ToYMDLayout(y1, m1, d1);
    ToYMDLayout(y2, m2, d2);
  }

  /** The two date inputs of the filter bar. */
  class DateInputs {
    var desde: string
    var hasta: string

    constructor (desde0: string, hasta0: string)
      ensures desde == desde0 && hasta == hasta0
    {
      desde, hasta := desde0, hasta0;
    }

    /** `ensureDefaultDatesIfEmpty`: an empty field gets its default (five
        days ago for `desde`, today for `hasta`), given by the clock as
        `fiveDaysAgo` and `today`; a filled field is left alone. */
    method EnsureDefaults(today: string, fiveDaysAgo: string)
      modifies this
      ensures (desde, hasta) == DefaultedDates(old(desde), old(hasta), today, fiveDaysAgo)
    {
      var noDesde := desde == "";
      var noHasta := hasta == "";
      if noDesde || noHasta {
        if noDesde { desde := fiveDaysAgo; }
        if noHasta { hasta := today; }
      }
    }
  }

  /** The values `ensureDefaultDatesIfEmpty` leaves in the two inputs. */
  function DefaultedDates(desde: string, hasta: string, today: string, fiveDaysAgo: string): (r: (string, string))
    ensures desde != "" ==> r.0 == desde
    ensures hasta != "" ==> r.1 == hasta
    ensures fiveDaysAgo != "" ==> r.0 != ""
    ensures today != "" ==> r.1 != ""
  {
    (if desde == "" then fiveDaysAgo else desde, if hasta == "" then today else hasta)
  }

  /** Applying the defaults a second time changes nothing once the defaults
      are non-empty. */
  lemma DefaultedDatesIdempotent(desde: string, hasta: string, today: string, fiveDaysAgo: string)
    requires today != "" && fiveDaysAgo != ""
    ensures var r := DefaultedDates(desde, hasta, today, fiveDaysAgo);
            DefaultedDates(r.0, r.1, today, fiveDaysAgo) == r
  {
  }

  // ---------------- the history pager ----------------

  /** The `Mostrando a–b` range of `hist_info`: the first and last
      positions of the shown items, the first being 0 when none are shown. */
  function HistRange(page: int, perPage: int, shown: nat): (r: (int, int))
    ensures shown > 0 ==> r.1 - r.0 + 1 == shown
    ensures shown == 0 ==> r.0 == 0
  {
    (if shown > 0 then (page - 1) * perPage + 1 else 0, (page - 1) * perPage + shown)
  }

  /** For a page within range of the history endpoint, the range names
      positions `1..total` of the whole listing and is empty only when
      nothing matches. */
  lemma HistRangeWithinTotal(banos: map<string, Bano>, reportes: seq<Reporte>, f: Queries.Filters, page: int)
    requires 1 <= page <= Api.ReportesList(banos, reportes, f, page, PerPage).pages
    ensures var resp := Api.ReportesList(banos, reportes, f, page, PerPage);
            var r := HistRange(page, PerPage, |resp.items|);
            && (resp.total > 0 ==> 1 <= r.0 <= r.1 <= resp.total)
            && (resp.total == 0 ==> r == (0, 0))
  {
    Api.ReportesListBounds(banos, reportes, f, page, PerPage);
    HistRangeOfPage(page, Api.ReportesList(banos, reportes, f, page, PerPage));
  }

  /** The range facts for any page record that obeys the endpoint's bounds. */
  lemma HistRangeOfPage(page: int, resp: Queries.ListPage<Api.ListItem>)
    requires resp.total >= 0 && resp.perPage == PerPage && resp.pages == Queries.PagesOf(resp.total, PerPage)
    requires 1 <= page <= resp.pages
    requires |resp.items| == Min(resp.perPage, resp.total - (page - 1) * resp.perPage)
    requires resp.total > 0 ==> |resp.items| > 0
    ensures var r := HistRange(page, PerPage, |resp.items|);
            && (resp.total > 0 ==> 1 <= r.0 <= r.1 <= resp.total)
            && (resp.total == 0 ==> r == (0, 0))
  {
    HistRangeArith(page, resp.pages, resp.total, |resp.items|);
  }

  /** The arithmetic behind `HistRangeWithinTotal`. */
  lemma HistRangeArith(page: int, pages: int, total: nat, shown: nat)
    requires 1 <= page <= pages && pages == Queries.PagesOf(total, PerPage)
    requires shown == Min(PerPage, total - (page - 1) * PerPage)
    requires total > 0 ==> shown > 0
    ensures var r := HistRange(page, PerPage, shown);
            && (total > 0 ==> 1 <= r.0 <= r.1 <= total)
            && (total == 0 ==> r == (0, 0))
  {
  }

  /** `H.per_page`. */
  const PerPage: int := 10

  /** The page state `H`. */
  class Pager {
    var page: int
    var pages: int

    ghost predicate Valid()
      reads this
    {
      page >= 1
    }

    constructor ()
      ensures Valid() && page == 1 && pages == 1
    {
      page, pages := 1, 1;
    }

    /** `$('hist_prev').disabled`. */
    function PrevDisabled(): bool
      reads this
    {
      page <= 1
    }

    /** `$('hist_next').disabled`. */
    function NextDisabled(): bool
      reads this
    {
      page >= pages
    }

    /** The previous button: step back only from a page above 1; `reload`
        says whether the history is fetched again. The step happens exactly
        when the button is enabled. */
    method Prev() returns (reload: bool)
      requires Valid()
      modifies this
      ensures Valid()
      ensures reload <==> !old(PrevDisabled())
      ensures page == (if reload then old(page) - 1 else old(page)) && pages == old(pages)
    {
      reload := page > 1;
      if reload {
        page := page - 1;
      }
    }

    /** The next button: step forward only from a page below `pages`, so a
        page within range stays within range. */
    method Next() returns (reload: bool)
      requires Valid()
      modifies this
      ensures Valid()
      ensures reload <==> !old(NextDisabled())
      ensures page == (if reload then old(page) + 1 else old(page)) && pages == old(pages)
      ensures old(page) <= pages ==> page <= pages
    {
      reload := page < pages;
      if reload {
        page := page + 1;
      }
    }

    /** The refresh button goes back to the first page. */
    method Refresh()
      modifies this
      ensures Valid() && page == 1 && pages == old(pages)
    {
      page := 1;
    }

    /** The end of `cargarHist`: take `j.pages || 1` (`None` for a missing
        field) and compute the range text and the two disabled flags. */
    method Loaded(jPages: Option<int>, shown: nat) returns (range: (int, int), prevDisabled: bool, nextDisabled: bool)
      requires Valid()
      modifies this
      ensures Valid() && page == old(page)
      ensures pages == (if jPages.None? || jPages.value == 0 then 1 else jPages.value)
      ensures range == HistRange(page, PerPage, shown)
      ensures prevDisabled == PrevDisabled() && nextDisabled == NextDisabled()
    {
      pages := if jPages.None? || jPages.value == 0 then 1 else jPages.value;
      range := HistRange(page, PerPage, shown);
      prevDisabled := page <= 1;
      nextDisabled := page >= pages;
    }
  }
}

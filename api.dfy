/** The endpoints of app.py that hold logic: the time-zone resolver
    (`get_tz_from_request`), report submission (`crear_reporte`), the
    paginated history (`reportes_list`) and the dashboard figures (`kpis`).
    Request arguments arrive as `Option<string>`, `None` when absent. */
module Api {
  import opened Base
  import opened Text
  import opened Seqs
  import opened Sorting
  import opened Records
  import opened Dicts
  import opened Queries
  import Store

  // ---------------- time zone ----------------

  /** The zone key tried first: the `tz` argument, or the default when the
      argument is absent or empty, stripped of white space. */
  function RequestedTz(tzArg: Option<string>, defaultTz: string): string
  {
    PyStrip(if tzArg.None? || tzArg.value == "" then defaultTz else tzArg.value)
  }

  /** `get_tz_from_request`. `known(key)` says whether the zone database
      has `key`; `None` stands for the exception the second lookup raises
      when the default itself is unknown. */
  function ResolveTz(tzArg: Option<string>, defaultTz: string, known: string -> bool): (r: Option<string>)
    ensures r.Some? ==> known(r.value)
    ensures r.None? <==> !known(RequestedTz(tzArg, defaultTz)) && !known(defaultTz)
    ensures known(RequestedTz(tzArg, defaultTz)) ==> r == Some(RequestedTz(tzArg, defaultTz))
    ensures !known(RequestedTz(tzArg, defaultTz)) && known(defaultTz) ==> r == Some(defaultTz)
  {
    var key := RequestedTz(tzArg, defaultTz);
    if known(key) then Some(key)
    else if known(defaultTz) then Some(defaultTz)
    else None
  }

  /** A known requested zone is used as given (trimmed); an absent one
      selects the default. */
  lemma ResolveTzChoices(tz: string, defaultTz: string, known: string -> bool)
    ensures tz != "" && known(PyStrip(tz)) ==> ResolveTz(Some(tz), defaultTz, known) == Some(PyStrip(tz))
    ensures known(defaultTz) && PyStrip(defaultTz) == defaultTz ==>
              ResolveTz(None, defaultTz, known) == Some(defaultTz)
              && ResolveTz(Some(""), defaultTz, known) == Some(defaultTz)
  {
    if tz != "" {
      assert RequestedTz(Some(tz), defaultTz) == PyStrip(tz);
    }
    assert RequestedTz(None, defaultTz) == PyStrip(defaultTz);
    assert RequestedTz(Some(""), defaultTz) == PyStrip(defaultTz);
  }

  // ---------------- page size and page count ----------------

  /** `max(5, min(50, per_page))`. */
  function ClampPerPage(x: int): (r: int)
    ensures 5 <= r <= 50
    ensures 5 <= x <= 50 ==> r == x
    ensures x < 5 ==> r == 5
    ensures x > 50 ==> r == 50
  {
    Max(5, Min(50, x))
  }

  /** `max(1, (total + per_page - 1) // per_page)`, the same count the
      models layer computes with `math.ceil`. */
  function AppPages(total: nat, perPage: int): (pages: int)
    requires perPage > 0
    ensures pages == PagesOf(total, perPage)
  {
    Max(1, (total + perPage - 1) / perPage)
  }

  // ---------------- history listing ----------------

  /** One history item; `creado_local`, the same instant rendered in the
      resolved zone, is not part of the model. */
  datatype ListItem = ListItem(
    id: int,
    creadoEn: int,
    categoria: string,
    comentario: Option<string>,
    fotoUrl: Option<string>,
    idBano: string,
    nombreBano: string,
    zona: Option<string>,
    piso: Option<string>,
    sexo: Option<string>)

  function ItemOf(row: Row): ListItem
  {
    var (rep, b) := row;
    ListItem(rep.id, rep.creadoEn, rep.categoria, rep.comentario, rep.fotoUrl,
             b.id, b.nombre, b.zona, b.piso, b.sexo)
  }

  /** The filters with the search term stripped, as `reportes_list` reads `q`. */
  function ListFilters(f: Filters): Filters
  {
    f.(search := PyStrip(f.search))
  }

  /** `.limit(per_page).offset((page - 1) * per_page)` with the page taken
      as given: a page past the end is empty, and a page below 1 gives a
      negative offset, which the database reads as 0. */
  function UnclampedPage<T>(s: seq<T>, page: int, perPage: int): (r: seq<T>)
    requires perPage > 0
    ensures |r| <= perPage
    ensures 1 <= page <= PagesOf(|s|, perPage) ==> |r| == Min(perPage, |s| - (page - 1) * perPage)
    ensures 1 <= page <= PagesOf(|s|, perPage) && |s| > 0 ==> |r| > 0
    ensures page > PagesOf(|s|, perPage) ==> r == []
    ensures page < 1 ==> r == s[..Min(perPage, |s|)]
  {
    OffsetBounds(|s|, page, perPage);
    Window(s, (page - 1) * perPage, perPage)
  }

  lemma MulMono(a: int, b: int, c: int)
    requires a <= b && c > 0
    ensures a * c <= b * c
  {
    assert b * c - a * c == (b - a) * c;
  }

  lemma OffsetBounds(total: nat, page: int, perPage: int)
    requires perPage > 0
    ensures page > PagesOf(total, perPage) ==> (page - 1) * perPage >= total
    ensures 1 <= page <= PagesOf(total, perPage) && total > 0 ==> (page - 1) * perPage < total
    ensures 1 <= page ==> (page - 1) * perPage >= 0
    ensures page < 1 ==> (page - 1) * perPage < 0
  {
    var pages := PagesOf(total, perPage);
    if page > pages {
      MulMono(pages, page - 1, perPage);
    } else if 1 <= page && total > 0 {
      MulMono(page - 1, pages - 1, perPage);
    }
    if 1 <= page {
      MulMono(0, page - 1, perPage);
    } else {
      MulMono(page - 1, -1, perPage);
    }
  }

  /** Within range, the unclamped page is the page the models layer cuts. */
  lemma UnclampedPageInRange<T>(s: seq<T>, page: int, perPage: int)
    requires perPage > 0 && 1 <= page <= PagesOf(|s|, perPage)
    ensures UnclampedPage(s, page, perPage) == PageOf(s, page, perPage)
  {
    assert ClampedPage(page, PagesOf(|s|, perPage)) == page;
  }

  /** `reportes_list`: the page size is clamped to [5, 50]; the page is NOT
      clamped. */
  function ReportesList(banos: map<string, Bano>, reportes: seq<Reporte>, f: Filters, page: int, perPageArg: int)
    : (r: ListPage<ListItem>)
    ensures r.page == page
    ensures r.perPage == ClampPerPage(perPageArg) && 5 <= r.perPage <= 50
    ensures r.total == |Select(banos, reportes, ListFilters(f))|
    ensures r.pages == PagesOf(r.total, r.perPage)
    ensures r.items == Map(UnclampedPage(SortBy(Select(banos, reportes, ListFilters(f)), NewestFirst), page, r.perPage), ItemOf)
  {
    var perPage := ClampPerPage(perPageArg);
    var sel := Select(banos, reportes, ListFilters(f));
    ListPage(page, perPage, |sel|, AppPages(|sel|, perPage), Map(UnclampedPage(SortBy(sel, NewestFirst), page, perPage), ItemOf))
  }

  /** The page holds at most `per_page` items; within range it is full
      except for the last, never empty when something matches, and past
      the last page it is empty. */
  lemma ReportesListBounds(banos: map<string, Bano>, reportes: seq<Reporte>, f: Filters, page: int, perPageArg: int)
    ensures var r := ReportesList(banos, reportes, f, page, perPageArg);
            && |r.items| <= r.perPage
            && (1 <= page <= r.pages ==> |r.items| == Min(r.perPage, r.total - (page - 1) * r.perPage))
            && (1 <= page <= r.pages && r.total > 0 ==> |r.items| > 0)
            && (page > r.pages ==> r.items == [])
            && (page < 1 ==> |r.items| == Min(r.perPage, r.total))
  {
    var sel := Select(banos, reportes, ListFilters(f));
    var sorted := SortBy(sel, NewestFirst);
    var perPage := ClampPerPage(perPageArg);
    var w := UnclampedPage(sorted, page, perPage);
    assert |sorted| == |sel|;
  }

  /** On a page within range the endpoint lists exactly the rows the models
      layer puts on that page. */
  lemma ReportesListAgrees(banos: map<string, Bano>, reportes: seq<Reporte>, f: Filters, page: int, perPageArg: int)
    requires 1 <= page <= ReportesList(banos, reportes, f, page, perPageArg).pages
    ensures ReportesList(banos, reportes, f, page, perPageArg).items
            == Map(ListRows(banos, reportes, ListFilters(f), page, ClampPerPage(perPageArg)), ItemOf)
  {
    var sel := Select(banos, reportes, ListFilters(f));
    UnclampedPageInRange(SortBy(sel, NewestFirst), page, ClampPerPage(perPageArg));
  }

  // ---------------- report submission ----------------

  const MissingFields: string := "Faltan campos"
  const BadExtension: string := "Extensión no permitida"
  const InvalidBano: string := "Baño inválido"
  const UploadsPrefix: string := "/uploads/"
  const AllowedExtensions: set<string> := {"png", "jpg", "jpeg", "webp"}

  /** The text after the last `.` of `s`, or all of `s` when it has none. */
  function AfterLastDot(s: string): (t: string)
    ensures '.' !in t
    ensures |t| <= |s| && t == s[|s| - |t|..]
    ensures '.' in s ==> |t| < |s| && s[|s| - |t| - 1] == '.'
    ensures '.' !in s ==> t == s
  {
    if s == [] then []
    else if s[|s| - 1] == '.' then []
    else
      assert s == s[..|s| - 1] + [s[|s| - 1]];
      AfterLastDot(s[..|s| - 1]) + [s[|s| - 1]]
  }

  /** `filename.rsplit(".", 1)[-1].lower() if "." in filename else ""`. */
  function Extension(filename: string): (e: string)
    ensures '.' !in e
    ensures '.' !in filename ==> e == ""
  {
    if '.' in filename then Lower(AfterLastDot(filename)) else ""
  }

  /** The extension of `stem.ext` is `ext` lower-cased, whatever the stem. */
  lemma ExtensionOfName(stem: string, ext: string)
    requires '.' !in ext
    ensures Extension(stem + "." + ext) == Lower(ext)
  {
    var s := stem + "." + ext;
    assert s[|s| - |ext| - 1] == '.';
    var t := AfterLastDot(s);
    assert t == ext;
  }

  /** `"foto" in request.files and request.files["foto"].filename`. */
  predicate Uploaded(foto: Option<string>)
  {
    foto.Some? && foto.value != ""
  }

  /** The error `crear_reporte` answers with, checked in the order app.py checks them:
      missing fields, then the photo extension, then the restroom. */
  function Rejection(banos: map<string, Bano>, idBano: string, categoria: string, foto: Option<string>)
    : (e: Option<string>)
    ensures idBano == "" || categoria == "" ==> e == Some(MissingFields)
    ensures e.None? <==>
              && idBano != "" && categoria != ""
              && (Uploaded(foto) ==> Extension(foto.value) in AllowedExtensions)
              && Store.Admits(banos, idBano)
    ensures e.Some? ==> e.value in {MissingFields, BadExtension, InvalidBano}
  {
    if idBano == "" || categoria == "" then Some(MissingFields)
    else if Uploaded(foto) && Extension(foto.value) !in AllowedExtensions then Some(BadExtension)
    else if !Store.Admits(banos, idBano) then Some(InvalidBano)
    else None
  }

  /** A missing restroom is reported as such only once the fields and
      the photo have passed. */
  lemma RejectionOrder(banos: map<string, Bano>, idBano: string, categoria: string, foto: Option<string>)
    ensures Rejection(banos, idBano, categoria, foto) == Some(BadExtension) <==>
              idBano != "" && categoria != "" && Uploaded(foto) && Extension(foto.value) !in AllowedExtensions
    ensures Rejection(banos, idBano, categoria, foto) == Some(InvalidBano) <==>
              && idBano != "" && categoria != ""
              && (Uploaded(foto) ==> Extension(foto.value) in AllowedExtensions)
              && !Store.Admits(banos, idBano)
  {
  }

  /** The stored photo URL: `/uploads/` and the saved file's name. */
  function PhotoUrl(foto: Option<string>, savedName: string): Option<string>
  {
    if Uploaded(foto) then Some(UploadsPrefix + savedName) else None
  }

  datatype Response = Created(reporteId: int) | Rejected(error: string)

  /** What a request with the (stripped) fields `idBano`, `categoria` and
      `comentario` does to a report table `reportes0` whose next id is
      `next0`: a rejected request answers with its error and stores
      nothing; an accepted one answers with the new id and appends exactly
      one report with that id, the default origin and state, the photo URL
      and the time `now`. */
  ghost predicate Answered(banos: map<string, Bano>, reportes0: seq<Reporte>, next0: int,
                           idBano: string, categoria: string, comentario: string,
                           foto: Option<string>, savedName: string, remoteAddr: Option<string>, now: int,
                           resp: Response, reportes: seq<Reporte>, nextId: int)
  {
    var err := Rejection(banos, idBano, categoria, foto);
    && (err.Some? ==> resp == Rejected(err.value) && reportes == reportes0 && nextId == next0)
    && (err.None? ==>
          && resp == Created(next0)
          && nextId == next0 + 1
          && reportes == reportes0
               + [Reporte(next0, idBano, categoria, Some(comentario),
                          PhotoUrl(foto, savedName), DefaultOrigen, now, remoteAddr, DefaultEstado)])
  }

  /** The three checks of `crear_reporte`, in the order app.py runs them, with the
      photo URL the request would store. */
  method Validate(banos: map<string, Bano>, idBano: string, categoria: string, foto: Option<string>,
                  savedName: string) returns (err: Option<string>, fotoUrl: Option<string>)
    ensures err == Rejection(banos, idBano, categoria, foto)
    ensures err.None? ==> fotoUrl == PhotoUrl(foto, savedName)
  {
    fotoUrl := None;
    if idBano == "" || categoria == "" {
      return Some(MissingFields), fotoUrl;
    }
    if Uploaded(foto) {
      var ext := Extension(foto.value);
      if ext !in AllowedExtensions {
        return Some(BadExtension), fotoUrl;
      }
      fotoUrl := Some(UploadsPrefix + savedName);
    }
    if !Store.Admits(banos, idBano) {
      return Some(InvalidBano), fotoUrl;
    }
    err := None;
  }

  /** The request after its fields are stripped: `Validate`, then one
      insert when it passes. */
  method Submit(db: Store.Db, idBano: string, categoria: string, comentario: string,
                foto: Option<string>, savedName: string, remoteAddr: Option<string>, now: int)
    returns (resp: Response)
    requires db.Valid()
    modifies db
    ensures db.Valid() && db.banos == old(db.banos)
    ensures Answered(old(db.banos), old(db.reportes), old(db.nextId), idBano, categoria, comentario,
                     foto, savedName, remoteAddr, now, resp, db.reportes, db.nextId)
  {
    var err, fotoUrl := Validate(db.banos, idBano, categoria, foto, savedName);
    if err.Some? {
      return Rejected(err.value);
    }
    var id := db.Insert(idBano, categoria, Some(comentario), fotoUrl, DefaultOrigen, remoteAddr, now);
    resp := Created(id);
  }

  /** `crear_reporte`. `savedName` is the name the upload is saved under
      and `remoteAddr` the client address; the three form fields are
      stripped, and `comentario` is stored as the stripped text, `""` when
      absent. A rejected request stores nothing. */
  method CrearReporte(db: Store.Db, idBanoArg: Option<string>, categoriaArg: Option<string>,
                      comentarioArg: Option<string>, foto: Option<string>, savedName: string,
                      remoteAddr: Option<string>, now: int) returns (resp: Response)
    requires db.Valid()
    modifies db
    ensures db.Valid() && db.banos == old(db.banos)
    ensures Answered(old(db.banos), old(db.reportes), old(db.nextId),
                     PyStrip(OrEmpty(idBanoArg)), PyStrip(OrEmpty(categoriaArg)), PyStrip(OrEmpty(comentarioArg)),
                     foto, savedName, remoteAddr, now, resp, db.reportes, db.nextId)
  {
    resp := Submit(db, PyStrip(OrEmpty(idBanoArg)), PyStrip(OrEmpty(categoriaArg)), PyStrip(OrEmpty(comentarioArg)),
                   foto, savedName, remoteAddr, now);
  }

  // ---------------- KPIs ----------------

  /** The column lists the counter loop reads. */
  function Categorias(rows: seq<KpiRow>): (r: seq<string>)
    ensures |r| == |rows| && forall i :: 0 <= i < |rows| ==> r[i] == rows[i].categoria
  {
    seq(|rows|, i requires 0 <= i < |rows| => rows[i].categoria)
  }

  function BanoIds(rows: seq<KpiRow>): (r: seq<string>)
    ensures |r| == |rows| && forall i :: 0 <= i < |rows| ==> r[i] == rows[i].idBano
  {
    seq(|rows|, i requires 0 <= i < |rows| => rows[i].idBano)
  }

  function Zonas(rows: seq<KpiRow>): (r: seq<Option<string>>)
    ensures |r| == |rows| && forall i :: 0 <= i < |rows| ==> r[i] == rows[i].zona
  {
    seq(|rows|, i requires 0 <= i < |rows| => rows[i].zona)
  }

  /** The local calendar days, in a zone `offsetMinutes` east of UTC. */
  function Dias(rows: seq<KpiRow>, offsetMinutes: int): (r: seq<int>)
    ensures |r| == |rows| && forall i :: 0 <= i < |rows| ==> r[i] == LocalDay(rows[i].creadoEn, offsetMinutes)
  {
    seq(|rows|, i requires 0 <= i < |rows| => LocalDay(rows[i].creadoEn, offsetMinutes))
  }

  /** The four counters of `kpis`, one pass over the rows. Each is the
      per-key count of its column, has the column's distinct values as keys
      in order of first appearance, and sums to the number of rows. */
  method Aggregate(rows: seq<KpiRow>, offsetMinutes: int)
    returns (porCategoria: Dict<string>, porBano: Dict<string>, porDia: Dict<int>, porZona: Dict<Option<string>>)
    ensures porCategoria == Tally(Categorias(rows)) && porBano == Tally(BanoIds(rows))
    ensures porDia == Tally(Dias(rows, offsetMinutes)) && porZona == Tally(Zonas(rows))
    ensures Sum(porCategoria) == |rows| && Sum(porBano) == |rows| && Sum(porDia) == |rows| && Sum(porZona) == |rows|
    ensures forall k :: Get(porBano, k) == multiset(BanoIds(rows))[k]
    ensures Keys(porBano) == Dedup(BanoIds(rows))
  {
    porCategoria, porBano, porDia, porZona := [], [], [], [];
    for i := 0 to |rows|
      invariant porCategoria == Tally(Categorias(rows[..i]))
      invariant porBano == Tally(BanoIds(rows[..i]))
      invariant porDia == Tally(Dias(rows[..i], offsetMinutes))
      invariant porZona == Tally(Zonas(rows[..i]))
    {
      var row := rows[i];
      assert Categorias(rows[..i + 1])[..i] == Categorias(rows[..i]);
      assert BanoIds(rows[..i + 1])[..i] == BanoIds(rows[..i]);
      assert Dias(rows[..i + 1], offsetMinutes)[..i] == Dias(rows[..i], offsetMinutes);
      assert Zonas(rows[..i + 1])[..i] == Zonas(rows[..i]);
      porCategoria := Bump(porCategoria, row.categoria);
      porBano := Bump(porBano, row.idBano);
      porZona := Bump(porZona, row.zona);
      porDia := Bump(porDia, LocalDay(row.creadoEn, offsetMinutes));
    }
    assert rows[..|rows|] == rows;
    TallyFacts(Categorias(rows));
    TallyFacts(BanoIds(rows));
    TallyFacts(Dias(rows, offsetMinutes));
    TallyFacts(Zonas(rows));
  }

  /** An entry of `banos_catalogo`. */
  datatype CatEntry = CatEntry(id: string, nombre: string, zona: Option<string>, piso: Option<string>)

  /** `banos_catalogo`: the active restrooms, keyed by id; it depends on the
      restroom table only, never on the report filters. */
  function CatBanos(banos: map<string, Bano>): (cat: map<string, CatEntry>)
    ensures forall k :: k in cat <==> Store.Admits(banos, k)
    ensures forall k :: k in cat ==> k in banos && cat[k] == CatEntry(banos[k].id, banos[k].nombre, banos[k].zona, banos[k].piso)
  {
    map k | k in banos && banos[k].activo :: CatEntry(banos[k].id, banos[k].nombre, banos[k].zona, banos[k].piso)
  }

  /** An entry of `top_banos`. */
  datatype TopEntry = TopEntry(idBano: string, nombre: string, total: int)

  const TopLimit: nat := 10

  /** `cat_banos.get(k, {}).get("nombre", k)`. */
  function NombreOr(cat: map<string, CatEntry>, k: string): string
  {
    if k in cat then cat[k].nombre else k
  }

  /** One entry per `(id, count)` of `por_bano`, in the counter's order;
      each names a counted restroom by its catalog name or its id. */
  function TopEntries(porBano: Dict<string>, cat: map<string, CatEntry>): (r: seq<TopEntry>)
    ensures |r| == |porBano|
    ensures forall e :: e in r ==> e.idBano in Keys(porBano) && e.nombre == NombreOr(cat, e.idBano)
  {
    seq(|porBano|, i requires 0 <= i < |porBano| => TopEntry(porBano[i].0, NombreOr(cat, porBano[i].0), porBano[i].1))
  }

  /** Every counted restroom has an entry carrying its count, and with
      distinct keys (as a counter has) every entry's total is the count of
      its restroom. */
  lemma TopEntriesByKey(porBano: Dict<string>, cat: map<string, CatEntry>)
    ensures forall k :: k in Keys(porBano) ==> TopEntry(k, NombreOr(cat, k), Get(porBano, k)) in TopEntries(porBano, cat)
    ensures Distinct(Keys(porBano)) ==>
              forall e :: e in TopEntries(porBano, cat) ==> e.total == Get(porBano, e.idBano)
  {
    var r := TopEntries(porBano, cat);
    forall k | k in Keys(porBano) ensures TopEntry(k, NombreOr(cat, k), Get(porBano, k)) in r {
      GetPresent(porBano, k);
      var i :| 0 <= i < |porBano| && porBano[i] == (k, Get(porBano, k));
      assert r[i] == TopEntry(k, NombreOr(cat, k), Get(porBano, k));
    }
    if Distinct(Keys(porBano)) {
      forall e | e in r ensures e.total == Get(porBano, e.idBano) {
        var i :| 0 <= i < |r| && r[i] == e;
        GetDistinct(porBano, i);
      }
    }
  }

  /** `key=total, reverse=True`. */
  predicate ByTotalDesc(a: TopEntry, b: TopEntry)
  {
    a.total >= b.total
  }

  lemma ByTotalDescTotal()
    ensures TotalPreorder(ByTotalDesc)
  {
  }

  /** `sorted(..., key=total, reverse=True)[:10]`. */
  function TopBanos(porBano: Dict<string>, cat: map<string, CatEntry>): (r: seq<TopEntry>)
    ensures |r| == Min(TopLimit, |porBano|)
    ensures forall x :: x in r ==> x in TopEntries(porBano, cat)
  {
    var sorted := SortBy(TopEntries(porBano, cat), ByTotalDesc);
    var r := sorted[..Min(TopLimit, |porBano|)];
    assert forall x :: x in r ==> x in multiset(sorted);
    r
  }

  /** The top list is ordered by decreasing total, is the head of a stable
      sort of all entries (equal totals keep the counter's order), never
      drops an entry with a larger total than one it keeps, and names each
      restroom by its catalog name or, failing that, by its id. */
  lemma TopBanosFacts(porBano: Dict<string>, cat: map<string, CatEntry>)
    ensures var r := TopBanos(porBano, cat);
            && SortedBy(r, ByTotalDesc)
            && (forall x :: x in r ==> x.nombre == NombreOr(cat, x.idBano))
            && (forall e :: e in TopEntries(porBano, cat) && e !in r ==> forall x :: x in r ==> x.total >= e.total)
    ensures var sorted := SortBy(TopEntries(porBano, cat), ByTotalDesc);
            && TopBanos(porBano, cat) == sorted[..|TopBanos(porBano, cat)|]
            && forall e :: Ties(sorted, e, ByTotalDesc) == Ties(TopEntries(porBano, cat), e, ByTotalDesc)
  {
    var entries := TopEntries(porBano, cat);
    var sorted := SortBy(entries, ByTotalDesc);
    var r := TopBanos(porBano, cat);
    ByTotalDescTotal();
    SortSorted(entries, ByTotalDesc);
    SortedSlice(sorted, 0, |r|, ByTotalDesc);
    assert r == sorted[0..|r|];
    forall e | Ties(sorted, e, ByTotalDesc) != Ties(entries, e, ByTotalDesc) ensures false {
      SortStable(entries, e, ByTotalDesc);
    }
    forall e | e in entries && e !in r ensures forall x :: x in r ==> x.total >= e.total {
      assert e in multiset(sorted);
      var j :| 0 <= j < |sorted| && sorted[j] == e;
      assert j >= |r|;
      forall x | x in r ensures x.total >= e.total {
        var i :| 0 <= i < |r| && r[i] == x;
        assert ByTotalDesc(sorted[i], sorted[j]);
      }
    }
  }

  /** The `kpis` response. */
  datatype Kpis = Kpis(
    totalReportes: int,
    porCategoria: Dict<string>,
    porBano: Dict<string>,
    porDia: Dict<int>,
    porZona: Dict<Option<string>>,
    topBanos: seq<TopEntry>,
    banosCatalogo: map<string, CatEntry>)

  /** `kpis`: the query carries no `ORDER BY`, so `rows` may be the matching
      rows in any order. Every count sums to `total_reportes`, which is the
      number of matching rows. */
  method ComputeKpis(banos: map<string, Bano>, reportes: seq<Reporte>, f: Filters,
                     rows: seq<KpiRow>, offsetMinutes: int) returns (k: Kpis)
    requires multiset(rows) == multiset(Map(SelectBase(banos, reportes, f), KpiRowOf))
    ensures k.totalReportes == |SelectBase(banos, reportes, f)|
    ensures Sum(k.porCategoria) == k.totalReportes && Sum(k.porBano) == k.totalReportes
    ensures Sum(k.porDia) == k.totalReportes && Sum(k.porZona) == k.totalReportes
    ensures k.porCategoria == Tally(Categorias(rows)) && k.porBano == Tally(BanoIds(rows))
    ensures k.porDia == Tally(Dias(rows, offsetMinutes)) && k.porZona == Tally(Zonas(rows))
    ensures k.banosCatalogo == CatBanos(banos)
    ensures k.topBanos == TopBanos(k.porBano, k.banosCatalogo) && |k.topBanos| <= TopLimit
  {
    assert |rows| == |multiset(rows)|;
    var total := |rows|;
    var cat := CatBanos(banos);
    var porCategoria, porBano, porDia, porZona := Aggregate(rows, offsetMinutes);
    var top := TopBanos(porBano, cat);
    k := Kpis(total, porCategoria, porBano, porDia, porZona, top, cat);
  }
}

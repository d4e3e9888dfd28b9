# Restroom reports: query and aggregation rules

A visitor scans the QR code on a restroom door, or picks the restroom at a
kiosk, and files a short report: a category, an optional comment and an
optional photo. Staff read the reports on a dashboard. The dashboard has a
filterable, searchable, paginated history and counters grouped by category,
restroom, zone and local day.

This Dafny project models the rules behind that flow:

- **Database URL** (`DatabaseUrl`): normalising the database URL.
- **Records** (`Records`): the `Bano` (restroom) and `Reporte` (report) records and the joined dictionary.
- **Store** (`Store`): the restroom and report tables, as class `Db`, and `create_reporte`.
- **Queries** (`Queries`): the query helpers of `models.py`:
  - the catalog order;
  - the filters;
  - the six-column search;
  - newest-first ordering and pagination;
  - the KPI rows.
- **Api** (`Api`): the four endpoints of `app.py` that hold logic:
  - time-zone resolution;
  - report submission with its checks;
  - the history listing;
  - the KPI counters and the top-10 list.
- **Seed** (`Seed`): the seed upsert of `seed.py`.
- **Kiosk** (`Kiosk`): the kiosk's filter, zone list and page state.
- **Utils** (`Utils`): `toSortedEntries`, which turns a counter object into entries ordered by value.
- **Dashboard** (`Dashboard`): the dashboard's date helpers, default dates and the history pager `H`.

Supporting modules:

- `Base`: `Option` and `Result`.
- `Text`: Python `strip` and JavaScript `trim`, ASCII lower-casing, substring search, decimal digits and string order.
- `Sorting`: a stable sort, like Python's `sorted` and JavaScript's `Array.prototype.sort`.
- `Dicts`: Python dictionaries modelled as lists of pairs in insertion order, with the counting idiom `d[k] = d.get(k, 0) + 1`.
- `Seqs`: filter and map.
- `Like`: SQL `LIKE` patterns.

How the outside world appears in the model:

- **Database**: a `map<string, Bano>` keyed by id and a `seq<Reporte>` in insertion order.
- **Timestamps**: `creado_en` is an integer number of seconds since the epoch, in UTC.
- **Date filters**: a date bound is a day number, compared with the UTC day of `creado_en`. This is what `func.date` does on a UTC timestamp.
- **Local day**: the day after adding a fixed offset in minutes.
- **Zone database**: a predicate `known` that says which zone keys exist.
- **Clock, saved file name and client address**: parameters.

## Model

| member | source | states |
|---|---|---|
| DatabaseUrl.NormalizeBlank | models.py:46-47 | a missing, empty or whitespace-only URL gives `sqlite:///banos.db` |
| DatabaseUrl.NormalizeHeroku | models.py:49-52 | a stripped URL starting with `postgres://` becomes `postgresql+psycopg2://` followed by the same suffix |
| DatabaseUrl.NormalizePostgresql | models.py:54-56 | `postgresql://` without `+psycopg2` gets the driver inserted; with it, the URL is kept |
| DatabaseUrl.NormalizeOther | models.py:49-56 | any other non-blank URL is returned stripped and otherwise unchanged |
| DatabaseUrl.NormalizeCanonical | models.py:41-56 | every result is canonical: stripped, non-empty, and not a driver-less Postgres URL |
| DatabaseUrl.NormalizeIdempotent | models.py:59-61 | normalising a normalised URL changes nothing, so the second pass over `DB_URL` is harmless |
| Records.UtcDay | models.py:212-216 | the UTC day is the floor of the instant divided by 86400, so the day starts at or before the instant and ends after it |
| Records.LocalDay | app.py:189-192 | the local day is the UTC day of the instant shifted by the offset, with the same floor bounds |
| Records.ToDictJoined | models.py:119-139 | the report columns read back as the same report; the restroom columns are present exactly when the restroom is loaded and carry its values |
| Like.ContainsPattern | models.py:221-222 | `%t%` matches `s` exactly when the literal `t` occurs in `s` |
| Like.ILikeIsSubstring | models.py:221-230 | for a term without wildcards, `ILIKE '%term%'` is case-insensitive substring search |
| Queries.SearchHitSubstring | models.py:221-230 | the search keeps a row iff the term occurs, ignoring case, at some position of one of categoria, comentario, nombre, id, zona or piso; a NULL column never matches |
| Queries.SearchAsWrittenAgrees | models.py:221-230 | for a term without `%` or `_`, the search as written and the substring search agree |
| Queries.UnderscoreSearchMatchesAnything | models.py:222 | a search for `_` matches a report with no underscore in any column, so the search as written is not a substring search |
| Queries.Joined | models.py:210 | every joined row pairs a stored report with its own restroom; when every report's restroom exists, the join is all reports in store order, each with its restroom |
| Queries.Window | models.py:239-243 | OFFSET/LIMIT with the positive page size every caller passes as the limit: the result is the slice starting at the offset (a negative offset counted as 0), `min(limit, rows after the offset)` long |
| Queries.CeilDiv | models.py:234 | the quotient rounded up: 0 for 0, otherwise the `q` with `(q - 1) * per_page < total <= q * per_page` |
| Queries.PagesOf | models.py:234 | `pages` is at least 1, is 1 when nothing matches, and is the least page count that covers `total` |
| Queries.ClampedPage | models.py:235 | the page is clamped into `[1, pages]` and kept when already inside |
| Queries.PageStart | models.py:236 | the offset `(page - 1) * per_page` of the clamped page lies within `total`, and strictly below it when `total > 0` |
| Queries.PageOf | models.py:236-243 | a page is the contiguous slice at the offset, holds `min(per_page, total - offset)` rows, and is never empty when something matches |
| Queries.ListReportes | models.py:194-255 | the envelope: `per_page` as given, `total` is the number of matching rows, `pages` from `PagesOf`, the page clamped into `[1, pages]`, each item the joined dictionary of a listed row |
| Queries.ListReportesCount | models.py:233-244 | at most `per_page` items: exactly `min(per_page, total - offset)` of the clamped page, and at least one whenever something matches |
| Queries.ListRowsMatch | models.py:210-230 | every listed row is a stored report paired with its own restroom (the table entry under its `id_bano`), and it passes every filter |
| Queries.ListRowsOrder | models.py:240 | the page is newest first; the whole selection is sorted newest first and keeps store order among reports created at the same instant |
| Queries.ListRowsSlice | models.py:236-243 | the page is the contiguous slice of the newest-first selection that starts at the clamped offset |
| Queries.FetchRowsForKpis | models.py:258-289 | the `(categoria, creado_en, id_bano, zona)` tuples of the rows that pass the date, zone and restroom filters, newest first, each tuple as often as rows project to it (a permutation of the projected selection) |
| Sorting.SortMap | models.py:287-289 | sorting and then projecting gives each projected value as often as the input does |
| Queries.BanoLeTotal | models.py:161 | ordering by zona, then piso (NULLs last), then nombre is a total preorder |
| Queries.GetBanos | models.py:156-162 | a restroom of the table is listed iff it is active or `solo_activos` is off; the list is ordered by zona, piso and nombre with NULLs last; when the table is keyed by id, no restroom is listed twice |
| Store.Db.constructor | models.py:77-115 | an empty report table over a restroom table keyed by id |
| Store.Db.Insert | models.py:180-191 | exactly one report is appended, with the next id, the given fields and the default `estado`; earlier reports and the restroom table are unchanged |
| Store.Db.CreateReporte | models.py:165-191 | a missing or inactive restroom gives the error `Baño inválido o inactivo` and changes nothing; otherwise one report with the given fields (`origen` defaults to `qr`) is appended and its new id returned |
| Seed.BanosDistinct | seed.py:4-8 | the three seed restrooms have distinct ids |
| Seed.SeedMapKeys | seed.py:14-19 | the keys written are exactly the seed ids |
| Seed.SeedMapValues | seed.py:14-19 | with distinct ids, each seed row ends up under its own id |
| Seed.SeedMapFacts | seed.py:14-19 | with distinct ids, each seed row ends up under its own id, and the keys written are exactly the seed ids |
| Seed.SeededValues | seed.py:14-19 | after the seed every seed id holds exactly the seed's nombre, zona, piso, sexo and activo |
| Seed.SeededOthers | seed.py:14-19 | restrooms whose ids are not seed ids are unchanged; the only new keys are seed ids that were missing |
| Seed.SeededIdempotent | seed.py:14-20 | seeding twice gives the table that seeding once gives |
| Seed.SeededKeyed | seed.py:14-19 | a table keyed by id stays keyed by id |
| Seed.UpsertOne | seed.py:15-19 | one step updates an existing row's fields in place or adds the new row |
| Seed.UpsertAll | seed.py:14-19 | the loop leaves the old table overwritten by the seed rows keyed by id; reports are not touched |
| Seed.Run | seed.py:10-23 | `main` leaves exactly the seeded table, and reports and the id counter unchanged |
| Api.ResolveTz | app.py:16-22 | the stripped requested key when the zone database knows it, else the default, else the lookup fails; the result is always a known zone |
| Api.ResolveTzChoices | app.py:17-22 | a known requested zone is used as given; an absent or empty `tz` selects the default |
| Api.ClampPerPage | app.py:115 | `per_page` is always in `[5, 50]`, kept when already inside, 5 below it and 50 above it |
| Api.AppPages | app.py:134 | the integer formula gives the same page count as the models layer's `ceil` |
| Api.UnclampedPage | app.py:116-137 | the unclamped page: at most `per_page` rows, empty past the last page, and the first page when `page < 1` (a negative offset counts as 0) |
| Api.OffsetBounds | app.py:116 | the offset `(page - 1) * per_page` is at least `total` past the last page, below `total` on a page within range, and negative exactly when `page < 1` |
| Api.ReportesList | app.py:106-158 | `page` echoed unclamped, `per_page` clamped, `total` the number of rows matching the stripped search and the filters, `pages` from `PagesOf`, items the window of the newest-first selection |
| Api.ReportesListBounds | app.py:114-137 | at most `per_page` items; within range the exact count, never empty when something matches; empty past the last page |
| Api.ReportesListAgrees | app.py:120-137 | on a page within range the endpoint lists the same rows as `list_reportes` |
| Api.AfterLastDot | app.py:63 | the text after the last dot: a dot-free suffix, preceded by a dot when the name has one, and the whole name otherwise |
| Api.Extension | app.py:63 | the extension contains no dot and is empty when the name has no dot |
| Api.ExtensionOfName | app.py:63 | the extension of `stem.ext` is `ext` lower-cased, whatever the stem contains |
| Api.Rejection | app.py:55-76 | `Faltan campos` for an empty stripped id or categoria; no error iff both fields are present, an uploaded photo has an allowed extension and the restroom is active |
| Api.RejectionOrder | app.py:55-76 | `Extensión no permitida` exactly when the fields are present and the extension is not allowed; `Baño inválido` exactly when the fields and photo pass and the restroom is missing or inactive |
| Api.Validate | app.py:55-76 | the checks run in the order app.py runs them and give exactly the error `Rejection` names; on success the photo URL is `/uploads/` and the saved name when a photo was uploaded, and absent otherwise |
| Api.Submit | app.py:55-85 | a rejected request answers with its error and leaves the tables unchanged; an accepted one appends exactly one report with the next id, the given fields, origen `qr` and the photo URL, and answers with that id |
| Api.CrearReporte | app.py:49-85 | a rejected request answers with its error and stores nothing; an accepted one stores exactly one report with the stripped fields, the stripped comment (`""` when absent), origen `qr` and the photo URL, and answers with its id |
| Api.Aggregate | app.py:184-193 | the four counters are the per-key counts of their columns, each sums to the number of rows, and `por_bano` has each restroom once, in order of first appearance |
| Dicts.TallyFacts | app.py:184-193 | a tally has the distinct keys in first-seen order, counts each key's occurrences, and sums to the length of the input |
| Api.CatBanos | app.py:181-182 | `banos_catalogo` holds exactly the active restrooms with their id, nombre, zona and piso; the report filters play no part |
| Api.TopEntries | app.py:196-197 | one entry per counter pair; every entry names a counted restroom, by its catalog name when it has one and by its id otherwise |
| Api.TopEntriesByKey | app.py:196-197 | every counted restroom has an entry carrying its `por_bano` count, and with distinct keys every entry's total is the count of its restroom |
| Dicts.GetPresent | app.py:197 | `get` on a present key reads the value of an entry with that key |
| Dicts.GetDistinct | app.py:197 | with distinct keys, `get` reads each entry's own value |
| Api.TopBanos | app.py:195-199 | the top list has `min(10, restrooms counted)` entries taken from the counter |
| Api.TopBanosFacts | app.py:195-199 | the top list is sorted by decreasing total, is the head of a stable sort (equal totals keep the counter's order), drops no entry with a larger total than one it keeps, and names each restroom by its catalog name or its id |
| Sorting.SortStable | app.py:195-198 | the sort keeps the input order among elements equal under the key |
| Api.ComputeKpis | app.py:162-211 | `total_reportes` is the number of matching rows, and each of the four counters sums to it; the catalog and the top list are those above |
| Kiosk.ShownFacts | static/js/kiosk.js:44-55 | `filtrados` is an order-preserving subsequence of `catBanos` and holds exactly the restrooms the filter keeps |
| Kiosk.ShownExact | static/js/kiosk.js:45-46 | a selected zone or sex keeps only restrooms with exactly that value |
| Kiosk.ShownByTerm | static/js/kiosk.js:40-52 | a non-blank term, lower-cased and trimmed, keeps a restroom iff it is a substring of the lower-cased nombre, id, piso or zona, with missing fields read as empty |
| Kiosk.ShownUnfiltered | static/js/kiosk.js:44-55 | with no zone, no sex and an empty or blank term, the whole catalog is shown |
| Kiosk.ZoneNames | static/js/kiosk.js:29 | the names the zone list draws from are the catalog's present and non-empty zones |
| Kiosk.ZoneListMembers | static/js/kiosk.js:29 | the zone list has each non-empty zone of the catalog, and no other |
| Kiosk.ZoneListOrdered | static/js/kiosk.js:29 | each zone appears once, in strictly increasing order |
| Kiosk.Page.constructor | static/js/kiosk.js:21-22 | the catalog and the visible list start empty |
| Kiosk.Page.Render | static/js/kiosk.js:39-55 | the visible list becomes the filter of the catalog by the current inputs; nothing else changes |
| Kiosk.Page.CargarBanos | static/js/kiosk.js:25-36 | the fetched catalog is stored, its zone list is appended to the selector, and the visible list is re-rendered |
| Kiosk.Page.SetInputs | static/js/kiosk.js:83-85 | a change of input is followed by a render with the new inputs |
| Kiosk.Page.Reset | static/js/kiosk.js:86-89 | after the reset every input is empty and the whole catalog is shown |
| Utils.ToSortedEntries | static/reportes/assets/js/utils.js:3-5 | `null` gives no entries; otherwise the entries are a permutation of the object's, with as many as it has keys, sorted by non-increasing value |
| Utils.ToSortedEntriesStable | static/reportes/assets/js/utils.js:4 | entries with equal values keep the object's order |
| Dashboard.Pad2TwoDigits | static/reportes/assets/js/reportes.js:13 | for 0 to 99, `pad2` gives exactly two digits that read back as the number |
| Dashboard.ToYMDLayout | static/reportes/assets/js/reportes.js:14 | for a four-digit year, `toYMD` has the `YYYY-MM-DD` layout, and its parts read back as the year, `getMonth() + 1` and the day |
| Dashboard.ToYMDInjective | static/reportes/assets/js/reportes.js:14 | different dates give different strings |
| Dashboard.DateInputs.constructor | static/reportes/assets/js/reportes.js:52-54 | the two date inputs hold their initial values |
| Dashboard.DateInputs.EnsureDefaults | static/reportes/assets/js/reportes.js:52-63 | the two inputs become `DefaultedDates` of their old values: an empty `desde` gets the date five days ago, an empty `hasta` gets today, a filled field is left alone |
| Dashboard.DefaultedDates | static/reportes/assets/js/reportes.js:52-62 | filled fields are kept, and non-empty defaults leave no field empty |
| Dashboard.DefaultedDatesIdempotent | static/reportes/assets/js/reportes.js:52-62 | applying the defaults a second time changes nothing |
| Dashboard.HistRange | static/reportes/assets/js/reportes.js:158-159 | the range counts exactly the shown items and starts at 0 when none are shown |
| Dashboard.HistRangeWithinTotal | static/reportes/assets/js/reportes.js:158-159 | on a page within range, the range lies within `1..total`, and is `0–0` when nothing matches |
| Dashboard.HistRangeOfPage | static/reportes/assets/js/reportes.js:158-159 | for any envelope of 10-item pages whose item count is that of a page within range, the range lies within `1..total`, and is `0–0` when the total is 0 |
| Dashboard.HistRangeArith | static/reportes/assets/js/reportes.js:158-159 | the same range facts stated on the page number, the page count, the total and the number shown |
| Dashboard.Pager.constructor | static/reportes/assets/js/reportes.js:8 | `H` starts at page 1 of 1 |
| Dashboard.Pager.Prev | static/reportes/assets/js/reportes.js:224-226 | the page goes back by one exactly when prev is enabled (`page > 1`), and `page >= 1` is kept |
| Dashboard.Pager.Next | static/reportes/assets/js/reportes.js:227-229 | the page goes forward by one exactly when next is enabled (`page < pages`), so a page within range stays within range |
| Dashboard.Pager.Refresh | static/reportes/assets/js/reportes.js:232-237 | refresh puts the pager back on page 1 |
| Dashboard.Pager.Loaded | static/reportes/assets/js/reportes.js:156-179 | `pages` becomes `j.pages`, or 1 when it is absent or 0; the range and the two disabled flags follow the current page |
| Seqs.FilterCount | models.py:212-230 | filtering keeps every occurrence of an element that passes and drops every occurrence of one that does not |
| Text.Trim | models.py:46-49 | trimming removes only whitespace, from both ends, and leaves no whitespace at either end |
| Text.TrimEmptyIff | models.py:46 | a string trims to empty iff it is all whitespace |
| Text.Digits | static/reportes/assets/js/reportes.js:13 | the decimal digits of `n`: no leading zero, and they read back as `n` |
| Text.ContainsIff | static/js/kiosk.js:48-51 | `includes` holds iff the needle occurs at some position |

## Left out

- Case folding: only ASCII letters are lower-cased. Python's `lower`, JavaScript's `toLowerCase` and the database's `ILIKE` also fold other letters, and those Unicode tables are not modelled.
- String order: strings compare by code point. JavaScript's default `sort` compares UTF-16 code units, which differ only above U+FFFF.
- Date strings and rendering are not modelled. Date bounds are day numbers, and `por_dia` keys are day numbers rather than ISO strings. The ISO renderings `creado_en` and `creado_local` are not part of this model.
- Time zones become a fixed offset in minutes plus a `known` predicate. DST and the zone database are foreign.
- Naive timestamps: on SQLite `creado_en` is stored without a zone (models.py:109). Its default `func.now()` becomes SQLite's `CURRENT_TIMESTAMP`, which is UTC, so `func.date` (models.py:212-216) still compares the UTC day, as Records.UtcDay models. Only `astimezone` (app.py:139, 190) then reads the naive value as the server's local time rather than UTC, which the model's Records.LocalDay does not capture.
- Session time zone: on Postgres, `date()` of a `timestamptz` is taken in the session's `TimeZone` setting. Records.UtcDay matches that only for a session in UTC.
- The `except` branch of the local-day conversion (app.py:191-192) is not modelled. It fires only for values `astimezone` cannot convert.
- SQL collation: `ORDER BY zona, piso, nombre` (models.py:161) compares text by the database's collation, which on Postgres is usually locale-aware. Queries.BanoLe compares by code point, which is SQLite's default.
- Argument defaults: `page=1` and `per_page=10` (app.py:114-115, models.py:202-203) and `solo_activos=True` (models.py:156) are not modelled. Every modelled call takes its arguments explicitly.
- LIKE escapes: Postgres `LIKE` reads `\` in a pattern as an escape character. Like.LikeMatch reads it as a literal, as SQLite does, so on Postgres a search term holding `\` departs from substring search in one more way than the finding below shows.
- Queries.ListReportes: filters with the corrected search Queries.SearchHit, not the `ILIKE '%term%'` as written (models.py:221-230), so for a term with `%` or `_` its `total` and `items` can differ from the code's. For every term without wildcards the two searches agree (Queries.SearchAsWrittenAgrees).
- Api.ReportesList: filters with the same corrected search, not the `ILIKE '%term%'` as written (app.py:125-131), so for a term with `%` or `_` its `total` and `items` can differ from the code's. The two agree on every term without wildcards.
- Queries.ListReportes: requires `per_page > 0`. In models.py, `per_page == 0` raises only when `total > 0`, and a negative `LIMIT` means different things to different databases.
- A negative `OFFSET` follows SQLite and counts as 0. On Postgres it is an error.
- Tie order: `ORDER BY creado_en DESC` leaves the order of equal timestamps to the database. The model takes a stable sort over store order.
- Queries.GetBanos: the order among rows equal in zona, piso and nombre is left to the database.
- The `kpis` query has no `ORDER BY`. Api.ComputeKpis therefore accepts the matching rows in any order, and the top list's tie order is stated relative to that order.
- `api_banos` (app.py:92-102) is not part of this model. It is the catalog query of `get_banos` with plain `ORDER BY`, whose NULL placement depends on the database.
- `int()` parsing of `page` and `per_page` (app.py:114-115) is not modelled: the model takes integers, so the error a non-numeric argument raises is not modelled.
- Photo saving is file I/O and the clock. This covers `secure_filename`, the timestamp prefix and `f.save`. The saved name is a parameter, and the model does not capture that app.py saves the file before it checks the restroom.
- `request.remote_addr` and the server clock behind `creado_en` are parameters.
- Flask routing, templates, `qr_form`, uploads, health, the DOM, `fetch`, `localStorage`, Chart.js and event wiring are HTTP, UI and network.
- The cascade-delete relationship is not modelled, because no deletion is performed.
- `daysAgo` depends on the JavaScript clock and local zone, so the two default dates are parameters of Dashboard.DateInputs.EnsureDefaults.
- Object.entries ordering: entries come in the object's key order. JavaScript moves integer-like keys first, and that rule is not modelled.
- Seed.Run: the seed rows are written last-wins by id. With the three distinct seed ids, proved by Seed.BanosDistinct, this is the table seed.py writes. A seed list with a duplicate id would fail at commit in seed.py.
- Api.ReportesList: always returns an envelope. In app.py, `reportes_list` calls `get_tz_from_request()` (app.py:113) before it queries, which raises when neither the requested zone nor `DEFAULT_TZ` is known, and the request then fails with a server error. That failure path is not modelled here; Api.ResolveTz models it as `None`.
- Api.ComputeKpis: always returns the counters. In app.py, `kpis` also calls `get_tz_from_request()` (app.py:167) before it queries, and when neither zone is known the request fails with a server error; that path is not modelled here either, and the offset the method takes stands for a zone that resolved.
- Api.ResolveTz follows the code: the requested key, then the default, and the lookup otherwise fails (modelled as `None`). A longer fallback chain that never fails is not what the code does.
- `estado` is nullable in models.py. Every modelled insert writes the default `abierto`, so the model stores it as a plain string.

## Findings

| source | as written | input that shows it | evidently intended | confidence | as-written member | corrected member |
|---|---|---|---|---|---|---|
| models.py:221-230 (and app.py:125-131) | the search term is placed unescaped into `%term%` and matched with `ILIKE`, so `%` and `_` in the term act as wildcards | the search `_` against a report and restroom with no underscore in any column (`categoria "x"`, `nombre "y"`, id `"B"`); it is listed | a case-insensitive substring search over the six columns | not executed | Queries.UnderscoreSearchMatchesAnything (with Queries.SearchHitAsWritten) | Queries.SearchHit, which Queries.Matches and Queries.Select use, so Queries.ListReportes, Api.ReportesList and their lemmas list and count with it; proved a substring search by Queries.SearchHitSubstring, and equal to the search as written for wildcard-free terms by Queries.SearchAsWrittenAgrees |

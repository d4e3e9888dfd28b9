/** `normalize_database_url` in models.py: hosting providers hand out
    `postgres://` URLs, SQLAlchemy wants `postgresql+psycopg2://`, and an
    unset or blank setting selects the local SQLite file. */
module DatabaseUrl {
  import opened Base
  import opened Text

  const SqliteDefault: string := "sqlite:///banos.db"
  const PgDriverScheme: string := "postgresql+psycopg2://"
  const HerokuScheme: string := "postgres://"
  const PgScheme: string := "postgresql://"
  const DriverTag: string := "+psycopg2"

  /** `raw` is `None` when the environment variable is unset. */
  function Normalize(raw: Option<string>): string
  {
    if raw.None? || PyStrip(raw.value) == "" then SqliteDefault
    else
      var url := PyStrip(raw.value);
      if StartsWith(url, HerokuScheme) then PgDriverScheme + url[|HerokuScheme|..]
      else if StartsWith(url, PgScheme) && !Contains(url, DriverTag) then PgDriverScheme + url[|PgScheme|..]
      else url
  }

  /** What a normalized URL looks like: non-empty, already stripped, never
      in the Heroku scheme, and carrying the driver whenever it uses the
      plain PostgreSQL scheme. */
  ghost predicate Canonical(u: string)
  {
    && u != ""
    && PyStrip(u) == u
    && !StartsWith(u, HerokuScheme)
    && (StartsWith(u, PgScheme) ==> Contains(u, DriverTag))
  }

  /** An unset, empty or all-white-space setting gives the SQLite default. */
  lemma NormalizeBlank(raw: Option<string>)
    requires raw.Some? ==> forall k :: 0 <= k < |raw.value| ==> IsPySpace(raw.value[k])
    ensures Normalize(raw) == SqliteDefault
  {
    if raw.Some? {
      TrimEmptyIff(raw.value, IsPySpace);
    }
  }

  /** A (trimmed) `postgres://` URL keeps its suffix behind the driver scheme. */
  lemma NormalizeHeroku(raw: string, suffix: string)
    requires PyStrip(raw) == HerokuScheme + suffix
    ensures Normalize(Some(raw)) == PgDriverScheme + suffix
  {
    assert StartsWith(HerokuScheme + suffix, HerokuScheme);
  }

  /** A (trimmed) `postgresql://` URL without the driver gets it inserted;
      one that already names the driver is left as it is. */
  lemma NormalizePostgresql(raw: string, suffix: string)
    requires PyStrip(raw) == PgScheme + suffix
    ensures !Contains(PgScheme + suffix, DriverTag) ==> Normalize(Some(raw)) == PgDriverScheme + suffix
    ensures Contains(PgScheme + suffix, DriverTag) ==> Normalize(Some(raw)) == PgScheme + suffix
  {
    PgSchemeShape(suffix);
  }

  lemma PgSchemeShape(suffix: string)
    ensures StartsWith(PgScheme + suffix, PgScheme)
    ensures !StartsWith(PgScheme + suffix, HerokuScheme)
  {
    var u := PgScheme + suffix;
    assert u[..|PgScheme|] == PgScheme;
    assert u[8] == 'q';
  }

  /** Any other non-blank URL is returned trimmed and otherwise unchanged. */
  lemma NormalizeOther(raw: string)
    requires PyStrip(raw) != ""
    requires !StartsWith(PyStrip(raw), HerokuScheme) && !StartsWith(PyStrip(raw), PgScheme)
    ensures Normalize(Some(raw)) == PyStrip(raw)
  {
  }

  lemma PgDriverSchemeShape(suffix: string)
    ensures !StartsWith(PgDriverScheme + suffix, HerokuScheme)
    ensures !StartsWith(PgDriverScheme + suffix, PgScheme)
  {
    var u := PgDriverScheme + suffix;
    assert u[8] == 'q' && u[10] == '+';
  }

  lemma DefaultCanonical()
    ensures Canonical(SqliteDefault)
  {
    var r := SqliteDefault;
    assert !StartsWith(r, HerokuScheme) by { assert r[0] == 's'; }
    assert !StartsWith(r, PgScheme) by { assert r[0] == 's'; }
    TrimClean(r, IsPySpace);
  }

  /** The driver scheme followed by the tail of a stripped URL is canonical. */
  lemma DriverCanonical(url: string, n: nat)
    requires url != [] && !IsPySpace(url[|url| - 1]) && n <= |url|
    ensures Canonical(PgDriverScheme + url[n..])
  {
    var suffix := url[n..];
    var r := PgDriverScheme + suffix;
    PgDriverSchemeShape(suffix);
    assert r[0] == 'p';
    assert r[|r| - 1] == (if suffix == [] then '/' else url[|url| - 1]);
    TrimClean(r, IsPySpace);
  }

  /** Every result of `Normalize` is canonical. */
  lemma NormalizeCanonical(raw: Option<string>)
    ensures Canonical(Normalize(raw))
  {
    if raw.None? || PyStrip(raw.value) == "" {
      DefaultCanonical();
    } else {
      var url := PyStrip(raw.value);
      TrimIdempotent(raw.value, IsPySpace);
      if StartsWith(url, HerokuScheme) {
        DriverCanonical(url, |HerokuScheme|);
      } else if StartsWith(url, PgScheme) && !Contains(url, DriverTag) {
        DriverCanonical(url, |PgScheme|);
      }
    }
  }

  /** A canonical URL is a fixed point of `Normalize`. */
  lemma CanonicalFixed(u: string)
    requires Canonical(u)
    ensures Normalize(Some(u)) == u
  {
  }

  /** Normalizing twice is normalizing once, so the second pass over
      `DB_URL` (models.py line 61) leaves an already normalized URL alone. */
  lemma NormalizeIdempotent(raw: Option<string>)
    ensures Normalize(Some(Normalize(raw))) == Normalize(raw)
  {
    NormalizeCanonical(raw);
    CanonicalFixed(Normalize(raw));
  }
}

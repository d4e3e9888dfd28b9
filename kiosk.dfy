/** static/js/kiosk.js: the kiosk page that lists the active restrooms and
    lets a visitor narrow them down by zone, sex and a free-text term. The
    page keeps the fetched catalog and the visible list as state; the zone
    selector is filled from the catalog once it arrives. */
module Kiosk {
  import opened Base
  import opened Text
  import opened Seqs
  import opened Sorting
  import opened Records
  import Dicts

  /** `(q.value || '').toLowerCase().trim()`. */
  function Term(q: string): string
  {
    JsTrim(Lower(q))
  }

  /** `(field || '').toLowerCase().includes(term)`. */
  predicate Hay(field: Option<string>, term: string)
  {
    Contains(Lower(OrEmpty(field)), term)
  }

  /** The `render` filter: exact zone and sex when selected, and the term
      in the name, id, floor or zone. */
  predicate Keeps(b: Bano, term: string, fz: string, fs: string)
  {
    && (fz != "" ==> b.zona == Some(fz))
    && (fs != "" ==> b.sexo == Some(fs))
    && (term != "" ==> Hay(Some(b.nombre), term) || Hay(Some(b.id), term) || Hay(b.piso, term) || Hay(b.zona, term))
  }

  /** The list `render` shows for the inputs `q`, `fz` and `fs`. */
  function Shown(cat: seq<Bano>, q: string, fz: string, fs: string): seq<Bano>
  {
    Filter(cat, (b: Bano) => Keeps(b, Term(q), fz, fs))
  }

  /** The visible list keeps the catalog's order and holds exactly the
      restrooms the filter keeps. */
  lemma ShownFacts(cat: seq<Bano>, q: string, fz: string, fs: string)
    ensures IsSubsequence(Shown(cat, q, fz, fs), cat)
    ensures forall b :: b in Shown(cat, q, fz, fs) <==> b in cat && Keeps(b, Term(q), fz, fs)
  {
    FilterSubsequence(cat, (b: Bano) => Keeps(b, Term(q), fz, fs));
  }

  /** A selected zone or sex admits only restrooms with exactly that value. */
  lemma ShownExact(cat: seq<Bano>, q: string, fz: string, fs: string)
    ensures fz != "" ==> forall b :: b in Shown(cat, q, fz, fs) ==> b.zona == Some(fz)
    ensures fs != "" ==> forall b :: b in Shown(cat, q, fz, fs) ==> b.sexo == Some(fs)
  {
  }

  /** With zone and sex unselected, a non-blank term keeps a restroom iff it
      occurs in one of the four lower-cased fields (a missing field reads as
      empty). */
  lemma ShownByTerm(cat: seq<Bano>, q: string, b: Bano)
    requires b in cat && Term(q) != ""
    ensures b in Shown(cat, q, "", "") <==>
              || Contains(Lower(b.nombre), Term(q)) || Contains(Lower(b.id), Term(q))
              || Contains(Lower(OrEmpty(b.piso)), Term(q)) || Contains(Lower(OrEmpty(b.zona)), Term(q))
  {
    var t := Term(q);
    assert Keeps(b, t, "", "") <==> Hay(Some(b.nombre), t) || Hay(Some(b.id), t) || Hay(b.piso, t) || Hay(b.zona, t);
    assert b in Shown(cat, q, "", "") <==> Keeps(b, t, "", "");
  }

  /** With every input empty, or a term of white space only, the whole
      catalog is shown. */
  lemma ShownUnfiltered(cat: seq<Bano>, q: string)
    requires forall i :: 0 <= i < |q| ==> IsJsSpace(q[i])
    ensures Shown(cat, q, "", "") == cat
  {
    var l := Lower(q);
    assert forall i :: 0 <= i < |l| ==> IsJsSpace(l[i]);
    TrimEmptyIff(l, IsJsSpace);
    FilterAll(cat, (b: Bano) => Keeps(b, Term(q), "", ""));
  }

  // ---------------- the zone selector ----------------

  predicate StrLe(a: string, b: string)
  {
    CmpStr(a, b) <= 0
  }

  lemma StrLeTotalPreorder()
    ensures TotalPreorder(StrLe)
  {
    forall a: string, b: string ensures StrLe(a, b) || StrLe(b, a) {
      StrLeTotal(a, b, a);
    }
    forall a: string, b: string, c: string | StrLe(a, b) && StrLe(b, c) ensures StrLe(a, c) {
      StrLeTotal(a, b, c);
    }
  }

  function ZonaOf(b: Bano): string
  {
    OrEmpty(b.zona)
  }

  predicate NonEmpty(z: string)
  {
    z != ""
  }

  /** `Array.from(new Set(cat.map(b => b.zona).filter(Boolean))).sort()`. */
  function ZoneList(cat: seq<Bano>): seq<string>
  {
    SortBy(Dicts.Dedup(Filter(Map(cat, ZonaOf), NonEmpty)), StrLe)
  }

  /** A name the selector draws from is the zone of some restroom. */
  lemma ZoneNameFrom(cat: seq<Bano>, z: string)
    requires z in Filter(Map(cat, ZonaOf), NonEmpty)
    ensures z != "" && exists b :: b in cat && b.zona == Some(z)
  {
    var zonas := Map(cat, ZonaOf);
    assert z in zonas && z != "";
    var i :| 0 <= i < |zonas| && zonas[i] == z;
    assert ZonaOf(cat[i]) == z;
    assert cat[i] in cat && cat[i].zona == Some(z);
  }

  /** Every non-empty zone of the catalog is a name the selector draws from. */
  lemma ZoneNameOf(cat: seq<Bano>, b: Bano)
    requires b in cat && b.zona.Some? && b.zona.value != ""
    ensures b.zona.value in Filter(Map(cat, ZonaOf), NonEmpty)
  {
    var zonas := Map(cat, ZonaOf);
    var i :| 0 <= i < |cat| && cat[i] == b;
    assert zonas[i] == b.zona.value;
    assert b.zona.value in zonas && NonEmpty(b.zona.value);
  }

  /** The names the selector draws from: the zones that are present and
      not empty. */
  lemma ZoneNames(cat: seq<Bano>, z: string)
    ensures z in Filter(Map(cat, ZonaOf), NonEmpty) <==> z != "" && exists b :: b in cat && b.zona == Some(z)
  {
    if z in Filter(Map(cat, ZonaOf), NonEmpty) {
      ZoneNameFrom(cat, z);
    }
    if z != "" && exists b :: b in cat && b.zona == Some(z) {
      var b :| b in cat && b.zona == Some(z);
      ZoneNameOf(cat, b);
    }
  }

  /** The zone list names each non-empty zone of the catalog, and only
      those. */
  lemma ZoneListMembers(cat: seq<Bano>)
    ensures forall z :: z in ZoneList(cat) <==> z != "" && exists b :: b in cat && b.zona == Some(z)
  {
    var names := Filter(Map(cat, ZonaOf), NonEmpty);
    var d := Dicts.Dedup(names);
    var zs := ZoneList(cat);
    Dicts.DedupDistinct(names);
    forall z ensures z in zs <==> z != "" && exists b :: b in cat && b.zona == Some(z) {
      assert z in zs <==> z in multiset(zs);
      assert z in d <==> z in multiset(d);
      ZoneNames(cat, z);
    }
  }

  /** Each zone appears once, in strictly increasing order. */
  lemma ZoneListOrdered(cat: seq<Bano>)
    ensures Dicts.Distinct(ZoneList(cat))
    ensures forall i, j :: 0 <= i < j < |ZoneList(cat)| ==> CmpStr(ZoneList(cat)[i], ZoneList(cat)[j]) < 0
  {
    var names := Filter(Map(cat, ZonaOf), NonEmpty);
    var d := Dicts.Dedup(names);
    var zs := ZoneList(cat);
    Dicts.DedupDistinct(names);
    Dicts.DistinctPermutation(d, zs);
    StrLeTotalPreorder();
    SortSorted(d, StrLe);
    forall i, j | 0 <= i < j < |zs| ensures CmpStr(zs[i], zs[j]) < 0 {
      assert StrLe(zs[i], zs[j]);
      CmpStrAntisym(zs[i], zs[j]);
    }
  }

  // ---------------- the page state ----------------

  class Page {
    var catBanos: seq<Bano>
    var filtrados: seq<Bano>
    var zonaOptions: seq<string>
    var q: string
    var fz: string
    var fs: string

    constructor ()
      ensures catBanos == [] && filtrados == [] && zonaOptions == []
      ensures q == "" && fz == "" && fs == ""
    {
      catBanos := [];
      filtrados := [];
      zonaOptions := [];
      q, fz, fs := "", "", "";
    }

    /** `render`: recompute the visible list from the current inputs. */
    method Render()
      modifies this
      ensures filtrados == Shown(catBanos, q, fz, fs)
      ensures catBanos == old(catBanos) && zonaOptions == old(zonaOptions)
      ensures q == old(q) && fz == old(fz) && fs == old(fs)
    {
      filtrados := Shown(catBanos, q, fz, fs);
    }

    /** `cargarBanos`: store the fetched catalog, append its zones to the
        selector and render. */
    method CargarBanos(fetched: seq<Bano>)
      modifies this
      ensures catBanos == fetched
      ensures zonaOptions == old(zonaOptions) + ZoneList(fetched)
      ensures filtrados == Shown(fetched, q, fz, fs)
      ensures q == old(q) && fz == old(fz) && fs == old(fs)
    {
      catBanos := fetched;
      zonaOptions := zonaOptions + ZoneList(fetched);
      Render();
    }

    /** A change of any input is followed by `render`. */
    method SetInputs(q': string, fz': string, fs': string)
      modifies this
      ensures q == q' && fz == fz' && fs == fs'
      ensures filtrados == Shown(catBanos, q', fz', fs')
      ensures catBanos == old(catBanos) && zonaOptions == old(zonaOptions)
    {
      q, fz, fs := q', fz', fs';
      Render();
    }

    /** The reset button: clear the three inputs and render, which shows
        the whole catalog. */
    method Reset()
      modifies this
      ensures q == "" && fz == "" && fs == ""
      ensures filtrados == catBanos
      ensures catBanos == old(catBanos) && zonaOptions == old(zonaOptions)
    {
      q, fz, fs := "", "", "";
      Render();
      ShownUnfiltered(catBanos, "");
    }
  }
}

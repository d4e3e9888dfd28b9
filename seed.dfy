/** seed.py: the three restrooms of the initial catalog and the upsert that
    writes them into the restroom table, updating rows that exist and adding
    the ones that do not. */
module Seed {
  import opened Base
  import opened Records
  import Store

  const BANOS: seq<Bano> := [
    Bano("B-A1-H1", "Baño Hombres Ala 1 - Piso 1", Some("Ala 1"), Some("1"), Some("Hombres"), true),
    Bano("B-A1-M1", "Baño Mujeres Ala 1 - Piso 1", Some("Ala 1"), Some("1"), Some("Mujeres"), true),
    Bano("B-A2-H2", "Baño Hombres Ala 2 - Piso 2", Some("Ala 2"), Some("2"), Some("Hombres"), true)
  ]

  predicate DistinctIds(seeds: seq<Bano>)
  {
    forall i, j :: 0 <= i < j < |seeds| ==> seeds[i].id != seeds[j].id
  }

  function Ids(seeds: seq<Bano>): set<string>
  {
    set b | b in seeds :: b.id
  }

  /** The seed rows keyed by id; a later row with the same id wins. */
  function SeedMap(seeds: seq<Bano>): map<string, Bano>
  {
    if seeds == [] then map[]
    else SeedMap(seeds[..|seeds| - 1])[seeds[|seeds| - 1].id := seeds[|seeds| - 1]]
  }

  /** The table after the seed: the catalog rows replace or join the old ones. */
  function Seeded(m: map<string, Bano>): map<string, Bano>
  {
    m + SeedMap(BANOS)
  }

  lemma BanosDistinct()
    ensures DistinctIds(BANOS)
  {
  }

  /** The keys are exactly the seed ids. */
  lemma {:induction false} SeedMapKeys(seeds: seq<Bano>)
    ensures SeedMap(seeds).Keys == Ids(seeds)
  {
    if seeds != [] {
      var n := |seeds| - 1;
      var init := seeds[..n];
      SeedMapKeys(init);
      assert seeds == init + [seeds[n]];
      assert Ids(seeds) == Ids(init) + {seeds[n].id};
    }
  }

  /** With distinct ids, each seed row sits under its own id. */
  lemma {:induction false} SeedMapValues(seeds: seq<Bano>)
    requires DistinctIds(seeds)
    ensures forall b :: b in seeds ==> b.id in SeedMap(seeds) && SeedMap(seeds)[b.id] == b
  {
    if seeds != [] {
      var n := |seeds| - 1;
      var init := seeds[..n];
      var last := seeds[n];
      assert DistinctIds(init) by {
        forall i, j | 0 <= i < j < |init| ensures init[i].id != init[j].id {
          assert init[i] == seeds[i] && init[j] == seeds[j];
        }
      }
      SeedMapValues(init);
      forall b | b in seeds ensures b.id in SeedMap(seeds) && SeedMap(seeds)[b.id] == b {
        if b != last {
          var i :| 0 <= i < |seeds| && seeds[i] == b;
          assert i < n && init[i] == b;
          assert b.id != last.id;
        }
      }
    }
  }

  /** With distinct ids, each seed row sits under its own id, and the keys
      are exactly the seed ids. */
  lemma SeedMapFacts(seeds: seq<Bano>)
    requires DistinctIds(seeds)
    ensures SeedMap(seeds).Keys == Ids(seeds)
    ensures forall b :: b in seeds ==> SeedMap(seeds)[b.id] == b
  {
    SeedMapKeys(seeds);
    SeedMapValues(seeds);
  }

  /** Every seed id ends up holding exactly the seed's row. */
  lemma SeededValues(m: map<string, Bano>)
    ensures forall b :: b in BANOS ==> b.id in Seeded(m) && Seeded(m)[b.id] == b
  {
    BanosDistinct();
    SeedMapFacts(BANOS);
  }

  /** Rows whose ids are not seed ids are untouched, and the only new keys
      are seed ids that were missing. */
  lemma SeededOthers(m: map<string, Bano>)
    ensures forall k :: k in m && k !in Ids(BANOS) ==> k in Seeded(m) && Seeded(m)[k] == m[k]
    ensures Seeded(m).Keys == m.Keys + Ids(BANOS)
    ensures Seeded(m).Keys - m.Keys == Ids(BANOS) - m.Keys
  {
    BanosDistinct();
    SeedMapFacts(BANOS);
  }

  /** Seeding twice gives the table seeding once gives. */
  lemma SeededIdempotent(m: map<string, Bano>)
    ensures Seeded(Seeded(m)) == Seeded(m)
  {
    UnionIdempotent(m, SeedMap(BANOS));
  }

  lemma UnionIdempotent<K, V>(m: map<K, V>, x: map<K, V>)
    ensures (m + x) + x == m + x
  {
    assert ((m + x) + x).Keys == (m + x).Keys;
  }

  /** The seed keeps every restroom under its own id. */
  lemma SeededKeyed(m: map<string, Bano>)
    requires forall k :: k in m ==> m[k].id == k
    ensures forall k :: k in Seeded(m) ==> Seeded(m)[k].id == k
  {
    BanosDistinct();
    SeedMapFacts(BANOS);
  }

  lemma SeedMapSnoc(m: map<string, Bano>, seeds: seq<Bano>, b: Bano)
    ensures m + SeedMap(seeds + [b]) == (m + SeedMap(seeds))[b.id := b]
  {
    assert (seeds + [b])[..|seeds|] == seeds;
  }

  /** One iteration of the loop: the existing row with that id gets the
      seed's fields in place, or the seed row is added. */
  method UpsertOne(db: Store.Db, b: Bano)
    requires db.Valid()
    modifies db
    ensures db.Valid()
    ensures db.banos == old(db.banos)[b.id := b]
    ensures db.reportes == old(db.reportes) && db.nextId == old(db.nextId)
  {
    if b.id in db.banos {
      var cur := db.banos[b.id];
      db.banos := db.banos[b.id := cur.(nombre := b.nombre, zona := b.zona, piso := b.piso,
                                        sexo := b.sexo, activo := b.activo)];
    } else {
      db.banos := db.banos[b.id := b];
    }
  }

  /** The loop of `main` over any list of seed rows. */
  method UpsertAll(db: Store.Db, seeds: seq<Bano>)
    requires db.Valid()
    modifies db
    ensures db.Valid()
    ensures db.banos == old(db.banos) + SeedMap(seeds)
    ensures db.reportes == old(db.reportes) && db.nextId == old(db.nextId)
  {
    for i := 0 to |seeds|
      invariant db.Valid()
      invariant db.banos == old(db.banos) + SeedMap(seeds[..i])
      invariant db.reportes == old(db.reportes) && db.nextId == old(db.nextId)
    {
      SeedMapSnoc(old(db.banos), seeds[..i], seeds[i]);
      assert seeds[..i + 1] == seeds[..i] + [seeds[i]];
      UpsertOne(db, seeds[i]);
    }
    assert seeds[..|seeds|] == seeds;
  }

  /** `main`: upsert every row of `BANOS`; reports are not touched. */
  method Run(db: Store.Db)
    requires db.Valid()
    modifies db
    ensures db.Valid()
    ensures db.banos == Seeded(old(db.banos))
    ensures db.reportes == old(db.reportes) && db.nextId == old(db.nextId)
  {
    UpsertAll(db, BANOS);
  }
}

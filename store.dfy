/** The database as the core sees it: the restroom table keyed by id and the
    report table in insertion order, with the autoincrement counter that
    hands out report ids. `create_reporte` in models.py is the operation that
    appends to it. */
module Store {
  import opened Base
  import opened Records

  /** The message `create_reporte` raises for a missing or inactive restroom. */
  const InvalidOrInactive: string := "Baño inválido o inactivo"

  /** A report may be filed against the restroom `id`. */
  predicate Admits(banos: map<string, Bano>, id: string)
  {
    id in banos && banos[id].activo
  }

  class Db {
    var banos: map<string, Bano>
    var reportes: seq<Reporte>
    var nextId: int

    /** Each restroom sits under its own id, report ids grow with insertion
        order and stay below the counter, and every report points at a
        restroom of the table (the foreign key). */
    ghost predicate Valid()
      reads this
    {
      && nextId >= 1
      && (forall k :: k in banos ==> banos[k].id == k)
      && (forall i, j :: 0 <= i < j < |reportes| ==> reportes[i].id < reportes[j].id)
      && (forall i :: 0 <= i < |reportes| ==> 1 <= reportes[i].id < nextId)
      && (forall i :: 0 <= i < |reportes| ==> reportes[i].idBano in banos)
    }

    /** An empty report table over a given restroom table. */
    constructor (catalog: map<string, Bano>)
      requires forall k :: k in catalog ==> catalog[k].id == k
      ensures Valid()
      ensures banos == catalog && reportes == [] && nextId == 1
    {
      banos := catalog;
      reportes := [];
      nextId := 1;
    }

    /** `s.add(rep); s.commit()`: the row gets the next id, `creado_en` the
        server's current time `now`, and `estado` its column default. */
    method Insert(idBano: string, categoria: string, comentario: Option<string>, fotoUrl: Option<string>,
                  origen: string, creadoPorIp: Option<string>, now: int) returns (id: int)
      requires Valid() && idBano in banos
      modifies this
      ensures Valid()
      ensures id == old(nextId) && nextId == old(nextId) + 1
      ensures banos == old(banos)
      ensures reportes == old(reportes)
        + [Reporte(id, idBano, categoria, comentario, fotoUrl, origen, now, creadoPorIp, DefaultEstado)]
    {
      id := nextId;
      reportes := reportes + [Reporte(id, idBano, categoria, comentario, fotoUrl, origen, now, creadoPorIp, DefaultEstado)];
      nextId := nextId + 1;
    }

    /** `create_reporte` (`now` is the server clock behind `creado_en`'s
        default): a missing or inactive restroom is an error and the
        tables stay as they are; otherwise exactly one report with the given
        fields is appended and its new id returned. */
    method CreateReporte(idBano: string, categoria: string, now: int, comentario: Option<string> := None,
                         fotoUrl: Option<string> := None, origen: string := DefaultOrigen,
                         creadoPorIp: Option<string> := None) returns (r: Result<int>)
      requires Valid()
      modifies this
      ensures Valid()
      ensures banos == old(banos)
      ensures !Admits(banos, idBano) ==>
                r == Err(InvalidOrInactive) && reportes == old(reportes) && nextId == old(nextId)
      ensures Admits(banos, idBano) ==>
                && r == Ok(old(nextId))
                && nextId == old(nextId) + 1
                && reportes == old(reportes)
                     + [Reporte(old(nextId), idBano, categoria, comentario, fotoUrl, origen, now, creadoPorIp, DefaultEstado)]
    {
      if !Admits(banos, idBano) {
        return Err(InvalidOrInactive);
      }
      var id := Insert(idBano, categoria, comentario, fotoUrl, origen, creadoPorIp, now);
      r := Ok(id);
    }
  }
}

/** The two tables of models.py: `Bano` (a restroom of the catalog) and
    `Reporte` (one submitted report), the joined dictionary
    `Reporte.to_dict_joined` renders, and the calendar arithmetic on the
    stored instants. */
module Records {
  import opened Base

  /** A restroom. `zona`, `piso` and `sexo` are nullable columns. */
  datatype Bano = Bano(
    id: string,
    nombre: string,
    zona: Option<string>,
    piso: Option<string>,
    sexo: Option<string>,
    activo: bool)

  /** A report. `creadoEn` is the instant of insertion in seconds since the
      Unix epoch (UTC); `estado` is stored but never read by the core. */
  datatype Reporte = Reporte(
    id: int,
    idBano: string,
    categoria: string,
    comentario: Option<string>,
    fotoUrl: Option<string>,
    origen: string,
    creadoEn: int,
    creadoPorIp: Option<string>,
    estado: string)

  /** Column defaults of `Reporte.origen` and `Reporte.estado`. */
  const DefaultOrigen: string := "qr"
  const DefaultEstado: string := "abierto"

  const SecondsPerDay: int := 86400

  /** The UTC calendar day (days since the epoch) of an instant, which is
      what SQL `date(creado_en)` compares. */
  function UtcDay(t: int): (d: int)
    ensures d * SecondsPerDay <= t < (d + 1) * SecondsPerDay
  {
    t / SecondsPerDay
  }

  /** The calendar day of an instant in a zone `offsetMinutes` east of UTC,
      which is what `astimezone(tz).date()` produces. */
  function LocalDay(t: int, offsetMinutes: int): (d: int)
    ensures d * SecondsPerDay <= t + 60 * offsetMinutes < (d + 1) * SecondsPerDay
  {
    UtcDay(t + 60 * offsetMinutes)
  }

  /** The restroom columns `to_dict_joined` adds when the relationship is loaded. */
  datatype BanoColumns = BanoColumns(
    nombreBano: string,
    zona: Option<string>,
    piso: Option<string>,
    sexo: Option<string>)

  /** The dictionary `Reporte.to_dict_joined` returns; `creadoEn` stands
      for its ISO-8601 rendering. */
  datatype JoinedDict = JoinedDict(
    id: int,
    idBano: string,
    categoria: string,
    comentario: Option<string>,
    fotoUrl: Option<string>,
    origen: string,
    creadoEn: int,
    creadoPorIp: Option<string>,
    estado: string,
    bano: Option<BanoColumns>)

  /** The report columns of a joined dictionary, read back. */
  function ReporteOf(d: JoinedDict): Reporte
  {
    Reporte(d.id, d.idBano, d.categoria, d.comentario, d.fotoUrl, d.origen,
            d.creadoEn, d.creadoPorIp, d.estado)
  }

  /** Every report column survives the rendering, and the restroom columns
      are present exactly when the restroom is loaded and are its own. */
  function ToDictJoined(r: Reporte, b: Option<Bano>): (d: JoinedDict)
    ensures ReporteOf(d) == r
    ensures d.bano.Some? <==> b.Some?
    ensures b.Some? ==> d.bano == Some(BanoColumns(b.value.nombre, b.value.zona, b.value.piso, b.value.sexo))
  {
    var cols := match b
      case Some(x) => Some(BanoColumns(x.nombre, x.zona, x.piso, x.sexo))
      case None => None;
    JoinedDict(r.id, r.idBano, r.categoria, r.comentario, r.fotoUrl, r.origen,
               r.creadoEn, r.creadoPorIp, r.estado, cols)
  }
}

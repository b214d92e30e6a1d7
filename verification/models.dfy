/** The declarations of core/models.py that the views rely on: the choice
    enumerations and their stored values, the field defaults, the key of the
    attendance table, order-code generation in `Orden.save`, and the default
    ordering of sub-processes. */
module Models {

  datatype Option<+T> = None | Some(value: T)

  /** Outcome of an operation that changes state: it goes through, or it is
      refused with an error and changes nothing. */
  datatype Outcome<+E> = Pass | Fail(error: E)

  datatype Result<+T, +E> = Success(value: T) | Failure(error: E)

  // ---------------------------------------------------------------------
  // SeguimientoProduccion.EstadoSeguimiento and RegistroActividad.TipoEvento

  datatype Estado = Pendiente | EnProgreso | Pausado | Finalizado

  datatype Evento = Inicio | Pausa | Reanudar | Fin

  /** The value each state is stored under. */
  function EstadoValor(s: Estado): string
  {
    match s
    case Pendiente => "PENDIENTE"
    case EnProgreso => "EN_PROGRESO"
    case Pausado => "PAUSADO"
    case Finalizado => "FINALIZADO"
  }

  /** The value each event kind is stored under; these are also the only
      event names the time-control action accepts. */
  function EventoValor(e: Evento): string
  {
    match e
    case Inicio => "INICIO"
    case Pausa => "PAUSA"
    case Reanudar => "REANUDAR"
    case Fin => "FIN"
  }

  /** The event kind whose stored value is `s`, if any: the membership test
      against `[e.value for e in TipoEvento]`. */
  function EventoDeValor(s: string): (r: Option<Evento>)
    ensures r.Some? ==> EventoValor(r.value) == s
    ensures r.None? ==> forall e :: EventoValor(e) != s
  {
    if s == "INICIO" then Some(Inicio)
    else if s == "PAUSA" then Some(Pausa)
    else if s == "REANUDAR" then Some(Reanudar)
    else if s == "FIN" then Some(Fin)
    else None
  }

  /** Each of the two enumerations has exactly four members, stored under four
      distinct values. */
  lemma ChoicesAreFourDistinctValues(s: Estado, t: Estado, e: Evento, f: Evento)
    ensures s in [Pendiente, EnProgreso, Pausado, Finalizado]
    ensures e in [Inicio, Pausa, Reanudar, Fin]
    ensures EstadoValor(s) == EstadoValor(t) ==> s == t
    ensures EventoValor(e) == EventoValor(f) ==> e == f
    ensures EventoDeValor(EventoValor(e)) == Some(e)
  {
  }

  // ---------------------------------------------------------------------
  // RegistroActividad and RegistroAsistencia

  /** One row of the activity log: its event kind, the instant (in
      microseconds) it was stamped with on creation, and the acting user. */
  datatype Actividad = Actividad(tipo: Evento, timestamp: int, usuario: nat)

  /** The triple `unique_together` makes the key of the attendance table: a
      map from it holds at most one record per triple. Dates are day numbers. */
  datatype ClaveAsistencia = ClaveAsistencia(seguimiento: int, trabajador: int, fecha: int)

  /** Default of `RegistroAsistencia.asistio`. */
  const AsistioPorDefecto: bool := true

  /** Default of `ItemOrden.cantidad`. */
  const CantidadPorDefecto: nat := 1

  // ---------------------------------------------------------------------
  // Orden

  datatype EstadoOrden = Carrito | Procesada | EnProduccion | Completada

  predicate EsHexMayuscula(c: char)
  {
    '0' <= c <= '9' || 'A' <= c <= 'F'
  }

  function DigitoHex(d: nat): (c: char)
    requires d < 16
    ensures EsHexMayuscula(c)
  {
    if d < 10 then ('0' as int + d) as char else ('A' as int + d - 10) as char
  }

  function ValorDigitoHex(c: char): (d: nat)
    requires EsHexMayuscula(c)
    ensures d < 16
  {
    if c <= '9' then c as int - '0' as int else c as int - 'A' as int + 10
  }

  function Pow16(k: nat): (p: nat)
    ensures p >= 1
  {
    if k == 0 then 1 else 16 * Pow16(k - 1)
  }

  /** The last `k` hexadecimal digits of `n`, most significant first, in upper
      case (`hex[:k].upper()` of a value whose leading digits are those of n). */
  function Hex(n: nat, k: nat): (s: string)
    ensures |s| == k
    ensures forall i :: 0 <= i < |s| ==> EsHexMayuscula(s[i])
  {
    if k == 0 then "" else Hex(n / 16, k - 1) + [DigitoHex(n % 16)]
  }

  /** The number an upper-case hexadecimal string spells. */
  function LeerHex(s: string): nat
    requires forall i :: 0 <= i < |s| ==> EsHexMayuscula(s[i])
  {
    if s == [] then 0 else 16 * LeerHex(s[..|s| - 1]) + ValorDigitoHex(s[|s| - 1])
  }

  lemma {:induction false} HexRoundTrip(n: nat, k: nat)
    requires n < Pow16(k)
    ensures LeerHex(Hex(n, k)) == n
  {
    if k > 0 {
      var s := Hex(n, k);
      assert s[..|s| - 1] == Hex(n / 16, k - 1);
      HexRoundTrip(n / 16, k - 1);
      assert ValorDigitoHex(DigitoHex(n % 16)) == n % 16;
    }
  }

  /** The eight hex digits `uuid4().hex[:8]` yields are the 32 random bits
      at the top of the identifier. */
  const RangoAleatorio: nat := 0x1_0000_0000

  /** The code `Orden.save` generates: "ORD-" followed by the eight random hex
      digits in upper case. */
  function CodigoOrden(aleatorio: nat): (c: string)
    requires aleatorio < RangoAleatorio
    ensures |c| == 12 && c[..4] == "ORD-"
    ensures forall i :: 4 <= i < 12 ==> EsHexMayuscula(c[i])
    ensures LeerHex(c[4..]) == aleatorio
  {
    var digits := Hex(aleatorio, 8);
    assert Pow16(8) == RangoAleatorio;
    HexRoundTrip(aleatorio, 8);
    assert ("ORD-" + digits)[4..] == digits;
    "ORD-" + digits
  }

  /** Distinct random draws give distinct order codes. */
  lemma CodigoOrdenInjective(a: nat, b: nat)
    requires a < RangoAleatorio && b < RangoAleatorio
    requires CodigoOrden(a) == CodigoOrden(b)
    ensures a == b
  {
  }

  /** An order. The line items of its cart are a map from product id to the
      quantity of the product's `ItemOrden`. */
  class Orden {
    var codigo: string
    var estado: EstadoOrden
    var lote: Option<string>
    var lineas: map<int, int>

    /** A new order: no code yet, state CARRITO, no batch, no lines. */
    constructor ()
      ensures codigo == "" && estado == Carrito && lote == None && lineas == map[]
    {
      codigo := "";
      estado := Carrito;
      lote := None;
      lineas := map[];
    }

    /** `Orden.save`: a code is generated only when the order has none; an
        existing code is never overwritten. */
    method Save(aleatorio: nat)
      requires aleatorio < RangoAleatorio
      modifies this`codigo
      ensures old(codigo) == "" ==> codigo == CodigoOrden(aleatorio)
      ensures old(codigo) != "" ==> codigo == old(codigo)
      ensures codigo != ""
    {
      if codigo == "" {
        codigo := CodigoOrden(aleatorio);
      }
    }
  }

  // ---------------------------------------------------------------------
  // Meta.ordering of Etapa, Proceso and Subproceso

  /** Where a sub-process sits in the workflow: the `orden_secuencia` of its
      stage, of its process, and its own. */
  datatype Posicion = Posicion(etapa: nat, proceso: nat, subproceso: nat)

  /** `a` sorts no later than `b` in the default ordering of sub-processes:
      by the stage's sequence number, then the process's, then their own. */
  predicate Precede(a: Posicion, b: Posicion)
    ensures Precede(a, b) ==> a.etapa <= b.etapa
    ensures a.etapa < b.etapa ==> Precede(a, b)
  {
    a.etapa < b.etapa
    || (a.etapa == b.etapa && a.proceso < b.proceso)
    || (a.etapa == b.etapa && a.proceso == b.proceso && a.subproceso <= b.subproceso)
  }

  /** The ordering is a total order on positions, and it refines the stage
      ordering, within a stage the process ordering, and within a process
      the ascending order of the sub-process's own sequence number. */
  lemma PrecedeIsTotalOrder(a: Posicion, b: Posicion, c: Posicion)
    ensures Precede(a, a)
    ensures Precede(a, b) || Precede(b, a)
    ensures Precede(a, b) && Precede(b, a) ==> a == b
    ensures Precede(a, b) && Precede(b, c) ==> Precede(a, c)
    ensures Precede(a, b) ==> a.etapa <= b.etapa
    ensures Precede(a, b) && a.etapa == b.etapa ==> a.proceso <= b.proceso
    ensures Precede(a, b) && a.etapa == b.etapa && a.proceso == b.proceso ==> a.subproceso <= b.subproceso
  {
  }
}

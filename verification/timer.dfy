/** The time-control action of core/views.py (`controlar_tiempo`) as a
    function of a tracking record's fields: which calls it refuses and in what
    order, the transition each event makes, how elapsed time is accumulated,
    and the activity-log entry each accepted call appends. Instants are
    integers counting microseconds, the resolution of the stored timestamps. */
module Timer {
  import opened Models

  // ---------------------------------------------------------------------
  // Reading the event name: `request.data.get('evento', '').upper()`

  /** `str.upper()` on one character. Letters a-z map to A-Z. The only other
      characters whose full upper-case mapping is made of ASCII letters are
      also mapped (sharp s, dotless i, long s and the Latin ligatures); every
      other character is left as it is, which keeps any non-ASCII character
      non-ASCII, as the full mapping does. */
  function UpperChar(c: char): string
  {
    if 'a' <= c <= 'z' then [(c as int - 32) as char]
    else if c == '\U{DF}' then "SS"
    else if c == '\U{131}' then "I"
    else if c == '\U{17F}' then "S"
    else if c == '\U{FB00}' then "FF"
    else if c == '\U{FB01}' then "FI"
    else if c == '\U{FB02}' then "FL"
    else if c == '\U{FB03}' then "FFI"
    else if c == '\U{FB04}' then "FFL"
    else if c == '\U{FB05}' || c == '\U{FB06}' then "ST"
    else [c]
  }

  function Upper(s: string): (r: string)
    ensures |s| <= |r| <= 3 * |s|
  {
    if s == [] then [] else UpperChar(s[0]) + Upper(s[1..])
  }

  lemma {:induction false} UpperAppend(a: string, b: string)
    ensures Upper(a + b) == Upper(a) + Upper(b)
  {
    if a == [] {
      assert a + b == b;
    } else {
      assert (a + b)[0] == a[0];
      assert (a + b)[1..] == a[1..] + b;
      UpperAppend(a[1..], b);
    }
  }

  lemma {:induction false} UpperKeepsUpperCase(s: string)
    requires forall i :: 0 <= i < |s| ==> UpperChar(s[i]) == [s[i]]
    ensures Upper(s) == s
  {
    if s != [] {
      UpperKeepsUpperCase(s[1..]);
    }
  }

  /** Upper-casing twice is upper-casing once. */
  lemma {:induction false} UpperIdempotent(s: string)
    ensures Upper(Upper(s)) == Upper(s)
  {
    if s != [] {
      var u := UpperChar(s[0]);
      UpperKeepsUpperCase(u);
      UpperAppend(u, Upper(s[1..]));
      UpperIdempotent(s[1..]);
    }
  }

  predicate EsLetraAscii(c: char)
  {
    'a' <= c <= 'z' || 'A' <= c <= 'Z'
  }

  function MayusculaAscii(c: char): char
  {
    if 'a' <= c <= 'z' then (c as int - 32) as char else c
  }

  /** On ASCII letters, upper-casing works character by character. */
  lemma {:induction false} UpperOfAsciiLetters(s: string)
    requires forall i :: 0 <= i < |s| ==> EsLetraAscii(s[i])
    ensures |Upper(s)| == |s|
    ensures forall i :: 0 <= i < |s| ==> Upper(s)[i] == MayusculaAscii(s[i])
  {
    if s != [] {
      UpperOfAsciiLetters(s[1..]);
    }
  }

  /** The event a request names, if it names one. */
  function EventoRecibido(raw: string): (r: Option<Evento>)
    ensures r.Some? ==> Upper(raw) == EventoValor(r.value)
    ensures r.None? ==> forall e :: Upper(raw) != EventoValor(e)
  {
    EventoDeValor(Upper(raw))
  }

  /** Every event is accepted under its own name. */
  lemma EventNameAccepted(e: Evento)
    ensures EventoRecibido(EventoValor(e)) == Some(e)
  {
    var v := EventoValor(e);
    UpperOfAsciiLetters(v);
    assert Upper(v) == v;
  }

  /** Event names are read case-insensitively: any string of ASCII letters
      that upper-cases letter by letter to an event's stored value names
      that event. */
  lemma NamesReadCaseInsensitively(raw: string, e: Evento)
    requires |raw| == |EventoValor(e)|
    requires forall i :: 0 <= i < |raw| ==> EsLetraAscii(raw[i]) && MayusculaAscii(raw[i]) == EventoValor(e)[i]
    ensures EventoRecibido(raw) == Some(e)
  {
    UpperOfAsciiLetters(raw);
    assert Upper(raw) == EventoValor(e);
    ChoicesAreFourDistinctValues(Pendiente, Pendiente, e, e);
  }

  /** Two mixed-case spellings. */
  lemma MixedCaseNamesAccepted()
    ensures EventoRecibido("Pausa") == Some(Pausa)
    ensures EventoRecibido("fIN") == Some(Fin)
  {
    NamesReadCaseInsensitively("Pausa", Pausa);
    NamesReadCaseInsensitively("fIN", Fin);
  }

  /** Anything else is not an event, the empty name included. */
  lemma OtherNamesRefused()
    ensures EventoRecibido("") == None
    ensures EventoRecibido("start") == None
  {
    UpperOfAsciiLetters("start");
    assert Upper("start") == "START";
  }

  /** The full mapping matters: the ligature fi upper-cases to two letters,
      so "\U{FB01}n" names FIN. */
  lemma LigatureNamesFin()
    ensures EventoRecibido("\U{FB01}n") == Some(Fin)
  {
    UpperAppend("\U{FB01}", "n");
    assert "\U{FB01}" + "n" == "\U{FB01}n";
  }

  // ---------------------------------------------------------------------
  // Elapsed time: `int((now - ultima_actividad.timestamp).total_seconds())`

  const MicrosPorSegundo: nat := 1_000_000

  /** Whole seconds from `desde` to `hasta`, truncated toward zero. */
  function SegundosEntre(desde: int, hasta: int): (r: int)
    ensures desde <= hasta ==> 0 <= r && r * MicrosPorSegundo <= hasta - desde < (r + 1) * MicrosPorSegundo
    ensures hasta < desde ==> r <= 0 && -r * MicrosPorSegundo <= desde - hasta < (-r + 1) * MicrosPorSegundo
  {
    var d := hasta - desde;
    if d >= 0 then d / MicrosPorSegundo else -((-d) / MicrosPorSegundo)
  }

  /** The latest timestamp in a non-empty log: that of the row
      `order_by('-timestamp').first()` returns. */
  function UltimaMarca(log: seq<Actividad>): (r: int)
    requires log != []
    ensures exists i :: 0 <= i < |log| && log[i].timestamp == r
    ensures forall i :: 0 <= i < |log| ==> log[i].timestamp <= r
  {
    if |log| == 1 then log[0].timestamp
    else
      var m := UltimaMarca(log[..|log| - 1]);
      var t := log[|log| - 1].timestamp;
      if m < t then t else m
  }

  ghost predicate Ordenada(log: seq<Actividad>)
  {
    forall i, j :: 0 <= i < j < |log| ==> log[i].timestamp <= log[j].timestamp
  }

  /** In a log written by a clock that never goes back, the latest timestamp
      is that of the last entry. */
  lemma LatestOfOrderedLogIsLast(log: seq<Actividad>)
    requires log != [] && Ordenada(log)
    ensures UltimaMarca(log) == log[|log| - 1].timestamp
  {
  }

  // ---------------------------------------------------------------------
  // The tracking record and one call of the action

  /** The fields of a `SeguimientoProduccion` the action reads or writes,
      with its activity log (oldest entry first). Instants are optional
      because the start and end fields are nullable. */
  datatype Seguimiento = Seguimiento(
    estado: Estado,
    trabajadores: set<int>,
    fechaInicio: Option<int>,
    fechaFin: Option<int>,
    duracion: int,
    actividades: seq<Actividad>)

  /** A record as created: PENDIENTE, no duration, no start or end, nobody
      assigned, nothing logged. */
  function Nuevo(): (s: Seguimiento)
    ensures s.estado == Pendiente && s.duracion == 0
    ensures s.fechaInicio == None && s.fechaFin == None
    ensures s.trabajadores == {} && s.actividades == []
  {
    Seguimiento(Pendiente, {}, None, None, 0, [])
  }

  datatype Error =
    | SinTrabajadores     // no worker assigned
    | EventoNoValido      // not one of the four event names
    | YaIniciado          // INICIO when not PENDIENTE
    | NoEnProgreso        // PAUSA when not EN_PROGRESO
    | NoPausado           // REANUDAR when not PAUSADO
    | NoFinalizable       // FIN when neither EN_PROGRESO nor PAUSADO
    | SinActividadPrevia  // elapsed time needed but the log is empty: the code fails on `None.timestamp`

  /** The effect of an event on the record's state, duration and dates,
      before its log entry is appended. The elapsed time is measured from the
      log as it was before the call. */
  function Aplicar(s: Seguimiento, e: Evento, ahora: int): (r: Result<Seguimiento, Error>)
    ensures Transicion(s.estado, e) == None ==> r.Failure?
    ensures r.Success? ==> Transicion(s.estado, e) == Some(r.value.estado)
    ensures r.Success? ==> r.value.trabajadores == s.trabajadores && r.value.actividades == s.actividades
    ensures r.Success? && !CierraIntervalo(s.estado, e) ==> r.value.duracion == s.duracion
  {
    match e
    case Inicio =>
      if s.estado != Pendiente then Failure(YaIniciado)
      else Success(s.(estado := EnProgreso, fechaInicio := Some(ahora)))
    case Pausa =>
      if s.estado != EnProgreso then Failure(NoEnProgreso)
      else if s.actividades == [] then Failure(SinActividadPrevia)
      else Success(s.(duracion := s.duracion + SegundosEntre(UltimaMarca(s.actividades), ahora),
                      estado := Pausado))
    case Reanudar =>
      if s.estado != Pausado then Failure(NoPausado)
      else Success(s.(estado := EnProgreso))
    case Fin =>
      if s.estado != EnProgreso && s.estado != Pausado then Failure(NoFinalizable)
      else if s.estado == EnProgreso && s.actividades == [] then Failure(SinActividadPrevia)
      else
        var d := if s.estado == EnProgreso
                 then s.duracion + SegundosEntre(UltimaMarca(s.actividades), ahora)
                 else s.duracion;
        Success(s.(duracion := d, estado := Finalizado, fechaFin := Some(ahora)))
  }

  /** What a call does once the event has been read: the event's effect,
      and on success its log entry, stamped at `registrado` by `usuario`. */
  function Efectuar(s: Seguimiento, e: Evento, ahora: int, registrado: int, usuario: nat): (r: Result<Seguimiento, Error>)
    ensures Transicion(s.estado, e) == None ==> r.Failure?
    ensures r.Success? ==> Transicion(s.estado, e) == Some(r.value.estado)
    ensures r.Success? ==> r.value.actividades == s.actividades + [Actividad(e, registrado, usuario)]
    ensures r.Success? ==> r.value.trabajadores == s.trabajadores
  {
    match Aplicar(s, e, ahora)
    case Failure(err) => Failure(err)
    case Success(t) => Success(t.(actividades := s.actividades + [Actividad(e, registrado, usuario)]))
  }

  /** One call of the action: `raw` is the event name as sent, `ahora` the
      instant read at the start of the call, `registrado` the instant the new
      log row is stamped with, `usuario` the caller. */
  function Controlar(s: Seguimiento, raw: string, ahora: int, registrado: int, usuario: nat): (r: Result<Seguimiento, Error>)
    ensures r.Success? ==> s.trabajadores != {} && EventoRecibido(raw).Some?
    ensures r.Success? ==> Transicion(s.estado, EventoRecibido(raw).value) == Some(r.value.estado)
    ensures r.Success? ==> r.value.actividades == s.actividades + [Actividad(EventoRecibido(raw).value, registrado, usuario)]
    ensures r.Success? ==> r.value.trabajadores == s.trabajadores
  {
    if s.trabajadores == {} then Failure(SinTrabajadores)
    else match EventoRecibido(raw)
      case None => Failure(EventoNoValido)
      case Some(e) => Efectuar(s, e, ahora, registrado, usuario)
  }

  // ---------------------------------------------------------------------
  // The transition table and the record's invariant

  /** The lifecycle as a table: the state an event leads to from a state, or
      None where the event is not allowed. */
  function Transicion(s: Estado, e: Evento): Option<Estado>
  {
    match (s, e)
    case (Pendiente, Inicio) => Some(EnProgreso)
    case (EnProgreso, Pausa) => Some(Pausado)
    case (Pausado, Reanudar) => Some(EnProgreso)
    case (EnProgreso, Fin) => Some(Finalizado)
    case (Pausado, Fin) => Some(Finalizado)
    case _ => None
  }

  /** Whether the event closes a running interval, so adds elapsed time. */
  predicate CierraIntervalo(s: Estado, e: Evento)
  {
    s == EnProgreso && (e == Pausa || e == Fin)
  }

  /** The state a record is in right after an event of kind `e` was accepted. */
  function EstadoTras(e: Evento): Estado
  {
    match e
    case Inicio => EnProgreso
    case Pausa => Pausado
    case Reanudar => EnProgreso
    case Fin => Finalizado
  }

  /** What holds of every record that only this action has changed since it
      was created: it is PENDIENTE exactly while its log is empty; it has a
      start date exactly once started and an end date exactly once finished;
      the log opens with the only INICIO, closes with the only FIN if any, and
      its last entry determines the state. */
  ghost predicate Consistente(s: Seguimiento)
  {
    var log := s.actividades;
    && (s.estado == Pendiente <==> log == [])
    && (s.fechaInicio.Some? <==> s.estado != Pendiente)
    && (s.fechaFin.Some? <==> s.estado == Finalizado)
    && (log != [] ==> log[0].tipo == Inicio && s.estado == EstadoTras(log[|log| - 1].tipo))
    && (forall i :: 0 < i < |log| ==> log[i].tipo != Inicio)
    && (forall i :: 0 <= i < |log| - 1 ==> log[i].tipo != Fin)
  }

  lemma NuevoIsConsistente()
    ensures Consistente(Nuevo())
  {
  }

  // ---------------------------------------------------------------------
  // Properties of one call

  /** Refusals come in a fixed order: no assigned worker first, then an
      unknown event name, then the state check, whose refusal depends on the
      event. */
  lemma RejectionOrder(s: Seguimiento, raw: string, ahora: int, registrado: int, usuario: nat)
    ensures s.trabajadores == {} ==> Controlar(s, raw, ahora, registrado, usuario) == Failure(SinTrabajadores)
    ensures s.trabajadores != {} && EventoRecibido(raw) == None ==>
              Controlar(s, raw, ahora, registrado, usuario) == Failure(EventoNoValido)
    ensures s.trabajadores != {} && EventoRecibido(raw).Some? && Transicion(s.estado, EventoRecibido(raw).value) == None ==>
              Controlar(s, raw, ahora, registrado, usuario) ==
                Failure(match EventoRecibido(raw).value
                        case Inicio => YaIniciado
                        case Pausa => NoEnProgreso
                        case Reanudar => NoPausado
                        case Fin => NoFinalizable)
  {
  }

  /** An accepted call appends exactly one log entry, of the event sent,
      stamped at `registrado` and by `usuario`; it moves along the table; it
      leaves the workers alone; it adds the elapsed whole seconds since the
      latest log entry exactly when it closes a running interval; INICIO
      sets the start date and FIN the end date to `ahora`. */
  lemma AcceptedCall(s: Seguimiento, raw: string, ahora: int, registrado: int, usuario: nat)
    requires Controlar(s, raw, ahora, registrado, usuario).Success?
    ensures EventoRecibido(raw).Some?
    ensures var e := EventoRecibido(raw).value;
            var t := Controlar(s, raw, ahora, registrado, usuario).value;
            && t.actividades == s.actividades + [Actividad(e, registrado, usuario)]
            && Transicion(s.estado, e) == Some(t.estado)
            && t.trabajadores == s.trabajadores
            && t.duracion == s.duracion + (if CierraIntervalo(s.estado, e)
                                            then SegundosEntre(UltimaMarca(s.actividades), ahora) else 0)
            && t.fechaInicio == (if e == Inicio then Some(ahora) else s.fechaInicio)
            && t.fechaFin == (if e == Fin then Some(ahora) else s.fechaFin)
  {
  }

  /** On a consistent record with workers, an event named correctly is
      accepted exactly when the table allows it from the current state; in
      particular the internal error on an empty log never happens, which is
      what makes dereferencing the latest log entry safe. */
  lemma AcceptedIffTableAllows(s: Seguimiento, raw: string, ahora: int, registrado: int, usuario: nat)
    requires Consistente(s) && s.trabajadores != {} && EventoRecibido(raw).Some?
    ensures Controlar(s, raw, ahora, registrado, usuario).Success?
            <==> Transicion(s.estado, EventoRecibido(raw).value).Some?
    ensures Controlar(s, raw, ahora, registrado, usuario) != Failure(SinActividadPrevia)
  {
  }

  /** Every call keeps a consistent record consistent. */
  lemma ControlarPreservesConsistente(s: Seguimiento, raw: string, ahora: int, registrado: int, usuario: nat)
    requires Consistente(s)
    ensures var r := Controlar(s, raw, ahora, registrado, usuario);
            r.Success? ==> Consistente(r.value)
  {
    var r := Controlar(s, raw, ahora, registrado, usuario);
    if r.Success? {
      var t := r.value;
      var e := EventoRecibido(raw).value;
      AcceptedCall(s, raw, ahora, registrado, usuario);
      var log, log' := s.actividades, t.actividades;
      assert log' == log + [Actividad(e, registrado, usuario)];
      assert e == Inicio <==> log == [];
      forall i | 0 < i < |log'|
        ensures log'[i].tipo != Inicio
      {
        if i < |log| { assert log'[i] == log[i]; }
      }
      forall i | 0 <= i < |log'| - 1
        ensures log'[i].tipo != Fin
      {
        assert log'[i] == log[i];
        if i == |log| - 1 { assert s.estado != Finalizado; }
      }
    }
  }

  /** INICIO is accepted at most once: right after an accepted INICIO a second
      one is refused as already started, and INICIO never changes the
      duration. */
  lemma SecondStartRejected(s: Seguimiento, raw1: string, raw2: string, t1: int, r1: int, t2: int, r2: int, u1: nat, u2: nat)
    requires EventoRecibido(raw1) == Some(Inicio) && EventoRecibido(raw2) == Some(Inicio)
    requires Controlar(s, raw1, t1, r1, u1).Success?
    ensures Controlar(s, raw1, t1, r1, u1).value.duracion == s.duracion
    ensures Controlar(Controlar(s, raw1, t1, r1, u1).value, raw2, t2, r2, u2) == Failure(YaIniciado)
  {
  }

  /** FINALIZADO is terminal: every call on a finished record is refused. */
  lemma FinishedIsTerminal(s: Seguimiento, raw: string, ahora: int, registrado: int, usuario: nat)
    requires s.estado == Finalizado
    ensures Controlar(s, raw, ahora, registrado, usuario).Failure?
  {
  }

  /** With a clock that has not gone back since the latest log entry, no call
      decreases the duration, and the log stays in timestamp order. */
  lemma ControlarMonotone(s: Seguimiento, raw: string, ahora: int, registrado: int, usuario: nat)
    requires Ordenada(s.actividades)
    requires forall i :: 0 <= i < |s.actividades| ==> s.actividades[i].timestamp <= ahora
    requires ahora <= registrado
    ensures var r := Controlar(s, raw, ahora, registrado, usuario);
            r.Success? ==> r.value.duracion >= s.duracion && Ordenada(r.value.actividades)
  {
    var r := Controlar(s, raw, ahora, registrado, usuario);
    if r.Success? {
      AcceptedCall(s, raw, ahora, registrado, usuario);
      var log' := r.value.actividades;
      assert log'[..|s.actividades|] == s.actividades;
    }
  }

  // ---------------------------------------------------------------------
  // Sequences of calls

  /** One request to the action. */
  datatype Llamada = Llamada(evento: string, ahora: int, registrado: int, usuario: nat)

  /** The record after one call: what the call makes of it if accepted, the
      record as it was if refused. */
  function Paso(s: Seguimiento, c: Llamada): Seguimiento
  {
    match Controlar(s, c.evento, c.ahora, c.registrado, c.usuario)
    case Success(t) => t
    case Failure(_) => s
  }

  /** The record after a sequence of calls. */
  function Ejecutar(s: Seguimiento, calls: seq<Llamada>): Seguimiento
    decreases |calls|
  {
    if calls == [] then s else Ejecutar(Paso(s, calls[0]), calls[1..])
  }

  /** How many calls of the sequence are accepted. */
  function Aceptadas(s: Seguimiento, calls: seq<Llamada>): nat
    decreases |calls|
  {
    if calls == [] then 0
    else
      var c := calls[0];
      (if Controlar(s, c.evento, c.ahora, c.registrado, c.usuario).Success? then 1 else 0)
      + Aceptadas(Paso(s, c), calls[1..])
  }

  /** The log grows by exactly one entry per accepted call: its length is the
      number of accepted calls, and what was logged before is kept. */
  lemma {:induction false} LogCountsAcceptedCalls(s: Seguimiento, calls: seq<Llamada>)
    ensures |Ejecutar(s, calls).actividades| == |s.actividades| + Aceptadas(s, calls)
    ensures Ejecutar(s, calls).actividades[..|s.actividades|] == s.actividades
    ensures Ejecutar(s, calls).trabajadores == s.trabajadores
    decreases |calls|
  {
    if calls != [] {
      var c := calls[0];
      var r := Controlar(s, c.evento, c.ahora, c.registrado, c.usuario);
      if r.Success? {
        AcceptedCall(s, c.evento, c.ahora, c.registrado, c.usuario);
        LogCountsAcceptedCalls(r.value, calls[1..]);
        var fin := Ejecutar(r.value, calls[1..]).actividades;
        assert fin[..|s.actividades|] == fin[..|r.value.actividades|][..|s.actividades|];
      } else {
        LogCountsAcceptedCalls(s, calls[1..]);
      }
    }
  }

  /** Any sequence of calls keeps a consistent record consistent. */
  lemma {:induction false} EjecutarPreservesConsistente(s: Seguimiento, calls: seq<Llamada>)
    requires Consistente(s)
    ensures Consistente(Ejecutar(s, calls))
    decreases |calls|
  {
    if calls != [] {
      var c := calls[0];
      var r := Controlar(s, c.evento, c.ahora, c.registrado, c.usuario);
      ControlarPreservesConsistente(s, c.evento, c.ahora, c.registrado, c.usuario);
      if r.Success? {
        EjecutarPreservesConsistente(r.value, calls[1..]);
      } else {
        EjecutarPreservesConsistente(s, calls[1..]);
      }
    }
  }

  /** The instants of a sequence of calls, read from a clock that never goes
      back and starting no earlier than `desde`: each call reads `ahora`
      before its row is stamped, and the next call comes after. */
  predicate RelojMonotono(desde: int, calls: seq<Llamada>)
    decreases |calls|
  {
    calls == [] ||
    (desde <= calls[0].ahora <= calls[0].registrado && RelojMonotono(calls[0].registrado, calls[1..]))
  }

  /** With such a clock the duration never decreases over any sequence of
      calls, and the log stays in timestamp order. */
  lemma {:induction false} DurationNeverDecreases(s: Seguimiento, desde: int, calls: seq<Llamada>)
    requires Ordenada(s.actividades)
    requires forall i :: 0 <= i < |s.actividades| ==> s.actividades[i].timestamp <= desde
    requires RelojMonotono(desde, calls)
    ensures Ejecutar(s, calls).duracion >= s.duracion
    ensures Ordenada(Ejecutar(s, calls).actividades)
    decreases |calls|
  {
    if calls != [] {
      var c := calls[0];
      var r := Controlar(s, c.evento, c.ahora, c.registrado, c.usuario);
      ControlarMonotone(s, c.evento, c.ahora, c.registrado, c.usuario);
      if r.Success? {
        AcceptedCall(s, c.evento, c.ahora, c.registrado, c.usuario);
        DurationNeverDecreases(r.value, c.registrado, calls[1..]);
      } else {
        DurationNeverDecreases(s, c.registrado, calls[1..]);
      }
    }
  }

  // ---------------------------------------------------------------------
  // Worked examples

  /** The four rows of the table, one accepted event each. */
  lemma InicioStep(s: Seguimiento, ahora: int, registrado: int, usuario: nat)
    requires s.estado == Pendiente
    ensures Efectuar(s, Inicio, ahora, registrado, usuario)
            == Success(s.(estado := EnProgreso, fechaInicio := Some(ahora),
                          actividades := s.actividades + [Actividad(Inicio, registrado, usuario)]))
  {
  }

  lemma PausaStep(s: Seguimiento, ahora: int, registrado: int, usuario: nat)
    requires s.estado == EnProgreso && s.actividades != []
    ensures Efectuar(s, Pausa, ahora, registrado, usuario)
            == Success(s.(estado := Pausado,
                          duracion := s.duracion + SegundosEntre(UltimaMarca(s.actividades), ahora),
                          actividades := s.actividades + [Actividad(Pausa, registrado, usuario)]))
  {
  }

  lemma ReanudarStep(s: Seguimiento, ahora: int, registrado: int, usuario: nat)
    requires s.estado == Pausado
    ensures Efectuar(s, Reanudar, ahora, registrado, usuario)
            == Success(s.(estado := EnProgreso,
                          actividades := s.actividades + [Actividad(Reanudar, registrado, usuario)]))
  {
  }

  lemma FinStep(s: Seguimiento, ahora: int, registrado: int, usuario: nat)
    requires s.estado == EnProgreso && s.actividades != []
    ensures Efectuar(s, Fin, ahora, registrado, usuario)
            == Success(s.(estado := Finalizado, fechaFin := Some(ahora),
                          duracion := s.duracion + SegundosEntre(UltimaMarca(s.actividades), ahora),
                          actividades := s.actividades + [Actividad(Fin, registrado, usuario)]))
  {
  }

  /** A sequence whose first call names an event that is accepted with
      result `t` continues from `t`. */
  lemma EjecutarUna(s: Seguimiento, t: Seguimiento, calls: seq<Llamada>, e: Evento)
    requires calls != []
    requires s.trabajadores != {} && EventoRecibido(calls[0].evento) == Some(e)
    requires Efectuar(s, e, calls[0].ahora, calls[0].registrado, calls[0].usuario) == Success(t)
    ensures Ejecutar(s, calls) == Ejecutar(t, calls[1..])
    ensures t.trabajadores == s.trabajadores
  {
  }

  /** Four calls in a row, naming events that are each accepted with the
      given result. */
  lemma EjecutarCuatro(s0: Seguimiento, s1: Seguimiento, s2: Seguimiento, s3: Seguimiento, s4: Seguimiento,
                       calls: seq<Llamada>, e0: Evento, e1: Evento, e2: Evento, e3: Evento)
    requires |calls| == 4
    requires s0.trabajadores != {}
    requires EventoRecibido(calls[0].evento) == Some(e0) && EventoRecibido(calls[1].evento) == Some(e1)
    requires EventoRecibido(calls[2].evento) == Some(e2) && EventoRecibido(calls[3].evento) == Some(e3)
    requires Efectuar(s0, e0, calls[0].ahora, calls[0].registrado, calls[0].usuario) == Success(s1)
    requires Efectuar(s1, e1, calls[1].ahora, calls[1].registrado, calls[1].usuario) == Success(s2)
    requires Efectuar(s2, e2, calls[2].ahora, calls[2].registrado, calls[2].usuario) == Success(s3)
    requires Efectuar(s3, e3, calls[3].ahora, calls[3].registrado, calls[3].usuario) == Success(s4)
    ensures Ejecutar(s0, calls) == s4
  {
    var r1, r2, r3 := calls[1..], calls[2..], calls[3..];
    EjecutarUna(s0, s1, calls, e0);
    assert calls[1..] == r1 && r1[0] == calls[1] && r1[1..] == r2;
    EjecutarUna(s1, s2, r1, e1);
    assert r2[0] == calls[2] && r2[1..] == r3;
    EjecutarUna(s2, s3, r2, e2);
    assert r3[0] == calls[3] && r3[1..] == [];
    EjecutarUna(s3, s4, r3, e3);
  }

  /** One worker; INICIO, PAUSA, REANUDAR and FIN at instants t0 <= t1 <= t2
      and t3, each row stamped when its call reads the clock: the record ends
      finished, started at t0 and ended at t3, with the two running intervals
      added up, each truncated to whole seconds on its own, and the four
      events logged in order. */
  lemma StartPauseResumeFinish(ini: string, pau: string, rea: string, fin: string, w: int,
                               t0: int, t1: int, t2: int, t3: int, u: nat)
    requires EventoRecibido(ini) == Some(Inicio) && EventoRecibido(pau) == Some(Pausa)
    requires EventoRecibido(rea) == Some(Reanudar) && EventoRecibido(fin) == Some(Fin)
    requires t0 <= t1 <= t2
    ensures var r := Ejecutar(Nuevo().(trabajadores := {w}),
                              [Llamada(ini, t0, t0, u), Llamada(pau, t1, t1, u),
                               Llamada(rea, t2, t2, u), Llamada(fin, t3, t3, u)]);
            && r.duracion == SegundosEntre(t0, t1) + SegundosEntre(t2, t3)
            && r.estado == Finalizado
            && r.fechaInicio == Some(t0)
            && r.fechaFin == Some(t3)
            && r.actividades == [Actividad(Inicio, t0, u), Actividad(Pausa, t1, u),
                                 Actividad(Reanudar, t2, u), Actividad(Fin, t3, u)]
  {
    var s0 := Nuevo().(trabajadores := {w});
    var s1 := s0.(estado := EnProgreso, fechaInicio := Some(t0),
                  actividades := s0.actividades + [Actividad(Inicio, t0, u)]);
    var s2 := s1.(estado := Pausado, duracion := s1.duracion + SegundosEntre(UltimaMarca(s1.actividades), t1),
                  actividades := s1.actividades + [Actividad(Pausa, t1, u)]);
    var s3 := s2.(estado := EnProgreso, actividades := s2.actividades + [Actividad(Reanudar, t2, u)]);
    var s4 := s3.(estado := Finalizado, fechaFin := Some(t3),
                  duracion := s3.duracion + SegundosEntre(UltimaMarca(s3.actividades), t3),
                  actividades := s3.actividades + [Actividad(Fin, t3, u)]);
    StartPauseResumeFinishSteps(s0, s1, s2, s3, s4, t0, t1, t2, t3, u);
    EjecutarCuatro(s0, s1, s2, s3, s4,
                   [Llamada(ini, t0, t0, u), Llamada(pau, t1, t1, u), Llamada(rea, t2, t2, u), Llamada(fin, t3, t3, u)],
                   Inicio, Pausa, Reanudar, Fin);
  }

  /** The states the four events of `StartPauseResumeFinish` go through. */
  lemma StartPauseResumeFinishSteps(s0: Seguimiento, s1: Seguimiento, s2: Seguimiento, s3: Seguimiento, s4: Seguimiento,
                                    t0: int, t1: int, t2: int, t3: int, u: nat)
    requires t0 <= t1 <= t2
    requires s0.estado == Pendiente && s0.actividades == [] && s0.duracion == 0
    requires s1 == s0.(estado := EnProgreso, fechaInicio := Some(t0),
                       actividades := s0.actividades + [Actividad(Inicio, t0, u)])
    requires s2 == s1.(estado := Pausado, duracion := s1.duracion + SegundosEntre(UltimaMarca(s1.actividades), t1),
                       actividades := s1.actividades + [Actividad(Pausa, t1, u)])
    requires s3 == s2.(estado := EnProgreso, actividades := s2.actividades + [Actividad(Reanudar, t2, u)])
    requires s4 == s3.(estado := Finalizado, fechaFin := Some(t3),
                       duracion := s3.duracion + SegundosEntre(UltimaMarca(s3.actividades), t3),
                       actividades := s3.actividades + [Actividad(Fin, t3, u)])
    ensures Efectuar(s0, Inicio, t0, t0, u) == Success(s1)
    ensures Efectuar(s1, Pausa, t1, t1, u) == Success(s2)
    ensures Efectuar(s2, Reanudar, t2, t2, u) == Success(s3)
    ensures Efectuar(s3, Fin, t3, t3, u) == Success(s4)
    ensures s4.duracion == SegundosEntre(t0, t1) + SegundosEntre(t2, t3)
    ensures s4.actividades == [Actividad(Inicio, t0, u), Actividad(Pausa, t1, u),
                               Actividad(Reanudar, t2, u), Actividad(Fin, t3, u)]
  {
    InicioStep(s0, t0, t0, u);
    PausaStep(s1, t1, t1, u);
    ReanudarStep(s2, t2, t2, u);
    FinStep(s3, t3, t3, u);
    assert s3.actividades == [Actividad(Inicio, t0, u), Actividad(Pausa, t1, u), Actividad(Reanudar, t2, u)];
    LatestOfOrderedLogIsLast(s3.actividades);
  }

  /** Each interval is truncated on its own: two running intervals of 1.5 s
      add up to 2 s, although 3 s were spent running. */
  lemma IntervalsTruncatedSeparately(ini: string, pau: string, rea: string, fin: string, w: int, u: nat)
    requires EventoRecibido(ini) == Some(Inicio) && EventoRecibido(pau) == Some(Pausa)
    requires EventoRecibido(rea) == Some(Reanudar) && EventoRecibido(fin) == Some(Fin)
    ensures Ejecutar(Nuevo().(trabajadores := {w}),
                     [Llamada(ini, 0, 0, u), Llamada(pau, 1_500_000, 1_500_000, u),
                      Llamada(rea, 2_000_000, 2_000_000, u), Llamada(fin, 3_500_000, 3_500_000, u)]).duracion == 2
  {
    StartPauseResumeFinish(ini, pau, rea, fin, w, 0, 1_500_000, 2_000_000, 3_500_000, u);
    assert SegundosEntre(0, 1_500_000) == 1;
    assert SegundosEntre(2_000_000, 3_500_000) == 1;
  }

  /** The elapsed time is read from the wall clock, so the monotone-clock
      assumption of `DurationNeverDecreases` is needed: if the clock is set
      back 3 s between INICIO and PAUSA, the duration drops to -3. */
  lemma ClockSetBackShrinksDuration(ini: string, pau: string, w: int, u: nat)
    requires EventoRecibido(ini) == Some(Inicio) && EventoRecibido(pau) == Some(Pausa)
    ensures Ejecutar(Nuevo().(trabajadores := {w}),
                     [Llamada(ini, 5_000_000, 5_000_000, u), Llamada(pau, 2_000_000, 2_000_000, u)]).duracion == -3
  {
    var calls := [Llamada(ini, 5_000_000, 5_000_000, u), Llamada(pau, 2_000_000, 2_000_000, u)];
    var s0 := Nuevo().(trabajadores := {w});
    var s1 := s0.(estado := EnProgreso, fechaInicio := Some(5_000_000),
                  actividades := s0.actividades + [Actividad(Inicio, 5_000_000, u)]);
    var s2 := s1.(estado := Pausado, duracion := s1.duracion + SegundosEntre(UltimaMarca(s1.actividades), 2_000_000),
                  actividades := s1.actividades + [Actividad(Pausa, 2_000_000, u)]);
    InicioStep(s0, 5_000_000, 5_000_000, u);
    PausaStep(s1, 2_000_000, 2_000_000, u);
    EjecutarUna(s0, s1, calls, Inicio);
    EjecutarUna(s1, s2, calls[1..], Pausa);
    assert calls[1..][1..] == [];
    assert SegundosEntre(5_000_000, 2_000_000) == -3;
  }
}

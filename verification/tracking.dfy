/** The two actions of `SeguimientoProduccionViewSet` in core/views.py as
    methods of a tracking record that update its fields in place, each proved
    against the functions of the Timer and Asignacion modules. */
module Tracking {
  import opened Models
  import Timer
  import Asignacion

  /** A `SeguimientoProduccion` row together with the rows that point at it:
      its activity log (oldest entry first) and the attendance table, whose
      records for other tracking records are never touched by its actions. */
  class SeguimientoProduccion {
    const id: int
    var estado: Estado
    var trabajadores: set<int>
    var fechaInicio: Option<int>
    var fechaFin: Option<int>
    var duracion: int
    var actividades: seq<Actividad>
    var asistencias: map<ClaveAsistencia, bool>

    /** The fields the time-control action reads and writes, as a value. */
    function Vista(): Timer.Seguimiento
      reads this
    {
      Timer.Seguimiento(estado, trabajadores, fechaInicio, fechaFin, duracion, actividades)
    }

    /** The record is consistent in the sense of `Timer.Consistente`, and the
        attendance records it holds are its own. */
    ghost predicate Valid()
      reads this
    {
      && Timer.Consistente(Vista())
      && forall k :: k in asistencias ==> k.seguimiento == id
    }

    /** A new record with the field defaults: PENDIENTE, zero duration, no
        dates, nobody assigned, no log, no attendance. */
    constructor (id: int)
      ensures this.id == id
      ensures Vista() == Timer.Nuevo() && asistencias == map[]
      ensures Valid()
    {
      this.id := id;
      estado := Pendiente;
      trabajadores := {};
      fechaInicio := None;
      fechaFin := None;
      duracion := 0;
      actividades := [];
      asistencias := map[];
      Timer.NuevoIsConsistente();
    }

    /** `controlar_tiempo`: `evento` is the event name as sent, `ahora` the
        instant the call reads the clock, `registrado` the instant the new log
        row is stamped with, `usuario` the caller. A refused call changes
        nothing; an accepted one makes exactly the change `Timer.Controlar`
        describes, and a consistent record stays consistent and never reaches
        the empty-log case. */
    method ControlarTiempo(evento: string, ahora: int, registrado: int, usuario: nat) returns (r: Outcome<Timer.Error>)
      modifies this
      ensures var c := Timer.Controlar(old(Vista()), evento, ahora, registrado, usuario);
              && (c.Success? ==> r == Pass && Vista() == c.value)
              && (c.Failure? ==> r == Fail(c.error) && Vista() == old(Vista()))
      ensures asistencias == old(asistencias)
      ensures old(Valid()) ==> Valid()
      ensures old(Valid()) ==> r != Fail(Timer.SinActividadPrevia)
    {
      ghost var antes := Vista();
      if Timer.Consistente(antes) && trabajadores != {} && Timer.EventoRecibido(evento).Some? {
        Timer.AcceptedIffTableAllows(antes, evento, ahora, registrado, usuario);
      }
      if trabajadores == {} {
        return Fail(Timer.SinTrabajadores);
      }
      var recibido := Timer.EventoRecibido(evento);
      if recibido.None? {
        return Fail(Timer.EventoNoValido);
      }
      var e := recibido.value;
      var ultima: Option<int> := if actividades == [] then None else Some(Timer.UltimaMarca(actividades));

      if e == Inicio {
        if estado != Pendiente {
          return Fail(Timer.YaIniciado);
        }
        estado := EnProgreso;
        fechaInicio := Some(ahora);
      } else if e == Pausa {
        if estado != EnProgreso {
          return Fail(Timer.NoEnProgreso);
        }
        if ultima.None? {
          return Fail(Timer.SinActividadPrevia);
        }
        duracion := duracion + Timer.SegundosEntre(ultima.value, ahora);
        estado := Pausado;
      } else if e == Reanudar {
        if estado != Pausado {
          return Fail(Timer.NoPausado);
        }
        estado := EnProgreso;
      } else {
        if estado != EnProgreso && estado != Pausado {
          return Fail(Timer.NoFinalizable);
        }
        if estado == EnProgreso {
          if ultima.None? {
            return Fail(Timer.SinActividadPrevia);
          }
          duracion := duracion + Timer.SegundosEntre(ultima.value, ahora);
        }
        estado := Finalizado;
        fechaFin := Some(ahora);
      }
      actividades := actividades + [Actividad(e, registrado, usuario)];
      if Timer.Consistente(antes) {
        Timer.ControlarPreservesConsistente(antes, evento, ahora, registrado, usuario);
      }
      return Pass;
    }

    /** `asignar_trabajadores`: a request whose id field is not a list is
        refused and changes nothing. Otherwise the assigned set becomes the
        requested workers that exist (`existentes`), replacing the previous
        one, and each of them gets an attendance record for day `hoy` marked
        present, created or overwritten. */
    method AsignarTrabajadores(peticion: Asignacion.Peticion, existentes: set<int>, hoy: int)
      returns (r: Outcome<Asignacion.Error>)
      modifies this`trabajadores, this`asistencias
      ensures peticion.OtraForma? ==>
                r == Fail(Asignacion.NoEsLista)
                && trabajadores == old(trabajadores) && asistencias == old(asistencias)
      ensures !peticion.OtraForma? ==>
                r == Pass
                && trabajadores == Asignacion.Filtrados(existentes, Asignacion.IdsPedidos(peticion))
                && asistencias == Asignacion.Registrar(old(asistencias), id, trabajadores, hoy)
      ensures old(Valid()) ==> Valid()
    {
      if peticion.OtraForma? {
        return Fail(Asignacion.NoEsLista);
      }
      var ws := Asignacion.Filtrados(existentes, Asignacion.IdsPedidos(peticion));
      trabajadores := ws;

      var pendientes := ws;
      Asignacion.RegistrarNobody(asistencias, id, hoy);
      assert ws - pendientes == {};
      while pendientes != {}
        invariant trabajadores == ws && pendientes <= ws
        invariant asistencias == Asignacion.Registrar(old(asistencias), id, ws - pendientes, hoy)
        decreases pendientes
      {
        Asignacion.NonEmptyHasMember(pendientes);
        var w :| w in pendientes;
        Asignacion.RegistrarOneMore(old(asistencias), id, ws - pendientes, w, hoy);
        asistencias := asistencias[ClaveAsistencia(id, w, hoy) := Asignacion.AsistioAlAsignar];
        assert (ws - pendientes) + {w} == ws - (pendientes - {w});
        pendientes := pendientes - {w};
      }
      assert ws - pendientes == ws;
      return Pass;
    }
  }
}

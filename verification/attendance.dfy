/** Worker assignment (`asignar_trabajadores` in core/views.py) as functions:
    which workers end up assigned, and how the attendance table changes. */
module Asignacion {
  import opened Models

  /** The `trabajadores_ids` field of a request: absent, a list, or a value
      of any other shape. */
  datatype Peticion = Ausente | Lista(ids: seq<int>) | OtraForma

  datatype Error = NoEsLista

  /** The attendance value the assignment writes explicitly in the upsert's
      defaults, whatever the field's own default. */
  const AsistioAlAsignar: bool := true

  /** The ids a well-formed request asks for; an absent field asks for none. */
  function IdsPedidos(p: Peticion): (r: seq<int>)
    requires !p.OtraForma?
    ensures forall w :: w in r <==> p.Lista? && w in p.ids
  {
    if p.Lista? then p.ids else []
  }

  /** The workers the id filter finds: the requested ids that exist. */
  function Filtrados(existentes: set<int>, ids: seq<int>): (r: set<int>)
    ensures forall w :: w in r <==> w in existentes && w in ids
  {
    set w | w in existentes && w in ids
  }

  /** Whether `k` is today's record of tracking `seg` for one of `ws`. */
  predicate EsDeHoy(k: ClaveAsistencia, seg: int, ws: set<int>, hoy: int)
  {
    k.seguimiento == seg && k.trabajador in ws && k.fecha == hoy
  }

  /** The attendance table after `update_or_create(seguimiento, trabajador,
      fecha=hoy, defaults={'asistio': True})` for every worker of `ws`. */
  function Registrar(m: map<ClaveAsistencia, bool>, seg: int, ws: set<int>, hoy: int): (r: map<ClaveAsistencia, bool>)
    ensures forall w :: w in ws ==> ClaveAsistencia(seg, w, hoy) in r && r[ClaveAsistencia(seg, w, hoy)]
    ensures forall k :: k in m && !EsDeHoy(k, seg, ws, hoy) ==> k in r && r[k] == m[k]
    ensures forall k :: k in r ==> k in m || EsDeHoy(k, seg, ws, hoy)
  {
    var nuevas := set w | w in ws :: ClaveAsistencia(seg, w, hoy);
    map k | k in m.Keys + nuevas :: if EsDeHoy(k, seg, ws, hoy) then AsistioAlAsignar else m[k]
  }

  /** Upserting one more worker is one more map update: the step of the loop
      over the assigned workers. */
  lemma RegistrarOneMore(m: map<ClaveAsistencia, bool>, seg: int, ws: set<int>, w: int, hoy: int)
    ensures Registrar(m, seg, ws + {w}, hoy) == Registrar(m, seg, ws, hoy)[ClaveAsistencia(seg, w, hoy) := true]
  {
    var a := Registrar(m, seg, ws + {w}, hoy);
    var b := Registrar(m, seg, ws, hoy)[ClaveAsistencia(seg, w, hoy) := true];
    assert a.Keys == b.Keys by {
      forall k | k in b ensures k in a {
        if k != ClaveAsistencia(seg, w, hoy) && !EsDeHoy(k, seg, ws, hoy) {
          assert k in m;
        }
      }
    }
  }

  /** Upserting is idempotent: assigning the same workers again on the same
      day leaves the attendance table as it is. */
  lemma RegistrarIdempotent(m: map<ClaveAsistencia, bool>, seg: int, ws: set<int>, hoy: int)
    ensures Registrar(Registrar(m, seg, ws, hoy), seg, ws, hoy) == Registrar(m, seg, ws, hoy)
  {
    var r := Registrar(m, seg, ws, hoy);
    var rr := Registrar(r, seg, ws, hoy);
    assert rr.Keys == r.Keys;
  }

  /** Assignment overwrites: the new set is exactly the requested ids that
      exist, whatever was assigned before; unknown ids are dropped. */
  lemma AssignmentOverwrites(antes: set<int>, existentes: set<int>, ids: seq<int>, w: int)
    ensures w in antes && w !in ids ==> w !in Filtrados(existentes, ids)
    ensures w in ids && w !in existentes ==> w !in Filtrados(existentes, ids)
    ensures w in ids && w in existentes ==> w in Filtrados(existentes, ids)
    ensures Filtrados(existentes, ids) <= existentes
  {
  }

  /** A non-empty set has a member (stated for choosing one with `:|`). */
  lemma NonEmptyHasMember(ws: set<int>)
    requires ws != {}
    ensures exists w :: w in ws
  {
    if forall w :: w !in ws {
      assert false;
    }
  }

  /** A map update adds at most one key. */
  lemma UpdateGrowsByAtMostOne(r: map<ClaveAsistencia, bool>, k: ClaveAsistencia)
    ensures |r| <= |r[k := true]| <= |r| + 1
  {
    if k in r {
      assert r[k := true].Keys == r.Keys;
    } else {
      assert r[k := true].Keys == r.Keys + {k};
    }
  }

  /** Assigning nobody leaves the table as it is. */
  lemma RegistrarNobody(m: map<ClaveAsistencia, bool>, seg: int, hoy: int)
    ensures Registrar(m, seg, {}, hoy) == m
  {
    assert Registrar(m, seg, {}, hoy).Keys == m.Keys;
  }

  /** Assignment never removes an attendance record, and the table gains at
      most one record per assigned worker. */
  lemma {:induction false} RegistrarGrowth(m: map<ClaveAsistencia, bool>, seg: int, ws: set<int>, hoy: int)
    ensures |m| <= |Registrar(m, seg, ws, hoy)| <= |m| + |ws|
    decreases ws
  {
    if ws == {} {
      RegistrarNobody(m, seg, hoy);
    } else {
      NonEmptyHasMember(ws);
      var w :| w in ws;
      var rest := ws - {w};
      assert rest + {w} == ws;
      RegistrarGrowth(m, seg, rest, hoy);
      RegistrarOneMore(m, seg, rest, w, hoy);
      UpdateGrowsByAtMostOne(Registrar(m, seg, rest, hoy), ClaveAsistencia(seg, w, hoy));
    }
  }
}

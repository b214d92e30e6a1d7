# Production tracking and cart actions, modelled in Dafny

This project models the core of a Django back end for a pharmaceutical
production line:

- the stopwatch of a production-tracking record (`controlar_tiempo`);
- the assignment of workers to a record, with daily attendance (`asignar_trabajadores`);
- the shopping-cart actions that turn a cart into an order (`agregar_item`,
  `actualizar_item`, `eliminar_item`, `procesar_pedido`, with `get_cart`);
- the model declarations these rely on: the choice enumerations, field
  defaults, the attendance key, order-code generation and sub-process ordering.

Modules:

- `Models` (models.dfy): the declarations of core/models.py. It holds the two
  state/event enumerations and their stored values. It holds the field defaults
  (`asistio` true, `ItemOrden.cantidad` 1) and the attendance key triple. It holds the
  order code "ORD-" plus eight upper-case hex digits, with a decoder and a
  round-trip proof, and the `Orden` class with `save`. It holds the
  lexicographic ordering of sub-processes.
- `Timer` (timer.dfy): `controlar_tiempo` as a function of a tracking
  record's fields.
  - `Controlar` checks for an assigned worker first, then the event name
    (upper-cased, then looked up), then the state.
  - `Aplicar` is the per-event effect. `Efectuar` appends the log row.
  - Lemmas relate it to a transition table (`Transicion`) and to an
    invariant of the record and its log (`Consistente`). They cover
    sequences of calls (`Ejecutar`), duration monotonicity and worked
    examples.
- `Asignacion` (attendance.dfy): which workers end up assigned, and the
  attendance table after the upserts (`Registrar`), as functions. The
  upsert writes `asistio` true explicitly (`AsistioAlAsignar`); it does not
  rely on the field default.
- `Tracking` (tracking.dfy): the class `SeguimientoProduccion`, whose methods
  `ControlarTiempo` and `AsignarTrabajadores` update its fields in place.
  They are proved against `Timer.Controlar` and `Asignacion.Registrar`. The
  assignment method upserts one worker per loop iteration under a loop
  invariant.
- `Carrito` (cart.dfy): each cart action is a method on an `Orden`, proved
  against a function on the cart lines (`PedirAgregar`, `PedirActualizar`,
  `PedirEliminar`). Lemmas about those functions state what the actions do.
  The quantity `agregar_item` reads when the request names none
  (`CantidadPedida`, 1) is a default of its own, distinct from the field
  default a line created by `get_or_create` starts with.

Instants are integers counting microseconds, the resolution of the stored
timestamps. Elapsed seconds are `int(total_seconds())`, which truncates
toward zero rather than flooring; the two differ for a negative interval
(`Timer.SegundosEntre`). Intervals are measured with the wall clock, which
can go back, so the accumulated duration can drop:
`Timer.DurationNeverDecreases` proves it never decreases under a clock that
never goes back, and `Timer.ClockSetBackShrinksDuration` shows the drop
when the clock is set back.

Inputs that come from outside are parameters:

- the instants read from the clock (`ahora` for `datetime.now`, `registrado`
  for the log row's `auto_now_add` stamp, `hoy` for today's date);
- the random bits of `uuid4` (`aleatorio`);
- the set of existing workers or products;
- the request fields.

## Model

| member | source | states |
|---|---|---|
| Models.EventoDeValor | core/models.py:158-162 | a name is mapped to an event exactly when it is that event's stored value; otherwise no event has that value |
| Models.ChoicesAreFourDistinctValues | core/models.py:125-129 | each enumeration has four members with distinct stored values, and looking up an event's stored value gives the event back |
| Models.HexRoundTrip | core/models.py:68 | reading back the k hex digits written for n < 16^k gives n |
| Models.CodigoOrden | core/models.py:65-69 | the generated code is 12 characters long, is "ORD-" followed by eight upper-case hex digits, and those digits spell the random value |
| Models.CodigoOrdenInjective | core/models.py:68 | distinct random values give distinct order codes |
| Models.Orden.constructor | core/models.py:59-63 | a new order has no code, state CARRITO, no batch and no lines |
| Models.Orden.Save | core/models.py:65-69 | a code is generated only when the order has none; an existing code is kept; afterwards the order always has a code |
| Models.Precede | core/models.py:114-115 | the stage's sequence number dominates: a sub-process of an earlier stage always sorts first, and none sorts before one of an earlier stage |
| Models.PrecedeIsTotalOrder | core/models.py:114-115 | the sub-process ordering is a total order that sorts by stage first, then process, then the sub-process's own position, each in ascending order |
| Timer.Upper | core/views.py:208 | upper-casing never shortens a name and at most triples its length (a full upper-case mapping has at most three characters) |
| Timer.UpperAppend | core/views.py:208 | upper-casing works piece by piece: the upper case of a concatenation is the concatenation of the upper cases |
| Timer.UpperOfAsciiLetters | core/views.py:208 | on a name of ASCII letters, upper-casing keeps the length and capitalises each letter in place |
| Timer.EventoRecibido | core/views.py:208-214 | a name is read as an event exactly when its upper-cased form is that event's stored value; a name whose upper case is no event's value is read as none |
| Timer.UpperIdempotent | core/views.py:208 | upper-casing an already upper-cased name changes nothing |
| Timer.NamesReadCaseInsensitively | core/views.py:208-214 | any ASCII spelling that upper-cases to an event's value names that event |
| Timer.EventNameAccepted | core/views.py:213 | every event is accepted under its own stored value |
| Timer.MixedCaseNamesAccepted | core/views.py:208 | "Pausa" names PAUSA and "fIN" names FIN |
| Timer.OtherNamesRefused | core/views.py:213-214 | the empty name (the default when the field is absent) and "start" name no event |
| Timer.LigatureNamesFin | core/views.py:208 | the full Unicode upper-case mapping is used: the ligature "ﬁ" followed by "n" names FIN |
| Timer.SegundosEntre | core/views.py:228-229 | elapsed whole seconds truncated toward zero, bounded from both sides for either sign of the interval |
| Timer.UltimaMarca | core/views.py:217 | the latest log entry's timestamp occurs in the log and no entry is later |
| Timer.LatestOfOrderedLogIsLast | core/views.py:217 | when the log was written by a clock that never goes back, the latest entry is the last one appended |
| Timer.Nuevo | core/models.py:133-137 | a new record is PENDIENTE, has duration 0, no dates, no workers and an empty log |
| Timer.NuevoIsConsistente | core/models.py:133-137 | a new record satisfies the record/log invariant |
| Timer.Aplicar | core/views.py:219-244 | an event the transition table forbids from the current state is refused; an accepted one moves to the state the table gives, leaves the workers and the log alone, and changes the duration only when it closes a running interval |
| Timer.Efectuar | core/views.py:219-246 | an event the table forbids is refused; an accepted one moves to the table's state, appends exactly its log row (event, stamp, user) and leaves the workers alone |
| Timer.Controlar | core/views.py:205-249 | an accepted call had workers and a valid event name, moved to the state the table gives for that event, appended exactly one log row (the event read, the stamp, the user) after the old rows and left the workers alone; the refusal order and the converse are `Timer.RejectionOrder` and `Timer.AcceptedIffTableAllows` |
| Timer.RejectionOrder | core/views.py:210-239 | no worker is refused before anything else; then an unknown name is refused; then an event the table forbids from the current state is refused with that event's own error: already started for INICIO, not in progress for PAUSA, not paused for REANUDAR, not finishable for FIN |
| Timer.AcceptedCall | core/views.py:219-246 | an accepted call follows the transition table and appends exactly one log row (event, stamp, user). It adds the elapsed time only when it closes a running interval. It sets the start date on INICIO and the end date on FIN, and leaves the workers alone |
| Timer.AcceptedIffTableAllows | core/views.py:219-244 | on a consistent record with workers and a valid name, a call is accepted iff the table allows the event; the missing-last-entry crash never happens |
| Timer.ControlarPreservesConsistente | core/views.py:219-247 | the invariant holds after every call. It says: PENDIENTE iff empty log; start date iff started; end date iff FINALIZADO; the log opens with the only INICIO, only its last row may be FIN, and the last row determines the state |
| Timer.SecondStartRejected | core/views.py:219-223 | INICIO does not change the duration, and a second INICIO is refused as already started |
| Timer.FinishedIsTerminal | core/views.py:219-239 | every call on a FINALIZADO record is refused |
| Timer.ControlarMonotone | core/views.py:225-246 | with a clock not earlier than the log, a call never decreases the duration and keeps the log in timestamp order |
| Timer.InicioStep | core/views.py:219-223 | INICIO from PENDIENTE: EN_PROGRESO, start date now, INICIO row appended (a helper that unfolds one branch, used by the worked examples) |
| Timer.PausaStep | core/views.py:225-230 | PAUSA from EN_PROGRESO: PAUSADO, duration plus whole seconds since the latest row, PAUSA row appended (a helper that unfolds one branch, used by the worked examples) |
| Timer.ReanudarStep | core/views.py:232-235 | REANUDAR from PAUSADO: EN_PROGRESO, duration unchanged, REANUDAR row appended (a helper that unfolds one branch, used by the worked examples) |
| Timer.FinStep | core/views.py:237-244 | FIN from EN_PROGRESO: FINALIZADO, end date now, duration plus whole seconds since the latest row, FIN row appended (a helper that unfolds one branch, used by the worked examples) |
| Timer.LogCountsAcceptedCalls | core/views.py:246 | over any sequence of calls, the log grows by one row per accepted call and keeps what was logged; the workers are unchanged |
| Timer.EjecutarPreservesConsistente | core/views.py:205-249 | any sequence of calls keeps a consistent record consistent |
| Timer.DurationNeverDecreases | core/views.py:225-242 | with a clock that never goes back, the duration never decreases over any sequence of calls and the log stays in timestamp order |
| Timer.StartPauseResumeFinish | core/views.py:219-244 | INICIO, PAUSA, REANUDAR, FIN: finished, dates at the INICIO and FIN instants, duration the sum of the two running intervals, each truncated, four rows in order |
| Timer.IntervalsTruncatedSeparately | core/views.py:228-229 | two running intervals of 1.5 s add 2 s, not 3 |
| Timer.ClockSetBackShrinksDuration | core/views.py:216-229 | with the clock set back 3 s between INICIO and PAUSA the duration becomes -3 |
| Asignacion.IdsPedidos | core/views.py:187-189 | a worker is requested exactly when its id is in the list sent; an absent field requests nobody |
| Asignacion.Filtrados | core/views.py:192 | a worker is selected iff it exists and its id was requested |
| Asignacion.Registrar | core/views.py:195-199 | every assigned worker has today's record for this tracking record, marked present; every other record is kept with its value; no other record appears |
| Asignacion.RegistrarOneMore | core/views.py:195-199 | upserting the workers one at a time gives the same table as upserting them together, in any order |
| Asignacion.RegistrarIdempotent | core/views.py:195-199 | assigning the same workers again on the same day leaves the table as it is |
| Asignacion.AssignmentOverwrites | core/views.py:192-193 | the new assignment replaces the old one: earlier workers not requested are dropped, unknown ids are ignored, requested existing workers are assigned |
| Asignacion.NonEmptyHasMember | core/views.py:195 | a proof helper with no content about the system: a non-empty set has a member, so the attendance loop can pick the next worker |
| Asignacion.RegistrarGrowth | core/models.py:149-150 | with one record per (record, worker, day), assignment removes no record and adds at most one per assigned worker |
| Tracking.SeguimientoProduccion.constructor | core/models.py:133-137 | a new record has the field defaults and satisfies the invariant |
| Tracking.SeguimientoProduccion.ControlarTiempo | core/views.py:205-249 | a refused call changes nothing and returns the error; an accepted one makes exactly `Timer.Controlar`'s change. Attendance is untouched, the invariant is preserved, and on a record that satisfies it the empty-log case never arises |
| Tracking.SeguimientoProduccion.AsignarTrabajadores | core/views.py:184-201 | a non-list request is refused and changes nothing. Otherwise the workers become exactly `Filtrados` and the attendance table becomes `Registrar` of the old one; the invariant is preserved |
| Carrito.Agregar | core/views.py:99-104 | the product's line exists afterwards and grows by n (a new line holds n); no other line changes |
| Carrito.LoteAsignado | core/views.py:144 | the requested batch if one is given; otherwise "LOTE-" followed by the order code |
| Carrito.PedirAgregar | core/views.py:90-104 | an accepted add names an existing product; the lines gain at most that product's line, its quantity strictly grows and no other line changes (the refusals are `Carrito.AgregarRefusals`) |
| Carrito.PedirActualizar | core/views.py:113-122 | refused exactly when the item is not in the cart; otherwise no line is added, every other line keeps its quantity, and the item stays exactly when a positive quantity was sent |
| Carrito.PedirEliminar | core/views.py:128-133 | refused exactly when the item is not in the cart; otherwise exactly that line goes and every other line keeps its quantity |
| Carrito.AgregarRefusals | core/views.py:90-97 | adding is refused iff the product id is missing or zero, the quantity is not positive, or the product does not exist; bad data is refused as invalid first, and well-formed data naming a missing product is refused as a missing product |
| Carrito.AgregarAddsRequestedQuantity | core/views.py:91-104 | an accepted add raises the product's quantity by the requested amount (1 by default) and no other |
| Carrito.AgregarTwiceAddsSum | core/views.py:99-104 | adding a then b units of a product equals adding a + b once |
| Carrito.UpdateToNonPositiveDeletes | core/views.py:113-122 | updating to a quantity that is not positive, or to none (default 0), is deleting the item |
| Carrito.UpdateSetsQuantity | core/views.py:113-122 | an item not in the cart is refused by update and delete; a positive update sets the quantity, keeps the set of lines, and changes no other line |
| Carrito.DeleteRemovesOneLine | core/views.py:128-133 | deleting an item removes exactly that line |
| Carrito.DeleteUndoesNewLine | core/views.py:99-133 | deleting a line an add has just created restores the cart |
| Carrito.RequestsKeepQuantitiesPositive | core/models.py:78 | every accepted cart request keeps all quantities positive |
| Carrito.DefaultBatchNamesOrder | core/views.py:144 | distinct order codes give distinct default batches |
| Carrito.ObtenerCarrito | core/views.py:73-76 | the user's open cart, or a fresh saved order in state CARRITO with a generated code and no lines |
| Carrito.AgregarItem | core/views.py:88-107 | the cart lines become `PedirAgregar`'s result, or stay as they were with its error; a new line is created at the field default and then set to the requested quantity |
| Carrito.ActualizarItem | core/views.py:111-124 | the cart lines become `PedirActualizar`'s result, or stay as they were with its error |
| Carrito.EliminarItem | core/views.py:128-133 | the cart lines become `PedirEliminar`'s result, or stay as they were with its error |
| Carrito.ProcesarPedido | core/views.py:137-148 | on the user's open cart (state CARRITO, as `get_cart` gives it): an empty cart is refused and left unchanged. Otherwise the order goes from CARRITO to PROCESADA with the requested or default batch (made from the pre-save code), its code is kept or generated, and its lines are untouched |

## Left out

- Tracking.SeguimientoProduccion.AsignarTrabajadores: the code reads today's date once per worker, inside the loop (core/views.py:195-197); the model reads it once, as `hoy`, so it assumes the loop does not run across midnight. A loop that does would give the later workers the next day's record, which `Asignacion.Registrar` does not describe.
- Asignacion.Registrar: describes the upserts for a single date `hoy`, under the same assumption.
- Timer.DurationNeverDecreases: requires a clock that never goes back, because the code measures elapsed time with the wall clock (see `Timer.ClockSetBackShrinksDuration`).
- Timer.ControlarPreservesConsistente: the invariant holds only for records changed through these actions. The generic CRUD endpoints of `SeguimientoProduccionViewSet` can write the state, dates and duration directly, and are not part of this model.
- The HTTP layer is not modelled: authentication, serializers, response bodies and status codes, `get_object` / `get_object_or_404` on the tracking record. The model keeps only which outcome (accepted, or which refusal) a request has.
- Request parsing is not modelled. Python errors escape as server errors for:
  - `int()` on a non-numeric `cantidad`;
  - a non-string `evento` (no `upper()`);
  - a non-numeric string `producto_id`, which raises in the product lookup (core/views.py:97);
  - a non-numeric entry of `trabajadores_ids`, which raises in the id filter (core/views.py:192) before anything changes;
  - a non-numeric item `pk`, which raises in the item lookup (core/views.py:115 and 131).
- A string `producto_id` is not modelled; the model takes an optional integer. A numeric string such as "5" is looked up as that product. The string "0" is truthy, so it passes the data check at core/views.py:93, creates the cart and is refused by the product lookup, whereas the model refuses a zero id as `DatosInvalidos` before any cart is obtained.
- A JSON `null` batch in `procesar_pedido` would be stored as null; the model's batch parameter is absent or a string.
- The empty-log crash of PAUSA / FIN (`None.timestamp`) is the refusal `SinActividadPrevia`. The code raises an exception there. `Timer.AcceptedIffTableAllows` proves it cannot happen on a consistent record.
- `total_seconds()` works in floating point. Its rounding before `int()` matters only for intervals far beyond realistic magnitudes and is not modelled.
- Field widths are not modelled: the 64-bit limit of `duracion_total_segundos`, the upper bound of `PositiveIntegerField` quantities, and the 20/50-character limits of codes and batches.
- A collision between generated order codes violates the unique constraint and is an integrity error in the database; the model takes the random bits as a parameter and does not model the constraint failure.
- Concurrency and transactions are not modelled: two requests on the same record or cart can interleave, and a failure midway through the attendance loop leaves earlier upserts in place.
- The attendance loop visits workers in queryset order. The model picks them in an arbitrary order, and `Asignacion.RegistrarOneMore` shows the result does not depend on it.
- Cart items are identified by their product. `get_or_create(orden, producto)` keeps one item per product, so the item primary key of `actualizar_item` / `eliminar_item` is modelled as the product id. Several items for the same product, which would make `get_or_create` fail, are not modelled.
- `get_cart` runs inside each cart action and may create an empty cart even when the request is then refused. The model obtains the cart separately (`Carrito.ObtenerCarrito`), so that side effect is not tied to refused requests.
- `str.upper()` is modelled for ASCII letters and for the characters whose full upper-case mapping consists of ASCII letters (ß, ı, ſ and the Latin ligatures ﬀ–ﬆ). Every other character is left as it is. Such characters can never produce an event name, whatever their real mapping.
- Deletion behaviour (CASCADE, PROTECT, SET_NULL of the log's user) is not modelled, nor the read-only views `ver_carrito`, `OrdenViewSet` and `FlujoProduccionViewSet`, nor the CRUD catalogue viewsets. The admin, URL routing and serializers are also left out.

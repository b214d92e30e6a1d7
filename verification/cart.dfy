/** The cart actions of `CarritoViewSet` in core/views.py. The lines of a
    cart are a map from product id to quantity: `get_or_create(orden=cart,
    producto=producto)` keeps at most one line per product, so an item of a
    cart is identified by its product. Each action is a method on the cart
    object, proved against a function that says what the request does to the
    lines; the properties of the actions are lemmas about those functions. */
module Carrito {
  import opened Models

  /** Quantity `agregar_item` adds when the request names none. */
  const CantidadPedida: int := 1

  datatype Error =
    | DatosInvalidos    // no product id, or a quantity that is not positive
    | ProductoNoExiste  // no product with that id
    | ItemNoExiste      // the cart has no such item
    | CarritoVacio      // the cart to process has no items

  /** The quantity of product `p` in the lines, zero when there is no line. */
  function Cantidad(m: map<int, int>, p: int): int
  {
    if p in m then m[p] else 0
  }

  /** Every line holds a positive quantity, as `PositiveIntegerField` and the
      actions below keep it. */
  ghost predicate Positivas(m: map<int, int>)
  {
    forall p :: p in m ==> m[p] > 0
  }

  /** Adding `n` units of `p`: the existing line grows by `n`, or a new line
      of `n` units is created; no other line changes. */
  function Agregar(m: map<int, int>, p: int, n: int): (r: map<int, int>)
    ensures r.Keys == m.Keys + {p}
    ensures Cantidad(r, p) == Cantidad(m, p) + n
    ensures forall q :: q != p && q in m ==> r[q] == m[q]
  {
    if p in m then m[p := m[p] + n] else m[p := n]
  }

  // ---------------------------------------------------------------------
  // What each request does to the lines

  /** `agregar_item`: the quantity defaults to 1; a missing or zero product
      id or a quantity that is not positive is refused before the product is
      looked up among `productos`. */
  function PedirAgregar(m: map<int, int>, productoId: Option<int>, cantidad: Option<int>, productos: set<int>)
    : (r: Result<map<int, int>, Error>)
    ensures r.Success? ==> productoId.Some? && productoId.value in productos
    ensures r.Success? ==> r.value.Keys == m.Keys + {productoId.value}
    ensures r.Success? ==> Cantidad(r.value, productoId.value) > Cantidad(m, productoId.value)
    ensures r.Success? ==> forall q :: q in m && q != productoId.value ==> r.value[q] == m[q]
  {
    var n := if cantidad.Some? then cantidad.value else CantidadPedida;
    if productoId.None? || productoId.value == 0 || n <= 0 then Failure(DatosInvalidos)
    else if productoId.value !in productos then Failure(ProductoNoExiste)
    else Success(Agregar(m, productoId.value, n))
  }

  /** `actualizar_item`: the quantity defaults to 0; a positive quantity
      replaces the line's, anything else deletes the line. */
  function PedirActualizar(m: map<int, int>, item: int, cantidad: Option<int>): (r: Result<map<int, int>, Error>)
    ensures r.Failure? <==> item !in m
    ensures r.Failure? ==> r.error == ItemNoExiste
    ensures r.Success? ==> r.value.Keys <= m.Keys && forall q :: q in m && q != item ==> q in r.value && r.value[q] == m[q]
    ensures r.Success? ==> (item in r.value <==> cantidad.Some? && cantidad.value > 0)
  {
    var n := if cantidad.Some? then cantidad.value else 0;
    if item !in m then Failure(ItemNoExiste)
    else if n > 0 then Success(m[item := n])
    else Success(m - {item})
  }

  /** `eliminar_item`. */
  function PedirEliminar(m: map<int, int>, item: int): (r: Result<map<int, int>, Error>)
    ensures r.Failure? <==> item !in m
    ensures r.Failure? ==> r.error == ItemNoExiste
    ensures r.Success? ==> r.value.Keys == m.Keys - {item}
    ensures r.Success? ==> forall q :: q in r.value ==> r.value[q] == m[q]
  {
    if item !in m then Failure(ItemNoExiste) else Success(m - {item})
  }

  /** The batch a processed order is given: the one the request names, or
      "LOTE-" followed by the order code. */
  function LoteAsignado(lote: Option<string>, codigo: string): (r: string)
    ensures lote.Some? ==> r == lote.value
    ensures lote.None? ==> |r| == 5 + |codigo| && r[..5] == "LOTE-" && r[5..] == codigo
  {
    if lote.Some? then lote.value else "LOTE-" + codigo
  }

  // ---------------------------------------------------------------------
  // Properties of the requests

  /** Adding is refused exactly when the product id is missing or zero, the
      quantity is not positive, or the product does not exist; the data
      check comes first, and only well-formed data reaches the product
      lookup, whose refusal is its own. */
  lemma AgregarRefusals(m: map<int, int>, productoId: Option<int>, cantidad: Option<int>, productos: set<int>)
    ensures PedirAgregar(m, productoId, cantidad, productos).Failure? <==>
              productoId.None? || productoId.value == 0
              || (cantidad.Some? && cantidad.value <= 0)
              || productoId.value !in productos
    ensures (productoId.None? || productoId.value == 0 || (cantidad.Some? && cantidad.value <= 0)) ==>
              PedirAgregar(m, productoId, cantidad, productos) == Failure(DatosInvalidos)
    ensures productoId.Some? && productoId.value != 0 && (cantidad.None? || cantidad.value > 0)
            && productoId.value !in productos ==>
              PedirAgregar(m, productoId, cantidad, productos) == Failure(ProductoNoExiste)
  {
  }

  /** An accepted add puts exactly the requested quantity (one by default)
      on top of what the cart held of that product, and leaves every other
      product's quantity as it was. */
  lemma AgregarAddsRequestedQuantity(m: map<int, int>, p: int, cantidad: Option<int>, productos: set<int>, q: int)
    requires PedirAgregar(m, Some(p), cantidad, productos).Success?
    ensures var r := PedirAgregar(m, Some(p), cantidad, productos).value;
            && Cantidad(r, p) == Cantidad(m, p) + (if cantidad.Some? then cantidad.value else 1)
            && (q != p ==> Cantidad(r, q) == Cantidad(m, q))
  {
  }

  /** Adding the same product twice is adding the sum once. */
  lemma AgregarTwiceAddsSum(m: map<int, int>, p: int, a: int, b: int, productos: set<int>)
    requires PedirAgregar(m, Some(p), Some(a), productos).Success?
    requires b > 0
    ensures var r1 := PedirAgregar(m, Some(p), Some(a), productos).value;
            PedirAgregar(r1, Some(p), Some(b), productos) == PedirAgregar(m, Some(p), Some(a + b), productos)
  {
    var r1 := Agregar(m, p, a);
    assert Agregar(r1, p, b) == Agregar(m, p, a + b) by {
      assert Agregar(r1, p, b).Keys == Agregar(m, p, a + b).Keys;
    }
  }

  /** Updating to a quantity that is not positive, or to none, is deleting. */
  lemma UpdateToNonPositiveDeletes(m: map<int, int>, item: int, cantidad: Option<int>)
    requires cantidad.None? || cantidad.value <= 0
    ensures PedirActualizar(m, item, cantidad) == PedirEliminar(m, item)
  {
  }

  /** Updating or deleting an item the cart does not hold is refused; a
      positive update sets the quantity and keeps every other line. */
  lemma UpdateSetsQuantity(m: map<int, int>, item: int, n: int, q: int)
    ensures item !in m ==> PedirActualizar(m, item, Some(n)) == Failure(ItemNoExiste)
                           && PedirEliminar(m, item) == Failure(ItemNoExiste)
    ensures item in m && n > 0 ==>
              PedirActualizar(m, item, Some(n)).Success?
              && Cantidad(PedirActualizar(m, item, Some(n)).value, item) == n
              && PedirActualizar(m, item, Some(n)).value.Keys == m.Keys
    ensures item in m && q != item ==>
              Cantidad(PedirActualizar(m, item, Some(n)).value, q) == Cantidad(m, q)
  {
  }

  /** Deleting a line removes that product and only that product. */
  lemma DeleteRemovesOneLine(m: map<int, int>, item: int)
    requires item in m
    ensures PedirEliminar(m, item).Success?
    ensures PedirEliminar(m, item).value.Keys == m.Keys - {item}
    ensures |PedirEliminar(m, item).value| == |m| - 1
  {
  }

  /** Deleting a line that an add has just created gives back the cart as it
      was before the add. */
  lemma DeleteUndoesNewLine(m: map<int, int>, p: int, cantidad: Option<int>, productos: set<int>)
    requires p !in m
    requires PedirAgregar(m, Some(p), cantidad, productos).Success?
    ensures PedirEliminar(PedirAgregar(m, Some(p), cantidad, productos).value, p) == Success(m)
  {
    var r := PedirAgregar(m, Some(p), cantidad, productos).value;
    assert (r - {p}).Keys == m.Keys;
    assert r - {p} == m;
  }

  /** Every accepted request keeps every quantity positive. */
  lemma RequestsKeepQuantitiesPositive(m: map<int, int>, p: int, cantidad: Option<int>, productos: set<int>)
    requires Positivas(m)
    ensures var r := PedirAgregar(m, Some(p), cantidad, productos); r.Success? ==> Positivas(r.value)
    ensures var r := PedirActualizar(m, p, cantidad); r.Success? ==> Positivas(r.value)
    ensures var r := PedirEliminar(m, p); r.Success? ==> Positivas(r.value)
  {
  }

  /** Distinct order codes give distinct default batches, so the default
      batch of an order names the order. */
  lemma DefaultBatchNamesOrder(a: string, b: string)
    requires LoteAsignado(None, a) == LoteAsignado(None, b)
    ensures a == b
  {
    assert a == LoteAsignado(None, a)[5..];
  }

  // ---------------------------------------------------------------------
  // The actions on a cart object

  /** `get_cart`: the user's open cart if there is one, otherwise a new order
      in state CARRITO, saved, so with a generated code. */
  method ObtenerCarrito(existente: Option<Orden>, aleatorio: nat) returns (cart: Orden)
    requires existente.Some? ==> existente.value.estado == Carrito
    requires aleatorio < RangoAleatorio
    ensures existente.Some? ==> cart == existente.value
    ensures existente.None? ==> fresh(cart) && cart.codigo == CodigoOrden(aleatorio)
                                && cart.lineas == map[] && cart.lote == None
    ensures cart.estado == Carrito
  {
    if existente.Some? {
      cart := existente.value;
    } else {
      cart := new Orden();
      cart.Save(aleatorio);
    }
  }

  /** `agregar_item`: a refused request leaves the cart as it was. */
  method AgregarItem(cart: Orden, productoId: Option<int>, cantidad: Option<int>, productos: set<int>)
    returns (r: Outcome<Error>)
    modifies cart`lineas
    ensures var p := PedirAgregar(old(cart.lineas), productoId, cantidad, productos);
            && (p.Success? ==> r == Pass && cart.lineas == p.value)
            && (p.Failure? ==> r == Fail(p.error) && cart.lineas == old(cart.lineas))
  {
    var n := if cantidad.Some? then cantidad.value else CantidadPedida;
    if productoId.None? || productoId.value == 0 || n <= 0 {
      return Fail(DatosInvalidos);
    }
    var producto := productoId.value;
    if producto !in productos {
      return Fail(ProductoNoExiste);
    }
    // get_or_create: a new line starts at the field default, and is then
    // set to the requested quantity
    var created := producto !in cart.lineas;
    if created {
      cart.lineas := cart.lineas[producto := CantidadPorDefecto];
    }
    if !created {
      cart.lineas := cart.lineas[producto := cart.lineas[producto] + n];
    } else {
      cart.lineas := cart.lineas[producto := n];
    }
    return Pass;
  }

  /** `actualizar_item`, the item named by its product. */
  method ActualizarItem(cart: Orden, item: int, cantidad: Option<int>) returns (r: Outcome<Error>)
    modifies cart`lineas
    ensures var p := PedirActualizar(old(cart.lineas), item, cantidad);
            && (p.Success? ==> r == Pass && cart.lineas == p.value)
            && (p.Failure? ==> r == Fail(p.error) && cart.lineas == old(cart.lineas))
  {
    var n := if cantidad.Some? then cantidad.value else 0;
    if item !in cart.lineas {
      return Fail(ItemNoExiste);
    }
    if n > 0 {
      cart.lineas := cart.lineas[item := n];
    } else {
      cart.lineas := cart.lineas - {item};
    }
    return Pass;
  }

  /** `eliminar_item`, the item named by its product. */
  method EliminarItem(cart: Orden, item: int) returns (r: Outcome<Error>)
    modifies cart`lineas
    ensures var p := PedirEliminar(old(cart.lineas), item);
            && (p.Success? ==> r == Pass && cart.lineas == p.value)
            && (p.Failure? ==> r == Fail(p.error) && cart.lineas == old(cart.lineas))
  {
    if item !in cart.lineas {
      return Fail(ItemNoExiste);
    }
    cart.lineas := cart.lineas - {item};
    return Pass;
  }

  /** `procesar_pedido`: an empty cart is refused and left as it was.
      Otherwise the order becomes PROCESADA with the requested batch or the
      default one, made from the code the order had before it is saved;
      saving keeps an existing code. The lines are never touched. */
  method ProcesarPedido(cart: Orden, lote: Option<string>, aleatorio: nat) returns (r: Outcome<Error>)
    requires aleatorio < RangoAleatorio
    requires cart.estado == Carrito
    modifies cart`estado, cart`lote, cart`codigo
    ensures old(cart.lineas) == map[] ==>
              r == Fail(CarritoVacio)
              && cart.estado == old(cart.estado) && cart.lote == old(cart.lote) && cart.codigo == old(cart.codigo)
    ensures old(cart.lineas) != map[] ==>
              r == Pass && cart.estado == Procesada
              && cart.lote == Some(LoteAsignado(lote, old(cart.codigo)))
              && (old(cart.codigo) != "" ==> cart.codigo == old(cart.codigo))
              && (old(cart.codigo) == "" ==> cart.codigo == CodigoOrden(aleatorio))
  {
    if cart.lineas == map[] {
      return Fail(CarritoVacio);
    }
    cart.estado := Procesada;
    cart.lote := Some(LoteAsignado(lote, cart.codigo));
    cart.Save(aleatorio);
    return Pass;
  }
}

/**
 * What the three route handlers promise about the tables: the effect of each one,
 * the invariant all of them keep, and how the listing reflects the other two.
 */
module OrderProperties {
  import opened OrderTables

  /** A create request is rejected exactly when `productos` is missing or empty, and then nothing changes. */
  lemma CreateRejected(t: Tables, productos: Option<seq<Producto>>)
    ensures Create(t, productos).1 == NoProductos <==> productos.None? || productos.value == []
    ensures Create(t, productos).1 == NoProductos ==> Create(t, productos).0 == t
  {
  }

  /**
   * An accepted create request inserts one `pendiente` order under a fresh id, larger than
   * every id handed out before, reports that id, and appends one line item per product,
   * in order, carrying the order id and the product's name and price.
   */
  lemma CreateAccepted(t: Tables, ps: seq<Producto>)
    requires Consistent(t)
    requires ps != []
    ensures var (t', r) := Create(t, Some(ps));
      && r == Created(t.seqPedidos + 1)
      && (forall i :: 0 <= i < |t.pedidos| ==> t.pedidos[i].id < r.pedidoId)
      && t'.pedidos == t.pedidos + [Pedido(r.pedidoId, PENDIENTE)]
      && |t'.productosPedido| == |t.productosPedido| + |ps|
      && t'.productosPedido[..|t.productosPedido|] == t.productosPedido
      && (forall k :: 0 <= k < |ps| ==>
            t'.productosPedido[|t.productosPedido| + k].pedidoId == r.pedidoId &&
            t'.productosPedido[|t.productosPedido| + k].nombreProducto == ps[k].nombre &&
            t'.productosPedido[|t.productosPedido| + k].precio == ps[k].precio)
      && (forall j, k :: 0 <= j < |t.productosPedido| <= k < |t'.productosPedido| ==>
            t.productosPedido[j].id < t'.productosPedido[k].id)
  {
  }

  /** The line items of an accepted create reference existing orders, old and new. */
  lemma CreateKeepsReferences(t: Tables, ps: seq<Producto>)
    requires ItemsReferencePedidos(t)
    requires ps != []
    ensures ItemsReferencePedidos(Create(t, Some(ps)).0)
  {
    var t' := Create(t, Some(ps)).0;
    var id := t.seqPedidos + 1;
    var n := |t.productosPedido|;
    assert t'.pedidos[|t.pedidos|].id == id;
    forall k | 0 <= k < |t'.productosPedido|
      ensures HasPedido(t'.pedidos, t'.productosPedido[k].pedidoId)
    {
      if k < n {
        assert HasPedido(t.pedidos, t.productosPedido[k].pedidoId);
        var i :| 0 <= i < |t.pedidos| && t.pedidos[i].id == t.productosPedido[k].pedidoId;
        assert t'.pedidos[i] == t.pedidos[i];
      } else {
        assert t'.productosPedido[k] == LineItems(id, t.seqProductos + 1, ps)[k - n];
      }
    }
  }

  /** After an accepted create every order, old and new, still owns a line item. */
  lemma CreateKeepsItemsPerPedido(t: Tables, ps: seq<Producto>)
    requires PedidosHaveItems(t)
    requires ps != []
    ensures PedidosHaveItems(Create(t, Some(ps)).0)
  {
    var t' := Create(t, Some(ps)).0;
    var n := |t.productosPedido|;
    forall i | 0 <= i < |t'.pedidos|
      ensures HasItem(t'.productosPedido, t'.pedidos[i].id)
    {
      if i < |t.pedidos| {
        assert HasItem(t.productosPedido, t.pedidos[i].id);
        var k :| 0 <= k < n && t.productosPedido[k].pedidoId == t.pedidos[i].id;
        assert t'.productosPedido[k] == t.productosPedido[k];
      } else {
        assert t'.productosPedido[n] == LineItems(t.seqPedidos + 1, t.seqProductos + 1, ps)[0];
      }
    }
  }

  /** Line items numbered from the counter onwards keep the item ids unique, increasing and allocated. */
  lemma AppendLineItemsKeepsIds(items: seq<ProductoPedido>, last: nat, pedidoId: nat, ps: seq<Producto>)
    requires ItemIdsAllocated(items, last)
    ensures ItemIdsAllocated(items + LineItems(pedidoId, last + 1, ps), last + |ps|)
  {
    var news := LineItems(pedidoId, last + 1, ps);
    var all, n := items + news, |items|;
    forall k | 0 <= k < |all| ensures 1 <= all[k].id <= last + |ps| {
      if k >= n { assert all[k] == news[k - n]; }
    }
    forall k, l | 0 <= k < l < |all| ensures all[k].id < all[l].id {
      if l >= n { assert all[l] == news[l - n]; }
      if k >= n { assert all[k] == news[k - n]; }
    }
  }

  /** A `pendiente` order under the next id keeps order ids allocated and every estado in the vocabulary. */
  lemma AppendPedidoKeepsIds(pedidos: seq<Pedido>, last: nat)
    requires PedidoIdsAllocated(pedidos, last) && EstadosValid(pedidos)
    ensures PedidoIdsAllocated(pedidos + [Pedido(last + 1, PENDIENTE)], last + 1)
    ensures EstadosValid(pedidos + [Pedido(last + 1, PENDIENTE)])
  {
  }

  /** After an accepted create the estados stay in the vocabulary and all ids stay allocated. */
  lemma CreateKeepsIds(t: Tables, ps: seq<Producto>)
    requires EstadosValid(t.pedidos) && PedidoIdsAllocated(t.pedidos, t.seqPedidos)
    requires ItemIdsAllocated(t.productosPedido, t.seqProductos)
    requires ps != []
    ensures var t' := Create(t, Some(ps)).0;
      && EstadosValid(t'.pedidos) && PedidoIdsAllocated(t'.pedidos, t'.seqPedidos)
      && ItemIdsAllocated(t'.productosPedido, t'.seqProductos)
  {
    AppendPedidoKeepsIds(t.pedidos, t.seqPedidos);
    AppendLineItemsKeepsIds(t.productosPedido, t.seqProductos, t.seqPedidos + 1, ps);
  }

  lemma CreatePreservesConsistent(t: Tables, productos: Option<seq<Producto>>)
    requires Consistent(t)
    ensures Consistent(Create(t, productos).0)
  {
    if productos.Some? && productos.value != [] {
      CreateKeepsIds(t, productos.value);
      CreateKeepsReferences(t, productos.value);
      CreateKeepsItemsPerPedido(t, productos.value);
    }
  }

  /** A status update is rejected exactly when the value lies outside the vocabulary, and then nothing changes. */
  lemma UpdateRejected(t: Tables, id: int, estado: Option<string>)
    ensures UpdateEstado(t, id, estado).1 == InvalidEstado <==> !AcceptsEstado(estado)
    ensures UpdateEstado(t, id, estado).1 == InvalidEstado ==> UpdateEstado(t, id, estado).0 == t
  {
  }

  /**
   * An accepted status update reports success and overwrites the `estado` of the order
   * with that id; every other order, every line item and both counters stay as they were.
   */
  lemma UpdateAccepted(t: Tables, id: int, e: string)
    requires IsEstado(e)
    ensures var (t', r) := UpdateEstado(t, id, Some(e));
      && r == Success
      && t'.productosPedido == t.productosPedido
      && t'.seqPedidos == t.seqPedidos && t'.seqProductos == t.seqProductos
      && |t'.pedidos| == |t.pedidos|
      && (forall i :: 0 <= i < |t.pedidos| ==>
            t'.pedidos[i] == if t.pedidos[i].id == id then Pedido(id, e) else t.pedidos[i])
  {
  }

  /** Updating an id that no order has is a no-op that still reports success. */
  lemma UpdateAbsentId(t: Tables, id: int, e: string)
    requires IsEstado(e)
    requires !HasPedido(t.pedidos, id)
    ensures UpdateEstado(t, id, Some(e)) == (t, Success)
  {
    var p := SetEstadoWhere(t.pedidos, id, e);
    forall i | 0 <= i < |p| ensures p[i] == t.pedidos[i] {
      assert t.pedidos[i].id != id;
    }
    assert p == t.pedidos;
  }

  lemma UpdatePreservesConsistent(t: Tables, id: int, estado: Option<string>)
    requires Consistent(t)
    ensures Consistent(UpdateEstado(t, id, estado).0)
  {
  }

  /** The listing holds exactly the stored orders, each once, in strictly descending id order. */
  lemma ListSorted(t: Tables)
    requires Consistent(t)
    ensures StrictlyDescending(List(t))
    ensures |List(t)| == |t.pedidos|
    ensures forall p :: p in List(t) <==> p in t.pedidos
  {
    var s, r := t.pedidos, List(t);
    forall p | p in t.pedidos ensures p in r {
      var i :| 0 <= i < |s| && s[i] == p;
      assert r[|s| - 1 - i] == p;
    }
  }

  /** After an accepted create the new order heads the listing, in front of the previous listing. */
  lemma ListAfterCreate(t: Tables, ps: seq<Producto>)
    requires ps != []
    ensures var (t', r) := Create(t, Some(ps));
      List(t') == [Pedido(r.pedidoId, PENDIENTE)] + List(t)
  {
  }

  /** Row i after the update: the new estado where the id matches, the old row elsewhere. */
  lemma SetEstadoWhereAt(p: seq<Pedido>, id: int, e: string, i: nat)
    requires i < |p|
    ensures SetEstadoWhere(p, id, e)[i] == if p[i].id == id then Pedido(p[i].id, e) else p[i]
  {
    var r := SetEstadoWhere(p, id, e);
    assert r[i].id == p[i].id;
    assert r[i].estado == if p[i].id == id then e else p[i].estado;
  }

  /** Reversing the table and overwriting an estado can be done in either order. */
  lemma ReversedSetEstadoWhere(p: seq<Pedido>, id: int, e: string)
    ensures Reversed(SetEstadoWhere(p, id, e)) == SetEstadoWhere(Reversed(p), id, e)
  {
    var n, u, q := |p|, SetEstadoWhere(p, id, e), Reversed(p);
    var a, b := Reversed(u), SetEstadoWhere(q, id, e);
    forall k | 0 <= k < n ensures a[k] == b[k] {
      var j := n - 1 - k;
      assert a[k] == u[j];
      assert q[k] == p[j];
      SetEstadoWhereAt(p, id, e, j);
      SetEstadoWhereAt(q, id, e, k);
    }
    assert a == b;
  }

  /** Listing after an update is the previous listing with that order's status overwritten. */
  lemma ListAfterUpdate(t: Tables, id: int, e: string)
    requires IsEstado(e)
    ensures List(UpdateEstado(t, id, Some(e)).0) == SetEstadoWhere(List(t), id, e)
  {
    assert UpdateEstado(t, id, Some(e)).0.pedidos == SetEstadoWhere(t.pedidos, id, e);
    ReversedSetEstadoWhere(t.pedidos, id, e);
  }

  /** A request to one of the two handlers that change the tables. */
  datatype Request =
    | CreateRequest(productos: Option<seq<Producto>>)
    | UpdateRequest(id: int, estado: Option<string>)

  function Apply(t: Tables, req: Request): Tables {
    match req
    case CreateRequest(productos) => Create(t, productos).0
    case UpdateRequest(id, estado) => UpdateEstado(t, id, estado).0
  }

  function Run(t: Tables, reqs: seq<Request>): Tables
    decreases |reqs|
  {
    if reqs == [] then t else Run(Apply(t, reqs[0]), reqs[1..])
  }

  /**
   * From any consistent state, any sequence of requests leaves the tables consistent:
   * every status in the vocabulary, ids positive, unique, increasing and within their
   * counters, every line item referencing an existing order, every order owning a line item.
   */
  lemma {:induction false} RunKeepsConsistent(t: Tables, reqs: seq<Request>)
    requires Consistent(t)
    ensures Consistent(Run(t, reqs))
    decreases |reqs|
  {
    if reqs != [] {
      match reqs[0] {
        case CreateRequest(productos) => CreatePreservesConsistent(t, productos);
        case UpdateRequest(id, estado) => UpdatePreservesConsistent(t, id, estado);
      }
      RunKeepsConsistent(Apply(t, reqs[0]), reqs[1..]);
    }
  }

  /** Every state reachable from the freshly created tables is consistent, so every stored estado is in the vocabulary. */
  lemma ReachableConsistent(reqs: seq<Request>)
    ensures Consistent(Run(EMPTY, reqs))
    ensures forall i :: 0 <= i < |Run(EMPTY, reqs).pedidos| ==> IsEstado(Run(EMPTY, reqs).pedidos[i].estado)
  {
    RunKeepsConsistent(EMPTY, reqs);
  }
}

/**
 * The order service's database as one object: the `pedidos` and `productos_pedido`
 * tables and their AUTOINCREMENT counters are fields that the three route handlers
 * update in place, one statement after another.
 */
module OrderStore {
  import opened OrderTables
  import OrderProperties

  class Store {
    var pedidos: seq<Pedido>
    var productosPedido: seq<ProductoPedido>
    var seqPedidos: nat
    var seqProductos: nat

    /** The current contents of the database as a value. */
    function Contents(): Tables
      reads this
    {
      Tables(pedidos, productosPedido, seqPedidos, seqProductos)
    }

    ghost predicate Valid()
      reads this
    {
      Consistent(Contents())
    }

    /** Both tables created empty, as on a fresh database file. */
    constructor ()
      ensures Valid()
      ensures Contents() == EMPTY
    {
      pedidos, productosPedido := [], [];
      seqPedidos, seqProductos := 0, 0;
    }

    /**
     * POST /api/pedido. A missing or empty `productos` is rejected and nothing changes.
     * Otherwise one `pendiente` order is inserted under the next id, then the loop over
     * `productos` inserts one line item per product, and the new id is returned.
     */
    method CreateOrder(productos: Option<seq<Producto>>) returns (r: CreateResult)
      requires Valid()
      modifies this
      ensures Valid()
      ensures (Contents(), r) == Create(old(Contents()), productos)
      ensures r == NoProductos <==> productos.None? || productos.value == []
      ensures r == NoProductos ==> Contents() == old(Contents())
      ensures r.Created? ==>
        && r.pedidoId == seqPedidos == old(seqPedidos) + 1
        && (forall i :: 0 <= i < |old(pedidos)| ==> old(pedidos)[i].id < r.pedidoId)
        && pedidos == old(pedidos) + [Pedido(r.pedidoId, PENDIENTE)]
        && productosPedido == old(productosPedido)
             + LineItems(r.pedidoId, old(seqProductos) + 1, productos.value)
    {
      if productos.None? || |productos.value| == 0 {
        return NoProductos;
      }
      var ps := productos.value;
      seqPedidos := seqPedidos + 1;
      var pedidoId := seqPedidos;
      pedidos := pedidos + [Pedido(pedidoId, PENDIENTE)];
      var i := 0;
      while i < |ps|
        invariant 0 <= i <= |ps|
        invariant pedidos == old(pedidos) + [Pedido(pedidoId, PENDIENTE)] && seqPedidos == pedidoId
        invariant seqProductos == old(seqProductos) + i
        invariant productosPedido == old(productosPedido) + LineItems(pedidoId, old(seqProductos) + 1, ps[..i])
      {
        var before := LineItems(pedidoId, old(seqProductos) + 1, ps[..i]);
        var after := LineItems(pedidoId, old(seqProductos) + 1, ps[..i + 1]);
        seqProductos := seqProductos + 1;
        var item := ProductoPedido(seqProductos, pedidoId, ps[i].nombre, ps[i].precio);
        assert after == before + [item];
        productosPedido := productosPedido + [item];
        i := i + 1;
      }
      assert ps[..i] == ps;
      r := Created(pedidoId);
      ghost var t0 := old(Contents());
      assert (Contents(), r) == Create(t0, productos);
      OrderProperties.CreatePreservesConsistent(t0, productos);
      OrderProperties.CreateAccepted(t0, ps);
    }

    /** GET /api/pedidos: every stored order, each once, highest id first. */
    method ListOrders() returns (r: seq<Pedido>)
      requires Valid()
      ensures r == List(Contents())
      ensures StrictlyDescending(r)
      ensures |r| == |pedidos|
      ensures forall p :: p in r <==> p in pedidos
    {
      r := List(Contents());
      OrderProperties.ListSorted(Contents());
    }

    /**
     * PUT /api/pedido/:id. A value outside the vocabulary is rejected and nothing changes.
     * Otherwise the `estado` of the order with that id is overwritten and nothing else;
     * an id no order has changes nothing and still reports success.
     */
    method UpdateOrderEstado(id: int, estado: Option<string>) returns (r: UpdateResult)
      requires Valid()
      modifies this
      ensures Valid()
      ensures (Contents(), r) == UpdateEstado(old(Contents()), id, estado)
      ensures r == Success <==> AcceptsEstado(estado)
      ensures r == InvalidEstado ==> Contents() == old(Contents())
      ensures productosPedido == old(productosPedido)
      ensures seqPedidos == old(seqPedidos) && seqProductos == old(seqProductos)
      ensures |pedidos| == |old(pedidos)|
      ensures r == Success ==> forall i :: 0 <= i < |pedidos| ==>
        pedidos[i] == if old(pedidos)[i].id == id then Pedido(id, estado.value) else old(pedidos)[i]
      ensures !HasPedido(old(pedidos), id) ==> Contents() == old(Contents())
    {
      if !AcceptsEstado(estado) {
        return InvalidEstado;
      }
      ghost var t := Contents();
      pedidos := SetEstadoWhere(pedidos, id, estado.value);
      r := Success;
      assert (Contents(), r) == UpdateEstado(t, id, estado);
      OrderProperties.UpdatePreservesConsistent(t, id, estado);
      OrderProperties.UpdateAccepted(t, id, estado.value);
      if !HasPedido(t.pedidos, id) {
        OrderProperties.UpdateAbsentId(t, id, estado.value);
      }
    }
  }
}

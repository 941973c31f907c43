/**
 * The two tables of the order service, `pedidos` and `productos_pedido`,
 * as values, together with the AUTOINCREMENT counters SQLite keeps for them,
 * and the effect of each route handler on them as a pure function.
 */
module OrderTables {

  datatype Option<T> = None | Some(value: T)

  /** The fixed vocabulary of order statuses, in the lowercase spelling the service uses. */
  const PENDIENTE: string := "pendiente"
  const PREPARACION: string := "preparacion"
  const ENTREGADO: string := "entregado"

  predicate IsEstado(s: string) {
    s == PENDIENTE || s == PREPARACION || s == ENTREGADO
  }

  /** The membership test of the status update handler; an absent `estado` fails it. */
  predicate AcceptsEstado(estado: Option<string>): (r: bool)
    ensures r <==> estado.Some? && estado.value in [PENDIENTE, PREPARACION, ENTREGADO]
    ensures r ==> estado == Some("pendiente") || estado == Some("preparacion") || estado == Some("entregado")
  {
    estado.Some? && IsEstado(estado.value)
  }

  /** A row of `pedidos`; `estado` defaults to PENDIENTE. */
  datatype Pedido = Pedido(id: nat, estado: string)

  /** A row of `productos_pedido`; name and price may be NULL when the request omits them. */
  datatype ProductoPedido = ProductoPedido(id: nat, pedidoId: nat, nombreProducto: Option<string>, precio: Option<real>)

  /** One element of the `productos` array of a create request. */
  datatype Producto = Producto(nombre: Option<string>, precio: Option<real>)

  /**
   * The database: both tables in insertion order, and for each table the largest
   * id AUTOINCREMENT has ever handed out (its `sqlite_sequence` entry).
   */
  datatype Tables = Tables(pedidos: seq<Pedido>, productosPedido: seq<ProductoPedido>,
                           seqPedidos: nat, seqProductos: nat)

  /** Freshly created tables. */
  const EMPTY: Tables := Tables([], [], 0, 0)

  datatype CreateResult = Created(pedidoId: nat) | NoProductos
  datatype UpdateResult = Success | InvalidEstado

  predicate HasPedido(pedidos: seq<Pedido>, id: int) {
    exists i :: 0 <= i < |pedidos| && pedidos[i].id == id
  }

  predicate EstadosValid(pedidos: seq<Pedido>) {
    forall i :: 0 <= i < |pedidos| ==> IsEstado(pedidos[i].estado)
  }

  /** Ids are positive, at most the counter, and strictly increasing in insertion order. */
  predicate PedidoIdsAllocated(pedidos: seq<Pedido>, last: nat) {
    (forall i :: 0 <= i < |pedidos| ==> 1 <= pedidos[i].id <= last) &&
    (forall i, j :: 0 <= i < j < |pedidos| ==> pedidos[i].id < pedidos[j].id)
  }

  predicate ItemIdsAllocated(items: seq<ProductoPedido>, last: nat) {
    (forall k :: 0 <= k < |items| ==> 1 <= items[k].id <= last) &&
    (forall k, l :: 0 <= k < l < |items| ==> items[k].id < items[l].id)
  }

  predicate HasItem(items: seq<ProductoPedido>, id: int) {
    exists k :: 0 <= k < |items| && items[k].pedidoId == id
  }

  /** Every order owns at least one line item: creation never stores an order without products. */
  predicate PedidosHaveItems(t: Tables) {
    forall i :: 0 <= i < |t.pedidos| ==> HasItem(t.productosPedido, t.pedidos[i].id)
  }

  /** The FOREIGN KEY of `productos_pedido`: every line item names an existing order. */
  predicate ItemsReferencePedidos(t: Tables) {
    forall k :: 0 <= k < |t.productosPedido| ==> HasPedido(t.pedidos, t.productosPedido[k].pedidoId)
  }

  predicate Consistent(t: Tables) {
    EstadosValid(t.pedidos) &&
    PedidoIdsAllocated(t.pedidos, t.seqPedidos) &&
    ItemIdsAllocated(t.productosPedido, t.seqProductos) &&
    ItemsReferencePedidos(t) &&
    PedidosHaveItems(t)
  }

  predicate StrictlyDescending(s: seq<Pedido>) {
    forall i, j :: 0 <= i < j < |s| ==> s[i].id > s[j].id
  }

  /**
   * The rows the `forEach` over `productos` inserts: the i-th gets id `firstId + i`,
   * the order id, and the i-th product's name and price.
   */
  function LineItems(pedidoId: nat, firstId: nat, productos: seq<Producto>): (r: seq<ProductoPedido>)
    ensures |r| == |productos|
    ensures forall k :: 0 <= k < |r| ==>
      r[k] == ProductoPedido(firstId + k, pedidoId, productos[k].nombre, productos[k].precio)
    decreases |productos|
  {
    if productos == [] then []
    else [ProductoPedido(firstId, pedidoId, productos[0].nombre, productos[0].precio)]
         + LineItems(pedidoId, firstId + 1, productos[1..])
  }

  /** POST /api/pedido: reject a missing or empty list, else insert the header, then one row per product. */
  function Create(t: Tables, productos: Option<seq<Producto>>): (r: (Tables, CreateResult))
    ensures r.1 == NoProductos ==> r.0 == t
    // both tables only grow at the end, and the counters never go back
    ensures t.pedidos <= r.0.pedidos && t.productosPedido <= r.0.productosPedido
    ensures t.seqPedidos <= r.0.seqPedidos && t.seqProductos <= r.0.seqProductos
    // an accepted request adds one order, whose id is the new counter, and one line item per product
    ensures r.1.Created? ==>
      && productos.Some?
      && r.1.pedidoId == r.0.seqPedidos == t.seqPedidos + 1
      && |r.0.pedidos| == |t.pedidos| + 1
      && r.0.pedidos[|t.pedidos|] == Pedido(r.1.pedidoId, PENDIENTE)
      && |r.0.productosPedido| == |t.productosPedido| + |productos.value|
      && r.0.seqProductos == t.seqProductos + |productos.value|
  {
    if productos.None? || |productos.value| == 0 then (t, NoProductos)
    else
      var id := t.seqPedidos + 1;
      var items := LineItems(id, t.seqProductos + 1, productos.value);
      (Tables(t.pedidos + [Pedido(id, PENDIENTE)], t.productosPedido + items,
              id, t.seqProductos + |productos.value|),
       Created(id))
  }

  /** The update statement of the status handler: every row whose id matches gets the new estado. */
  function SetEstadoWhere(pedidos: seq<Pedido>, id: int, estado: string): (r: seq<Pedido>)
    ensures |r| == |pedidos|
    ensures forall i :: 0 <= i < |r| ==> r[i].id == pedidos[i].id
    ensures forall i :: 0 <= i < |r| ==>
      r[i].estado == if pedidos[i].id == id then estado else pedidos[i].estado
  {
    if pedidos == [] then []
    else [if pedidos[0].id == id then Pedido(pedidos[0].id, estado) else pedidos[0]]
         + SetEstadoWhere(pedidos[1..], id, estado)
  }

  /** PUT /api/pedido/:id: reject a status outside the vocabulary, else run the update. */
  function UpdateEstado(t: Tables, id: int, estado: Option<string>): (r: (Tables, UpdateResult))
    ensures r.1 == Success <==> AcceptsEstado(estado)
    // only estado columns of `pedidos` can change
    ensures r.0.productosPedido == t.productosPedido
    ensures r.0.seqPedidos == t.seqPedidos && r.0.seqProductos == t.seqProductos
    ensures |r.0.pedidos| == |t.pedidos|
    ensures forall i :: 0 <= i < |t.pedidos| ==> r.0.pedidos[i].id == t.pedidos[i].id
    ensures forall i :: 0 <= i < |t.pedidos| && t.pedidos[i].id != id ==> r.0.pedidos[i] == t.pedidos[i]
  {
    if !AcceptsEstado(estado) then (t, InvalidEstado)
    else (t.(pedidos := SetEstadoWhere(t.pedidos, id, estado.value)), Success)
  }

  function Reversed(s: seq<Pedido>): (r: seq<Pedido>)
    ensures |r| == |s|
    ensures forall k :: 0 <= k < |s| ==> r[k] == s[|s| - 1 - k]
  {
    if s == [] then [] else Reversed(s[1..]) + [s[0]]
  }

  /**
   * GET /api/pedidos: every row of `pedidos`, highest id first. The table is held in
   * insertion order, which Consistent makes ascending by id, so the listing is its reverse.
   */
  function List(t: Tables): (r: seq<Pedido>)
    ensures |r| == |t.pedidos|
    ensures forall k :: 0 <= k < |r| ==> r[k] == t.pedidos[|t.pedidos| - 1 - k]
  {
    Reversed(t.pedidos)
  }
}

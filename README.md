# Order store of the order service

The service (`server.js`) takes orders over HTTP and keeps them in two SQLite tables:
`pedidos` (id, estado) and `productos_pedido` (id, pedido_id, nombre_producto, precio),
both with AUTOINCREMENT ids. Three route handlers act on them:

- `POST /api/pedido` rejects a missing or empty `productos` list. Otherwise it inserts an
  order with estado `'pendiente'`, then inserts one line item per product. Each line item
  gets the new order id and the product's `nombre` and `precio`. It returns the new id.
- `GET /api/pedidos` returns every order row, highest id first. It does not join line items.
- `PUT /api/pedido/:id` rejects an estado outside `{'pendiente','preparacion','entregado'}`.
  Otherwise it overwrites the estado of the order with that id. An id that no order has
  changes nothing and still reports success.

The model has three modules:

- `OrderTables` (`tables.dfy`) holds the rows as datatypes and the whole database as a
  value `Tables`: both tables in insertion order, plus the two AUTOINCREMENT counters
  (SQLite's `sqlite_sequence` entries). `Consistent` is the invariant. It says every
  estado is in the vocabulary, ids are positive, unique, ascending and no larger than
  their counter, every line item names an existing order, and every order owns at least
  one line item. The last part holds because every insert is taken to succeed (see
  "Left out"). `Create`, `UpdateEstado` and
  `List` give each handler's effect as a pure function.
- `OrderProperties` (`properties.dfy`) proves what each handler does and that all of them
  keep `Consistent`. It also shows how the listing reflects creates and updates, and that
  any sequence of requests from a fresh database stays consistent.
- `OrderStore` (`store.dfy`) is the imperative model. Class `Store` holds the tables and
  counters as fields. Its methods change them in place, one statement after another: the
  create method inserts the header, then loops over the products. Each method's contract
  ties the new state to the pure function of the old state and keeps `Valid`.

`server.js` has no customer name, no transaction around the inserts, no join in the
listing and no product catalog. The estado literals are lowercase Spanish, and
`'pendiente'` is the column default.

## Model

| member | source | states |
|---|---|---|
| OrderTables.AcceptsEstado | server.js:74 | the vocabulary test: true exactly when estado is present and is one of the literals `pendiente`, `preparacion`, `entregado` |
| OrderTables.Create | server.js:38-59 | the create handler on the tables: a rejection leaves them unchanged; both tables only grow at the end and the counters never decrease; an accepted request adds exactly one order, at the end, with estado pendiente and id equal to the new counter, old counter + 1, which is the id returned; it also adds exactly as many line items as products and advances the item counter by that many |
| OrderTables.UpdateEstado | server.js:70-82 | the status handler on the tables: success exactly when the estado is accepted; line items, both counters, the number of orders and every order's id are unchanged; every order whose id differs from the target is unchanged |
| OrderTables.List | server.js:62-67 | the listing: as many rows as the table, and row k is the table's row n-1-k, so newest first |
| OrderTables.LineItems | server.js:49-54 | the rows the product loop inserts: one per product, in order; the k-th has id first+k, the order id, and the k-th product's name and price |
| OrderTables.SetEstadoWhere | server.js:78 | the update statement keeps every row's id and the row count; it sets estado exactly on rows whose id matches and leaves every other row's estado alone |
| OrderTables.Reversed | server.js:63 | the listing order: same length, and position k holds the element at position n-1-k |
| OrderProperties.CreateRejected | server.js:41-43 | create reports a bad request exactly when productos is missing or empty, and then neither table nor counter changes |
| OrderProperties.CreateAccepted | server.js:45-56 | accepted create returns the id counter+1, greater than every existing order id; appends exactly one order with estado pendiente; keeps old line items as a prefix; appends exactly one line item per product with the new order id, the product's name and price, and an id above every earlier line item id |
| OrderProperties.CreatePreservesConsistent | server.js:19-54 | create keeps the invariant: estados in the vocabulary, ids fresh and unique, every line item referencing an existing order, every order owning a line item |
| OrderProperties.CreateKeepsItemsPerPedido | server.js:41-54 | after an accepted create every order, old and new, owns at least one line item: the list is non-empty and its first row carries the new id |
| OrderProperties.UpdateRejected | server.js:74-76 | update reports invalid estado exactly when the value is absent or outside the three literals, and then nothing changes |
| OrderProperties.UpdateAccepted | server.js:78-80 | a valid update reports success, overwrites only the estado of the order with that id, and leaves the other orders, all line items and both counters unchanged |
| OrderProperties.UpdateAbsentId | server.js:78-80 | a valid update of an id that no order has leaves the database unchanged and still reports success |
| OrderProperties.UpdatePreservesConsistent | server.js:70-82 | update keeps the invariant; in particular no estado outside the vocabulary is ever stored, and no order loses its line items |
| OrderProperties.ListSorted | server.js:62-65 | on a consistent database the listing holds exactly the stored orders, with the same count, in strictly descending id order |
| OrderProperties.ListAfterCreate | server.js:45-65 | after an accepted create, the listing is the new pendiente order followed by the previous listing |
| OrderProperties.ListAfterUpdate | server.js:62-80 | listing after an update equals applying the same update to the previous listing |
| OrderProperties.RunKeepsConsistent | server.js:38-82 | any sequence of create and update requests from a consistent database leaves it consistent |
| OrderProperties.ReachableConsistent | server.js:19-82 | starting from freshly created tables, every reachable database is consistent and every stored estado is in the vocabulary |
| OrderStore.Store.constructor | server.js:19-35 | fresh database: both tables empty, both counters zero, invariant holds |
| OrderStore.Store.CreateOrder | server.js:38-59 | the in-place create: its new state and result equal the pure create on the old state; it rejects missing or empty lists with no change; on success it returns a fresh id above all earlier ones, appends the pendiente order, then appends the line items; it keeps the invariant |
| OrderStore.Store.ListOrders | server.js:62-67 | returns every stored order, each once, in strictly descending id order |
| OrderStore.Store.UpdateOrderEstado | server.js:70-82 | the in-place update: it equals the pure update; it succeeds exactly for a value in the vocabulary; when rejected, nothing changes; line items and counters never change; only the matching order's estado is overwritten; an absent id changes nothing; it keeps the invariant |

## Left out

- HTTP and process plumbing: Express setup, static files, JSON body parsing, `app.listen` and logging (server.js:1-9, 86-88).
- Creating the `db` directory and opening the SQLite file (server.js:11-16). The model starts from empty tables, as on a fresh file. `CREATE TABLE IF NOT EXISTS` on an existing file is not modelled.
- Database failures that answer HTTP 500 (server.js:46, 64, 79). Each statement is assumed to succeed.
- Errors of the individual line-item inserts. The source passes no callback for them and attaches no error handler, so a failed insert is left to the database driver. The order header is already stored by then. Because the model assumes every insert succeeds, it never shows a partial order. The source has no transaction, so nothing here claims all-or-nothing behaviour.
- Consistent: its conjunct "every order owns at least one line item" rests on that assumption. In `server.js` a failed line-item insert, or a `null` first product (which throws inside the loop at line 54), leaves an order header with no line items.
- Asynchronous callback order and concurrent requests. Each handler runs to completion, one after another.
- Prepared-statement lifecycle (`prepare`, `finalize`) and the SQL text.
- JavaScript typing of the request body. A truthy `productos` that is not an array (a string, say) makes `forEach` throw after the order header is inserted; the model takes `productos` as absent or a sequence. A product element that is `null` also throws. A missing `nombre` or `precio` is modelled, as a NULL column (`None`). Type coercion is not modelled for either field. A `nombre` that is a number or a boolean is stored as TEXT by the column's affinity, and `Option<string>` cannot represent it. A `precio` is carried through unchanged as a `real`, with no coercion into the REAL column.
- The path parameter `:id` is text that SQLite compares with the integer ids. The model takes an integer, so a non-numeric id (which matches no row) is modelled as any id that no order has.
- The upper bound of SQLite's AUTOINCREMENT (2^63-1, after which inserts fail): ids and counters are unbounded naturals.
- SQLite does not enforce the `FOREIGN KEY` unless foreign key checks are turned on. The model proves every line item references an existing order anyway, because the only insert uses the id just created.

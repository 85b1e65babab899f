# Inventory ledger of almacen-app, in Dafny

This project models the core of a warehouse web application (Flask + SQLAlchemy). It keeps a
catalog of products (`productos`), user accounts with roles (`usuarios`, `roles`), and an
append-only ledger of stock movements (`movimientos`). Each movement is an entry (`'E'`) or an
exit (`'S'`). Administrators create, retire, reactivate and delete products and record entries.
Warehouse operators record exits. An exit runs in one transaction: it checks under a row lock that
the product is active and has enough stock, writes the movement, then decrements the stock. When
the store rejects the transaction, the error text is turned into a message by keyword.

The model is one sequential store, `Inventory.Warehouse`. It holds maps of roles, users and
products, the movement sequence, and the auto-increment counters of the three id columns. Each
handler of `app.py` is a method that either commits all of its writes or leaves the store exactly
as it was (`unchanged(this)`). Each method returns a `Notice`: the flash message the handler
shows, or `NotFound` / `ServerError` for an HTTP failure. Every method preserves `Valid()`, which
states:

- the uniqueness constraints of `models.py`;
- the foreign keys of users and movements;
- that every movement is an `'E'` or an `'S'` of a positive quantity;
- that movement ids increase along the ledger;
- the ledger invariant: every product's `cantidad` equals its `'E'` total minus its `'S'` total
  (`Ledger.Balance`), is never negative, and fits the 32-bit INT column that `db.Integer` becomes
  in the store (SQL Server).

Every method that changes the ledger states that the new ledger is the old one plus exactly one
movement. So recorded movements are never changed or removed.

Modules:

- `Models` (`models.dfy`): the four record types of `models.py` and the constraints over stored rows.
- `Ledger` (`ledger.dfy`): per-product totals, the stock implied by the ledger, and the lemmas
  that keep stock and ledger in lockstep.
- `StorageErrors` (`storage_errors.dfy`): salida's classification of store error text.
- `History` (`history.dfy`): historico's filter, built as the list of conditions the query
  accumulates, and its newest-first result.
- `Inventory` (`inventory.dfy`): the store and its handlers.
- `Scenarios` (`scenarios.dfy`): short runs of the handlers that use only their contracts. One
  run is an entry of 50 followed by a refused exit of 60. Another is two exits of 8 against a
  stock of 10, where only the first commits.

Two behaviours of the source are modelled as written:

- `usuarios_nuevo` and `usuarios_editar` catch every `IntegrityError` as "Ese correo ya existe.".
  This includes a role id that does not exist.
- `usuarios_editar` applies the submitted status to any user, including the acting one. The
  self-protection of `usuarios_desactivar` does not cover that path.

The classifier tests three keywords: "sin stock", "suficiente" and "stock".
`StorageErrors.SinStockMentionsStock` shows that the "sin stock" test adds nothing once "stock" is
tested.

## Model

| member | source | states |
|---|---|---|
| `Inventory.Warehouse.AddProduct` | app.py:203-224 | An empty name is refused and a name already in use is refused, with nothing changed. Otherwise exactly one product is added, under the next id, with quantity 0 and the requested status. The ledger and users are untouched and the ledger invariant still holds. |
| `Inventory.Warehouse.RecordEntry` | app.py:230-257 | A missing product gives NotFound. A non-numeric or non-positive quantity is refused. A vanished acting user fails on the foreign key, and a new stock above 2147483647 overflows the INT column; both are uncaught errors (ServerError). All four change nothing. Otherwise stock rises by exactly the quantity and exactly one `'E'` movement (next id, product, actor, quantity, time) is appended, whatever the product's status. |
| `Inventory.Warehouse.RecordExit` | app.py:318-387 | Refusals are checked in the source's order, each leaving the store unchanged: unparsable number, product id 0, quantity ≤ 0, product missing or inactive, quantity above stock, then a store rejection (text classified) or another store error. Only an allowed exit that the store accepts appends one `'S'` movement and decreases stock by exactly the quantity. Stock may reach 0 but never goes below. |
| `Inventory.Warehouse.RetireProduct` | app.py:262-267 | Only the product's status changes, to inactive. A missing product gives NotFound with nothing changed. |
| `Inventory.Warehouse.ReactivateProduct` | app.py:272-277 | Only the product's status changes, to active. A missing product gives NotFound with nothing changed. |
| `Inventory.Warehouse.DeleteProduct` | app.py:282-311 | Stock > 0 refuses with the "existencias" notice, whatever the history. Otherwise any referencing movement refuses with the "historial" notice. Only stock 0 with no movements removes exactly that product. Refusals change nothing. |
| `Inventory.Warehouse.AddUser` | app.py:87-113 | A missing field (role id 0 included) is refused. A taken email or a non-existent role is refused as a taken email. Otherwise exactly one user is added under the next id. Emails stay unique. |
| `Inventory.Warehouse.EditUser` | app.py:121-139 | Overwrites name, email and status. The role and credential change only when given. An email used by another user, or a missing role, rolls the edit back. Emails stay unique. |
| `Inventory.Warehouse.DeactivateUser` | app.py:157-165 | The acting user's own id leaves the store unchanged. Any other existing id becomes inactive and nothing else changes. |
| `Inventory.Warehouse.DeleteUser` | app.py:170-178 | The acting user's own id leaves the store unchanged. A user still referenced by movements cannot be removed (foreign key). Any other existing id is removed and nothing else changes. |
| `Inventory.Warehouse.ListHistory` | app.py:405-429 | Returns exactly the ledger movements of the requested kind inside the date window. They are ordered by strictly decreasing id. Every row joins with an existing product and user, so the joins drop nothing. |
| `Inventory.Warehouse.NextMovementKeepsOrder` | models.py:34 | A movement given the next auto-increment id and appended keeps ids strictly increasing along the ledger. |
| `Inventory.Warehouse.constructor` | models.py:6-42 | A fresh store holds the given roles and no users, products or movements, and satisfies every table constraint. |
| `StorageErrors.Classify` | app.py:374-380 | Text mentioning "inactivo" (ignoring case) gives the inactive-product message, with precedence. Otherwise text mentioning "suficiente" or "stock" gives the insufficient-inventory message. Otherwise the raw text is returned. |
| `StorageErrors.ContainsInLower` | app.py:375-377 | Searching `raw.lower()` for a lower-case keyword is the same as matching the keyword in `raw` letter by letter, ignoring case. |
| `StorageErrors.SinStockMentionsStock` | app.py:379 | Any text containing "sin stock" contains "stock". |
| `History.Selected` | app.py:414-425 | A movement passes the query's conditions exactly when its kind is admitted by `tipo` and its time lies in `[f_ini, f_fin + 1 day)`. `'entrada'`/`'e'` admits only `'E'`, `'salida'`/`'s'` only `'S'`, and anything else admits all kinds. A malformed `f_ini` drops both bounds. A malformed `f_fin` keeps the `f_ini` bound. |
| `History.DateConditionsMeaning` | app.py:419-425 | The date conditions added before an exception stops the try block hold exactly inside the window. |
| `History.KindConditionsMeaning` | app.py:414-417 | The kind condition added for `tipo` holds exactly for the admitted kinds. |
| `History.NewestFirst` | app.py:427 | The result holds exactly the selected ledger movements and is no longer than the ledger. When ledger ids increase, result ids strictly decrease (newest first). |
| `Ledger.TotalAppend` | app.py:246-253 | Appending a movement adds its quantity to the total of its own product and kind, and to no other. |
| `Ledger.BalanceAppend` | app.py:351-361 | Appending an `'E'` or `'S'` moves only its own product's balance, by plus or minus its quantity. |
| `Ledger.TotalUnreferenced` | app.py:290-298 | A product that no movement references has totals 0. |
| `Ledger.StockImpliesHistory` | app.py:285-300 | Under the ledger invariant, a product with non-zero stock has history. So the stock check of deletion only refuses products the history check would also refuse; it decides the message, not the outcome. |
| `Ledger.PostKeepsLedger` | app.py:243-254 | Recording a movement and moving its product's stock by the same signed amount keeps stock equal to the ledger balance, provided the new stock stays within 0..2147483647. |
| `Ledger.AdmitKeepsLedger` | app.py:213 | A product admitted with quantity 0, under an id no movement references, keeps the ledger invariant. |

## Left out

- Routing, `session`, `flash`, `redirect`, templates, `login`/`logout` (app.py:44-71) are not modelled. The acting user is a parameter, and each handler's message is a `Notice` value.
- `login_required` and `role_required` (app.py:19-38) are not modelled: the core takes no role into account. Entries are meant for administrators and exits for warehouse operators; the model does not restrict who calls what.
- Password hashing and checking are opaque library calls. A user's credential is a string supplied by the caller.
- SQLAlchemy sessions, the `with_for_update` row lock and commit/rollback mechanics are not modelled. Each handler is one atomic sequential step, so every property, the ledger invariant included, is proved for requests that run one after another. The row lock serialises exits against one product with each other only.
- `Inventory.Warehouse.RecordEntry`: entrada reads the product without a row lock (app.py:231) and writes back a stock computed in Python (app.py:243). Two overlapping entries, or an entry overlapping an exit, can lose one stock write while both movements commit, leaving stock different from the ledger balance. The model does not capture this; its ledger invariant holds only for serialized requests.
- `Inventory.Warehouse.RecordEntry`: apart from the foreign key on the acting user and the INT range of `cantidad`, entrada's commit is assumed to succeed. Unlike salida, it receives no store verdict; any other store failure would also end as an uncaught error with nothing committed.
- The database triggers are not part of this model. Their verdict on salida's transaction is the `storeReply` parameter, and only the text classifier that reads it is modelled.
- `Inventory.Warehouse.RecordExit`: a movement whose acting user no longer exists is assumed to be rejected by the store as a constraint error. The precondition says so. The text of that rejection is not modelled.
- `datetime.utcnow` and `strptime`: timestamps are abstract integers counting seconds. A date parameter arrives parsed as blank, malformed, or the timestamp of its midnight.
- `precio` (`Numeric(10,2)`) is not modelled because no arithmetic is done on it. A malformed price makes `inventario_agregar` fail with "No se pudo crear el producto."; that path is not modelled either.
- `Inventory.Warehouse.DeleteProduct`: the generic "No se pudo eliminar el producto." branch (app.py:307-309) is not modelled. Once both checks pass, the store has no modelled reason to reject the delete.
- Form decoding is not modelled. `int(...)` of a form value is an `Option<int>`: None when the text is not a number, `Some(0)` when the field is blank. The choice between the `cant` and `cantidad` fields is not modelled. A non-numeric `idRol` in the user forms raises an uncaught error; that case is not modelled, and the role id arrives as an integer.
- `str.strip()` and `str.lower()` of form values are not modelled: names, emails and the `tipo` parameter arrive already normalised.
- `StorageErrors.Classify`: `raw.lower()` is modelled on ASCII letters only. Python also lowers the Kelvin sign to `k` and turns `İ` into two characters. Text using those characters can classify differently than in the model.
- Column lengths (`String(50)`, `String(150)`, …) and the store's collation are not modelled, nor is the INT range of the id columns (the auto-increment counters are unbounded). Names and emails compare as exact strings.
- Auto-increment ids consumed by rolled-back inserts are not modelled: a failed handler leaves the counters unchanged. The invariant only needs ids that increase, so gaps would not affect it.
- `usuarios_list`, `usuarios_activar`, `inventario_list` and the GET branch of `salida` are read-only listings or outside the modelled core. They are not modelled.
- config.py holds connection settings only and is not part of this model.

/** The request handlers of app.py that change the catalog, the users and the ledger, as methods
    of one store. Each handler is one atomic step: it either commits all of its writes or leaves
    the store exactly as it was. The acting user (session['user_id']) is an explicit parameter,
    form values arrive already converted by int(...) (None when the conversion fails), and the
    clock reading is a parameter. */
module Inventory {
  import opened Optional
  import opened Models
  import opened Ledger
  import opened History
  import opened StorageErrors

  /** How a handler ends: the flash message it shows, or an HTTP failure. */
  datatype Notice =
    | NotFound                     // get_or_404 found no row
    | ServerError                  // an exception no handler catches; nothing was committed
    // inventario_agregar
    | NameRequired
    | DuplicateName
    | ProductCreated
    // inventario_entrada
    | EntryQuantityNotPositive
    | EntryRecorded(quantity: int)
    // inventario_baja, inventario_reactivar
    | ProductRetired
    | ProductReactivated
    // inventario_eliminar
    | DeleteRefusedStock
    | DeleteRefusedHistory
    | ProductDeleted
    // salida
    | InvalidNumber
    | SelectProduct
    | ExitQuantityNotPositive
    | InvalidOrInactiveProduct
    | ExceedsAvailable
    | StoreRejected(message: string)  // a ProgrammingError or IntegrityError, text classified
    | DatabaseError(detail: string)   // any other SQLAlchemyError, text shown after a prefix
    | ExitRecorded
    // usuarios_nuevo, usuarios_editar
    | FieldsRequired
    | EmailExists
    | UserCreated
    | UserUpdated
    // usuarios_desactivar, usuarios_eliminar
    | CannotDeactivateSelf
    | UserDeactivated
    | CannotDeleteSelf
    | UserDeleted

  /** The store's answer when salida's transaction is flushed and committed. */
  datatype StoreReply =
    | Accepted
    | ConstraintError(text: string)  // ProgrammingError or IntegrityError, e.g. raised by a trigger
    | OtherError(text: string)       // any other SQLAlchemyError

  /** The checks salida runs under the row lock: an active product with at least `quantity` in stock. */
  predicate ExitAllowed(products: map<int, Product>, productId: int, quantity: int)
  {
    productId in products && products[productId].active && 0 < quantity <= products[productId].quantity
  }

  /** The tables of models.py together with the auto-increment counters of their ids. */
  class Warehouse {
    var roles: map<int, Role>
    var users: map<int, User>
    var products: map<int, Product>
    var movements: seq<Movement>
    var nextUserId: int
    var nextProductId: int
    var nextMovementId: int

    /** The table constraints, the foreign keys, the shape of what app.py writes into the
        ledger, and the stock-equals-ledger invariant. */
    ghost predicate Valid()
      reads this
    {
      && UniqueRoleNames(roles)
      && UniqueEmails(users)
      && UniqueProductNames(products)
      && NamedProducts(products)
      && RolesExist(users, roles)
      && MovementRefsExist(movements, products, users)
      && WrittenByApp(movements)
      && IdsIncreasing(movements)
      && 1 <= nextUserId && 1 <= nextProductId && 1 <= nextMovementId
      && (forall u :: u in users ==> 1 <= u < nextUserId)
      && (forall p :: p in products ==> 1 <= p < nextProductId)
      && (forall i :: 0 <= i < |movements| ==> 1 <= movements[i].id < nextMovementId)
      && StockMatchesLedger(products, movements)
    }

    /** A store holding only the given roles (the roles table is seeded outside the application). */
    constructor (roles: map<int, Role>)
      requires UniqueRoleNames(roles)
      ensures Valid()
      ensures this.roles == roles && users == map[] && products == map[] && movements == []
      ensures nextUserId == 1 && nextProductId == 1 && nextMovementId == 1
    {
      this.roles := roles;
      users, products, movements := map[], map[], [];
      nextUserId, nextProductId, nextMovementId := 1, 1, 1;
    }

    /** A movement with the next idMovimiento, placed after the whole ledger, keeps the id order. */
    lemma NextMovementKeepsOrder(m: Movement)
      requires Valid()
      requires m.id == nextMovementId
      ensures IdsIncreasing(movements + [m])
      ensures forall i :: 0 <= i < |movements + [m]| ==> 1 <= (movements + [m])[i].id < nextMovementId + 1
    {
      var after := movements + [m];
      forall i, j | 0 <= i < j < |after| ensures after[i].id < after[j].id {
        if j == |movements| { assert after[i] == movements[i]; }
        else { assert after[i] == movements[i] && after[j] == movements[j]; }
      }
    }

    /** inventario_agregar: a non-empty, unused name becomes a new product with quantity 0 and
        the requested status. `name` is the stripped form value. */
    method AddProduct(name: string, active: bool) returns (n: Notice)
      requires Valid()
      modifies this
      ensures Valid()
      ensures name == "" ==> n == NameRequired
      ensures name != "" && NameTaken(old(products), name) ==> n == DuplicateName
      ensures name != "" && !NameTaken(old(products), name) ==>
                && n == ProductCreated
                && old(nextProductId) !in old(products)
                && products == old(products)[old(nextProductId) := Product(name, 0, active)]
                && nextProductId == old(nextProductId) + 1
                && movements == old(movements) && users == old(users) && roles == old(roles)
                && nextUserId == old(nextUserId) && nextMovementId == old(nextMovementId)
      ensures n != ProductCreated ==> unchanged(this)
    {
      if name == "" {
        return NameRequired;
      }
      if NameTaken(products, name) {
        return DuplicateName;
      }
      var id := nextProductId;
      assert !HasHistory(movements, id);
      AdmitKeepsLedger(products, movements, id, Product(name, 0, active));
      products := products[id := Product(name, 0, active)];
      nextProductId := nextProductId + 1;
      n := ProductCreated;
    }

    /** inventario_entrada: `quantity` is int(cant or cantidad or 0), None when it does not parse.
        The product's status is not consulted. The new stock is computed in Python and only the
        commit meets the INT column: a stock above MAX_INT, like a missing acting user, makes the
        commit raise an error that entrada does not catch. */
    method RecordEntry(productId: int, quantity: Option<int>, actor: int, now: int) returns (n: Notice)
      requires Valid()
      modifies this
      ensures Valid()
      ensures productId !in old(products) ==> n == NotFound
      ensures productId in old(products) && (quantity.None? || quantity.value <= 0) ==> n == EntryQuantityNotPositive
      ensures (productId in old(products) && quantity.Some? && quantity.value > 0
               && (actor !in old(users) || old(products)[productId].quantity + quantity.value > MAX_INT))
              ==> n == ServerError
      ensures (productId in old(products) && quantity.Some? && quantity.value > 0
               && actor in old(users) && old(products)[productId].quantity + quantity.value <= MAX_INT) ==>
                && n == EntryRecorded(quantity.value)
                && products == old(products)[productId := old(products)[productId].(quantity := old(products)[productId].quantity + quantity.value)]
                && movements == old(movements) + [Movement(old(nextMovementId), productId, actor, ENTRY, quantity.value, now)]
                && nextMovementId == old(nextMovementId) + 1
                && users == old(users) && roles == old(roles)
                && nextUserId == old(nextUserId) && nextProductId == old(nextProductId)
      ensures !n.EntryRecorded? ==> unchanged(this)
    {
      if productId !in products {
        return NotFound;
      }
      var cant := if quantity.Some? then quantity.value else 0;
      if cant <= 0 {
        return EntryQuantityNotPositive;
      }
      var p := products[productId];
      if actor !in users || p.quantity + cant > MAX_INT {
        // the commit violates the foreign key on idUsuario when the session's user is gone,
        // or overflows the INT column of cantidad
        return ServerError;
      }
      var m := Movement(nextMovementId, productId, actor, ENTRY, cant, now);
      PostKeepsLedger(products, movements, m);
      NextMovementKeepsOrder(m);
      products := products[productId := p.(quantity := p.quantity + cant)];
      movements := movements + [m];
      nextMovementId := nextMovementId + 1;
      n := EntryRecorded(cant);
    }

    /** salida (POST): `productField` and `quantityField` are int(form value or 0), None when
        either does not parse. `storeReply` is the store's answer when the transaction is
        committed; a movement whose acting user no longer exists is always rejected by the
        foreign key on idUsuario. */
    method RecordExit(productField: Option<int>, quantityField: Option<int>, actor: int, now: int,
                      storeReply: StoreReply) returns (n: Notice)
      requires Valid()
      requires actor !in users ==> storeReply.ConstraintError?
      modifies this
      ensures Valid()
      ensures productField.None? || quantityField.None? ==> n == InvalidNumber
      ensures productField.Some? && quantityField.Some? ==>
                var pid, q := productField.value, quantityField.value;
                && (pid == 0 ==> n == SelectProduct)
                && (pid != 0 && q <= 0 ==> n == ExitQuantityNotPositive)
                && (pid != 0 && q > 0 && !(pid in old(products) && old(products)[pid].active) ==> n == InvalidOrInactiveProduct)
                && (pid in old(products) && old(products)[pid].active && q > 0 && q > old(products)[pid].quantity ==> n == ExceedsAvailable)
                && (ExitAllowed(old(products), pid, q) && storeReply.ConstraintError? ==> n == StoreRejected(Classify(storeReply.text)))
                && (ExitAllowed(old(products), pid, q) && storeReply.OtherError? ==> n == DatabaseError(storeReply.text))
                && (ExitAllowed(old(products), pid, q) && storeReply.Accepted? ==>
                      && n == ExitRecorded
                      && products == old(products)[pid := old(products)[pid].(quantity := old(products)[pid].quantity - q)]
                      && movements == old(movements) + [Movement(old(nextMovementId), pid, actor, EXIT, q, now)]
                      && nextMovementId == old(nextMovementId) + 1
                      && users == old(users) && roles == old(roles)
                      && nextUserId == old(nextUserId) && nextProductId == old(nextProductId))
      ensures n != ExitRecorded ==> unchanged(this)
    {
      if productField.None? || quantityField.None? {
        return InvalidNumber;
      }
      var pid, q := productField.value, quantityField.value;
      if pid == 0 {
        return SelectProduct;
      }
      if q <= 0 {
        return ExitQuantityNotPositive;
      }
      if pid !in products || !products[pid].active {
        return InvalidOrInactiveProduct;
      }
      var p := products[pid];
      if q > p.quantity {
        return ExceedsAvailable;
      }
      // on a failed commit neither the movement nor the decrement persists
      match storeReply {
        case ConstraintError(text) => return StoreRejected(Classify(text));
        case OtherError(text) => return DatabaseError(text);
        case Accepted =>
      }
      var m := Movement(nextMovementId, pid, actor, EXIT, q, now);
      PostKeepsLedger(products, movements, m);
      NextMovementKeepsOrder(m);
      movements := movements + [m];
      products := products[pid := p.(quantity := p.quantity - q)];
      nextMovementId := nextMovementId + 1;
      n := ExitRecorded;
    }

    /** inventario_baja: the product's status becomes inactive, and nothing else changes. */
    method RetireProduct(productId: int) returns (n: Notice)
      requires Valid()
      modifies this
      ensures Valid()
      ensures productId !in old(products) ==> n == NotFound && unchanged(this)
      ensures productId in old(products) ==>
                && n == ProductRetired
                && products == old(products)[productId := old(products)[productId].(active := false)]
                && movements == old(movements) && users == old(users) && roles == old(roles)
                && nextUserId == old(nextUserId) && nextProductId == old(nextProductId)
                && nextMovementId == old(nextMovementId)
    {
      if productId !in products {
        return NotFound;
      }
      products := products[productId := products[productId].(active := false)];
      n := ProductRetired;
    }

    /** inventario_reactivar: the product's status becomes active, and nothing else changes. */
    method ReactivateProduct(productId: int) returns (n: Notice)
      requires Valid()
      modifies this
      ensures Valid()
      ensures productId !in old(products) ==> n == NotFound && unchanged(this)
      ensures productId in old(products) ==>
                && n == ProductReactivated
                && products == old(products)[productId := old(products)[productId].(active := true)]
                && movements == old(movements) && users == old(users) && roles == old(roles)
                && nextUserId == old(nextUserId) && nextProductId == old(nextProductId)
                && nextMovementId == old(nextMovementId)
    {
      if productId !in products {
        return NotFound;
      }
      products := products[productId := products[productId].(active := true)];
      n := ProductReactivated;
    }

    /** inventario_eliminar: refused while the product has stock, then refused while any
        movement references it; only then is the row deleted. */
    method DeleteProduct(productId: int) returns (n: Notice)
      requires Valid()
      modifies this
      ensures Valid()
      ensures productId !in old(products) ==> n == NotFound
      ensures productId in old(products) && old(products)[productId].quantity > 0 ==> n == DeleteRefusedStock
      ensures (productId in old(products) && old(products)[productId].quantity <= 0 && HasHistory(old(movements), productId))
                ==> n == DeleteRefusedHistory
      ensures productId in old(products) && old(products)[productId].quantity <= 0 && !HasHistory(old(movements), productId) ==>
                && n == ProductDeleted
                && products == old(products) - {productId}
                && movements == old(movements) && users == old(users) && roles == old(roles)
                && nextUserId == old(nextUserId) && nextProductId == old(nextProductId)
                && nextMovementId == old(nextMovementId)
      ensures n != ProductDeleted ==> unchanged(this)
    {
      if productId !in products {
        return NotFound;
      }
      if products[productId].quantity > 0 {
        return DeleteRefusedStock;
      }
      if HasHistory(movements, productId) {
        return DeleteRefusedHistory;
      }
      products := products - {productId};
      n := ProductDeleted;
    }

    /** usuarios_nuevo: every field is required (a role id of 0 counts as missing); the insert is
        refused when the email is taken or the role does not exist, and the source reports both
        as a taken email. `email` is the stripped, lower-cased form value; `credential` is the
        hash of `password`. */
    method AddUser(name: string, email: string, password: string, credential: string, roleId: int, active: bool)
      returns (n: Notice)
      requires Valid()
      modifies this
      ensures Valid()
      ensures name == "" || email == "" || password == "" || roleId == 0 ==> n == FieldsRequired
      ensures (name != "" && email != "" && password != "" && roleId != 0
               && (EmailTaken(old(users), email) || roleId !in old(roles))) ==> n == EmailExists
      ensures (name != "" && email != "" && password != "" && roleId != 0
               && !EmailTaken(old(users), email) && roleId in old(roles)) ==>
                && n == UserCreated
                && old(nextUserId) !in old(users)
                && users == old(users)[old(nextUserId) := User(name, email, credential, roleId, active)]
                && nextUserId == old(nextUserId) + 1
                && products == old(products) && movements == old(movements) && roles == old(roles)
                && nextProductId == old(nextProductId) && nextMovementId == old(nextMovementId)
      ensures n != UserCreated ==> unchanged(this)
    {
      if name == "" || email == "" || password == "" || roleId == 0 {
        return FieldsRequired;
      }
      if EmailTaken(users, email) || roleId !in roles {
        return EmailExists;
      }
      users := users[nextUserId := User(name, email, credential, roleId, active)];
      nextUserId := nextUserId + 1;
      n := UserCreated;
    }

    /** usuarios_editar: overwrites the user's name, email and status, the role when one is
        given and the credential when a new password is given. The same integrity failures as
        usuarios_nuevo roll the edit back. The status is applied to the acting user as well. */
    method EditUser(userId: int, name: string, email: string, credential: Option<string>, roleId: Option<int>,
                    active: bool) returns (n: Notice)
      requires Valid()
      modifies this
      ensures Valid()
      ensures userId !in old(users) ==> n == NotFound
      ensures userId in old(users) ==>
                var u := old(users)[userId];
                var role := if roleId.Some? then roleId.value else u.roleId;
                var cred := if credential.Some? then credential.value else u.credential;
                && (EmailTaken(old(users) - {userId}, email) || role !in old(roles) ==> n == EmailExists)
                && (!EmailTaken(old(users) - {userId}, email) && role in old(roles) ==>
                      && n == UserUpdated
                      && users == old(users)[userId := User(name, email, cred, role, active)]
                      && products == old(products) && movements == old(movements) && roles == old(roles)
                      && nextUserId == old(nextUserId) && nextProductId == old(nextProductId)
                      && nextMovementId == old(nextMovementId))
      ensures n != UserUpdated ==> unchanged(this)
    {
      if userId !in users {
        return NotFound;
      }
      var u := users[userId];
      var role := if roleId.Some? then roleId.value else u.roleId;
      var cred := if credential.Some? then credential.value else u.credential;
      if EmailTaken(users - {userId}, email) || role !in roles {
        return EmailExists;
      }
      var edited := users[userId := User(name, email, cred, role, active)];
      assert UniqueEmails(edited) by {
        forall a, b | a in edited && b in edited && a != b ensures edited[a].email != edited[b].email {
          if a == userId { assert b in users - {userId}; }
          else if b == userId { assert a in users - {userId}; }
        }
      }
      users := edited;
      n := UserUpdated;
    }

    /** usuarios_desactivar: any user but the acting one becomes inactive. */
    method DeactivateUser(userId: int, actor: int) returns (n: Notice)
      requires Valid()
      modifies this
      ensures Valid()
      ensures userId !in old(users) ==> n == NotFound && unchanged(this)
      ensures userId in old(users) && userId == actor ==> n == CannotDeactivateSelf && unchanged(this)
      ensures userId in old(users) && userId != actor ==>
                && n == UserDeactivated
                && users == old(users)[userId := old(users)[userId].(active := false)]
                && products == old(products) && movements == old(movements) && roles == old(roles)
                && nextUserId == old(nextUserId) && nextProductId == old(nextProductId)
                && nextMovementId == old(nextMovementId)
    {
      if userId !in users {
        return NotFound;
      }
      if userId == actor {
        return CannotDeactivateSelf;
      }
      users := users[userId := users[userId].(active := false)];
      n := UserDeactivated;
    }

    /** usuarios_eliminar: any user but the acting one is deleted, unless movements still
        reference the user, in which case the foreign key makes the commit fail. */
    method DeleteUser(userId: int, actor: int) returns (n: Notice)
      requires Valid()
      modifies this
      ensures Valid()
      ensures userId !in old(users) ==> n == NotFound
      ensures userId in old(users) && userId == actor ==> n == CannotDeleteSelf
      ensures userId in old(users) && userId != actor && HasAuthored(old(movements), userId) ==> n == ServerError
      ensures userId in old(users) && userId != actor && !HasAuthored(old(movements), userId) ==>
                && n == UserDeleted
                && users == old(users) - {userId}
                && products == old(products) && movements == old(movements) && roles == old(roles)
                && nextUserId == old(nextUserId) && nextProductId == old(nextProductId)
                && nextMovementId == old(nextMovementId)
      ensures n != UserDeleted ==> unchanged(this)
    {
      if userId !in users {
        return NotFound;
      }
      if userId == actor {
        return CannotDeleteSelf;
      }
      if HasAuthored(movements, userId) {
        return ServerError;
      }
      users := users - {userId};
      n := UserDeleted;
    }

    /** historico: the movements that pass the type and date filters, newest first. The joins
        with productos and usuarios drop no row, since every movement's references exist. */
    method ListHistory(kindParam: string, from: DateArg, to: DateArg) returns (rows: seq<Movement>)
      requires Valid()
      ensures forall m :: m in rows <==> m in movements && KindAdmits(kindParam, m.kind) && InWindow(m.timestamp, from, to)
      ensures IdsDecreasing(rows)
      ensures forall m :: m in rows ==> m.productId in products && m.userId in users
    {
      rows := NewestFirst(movements, kindParam, from, to);
      forall m | m in rows ensures m.productId in products && m.userId in users {
        var i :| 0 <= i < |movements| && movements[i] == m;
      }
    }
  }
}

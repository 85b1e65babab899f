/** The records of models.py (tables roles, usuarios, productos, movimientos) and the
    constraints their column definitions place on the stored rows. Rows live in maps keyed by
    their surrogate id (idRol, idUsuario, idProducto); a movement keeps its idMovimiento because
    the history is ordered by it. */
module Models {

  /** Movimiento.tipo as app.py writes it: 'E' for an entry, 'S' for an exit. */
  const ENTRY: char := 'E'
  const EXIT: char := 'S'

  /** Largest value of a db.Integer column: the store (SQL Server) holds it as a 32-bit INT. */
  const MAX_INT: int := 0x7FFF_FFFF

  /** Rol: nombre is required and unique. */
  datatype Role = Role(name: string)

  /** Usuario: nombre, correo (unique), contrasena (a hash, opaque here), idRol, estatus. */
  datatype User = User(name: string, email: string, credential: string, roleId: int, active: bool)

  /** Producto: nombre (unique), cantidad (the current stock), estatus (active flag). */
  datatype Product = Product(name: string, quantity: int, active: bool)

  /** Movimiento: idMovimiento, idProducto, idUsuario, tipo (one character), cantidad, fecha_hora. */
  datatype Movement = Movement(id: int, productId: int, userId: int, kind: char, quantity: int, timestamp: int)

  /** roles.nombre is unique. */
  ghost predicate UniqueRoleNames(roles: map<int, Role>)
  {
    forall a, b :: a in roles && b in roles && a != b ==> roles[a].name != roles[b].name
  }

  /** usuarios.correo is unique. */
  ghost predicate UniqueEmails(users: map<int, User>)
  {
    forall a, b :: a in users && b in users && a != b ==> users[a].email != users[b].email
  }

  /** productos.nombre is unique. */
  ghost predicate UniqueProductNames(products: map<int, Product>)
  {
    forall a, b :: a in products && b in products && a != b ==> products[a].name != products[b].name
  }

  /** The name check of inventario_agregar keeps every stored product name non-empty. */
  ghost predicate NamedProducts(products: map<int, Product>)
  {
    forall a :: a in products ==> products[a].name != ""
  }

  /** usuarios.idRol is a foreign key into roles. */
  ghost predicate RolesExist(users: map<int, User>, roles: map<int, Role>)
  {
    forall u :: u in users ==> users[u].roleId in roles
  }

  /** movimientos.idProducto and movimientos.idUsuario are required foreign keys. */
  ghost predicate MovementRefsExist(movements: seq<Movement>, products: map<int, Product>, users: map<int, User>)
  {
    forall i :: 0 <= i < |movements| ==> movements[i].productId in products && movements[i].userId in users
  }

  /** Every movement app.py writes is an 'E' or an 'S' of a positive quantity that fits its INT column. */
  ghost predicate WrittenByApp(movements: seq<Movement>)
  {
    forall i :: 0 <= i < |movements| ==>
      (movements[i].kind == ENTRY || movements[i].kind == EXIT) && 0 < movements[i].quantity <= MAX_INT
  }

  /** idMovimiento is auto-incremented: a later row has a larger id. */
  ghost predicate IdsIncreasing(movements: seq<Movement>)
  {
    forall i, j :: 0 <= i < j < |movements| ==> movements[i].id < movements[j].id
  }

  /** The listing order of historico: each row has a larger id than the rows after it. */
  ghost predicate IdsDecreasing(movements: seq<Movement>)
  {
    forall i, j :: 0 <= i < j < |movements| ==> movements[i].id > movements[j].id
  }

  /** Some stored product already carries this name. */
  predicate NameTaken(products: map<int, Product>, name: string)
  {
    exists p :: p in products && products[p].name == name
  }

  /** Some stored user already has this email. */
  predicate EmailTaken(users: map<int, User>, email: string)
  {
    exists u :: u in users && users[u].email == email
  }

  /** Some movement references the product (the query of inventario_eliminar's second check). */
  predicate HasHistory(movements: seq<Movement>, productId: int)
  {
    exists i :: 0 <= i < |movements| && movements[i].productId == productId
  }

  /** Some movement was recorded by the user (rows that keep the user's row alive by foreign key). */
  predicate HasAuthored(movements: seq<Movement>, userId: int)
  {
    exists i :: 0 <= i < |movements| && movements[i].userId == userId
  }
}

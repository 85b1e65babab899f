/** Runs of the handlers, one after another, on a fresh store: what a caller can conclude from
    the contracts of Inventory.Warehouse alone. */
module Scenarios {
  import opened Optional
  import opened Models
  import opened Inventory

  /** A store with one administrator (user 1) and one product (product 1) with stock 0. */
  method Seeded() returns (w: Warehouse)
    ensures w.Valid() && fresh(w)
    ensures 1 in w.users && w.users[1].active && 1 in w.products && w.products[1] == Product("Tornillo", 0, true)
    ensures w.movements == []
  {
    w := new Warehouse(map[1 := Role("Administrador")]);
    var n := w.AddUser("Admin", "admin@almacen.mx", "secreto", "h1", 1, true);
    assert n == UserCreated;
    n := w.AddProduct("Tornillo", true);
    assert n == ProductCreated;
  }

  /** An entry of 50 on an empty product, an entry that would overflow the stock column, then a
      refused exit of 60. */
  method EntryThenOverdraw()
  {
    var w := Seeded();
    var n := w.RecordEntry(1, Some(50), 1, 1000);
    assert n == EntryRecorded(50) && w.products[1].quantity == 50 && |w.movements| == 1;
    n := w.RecordEntry(1, Some(MAX_INT), 1, 1500);
    assert n == ServerError && w.products[1].quantity == 50 && |w.movements| == 1;
    n := w.RecordExit(Some(1), Some(60), 1, 2000, Accepted);
    assert n == ExceedsAvailable && w.products[1].quantity == 50 && |w.movements| == 1;
  }

  /** Two exits of 8 against a stock of 10: the first commits, the second is refused. */
  method TwoExitsOfEight()
  {
    var w := Seeded();
    var n := w.RecordEntry(1, Some(10), 1, 1000);
    assert n == EntryRecorded(10);
    n := w.RecordExit(Some(1), Some(8), 1, 2000, Accepted);
    assert n == ExitRecorded && w.products[1].quantity == 2;
    n := w.RecordExit(Some(1), Some(8), 1, 2001, Accepted);
    assert n == ExceedsAvailable && w.products[1].quantity == 2 && |w.movements| == 2;
    n := w.DeleteProduct(1);
    assert n == DeleteRefusedStock && 1 in w.products;
  }

  /** The acting administrator can neither deactivate nor delete their own account. */
  method SelfProtection()
  {
    var w := Seeded();
    var n := w.DeactivateUser(1, 1);
    assert n == CannotDeactivateSelf && w.users[1].active;
    n := w.DeleteUser(1, 1);
    assert n == CannotDeleteSelf && 1 in w.users;
  }
}

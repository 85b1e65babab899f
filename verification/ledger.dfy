/** The movement ledger and the stock it implies: for every product, the stored cantidad is the
    sum of its 'E' quantities minus the sum of its 'S' quantities. */
module Ledger {
  import opened Models

  /** Sum of the quantities of the movements of `kind` recorded for the product. */
  function Total(movements: seq<Movement>, productId: int, kind: char): int
    decreases |movements|
  {
    if movements == [] then 0
    else
      var last := movements[|movements| - 1];
      Total(movements[..|movements| - 1], productId, kind)
        + (if last.productId == productId && last.kind == kind then last.quantity else 0)
  }

  /** The stock the ledger implies for a product. */
  function Balance(movements: seq<Movement>, productId: int): int
  {
    Total(movements, productId, ENTRY) - Total(movements, productId, EXIT)
  }

  /** Signed effect of one movement on its own product's stock. */
  function Signed(m: Movement): int
  {
    if m.kind == ENTRY then m.quantity else if m.kind == EXIT then -m.quantity else 0
  }

  /** The stored cantidad of every product equals the ledger balance, is never negative and
      fits its INT column. */
  ghost predicate StockMatchesLedger(products: map<int, Product>, movements: seq<Movement>)
  {
    forall p :: p in products ==>
      products[p].quantity == Balance(movements, p) && 0 <= products[p].quantity <= MAX_INT
  }

  /** Appending one movement adds its quantity to the total of its own product and kind, and to no other. */
  lemma TotalAppend(movements: seq<Movement>, m: Movement, productId: int, kind: char)
    ensures Total(movements + [m], productId, kind)
         == Total(movements, productId, kind) + (if m.productId == productId && m.kind == kind then m.quantity else 0)
  {
    assert (movements + [m])[..|movements|] == movements;
  }

  /** Appending one movement moves its own product's balance by Signed(m) and leaves every other balance alone. */
  lemma BalanceAppend(movements: seq<Movement>, m: Movement, productId: int)
    requires m.kind == ENTRY || m.kind == EXIT
    ensures Balance(movements + [m], productId)
         == Balance(movements, productId) + (if m.productId == productId then Signed(m) else 0)
  {
    TotalAppend(movements, m, productId, ENTRY);
    TotalAppend(movements, m, productId, EXIT);
  }

  /** A product that no movement references has totals 0, hence balance 0. */
  lemma {:induction false} TotalUnreferenced(movements: seq<Movement>, productId: int, kind: char)
    requires !HasHistory(movements, productId)
    ensures Total(movements, productId, kind) == 0
    decreases |movements|
  {
    if movements != [] {
      var prefix := movements[..|movements| - 1];
      assert !HasHistory(prefix, productId) by {
        forall i | 0 <= i < |prefix| ensures prefix[i].productId != productId {
          assert prefix[i] == movements[i];
        }
      }
      TotalUnreferenced(prefix, productId, kind);
    }
  }

  /** Under the ledger invariant a product with stock has history: the stock check of
      inventario_eliminar only ever refuses products that the history check would refuse as well. */
  lemma StockImpliesHistory(products: map<int, Product>, movements: seq<Movement>, productId: int)
    requires StockMatchesLedger(products, movements)
    requires productId in products && products[productId].quantity != 0
    ensures HasHistory(movements, productId)
  {
    if !HasHistory(movements, productId) {
      TotalUnreferenced(movements, productId, ENTRY);
      TotalUnreferenced(movements, productId, EXIT);
    }
  }

  /** Recording a movement and moving its product's stock by the same signed amount keeps the
      stock and the ledger in lockstep, as long as the new stock stays within 0..MAX_INT. */
  lemma PostKeepsLedger(products: map<int, Product>, movements: seq<Movement>, m: Movement)
    requires StockMatchesLedger(products, movements)
    requires m.kind == ENTRY || m.kind == EXIT
    requires m.productId in products && 0 <= products[m.productId].quantity + Signed(m) <= MAX_INT
    ensures StockMatchesLedger(
              products[m.productId := products[m.productId].(quantity := products[m.productId].quantity + Signed(m))],
              movements + [m])
  {
    var after := products[m.productId := products[m.productId].(quantity := products[m.productId].quantity + Signed(m))];
    forall p | p in after
      ensures after[p].quantity == Balance(movements + [m], p) && 0 <= after[p].quantity <= MAX_INT
    {
      BalanceAppend(movements, m, p);
    }
  }

  /** A product admitted with quantity 0 under an id no movement references keeps the invariant. */
  lemma AdmitKeepsLedger(products: map<int, Product>, movements: seq<Movement>, productId: int, p: Product)
    requires StockMatchesLedger(products, movements)
    requires !HasHistory(movements, productId)
    requires p.quantity == 0
    ensures StockMatchesLedger(products[productId := p], movements)
  {
    TotalUnreferenced(movements, productId, ENTRY);
    TotalUnreferenced(movements, productId, EXIT);
  }
}

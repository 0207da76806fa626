/**
 Inventory transactions and the two simple views of an item's stock
 (internal/models/inventory_transaction.go, internal/models/inventory_item.go).
 */
module Transactions {
  import opened Basics

  datatype TxnType = Purchase | Disposal | Sell | TransferOut | TransferIn | ReconcileStockUp | Initial | Unknown

  datatype Txn = Txn(
    id: nat, createdAt: int, itemID: nat, txnType: TxnType, price: real, quantity: real, consumed: real,
    counter: Option<nat>, poItemID: Option<nat>)

  /** The signed effect of a transaction on its item's stock. */
  function StockDelta(t: TxnType, qty: real): real {
    match t
    case Purchase | TransferIn | ReconcileStockUp | Initial => qty
    case Sell | Disposal | TransferOut => -qty
    case Unknown => 0.0
  }

  /** The types whose rows are stock layers. */
  const CONSUMABLE_TYPES: seq<TxnType> := [Purchase, TransferIn, ReconcileStockUp, Initial]

  predicate IsConsumable(t: TxnType) {
    t in CONSUMABLE_TYPES
  }

  predicate IsOutbound(t: TxnType) {
    t == Sell || t == Disposal || t == TransferOut
  }

  /** A type adds its quantity exactly when its rows are consumable, and takes it away exactly when it is outbound. */
  lemma {:induction false} ConsumableTypesAddStock(t: TxnType, qty: real)
    requires qty > 0.0
    ensures StockDelta(t, qty) == qty <==> IsConsumable(t)
    ensures StockDelta(t, qty) == -qty <==> IsOutbound(t)
    ensures StockDelta(t, qty) == 0.0 <==> t == Unknown
  {
    assert IsConsumable(t) <==> t == Purchase || t == TransferIn || t == ReconcileStockUp || t == Initial;
  }

  /** The signed quantity of a transaction of the given item. */
  function DeltaOf(id: nat): Txn -> real {
    (t: Txn) => if t.itemID == id then StockDelta(t.txnType, t.quantity) else 0.0
  }

  /** The net quantity per item: an item has an entry exactly when some transaction names it. */
  method AggTxnQuantities(txns: seq<Txn>) returns (quantities: map<nat, real>)
    ensures forall id :: id in quantities <==> exists t :: t in txns && t.itemID == id
    ensures forall id :: id in quantities ==> quantities[id] == SumBy(txns, DeltaOf(id))
  {
    quantities := map[];
    var i := 0;
    while i < |txns|
      invariant i <= |txns|
      invariant forall id :: id in quantities <==> exists t :: t in txns[..i] && t.itemID == id
      invariant forall id: nat {:trigger id in quantities} ::
                (if id in quantities then quantities[id] else 0.0) == SumBy(txns[..i], DeltaOf(id))
    {
      var t := txns[i];
      assert txns[..i + 1] == txns[..i] + [t];
      forall id: nat
        ensures SumBy(txns[..i + 1], DeltaOf(id)) == SumBy(txns[..i], DeltaOf(id)) + DeltaOf(id)(t)
      {
        SumStep(txns, i, DeltaOf(id));
      }
      var current := if t.itemID in quantities then quantities[t.itemID] else 0.0;
      quantities := quantities[t.itemID := current + StockDelta(t.txnType, t.quantity)];
      i := i + 1;
    }
    assert txns[..i] == txns;
  }

  // ----- the ledger check -----

  datatype LedgerError = QuantityWithoutLayers | LayersWithoutQuantity | TotalMismatch(total: real)

  function Left(): Txn -> real {
    (t: Txn) => t.quantity - t.consumed
  }

  /** The quantity is the layers' unconsumed stock, and an item without stock lists no layers. */
  ghost predicate LedgerAccepted(quantity: real, layers: seq<Txn>) {
    SumBy(layers, Left()) == quantity && (quantity == 0.0 <==> layers == [])
  }

  /** Compares an item's quantity with the unconsumed stock of the layers loaded for it. */
  method ValidateActivePurchaseTransactions(quantity: real, layers: seq<Txn>) returns (error: Option<LedgerError>)
    ensures error == None <==> LedgerAccepted(quantity, layers)
    ensures error == Some(QuantityWithoutLayers) <==> quantity != 0.0 && layers == []
    ensures error == Some(LayersWithoutQuantity) <==> quantity == 0.0 && layers != []
    ensures error.Some? && error.value.TotalMismatch? ==> error.value.total == SumBy(layers, Left()) != quantity
  {
    if quantity == 0.0 && |layers| == 0 {
      return None;
    }
    if quantity != 0.0 && |layers| == 0 {
      return Some(QuantityWithoutLayers);
    }
    if quantity == 0.0 && |layers| != 0 {
      return Some(LayersWithoutQuantity);
    }
    var total := 0.0;
    var i := 0;
    while i < |layers|
      invariant i <= |layers| && total == SumBy(layers[..i], Left())
    {
      SumStep(layers, i, Left());
      total := total + (layers[i].quantity - layers[i].consumed);
      i := i + 1;
    }
    assert layers[..i] == layers;
    if total != quantity {
      return Some(TotalMismatch(total));
    }
    return None;
  }

  /** Over layers that all have stock left, the check is exactly the equality of quantity and unconsumed stock. */
  lemma {:induction false} ActiveLayersDecide(quantity: real, layers: seq<Txn>)
    requires forall t :: t in layers ==> t.quantity - t.consumed > 0.0
    ensures LedgerAccepted(quantity, layers) <==> SumBy(layers, Left()) == quantity
  {
    if layers != [] {
      var last := layers[|layers| - 1];
      assert last in layers;
      SumNonNegative(layers[..|layers| - 1], Left());
    }
  }

  /** On books that agree the check fails exactly for an item at zero that still lists used-up layers. */
  lemma {:induction false} RejectedThoughEqual(quantity: real, layers: seq<Txn>)
    requires SumBy(layers, Left()) == quantity
    ensures !LedgerAccepted(quantity, layers) <==> quantity == 0.0 && layers != []
  {
    if layers == [] {
      assert SumBy(layers, Left()) == 0.0;
    }
  }

  /** A purchase of 5, all of it used up, is refused for an item at zero. */
  lemma {:induction false} UsedUpLayerIsRefused() returns (layer: Txn)
    ensures layer.txnType == Purchase && layer.quantity == layer.consumed == 5.0
    ensures SumBy([layer], Left()) == 0.0 && !LedgerAccepted(0.0, [layer])
  {
    layer := Txn(1, 10, 1, Purchase, 2.0, 5.0, 5.0, None, None);
    SumOne(layer, Left());
    RejectedThoughEqual(0.0, [layer]);
  }
}

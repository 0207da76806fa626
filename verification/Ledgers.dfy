/**
 The stock tables and what applying a plan does to them (cmd/util/reconcile.go and
 cmd/util/dispose.go, the stock part of the apply functions; loadActiveItems). Three views of an
 item's stock are kept in agreement: its quantity, its layers, and the net of its transactions.
 */
module Ledgers {
  import opened Basics
  import opened Fifo
  import opened FifoLaws
  import opened Plans
  import opened Settlement
  import T = Transactions

  datatype ItemRow = ItemRow(quantity: real, active: bool)

  /** The item table, the transaction table and its next id. */
  datatype Ledger = Ledger(items: map<nat, ItemRow>, txns: seq<T.Txn>, nextTxn: nat)

  // ----- loading -----

  function LayerId(): Layer -> int {
    (l: Layer) => l.id
  }

  function LayerOf(t: T.Txn): Layer {
    Layer(t.id, t.createdAt, t.quantity, t.consumed, t.price)
  }

  predicate IsLayerOf(t: T.Txn, item: nat) {
    t.itemID == item && T.IsConsumable(t.txnType)
  }

  function LayerRows(txns: seq<T.Txn>, item: nat): seq<Layer> {
    if txns == [] then
      []
    else
      var rest, t := LayerRows(txns[..|txns| - 1], item), txns[|txns| - 1];
      if IsLayerOf(t, item) then rest + [LayerOf(t)] else rest
  }

  /** The order of the load query: by creation time, then id. */
  function LoadOrder(): (Layer, Layer) -> bool {
    By(LayerTime(), By(LayerId(), Always()))
  }

  /** An item's consumable rows by creation time, then id. */
  function LayersOf(txns: seq<T.Txn>, item: nat): seq<Layer> {
    SortBy2(LayerRows(txns, item), LayerTime(), LayerId())
  }

  /** The active items with their layers. */
  function ActiveItems(g: Ledger): map<nat, Item> {
    map id | id in g.items && g.items[id].active :: Item(g.items[id].quantity, LayersOf(g.txns, id))
  }

  // ----- applying -----

  datatype ApplyError = ItemNotFound(itemID: nat) | LockConflict(itemID: nat, expected: real, found: real)

  /** The item table after the first n updates, or the first one whose quantity is not the planned one. */
  ghost function SetQuantities(
    items: map<nat, ItemRow>, updates: seq<ItemUpdate>, n: nat)
    : Result<map<nat, ItemRow>, ApplyError>
    requires n <= |updates|
  {
    if n == 0 then
      Ok(items)
    else
      var earlier, u := SetQuantities(items, updates, n - 1), updates[n - 1];
      if earlier.Err? then earlier
      else if u.itemID !in items then Err(ItemNotFound(u.itemID))
      else if items[u.itemID].quantity != u.originalQty
        then Err(LockConflict(u.itemID, u.originalQty, items[u.itemID].quantity))
      else Ok(earlier.value[u.itemID := items[u.itemID].(quantity := u.newQty)])
  }

  function TypeOf(kind: TxnKind): T.TxnType {
    if kind == Sell then T.Sell else T.Disposal
  }

  /** The row of a synthesized transaction; its counter is the layer it draws on. */
  function RowOf(t: SyntheticTxn, id: nat): T.Txn {
    T.Txn(id, t.at, t.itemID, TypeOf(t.kind), t.price, t.quantity, 0.0, Some(t.source), None)
  }

  ghost function NewRows(txns: seq<SyntheticTxn>, next: nat): seq<T.Txn> {
    if txns == [] then
      []
    else
      NewRows(txns[..|txns| - 1], next) + [RowOf(txns[|txns| - 1], next + |txns| - 1)]
  }

  /** The rows with the consumed quantities of the updates. */
  ghost function WithConsumed(txns: seq<T.Txn>, updates: seq<LayerUpdate>): (r: seq<T.Txn>)
    ensures |r| == |txns|
  {
    if txns == [] then
      []
    else
      var t := txns[|txns| - 1];
      WithConsumed(txns[..|txns| - 1], updates) + [t.(consumed := Updated(updates, t.id, t.consumed))]
  }

  /** What applying a plan makes of the stock tables. */
  ghost function ApplyStock(g: Ledger, plan: StockPlan): Result<Ledger, ApplyError> {
    match SetQuantities(g.items, plan.itemUpdates, |plan.itemUpdates|)
    case Err(e) => Err(e)
    case Ok(items) =>
      Ok(Ledger(items, WithConsumed(g.txns + NewRows(plan.txns, g.nextTxn), plan.layerUpdates),
        g.nextTxn + |plan.txns|))
  }

  // ----- the three views -----

  function UnconsumedOf(item: nat): T.Txn -> real {
    (t: T.Txn) => if IsLayerOf(t, item) then t.quantity - t.consumed else 0.0
  }

  function DrawnOn(layer: nat): T.Txn -> real {
    (t: T.Txn) => if T.IsOutbound(t.txnType) && t.counter == Some(layer) then t.quantity else 0.0
  }

  /** The unconsumed stock in the item's layers. */
  ghost function LayerStock(g: Ledger, item: nat): real {
    SumBy(g.txns, UnconsumedOf(item))
  }

  /** The net of the item's transactions. */
  ghost function NetStock(g: Ledger, item: nat): real {
    SumBy(g.txns, T.DeltaOf(item))
  }

  /** What outbound transactions have drawn from a layer. */
  ghost function Drawn(g: Ledger, layer: nat): real {
    SumBy(g.txns, DrawnOn(layer))
  }

  ghost predicate UniqueIds(txns: seq<T.Txn>) {
    forall i, j :: 0 <= i < |txns| && 0 <= j < |txns| && txns[i].id == txns[j].id ==> i == j
  }

  /** Row ids are unique and used up; no quantity is negative; no layer is consumed beyond what it holds. */
  ghost predicate Sound(g: Ledger) {
    && UniqueIds(g.txns)
    && (forall t :: t in g.txns ==> t.id < g.nextTxn && t.quantity >= 0.0)
    && (forall t :: t in g.txns && T.IsConsumable(t.txnType) ==> 0.0 <= t.consumed <= t.quantity)
  }

  /** The three views of stock agree, for every item and every layer. */
  ghost predicate Agree(g: Ledger) {
    && (forall id {:trigger g.items[id]} :: id in g.items ==>
          LayerStock(g, id) == g.items[id].quantity && NetStock(g, id) == g.items[id].quantity)
    && (forall t :: t in g.txns && T.IsConsumable(t.txnType) ==> t.consumed == Drawn(g, t.id))
  }

  /** Where the views agree, no item's quantity is negative. */
  lemma {:induction false} NoNegativeStock(g: Ledger, id: nat)
    requires Sound(g) && Agree(g) && id in g.items
    ensures g.items[id].quantity >= 0.0
  {
    SumNonNegative(g.txns, UnconsumedOf(id));
    assert g.items[id].quantity == LayerStock(g, id);
  }

  // ----- loading is faithful -----

  /** The item's layers that have stock left. */
  function ActiveLayerOf(item: nat): T.Txn -> bool {
    (t: T.Txn) => IsLayerOf(t, item) && t.quantity - t.consumed > 0.0
  }

  /**
   On a sound ledger the service's check of an item's active layers passes exactly when the layers'
   stock is the quantity.
   */
  lemma {:induction false} CheckPassesExactlyWhen(g: Ledger, id: nat)
    requires Sound(g) && id in g.items
    ensures T.LedgerAccepted(g.items[id].quantity, Filter(g.txns, ActiveLayerOf(id))) <==>
            LayerStock(g, id) == g.items[id].quantity
  {
    var active := Filter(g.txns, ActiveLayerOf(id));
    T.ActiveLayersDecide(g.items[id].quantity, active);
    SumFiltered(g.txns, ActiveLayerOf(id), UnconsumedOf(id));
    SumAgree(active, UnconsumedOf(id), T.Left());
  }

  lemma {:induction false} LayerRowsAre(txns: seq<T.Txn>, item: nat, l: Layer)
    ensures l in LayerRows(txns, item) <==> exists t :: t in txns && IsLayerOf(t, item) && LayerOf(t) == l
  {
    if txns != [] {
      var front, t := txns[..|txns| - 1], txns[|txns| - 1];
      assert txns == front + [t];
      LayerRowsAre(front, item, l);
    }
  }

  lemma {:induction false} LayersAre(txns: seq<T.Txn>, item: nat, l: Layer)
    ensures l in LayersOf(txns, item) <==> exists t :: t in txns && IsLayerOf(t, item) && LayerOf(t) == l
  {
    LayerRowsAre(txns, item, l);
    SortBy2Sorts(LayerRows(txns, item), LayerTime(), LayerId());
    assert l in multiset(LayersOf(txns, item)) <==> l in multiset(LayerRows(txns, item));
  }

  lemma {:induction false} LayerRowsDistinct(txns: seq<T.Txn>, item: nat)
    requires UniqueIds(txns)
    ensures Distinct(LayerRows(txns, item))
  {
    if txns != [] {
      var front, t, rest := txns[..|txns| - 1], txns[|txns| - 1], LayerRows(txns[..|txns| - 1], item);
      LayerRowsDistinct(front, item);
      assert (rest + [LayerOf(t)])[..|rest|] == rest;
      LayerRowsAre(front, item, LayerOf(t));
      forall u | u in front
        ensures u.id != t.id
      {
        var i :| 0 <= i < |front| && front[i] == u;
        assert txns[i] == u && txns[|front|] == t;
      }
    }
  }

  /** What is loaded satisfies what the planners ask for: oldest layer first, distinct ids, no layer shared. */
  lemma {:induction false} LoadedItemsAreGood(g: Ledger)
    requires Sound(g)
    ensures GoodLedgers(ActiveItems(g))
    ensures forall id :: id in ActiveItems(g) ==> Pairwise(ActiveItems(g)[id].layers, LoadOrder())
    ensures DisjointLedgers(ActiveItems(g)) && NonNegativeConsumption(ActiveItems(g)) && SoundLayers(ActiveItems(g))
  {
    var items := ActiveItems(g);
    forall id | id in items
      ensures Chronological(items[id].layers) && DistinctIds(items[id].layers)
    {
      LayersAreGood(g, id);
    }
    forall id | id in items
      ensures Pairwise(items[id].layers, LoadOrder())
    {
      SortBy2Sorts(LayerRows(g.txns, id), LayerTime(), LayerId());
    }
    forall a, b | a in items && b in items && a != b
      ensures Ids(items[a].layers) !! Ids(items[b].layers)
    {
      LayersDisjoint(g, a, b);
    }
    forall id, l {:trigger l in items[id].layers} | id in items && l in items[id].layers
      ensures 0.0 <= l.consumed <= l.quantity
    {
      LayersAre(g.txns, id, l);
    }
  }

  lemma {:induction false} RowById(g: Ledger, t: T.Txn, u: T.Txn)
    requires Sound(g) && t in g.txns && u in g.txns && t.id == u.id
    ensures t == u
  {
    var i :| 0 <= i < |g.txns| && g.txns[i] == t;
    var j :| 0 <= j < |g.txns| && g.txns[j] == u;
  }

  lemma {:induction false} LayersAreGood(g: Ledger, id: nat)
    requires Sound(g)
    ensures Chronological(LayersOf(g.txns, id)) && DistinctIds(LayersOf(g.txns, id))
  {
    var layers := LayersOf(g.txns, id);
    StableSortSorts(StableSort(LayerRows(g.txns, id), LayerId()), LayerTime());
    LayerRowsDistinct(g.txns, id);
    StableSortDistinct(LayerRows(g.txns, id), LayerId());
    StableSortDistinct(StableSort(LayerRows(g.txns, id), LayerId()), LayerTime());
    forall i, j | 0 <= i < j < |layers|
      ensures layers[i].id != layers[j].id
    {
      DistinctAt(layers, i, j);
      LayersAre(g.txns, id, layers[i]);
      LayersAre(g.txns, id, layers[j]);
      var t :| t in g.txns && LayerOf(t) == layers[i];
      var u :| u in g.txns && LayerOf(u) == layers[j];
      if t.id == u.id {
        RowById(g, t, u);
      }
    }
  }

  lemma {:induction false} LayersDisjoint(g: Ledger, a: nat, b: nat)
    requires Sound(g) && a != b
    ensures Ids(LayersOf(g.txns, a)) !! Ids(LayersOf(g.txns, b))
  {
    forall x | x in Ids(LayersOf(g.txns, a)) && x in Ids(LayersOf(g.txns, b))
      ensures false
    {
      var t := RowOfLayerId(g, a, x);
      var u := RowOfLayerId(g, b, x);
      RowById(g, t, u);
    }
  }

  /** The row behind a loaded layer id. */
  lemma {:induction false} RowOfLayerId(g: Ledger, item: nat, x: nat) returns (t: T.Txn)
    requires x in Ids(LayersOf(g.txns, item))
    ensures t in g.txns && t.id == x && IsLayerOf(t, item) && LayerOf(t) in LayersOf(g.txns, item)
  {
    var layers := LayersOf(g.txns, item);
    IdsAre(layers, x);
    var i :| 0 <= i < |layers| && layers[i].id == x;
    LayersAre(g.txns, item, layers[i]);
    t :| t in g.txns && IsLayerOf(t, item) && LayerOf(t) == layers[i];
  }

  // ----- applying keeps the views in agreement -----

  lemma {:induction false} WithConsumedAt(txns: seq<T.Txn>, updates: seq<LayerUpdate>, i: nat)
    requires i < |txns|
    ensures WithConsumed(txns, updates)[i] == txns[i].(consumed := Updated(updates, txns[i].id, txns[i].consumed))
  {
    if i < |txns| - 1 {
      WithConsumedAt(txns[..|txns| - 1], updates, i);
    }
  }

  /** A sum that looks at a row only through f is the sum over the old rows of f after the update. */
  lemma {:induction false} SumWithConsumed(
    txns: seq<T.Txn>, updates: seq<LayerUpdate>, f: T.Txn -> real, h: T.Txn -> real)
    requires forall t :: t in txns ==> f(t.(consumed := Updated(updates, t.id, t.consumed))) == h(t)
    ensures SumBy(WithConsumed(txns, updates), f) == SumBy(txns, h)
  {
    if txns != [] {
      var t := txns[|txns| - 1];
      assert t in txns;
      SumWithConsumed(txns[..|txns| - 1], updates, f, h);
      SumSnoc(WithConsumed(txns[..|txns| - 1], updates), t.(consumed := Updated(updates, t.id, t.consumed)), f);
    }
  }

  lemma {:induction false} NewRowsAre(txns: seq<SyntheticTxn>, next: nat)
    ensures |NewRows(txns, next)| == |txns|
    ensures forall i :: 0 <= i < |txns| ==> NewRows(txns, next)[i] == RowOf(txns[i], next + i)
  {
    if txns != [] {
      NewRowsAre(txns[..|txns| - 1], next);
    }
  }

  /** A sum over the new rows is the sum over the transactions they were made of. */
  lemma {:induction false} SumNewRows(txns: seq<SyntheticTxn>, next: nat, f: T.Txn -> real, h: SyntheticTxn -> real)
    requires forall t, id: nat {:trigger RowOf(t, id)} :: t in txns ==> f(RowOf(t, id)) == h(t)
    ensures SumBy(NewRows(txns, next), f) == SumBy(txns, h)
  {
    if txns != [] {
      var t := txns[|txns| - 1];
      assert t in txns;
      SumNewRows(txns[..|txns| - 1], next, f, h);
      SumSnoc(NewRows(txns[..|txns| - 1], next), RowOf(t, next + |txns| - 1), f);
    }
  }

  /** What the plan draws from an old row, if the row is one of the item's layers. */
  function PlannedDraw(txns: seq<SyntheticTxn>, item: nat): T.Txn -> real {
    (t: T.Txn) => if IsLayerOf(t, item) then SumBy(txns, QuantityFrom(t.id)) else 0.0
  }

  function DrawByLast(last: SyntheticTxn, item: nat): T.Txn -> real {
    (t: T.Txn) => if IsLayerOf(t, item) && last.source == t.id then last.quantity else 0.0
  }

  lemma {:induction false} SumOfOne(txns: seq<T.Txn>, i: nat, f: T.Txn -> real)
    requires i < |txns| && forall j :: 0 <= j < |txns| && j != i ==> f(txns[j]) == 0.0
    ensures SumBy(txns, f) == f(txns[i])
  {
    SumWithout(txns, i, f);
    SumZero(txns[..i] + txns[i + 1..], f);
  }

  /** A transaction draws on exactly one row, a layer of its own item. */
  lemma {:induction false} DrawnOnce(g: Ledger, last: SyntheticTxn, item: nat)
    requires Sound(g) && last.source in Ids(LayersOf(g.txns, last.itemID))
    ensures SumBy(g.txns, DrawByLast(last, item)) == if last.itemID == item then last.quantity else 0.0
  {
    var t := RowOfLayerId(g, last.itemID, last.source);
    var i :| 0 <= i < |g.txns| && g.txns[i] == t;
    assert forall j :: 0 <= j < |g.txns| && j != i ==> g.txns[j].id != t.id;
    SumOfOne(g.txns, i, DrawByLast(last, item));
  }

  /** Summed over an item's layers, the planned draws are the planned transactions of the item. */
  lemma {:induction false} DrawsByLayerAreDrawsByItem(g: Ledger, txns: seq<SyntheticTxn>, item: nat)
    requires Sound(g) && forall t :: t in txns ==> t.source in Ids(LayersOf(g.txns, t.itemID))
    ensures SumBy(g.txns, PlannedDraw(txns, item)) == SumBy(txns, OfItem(item))
  {
    if txns == [] {
      SumZero(g.txns, PlannedDraw(txns, item));
    } else {
      var front, last := txns[..|txns| - 1], txns[|txns| - 1];
      assert last in txns;
      DrawsByLayerAreDrawsByItem(g, front, item);
      DrawnOnce(g, last, item);
      SumPlus(g.txns, PlannedDraw(front, item), DrawByLast(last, item), PlannedDraw(txns, item));
    }
  }

  /** A plan that fits the ledger: it settles the active items it names. */
  ghost predicate Fits(g: Ledger, plan: StockPlan, ids: seq<nat>) {
    (forall id :: id in ids ==> id in ActiveItems(g)) && Distinct(ids) && SettlesAll(plan, ids, ActiveItems(g))
  }

  lemma {:induction false} SourceIsLayer(g: Ledger, plan: StockPlan, ids: seq<nat>, t: SyntheticTxn)
    requires Fits(g, plan, ids) && t in plan.txns
    ensures t.itemID in ids && t.quantity > 0.0 && t.source in Ids(LayersOf(g.txns, t.itemID))
  {
  }

  /** Every layer row of the ledger grows by exactly what the plan draws from it, within what it holds. */
  lemma {:induction false} RowGrowth(g: Ledger, plan: StockPlan, ids: seq<nat>, t: T.Txn)
    requires Sound(g) && Fits(g, plan, ids) && t in g.txns && T.IsConsumable(t.txnType)
    ensures Updated(plan.layerUpdates, t.id, t.consumed) == t.consumed + SumBy(plan.txns, QuantityFrom(t.id))
    ensures Updated(plan.layerUpdates, t.id, t.consumed) <= t.quantity
  {
    var items := ActiveItems(g);
    if t.itemID in ids {
      LayersAre(g.txns, t.itemID, LayerOf(t));
      assert LayerOf(t) in items[t.itemID].layers;
      assert WithinLayer(plan.layerUpdates, LayerOf(t));
    } else {
      forall u | u in plan.layerUpdates
        ensures u.layerID != t.id
      {
        var id :| id in ids && u.layerID in Ids(items[id].layers);
        NotThatLayer(g, id, u.layerID, t);
      }
      NotUpdated(plan.layerUpdates, t.id, t.consumed);
      forall s | s in plan.txns
        ensures s.source != t.id
      {
        SourceIsLayer(g, plan, ids, s);
        NotThatLayer(g, s.itemID, s.source, t);
      }
      SumZero(plan.txns, QuantityFrom(t.id));
    }
  }

  lemma {:induction false} NotThatLayer(g: Ledger, item: nat, x: nat, t: T.Txn)
    requires Sound(g) && x in Ids(LayersOf(g.txns, item)) && t in g.txns && t.itemID != item
    ensures x != t.id
  {
    var u := RowOfLayerId(g, item, x);
    if x == t.id {
      RowById(g, t, u);
    }
  }

  // ----- the item table -----

  lemma {:induction false} SetQuantitiesAre(items: map<nat, ItemRow>, updates: seq<ItemUpdate>, n: nat)
    requires n <= |updates| && SetQuantities(items, updates, n).Ok?
    ensures SetQuantities(items, updates, n).value.Keys == items.Keys
    ensures forall id {:trigger SetQuantities(items, updates, n).value[id]} :: id in items ==>
              SetQuantities(items, updates, n).value[id].active == items[id].active
    ensures forall id {:trigger SetQuantities(items, updates, n).value[id]} ::
              id in items && (forall k :: 0 <= k < n ==> updates[k].itemID != id) ==>
              SetQuantities(items, updates, n).value[id] == items[id]
  {
    if n > 0 {
      SetQuantitiesAre(items, updates, n - 1);
    }
  }

  lemma {:induction false} SetQuantityAt(items: map<nat, ItemRow>, updates: seq<ItemUpdate>, n: nat, k: nat)
    requires k < n <= |updates| && SetQuantities(items, updates, n).Ok?
    requires forall i, j :: 0 <= i < j < |updates| ==> updates[i].itemID != updates[j].itemID
    ensures updates[k].itemID in SetQuantities(items, updates, n).value
    ensures SetQuantities(items, updates, n).value[updates[k].itemID].quantity == updates[k].newQty
  {
    if k < n - 1 {
      SetQuantityAt(items, updates, n - 1, k);
    }
  }

  lemma {:induction false} UpdatesDistinct(plan: StockPlan, ids: seq<nat>, items: map<nat, Item>)
    requires (forall id :: id in ids ==> id in items) && Distinct(ids) && ItemsSettled(plan, ids, items)
    ensures forall i, j :: 0 <= i < j < |plan.itemUpdates| ==> plan.itemUpdates[i].itemID != plan.itemUpdates[j].itemID
    ensures forall k :: 0 <= k < |ids| ==> plan.itemUpdates[k].itemID == ids[k]
  {
    forall i, j | 0 <= i < j < |plan.itemUpdates|
      ensures plan.itemUpdates[i].itemID != plan.itemUpdates[j].itemID
    {
      DistinctAt(ids, i, j);
      assert plan.itemUpdates[i].itemID == ids[i] && plan.itemUpdates[j].itemID == ids[j];
    }
  }

  /** An item's quantity falls by the planned transactions of the item. */
  lemma {:induction false} QuantityAfter(g: Ledger, plan: StockPlan, ids: seq<nat>, g': Ledger, id: nat)
    requires Fits(g, plan, ids) && ApplyStock(g, plan) == Ok(g') && id in g.items
    ensures g'.items.Keys == g.items.Keys && id in g'.items
    ensures g'.items[id] == g.items[id].(quantity := g.items[id].quantity - SumBy(plan.txns, OfItem(id)))
  {
    var items, n := ActiveItems(g), |plan.itemUpdates|;
    SetQuantitiesAre(g.items, plan.itemUpdates, n);
    UpdatesDistinct(plan, ids, items);
    if id in ids {
      var k :| 0 <= k < |ids| && ids[k] == id;
      SetQuantityAt(g.items, plan.itemUpdates, n, k);
      assert plan.itemUpdates[k] ==
        ItemUpdate(id, items[id].quantity, items[id].quantity - SumBy(plan.txns, OfItem(id)));
      assert g'.items[id].active == g.items[id].active;
    } else {
      forall k | 0 <= k < n
        ensures plan.itemUpdates[k].itemID != id
      {
        assert plan.itemUpdates[k].itemID == ids[k];
        assert ids[k] in ids;
      }
      forall t | t in plan.txns
        ensures t.itemID != id
      {
        SourceIsLayer(g, plan, ids, t);
      }
      SumZero(plan.txns, OfItem(id));
    }
  }

  // ----- the transaction table -----

  /** The rows after the apply: the old rows with their consumption, then the new ones as they were inserted. */
  lemma {:induction false} RowsAfter(g: Ledger, plan: StockPlan, ids: seq<nat>, g': Ledger)
    requires Sound(g) && Fits(g, plan, ids) && ApplyStock(g, plan) == Ok(g')
    ensures g'.txns == WithConsumed(g.txns, plan.layerUpdates) + NewRows(plan.txns, g.nextTxn)
    ensures g'.nextTxn == g.nextTxn + |plan.txns|
  {
    var rows := NewRows(plan.txns, g.nextTxn);
    NewRowsAre(plan.txns, g.nextTxn);
    WithConsumedConcat(g.txns, rows, plan.layerUpdates);
    forall u | u in plan.layerUpdates
      ensures u.layerID < g.nextTxn
    {
      var id :| id in ids && u.layerID in Ids(ActiveItems(g)[id].layers);
      var t := RowOfLayerId(g, id, u.layerID);
    }
    forall i | 0 <= i < |rows|
      ensures WithConsumed(rows, plan.layerUpdates)[i] == rows[i]
    {
      WithConsumedAt(rows, plan.layerUpdates, i);
      NotUpdated(plan.layerUpdates, rows[i].id, rows[i].consumed);
    }
    assert WithConsumed(rows, plan.layerUpdates) == rows;
  }

  lemma {:induction false} WithConsumedConcat(a: seq<T.Txn>, b: seq<T.Txn>, updates: seq<LayerUpdate>)
    ensures WithConsumed(a + b, updates) == WithConsumed(a, updates) + WithConsumed(b, updates)
  {
    if b == [] {
      assert a + b == a;
    } else {
      assert (a + b)[..|a + b| - 1] == a + b[..|b| - 1];
      WithConsumedConcat(a, b[..|b| - 1], updates);
    }
  }

  /** What an old row holds after the updates. */
  function LeftOf(txns: seq<SyntheticTxn>, item: nat): T.Txn -> real {
    (t: T.Txn) => UnconsumedOf(item)(t) - PlannedDraw(txns, item)(t)
  }

  lemma {:induction false} OldRowLeft(g: Ledger, plan: StockPlan, ids: seq<nat>, item: nat, t: T.Txn)
    requires Sound(g) && Fits(g, plan, ids) && t in g.txns
    ensures UnconsumedOf(item)(t.(consumed := Updated(plan.layerUpdates, t.id, t.consumed))) ==
            LeftOf(plan.txns, item)(t)
  {
    if IsLayerOf(t, item) {
      RowGrowth(g, plan, ids, t);
    }
  }

  /** The old rows hold what they held, less what the plan draws on them. */
  lemma {:induction false} OldRowsLeft(g: Ledger, plan: StockPlan, ids: seq<nat>, item: nat)
    requires Sound(g) && Fits(g, plan, ids)
    ensures SumBy(WithConsumed(g.txns, plan.layerUpdates), UnconsumedOf(item))
         == SumBy(g.txns, UnconsumedOf(item)) - SumBy(g.txns, PlannedDraw(plan.txns, item))
  {
    forall t | t in g.txns
      ensures UnconsumedOf(item)(t.(consumed := Updated(plan.layerUpdates, t.id, t.consumed))) ==
              LeftOf(plan.txns, item)(t)
    {
      OldRowLeft(g, plan, ids, item, t);
    }
    SumWithConsumed(g.txns, plan.layerUpdates, UnconsumedOf(item), LeftOf(plan.txns, item));
    SumPlus(g.txns, LeftOf(plan.txns, item), PlannedDraw(plan.txns, item), UnconsumedOf(item));
  }

  lemma {:induction false} LayerStockAfter(g: Ledger, plan: StockPlan, ids: seq<nat>, g': Ledger, item: nat)
    requires Sound(g) && Fits(g, plan, ids) && ApplyStock(g, plan) == Ok(g')
    ensures LayerStock(g', item) == LayerStock(g, item) - SumBy(plan.txns, OfItem(item))
  {
    RowsAfter(g, plan, ids, g');
    SumConcat(WithConsumed(g.txns, plan.layerUpdates), NewRows(plan.txns, g.nextTxn), UnconsumedOf(item));
    OldRowsLeft(g, plan, ids, item);
    DrawsByLayerAreDrawsByItem(g, plan.txns, item);
    NewRowsAreNoLayers(plan.txns, g.nextTxn, item);
  }

  lemma {:induction false} NewRowsAreNoLayers(txns: seq<SyntheticTxn>, next: nat, item: nat)
    ensures SumBy(NewRows(txns, next), UnconsumedOf(item)) == 0.0
  {
    NewRowsAre(txns, next);
    SumZero(NewRows(txns, next), UnconsumedOf(item));
  }

  function Outflow(item: nat): SyntheticTxn -> real {
    (t: SyntheticTxn) => if t.itemID == item then -t.quantity else 0.0
  }

  lemma {:induction false} NewRowsNet(txns: seq<SyntheticTxn>, next: nat, item: nat)
    ensures SumBy(NewRows(txns, next), T.DeltaOf(item)) == -SumBy(txns, OfItem(item))
  {
    SumNewRows(txns, next, T.DeltaOf(item), Outflow(item));
    SumNegated(txns, OfItem(item), Outflow(item));
  }

  lemma {:induction false} NetStockAfter(g: Ledger, plan: StockPlan, ids: seq<nat>, g': Ledger, item: nat)
    requires Sound(g) && Fits(g, plan, ids) && ApplyStock(g, plan) == Ok(g')
    ensures NetStock(g', item) == NetStock(g, item) - SumBy(plan.txns, OfItem(item))
  {
    RowsAfter(g, plan, ids, g');
    SumConcat(WithConsumed(g.txns, plan.layerUpdates), NewRows(plan.txns, g.nextTxn), T.DeltaOf(item));
    SumWithConsumed(g.txns, plan.layerUpdates, T.DeltaOf(item), T.DeltaOf(item));
    NewRowsNet(plan.txns, g.nextTxn, item);
  }

  lemma {:induction false} DrawnAfter(g: Ledger, plan: StockPlan, ids: seq<nat>, g': Ledger, layer: nat)
    requires Sound(g) && Fits(g, plan, ids) && ApplyStock(g, plan) == Ok(g')
    ensures Drawn(g', layer) == Drawn(g, layer) + SumBy(plan.txns, QuantityFrom(layer))
  {
    RowsAfter(g, plan, ids, g');
    SumConcat(WithConsumed(g.txns, plan.layerUpdates), NewRows(plan.txns, g.nextTxn), DrawnOn(layer));
    SumWithConsumed(g.txns, plan.layerUpdates, DrawnOn(layer), DrawnOn(layer));
    SumNewRows(plan.txns, g.nextTxn, DrawnOn(layer), QuantityFrom(layer));
  }

  /** Every row after the apply is an old row with its consumption updated, or a new outbound row. */
  lemma {:induction false} RowAfter(g: Ledger, plan: StockPlan, ids: seq<nat>, g': Ledger, i: nat)
    requires Sound(g) && Fits(g, plan, ids) && ApplyStock(g, plan) == Ok(g') && i < |g'.txns|
    ensures |g'.txns| == |g.txns| + |plan.txns|
    ensures i < |g.txns| ==>
              g'.txns[i] == g.txns[i].(consumed := Updated(plan.layerUpdates, g.txns[i].id, g.txns[i].consumed))
    ensures i >= |g.txns| ==> g'.txns[i] == RowOf(plan.txns[i - |g.txns|], g.nextTxn + (i - |g.txns|))
    ensures i >= |g.txns| ==> !T.IsConsumable(g'.txns[i].txnType) && g'.txns[i].quantity > 0.0
  {
    RowsAfter(g, plan, ids, g');
    NewRowsAre(plan.txns, g.nextTxn);
    if i < |g.txns| {
      WithConsumedAt(g.txns, plan.layerUpdates, i);
    } else {
      SourceIsLayer(g, plan, ids, plan.txns[i - |g.txns|]);
    }
  }

  /** Applying a plan that fits keeps the tables sound. */
  lemma {:induction false} ApplyKeepsSound(g: Ledger, plan: StockPlan, ids: seq<nat>, g': Ledger)
    requires Sound(g) && Fits(g, plan, ids) && ApplyStock(g, plan) == Ok(g')
    ensures Sound(g')
  {
    RowsAfter(g, plan, ids, g');
    NewRowsAre(plan.txns, g.nextTxn);
    forall i | 0 <= i < |g'.txns|
      ensures g'.txns[i].id == if i < |g.txns| then g.txns[i].id else g.nextTxn + (i - |g.txns|)
      ensures i < |g.txns| ==> g.txns[i].id < g.nextTxn
      ensures g'.txns[i].quantity >= 0.0
      ensures T.IsConsumable(g'.txns[i].txnType) ==> 0.0 <= g'.txns[i].consumed <= g'.txns[i].quantity
    {
      RowAfter(g, plan, ids, g', i);
      if i < |g.txns| {
        var t := g.txns[i];
        assert t in g.txns;
        if T.IsConsumable(t.txnType) {
          RowGrowth(g, plan, ids, t);
          DrawsNonNegative(g, plan, ids, t.id);
        }
      }
    }
  }

  lemma {:induction false} DrawsNonNegative(g: Ledger, plan: StockPlan, ids: seq<nat>, layer: nat)
    requires Fits(g, plan, ids)
    ensures SumBy(plan.txns, QuantityFrom(layer)) >= 0.0
  {
    forall t | t in plan.txns
      ensures QuantityFrom(layer)(t) >= 0.0
    {
      SourceIsLayer(g, plan, ids, t);
    }
    SumNonNegative(plan.txns, QuantityFrom(layer));
  }

  /** Applying a plan that fits keeps quantity, layers and transactions in agreement. */
  lemma {:induction false} ApplyKeepsAgreement(g: Ledger, plan: StockPlan, ids: seq<nat>, g': Ledger)
    requires Sound(g) && Agree(g) && Fits(g, plan, ids) && ApplyStock(g, plan) == Ok(g')
    ensures Agree(g')
  {
    forall id {:trigger g'.items[id]} | id in g'.items
      ensures LayerStock(g', id) == g'.items[id].quantity && NetStock(g', id) == g'.items[id].quantity
    {
      SetQuantitiesAre(g.items, plan.itemUpdates, |plan.itemUpdates|);
      QuantityAfter(g, plan, ids, g', id);
      LayerStockAfter(g, plan, ids, g', id);
      NetStockAfter(g, plan, ids, g', id);
    }
    forall t' | t' in g'.txns && T.IsConsumable(t'.txnType)
      ensures t'.consumed == Drawn(g', t'.id)
    {
      var i :| 0 <= i < |g'.txns| && g'.txns[i] == t';
      RowAfter(g, plan, ids, g', i);
      var t := g.txns[i];
      assert t in g.txns;
      RowGrowth(g, plan, ids, t);
      DrawnAfter(g, plan, ids, g', t.id);
    }
  }

  /** A plan that fits the ledger it was made from always applies: its locks hold. */
  lemma {:induction false} FittingPlanApplies(g: Ledger, plan: StockPlan, ids: seq<nat>, n: nat)
    requires Fits(g, plan, ids) && n <= |plan.itemUpdates|
    ensures SetQuantities(g.items, plan.itemUpdates, n).Ok?
  {
    if n > 0 {
      FittingPlanApplies(g, plan, ids, n - 1);
      assert ids[n - 1] in ids;
    }
  }
}

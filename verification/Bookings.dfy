/**
 The stock tables after a command (cmd/util/reconcile.go and cmd/util/dispose.go, the stock part of the
 apply functions; loadActiveItems), row by row and field by field.
 */
module Bookings {
  import opened Basics
  import opened Fifo
  import opened FifoLaws
  import opened Plans
  import opened Settlement
  import opened Ledgers
  import T = Transactions

  // ----- what is loaded -----

  /** The layer is the row. */
  ghost predicate LayerShows(l: Layer, t: T.Txn) {
    && l.id == t.id && l.createdAt == t.createdAt && l.quantity == t.quantity && l.consumed == t.consumed
    && l.price == t.price
  }

  /** A row that brings stock in. */
  predicate BringsStock(t: T.Txn, item: nat) {
    && t.itemID == item
    && (t.txnType == T.Purchase || t.txnType == T.TransferIn
        || t.txnType == T.ReconcileStockUp || t.txnType == T.Initial)
  }

  /** Loading gives the active items, with their quantities and all the rows that brought them stock. */
  lemma {:induction false} LoadedItems(g: Ledger, id: nat)
    ensures id in ActiveItems(g) <==> id in g.items && g.items[id].active
    ensures id in ActiveItems(g) ==> ActiveItems(g)[id].quantity == g.items[id].quantity
    ensures id in ActiveItems(g) ==> forall t :: t in g.txns && BringsStock(t, id) ==>
              exists l :: l in ActiveItems(g)[id].layers && LayerShows(l, t)
    ensures id in ActiveItems(g) ==> forall l :: l in ActiveItems(g)[id].layers ==>
              exists t :: t in g.txns && BringsStock(t, id) && LayerShows(l, t)
  {
    forall t | t in g.txns && BringsStock(t, id)
      ensures exists l :: l in LayersOf(g.txns, id) && LayerShows(l, t)
    {
      LayersAre(g.txns, id, LayerOf(t));
    }
    forall l | l in LayersOf(g.txns, id)
      ensures exists t :: t in g.txns && BringsStock(t, id) && LayerShows(l, t)
    {
      LayersAre(g.txns, id, l);
      var t :| t in g.txns && IsLayerOf(t, id) && LayerOf(t) == l;
      assert BringsStock(t, id);
    }
  }

  // ----- what is written -----

  /** The row books the synthesized transaction under the id: its date, price, source and type. */
  ghost predicate BookedAs(row: T.Txn, t: SyntheticTxn, id: nat) {
    && row.id == id && row.createdAt == t.at && row.itemID == t.itemID && row.price == t.price
    && row.quantity == t.quantity && row.consumed == 0.0 && row.counter == Some(t.source) && row.poItemID == None
    && (t.kind == Sell ==> row.txnType == T.Sell) && (t.kind == Disposal ==> row.txnType == T.Disposal)
  }

  /** An old row: as it was, but for what the plan draws from it. */
  ghost predicate DrawnDown(row: T.Txn, old_: T.Txn, txns: seq<SyntheticTxn>) {
    row == old_.(consumed := old_.consumed + SumBy(txns, QuantityFrom(old_.id)))
  }

  /** The tables after the plan: old rows drawn down, a new row per transaction, quantities lowered. */
  ghost predicate BooksPlan(g: Ledger, plan: StockPlan, g': Ledger) {
    && |g'.txns| == |g.txns| + |plan.txns| && g'.nextTxn == g.nextTxn + |plan.txns|
    && (forall i {:trigger g'.txns[i]} :: 0 <= i < |g.txns| ==> DrawnDown(g'.txns[i], g.txns[i], plan.txns))
    && (forall k {:trigger plan.txns[k]} :: 0 <= k < |plan.txns| ==>
          BookedAs(g'.txns[|g.txns| + k], plan.txns[k], g.nextTxn + k))
    && g'.items.Keys == g.items.Keys
    && (forall id :: id in g.items ==> LoweredItem(g.items[id], g'.items[id], id, plan.txns))
  }

  /** An item's row: its quantity falls by what the plan takes out of it; an inactive item is left alone. */
  ghost predicate LoweredItem(before: ItemRow, after: ItemRow, id: nat, txns: seq<SyntheticTxn>) {
    && after.active == before.active && after.quantity == before.quantity - SumBy(txns, OfItem(id))
    && (!before.active ==> after.quantity == before.quantity)
  }

  lemma {:induction false} OldRowDrawn(g: Ledger, plan: StockPlan, ids: seq<nat>, t: T.Txn)
    requires Sound(g) && Fits(g, plan, ids) && t in g.txns
    ensures Updated(plan.layerUpdates, t.id, t.consumed) == t.consumed + SumBy(plan.txns, QuantityFrom(t.id))
  {
    if T.IsConsumable(t.txnType) {
      RowGrowth(g, plan, ids, t);
    } else {
      forall u | u in plan.layerUpdates
        ensures u.layerID != t.id
      {
        var id :| id in ids && u.layerID in Ids(ActiveItems(g)[id].layers);
        NoLayerRow(g, id, u.layerID, t);
      }
      NotUpdated(plan.layerUpdates, t.id, t.consumed);
      forall s | s in plan.txns
        ensures s.source != t.id
      {
        SourceIsLayer(g, plan, ids, s);
        NoLayerRow(g, s.itemID, s.source, t);
      }
      SumZero(plan.txns, QuantityFrom(t.id));
    }
  }

  lemma {:induction false} NoLayerRow(g: Ledger, item: nat, x: nat, t: T.Txn)
    requires Sound(g) && x in Ids(LayersOf(g.txns, item)) && t in g.txns && !T.IsConsumable(t.txnType)
    ensures x != t.id
  {
    var u := RowOfLayerId(g, item, x);
    if x == t.id {
      RowById(g, t, u);
    }
  }

  lemma {:induction false} InactiveUntouched(g: Ledger, plan: StockPlan, ids: seq<nat>, id: nat)
    requires Fits(g, plan, ids) && id in g.items && !g.items[id].active
    ensures SumBy(plan.txns, OfItem(id)) == 0.0
  {
    forall t | t in plan.txns
      ensures t.itemID != id
    {
      SourceIsLayer(g, plan, ids, t);
      LoadedItems(g, t.itemID);
    }
    SumZero(plan.txns, OfItem(id));
  }

  /** Applying a plan that fits books it. */
  lemma {:induction false} ApplyBooks(g: Ledger, plan: StockPlan, ids: seq<nat>, g': Ledger)
    requires Sound(g) && Fits(g, plan, ids) && ApplyStock(g, plan) == Ok(g')
    ensures BooksPlan(g, plan, g')
  {
    RowsAfter(g, plan, ids, g');
    NewRowsAre(plan.txns, g.nextTxn);
    SetQuantitiesAre(g.items, plan.itemUpdates, |plan.itemUpdates|);
    forall i {:trigger g'.txns[i]} | 0 <= i < |g.txns|
      ensures DrawnDown(g'.txns[i], g.txns[i], plan.txns)
    {
      RowAfter(g, plan, ids, g', i);
      OldRowDrawn(g, plan, ids, g.txns[i]);
    }
    forall k {:trigger plan.txns[k]} | 0 <= k < |plan.txns|
      ensures BookedAs(g'.txns[|g.txns| + k], plan.txns[k], g.nextTxn + k)
    {
      RowAfter(g, plan, ids, g', |g.txns| + k);
    }
    forall id | id in g.items
      ensures LoweredItem(g.items[id], g'.items[id], id, plan.txns)
    {
      QuantityAfter(g, plan, ids, g', id);
      if !g.items[id].active {
        InactiveUntouched(g, plan, ids, id);
      }
    }
  }
}

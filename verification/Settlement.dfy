/**
 What makes a plan safe to apply: its transactions, its layer updates and its item updates tell the
 same story. Both planners produce such plans (cmd/util/reconcile.go, cmd/util/dispose.go).
 */
module Settlement {
  import opened Basics
  import opened Fifo
  import opened FifoLaws
  import opened Windows
  import opened Resolver
  import opened ResolverLaws
  import opened Plans
  import D = Disposal
  import P = Planner
  import S = Submissions

  function OfItem(id: nat): SyntheticTxn -> real {
    (t: SyntheticTxn) => if t.itemID == id then t.quantity else 0.0
  }

  /** A layer's consumed quantity after the updates: the last one that names it counts. */
  ghost function Updated(updates: seq<LayerUpdate>, id: nat, old_: real): real {
    if updates == [] then old_
    else if updates[|updates| - 1].layerID == id then updates[|updates| - 1].consumed
    else Updated(updates[..|updates| - 1], id, old_)
  }

  /** A layer is never drawn on beyond what it holds. */
  ghost predicate WithinLayer(updates: seq<LayerUpdate>, l: Layer) {
    Updated(updates, l.id, l.consumed) <= Max(l.consumed, l.quantity)
  }

  /**
   One item's plan: every layer's consumption grows by what is drawn from it, and the quantity falls by
   all that is drawn.
   */
  ghost predicate Settles(p: StockPlan, id: nat, item: Item) {
    && (forall t :: t in p.txns ==> t.itemID == id && t.quantity > 0.0 && t.source in Ids(item.layers))
    && (forall u :: u in p.layerUpdates ==> u.layerID in Ids(item.layers))
    && (forall l :: l in item.layers ==>
       Updated(p.layerUpdates, l.id, l.consumed) == l.consumed + SumBy(p.txns, QuantityFrom(l.id)))
    && (forall l :: l in item.layers ==> WithinLayer(p.layerUpdates, l))
    && p.itemUpdates == [ItemUpdate(id, item.quantity, item.quantity - SumBy(p.txns, Quantity()))]
  }

  ghost predicate ItemsSettled(plan: StockPlan, ids: seq<nat>, items: map<nat, Item>)
    requires forall id :: id in ids ==> id in items
  {
    && |plan.itemUpdates| == |ids|
    && forall k {:trigger ids[k]} :: 0 <= k < |ids| ==>
         plan.itemUpdates[k] == ItemUpdate(ids[k], items[ids[k]].quantity,
           items[ids[k]].quantity - SumBy(plan.txns, OfItem(ids[k])))
  }

  ghost predicate LayersSettled(plan: StockPlan, ids: seq<nat>, items: map<nat, Item>)
    requires forall id :: id in ids ==> id in items
  {
    forall id, l {:trigger l in items[id].layers} :: id in ids && l in items[id].layers ==>
      && Updated(plan.layerUpdates, l.id, l.consumed) == l.consumed + SumBy(plan.txns, QuantityFrom(l.id))
      && WithinLayer(plan.layerUpdates, l)
  }

  /** The same for the plan of several items. */
  ghost predicate SettlesAll(plan: StockPlan, ids: seq<nat>, items: map<nat, Item>)
    requires forall id :: id in ids ==> id in items
  {
    && (forall t :: t in plan.txns ==> t.itemID in ids && t.quantity > 0.0 && t.source in Ids(items[t.itemID].layers))
    && (forall u :: u in plan.layerUpdates ==> exists id :: id in ids && u.layerID in Ids(items[id].layers))
    && LayersSettled(plan, ids, items)
    && ItemsSettled(plan, ids, items)
  }

  /** No layer belongs to two items. */
  ghost predicate DisjointLedgers(items: map<nat, Item>) {
    forall a, b :: a in items && b in items && a != b ==> Ids(items[a].layers) !! Ids(items[b].layers)
  }

  // ----- updates -----

  lemma {:induction false} UpdatedConcat(a: seq<LayerUpdate>, b: seq<LayerUpdate>, id: nat, old_: real)
    ensures Updated(a + b, id, old_) == Updated(b, id, Updated(a, id, old_))
  {
    if b == [] {
      assert a + b == a;
    } else {
      assert (a + b)[..|a + b| - 1] == a + b[..|b| - 1];
      UpdatedConcat(a, b[..|b| - 1], id, old_);
    }
  }

  lemma {:induction false} NotUpdated(updates: seq<LayerUpdate>, id: nat, old_: real)
    requires forall u :: u in updates ==> u.layerID != id
    ensures Updated(updates, id, old_) == old_
  {
    if updates != [] {
      assert updates[|updates| - 1] in updates;
      NotUpdated(updates[..|updates| - 1], id, old_);
    }
  }

  lemma {:induction false} LayerHasId(layers: seq<Layer>, l: Layer)
    requires l in layers
    ensures l.id in Ids(layers)
  {
    var i :| 0 <= i < |layers| && layers[i] == l;
    IdsAre(layers, l.id);
  }

  // ----- joining -----

  lemma {:induction false} JoinLayer(plan: StockPlan, p: StockPlan, l: Layer)
    requires (forall u :: u in plan.layerUpdates ==> u.layerID != l.id) ||
             (forall u :: u in p.layerUpdates ==> u.layerID != l.id)
    ensures Updated(plan.layerUpdates + p.layerUpdates, l.id, l.consumed)
         == Updated(plan.layerUpdates, l.id, l.consumed) + Updated(p.layerUpdates, l.id, l.consumed) - l.consumed
    ensures SumBy(plan.txns + p.txns, QuantityFrom(l.id))
         == SumBy(plan.txns, QuantityFrom(l.id)) + SumBy(p.txns, QuantityFrom(l.id))
    ensures WithinLayer(plan.layerUpdates, l) && WithinLayer(p.layerUpdates, l) ==>
            WithinLayer(plan.layerUpdates + p.layerUpdates, l)
  {
    UpdatedConcat(plan.layerUpdates, p.layerUpdates, l.id, l.consumed);
    SumConcat(plan.txns, p.txns, QuantityFrom(l.id));
    if forall u :: u in plan.layerUpdates ==> u.layerID != l.id {
      NotUpdated(plan.layerUpdates, l.id, l.consumed);
    } else {
      NotUpdated(p.layerUpdates, l.id, Updated(plan.layerUpdates, l.id, l.consumed));
      NotUpdated(p.layerUpdates, l.id, l.consumed);
    }
  }

  lemma {:induction false} Untouched(txns: seq<SyntheticTxn>, updates: seq<LayerUpdate>, l: Layer)
    requires (forall u :: u in updates ==> u.layerID != l.id) && (forall t :: t in txns ==> t.source != l.id)
    ensures Updated(updates, l.id, l.consumed) == l.consumed && SumBy(txns, QuantityFrom(l.id)) == 0.0
    ensures WithinLayer(updates, l)
  {
    NotUpdated(updates, l.id, l.consumed);
    SumZero(txns, QuantityFrom(l.id));
  }

  lemma {:induction false} JoinLayers(plan: StockPlan, ids: seq<nat>, items: map<nat, Item>, p: StockPlan, id: nat)
    requires (forall x :: x in ids ==> x in items) && id in items && id !in ids && DisjointLedgers(items)
    requires SettlesAll(plan, ids, items) && Settles(p, id, items[id])
    ensures LayersSettled(Join(plan, p), ids + [id], items)
  {
    forall x, l | x in ids + [id] && l in items[x].layers
      ensures Updated(plan.layerUpdates + p.layerUpdates, l.id, l.consumed)
           == l.consumed + SumBy(plan.txns + p.txns, QuantityFrom(l.id))
      ensures WithinLayer(plan.layerUpdates + p.layerUpdates, l)
    {
      if x == id {
        JoinNewLayer(plan, ids, items, p, id, l);
      } else {
        JoinOldLayer(plan, ids, items, p, id, x, l);
      }
    }
  }

  lemma {:induction false} JoinNewLayer(
    plan: StockPlan, ids: seq<nat>, items: map<nat, Item>, p: StockPlan, id: nat, l: Layer)
    requires (forall x :: x in ids ==> x in items) && id in items && id !in ids && DisjointLedgers(items)
    requires SettlesAll(plan, ids, items) && Settles(p, id, items[id]) && l in items[id].layers
    ensures Updated(plan.layerUpdates + p.layerUpdates, l.id, l.consumed)
         == l.consumed + SumBy(plan.txns + p.txns, QuantityFrom(l.id))
    ensures WithinLayer(plan.layerUpdates + p.layerUpdates, l)
  {
    LayerHasId(items[id].layers, l);
    Untouched(plan.txns, plan.layerUpdates, l);
    JoinLayer(plan, p, l);
  }

  lemma {:induction false} JoinOldLayer(
    plan: StockPlan, ids: seq<nat>, items: map<nat, Item>, p: StockPlan, id: nat, x: nat, l: Layer)
    requires (forall y :: y in ids ==> y in items) && id in items && id !in ids && DisjointLedgers(items)
    requires SettlesAll(plan, ids, items) && Settles(p, id, items[id]) && x in ids && l in items[x].layers
    ensures Updated(plan.layerUpdates + p.layerUpdates, l.id, l.consumed)
         == l.consumed + SumBy(plan.txns + p.txns, QuantityFrom(l.id))
    ensures WithinLayer(plan.layerUpdates + p.layerUpdates, l)
  {
    LayerHasId(items[x].layers, l);
    Untouched(p.txns, p.layerUpdates, l);
    JoinLayer(plan, p, l);
  }

  lemma {:induction false} JoinItems(plan: StockPlan, ids: seq<nat>, items: map<nat, Item>, p: StockPlan, id: nat)
    requires (forall x :: x in ids ==> x in items) && id in items && id !in ids
    requires SettlesAll(plan, ids, items) && Settles(p, id, items[id])
    ensures ItemsSettled(Join(plan, p), ids + [id], items)
  {
    var all := ids + [id];
    forall k | 0 <= k < |all|
      ensures SumBy(plan.txns + p.txns, OfItem(all[k])) ==
              if k < |ids| then SumBy(plan.txns, OfItem(all[k])) else SumBy(p.txns, Quantity())
    {
      SumConcat(plan.txns, p.txns, OfItem(all[k]));
      if k < |ids| {
        assert all[k] in ids;
        SumZero(p.txns, OfItem(all[k]));
      } else {
        SumZero(plan.txns, OfItem(id));
        SumAgree(p.txns, OfItem(id), Quantity());
      }
    }
  }

  /** Plans of different items settle together. */
  lemma {:induction false} JoinSettles(plan: StockPlan, ids: seq<nat>, items: map<nat, Item>, p: StockPlan, id: nat)
    requires (forall x :: x in ids ==> x in items) && id in items && id !in ids && DisjointLedgers(items)
    requires SettlesAll(plan, ids, items) && Settles(p, id, items[id])
    ensures SettlesAll(Join(plan, p), ids + [id], items)
  {
    JoinLayers(plan, ids, items, p, id);
    JoinItems(plan, ids, items, p, id);
    var all := ids + [id];
    assert id in all && forall x :: x in ids ==> x in all;
    forall u | u in plan.layerUpdates + p.layerUpdates
      ensures exists x :: x in all && u.layerID in Ids(items[x].layers)
    {
      if u in plan.layerUpdates {
        var x :| x in ids && u.layerID in Ids(items[x].layers);
        assert x in all;
      }
    }
  }

  /** The order of the transactions does not matter. */
  lemma {:induction false} ReorderedSettles(
    plan: StockPlan, ids: seq<nat>, items: map<nat, Item>, txns: seq<SyntheticTxn>)
    requires (forall x :: x in ids ==> x in items) && SettlesAll(plan, ids, items)
    requires multiset(txns) == multiset(plan.txns)
    ensures SettlesAll(plan.(txns := txns), ids, items)
  {
    forall t | t in txns
      ensures t in plan.txns
    {
      assert t in multiset(txns);
    }
    forall id, l | id in ids && l in items[id].layers
      ensures SumBy(txns, QuantityFrom(l.id)) == SumBy(plan.txns, QuantityFrom(l.id))
    {
      SumPermuted(txns, plan.txns, QuantityFrom(l.id));
    }
    forall k | 0 <= k < |ids|
      ensures SumBy(txns, OfItem(ids[k])) == SumBy(plan.txns, OfItem(ids[k]))
    {
      SumPermuted(txns, plan.txns, OfItem(ids[k]));
    }
  }

  // ----- the dispose planner settles -----

  lemma {:induction false} WalkUpdates(layers: seq<Layer>, requested: real, n: nat, i: nat)
    requires n <= |layers| && i < |layers| && DistinctIds(layers)
    ensures Updated(D.LayerUpdatesOf(layers, requested, n), layers[i].id, layers[i].consumed)
         == layers[i].consumed + if i < n then Share(layers, i, 0.0, requested) else 0.0
  {
    if n > 0 {
      WalkUpdates(layers, requested, n - 1, i);
      var rest, all := D.LayerUpdatesOf(layers, requested, n - 1), D.LayerUpdatesOf(layers, requested, n);
      if Share(layers, n - 1, 0.0, requested) > 0.0 {
        assert all[..|all| - 1] == rest;
      }
    }
  }

  lemma {:induction false} EventTxnsBelong(
    item: nat, ev: Event, layers: seq<Layer>, lo: real, hi: real, t: SyntheticTxn)
    requires t in EventTxns(item, ev, layers, lo, hi, |layers|)
    ensures t.itemID == item && t.quantity > 0.0 && t.source in Ids(layers)
  {
    var i := EventTxnGiven(item, ev, layers, lo, hi, |layers|, t);
    IdsAre(layers, t.source);
  }

  lemma {:induction false} WalkLayerSettles(id: nat, layers: seq<Layer>, requested: real, at: Instant, i: nat)
    requires DistinctIds(layers) && i < |layers| && requested > 0.0
    ensures var p, l := StockPlan(EventTxns(id, Event(at, requested, false), layers, 0.0, requested, |layers|),
                                  D.LayerUpdatesOf(layers, requested, |layers|), []), layers[i];
            && Updated(p.layerUpdates, l.id, l.consumed) == l.consumed + SumBy(p.txns, QuantityFrom(l.id))
            && WithinLayer(p.layerUpdates, l)
  {
    EventDrawn(id, Event(at, requested, false), layers, 0.0, requested, |layers|, i);
    WalkUpdates(layers, requested, |layers|, i);
    ShareOfTotal(layers, i, requested);
  }

  lemma {:induction false} WalkSettles(id: nat, layers: seq<Layer>, requested: real, at: Instant)
    requires DistinctIds(layers) && 0.0 < requested <= Capacity(layers)
    ensures var p := StockPlan(EventTxns(id, Event(at, requested, false), layers, 0.0, requested, |layers|),
                               D.LayerUpdatesOf(layers, requested, |layers|), []);
            && (forall t :: t in p.txns ==> t.itemID == id && t.quantity > 0.0 && t.source in Ids(layers))
            && (forall u :: u in p.layerUpdates ==> u.layerID in Ids(layers))
            && (forall l :: l in layers ==>
               Updated(p.layerUpdates, l.id, l.consumed) == l.consumed + SumBy(p.txns, QuantityFrom(l.id)))
            && (forall l :: l in layers ==> WithinLayer(p.layerUpdates, l))
            && SumBy(p.txns, Quantity()) == requested
  {
    var ev := Event(at, requested, false);
    var txns, updates := EventTxns(id, ev, layers, 0.0, requested, |layers|),
      D.LayerUpdatesOf(layers, requested, |layers|);
    EventCovered(id, ev, layers, 0.0, requested, |layers|);
    forall t | t in txns
      ensures t.itemID == id && t.quantity > 0.0 && t.source in Ids(layers)
    {
      EventTxnsBelong(id, ev, layers, 0.0, requested, t);
    }
    forall u | u in updates
      ensures u.layerID in Ids(layers)
    {
      var i := D.UpdateOfLayer(layers, requested, |layers|, u);
      IdsAre(layers, u.layerID);
    }
    forall l | l in layers
      ensures Updated(updates, l.id, l.consumed) == l.consumed + SumBy(txns, QuantityFrom(l.id)) &&
              WithinLayer(updates, l)
    {
      var i :| 0 <= i < |layers| && layers[i] == l;
      WalkLayerSettles(id, layers, requested, at, i);
    }
  }

  /** A planned item settles: its disposals add up to the request, and the quantity never falls below zero. */
  lemma {:induction false} WalkedItemSettles(id: nat, requested: real, item: Item, at: Instant)
    requires DistinctIds(item.layers) && 0.0 < requested <= Capacity(item.layers)
    ensures var ev := Event(at, requested, false);
            var p := StockPlan(EventTxns(id, ev, item.layers, 0.0, requested, |item.layers|),
                               D.LayerUpdatesOf(item.layers, requested, |item.layers|),
                               [ItemUpdate(id, item.quantity, item.quantity - requested)]);
            Settles(p, id, item) && SumBy(p.txns, Quantity()) == requested
  {
    WalkSettles(id, item.layers, requested, at);
  }

  lemma {:induction false} NothingSettles(id: nat, item: Item)
    requires forall l :: l in item.layers ==> WithinLayer([], l)
    ensures Settles(StockPlan([], [], [ItemUpdate(id, item.quantity, item.quantity - 0.0)]), id, item)
  {
  }

  lemma {:induction false} PlannedItemSettles(id: nat, requested: real, item: Item, at: Instant)
    requires Chronological(item.layers) && DistinctIds(item.layers) && requested >= 0.0
    requires D.PlanItem(id, requested, item, at).Ok?
    ensures var p := D.PlanItem(id, requested, item, at).value;
            Settles(p, id, item) && SumBy(p.txns, Quantity()) == requested && item.quantity - requested >= 0.0
  {
    if requested > 0.0 {
      D.AvailableWithinCapacity(item.layers, at);
      WalkedItemSettles(id, requested, item, at);
    } else {
      NothingSettles(id, item);
    }
  }

  /** Every produced plan settles its item. */
  ghost predicate PlansSettle(plans: seq<Result<StockPlan, D.DisposeError>>, ids: seq<nat>, items: map<nat, Item>)
    requires |ids| == |plans| && forall id :: id in ids ==> id in items
  {
    forall k {:trigger plans[k]} :: 0 <= k < |ids| && plans[k].Ok? ==> Settles(plans[k].value, ids[k], items[ids[k]])
  }

  lemma {:induction false} JoinedPlansSettle(
    plans: seq<Result<StockPlan, D.DisposeError>>, ids: seq<nat>, items: map<nat, Item>, n: nat)
    requires n <= |ids| == |plans| && (forall id :: id in ids ==> id in items)
    requires PlansSettle(plans, ids, items) && DisjointLedgers(items) && Distinct(ids[..n])
    requires D.JoinPlans(plans, n).Ok?
    ensures SettlesAll(D.JoinPlans(plans, n).value, ids[..n], items)
  {
    if n > 0 {
      var id, before := ids[n - 1], ids[..n - 1];
      assert ids[..n][..n - 1] == before;
      assert ids[..n] == before + [id];
      JoinedPlansSettle(plans, ids, items, n - 1);
      JoinSettles(D.JoinPlans(plans, n - 1).value, before, items, plans[n - 1].value, id);
    }
  }

  lemma {:induction false} PlannedItemsSettle(
    ids: seq<nat>, requested: map<nat, real>, items: map<nat, Item>, at: Instant)
    requires GoodLedgers(items) && forall id :: id in ids ==> id in requested && id in items && requested[id] >= 0.0
    ensures PlansSettle(D.PlansOf(ids, requested, items, at), ids, items)
  {
    forall k | 0 <= k < |ids| && D.PlanItem(ids[k], requested[ids[k]], items[ids[k]], at).Ok?
      ensures Settles(D.PlanItem(ids[k], requested[ids[k]], items[ids[k]], at).value, ids[k], items[ids[k]])
    {
      assert ids[k] in ids;
      PlannedItemSettles(ids[k], requested[ids[k]], items[ids[k]], at);
    }
  }


  // ----- the resolver settles -----

  lemma {:induction false} GrownUpdates(layers: seq<Layer>, m: map<nat, real>, n: nat, i: nat)
    requires n <= |layers| && i < |layers| && DistinctIds(layers)
    ensures var l := layers[i]; var after := if l.id in m then m[l.id] else 0.0;
            Updated(P.GrownLayers(layers, m, n), l.id, l.consumed) ==
            if i < n && after > l.consumed then after else l.consumed
  {
    if n > 0 {
      GrownUpdates(layers, m, n - 1, i);
      var rest, all := P.GrownLayers(layers, m, n - 1), P.GrownLayers(layers, m, n);
      if all != rest {
        assert all[..|all| - 1] == rest;
      }
    }
  }

  lemma {:induction false} GrownBelong(layers: seq<Layer>, m: map<nat, real>, n: nat, u: LayerUpdate)
    requires n <= |layers| && u in P.GrownLayers(layers, m, n)
    ensures u.layerID in Ids(layers)
  {
    if u in P.GrownLayers(layers, m, n - 1) {
      GrownBelong(layers, m, n - 1, u);
    } else {
      IdsAre(layers, u.layerID);
    }
  }

  lemma {:induction false} TxnsBelong(s: ItemInput, kind: TxnKind, t: SyntheticTxn)
    requires t in TxnsOf(s.itemID, EventsOf(s), s.layers, kind, |EventsOf(s)|)
    ensures t.itemID == s.itemID && t.quantity > 0.0 && t.source in Ids(s.layers)
  {
    var e := TxnOfEvent(s.itemID, EventsOf(s), s.layers, kind, |EventsOf(s)|, t);
    IdsAre(s.layers, t.source);
  }

  lemma {:induction false} ScopeIds(input: ItemInput, id: nat)
    ensures id in Ids(Scope(input).layers) ==> id in Ids(input.layers)
  {
    IdsAre(Scope(input).layers, id);
    IdsAre(input.layers, id);
    if id in Ids(Scope(input).layers) {
      var i :| 0 <= i < |Scope(input).layers| && Scope(input).layers[i].id == id;
      assert Scope(input).layers[i] in input.layers;
      var j :| 0 <= j < |input.layers| && input.layers[j] == Scope(input).layers[i];
    }
  }

  /** What the resolution's transactions draw from a layer in scope is what its consumption grows by. */
  lemma {:induction false} ResolvedLayer(s: ItemInput, ignored: seq<nat>, i: nat)
    requires Settle(s, ignored).Ok? && DistinctIds(s.layers) && i < |s.layers|
    ensures var r, l := Settle(s, ignored).value, s.layers[i];
            && l.id in r.consumedAfter && l.consumed <= r.consumedAfter[l.id] <= Max(l.consumed, l.quantity)
            && r.consumedAfter[l.id] == l.consumed + SumBy(r.sells + r.disposals, QuantityFrom(l.id))
  {
    var r, total, f := Settle(s, ignored).value, TotalDemand(EventsOf(s)), QuantityFrom(s.layers[i].id);
    EventsPositive(s);
    ConsumedAfterAt(s.layers, total, |s.layers|, i);
    LayerDrawn(s.itemID, EventsOf(s), s.layers, |EventsOf(s)|, i);
    SumConcat(r.sells, r.disposals, f);
  }

  lemma {:induction false} OutOfScopeUnconsumed(layers: seq<Layer>, total: real, n: nat, id: nat)
    requires n <= |layers|
    ensures id in ConsumedAfter(layers, total, n) ==> exists i {:trigger layers[i]} :: 0 <= i < n && layers[i].id == id
  {
    if n > 0 && id != layers[n - 1].id {
      OutOfScopeUnconsumed(layers, total, n - 1, id);
    } else if n > 0 {
      assert layers[n - 1].id == id;
    }
  }

  /** A layer after the last count keeps its consumption, and no transaction names it. */
  lemma {:induction false} TrailingLayer(input: ItemInput, ignored: seq<nat>, l: Layer)
    requires DistinctIds(input.layers) && Settle(Scope(input), ignored).Ok?
    requires l in input.layers && l !in Scope(input).layers
    ensures var r := Settle(Scope(input), ignored).value;
            l.id !in r.consumedAfter && SumBy(r.sells + r.disposals, QuantityFrom(l.id)) == 0.0
  {
    var s, r := Scope(input), Settle(Scope(input), ignored).value;
    forall k | 0 <= k < |s.layers|
      ensures s.layers[k].id != l.id
    {
      assert s.layers[k] in input.layers;
      var i :| 0 <= i < |input.layers| && input.layers[i] == s.layers[k];
      var j :| 0 <= j < |input.layers| && input.layers[j] == l;
    }
    OutOfScopeUnconsumed(s.layers, TotalDemand(EventsOf(s)), |s.layers|, l.id);
    IdsAre(s.layers, l.id);
    forall t | t in r.sells + r.disposals
      ensures t.source != l.id
    {
      TxnsBelong(s, if t in r.sells then Sell else Disposal, t);
    }
    SumZero(r.sells + r.disposals, QuantityFrom(l.id));
  }

  /** Whatever Resolve accepts was settled from the scope. */
  lemma {:induction false} ResolveIsSettle(input: ItemInput) returns (ignored: seq<nat>)
    requires Resolve(input).Ok?
    ensures Resolve(input) == Settle(Scope(input), ignored)
  {
    ignored := if input.recs == [] then [] else Trailing(input.recs, input.disposes);
  }

  lemma {:induction false} ResolvedLayerSettles(input: ItemInput, ignored: seq<nat>, l: Layer)
    requires DistinctIds(input.layers) && WellFormed(Scope(input)) && Settle(Scope(input), ignored).Ok?
    requires l in input.layers && l.consumed >= 0.0
    ensures var r := Settle(Scope(input), ignored).value;
            var updates := P.GrownLayers(input.layers, r.consumedAfter, |input.layers|);
            && Updated(updates, l.id, l.consumed) == l.consumed + SumBy(r.sells + r.disposals, QuantityFrom(l.id))
            && WithinLayer(updates, l)
  {
    var s, r := Scope(input), Settle(Scope(input), ignored).value;
    var i :| 0 <= i < |input.layers| && input.layers[i] == l;
    GrownUpdates(input.layers, r.consumedAfter, |input.layers|, i);
    if l in s.layers {
      var j :| 0 <= j < |s.layers| && s.layers[j] == l;
      ResolvedLayer(s, ignored, j);
    } else {
      TrailingLayer(input, ignored, l);
    }
  }

  /** A resolved item settles. */
  lemma {:induction false} ResolvedItemSettles(input: ItemInput, item: Item)
    requires WellFormed(input) && item.layers == input.layers
    requires forall l :: l in item.layers ==> l.consumed >= 0.0
    ensures Resolve(input).Ok? ==> Settles(P.StockOf(input, item, Resolve(input).value), input.itemID, item)
  {
    if Resolve(input).Ok? {
      var ignored := ResolveIsSettle(input);
      SettledItemSettles(input, item, ignored);
    }
  }

  lemma {:induction false} SettledTxnsBelong(input: ItemInput, ignored: seq<nat>, t: SyntheticTxn)
    requires WellFormed(input) && Settle(Scope(input), ignored).Ok?
    requires var r := Settle(Scope(input), ignored).value; t in r.sells + r.disposals
    ensures t.itemID == input.itemID && t.quantity > 0.0 && t.source in Ids(input.layers)
  {
    var s, r := Scope(input), Settle(Scope(input), ignored).value;
    ScopeIsWellFormed(input);
    TxnsBelong(s, if t in r.sells then Sell else Disposal, t);
    ScopeIds(input, t.source);
  }

  lemma {:induction false} SettledLayers(input: ItemInput, item: Item, ignored: seq<nat>)
    requires WellFormed(input) && item.layers == input.layers && Settle(Scope(input), ignored).Ok?
    requires forall l :: l in item.layers ==> l.consumed >= 0.0
    ensures var p := P.StockOf(input, item, Settle(Scope(input), ignored).value);
            forall l :: l in item.layers ==>
              && Updated(p.layerUpdates, l.id, l.consumed) == l.consumed + SumBy(p.txns, QuantityFrom(l.id))
              && WithinLayer(p.layerUpdates, l)
  {
    ScopeIsWellFormed(input);
    forall l | l in item.layers
      ensures var p := P.StockOf(input, item, Settle(Scope(input), ignored).value);
              && Updated(p.layerUpdates, l.id, l.consumed) == l.consumed + SumBy(p.txns, QuantityFrom(l.id))
              && WithinLayer(p.layerUpdates, l)
    {
      ResolvedLayerSettles(input, ignored, l);
    }
  }

  lemma {:induction false} SettledTxns(input: ItemInput, ignored: seq<nat>)
    requires WellFormed(input) && Settle(Scope(input), ignored).Ok?
    ensures var r := Settle(Scope(input), ignored).value;
            forall t :: t in r.sells + r.disposals ==>
              t.itemID == input.itemID && t.quantity > 0.0 && t.source in Ids(input.layers)
  {
    var r := Settle(Scope(input), ignored).value;
    forall t | t in r.sells + r.disposals
      ensures t.itemID == input.itemID && t.quantity > 0.0 && t.source in Ids(input.layers)
    {
      SettledTxnsBelong(input, ignored, t);
    }
  }

  /** A resolution's stock plan settles the item when its transactions belong and its layers do. */
  lemma {:induction false} StockSettles(input: ItemInput, item: Item, r: Resolution)
    requires forall t :: t in r.sells + r.disposals ==>
               t.itemID == input.itemID && t.quantity > 0.0 && t.source in Ids(item.layers)
    requires var p := P.StockOf(input, item, r);
             forall l :: l in item.layers ==>
               && Updated(p.layerUpdates, l.id, l.consumed) == l.consumed + SumBy(p.txns, QuantityFrom(l.id))
               && WithinLayer(p.layerUpdates, l)
    ensures Settles(P.StockOf(input, item, r), input.itemID, item)
  {
    forall u | u in P.GrownLayers(item.layers, r.consumedAfter, |item.layers|)
      ensures u.layerID in Ids(item.layers)
    {
      GrownBelong(item.layers, r.consumedAfter, |item.layers|, u);
    }
    SumConcat(r.sells, r.disposals, Quantity());
  }

  lemma {:induction false} SettledItemSettles(input: ItemInput, item: Item, ignored: seq<nat>)
    requires WellFormed(input) && item.layers == input.layers && Settle(Scope(input), ignored).Ok?
    requires forall l :: l in item.layers ==> l.consumed >= 0.0
    ensures Settles(P.StockOf(input, item, Settle(Scope(input), ignored).value), input.itemID, item)
  {
    SettledTxns(input, ignored);
    SettledLayers(input, item, ignored);
    StockSettles(input, item, Settle(Scope(input), ignored).value);
  }

  // ----- whole plans -----

  lemma {:induction false} LinesDistinct(lines: seq<D.Request>, n: nat)
    requires n <= |lines| && D.GoodLines(lines)
    ensures Distinct(D.ItemIDs(lines, n))
  {
    if n > 0 {
      LinesDistinct(lines, n - 1);
      var ids := D.ItemIDs(lines, n - 1);
      forall i | 0 <= i < n - 1
        ensures ids[i] != lines[n - 1].itemID
      {
        assert lines[i].itemID != lines[n - 1].itemID;
      }
      DistinctAppend(ids, lines[n - 1].itemID);
    }
  }

  lemma {:induction false} SortKeepsAll(txns: seq<SyntheticTxn>)
    ensures multiset(D.InPlanOrder(txns)) == multiset(txns)
    ensures multiset(P.InResolutionOrder(txns)) == multiset(txns)
  {
    SortBy3Sorts(txns, TxnItem(), TxnDate(), TxnSource());
    SortBy3Sorts(txns, TxnItem(), TxnDate(), TxnKindRank());
  }

  lemma {:induction false} SortedLines(lines: seq<D.Request>) returns (ids: seq<nat>)
    requires D.GoodLines(lines)
    ensures ids == StableSort(D.ItemIDs(lines, |lines|), Identity()) && Distinct(ids) && |ids| == |lines|
    ensures forall id :: id in ids <==> id in D.ItemIDs(lines, |lines|)
    ensures forall id :: id in ids ==> id in D.RequestedOf(lines, |lines|) && D.RequestedOf(lines, |lines|)[id] >= 0.0
  {
    var lineIDs := D.ItemIDs(lines, |lines|);
    ids := StableSort(lineIDs, Identity());
    StableSortHas(lineIDs, Identity());
    LinesDistinct(lines, |lines|);
    StableSortDistinct(lineIDs, Identity());
    forall id | id in ids
      ensures id in D.RequestedOf(lines, |lines|) && D.RequestedOf(lines, |lines|)[id] >= 0.0
    {
      var i := D.RequestedByLine(lines, id);
    }
  }

  /** The joined plans of distinct items, with the transactions in order, settle them. */
  lemma {:induction false} JoinedStockSettles(
    ids: seq<nat>, requested: map<nat, real>, items: map<nat, Item>, at: Instant)
    requires GoodLedgers(items) && DisjointLedgers(items) && Distinct(ids)
    requires forall id :: id in ids ==> id in requested && id in items && requested[id] >= 0.0
    requires D.JoinPlans(D.PlansOf(ids, requested, items, at), |ids|).Ok?
    ensures var stock := D.JoinPlans(D.PlansOf(ids, requested, items, at), |ids|).value;
            SettlesAll(stock.(txns := D.InPlanOrder(stock.txns)), ids, items)
  {
    assert ids[..|ids|] == ids;
    PlannedItemsSettle(ids, requested, items, at);
    JoinedPlansSettle(D.PlansOf(ids, requested, items, at), ids, items, |ids|);
    var stock := D.JoinPlans(D.PlansOf(ids, requested, items, at), |ids|).value;
    SortKeepsAll(stock.txns);
    ReorderedSettles(stock, ids, items, D.InPlanOrder(stock.txns));
  }

  lemma {:induction false} ActivePlanSettles(
    lines: seq<D.Request>, items: map<nat, Item>, at: Instant)
    returns (ids: seq<nat>)
    requires GoodLedgers(items) && DisjointLedgers(items) && D.GoodLines(lines)
    requires forall id :: id in D.ItemIDs(lines, |lines|) ==> id in items
    requires D.PlanActive(lines, items, at).Ok?
    ensures (forall id :: id in ids ==> id in items) && Distinct(ids) &&
            SettlesAll(D.PlanActive(lines, items, at).value.stock, ids, items)
  {
    ids := SortedLines(lines);
    JoinedStockSettles(ids, D.RequestedOf(lines, |lines|), items, at);
  }

  /** A produced dispose plan settles all its items. */
  lemma {:induction false} DisposePlanSettles(
    lines: seq<D.Request>, items: map<nat, Item>, at: Instant)
    returns (ids: seq<nat>)
    requires GoodLedgers(items) && DisjointLedgers(items) && D.PlanOf(lines, items, at).Ok?
    ensures (forall id :: id in ids ==> id in items) && Distinct(ids) &&
            SettlesAll(D.PlanOf(lines, items, at).value.stock, ids, items)
  {
    assert lines[..|lines|] == lines;
    D.NoLineError(lines, |lines|);
    ids := ActivePlanSettles(lines, items, at);
  }

  ghost predicate NonNegativeConsumption(items: map<nat, Item>) {
    forall id, l {:trigger l in items[id].layers} :: id in items && l in items[id].layers ==> l.consumed >= 0.0
  }

  lemma {:induction false} InputWellFormed(entries: seq<S.Entry>, id: nat, item: Item)
    requires Chronological(item.layers) && DistinctIds(item.layers)
    ensures WellFormed(S.InputOf(entries, id, item.layers))
  {
    StableSortSorts(S.CountsOf(entries, id), CountTime());
  }

  /** Every resolved item's stock plan settles it. */
  ghost predicate ResultsSettle(results: seq<Result<P.ItemResult, P.PlanError>>, ids: seq<nat>, items: map<nat, Item>)
    requires |ids| == |results| && forall id :: id in ids ==> id in items
  {
    forall k {:trigger results[k]} :: 0 <= k < |ids| && results[k].Ok? ==>
      Settles(results[k].value.stock, ids[k], items[ids[k]])
  }

  lemma {:induction false} TallySettles(
    results: seq<Result<P.ItemResult, P.PlanError>>, ids: seq<nat>, items: map<nat, Item>, n: nat)
    requires n <= |ids| == |results| && (forall id :: id in ids ==> id in items)
    requires ResultsSettle(results, ids, items) && DisjointLedgers(items) && Distinct(ids[..n])
    requires P.TallyItems(results, n).Ok?
    ensures SettlesAll(P.TallyItems(results, n).value.stock, ids[..n], items)
  {
    if n > 0 {
      var id, before := ids[n - 1], ids[..n - 1];
      assert ids[..n][..n - 1] == before;
      assert ids[..n] == before + [id];
      TallySettles(results, ids, items, n - 1);
      JoinSettles(P.TallyItems(results, n - 1).value.stock, before, items, results[n - 1].value.stock, id);
    }
  }

  lemma {:induction false} ResolvedSettle(entries: seq<S.Entry>, ids: seq<nat>, items: map<nat, Item>)
    requires GoodLedgers(items) && NonNegativeConsumption(items) && (forall id :: id in ids ==> id in items)
    ensures ResultsSettle(P.ResultsOf(entries, ids, items), ids, items)
  {
    forall k | 0 <= k < |ids| && Resolve(S.InputOf(entries, ids[k], items[ids[k]].layers)).Ok?
      ensures var input := S.InputOf(entries, ids[k], items[ids[k]].layers);
              Settles(P.StockOf(input, items[ids[k]], Resolve(input).value), ids[k], items[ids[k]])
    {
      InputWellFormed(entries, ids[k], items[ids[k]]);
      assert ids[k] in ids;
      ResolvedItemSettles(S.InputOf(entries, ids[k], items[ids[k]].layers), items[ids[k]]);
    }
  }

  lemma {:induction false} ItemsDistinct(entries: seq<S.Entry>)
    ensures Distinct(S.ItemsOf(entries))
  {
    if entries != [] {
      var before, id := S.ItemsOf(entries[..|entries| - 1]), entries[|entries| - 1].itemID;
      ItemsDistinct(entries[..|entries| - 1]);
      assert (before + [id])[..|before|] == before;
    }
  }

  lemma {:induction false} SortedTallySettles(entries: seq<S.Entry>, ids: seq<nat>, items: map<nat, Item>)
    requires GoodLedgers(items) && DisjointLedgers(items) && NonNegativeConsumption(items)
    requires (forall id :: id in ids ==> id in items) && Distinct(ids)
    requires P.TallyItems(P.ResultsOf(entries, ids, items), |ids|).Ok?
    ensures var stock := P.TallyItems(P.ResultsOf(entries, ids, items), |ids|).value.stock;
            SettlesAll(stock.(txns := P.InResolutionOrder(stock.txns)), ids, items)
  {
    assert ids[..|ids|] == ids;
    ResolvedSettle(entries, ids, items);
    TallySettles(P.ResultsOf(entries, ids, items), ids, items, |ids|);
    var stock := P.TallyItems(P.ResultsOf(entries, ids, items), |ids|).value.stock;
    SortKeepsAll(stock.txns);
    ReorderedSettles(stock, ids, items, P.InResolutionOrder(stock.txns));
  }

  /** A produced resolution plan settles all its items. */
  lemma {:induction false} ResolutionPlanSettles(subs: seq<S.Submission>, items: map<nat, Item>) returns (ids: seq<nat>)
    requires GoodLedgers(items) && DisjointLedgers(items) && NonNegativeConsumption(items) && P.PlanOf(subs, items).Ok?
    ensures (forall id :: id in ids ==> id in items) && Distinct(ids) &&
            SettlesAll(P.PlanOf(subs, items).value.stock, ids, items)
  {
    var entries := S.Entries(subs);
    var itemIDs := S.ItemsOf(entries);
    assert itemIDs[..|itemIDs|] == itemIDs;
    ids := StableSort(itemIDs, Identity());
    StableSortHas(itemIDs, Identity());
    ItemsDistinct(entries);
    StableSortDistinct(itemIDs, Identity());
    SortedTallySettles(entries, ids, items);
  }
}

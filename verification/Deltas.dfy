/**
 The consumption deltas that both plans report (cmd/util/reconcile.go, computeResolution;
 cmd/util/dispose.go, computeDisposePlan): by how much each source layer's consumption grows, which is
 what the plan's transactions draw on it. Also the order in which a dispose plan lists them.
 */
module Deltas {
  import opened Basics
  import opened Fifo
  import opened FifoLaws
  import opened Plans
  import opened Settlement
  import D = Disposal
  import L = PlannerLaws
  import P = Planner
  import R = Resolver
  import S = Submissions

  /** The map holds, for exactly the layers drawn on, what the transactions draw on them. */
  ghost predicate Draws(m: map<nat, real>, txns: seq<SyntheticTxn>) {
    forall id: nat {:trigger Grown(m, id)} {:trigger id in m} ::
      Grown(m, id) == SumBy(txns, QuantityFrom(id)) && (id in m ==> m[id] > 0.0)
  }

  /** The same of a list, in ascending order of the layers. */
  ghost predicate ListsDraws(deltas: seq<Delta>, txns: seq<SyntheticTxn>) {
    && (forall i, j :: 0 <= i < j < |deltas| ==> deltas[i].layerID < deltas[j].layerID)
    && (forall d: Delta :: d in deltas <==> d.delta == SumBy(txns, QuantityFrom(d.layerID)) > 0.0)
  }

  lemma {:induction false} ListedDraws(m: map<nat, real>, txns: seq<SyntheticTxn>, ordered: seq<SyntheticTxn>)
    requires Draws(m, txns) && multiset(ordered) == multiset(txns)
    ensures ListsDraws(ListedDeltas(m), ordered)
  {
    ListedDeltasAre(m);
    forall d: Delta
      ensures d.layerID in m && d.delta == m[d.layerID] <==> d.delta == SumBy(ordered, QuantityFrom(d.layerID)) > 0.0
    {
      SumPermuted(ordered, txns, QuantityFrom(d.layerID));
      assert Grown(m, d.layerID) == SumBy(txns, QuantityFrom(d.layerID));
    }
  }

  // ----- the dispose plan -----

  lemma {:induction false} AccumulatedDraws(txns: seq<SyntheticTxn>)
    requires forall t :: t in txns ==> t.quantity > 0.0
    ensures Draws(D.Accumulate(map[], txns), txns)
  {
    if txns != [] {
      var front, t := txns[..|txns| - 1], txns[|txns| - 1];
      assert txns == front + [t];
      assert t in txns;
      AccumulatedDraws(front);
      var before, after := D.Accumulate(map[], front), D.Accumulate(map[], txns);
      forall id: nat
        ensures Grown(after, id) == SumBy(txns, QuantityFrom(id)) && (id in after ==> after[id] > 0.0)
      {
        assert Grown(before, id) == SumBy(front, QuantityFrom(id));
        assert id in before ==> before[id] > 0.0;
        SumSnoc(front, t, QuantityFrom(id));
      }
    }
  }

  lemma {:induction false} CompletedPlan(
    lines: seq<D.Request>, items: map<nat, Item>, at: Instant)
    returns (stock: StockPlan)
    requires D.PlanOf(lines, items, at).Ok?
    ensures var plan := D.PlanOf(lines, items, at).value; plan == D.Completed(stock, plan.items)
  {
    var ids := D.ItemIDs(lines, |lines|);
    assert lines[..|lines|] == lines;
    D.RequestedKeys(lines, |lines|);
    StableSortHas(ids, Identity());
    stock := D.JoinPlans(D.PlansOf(StableSort(ids, Identity()), D.RequestedOf(lines, |lines|), items, at), |ids|).value;
  }

  /** A dispose plan lists its transactions by item, then date, then source layer. */
  lemma {:induction false} DisposeTxnsInOrder(lines: seq<D.Request>, items: map<nat, Item>, at: Instant)
    returns (stock: StockPlan)
    requires D.PlanOf(lines, items, at).Ok?
    ensures var txns := D.PlanOf(lines, items, at).value.stock.txns;
            Pairwise(txns, ByItemDateSource()) && multiset(txns) == multiset(stock.txns)
    ensures var plan := D.PlanOf(lines, items, at).value; plan == D.Completed(stock, plan.items)
  {
    stock := CompletedPlan(lines, items, at);
    SortBy3Sorts(stock.txns, TxnItem(), TxnDate(), TxnSource());
  }

  lemma {:induction false} CompletedDraws(stock: StockPlan, plan: D.DisposePlan)
    requires plan == D.Completed(stock, plan.items) && forall t :: t in plan.stock.txns ==> t.quantity > 0.0
    ensures ListsDraws(plan.consumedDeltas, plan.stock.txns)
  {
    SortKeepsAll(stock.txns);
    forall t | t in stock.txns
      ensures t.quantity > 0.0
    {
      assert t in multiset(plan.stock.txns);
    }
    AccumulatedDraws(stock.txns);
    ListedDraws(D.Accumulate(map[], stock.txns), stock.txns, plan.stock.txns);
  }

  /** A dispose plan's deltas are what its transactions draw. */
  lemma {:induction false} DisposeDeltasAreDraws(lines: seq<D.Request>, items: map<nat, Item>, at: Instant)
    requires GoodLedgers(items) && DisjointLedgers(items) && D.PlanOf(lines, items, at).Ok?
    ensures var plan := D.PlanOf(lines, items, at).value; ListsDraws(plan.consumedDeltas, plan.stock.txns)
  {
    var ids := DisposePlanSettles(lines, items, at);
    var stock := CompletedPlan(lines, items, at);
    CompletedDraws(stock, D.PlanOf(lines, items, at).value);
  }

  // ----- the resolution plan -----

  /** An item's deltas come from the same growth as its layer updates. */
  ghost predicate DeltasMatch(r: P.ItemResult, layers: seq<Layer>) {
    exists after :: r.deltas == P.DeltasOf(layers, after, |layers|) &&
      r.stock.layerUpdates == P.GrownLayers(layers, after, |layers|)
  }

  lemma {:induction false} PutElsewhere(m: map<nat, real>, layers: seq<Layer>, after: map<nat, real>, n: nat, id: nat)
    requires n <= |layers| && forall i {:trigger layers[i]} :: 0 <= i < n ==> layers[i].id != id
    ensures var put := P.Put(m, P.DeltasOf(layers, after, n));
            (id in put <==> id in m) && Grown(put, id) == Grown(m, id)
  {
    if n > 0 {
      PutElsewhere(m, layers, after, n - 1, id);
      var d := Delta(layers[n - 1].id, Grown(after, layers[n - 1].id) - layers[n - 1].consumed);
      P.PutStep(m, P.DeltasOf(layers, after, n - 1), d);
    }
  }

  lemma {:induction false} PutAt(m: map<nat, real>, layers: seq<Layer>, after: map<nat, real>, n: nat, i: nat)
    requires i < n <= |layers| && DistinctIds(layers) && layers[i].id !in m
    ensures var put, delta := P.Put(m, P.DeltasOf(layers, after, n)), Grown(after, layers[i].id) - layers[i].consumed;
            Grown(put, layers[i].id) == Pos(delta) && (layers[i].id in put <==> delta > 0.0)
  {
    var d := Delta(layers[n - 1].id, Grown(after, layers[n - 1].id) - layers[n - 1].consumed);
    P.PutStep(m, P.DeltasOf(layers, after, n - 1), d);
    if i < n - 1 {
      PutAt(m, layers, after, n - 1, i);
    } else {
      PutElsewhere(m, layers, after, n - 1, layers[i].id);
    }
  }

  /** The entry of one of the item's own layers. */
  lemma {:induction false} OwnDelta(m: map<nat, real>, r: P.ItemResult, id: nat, item: Item, i: nat)
    requires DistinctIds(item.layers) && Settles(r.stock, id, item) && DeltasMatch(r, item.layers)
    requires i < |item.layers| && item.layers[i].id !in m
    ensures var put, x := P.Put(m, r.deltas), item.layers[i].id;
            Grown(put, x) == SumBy(r.stock.txns, QuantityFrom(x)) && (x in put ==> put[x] > 0.0)
  {
    var layers := item.layers;
    var after :| r.deltas == P.DeltasOf(layers, after, |layers|)
                 && r.stock.layerUpdates == P.GrownLayers(layers, after, |layers|);
    PutAt(m, layers, after, |layers|, i);
    GrownUpdates(layers, after, |layers|, i);
    assert layers[i] in layers;
  }

  /** The entry of any other layer. */
  lemma {:induction false} OtherDelta(m: map<nat, real>, r: P.ItemResult, id: nat, item: Item, x: nat)
    requires Settles(r.stock, id, item) && DeltasMatch(r, item.layers) && x !in Ids(item.layers)
    ensures var put := P.Put(m, r.deltas); (x in put <==> x in m) && Grown(put, x) == Grown(m, x)
    ensures SumBy(r.stock.txns, QuantityFrom(x)) == 0.0
  {
    var layers := item.layers;
    var after :| r.deltas == P.DeltasOf(layers, after, |layers|)
                 && r.stock.layerUpdates == P.GrownLayers(layers, after, |layers|);
    IdsAre(layers, x);
    SumZero(r.stock.txns, QuantityFrom(x));
    PutElsewhere(m, layers, after, |layers|, x);
  }

  lemma {:induction false} NotDrawnOn(plan: StockPlan, ids: seq<nat>, items: map<nat, Item>, id: nat, x: nat)
    requires (forall y :: y in ids ==> y in items) && id in items && id !in ids && DisjointLedgers(items)
    requires SettlesAll(plan, ids, items) && x in Ids(items[id].layers)
    ensures SumBy(plan.txns, QuantityFrom(x)) == 0.0
  {
    forall t | t in plan.txns
      ensures t.source != x
    {
      assert t.itemID in ids && t.itemID != id;
    }
    SumZero(plan.txns, QuantityFrom(x));
  }

  /** One more item's deltas and transactions. */
  lemma {:induction false} JoinDraws(
    m: map<nat, real>, plan: StockPlan, ids: seq<nat>, items: map<nat, Item>, r: P.ItemResult, id: nat, x: nat)
    requires (forall y :: y in ids ==> y in items) && id in items && id !in ids && DisjointLedgers(items)
    requires DistinctIds(items[id].layers)
    requires SettlesAll(plan, ids, items) && Settles(r.stock, id, items[id]) && DeltasMatch(r, items[id].layers)
    requires Draws(m, plan.txns)
    ensures var put := P.Put(m, r.deltas);
            Grown(put, x) == SumBy(plan.txns + r.stock.txns, QuantityFrom(x)) && (x in put ==> put[x] > 0.0)
  {
    SumConcat(plan.txns, r.stock.txns, QuantityFrom(x));
    assert Grown(m, x) == SumBy(plan.txns, QuantityFrom(x));
    if x in Ids(items[id].layers) {
      IdsAre(items[id].layers, x);
      var i :| 0 <= i < |items[id].layers| && items[id].layers[i].id == x;
      NotDrawnOn(plan, ids, items, id, x);
      OwnDelta(m, r, id, items[id], i);
    } else {
      OtherDelta(m, r, id, items[id], x);
    }
  }

  lemma {:induction false} TallyDraws(
    results: seq<Result<P.ItemResult, P.PlanError>>, ids: seq<nat>, items: map<nat, Item>, n: nat)
    requires n <= |ids| == |results| && (forall id :: id in ids ==> id in items) && GoodLedgers(items)
    requires ResultsSettle(results, ids, items) && DisjointLedgers(items) && Distinct(ids[..n])
    requires forall k {:trigger results[k]} :: 0 <= k < |ids| && results[k].Ok? ==>
             DeltasMatch(results[k].value, items[ids[k]].layers)
    requires P.TallyItems(results, n).Ok?
    ensures Draws(P.TallyItems(results, n).value.deltas, P.TallyItems(results, n).value.stock.txns)
  {
    if n > 0 {
      var id, before := ids[n - 1], ids[..n - 1];
      assert ids[..n][..n - 1] == before;
      assert ids[..n] == before + [id];
      TallyDraws(results, ids, items, n - 1);
      TallySettles(results, ids, items, n - 1);
      var t, r := P.TallyItems(results, n - 1).value, results[n - 1].value;
      forall x: nat
        ensures Grown(P.Put(t.deltas, r.deltas), x) == SumBy(t.stock.txns + r.stock.txns, QuantityFrom(x))
        ensures x in P.Put(t.deltas, r.deltas) ==> P.Put(t.deltas, r.deltas)[x] > 0.0
      {
        JoinDraws(t.deltas, t.stock, before, items, r, id, x);
      }
    }
  }

  lemma {:induction false} ResultsMatch(entries: seq<S.Entry>, ids: seq<nat>, items: map<nat, Item>)
    requires forall id :: id in ids ==> id in items
    ensures var results := P.ResultsOf(entries, ids, items);
            forall k {:trigger results[k]} :: 0 <= k < |ids| && results[k].Ok? ==>
              DeltasMatch(results[k].value, items[ids[k]].layers)
  {
    forall k | 0 <= k < |ids| && R.Resolve(S.InputOf(entries, ids[k], items[ids[k]].layers)).Ok?
      ensures DeltasMatch(P.ItemResultOf(S.InputOf(entries, ids[k], items[ids[k]].layers), items[ids[k]]).value,
              items[ids[k]].layers)
    {
      assert ids[k] in ids;
      ResultMatches(S.InputOf(entries, ids[k], items[ids[k]].layers), items[ids[k]],
                    R.Resolve(S.InputOf(entries, ids[k], items[ids[k]].layers)).value);
    }
  }

  lemma {:induction false} ResultMatches(input: R.ItemInput, item: Item, r: R.Resolution)
    ensures DeltasMatch(P.ResultOf(input, item, r), item.layers)
  {
    var after := r.consumedAfter;
    assert P.ResultOf(input, item, r).deltas == P.DeltasOf(item.layers, after, |item.layers|);
  }

  /** A resolution plan's deltas are what its transactions draw. */
  lemma {:induction false} ResolutionDeltasAreDraws(subs: seq<S.Submission>, items: map<nat, Item>)
    requires GoodLedgers(items) && DisjointLedgers(items) && NonNegativeConsumption(items) && P.PlanOf(subs, items).Ok?
    ensures var plan := P.PlanOf(subs, items).value; ListsDraws(plan.consumedDeltas, plan.stock.txns)
  {
    var entries := S.Entries(subs);
    var ids, t := L.PlanIsTally(subs, items);
    ItemsDistinct(entries);
    StableSortDistinct(S.ItemsOf(entries), Identity());
    assert ids[..|ids|] == ids;
    ResolvedSettle(entries, ids, items);
    ResultsMatch(entries, ids, items);
    TallyDraws(P.ResultsOf(entries, ids, items), ids, items, |ids|);
    SortKeepsAll(t.stock.txns);
    ListedDraws(t.deltas, t.stock.txns, P.InResolutionOrder(t.stock.txns));
  }
}

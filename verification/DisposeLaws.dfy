/**
 What a dispose plan takes out and what it previews (cmd/util/dispose.go, computeDisposePlan), over the
 payload's lines.
 */
module DisposeLaws {
  import opened Basics
  import opened Fifo
  import opened FifoLaws
  import opened Plans
  import opened Settlement
  import opened Disposal

  /** The quantity the item's transactions draw from the layer. */
  function ItemFrom(id: nat, source: nat): SyntheticTxn -> real {
    (t: SyntheticTxn) => if t.itemID == id && t.source == source then t.quantity else 0.0
  }

  // ----- one item -----

  /** A disposal of the item, dated like the submission, from stock of that date. */
  ghost predicate DisposesAt(t: SyntheticTxn, id: nat, layers: seq<Layer>, at: Instant) {
    && t.kind == Disposal && t.itemID == id && t.at == at && t.quantity > 0.0 && DrawsOnStockOf(layers, t, at)
  }

  /** The transaction draws on a layer whose elders give all they have. */
  ghost predicate AfterElders(t: SyntheticTxn, id: nat, layers: seq<Layer>, txns: seq<SyntheticTxn>) {
    exists i {:trigger layers[i]} ::
      && 0 <= i < |layers| && layers[i].id == t.source
      && forall j {:trigger layers[j]} :: 0 <= j < i ==>
           SumBy(txns, ItemFrom(id, layers[j].id)) == Pos(Remaining(layers[j]))
  }

  lemma {:induction false} ItemDisposes(id: nat, requested: real, item: Item, at: Instant)
    requires Chronological(item.layers) && DistinctIds(item.layers) && PlanItem(id, requested, item, at).Ok?
    ensures forall t :: t in PlanItem(id, requested, item, at).value.txns ==> DisposesAt(t, id, item.layers, at)
  {
    if requested > 0.0 {
      var layers, ev := item.layers, Event(at, requested, false);
      AvailableWithinCapacity(layers, at);
      EventDrawsOnStockOf(id, ev, layers, 0.0, requested, at);
      forall t | t in EventTxns(id, ev, layers, 0.0, requested, |layers|)
        ensures DisposesAt(t, id, layers, at)
      {
        var i := EventTxnGiven(id, ev, layers, 0.0, requested, |layers|, t);
      }
    }
  }

  lemma {:induction false} EventAfterElders(
    id: nat, ev: Event, layers: seq<Layer>, requested: real, t: SyntheticTxn, i: nat)
    requires DistinctIds(layers) && i < |layers| && 0.0 < requested && Share(layers, i, 0.0, requested) > 0.0
    requires layers[i].id == t.source
    ensures AfterElders(t, id, layers, EventTxns(id, ev, layers, 0.0, requested, |layers|))
  {
    var txns := EventTxns(id, ev, layers, 0.0, requested, |layers|);
    forall u | u in txns
      ensures u.itemID == id
    {
      var k := EventTxnGiven(id, ev, layers, 0.0, requested, |layers|, u);
    }
    forall j {:trigger layers[j]} | 0 <= j < i
      ensures SumBy(txns, ItemFrom(id, layers[j].id)) == Pos(Remaining(layers[j]))
    {
      EventDrawn(id, ev, layers, 0.0, requested, |layers|, j);
      SumAgree(txns, ItemFrom(id, layers[j].id), QuantityFrom(layers[j].id));
      BeforeMonotone(layers, j + 1, i);
    }
  }

  lemma {:induction false} ItemAfterElders(id: nat, requested: real, item: Item, at: Instant, t: SyntheticTxn)
    requires DistinctIds(item.layers) && PlanItem(id, requested, item, at).Ok?
    requires t in PlanItem(id, requested, item, at).value.txns
    ensures AfterElders(t, id, item.layers, PlanItem(id, requested, item, at).value.txns)
  {
    var ev := Event(at, requested, false);
    var i := EventTxnGiven(id, ev, item.layers, 0.0, requested, |item.layers|, t);
    EventAfterElders(id, ev, item.layers, requested, t, i);
  }

  // ----- the items of a plan -----

  ghost predicate EachOwn(plans: seq<Result<StockPlan, DisposeError>>, ids: seq<nat>)
    requires |ids| == |plans|
  {
    forall k {:trigger plans[k]} :: 0 <= k < |ids| && plans[k].Ok? ==>
      forall t :: t in plans[k].value.txns ==> t.itemID == ids[k]
  }

  lemma {:induction false} JoinedTxns(plans: seq<Result<StockPlan, DisposeError>>, n: nat, t: SyntheticTxn)
    requires n <= |plans| && JoinPlans(plans, n).Ok?
    ensures t in JoinPlans(plans, n).value.txns <==>
            exists k {:trigger plans[k]} :: 0 <= k < n && plans[k].Ok? && t in plans[k].value.txns
  {
    if n > 0 {
      JoinedTxns(plans, n - 1, t);
      assert plans[n - 1].Ok?;
    }
  }

  /** A sum that only looks at the item's transactions is that of the item's own plan. */
  lemma {:induction false} JoinedSum(
    plans: seq<Result<StockPlan, DisposeError>>, ids: seq<nat>, n: nat, k: nat, f: SyntheticTxn -> real)
    requires n <= |ids| == |plans| && k < |ids| && Distinct(ids) && EachOwn(plans, ids)
    requires JoinPlans(plans, n).Ok? && plans[k].Ok? && forall t: SyntheticTxn :: t.itemID != ids[k] ==> f(t) == 0.0
    ensures SumBy(JoinPlans(plans, n).value.txns, f) == if k < n then SumBy(plans[k].value.txns, f) else 0.0
  {
    if n > 0 {
      JoinedSum(plans, ids, n - 1, k, f);
      SumConcat(JoinPlans(plans, n - 1).value.txns, plans[n - 1].value.txns, f);
      if k != n - 1 {
        DistinctAt(ids, if k < n - 1 then k else n - 1, if k < n - 1 then n - 1 else k);
        SumZero(plans[n - 1].value.txns, f);
      }
    }
  }

  /** The items of the lines in ascending order. */
  ghost predicate ItemsOfLines(lines: seq<Request>, ids: seq<nat>) {
    && Distinct(ids) && SortedBy(ids, Identity()) && |ids| == |lines|
    && (forall id :: id in ids <==> exists i :: 0 <= i < |lines| && lines[i].itemID == id)
    && (forall id :: id in ids ==> id in RequestedOf(lines, |lines|))
  }

  lemma {:induction false} LinesSorted(lines: seq<Request>)
    requires GoodLines(lines)
    ensures ItemsOfLines(lines, StableSort(ItemIDs(lines, |lines|), Identity()))
  {
    var ids := SortedLines(lines);
    StableSortSorts(ItemIDs(lines, |lines|), Identity());
    forall id
      ensures id in ids <==> exists i :: 0 <= i < |lines| && lines[i].itemID == id
    {
      ItemOfLine(lines, id);
    }
  }

  lemma {:induction false} ItemOfLine(lines: seq<Request>, id: nat)
    ensures id in ItemIDs(lines, |lines|) <==> exists i :: 0 <= i < |lines| && lines[i].itemID == id
  {
    if i :| 0 <= i < |lines| && lines[i].itemID == id {
      assert ItemIDs(lines, |lines|)[i] == id;
    }
  }

  /** The plan behind a dispose plan: its items in ascending order, each with its own plan. */
  lemma {:induction false} PlanIsJoined(lines: seq<Request>, items: map<nat, Item>, at: Instant) returns (ids: seq<nat>)
    requires GoodLedgers(items) && PlanOf(lines, items, at).Ok?
    ensures GoodLines(lines) && ItemsOfLines(lines, ids) && forall id :: id in ids ==> id in items
    ensures var joined := JoinPlans(PlansOf(ids, RequestedOf(lines, |lines|), items, at), |ids|);
            joined.Ok? && PlanOf(lines, items, at)
                       == Ok(Completed(joined.value, PreviewOf(ids, RequestedOf(lines, |lines|), items)))
  {
    assert lines[..|lines|] == lines;
    NoLineError(lines, |lines|);
    LinesSorted(lines);
    ids := StableSort(ItemIDs(lines, |lines|), Identity());
    StableSortHas(ItemIDs(lines, |lines|), Identity());
  }

  lemma {:induction false} PlansOwn(ids: seq<nat>, requested: map<nat, real>, items: map<nat, Item>, at: Instant)
    requires GoodLedgers(items) && forall id :: id in ids ==> id in requested && id in items
    ensures EachOwn(PlansOf(ids, requested, items, at), ids)
  {
    forall k | 0 <= k < |ids| && PlanItem(ids[k], requested[ids[k]], items[ids[k]], at).Ok?
      ensures forall t :: t in PlanItem(ids[k], requested[ids[k]], items[ids[k]], at).value.txns ==> t.itemID == ids[k]
    {
      assert ids[k] in ids;
      ItemDisposes(ids[k], requested[ids[k]], items[ids[k]], at);
    }
  }

  // ----- the plan -----

  /** The item's own plan behind a dispose plan. */
  lemma {:induction false} PlanOfItem(lines: seq<Request>, items: map<nat, Item>, at: Instant, i: nat)
    returns (own: seq<SyntheticTxn>)
    requires GoodLedgers(items) && PlanOf(lines, items, at).Ok? && i < |lines|
    ensures GoodLines(lines) && lines[i].itemID in items
    ensures var id := lines[i].itemID; var p := PlanItem(id, lines[i].quantity.value, items[id], at);
            p.Ok? && own == p.value.txns
    ensures forall f: SyntheticTxn -> real {:trigger SumBy(own, f)} ::
              (forall t: SyntheticTxn :: t.itemID != lines[i].itemID ==> f(t) == 0.0) ==>
              SumBy(PlanOf(lines, items, at).value.stock.txns, f) == SumBy(own, f)
  {
    var ids := PlanIsJoined(lines, items, at);
    var requested, id := RequestedOf(lines, |lines|), lines[i].itemID;
    var plans := PlansOf(ids, requested, items, at);
    RequestedAt(lines, |lines|, i);
    assert id in ids;
    var k :| 0 <= k < |ids| && ids[k] == id;
    JoinPlansOk(plans, |ids|);
    assert plans[k].Ok?;
    own := plans[k].value.txns;
    PlansOwn(ids, requested, items, at);
    var joined := JoinPlans(plans, |ids|).value.txns;
    SortKeepsAll(joined);
    forall f: SyntheticTxn -> real {:trigger SumBy(own, f)} |
        forall t: SyntheticTxn :: t.itemID != id ==> f(t) == 0.0
      ensures SumBy(PlanOf(lines, items, at).value.stock.txns, f) == SumBy(own, f)
    {
      JoinedSum(plans, ids, |ids|, k, f);
      SumPermuted(PlanOf(lines, items, at).value.stock.txns, joined, f);
    }
  }

  /** For every line the plan disposes of exactly its quantity of the item. */
  lemma {:induction false} DisposesWhatWasAsked(lines: seq<Request>, items: map<nat, Item>, at: Instant, i: nat)
    requires GoodLedgers(items) && PlanOf(lines, items, at).Ok? && i < |lines|
    ensures lines[i].quantity
         == Some(SumBy(PlanOf(lines, items, at).value.stock.txns, OfItem(lines[i].itemID)))
  {
    var own := PlanOfItem(lines, items, at, i);
    var id, q := lines[i].itemID, lines[i].quantity.value;
    ItemDisposes(id, q, items[id], at);
    ItemTakes(id, q, items[id], at);
    SumAgree(own, OfItem(id), Quantity());
    assert SumBy(own, OfItem(id)) == q;
  }

  lemma {:induction false} ItemTakes(id: nat, requested: real, item: Item, at: Instant)
    requires Chronological(item.layers) && requested >= 0.0 && PlanItem(id, requested, item, at).Ok?
    ensures SumBy(PlanItem(id, requested, item, at).value.txns, Quantity()) == requested
  {
    if requested > 0.0 {
      AvailableWithinCapacity(item.layers, at);
      EventCovered(id, Event(at, requested, false), item.layers, 0.0, requested, |item.layers|);
    }
  }

  lemma {:induction false} LineOfTxn(lines: seq<Request>, items: map<nat, Item>, at: Instant, t: SyntheticTxn)
    returns (i: nat)
    requires GoodLedgers(items) && PlanOf(lines, items, at).Ok? && t in PlanOf(lines, items, at).value.stock.txns
    ensures GoodLines(lines) && i < |lines| && lines[i].itemID in items
    ensures var id := lines[i].itemID; var p := PlanItem(id, lines[i].quantity.value, items[id], at);
            p.Ok? && t in p.value.txns
  {
    var ids := PlanIsJoined(lines, items, at);
    var requested := RequestedOf(lines, |lines|);
    var plans := PlansOf(ids, requested, items, at);
    var joined := JoinPlans(plans, |ids|).value.txns;
    SortKeepsAll(joined);
    assert t in multiset(joined);
    JoinedTxns(plans, |ids|, t);
    var k :| 0 <= k < |ids| && plans[k].Ok? && t in plans[k].value.txns;
    assert ids[k] in ids;
    i :| 0 <= i < |lines| && lines[i].itemID == ids[k];
    RequestedAt(lines, |lines|, i);
  }

  /**
   Every transaction of the plan is a disposal of a listed item, dated like the submission, from stock of
   that date, and after every older layer of the item has given all it had.
   */
  lemma {:induction false} DisposesOldestFirst(lines: seq<Request>, items: map<nat, Item>, at: Instant, t: SyntheticTxn)
    requires GoodLedgers(items) && PlanOf(lines, items, at).Ok? && t in PlanOf(lines, items, at).value.stock.txns
    ensures t.itemID in items && DisposesAt(t, t.itemID, items[t.itemID].layers, at)
    ensures AfterElders(t, t.itemID, items[t.itemID].layers, PlanOf(lines, items, at).value.stock.txns)
  {
    var i := LineOfTxn(lines, items, at, t);
    var id, q := lines[i].itemID, lines[i].quantity.value;
    var own := PlanOfItem(lines, items, at, i);
    ItemDisposes(id, q, items[id], at);
    ItemAfterElders(id, q, items[id], at, t);
    forall j {:trigger items[id].layers[j]} | 0 <= j < |items[id].layers|
      ensures SumBy(PlanOf(lines, items, at).value.stock.txns, ItemFrom(id, items[id].layers[j].id))
           == SumBy(own, ItemFrom(id, items[id].layers[j].id))
    {
      assert SumBy(own, ItemFrom(id, items[id].layers[j].id)) == SumBy(own, ItemFrom(id, items[id].layers[j].id));
    }
  }

  /** A preview line shows the line's request and the item's quantity before and after. */
  ghost predicate Previews(p: DisposeItem, line: Request, items: map<nat, Item>) {
    && p.itemID == line.itemID && p.itemID in items && line.quantity == Some(p.requested)
    && p.current == items[p.itemID].quantity && p.resulting == p.current - p.requested
  }

  /** The preview shows every line, once, in ascending order of the items. */
  lemma {:induction false} PreviewShowsLines(lines: seq<Request>, items: map<nat, Item>, at: Instant)
    requires GoodLedgers(items) && PlanOf(lines, items, at).Ok?
    ensures var shown := PlanOf(lines, items, at).value.items;
            && |shown| == |lines|
            && (forall k {:trigger shown[k]} :: 0 <= k < |shown| ==>
                  exists i :: 0 <= i < |lines| && Previews(shown[k], lines[i], items))
            && (forall k, l :: 0 <= k < l < |shown| ==> shown[k].itemID < shown[l].itemID)
  {
    var ids := PlanIsJoined(lines, items, at);
    var requested := RequestedOf(lines, |lines|);
    var shown := PlanOf(lines, items, at).value.items;
    assert shown == PreviewOf(ids, requested, items);
    forall k {:trigger shown[k]} | 0 <= k < |shown|
      ensures exists i :: 0 <= i < |lines| && Previews(shown[k], lines[i], items)
    {
      assert ids[k] in ids;
      var i :| 0 <= i < |lines| && lines[i].itemID == ids[k];
      RequestedAt(lines, |lines|, i);
      assert Previews(shown[k], lines[i], items);
    }
    SortedIsAscending(ids);
  }
}

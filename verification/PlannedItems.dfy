/**
 What the checks of a resolution plan guarantee to the resolver of each item, and what therefore holds
 of the whole plan (cmd/util/reconcile.go, computeResolution): which stock its transactions draw on,
 and the quantity it leaves.
 */
module PlannedItems {
  import opened Basics
  import opened Fifo
  import opened FifoLaws
  import opened Windows
  import opened Resolver
  import opened ResolverLaws
  import opened Causality
  import opened OwnDates
  import opened Rerun
  import opened Plans
  import opened Submissions
  import opened Planner
  import opened PlannerLaws
  import opened Settlement

  /** One of the submissions names the item. */
  ghost predicate Mentioned(subs: seq<Submission>, id: nat) {
    exists i {:trigger subs[i]} :: 0 <= i < |subs| && Names(subs[i], id)
  }

  /** What the resolver gets for an item. */
  ghost function InputFor(subs: seq<Submission>, items: map<nat, Item>, id: nat): ItemInput
    requires id in items
  {
    InputOf(Entries(subs), id, items[id].layers)
  }

  lemma {:induction false} MentionedAre(subs: seq<Submission>, id: nat)
    ensures Mentioned(subs, id) <==> id in ItemsOf(Entries(subs))
  {
    ItemsAre(Entries(subs), id);
    if i: nat :| i < |subs| && Names(subs[i], id) {
      var j :| 0 <= j < |subs[i].lines| && subs[i].lines[j].itemID == id;
      LineIsEntry(subs, i, j);
    }
    if e :| e in Entries(subs) && e.itemID == id {
      var i, j := EntryOrigin(subs, e);
    }
  }

  // ----- the check for consumed layers -----

  lemma {:induction false} FirstErrorNone(errors: seq<Option<PlanError>>, n: nat)
    requires n <= |errors|
    ensures FirstError(errors, n) == None <==> forall k :: 0 <= k < n ==> errors[k] == None
  {
    if n > 0 {
      FirstErrorNone(errors, n - 1);
    }
  }

  /** No layer that takes part in the item's resolution has been consumed. */
  ghost predicate NotConsumed(subs: seq<Submission>, items: map<nat, Item>, id: nat)
    requires id in items
  {
    forall l :: l in items[id].layers && LayerInScope(RecsOf(subs, id), l) ==> l.consumed <= 0.0
  }

  lemma {:induction false} NoConsumedLayer(recs: seq<Count>, layers: seq<Layer>, id: nat)
    ensures ItemConsumedError(id, recs, layers) == None <==>
            forall l :: l in layers && LayerInScope(recs, l) ==> l.consumed <= 0.0
  {
    assert layers[..|layers|] == layers;
  }

  lemma {:induction false} NothingConsumed(subs: seq<Submission>, items: map<nat, Item>, ids: seq<nat>)
    requires forall id :: id in ids ==> id in items
    ensures ConsumedError(Entries(subs), ids, items) == None <==>
            forall id :: id in ids ==> NotConsumed(subs, items, id)
  {
    var errors := ConsumedErrors(Entries(subs), ids, items);
    FirstErrorNone(errors, |ids|);
    forall k | 0 <= k < |ids|
      ensures errors[k] == None <==> NotConsumed(subs, items, ids[k])
    {
      NoConsumedLayer(RecsOf(subs, ids[k]), items[ids[k]].layers, ids[k]);
    }
  }

  /** Once the checks have passed, every item's ledger is unconsumed as far as it takes part. */
  lemma {:induction false} CheckedIsUnconsumed(subs: seq<Submission>, items: map<nat, Item>, id: nat)
    requires GoodLedgers(items) && SoundLayers(items) && ChecksPass(subs, items) && Mentioned(subs, id)
    ensures id in items && WellFormed(InputFor(subs, items, id)) && Unconsumed(Scope(InputFor(subs, items, id)).layers)
  {
    MentionedAre(subs, id);
    NothingConsumed(subs, items, ItemsOf(Entries(subs)));
    InputWellFormed(Entries(subs), id, items[id]);
    assert NotConsumed(subs, items, id);
  }

  // ----- the items of a plan -----

  lemma {:induction false} TallyNeedsAll(results: seq<Result<ItemResult, PlanError>>, n: nat)
    requires n <= |results|
    ensures TallyItems(results, n).Ok? <==> forall k :: 0 <= k < n ==> results[k].Ok?
  {
    if n > 0 {
      TallyNeedsAll(results, n - 1);
    }
  }

  lemma {:induction false} TallyTxns(results: seq<Result<ItemResult, PlanError>>, n: nat, t: SyntheticTxn)
    requires n <= |results| && TallyItems(results, n).Ok?
    ensures t in TallyItems(results, n).value.stock.txns <==>
            exists k {:trigger results[k]} :: 0 <= k < n && results[k].Ok? && t in results[k].value.stock.txns
  {
    if n > 0 {
      TallyTxns(results, n - 1, t);
      assert results[n - 1].Ok?;
    }
  }

  /** The resolver made the transaction for the item. */
  ghost predicate MadeFor(subs: seq<Submission>, items: map<nat, Item>, id: nat, t: SyntheticTxn) {
    && id in items && Resolve(InputFor(subs, items, id)).Ok?
    && var r := Resolve(InputFor(subs, items, id)).value; t in r.sells + r.disposals
  }

  lemma {:induction false} ResultMakes(subs: seq<Submission>, ids: seq<nat>, items: map<nat, Item>, k: nat)
    requires (forall id :: id in ids ==> id in items) && k < |ids|
    ensures var r := ResultsOf(Entries(subs), ids, items)[k];
            && (r.Ok? <==> Resolve(InputFor(subs, items, ids[k])).Ok?)
            && forall t :: r.Ok? && t in r.value.stock.txns <==> MadeFor(subs, items, ids[k], t)
  {
    assert ids[k] in ids;
  }

  /** A transaction of the tally was made for one of its items. */
  lemma {:induction false} TallyMakes(subs: seq<Submission>, ids: seq<nat>, items: map<nat, Item>, t: SyntheticTxn)
    requires (forall id :: id in ids ==> id in items) && TallyOf(Entries(subs), ids, items).Ok?
    ensures t in TallyOf(Entries(subs), ids, items).value.stock.txns <==>
            exists k {:trigger ids[k]} :: 0 <= k < |ids| && MadeFor(subs, items, ids[k], t)
  {
    var results := ResultsOf(Entries(subs), ids, items);
    TallyTxns(results, |ids|, t);
    forall k {:trigger ids[k]} | 0 <= k < |ids|
      ensures results[k].Ok? && t in results[k].value.stock.txns <==> MadeFor(subs, items, ids[k], t)
    {
      ResultMakes(subs, ids, items, k);
    }
  }

  /** The transactions of a plan are those of the items its submissions name. */
  lemma {:induction false} PlanTxns(subs: seq<Submission>, items: map<nat, Item>, t: SyntheticTxn)
    requires PlanOf(subs, items).Ok?
    ensures t in PlanOf(subs, items).value.stock.txns <==>
            exists id :: Mentioned(subs, id) && MadeFor(subs, items, id, t)
  {
    var ids, tally := PlanIsTally(subs, items);
    TallyMakes(subs, ids, items, t);
    SortKeepsAll(tally.stock.txns);
    assert t in PlanOf(subs, items).value.stock.txns <==> t in multiset(tally.stock.txns);
    forall id
      ensures Mentioned(subs, id) <==> id in ids
    {
      MentionedAre(subs, id);
    }
  }

  /** An item of a plan: its checks passed and it resolved. */
  lemma {:induction false} PlannedItem(subs: seq<Submission>, items: map<nat, Item>, id: nat)
    requires GoodLedgers(items) && SoundLayers(items) && PlanOf(subs, items).Ok? && Mentioned(subs, id)
    ensures id in items && WellFormed(InputFor(subs, items, id)) && Unconsumed(Scope(InputFor(subs, items, id)).layers)
    ensures Resolve(InputFor(subs, items, id)).Ok?
  {
    var ids, tally := PlanIsTally(subs, items);
    CheckedIsUnconsumed(subs, items, id);
    MentionedAre(subs, id);
    var k :| 0 <= k < |ids| && ids[k] == id;
    TallyNeedsAll(ResultsOf(Entries(subs), ids, items), |ids|);
    ResultMakes(subs, ids, items, k);
  }

  // ----- what the transactions of a plan draw on -----

  lemma {:induction false} MadeForItem(subs: seq<Submission>, items: map<nat, Item>, id: nat, t: SyntheticTxn)
    requires MadeFor(subs, items, id, t) && WellFormed(InputFor(subs, items, id))
    ensures t.itemID == id
  {
    var ignored := ResolveIsSettle(InputFor(subs, items, id));
    SettledTxnsBelong(InputFor(subs, items, id), ignored, t);
  }

  /** Every transaction of the plan draws on a layer of its item created at or before its own date. */
  ghost predicate PlanDrawsByOwnDate(plan: Plan, items: map<nat, Item>) {
    forall t :: t in plan.stock.txns ==> t.itemID in items && DrawsOnStockOf(items[t.itemID].layers, t, t.at)
  }

  ghost predicate ItemDrawsByOwnDate(subs: seq<Submission>, items: map<nat, Item>, id: nat) {
    forall t :: MadeFor(subs, items, id, t) ==> DrawsOnStockOf(items[id].layers, t, t.at)
  }

  lemma {:induction false} ItemOwnDates(subs: seq<Submission>, items: map<nat, Item>, id: nat)
    requires GoodLedgers(items) && SoundLayers(items) && PlanOf(subs, items).Ok? && Mentioned(subs, id)
    ensures id in items && (ItemDrawsByOwnDate(subs, items, id) <==> AlwaysThere(InputFor(subs, items, id)))
  {
    PlannedItem(subs, items, id);
    OwnDateExactlyWhen(InputFor(subs, items, id));
    var r := Resolve(InputFor(subs, items, id)).value;
    forall t
      ensures MadeFor(subs, items, id, t) <==> t in r.sells + r.disposals
    {
    }
  }

  lemma {:induction false} OwnDatesByItem(subs: seq<Submission>, items: map<nat, Item>)
    requires GoodLedgers(items) && SoundLayers(items) && PlanOf(subs, items).Ok?
    ensures PlanDrawsByOwnDate(PlanOf(subs, items).value, items) <==>
            forall id :: Mentioned(subs, id) ==> ItemDrawsByOwnDate(subs, items, id)
  {
    var txns := PlanOf(subs, items).value.stock.txns;
    forall t
      ensures t in txns <==> Mentioned(subs, t.itemID) && MadeFor(subs, items, t.itemID, t)
      ensures forall id :: Mentioned(subs, id) && MadeFor(subs, items, id, t) ==> t.itemID == id
    {
      PlanTxns(subs, items, t);
      forall id | Mentioned(subs, id) && MadeFor(subs, items, id, t)
        ensures t.itemID == id
      {
        CheckedItem(subs, items, id);
        MadeForItem(subs, items, id, t);
      }
    }
  }

  lemma {:induction false} CheckedItem(subs: seq<Submission>, items: map<nat, Item>, id: nat)
    requires GoodLedgers(items) && SoundLayers(items) && PlanOf(subs, items).Ok? && Mentioned(subs, id)
    ensures id in items && WellFormed(InputFor(subs, items, id))
  {
    PlannedItem(subs, items, id);
  }

  /**
   A whole plan is causal day by day exactly when, for every item that its submissions name, the stock
   was there for every disposal that takes part and at every count.
   */
  lemma {:induction false} PlanOwnDateExactlyWhen(subs: seq<Submission>, items: map<nat, Item>)
    requires GoodLedgers(items) && SoundLayers(items) && PlanOf(subs, items).Ok?
    ensures PlanDrawsByOwnDate(PlanOf(subs, items).value, items) <==>
            forall id :: Mentioned(subs, id) ==> id in items && AlwaysThere(InputFor(subs, items, id))
  {
    OwnDatesByItem(subs, items);
    forall id | Mentioned(subs, id)
      ensures id in items && (ItemDrawsByOwnDate(subs, items, id) <==> AlwaysThere(InputFor(subs, items, id)))
    {
      ItemOwnDates(subs, items, id);
    }
  }

  /** No counted quantity is negative. */
  ghost predicate CountsNonNegative(subs: seq<Submission>) {
    forall i, j {:trigger subs[i].lines[j]} ::
      0 <= i < |subs| && subs[i].isReconcile && 0 <= j < |subs[i].lines| ==> subs[i].lines[j].qty >= 0.0
  }

  lemma {:induction false} RecsNonNegative(subs: seq<Submission>, id: nat)
    requires CountsNonNegative(subs)
    ensures forall c :: c in RecsOf(subs, id) ==> c.qty >= 0.0
  {
    StableSortHas(CountsOf(Entries(subs), id), CountTime());
    forall c | c in RecsOf(subs, id)
      ensures c.qty >= 0.0
    {
      CountsAre(Entries(subs), id, c);
      var e :| e in Entries(subs) && e.isReconcile && e.itemID == id && c == Count(e.subID, e.at, e.prev, e.qty);
      var i, j := EntryOrigin(subs, e);
    }
  }

  /**
   A sell draws on a layer of its item created by its own date, a disposal of a counted item on one
   created by every count that is not before it.
   */
  ghost predicate TxnIsCausal(recs: seq<Count>, layers: seq<Layer>, t: SyntheticTxn) {
    && (t.kind == Sell ==> recs != [] && DrawsOnStockOf(layers, t, t.at))
    && forall k: nat {:trigger recs[k]} :: k < |recs| && t.at <= recs[k].at ==> DrawsOnStockOf(layers, t, recs[k].at)
  }

  lemma {:induction false} ScopeDraws(input: ItemInput, t: SyntheticTxn, T: Instant)
    requires DrawsOnStockOf(Scope(input).layers, t, T)
    ensures DrawsOnStockOf(input.layers, t, T)
  {
    var s := Scope(input);
    var j :| 0 <= j < |s.layers| && s.layers[j].id == t.source && s.layers[j].price == t.price
             && s.layers[j].createdAt <= T;
    assert s.layers[j] in input.layers;
    var i :| 0 <= i < |input.layers| && input.layers[i] == s.layers[j];
  }

  lemma {:induction false} SettledKinds(s: ItemInput, ignored: seq<nat>, t: SyntheticTxn)
    requires Settle(s, ignored).Ok? && var r := Settle(s, ignored).value; t in r.sells + r.disposals
    ensures var r := Settle(s, ignored).value; t in if t.kind == Sell then r.sells else r.disposals
    ensures t.kind == Sell ==> s.recs != []
  {
    var r, events := Settle(s, ignored).value, EventsOf(s);
    var e := TxnOfEvent(s.itemID, events, s.layers, if t in r.sells then Sell else Disposal, |events|, t);
    if t.kind == Sell {
      assert IsTxnOf(s, t);
      var k := SellDate(s, t);
    }
  }

  lemma {:induction false} CausalTxn(input: ItemInput, r: Resolution, t: SyntheticTxn)
    requires t in if t.kind == Sell then r.sells else r.disposals
    requires input.recs != [] ==> Causal(input, r)
    requires t.kind == Sell ==> input.recs != []
    ensures TxnIsCausal(input.recs, input.layers, t)
  {
    if t.kind == Sell {
      ScopeDraws(input, t, t.at);
    }
    forall k: nat {:trigger input.recs[k]} | k < |input.recs| && t.at <= input.recs[k].at
      ensures DrawsOnStockOf(input.layers, t, input.recs[k].at)
    {
      if t.kind == Sell {
        LaterStockIncludes(input.layers, t, t.at, input.recs[k].at);
      } else {
        ScopeDraws(input, t, input.recs[k].at);
      }
    }
  }

  /** Where no count is negative, every transaction of a plan is causal up to the counts. */
  lemma {:induction false} PlanIsCausal(subs: seq<Submission>, items: map<nat, Item>, t: SyntheticTxn)
    requires GoodLedgers(items) && SoundLayers(items) && CountsNonNegative(subs)
    requires PlanOf(subs, items).Ok? && t in PlanOf(subs, items).value.stock.txns
    ensures t.itemID in items && TxnIsCausal(RecsOf(subs, t.itemID), items[t.itemID].layers, t)
  {
    PlanTxns(subs, items, t);
    var id :| Mentioned(subs, id) && MadeFor(subs, items, id, t);
    var input := InputFor(subs, items, id);
    PlannedItem(subs, items, id);
    MadeForItem(subs, items, id, t);
    RecsNonNegative(subs, id);
    ItemTxnIsCausal(input, t);
  }

  lemma {:induction false} ItemTxnIsCausal(input: ItemInput, t: SyntheticTxn)
    requires WellFormed(input) && Unconsumed(Scope(input).layers) && forall c :: c in input.recs ==> c.qty >= 0.0
    requires Resolve(input).Ok? && var r := Resolve(input).value; t in r.sells + r.disposals
    ensures TxnIsCausal(input.recs, input.layers, t)
  {
    var ignored := ResolveIsSettle(input);
    SettledKinds(Scope(input), ignored, t);
    if input.recs != [] {
      SellsAndDisposalsAreCausal(input);
    }
    CausalTxn(input, Resolve(input).value, t);
  }

  // ----- the quantity a plan leaves -----

  /** The item's quantity is what its layers still hold. */
  ghost predicate Consistent(item: Item) {
    item.quantity == SumBy(item.layers, RemainingOf())
  }

  /** The previewed item ends at its last count plus what later layers still hold. */
  ghost predicate EndsAtLastCount(p: ItemPlan, recs: seq<Count>, layers: seq<Layer>)
    requires recs != []
  {
    && p.finalStock == recs[|recs| - 1].qty >= 0.0
    && p.appliedQty == p.finalStock + SumBy(Filter(layers, CreatedAfter(LastAt(recs))), RemainingOf())
    && p.appliedQty >= p.finalStock
  }

  lemma {:induction false} TallyItemOrigin(results: seq<Result<ItemResult, PlanError>>, n: nat, p: ItemPlan)
    returns (k: nat)
    requires n <= |results| && TallyItems(results, n).Ok? && p in TallyItems(results, n).value.items
    ensures k < n && results[k].Ok? && p == results[k].value.item
  {
    if p in TallyItems(results, n - 1).value.items {
      k := TallyItemOrigin(results, n - 1, p);
    } else {
      k := n - 1;
    }
  }

  lemma {:induction false} ItemPlanIs(subs: seq<Submission>, items: map<nat, Item>, p: ItemPlan)
    requires PlanOf(subs, items).Ok? && p in PlanOf(subs, items).value.items
    ensures Mentioned(subs, p.itemID) && p.itemID in items && Resolve(InputFor(subs, items, p.itemID)).Ok?
    ensures var input := InputFor(subs, items, p.itemID);
            p == ItemPlanOf(input, items[p.itemID], Resolve(input).value)
  {
    var ids, tally := PlanIsTally(subs, items);
    var k := TallyItemOrigin(ResultsOf(Entries(subs), ids, items), |ids|, p);
    MentionedAre(subs, ids[k]);
  }

  /** Every counted item of a plan over a consistent ledger ends at its last count, which is not negative. */
  lemma {:induction false} PlanEndsAtLastCounts(subs: seq<Submission>, items: map<nat, Item>, p: ItemPlan)
    requires GoodLedgers(items) && SoundLayers(items)
    requires PlanOf(subs, items).Ok? && p in PlanOf(subs, items).value.items
    ensures p.itemID in items
    ensures RecsOf(subs, p.itemID) != [] && Consistent(items[p.itemID]) ==>
              EndsAtLastCount(p, RecsOf(subs, p.itemID), items[p.itemID].layers)
  {
    ItemPlanIs(subs, items, p);
    PlannedItem(subs, items, p.itemID);
    if RecsOf(subs, p.itemID) != [] && Consistent(items[p.itemID]) {
      AppliedQuantityIsLastCount(InputFor(subs, items, p.itemID), items[p.itemID].quantity);
    }
  }

  // ----- the resolver's errors in a plan -----

  lemma {:induction false} TallyError(results: seq<Result<ItemResult, PlanError>>, n: nat) returns (k: nat)
    requires n <= |results| && TallyItems(results, n).Err?
    ensures k < n && results[k].Err? && TallyItems(results, n).error == results[k].error
  {
    if TallyItems(results, n - 1).Err? {
      k := TallyError(results, n - 1);
    } else {
      k := n - 1;
    }
  }

  /** What the resolver reported for the item. */
  ghost predicate FailsFor(subs: seq<Submission>, items: map<nat, Item>, id: nat, e: ResolveError) {
    id in items && Resolve(InputFor(subs, items, id)) == Err(e)
  }

  lemma {:induction false} TallyFailsFor(
    subs: seq<Submission>, ids: seq<nat>, items: map<nat, Item>, id: nat, e: ResolveError)
    requires (forall x :: x in ids ==> x in items) && TallyOf(Entries(subs), ids, items) == Err(Unresolved(id, e))
    ensures id in ids && FailsFor(subs, items, id, e)
  {
    var k := TallyError(ResultsOf(Entries(subs), ids, items), |ids|);
    assert ids[k] in ids;
  }

  lemma {:induction false} AppliedError(subs: seq<Submission>, t: Tally, n: nat)
    requires n <= |subs| && AppliedAsIs(subs, t, n).Err?
    ensures AppliedAsIs(subs, t, n).error.TrailingConflict?
  {
    if AppliedAsIs(subs, t, n - 1).Err? {
      AppliedError(subs, t, n - 1);
    }
  }

  lemma {:induction false} FirstErrorAmong(errors: seq<Option<PlanError>>, n: nat) returns (k: nat)
    requires n <= |errors| && FirstError(errors, n).Some?
    ensures k < n && errors[k] == FirstError(errors, n)
  {
    if FirstError(errors, n - 1).Some? {
      k := FirstErrorAmong(errors, n - 1);
    } else {
      k := n - 1;
    }
  }

  lemma {:induction false} ConsumedKind(subs: seq<Submission>, items: map<nat, Item>, ids: seq<nat>)
    requires forall id :: id in ids ==> id in items
    ensures var e := ConsumedError(Entries(subs), ids, items); e.Some? ==> e.value.AlreadyConsumed?
  {
    var errors := ConsumedErrors(Entries(subs), ids, items);
    if FirstError(errors, |ids|).Some? {
      var k := FirstErrorAmong(errors, |ids|);
    }
  }

  lemma {:induction false} InactiveKind(ids: seq<nat>, items: map<nat, Item>, n: nat)
    requires n <= |ids|
    ensures InactiveError(ids, items, n).Some? ==> InactiveError(ids, items, n).value.NotActive?
  {
    if n > 0 {
      InactiveKind(ids, items, n - 1);
    }
  }

  /** A plan that fails in the resolver failed for one of its items, past the checks. */
  lemma {:induction false} UnresolvedItem(subs: seq<Submission>, items: map<nat, Item>, id: nat, e: ResolveError)
    requires PlanOf(subs, items) == Err(Unresolved(id, e))
    ensures ChecksPass(subs, items) && Mentioned(subs, id) && FailsFor(subs, items, id, e)
  {
    var itemIDs := ItemsOf(Entries(subs));
    assert itemIDs[..|itemIDs|] == itemIDs;
    InactiveKind(itemIDs, items, |itemIDs|);
    ConsumedKind(subs, items, itemIDs);
    var ids := StableSort(itemIDs, Identity());
    StableSortHas(itemIDs, Identity());
    if TallyOf(Entries(subs), ids, items).Err? {
      TallyFailsFor(subs, ids, items, id, e);
      MentionedAre(subs, id);
    } else {
      AppliedError(subs, TallyOf(Entries(subs), ids, items).value, |subs|);
    }
  }

  /** Where no count is negative, no counted item of a plan ever runs out of stock. */
  lemma {:induction false} PlanNeverRunsDry(subs: seq<Submission>, items: map<nat, Item>, id: nat, e: ResolveError)
    requires GoodLedgers(items) && SoundLayers(items) && CountsNonNegative(subs)
    requires PlanOf(subs, items) == Err(Unresolved(id, e)) && e.InsufficientStock?
    ensures RecsOf(subs, id) == []
  {
    UnresolvedItem(subs, items, id, e);
    CheckedIsUnconsumed(subs, items, id);
    RecsNonNegative(subs, id);
    if RecsOf(subs, id) != [] {
      NeverInsufficient(InputFor(subs, items, id));
    }
  }
}

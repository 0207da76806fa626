/**
 The plan over all items and submissions (cmd/util/reconcile.go, computeResolution): the checks, the
 resolver per item in ascending id order, and the fate of every submission.
 */
module Planner {
  import opened Basics
  import opened Fifo
  import opened FifoLaws
  import opened Windows
  import opened Resolver
  import opened Rerun
  import opened Plans
  import opened Submissions

  /** A count that was corrected, with the values its payload gets. */
  datatype Correction = Correction(subID: nat, itemID: nat, origQty: real, newQty: real, origPrev: real, newPrev: real)

  /** A count, or a dispose that took part, as the preview lists it. */
  datatype ItemStep = ItemStep(
    subID: nat, isReconcile: bool, at: Instant, origQty: real, correctedQty: real, prevQty: real, drop: real,
    corrected: bool)

  datatype ItemPlan = ItemPlan(
    itemID: nat, startStock: real, finalStock: real, currentQty: real, appliedQty: real, steps: seq<ItemStep>)

  datatype Plan = Plan(
    stock: StockPlan, items: seq<ItemPlan>, corrections: seq<Correction>, appliedAsIs: seq<nat>,
    consumedDeltas: seq<Delta>)

  /** The plan under construction, with the items each dispose was applied to and ignored for. */
  datatype Tally = Tally(
    stock: StockPlan, items: seq<ItemPlan>, corrections: seq<Correction>,
    applied: map<nat, seq<nat>>, ignored: map<nat, seq<nat>>, deltas: map<nat, real>)

  datatype PlanError =
    | TooFewReconciles(count: nat)
    | NothingToLoad
    | NotActive(itemID: nat)
    | AlreadyConsumed(itemID: nat, layerID: nat)
    | Unresolved(itemID: nat, error: ResolveError)
    | TrailingConflict(subID: nat, ignoredFor: nat, appliedFor: nat)

  // ----- one item -----

  /** The rows of the first n layers whose consumption has grown. */
  ghost function GrownLayers(layers: seq<Layer>, consumedAfter: map<nat, real>, n: nat): seq<LayerUpdate>
    requires n <= |layers|
  {
    if n == 0 then
      []
    else
      var rest, l := GrownLayers(layers, consumedAfter, n - 1), layers[n - 1];
      var after := Grown(consumedAfter, l.id);
      if after - l.consumed > 0.0 then rest + [LayerUpdate(l.id, after)] else rest
  }

  /** By how much the consumption of the first n layers grows, where it does. */
  ghost function DeltasOf(layers: seq<Layer>, consumedAfter: map<nat, real>, n: nat): seq<Delta>
    requires n <= |layers|
  {
    if n == 0 then
      []
    else
      var rest, l := DeltasOf(layers, consumedAfter, n - 1), layers[n - 1];
      var delta := Grown(consumedAfter, l.id) - l.consumed;
      if delta > 0.0 then rest + [Delta(l.id, delta)] else rest
  }

  /** The map with the deltas set, one after another. */
  ghost function Put(m: map<nat, real>, deltas: seq<Delta>): map<nat, real> {
    if deltas == [] then
      m
    else
      var d := deltas[|deltas| - 1];
      Put(m, deltas[..|deltas| - 1])[d.layerID := d.delta]
  }

  /** A count's step. */
  function CountStep(): Step -> ItemStep {
    (s: Step) => ItemStep(s.subID, true, s.at, s.origQty, s.newQty, s.prevQty, s.drop, s.corrected)
  }

  /** The steps of the disposes that took part, for information. */
  ghost function DisposeSteps(disposes: seq<Dispose>, ignored: seq<nat>): seq<ItemStep> {
    if disposes == [] then
      []
    else
      var rest, d := DisposeSteps(disposes[..|disposes| - 1], ignored), disposes[|disposes| - 1];
      if d.subID in ignored then rest
      else rest + [ItemStep(d.subID, false, d.at, d.qty, d.qty, 0.0, d.qty, false)]
  }

  function StepTime(): ItemStep -> int {
    (s: ItemStep) => s.at
  }

  /** An item's steps by date. */
  ghost function ItemSteps(disposes: seq<Dispose>, r: Resolution): seq<ItemStep> {
    StableSort(MapSeq(r.steps, CountStep()) + DisposeSteps(disposes, r.ignored), StepTime())
  }

  /** The recorded previous quantity of a submission's first count. */
  function PrevOf(recs: seq<Count>, subID: nat): real {
    if recs == [] then 0.0 else if recs[0].subID == subID then recs[0].prev else PrevOf(recs[1..], subID)
  }

  ghost function CorrectionsOf(item: nat, recs: seq<Count>, steps: seq<Step>): seq<Correction> {
    if steps == [] then
      []
    else
      var rest, s := CorrectionsOf(item, recs, steps[..|steps| - 1]), steps[|steps| - 1];
      if s.corrected then
        rest + [Correction(s.subID, item, s.origQty, s.newQty, PrevOf(recs, s.subID), s.prevQty)]
      else
        rest
  }

  /** The item is noted with every submission of the list. */
  ghost function Note(m: map<nat, seq<nat>>, item: nat, subIDs: seq<nat>): map<nat, seq<nat>> {
    if subIDs == [] then
      m
    else
      var before, id := Note(m, item, subIDs[..|subIDs| - 1]), subIDs[|subIDs| - 1];
      before[id := Get(before, id) + [item]]
  }

  /** The submissions of the disposes that took part. */
  ghost function TookPart(disposes: seq<Dispose>, ignored: seq<nat>): seq<nat> {
    if disposes == [] then
      []
    else
      var rest, d := TookPart(disposes[..|disposes| - 1], ignored), disposes[|disposes| - 1];
      if d.subID in ignored then rest else rest + [d.subID]
  }

  ghost function StockOf(input: ItemInput, item: Item, r: Resolution): StockPlan {
    StockPlan(r.sells + r.disposals, GrownLayers(item.layers, r.consumedAfter, |item.layers|),
              [ItemUpdate(input.itemID, item.quantity, item.quantity - Outbound(r))])
  }

  ghost function ItemPlanOf(input: ItemInput, item: Item, r: Resolution): ItemPlan {
    var applied := item.quantity - Outbound(r);
    ItemPlan(input.itemID, r.startStock, if r.steps == [] then applied else r.steps[|r.steps| - 1].newQty,
             item.quantity, applied, ItemSteps(input.disposes, r))
  }

  /** What one resolved item adds to the tally. */
  datatype ItemResult = ItemResult(
    itemID: nat, stock: StockPlan, item: ItemPlan, corrections: seq<Correction>, applied: seq<nat>, ignored: seq<nat>,
    deltas: seq<Delta>)

  ghost function ResultOf(input: ItemInput, item: Item, r: Resolution): ItemResult {
    ItemResult(input.itemID, StockOf(input, item, r), ItemPlanOf(input, item, r),
               CorrectionsOf(input.itemID, input.recs, r.steps), TookPart(input.disposes, r.ignored), r.ignored,
               DeltasOf(item.layers, r.consumedAfter, |item.layers|))
  }

  ghost function ItemResultOf(input: ItemInput, item: Item): Result<ItemResult, PlanError> {
    match Resolve(input)
    case Err(e) => Err(Unresolved(input.itemID, e))
    case Ok(r) => Ok(ResultOf(input, item, r))
  }

  /** What the resolver makes of each item. */
  ghost function ResultsOf(
    entries: seq<Entry>, ids: seq<nat>, items: map<nat, Item>)
    : (r: seq<Result<ItemResult, PlanError>>)
    requires forall id :: id in ids ==> id in items
    ensures |r| == |ids|
  {
    seq(|ids|, k requires 0 <= k < |ids| => ItemResultOf(InputOf(entries, ids[k], items[ids[k]].layers), items[ids[k]]))
  }

  ghost function AddItem(t: Tally, r: ItemResult): Tally {
    Tally(Join(t.stock, r.stock), t.items + [r.item], t.corrections + r.corrections,
          Note(t.applied, r.itemID, r.applied), Note(t.ignored, r.itemID, r.ignored), Put(t.deltas, r.deltas))
  }

  const START := Tally(NO_CHANGE, [], [], map[], map[], map[])

  /** The tally of the first n items, or the first failure. */
  ghost function TallyItems(results: seq<Result<ItemResult, PlanError>>, n: nat): Result<Tally, PlanError>
    requires n <= |results|
  {
    if n == 0 then
      Ok(START)
    else
      var earlier := TallyItems(results, n - 1);
      if earlier.Err? then earlier
      else if results[n - 1].Err? then Err(results[n - 1].error)
      else Ok(AddItem(earlier.value, results[n - 1].value))
  }

  // ----- the checks -----

  ghost function InactiveError(ids: seq<nat>, items: map<nat, Item>, n: nat): (r: Option<PlanError>)
    requires n <= |ids|
    ensures r == None <==> forall id :: id in ids[..n] ==> id in items
  {
    if n == 0 then
      None
    else
      assert ids[..n] == ids[..n - 1] + [ids[n - 1]];
      var r := InactiveError(ids, items, n - 1);
      if r.Some? then r else if ids[n - 1] in items then None else Some(NotActive(ids[n - 1]))
  }

  /** Whether a layer takes part in the item's resolution. */
  predicate LayerInScope(recs: seq<Count>, l: Layer) {
    recs == [] || !IsTrailingPurchase(l.createdAt, LastAt(recs))
  }

  /** The first of the first n layers that is in scope and already consumed. */
  ghost function ConsumedLayer(recs: seq<Count>, layers: seq<Layer>, n: nat): (r: Option<nat>)
    requires n <= |layers|
    ensures r == None <==> forall l :: l in layers[..n] && LayerInScope(recs, l) ==> l.consumed <= 0.0
  {
    if n == 0 then
      None
    else
      assert layers[..n] == layers[..n - 1] + [layers[n - 1]];
      var r, l := ConsumedLayer(recs, layers, n - 1), layers[n - 1];
      if r.Some? then r else if LayerInScope(recs, l) && l.consumed > 0.0 then Some(l.id) else None
  }

  ghost function ItemConsumedError(id: nat, recs: seq<Count>, layers: seq<Layer>): Option<PlanError> {
    match ConsumedLayer(recs, layers, |layers|)
    case Some(layerID) => Some(AlreadyConsumed(id, layerID))
    case None => None
  }

  ghost function ConsumedErrors(entries: seq<Entry>, ids: seq<nat>, items: map<nat, Item>): (r: seq<Option<PlanError>>)
    requires forall id :: id in ids ==> id in items
    ensures |r| == |ids|
  {
    seq(|ids|, k requires 0 <= k < |ids| =>
      ItemConsumedError(ids[k], StableSort(CountsOf(entries, ids[k]), CountTime()), items[ids[k]].layers))
  }

  ghost function FirstError(errors: seq<Option<PlanError>>, n: nat): Option<PlanError>
    requires n <= |errors|
  {
    if n == 0 then
      None
    else
      var r := FirstError(errors, n - 1);
      if r.Some? then r else errors[n - 1]
  }

  ghost function ConsumedError(entries: seq<Entry>, ids: seq<nat>, items: map<nat, Item>): Option<PlanError>
    requires forall id :: id in ids ==> id in items
  {
    FirstError(ConsumedErrors(entries, ids, items), |ids|)
  }

  // ----- the submissions -----

  ghost predicate IsCorrected(corrections: seq<Correction>, subID: nat) {
    exists c :: c in corrections && c.subID == subID
  }

  /**
   The submissions of the first n that are applied as they are, or the first dispose that is both in
   scope and trailing.
   */
  ghost function AppliedAsIs(subs: seq<Submission>, t: Tally, n: nat): Result<seq<nat>, PlanError>
    requires n <= |subs|
  {
    if n == 0 then
      Ok([])
    else
      var earlier, sub := AppliedAsIs(subs, t, n - 1), subs[n - 1];
      if earlier.Err? then
        earlier
      else if sub.isReconcile then
        Ok(if IsCorrected(t.corrections, sub.id) then earlier.value else earlier.value + [sub.id])
      else
        var applied, ignored := Get(t.applied, sub.id), Get(t.ignored, sub.id);
        if applied != [] && ignored != [] then Err(TrailingConflict(sub.id, ignored[0], applied[0]))
        else Ok(if applied == [] then earlier.value else earlier.value + [sub.id])
  }

  /** By item, then date, then kind. */
  function InResolutionOrder(txns: seq<SyntheticTxn>): seq<SyntheticTxn> {
    SortBy3(txns, TxnItem(), TxnDate(), TxnKindRank())
  }

  ghost function Finish(subs: seq<Submission>, t: Tally): Result<Plan, PlanError> {
    match AppliedAsIs(subs, t, |subs|)
    case Err(e) => Err(e)
    case Ok(asIs) =>
      Ok(Plan(t.stock.(txns := InResolutionOrder(t.stock.txns)), t.items, t.corrections, asIs, ListedDeltas(t.deltas)))
  }

  /** The plan of items that are all active. */
  ghost function PlanActive(subs: seq<Submission>, items: map<nat, Item>): Result<Plan, PlanError>
    requires forall id :: id in ItemsOf(Entries(subs)) ==> id in items
  {
    var entries := Entries(subs);
    var ids := ItemsOf(entries);
    var consumed := ConsumedError(entries, ids, items);
    if consumed.Some? then
      Err(consumed.value)
    else
      StableSortHas(ids, Identity());
      match TallyItems(ResultsOf(entries, StableSort(ids, Identity()), items), |ids|)
      case Err(e) => Err(e)
      case Ok(t) => Finish(subs, t)
  }

  /** The resolution plan in closed form. */
  ghost function PlanOf(subs: seq<Submission>, items: map<nat, Item>): Result<Plan, PlanError> {
    var ids := ItemsOf(Entries(subs));
    var inactive := InactiveError(ids, items, |ids|);
    assert ids[..|ids|] == ids;
    if ReconcileCount(subs) < 2 then Err(TooFewReconciles(ReconcileCount(subs)))
    else if inactive.Some? then Err(inactive.value)
    else if ids == [] then Err(NothingToLoad)
    else PlanActive(subs, items)
  }

  // ----- corrections of a submission -----

  /** The last of the corrections that names the item. */
  ghost function LastFor(corrections: seq<Correction>, item: nat): Option<Correction> {
    if corrections == [] then None
    else if corrections[|corrections| - 1].itemID == item then Some(corrections[|corrections| - 1])
    else LastFor(corrections[..|corrections| - 1], item)
  }

  function OfSub(subID: nat): Correction -> bool {
    (c: Correction) => c.subID == subID
  }

  // ----- the loops -----

  lemma {:induction false} InactiveStays(ids: seq<nat>, items: map<nat, Item>, n: nat)
    requires n <= |ids| && InactiveError(ids, items, n).Some?
    ensures InactiveError(ids, items, |ids|) == InactiveError(ids, items, n)
    decreases |ids| - n
  {
    if n < |ids| {
      InactiveStays(ids, items, n + 1);
    }
  }

  lemma {:induction false} ConsumedLayerStays(recs: seq<Count>, layers: seq<Layer>, n: nat)
    requires n <= |layers| && ConsumedLayer(recs, layers, n).Some?
    ensures ConsumedLayer(recs, layers, |layers|) == ConsumedLayer(recs, layers, n)
    decreases |layers| - n
  {
    if n < |layers| {
      ConsumedLayerStays(recs, layers, n + 1);
    }
  }

  lemma {:induction false} FirstErrorStays(errors: seq<Option<PlanError>>, n: nat)
    requires n <= |errors| && FirstError(errors, n).Some?
    ensures FirstError(errors, |errors|) == FirstError(errors, n)
    decreases |errors| - n
  {
    if n < |errors| {
      FirstErrorStays(errors, n + 1);
    }
  }

  lemma {:induction false} TallyFails(results: seq<Result<ItemResult, PlanError>>, n: nat)
    requires n <= |results| && TallyItems(results, n).Err?
    ensures TallyItems(results, |results|) == TallyItems(results, n)
    decreases |results| - n
  {
    if n < |results| {
      TallyFails(results, n + 1);
    }
  }

  lemma {:induction false} AppliedAsIsFails(subs: seq<Submission>, t: Tally, n: nat)
    requires n <= |subs| && AppliedAsIs(subs, t, n).Err?
    ensures AppliedAsIs(subs, t, |subs|) == AppliedAsIs(subs, t, n)
    decreases |subs| - n
  {
    if n < |subs| {
      AppliedAsIsFails(subs, t, n + 1);
    }
  }

  method CheckActive(ids: seq<nat>, items: map<nat, Item>) returns (error: Option<PlanError>)
    ensures error == InactiveError(ids, items, |ids|)
  {
    var i := 0;
    while i < |ids|
      invariant i <= |ids| && InactiveError(ids, items, i) == None
    {
      if ids[i] !in items {
        InactiveStays(ids, items, i + 1);
        return Some(NotActive(ids[i]));
      }
      i := i + 1;
    }
    error := None;
  }

  method FindConsumed(recs: seq<Count>, layers: seq<Layer>) returns (layerID: Option<nat>)
    ensures layerID == ConsumedLayer(recs, layers, |layers|)
  {
    var i := 0;
    while i < |layers|
      invariant i <= |layers| && ConsumedLayer(recs, layers, i) == None
    {
      if LayerInScope(recs, layers[i]) && layers[i].consumed > 0.0 {
        ConsumedLayerStays(recs, layers, i + 1);
        return Some(layers[i].id);
      }
      i := i + 1;
    }
    layerID := None;
  }

  method CheckItem(id: nat, counts: seq<Count>, layers: seq<Layer>) returns (error: Option<PlanError>)
    ensures error == ItemConsumedError(id, StableSort(counts, CountTime()), layers)
  {
    var layerID := FindConsumed(StableSort(counts, CountTime()), layers);
    error := if layerID.Some? then Some(AlreadyConsumed(id, layerID.value)) else None;
  }

  method CheckUnconsumed(ids: seq<nat>, items: map<nat, Item>, counts: map<nat, seq<Count>>,
                         ghost disposes: map<nat, seq<Dispose>>, ghost entries: seq<Entry>)
    returns (error: Option<PlanError>)
    requires forall id :: id in ids ==> id in items
    requires Filed(counts, disposes, entries)
    ensures error == ConsumedError(entries, ids, items)
  {
    ghost var errors := ConsumedErrors(entries, ids, items);
    error := None;
    var i := 0;
    while i < |ids| && error.None?
      invariant i <= |ids| && error == FirstError(errors, i)
    {
      var id, mine := ids[i], Get(counts, ids[i]);
      FiledAt(counts, disposes, entries, id);
      assert id in items;
      error := CheckItem(id, mine, items[id].layers);
      i := i + 1;
    }
    if error.Some? {
      FirstErrorStays(errors, i);
    }
  }

  method SumQuantities(txns: seq<SyntheticTxn>) returns (total: real)
    ensures total == SumBy(txns, Quantity())
  {
    total := 0.0;
    var i := 0;
    while i < |txns|
      invariant i <= |txns| && total == SumBy(txns[..i], Quantity())
    {
      SumStep(txns, i, Quantity());
      total := total + txns[i].quantity;
      i := i + 1;
    }
    assert txns[..i] == txns;
  }

  /** The final consumption of the layers that are drawn on, and the map of their growth. */
  method UpdateLayers(layers: seq<Layer>, consumedAfter: map<nat, real>, m: map<nat, real>)
    returns (updates: seq<LayerUpdate>, deltas: map<nat, real>)
    ensures updates == GrownLayers(layers, consumedAfter, |layers|)
    ensures deltas == Put(m, DeltasOf(layers, consumedAfter, |layers|))
  {
    updates, deltas := [], m;
    var i := 0;
    while i < |layers|
      invariant i <= |layers| && updates == GrownLayers(layers, consumedAfter, i)
      invariant deltas == Put(m, DeltasOf(layers, consumedAfter, i))
    {
      var p := layers[i];
      var after := if p.id in consumedAfter then consumedAfter[p.id] else 0.0;
      var delta := after - p.consumed;
      PutStep(m, DeltasOf(layers, consumedAfter, i), Delta(p.id, delta));
      if delta > 0.0 {
        updates := updates + [LayerUpdate(p.id, after)];
        deltas := deltas[p.id := delta];
      }
      i := i + 1;
    }
  }

  lemma {:induction false} PutStep(m: map<nat, real>, deltas: seq<Delta>, d: Delta)
    ensures Put(m, deltas + [d]) == Put(m, deltas)[d.layerID := d.delta]
  {
    assert (deltas + [d])[..|deltas|] == deltas;
  }

  /** The counts' steps, then those of the disposes that took part, sorted by date. */
  method ListSteps(steps: seq<Step>, disposes: seq<Dispose>, ignored: seq<nat>) returns (r: seq<ItemStep>)
    ensures r == StableSort(MapSeq(steps, CountStep()) + DisposeSteps(disposes, ignored), StepTime())
  {
    var counts: seq<ItemStep> := [];
    var i := 0;
    while i < |steps|
      invariant i <= |steps| && counts == MapSeq(steps[..i], CountStep())
    {
      var s := steps[i];
      assert steps[..i + 1][..i] == steps[..i];
      counts := counts + [ItemStep(s.subID, true, s.at, s.origQty, s.newQty, s.prevQty, s.drop, s.corrected)];
      i := i + 1;
    }
    assert steps[..i] == steps;
    var others := ListDisposeSteps(disposes, ignored);
    r := StableSort(counts + others, StepTime());
  }

  method ListDisposeSteps(disposes: seq<Dispose>, ignored: seq<nat>) returns (r: seq<ItemStep>)
    ensures r == DisposeSteps(disposes, ignored)
  {
    r := [];
    var i := 0;
    while i < |disposes|
      invariant i <= |disposes| && r == DisposeSteps(disposes[..i], ignored)
    {
      var d := disposes[i];
      assert disposes[..i + 1][..i] == disposes[..i];
      if d.subID !in ignored {
        r := r + [ItemStep(d.subID, false, d.at, d.qty, d.qty, 0.0, d.qty, false)];
      }
      i := i + 1;
    }
    assert disposes[..i] == disposes;
  }

  method RecordedPrev(recs: seq<Count>, subID: nat) returns (prev: real)
    ensures prev == PrevOf(recs, subID)
  {
    var i := 0;
    while i < |recs|
      invariant i <= |recs| && PrevOf(recs, subID) == PrevOf(recs[i..], subID)
    {
      if recs[i].subID == subID {
        return recs[i].prev;
      }
      assert recs[i..][1..] == recs[i + 1..];
      i := i + 1;
    }
    prev := 0.0;
  }

  method ListCorrections(item: nat, recs: seq<Count>, steps: seq<Step>) returns (corrections: seq<Correction>)
    ensures corrections == CorrectionsOf(item, recs, steps)
  {
    corrections := [];
    var i := 0;
    while i < |steps|
      invariant i <= |steps| && corrections == CorrectionsOf(item, recs, steps[..i])
    {
      var s := steps[i];
      assert steps[..i + 1][..i] == steps[..i];
      if s.corrected {
        var prev := RecordedPrev(recs, s.subID);
        corrections := corrections + [Correction(s.subID, item, s.origQty, s.newQty, prev, s.prevQty)];
      }
      i := i + 1;
    }
    assert steps[..i] == steps;
  }

  method NoteAll(m0: map<nat, seq<nat>>, item: nat, subIDs: seq<nat>) returns (m: map<nat, seq<nat>>)
    ensures m == Note(m0, item, subIDs)
  {
    m := m0;
    var i := 0;
    while i < |subIDs|
      invariant i <= |subIDs| && m == Note(m0, item, subIDs[..i])
    {
      assert subIDs[..i + 1][..i] == subIDs[..i];
      m := m[subIDs[i] := Get(m, subIDs[i]) + [item]];
      i := i + 1;
    }
    assert subIDs[..i] == subIDs;
  }

  method ListTookPart(disposes: seq<Dispose>, ignored: seq<nat>) returns (subIDs: seq<nat>)
    ensures subIDs == TookPart(disposes, ignored)
  {
    subIDs := [];
    var i := 0;
    while i < |disposes|
      invariant i <= |disposes| && subIDs == TookPart(disposes[..i], ignored)
    {
      assert disposes[..i + 1][..i] == disposes[..i];
      if disposes[i].subID !in ignored {
        subIDs := subIDs + [disposes[i].subID];
      }
      i := i + 1;
    }
    assert disposes[..i] == disposes;
  }

  /** Adds one resolved item to the tally. */
  method TallyItem(t: Tally, input: ItemInput, item: Item, r: Resolution) returns (t': Tally)
    ensures t' == AddItem(t, ResultOf(input, item, r))
  {
    var sold := SumQuantities(r.sells);
    var disposed := SumQuantities(r.disposals);
    var outbound := sold + disposed;
    var appliedQty := item.quantity - outbound;
    var finalStock := appliedQty;
    if |r.steps| > 0 {
      finalStock := r.steps[|r.steps| - 1].newQty;
    }
    var updates, deltas := UpdateLayers(item.layers, r.consumedAfter, t.deltas);
    var steps := ListSteps(r.steps, input.disposes, r.ignored);
    var corrections := ListCorrections(input.itemID, input.recs, r.steps);
    var tookPart := ListTookPart(input.disposes, r.ignored);
    var applied := NoteAll(t.applied, input.itemID, tookPart);
    var ignored := NoteAll(t.ignored, input.itemID, r.ignored);
    t' := Tally(
      Join(t.stock, StockPlan(r.sells + r.disposals, updates, [ItemUpdate(input.itemID, item.quantity, appliedQty)])),
      t.items + [ItemPlan(input.itemID, r.startStock, finalStock, item.quantity, appliedQty, steps)],
      t.corrections + corrections, applied, ignored, deltas);
  }

  /** Sorts one item's steps, resolves it and adds it to the tally. */
  method ResolveOne(t: Tally, id: nat, counts: seq<Count>, disposes: seq<Dispose>, item: Item)
    returns (r: Result<Tally, PlanError>)
    requires Chronological(item.layers) && DistinctIds(item.layers)
    ensures var input := ItemInput(id, StableSort(counts, CountTime()), StableSort(disposes, DisposeTime()),
            item.layers);
            && (ItemResultOf(input, item).Err? ==> r == Err(ItemResultOf(input, item).error))
            && (ItemResultOf(input, item).Ok? ==> r == Ok(AddItem(t, ItemResultOf(input, item).value)))
  {
    var input := ItemInput(id, StableSort(counts, CountTime()), StableSort(disposes, DisposeTime()), item.layers);
    StableSortSorts(counts, CountTime());
    var resolved := ResolveItem(input);
    if resolved.Err? {
      return Err(Unresolved(id, resolved.error));
    }
    var t' := TallyItem(t, input, item, resolved.value);
    return Ok(t');
  }

  method ResolveItems(
    ids: seq<nat>, items: map<nat, Item>, counts: map<nat, seq<Count>>, disposes: map<nat, seq<Dispose>>,
    ghost entries: seq<Entry>)
    returns (r: Result<Tally, PlanError>)
    requires GoodLedgers(items) && forall id :: id in ids ==> id in items
    requires Filed(counts, disposes, entries)
    ensures r == TallyItems(ResultsOf(entries, ids, items), |ids|)
  {
    ghost var results := ResultsOf(entries, ids, items);
    r := Ok(START);
    var i := 0;
    while i < |ids| && r.Ok?
      invariant i <= |ids| && r == TallyItems(results, i)
    {
      FiledAt(counts, disposes, entries, ids[i]);
      assert ids[i] in ids;
      r := ResolveOne(r.value, ids[i], Get(counts, ids[i]), Get(disposes, ids[i]), items[ids[i]]);
      i := i + 1;
    }
    if r.Err? {
      TallyFails(results, i);
    }
  }

  method ListAppliedAsIs(subs: seq<Submission>, t: Tally) returns (r: Result<seq<nat>, PlanError>)
    ensures r == AppliedAsIs(subs, t, |subs|)
  {
    var corrected := set c | c in t.corrections :: c.subID;
    var asIs: seq<nat> := [];
    var i := 0;
    while i < |subs|
      invariant i <= |subs| && AppliedAsIs(subs, t, i) == Ok(asIs)
    {
      var sub := subs[i];
      assert sub.id in corrected <==> IsCorrected(t.corrections, sub.id);
      if sub.isReconcile {
        if sub.id !in corrected {
          asIs := asIs + [sub.id];
        }
      } else {
        var applied, ignored := Get(t.applied, sub.id), Get(t.ignored, sub.id);
        if |applied| > 0 && |ignored| > 0 {
          AppliedAsIsFails(subs, t, i + 1);
          return Err(TrailingConflict(sub.id, ignored[0], applied[0]));
        }
        if |applied| > 0 {
          asIs := asIs + [sub.id];
        }
      }
      i := i + 1;
    }
    return Ok(asIs);
  }

  /** computeResolution, after loading. */
  method ComputeResolution(subs: seq<Submission>, items: map<nat, Item>) returns (r: Result<Plan, PlanError>)
    requires GoodLedgers(items)
    ensures r == PlanOf(subs, items)
  {
    var reconciles := CountReconciles(subs);
    if reconciles < 2 {
      return Err(TooFewReconciles(reconciles));
    }
    var itemIDs, counts, disposes := CollectInputs(subs);
    ghost var entries := Entries(subs);
    assert itemIDs[..|itemIDs|] == itemIDs;
    var inactive := CheckActive(itemIDs, items);
    if inactive.Some? {
      return Err(inactive.value);
    }
    if |itemIDs| == 0 {
      return Err(NothingToLoad);
    }
    var consumed := CheckUnconsumed(itemIDs, items, counts, disposes, entries);
    if consumed.Some? {
      return Err(consumed.value);
    }
    StableSortHas(itemIDs, Identity());
    var tally := ResolveItems(StableSort(itemIDs, Identity()), items, counts, disposes, entries);
    if tally.Err? {
      return Err(tally.error);
    }
    var t := tally.value;
    var asIs := ListAppliedAsIs(subs, t);
    if asIs.Err? {
      return Err(asIs.error);
    }
    var deltas := ListDeltas(t.deltas);
    return Ok(Plan(t.stock.(txns := InResolutionOrder(t.stock.txns)), t.items, t.corrections, asIs.value, deltas));
  }
}

/**
 Planning again from the corrected payloads (cmd/util/reconcile.go, computeResolution and
 correctedPayload): exactly when nothing further is corrected and the plan is the same.
 */
module PlanRepeats {
  import opened Basics
  import opened Fifo
  import opened Windows
  import opened Resolver
  import opened Rerun
  import opened Plans
  import opened Submissions
  import opened Planner
  import opened PlannerLaws
  import opened PlannerRerun
  import opened Settlement

  // ----- what repeating means -----

  /** A step that reports its count taken as it stands. */
  function AsCounted(): ItemStep -> ItemStep {
    (s: ItemStep) => s.(origQty := s.correctedQty, corrected := false)
  }

  function WithoutCorrections(): ItemPlan -> ItemPlan {
    (p: ItemPlan) => p.(steps := MapSeq(p.steps, AsCounted()))
  }

  /**
   The second plan is the first one with every count taken as it stands: it applies all the reconciles
   as they are, and of the disposes those that the first one applied.
   */
  ghost predicate PlanRepeated(subs: seq<Submission>, plan: Plan, again: Result<Plan, PlanError>) {
    && again.Ok? && again.value.stock == plan.stock && again.value.consumedDeltas == plan.consumedDeltas
    && again.value.items == MapSeq(plan.items, WithoutCorrections()) && again.value.corrections == []
    && forall x :: x in again.value.appliedAsIs <==> x in plan.appliedAsIs || IsReconcileOf(subs, x)
  }

  ghost predicate IsReconcileOf(subs: seq<Submission>, x: nat) {
    exists i {:trigger subs[i]} :: 0 <= i < |subs| && subs[i].isReconcile && subs[i].id == x
  }

  /** No correction of a submission and item differs from the quantity of one of its counts in the plan. */
  ghost predicate CorrectionsAgree(items: seq<ItemPlan>, corrections: seq<Correction>) {
    forall p, s {:trigger p in items, s in p.steps} ::
      p in items && s in p.steps && s.isReconcile ==> Agrees(corrections, p.itemID, s.subID, s.correctedQty)
  }

  // ----- the counts among an item's steps -----

  function IsCount(): ItemStep -> bool {
    (s: ItemStep) => s.isReconcile
  }

  lemma {:induction false} DisposeStepsAreNoCounts(disposes: seq<Dispose>, ignored: seq<nat>)
    ensures forall s :: s in DisposeSteps(disposes, ignored) ==> !s.isReconcile
  {
    if disposes != [] {
      DisposeStepsAreNoCounts(disposes[..|disposes| - 1], ignored);
    }
  }

  lemma {:induction false} CountStepsAre(steps: seq<Step>, s: ItemStep)
    ensures s in MapSeq(steps, CountStep()) <==>
            exists k {:trigger steps[k]} :: 0 <= k < |steps| && CountStep()(steps[k]) == s
  {
  }

  /** The counts of the preview are the item's steps. */
  lemma {:induction false} CountsOfItem(disposes: seq<Dispose>, r: Resolution, s: ItemStep)
    ensures s in ItemSteps(disposes, r) && s.isReconcile <==>
            exists k {:trigger r.steps[k]} :: 0 <= k < |r.steps| && CountStep()(r.steps[k]) == s
  {
    StableSortHas(MapSeq(r.steps, CountStep()) + DisposeSteps(disposes, r.ignored), StepTime());
    DisposeStepsAreNoCounts(disposes, r.ignored);
    CountStepsAre(r.steps, s);
  }

  lemma {:induction false} CountStepsSorted(steps: seq<Step>, recs: seq<Count>)
    requires |steps| == |recs| && SortedBy(recs, CountTime())
    requires forall k {:trigger steps[k]} :: 0 <= k < |steps| ==> steps[k].at == recs[k].at
    ensures SortedBy(MapSeq(steps, CountStep()), StepTime())
  {
    if |steps| > 1 {
      var n := |steps| - 1;
      CountStepsSorted(steps[..n], recs[..n]);
      assert MapSeq(steps, CountStep())[..n] == MapSeq(steps[..n], CountStep());
      assert steps[n].at == recs[n].at && steps[n - 1].at == recs[n - 1].at;
    }
  }

  /** Picked out of the preview, the counts are the item's steps in their order. */
  lemma {:induction false} CountsInOrder(disposes: seq<Dispose>, r: Resolution, recs: seq<Count>)
    requires |r.steps| == |recs| && SortedBy(recs, CountTime())
    requires forall k {:trigger r.steps[k]} :: 0 <= k < |r.steps| ==> r.steps[k].at == recs[k].at
    ensures Filter(ItemSteps(disposes, r), IsCount()) == MapSeq(r.steps, CountStep())
  {
    CountStepsSorted(r.steps, recs);
    DisposeStepsAreNoCounts(disposes, r.ignored);
    CountsAmong(MapSeq(r.steps, CountStep()), DisposeSteps(disposes, r.ignored));
  }

  lemma {:induction false} CountsAmong(counts: seq<ItemStep>, others: seq<ItemStep>)
    requires SortedBy(counts, StepTime())
    requires (forall s :: s in counts ==> s.isReconcile) && (forall s :: s in others ==> !s.isReconcile)
    ensures Filter(StableSort(counts + others, StepTime()), IsCount()) == counts
  {
    StableSortFilter(counts + others, StepTime(), IsCount());
    FilterConcat(counts, others, IsCount());
    FilterNone(others, IsCount());
    FilterAll(counts, IsCount());
    assert Filter(counts + others, IsCount()) == counts;
    StableSortSorted(counts, StepTime());
  }

  lemma {:induction false} FilterMapped(s: seq<ItemStep>)
    ensures Filter(MapSeq(s, AsCounted()), IsCount()) == MapSeq(Filter(s, IsCount()), AsCounted())
  {
    if s != [] {
      FilterMapped(s[..|s| - 1]);
      assert MapSeq(s, AsCounted())[..|s| - 1] == MapSeq(s[..|s| - 1], AsCounted());
      var counts := Filter(s[..|s| - 1], IsCount());
      assert (counts + [s[|s| - 1]])[..|counts|] == counts;
    }
  }

  // ----- one item again -----

  /** The steps of a resolution that repeats another. */
  lemma {:induction false} StepsAgain(disposes: seq<Dispose>, r: Resolution, r': Resolution)
    requires r' == r.(steps := r'.steps) && SameSteps(r.steps, r'.steps)
    ensures ItemSteps(disposes, r') == MapSeq(ItemSteps(disposes, r), AsCounted())
  {
    var counts, others := MapSeq(r.steps, CountStep()), DisposeSteps(disposes, r.ignored);
    forall k | 0 <= k < |r.steps|
      ensures CountStep()(r'.steps[k]) == AsCounted()(CountStep()(r.steps[k]))
    {
      assert r'.steps[k] == Uncorrected(r.steps[k]);
    }
    assert MapSeq(r'.steps, CountStep()) == MapSeq(counts, AsCounted());
    DisposeStepsStand(disposes, r.ignored);
    MapConcat(counts, others);
    StableSortMap(counts + others, StepTime(), AsCounted());
  }

  lemma {:induction false} DisposeStepsStand(disposes: seq<Dispose>, ignored: seq<nat>)
    ensures MapSeq(DisposeSteps(disposes, ignored), AsCounted()) == DisposeSteps(disposes, ignored)
  {
    if disposes != [] {
      var rest := DisposeSteps(disposes[..|disposes| - 1], ignored);
      var d := disposes[|disposes| - 1];
      DisposeStepsStand(disposes[..|disposes| - 1], ignored);
      if d.subID !in ignored {
        var s := ItemStep(d.subID, false, d.at, d.qty, d.qty, 0.0, d.qty, false);
        assert (rest + [s])[..|rest|] == rest;
      }
    }
  }

  lemma {:induction false} MapConcat(a: seq<ItemStep>, b: seq<ItemStep>)
    ensures MapSeq(a + b, AsCounted()) == MapSeq(a, AsCounted()) + MapSeq(b, AsCounted())
  {
  }

  lemma {:induction false} NothingCorrected(item: nat, recs: seq<Count>, steps: seq<Step>)
    requires forall k :: 0 <= k < |steps| ==> !steps[k].corrected
    ensures CorrectionsOf(item, recs, steps) == []
  {
    if steps != [] {
      NothingCorrected(item, recs, steps[..|steps| - 1]);
    }
  }

  /** What an item adds to the plan, with its counts taken as they stand. */
  ghost function Stable(r: ItemResult): ItemResult {
    r.(corrections := [], item := WithoutCorrections()(r.item))
  }

  /** What a tally takes from a resolution that repeats another. */
  lemma {:induction false} ResultAgain(input: ItemInput, input': ItemInput, item: Item, r: Resolution, r': Resolution)
    requires input'.itemID == input.itemID && input'.disposes == input.disposes
    requires r' == r.(steps := r'.steps) && SameSteps(r.steps, r'.steps)
    ensures ResultOf(input', item, r') == Stable(ResultOf(input, item, r))
  {
    assert forall k {:trigger r'.steps[k]} :: 0 <= k < |r'.steps| ==> !r'.steps[k].corrected;
    NothingCorrected(input.itemID, input'.recs, r'.steps);
    ItemPlanAgain(input, input', item, r, r');
  }

  lemma {:induction false} ItemPlanAgain(input: ItemInput, input': ItemInput, item: Item, r: Resolution, r': Resolution)
    requires input'.itemID == input.itemID && input'.disposes == input.disposes
    requires r' == r.(steps := r'.steps) && SameSteps(r.steps, r'.steps)
    ensures ItemPlanOf(input', item, r') == WithoutCorrections()(ItemPlanOf(input, item, r))
  {
    StepsAgain(input.disposes, r, r');
    if r.steps != [] {
      assert r'.steps[|r.steps| - 1] == Uncorrected(r.steps[|r.steps| - 1]);
    }
  }

  /** The item resolves again to the same stock plan, item plan and notes, with no correction. */
  lemma {:induction false} ItemAgain(input: ItemInput, again: seq<Count>, item: Item)
    requires WellFormed(input) && Recounted(input.recs, again, Corrections(Scope(input)))
    ensures Resolve(input).Ok? ==>
            ItemResultOf(input.(recs := again), item) == Ok(Stable(ItemResultOf(input, item).value))
  {
    RerunIsStable(input, again);
    if Resolve(input).Ok? {
      ResultAgain(input, input.(recs := again), item, Resolve(input).value, Resolve(input.(recs := again)).value);
    }
  }

  /** An input built from the reissued entries is the old input with the reissued counts. */
  lemma {:induction false} InputAgain(entries: seq<Entry>, corrections: seq<Correction>, id: nat, layers: seq<Layer>)
    requires SortedBy(entries, EntryTime())
    ensures var input := InputOf(entries, id, layers);
            var again := ReissueCounts(CountsOf(entries, id), id, corrections);
            && input.recs == CountsOf(entries, id)
            && (SortedBy(again, CountTime()) ==>
               InputOf(ReissueEntries(entries, corrections), id, layers) == input.(recs := again))
  {
    CountsSorted(entries, id);
    StableSortSorted(CountsOf(entries, id), CountTime());
    ReissuedSteps(entries, corrections, id);
    if SortedBy(ReissueCounts(CountsOf(entries, id), id, corrections), CountTime()) {
      StableSortSorted(ReissueCounts(CountsOf(entries, id), id, corrections), CountTime());
    }
  }

  lemma {:induction false} InputAgainItem(entries: seq<Entry>, corrections: seq<Correction>, id: nat, item: Item)
    requires SortedBy(entries, EntryTime()) && Chronological(item.layers) && DistinctIds(item.layers)
    requires ItemResultOf(InputOf(entries, id, item.layers), item).Ok?
    requires Serves(corrections, id, PartOf(ItemResultOf(InputOf(entries, id, item.layers), item)))
    requires StepsAgree(corrections, id, Resolve(InputOf(entries, id, item.layers)).value.steps)
    ensures ItemResultOf(InputOf(ReissueEntries(entries, corrections), id, item.layers), item)
         == Ok(Stable(ItemResultOf(InputOf(entries, id, item.layers), item).value))
  {
    var input := InputOf(entries, id, item.layers);
    var again := ReissueCounts(input.recs, id, corrections);
    InputWellFormed(entries, id, item);
    InputAgain(entries, corrections, id, item.layers);
    ReissuedCounts(input, corrections, Resolve(input).value.steps);
    RecountedSorted(input.recs, again, Corrections(Scope(input)));
    ItemAgain(input, again, item);
  }

  // ----- all items again -----

  /** Each item resolves again to the same, with its counts taken as they stand. */
  ghost predicate SameAgain(results: seq<Result<ItemResult, PlanError>>, again: seq<Result<ItemResult, PlanError>>) {
    && |again| == |results|
    && forall k {:trigger results[k]} :: 0 <= k < |results| && results[k].Ok? ==>
       again[k] == Ok(Stable(results[k].value))
  }

  ghost function StableTally(t: Tally): Tally {
    t.(corrections := [], items := MapSeq(t.items, WithoutCorrections()))
  }

  lemma {:induction false} AddItemAgain(t: Tally, r: ItemResult)
    ensures AddItem(StableTally(t), Stable(r)) == StableTally(AddItem(t, r))
  {
    assert (t.items + [r.item])[..|t.items|] == t.items;
  }

  lemma {:induction false} TallyItemsAgain(
    results: seq<Result<ItemResult, PlanError>>, again: seq<Result<ItemResult, PlanError>>, n: nat)
    requires n <= |results| && SameAgain(results, again) && TallyItems(results, n).Ok?
    ensures TallyItems(again, n) == Ok(StableTally(TallyItems(results, n).value))
  {
    if n > 0 {
      TallyItemsAgain(results, again, n - 1);
      assert results[n - 1].Ok?;
      AddItemAgain(TallyItems(results, n - 1).value, results[n - 1].value);
    }
  }

  /** A tally lists its items in order. */
  lemma {:induction false} TallyItemAt(results: seq<Result<ItemResult, PlanError>>, n: nat, k: nat)
    requires k < n <= |results| && TallyItems(results, n).Ok?
    ensures |TallyItems(results, n).value.items| == n && results[k].Ok?
    ensures TallyItems(results, n).value.items[k] == results[k].value.item
  {
    if n > 1 && k < n - 1 {
      TallyItemAt(results, n - 1, k);
    } else {
      TallyCount(results, n - 1);
    }
  }

  lemma {:induction false} TallyCount(results: seq<Result<ItemResult, PlanError>>, n: nat)
    requires n <= |results| && TallyItems(results, n).Ok?
    ensures |TallyItems(results, n).value.items| == n
  {
    if n > 0 {
      TallyCount(results, n - 1);
    }
  }

  /** The corrections agree with every item's steps. */
  ghost predicate ItemsAgree(entries: seq<Entry>, ids: seq<nat>, items: map<nat, Item>, corrections: seq<Correction>)
    requires forall id :: id in ids ==> id in items
  {
    forall k {:trigger ids[k]} :: 0 <= k < |ids| && Resolve(InputOf(entries, ids[k], items[ids[k]].layers)).Ok? ==>
      StepsAgree(corrections, ids[k], Resolve(InputOf(entries, ids[k], items[ids[k]].layers)).value.steps)
  }

  lemma {:induction false} ResultsAgain(
    entries: seq<Entry>, corrections: seq<Correction>, ids: seq<nat>, items: map<nat, Item>)
    requires SortedBy(entries, EntryTime()) && GoodLedgers(items) && (forall id :: id in ids ==> id in items)
    requires AllServed(corrections, ids, ResultsOf(entries, ids, items)) && ItemsAgree(entries, ids, items, corrections)
    ensures SameAgain(ResultsOf(entries, ids, items), ResultsOf(ReissueEntries(entries, corrections), ids, items))
  {
    var results := ResultsOf(entries, ids, items);
    forall k | 0 <= k < |ids| && results[k].Ok?
      ensures ItemResultOf(InputOf(ReissueEntries(entries, corrections), ids[k], items[ids[k]].layers), items[ids[k]])
           == Ok(Stable(results[k].value))
    {
      assert ids[k] in ids;
      InputAgainItem(entries, corrections, ids[k], items[ids[k]]);
    }
  }

  ghost predicate AllServed(corrections: seq<Correction>, ids: seq<nat>, results: seq<Result<ItemResult, PlanError>>)
    requires |ids| == |results|
  {
    forall k {:trigger results[k]} :: 0 <= k < |ids| ==> Serves(corrections, ids[k], PartOf(results[k]))
  }

  lemma {:induction false} TallyServes(ids: seq<nat>, results: seq<Result<ItemResult, PlanError>>)
    requires |ids| == |results| && Distinct(ids) && PartsByItem(Parts(results, |ids|), ids) &&
             TallyItems(results, |ids|).Ok?
    ensures AllServed(TallyItems(results, |ids|).value.corrections, ids, results)
  {
    var parts := Parts(results, |ids|);
    TallyParts(results, |ids|);
    forall k | 0 <= k < |ids|
      ensures Serves(Flatten(parts), ids[k], PartOf(results[k]))
    {
      assert parts[k] == PartOf(results[k]);
      forall x: nat {
        LookUp(parts, ids, k, x);
      }
    }
  }

  /** The tally of the reissued entries is the tally with its counts taken as they stand. */
  lemma {:induction false} TallyAgain(entries: seq<Entry>, items: map<nat, Item>, ids: seq<nat>, t: Tally)
    requires SortedBy(entries, EntryTime()) && GoodLedgers(items) && (forall id :: id in ids ==> id in items) &&
             Distinct(ids)
    requires TallyOf(entries, ids, items) == Ok(t) && ItemsAgree(entries, ids, items, t.corrections)
    ensures TallyOf(ReissueEntries(entries, t.corrections), ids, items) == Ok(StableTally(t))
  {
    var results := ResultsOf(entries, ids, items);
    PartsBelong(entries, ids, items);
    TallyServes(ids, results);
    ResultsAgain(entries, t.corrections, ids, items);
    TallyItemsAgain(results, ResultsOf(ReissueEntries(entries, t.corrections), ids, items), |ids|);
  }

  // ----- agreement read off the plan -----

  /** For one item: its preview agrees with the corrections exactly when its steps do. */
  lemma {:induction false} ItemAgreement(corrections: seq<Correction>, input: ItemInput, item: Item, r: Resolution)
    ensures (forall s :: s in ItemPlanOf(input, item, r).steps && s.isReconcile ==>
               Agrees(corrections, input.itemID, s.subID, s.correctedQty))
       <==> StepsAgree(corrections, input.itemID, r.steps)
  {
    forall s
      ensures s in ItemSteps(input.disposes, r) && s.isReconcile
         <==> exists k {:trigger r.steps[k]} :: 0 <= k < |r.steps| && CountStep()(r.steps[k]) == s
    {
      CountsOfItem(input.disposes, r, s);
    }
    forall k {:trigger r.steps[k]} | 0 <= k < |r.steps|
      ensures CountStep()(r.steps[k]) in ItemSteps(input.disposes, r)
    {
    }
  }

  // ----- the whole plan again -----

  lemma {:induction false} SameConsumed(recs: seq<Count>, again: seq<Count>, layers: seq<Layer>, n: nat)
    requires n <= |layers| && |again| == |recs| && (recs != [] ==> LastAt(again) == LastAt(recs))
    ensures ConsumedLayer(again, layers, n) == ConsumedLayer(recs, layers, n)
  {
    if n > 0 {
      SameConsumed(recs, again, layers, n - 1);
    }
  }

  lemma {:induction false} ReissuedDates(recs: seq<Count>, id: nat, corrections: seq<Correction>)
    ensures recs != [] ==> LastAt(ReissueCounts(recs, id, corrections)) == LastAt(recs)
    ensures SortedBy(recs, CountTime()) ==> SortedBy(ReissueCounts(recs, id, corrections), CountTime())
  {
    if recs != [] {
      ReissuedDates(recs[..|recs| - 1], id, corrections);
      assert ReissueCounts(recs, id, corrections)[..|recs| - 1] == ReissueCounts(recs[..|recs| - 1], id, corrections);
    }
  }

  lemma {:induction false} ItemConsumedAgain(
    entries: seq<Entry>, corrections: seq<Correction>, id: nat, layers: seq<Layer>)
    requires SortedBy(entries, EntryTime())
    ensures ItemConsumedError(id, StableSort(CountsOf(ReissueEntries(entries, corrections), id), CountTime()), layers)
         == ItemConsumedError(id, StableSort(CountsOf(entries, id), CountTime()), layers)
  {
    var counts := CountsOf(entries, id);
    CountsSorted(entries, id);
    InputAgain(entries, corrections, id, layers);
    ReissuedDates(counts, id, corrections);
    SameConsumed(counts, ReissueCounts(counts, id, corrections), layers, |layers|);
  }

  lemma {:induction false} ConsumedAgain(
    entries: seq<Entry>, corrections: seq<Correction>, ids: seq<nat>, items: map<nat, Item>)
    requires SortedBy(entries, EntryTime()) && (forall id :: id in ids ==> id in items)
    ensures ConsumedErrors(ReissueEntries(entries, corrections), ids, items) == ConsumedErrors(entries, ids, items)
  {
    forall k | 0 <= k < |ids|
      ensures ConsumedErrors(ReissueEntries(entries, corrections), ids, items)[k] ==
              ConsumedErrors(entries, ids, items)[k]
    {
      ItemConsumedAgain(entries, corrections, ids[k], items[ids[k]].layers);
    }
  }

  lemma {:induction false} ReissuedSubAt(subs: seq<Submission>, corrections: seq<Correction>, i: nat)
    requires i < |subs|
    ensures Reissue(subs, corrections)[i].id == subs[i].id &&
            Reissue(subs, corrections)[i].isReconcile == subs[i].isReconcile
  {
    if i < |subs| - 1 {
      ReissuedSubAt(subs[..|subs| - 1], corrections, i);
    }
  }

  /** With no corrections every reconcile is applied as it is, and the disposes fare as before. */
  lemma {:induction false} AppliedAgain(subs: seq<Submission>, subs': seq<Submission>, t: Tally, n: nat)
    requires n <= |subs| == |subs'| && AppliedAsIs(subs, t, n).Ok?
    requires forall i {:trigger subs'[i]} :: 0 <= i < |subs| ==>
             subs'[i].id == subs[i].id && subs'[i].isReconcile == subs[i].isReconcile
    ensures AppliedAsIs(subs', StableTally(t), n).Ok?
    ensures forall x :: x in AppliedAsIs(subs', StableTally(t), n).value <==>
              x in AppliedAsIs(subs, t, n).value || IsReconcileOf(subs[..n], x)
  {
    if n > 0 {
      AppliedAgain(subs, subs', t, n - 1);
      assert subs'[n - 1].id == subs[n - 1].id;
      assert subs[..n] == subs[..n - 1] + [subs[n - 1]];
      assert subs[..n][n - 1].isReconcile == subs[n - 1].isReconcile;
    }
  }

  /** The checks on the items come out the same. */
  lemma {:induction false} ChecksAgain(subs: seq<Submission>, corrections: seq<Correction>, items: map<nat, Item>)
    requires SortedBy(subs, SubTime())
    ensures var subs' := Reissue(subs, corrections);
            && Entries(subs') == ReissueEntries(Entries(subs), corrections)
            && ReconcileCount(subs') == ReconcileCount(subs) && ItemsOf(Entries(subs')) == ItemsOf(Entries(subs))
            && ((forall id :: id in ItemsOf(Entries(subs)) ==> id in items) ==>
                 ConsumedError(Entries(subs'), ItemsOf(Entries(subs)), items) ==
                   ConsumedError(Entries(subs), ItemsOf(Entries(subs)), items))
  {
    ReissuedSubs(subs, corrections);
    ReissuedItems(Entries(subs), corrections);
    EntriesSorted(subs);
    if forall id :: id in ItemsOf(Entries(subs)) ==> id in items {
      ConsumedAgain(Entries(subs), corrections, ItemsOf(Entries(subs)), items);
    }
  }

  /** Without corrections, finishing the reissued submissions succeeds again. */
  lemma {:induction false} FinishAgain(subs: seq<Submission>, corrections: seq<Correction>, t: Tally)
    requires Finish(subs, t).Ok?
    ensures PlanRepeated(subs, Finish(subs, t).value, Finish(Reissue(subs, corrections), StableTally(t)))
  {
    var subs' := Reissue(subs, corrections);
    forall i | 0 <= i < |subs|
      ensures subs'[i].id == subs[i].id && subs'[i].isReconcile == subs[i].isReconcile
    {
      ReissuedSubAt(subs, corrections, i);
    }
    AppliedAgain(subs, subs', t, |subs|);
    assert subs[..|subs|] == subs;
  }

  /** The steps that the resolver makes of item k. */
  ghost function StepsOfItem(entries: seq<Entry>, id: nat, item: Item): seq<Step>
    requires Resolve(InputOf(entries, id, item.layers)).Ok?
  {
    Resolve(InputOf(entries, id, item.layers)).value.steps
  }

  ghost predicate PreviewAgrees(p: ItemPlan, corrections: seq<Correction>) {
    forall s :: s in p.steps && s.isReconcile ==> Agrees(corrections, p.itemID, s.subID, s.correctedQty)
  }

  lemma {:induction false} AgreementAt(entries: seq<Entry>, ids: seq<nat>, items: map<nat, Item>, t: Tally, k: nat)
    requires (forall id :: id in ids ==> id in items) && TallyOf(entries, ids, items) == Ok(t) && k < |ids|
    ensures ids[k] in items && Resolve(InputOf(entries, ids[k], items[ids[k]].layers)).Ok?
    ensures |t.items| == |ids| && t.items[k].itemID == ids[k]
    ensures PreviewAgrees(t.items[k], t.corrections) <==>
            StepsAgree(t.corrections, ids[k], StepsOfItem(entries, ids[k], items[ids[k]]))
  {
    assert ids[k] in ids;
    TallyItemAt(ResultsOf(entries, ids, items), |ids|, k);
    var input := InputOf(entries, ids[k], items[ids[k]].layers);
    ItemAgreement(t.corrections, input, items[ids[k]], Resolve(input).value);
  }

  lemma {:induction false} AgreeByPreview(items: seq<ItemPlan>, corrections: seq<Correction>)
    ensures CorrectionsAgree(items, corrections) <==>
            forall k :: 0 <= k < |items| ==> PreviewAgrees(items[k], corrections)
  {
    if CorrectionsAgree(items, corrections) {
      forall k | 0 <= k < |items|
        ensures PreviewAgrees(items[k], corrections)
      {
        assert items[k] in items;
      }
    }
  }

  /** The preview's agreement, item by item. */
  lemma {:induction false} AgreementByItem(entries: seq<Entry>, ids: seq<nat>, items: map<nat, Item>, t: Tally)
    requires (forall id :: id in ids ==> id in items) && TallyOf(entries, ids, items) == Ok(t)
    ensures CorrectionsAgree(t.items, t.corrections) <==> ItemsAgree(entries, ids, items, t.corrections)
  {
    AgreeByPreview(t.items, t.corrections);
    TallyCount(ResultsOf(entries, ids, items), |ids|);
    forall k {:trigger ids[k]} | 0 <= k < |ids|
      ensures ids[k] in items && Resolve(InputOf(entries, ids[k], items[ids[k]].layers)).Ok?
      ensures PreviewAgrees(t.items[k], t.corrections) <==>
              StepsAgree(t.corrections, ids[k], StepsOfItem(entries, ids[k], items[ids[k]]))
    {
      AgreementAt(entries, ids, items, t, k);
    }
    if ItemsAgree(entries, ids, items, t.corrections) {
      forall k | 0 <= k < |t.items|
        ensures PreviewAgrees(t.items[k], t.corrections)
      {
        assert ids[k] in items;
      }
    }
  }

  /** When the corrections agree, planning again repeats the plan. */
  lemma {:induction false} AgreedRepeats(subs: seq<Submission>, items: map<nat, Item>, ids: seq<nat>, t: Tally)
    requires SortedBy(subs, SubTime()) && GoodLedgers(items) && ChecksPass(subs, items)
    requires (forall id :: id in ids ==> id in items) && ids == StableSort(ItemsOf(Entries(subs)), Identity())
    requires TallyOf(Entries(subs), ids, items) == Ok(t) && Finish(subs, t).Ok?
    requires ItemsAgree(Entries(subs), ids, items, t.corrections)
    ensures PlanRepeated(subs, Finish(subs, t).value, PlanOf(Reissue(subs, t.corrections), items))
  {
    EntriesSorted(subs);
    ItemsDistinct(Entries(subs));
    StableSortDistinct(ItemsOf(Entries(subs)), Identity());
    ChecksAgain(subs, t.corrections, items);
    TallyAgain(Entries(subs), items, ids, t);
    FinishAgain(subs, t.corrections, t);
    PlanFromTally(Reissue(subs, t.corrections), items, ids, StableTally(t));
  }

  // ----- the other direction -----

  /** An item whose second preview takes its counts as they stand had agreeing corrections. */
  lemma {:induction false} RepeatedItemAgreed(
    entries: seq<Entry>, corrections: seq<Correction>, id: nat, item: Item, first: ItemPlan, second: ItemPlan)
    requires SortedBy(entries, EntryTime())
    requires var input := InputOf(entries, id, item.layers);
             Resolve(input).Ok? && first == ItemPlanOf(input, item, Resolve(input).value)
    requires var input' := InputOf(ReissueEntries(entries, corrections), id, item.layers);
             Resolve(input').Ok? && second == ItemPlanOf(input', item, Resolve(input').value)
    requires second == WithoutCorrections()(first)
    ensures StepsAgree(corrections, id, Resolve(InputOf(entries, id, item.layers)).value.steps)
  {
    var input, input' := InputOf(entries, id, item.layers),
      InputOf(ReissueEntries(entries, corrections), id, item.layers);
    CountsSorted(entries, id);
    ReissuedDates(CountsOf(entries, id), id, corrections);
    InputAgain(entries, corrections, id, item.layers);
    StepsInTime(input);
    StepsInTime(input');
    CountsInOrder(input.disposes, Resolve(input).value, input.recs);
    CountsInOrder(input'.disposes, Resolve(input').value, input'.recs);
    FilterMapped(first.steps);
    OriginalIsCorrected(Resolve(input).value.steps, Resolve(input').value.steps);
    RepeatedMeansAgreed(input, corrections, Resolve(input).value.steps, Resolve(input').value.steps);
  }

  lemma {:induction false} StepsInTime(input: ItemInput)
    requires Resolve(input).Ok?
    ensures |Resolve(input).value.steps| == |input.recs|
    ensures forall k {:trigger Resolve(input).value.steps[k]} :: 0 <= k < |input.recs| ==>
              Resolve(input).value.steps[k].at == input.recs[k].at
  {
    StepsOfInput(input);
    forall k | 0 <= k < |input.recs|
      ensures Resolve(input).value.steps[k].at == input.recs[k].at
    {
      assert StepOf(Resolve(input).value.steps[k], input.recs[k], Corrections(Scope(input))[k]);
    }
  }

  lemma {:induction false} OriginalIsCorrected(steps: seq<Step>, again: seq<Step>)
    requires MapSeq(again, CountStep()) == MapSeq(MapSeq(steps, CountStep()), AsCounted())
    ensures |again| == |steps| &&
            forall k {:trigger again[k]} :: 0 <= k < |steps| ==> again[k].origQty == steps[k].newQty
  {
    forall k {:trigger again[k]} | 0 <= k < |again|
      ensures again[k].origQty == steps[k].newQty
    {
      assert MapSeq(again, CountStep())[k] == CountStep()(again[k]);
    }
  }

  lemma {:induction false} RepeatedAgreedAt(
    entries: seq<Entry>, ids: seq<nat>, items: map<nat, Item>, t: Tally, t': Tally, k: nat)
    requires SortedBy(entries, EntryTime()) && (forall id :: id in ids ==> id in items) && k < |ids|
    requires TallyOf(entries, ids, items) == Ok(t) &&
             TallyOf(ReissueEntries(entries, t.corrections), ids, items) == Ok(t')
    requires t'.items == MapSeq(t.items, WithoutCorrections())
    ensures ids[k] in items && Resolve(InputOf(entries, ids[k], items[ids[k]].layers)).Ok?
    ensures StepsAgree(t.corrections, ids[k], StepsOfItem(entries, ids[k], items[ids[k]]))
  {
    assert ids[k] in ids;
    TallyItemAt(ResultsOf(entries, ids, items), |ids|, k);
    TallyItemAt(ResultsOf(ReissueEntries(entries, t.corrections), ids, items), |ids|, k);
    RepeatedItemAgreed(entries, t.corrections, ids[k], items[ids[k]], t.items[k], t'.items[k]);
  }

  lemma {:induction false} AllAgreedAt(entries: seq<Entry>, ids: seq<nat>, items: map<nat, Item>, t: Tally, t': Tally)
    requires SortedBy(entries, EntryTime()) && (forall id :: id in ids ==> id in items)
    requires TallyOf(entries, ids, items) == Ok(t) &&
             TallyOf(ReissueEntries(entries, t.corrections), ids, items) == Ok(t')
    requires t'.items == MapSeq(t.items, WithoutCorrections())
    ensures ItemsAgree(entries, ids, items, t.corrections)
  {
    forall k {:trigger ids[k]} | 0 <= k < |ids|
      ensures ids[k] in items && Resolve(InputOf(entries, ids[k], items[ids[k]].layers)).Ok?
      ensures StepsAgree(t.corrections, ids[k], StepsOfItem(entries, ids[k], items[ids[k]]))
    {
      RepeatedAgreedAt(entries, ids, items, t, t', k);
    }
  }

  /** The tally behind a second plan. */
  lemma {:induction false} SecondTally(subs: seq<Submission>, corrections: seq<Correction>, items: map<nat, Item>)
    returns (t': Tally)
    requires PlanOf(Reissue(subs, corrections), items).Ok?
    ensures var ids := StableSort(ItemsOf(Entries(subs)), Identity());
            && (forall id :: id in ids ==> id in items)
            && TallyOf(ReissueEntries(Entries(subs), corrections), ids, items) == Ok(t')
    ensures t'.items == PlanOf(Reissue(subs, corrections), items).value.items
  {
    ReissuedSubs(subs, corrections);
    ReissuedItems(Entries(subs), corrections);
    var ids;
    ids, t' := PlanIsTally(Reissue(subs, corrections), items);
  }

  /** When planning again repeats the plan, its corrections agreed with every item. */
  lemma {:induction false} RepeatedAgreed(subs: seq<Submission>, items: map<nat, Item>, ids: seq<nat>, t: Tally)
    requires SortedBy(subs, SubTime()) && PlanOf(subs, items).Ok?
    requires (forall id :: id in ids ==> id in items) && ids == StableSort(ItemsOf(Entries(subs)), Identity())
    requires TallyOf(Entries(subs), ids, items) == Ok(t) && PlanOf(subs, items).value.items == t.items
    requires PlanRepeated(subs, PlanOf(subs, items).value, PlanOf(Reissue(subs, t.corrections), items))
    ensures ItemsAgree(Entries(subs), ids, items, t.corrections)
  {
    EntriesSorted(subs);
    var t' := SecondTally(subs, t.corrections, items);
    AllAgreedAt(Entries(subs), ids, items, t, t');
  }

  /**
   Idempotence of the whole plan, exactly: planning again from the corrected payloads repeats the plan
   if and only if none of its corrections differs from the quantity of a count it is written over.
   */
  lemma {:induction false} RepeatsExactlyWhen(subs: seq<Submission>, items: map<nat, Item>)
    requires SortedBy(subs, SubTime()) && GoodLedgers(items) && PlanOf(subs, items).Ok?
    ensures var plan := PlanOf(subs, items).value;
            PlanRepeated(subs, plan, PlanOf(Reissue(subs, plan.corrections), items)) <==>
              CorrectionsAgree(plan.items, plan.corrections)
  {
    var ids, t := PlanIsTally(subs, items);
    AgreementByItem(Entries(subs), ids, items, t);
    if ItemsAgree(Entries(subs), ids, items, t.corrections) {
      AgreedRepeats(subs, items, ids, t);
    }
    if PlanRepeated(subs, PlanOf(subs, items).value, PlanOf(Reissue(subs, t.corrections), items)) {
      RepeatedAgreed(subs, items, ids, t);
    }
  }

  /** Without duplicate lines every correction agrees, so planning again repeats the plan. */
  lemma {:induction false} PlanAgain(subs: seq<Submission>, items: map<nat, Item>)
    requires DistinctSubs(subs) && SortedBy(subs, SubTime()) && NoDuplicateLines(subs)
    requires GoodLedgers(items) && PlanOf(subs, items).Ok?
    ensures var plan := PlanOf(subs, items).value;
            CorrectionsAgree(plan.items, plan.corrections)
            && PlanRepeated(subs, plan, PlanOf(Reissue(subs, plan.corrections), items))
  {
    var ids, t := PlanIsTally(subs, items);
    EntriesAreGood(subs);
    ItemsDistinct(Entries(subs));
    StableSortDistinct(ItemsOf(Entries(subs)), Identity());
    AllAgree(Entries(subs), ids, items, t);
    AgreementByItem(Entries(subs), ids, items, t);
    RepeatsExactlyWhen(subs, items);
  }

  lemma {:induction false} AllAgree(entries: seq<Entry>, ids: seq<nat>, items: map<nat, Item>, t: Tally)
    requires GoodEntries(entries) && Distinct(ids) && (forall id :: id in ids ==> id in items)
    requires TallyOf(entries, ids, items) == Ok(t)
    ensures ItemsAgree(entries, ids, items, t.corrections)
  {
    var results := ResultsOf(entries, ids, items);
    PartsBelong(entries, ids, items);
    TallyServes(ids, results);
    forall k {:trigger ids[k]} | 0 <= k < |ids|
      ensures ids[k] in items && Resolve(InputOf(entries, ids[k], items[ids[k]].layers)).Ok?
      ensures StepsAgree(t.corrections, ids[k], StepsOfItem(entries, ids[k], items[ids[k]]))
    {
      assert ids[k] in ids;
      TallyItemAt(results, |ids|, k);
      OneSubAgrees(entries, ids[k], items[ids[k]], t.corrections);
    }
  }

  lemma {:induction false} OneSubAgrees(entries: seq<Entry>, id: nat, item: Item, corrections: seq<Correction>)
    requires GoodEntries(entries) && Resolve(InputOf(entries, id, item.layers)).Ok?
    requires Serves(corrections, id, PartOf(ItemResultOf(InputOf(entries, id, item.layers), item)))
    ensures StepsAgree(corrections, id, StepsOfItem(entries, id, item))
  {
    var input := InputOf(entries, id, item.layers);
    CountsSorted(entries, id);
    StableSortSorted(CountsOf(entries, id), CountTime());
    OneStepEach(input);
    AgreeByLastCorrected(corrections, id, input.recs, Resolve(input).value.steps);
  }

  lemma {:induction false} OneStepEach(input: ItemInput)
    requires Resolve(input).Ok? && OneSubEach(input.recs)
    ensures LastCorrectedAgrees(Resolve(input).value.steps)
  {
    var steps := Resolve(input).value.steps;
    StepsOfInput(input);
    forall k | 0 <= k < |steps|
      ensures steps[k].subID == input.recs[k].subID
    {
      assert StepOf(steps[k], input.recs[k], Corrections(Scope(input))[k]);
    }
    DistinctStepsAgree(steps);
  }

  lemma {:induction false} DistinctStepsAgree(steps: seq<Step>)
    requires forall a, b :: 0 <= a < b < |steps| ==> steps[a].subID != steps[b].subID
    ensures LastCorrectedAgrees(steps)
  {
    forall k {:trigger steps[k]} | 0 <= k < |steps| && LastCorrected(steps, steps[k].subID).Some?
      ensures LastCorrected(steps, steps[k].subID).value == steps[k].newQty
    {
      OneStepOfSub(steps, k);
    }
  }
}

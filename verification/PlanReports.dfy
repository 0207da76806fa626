/**
 What a plan reports (cmd/util/reconcile.go, computeResolution): its corrections, field by field, from the
 steps of its items, and the preview of every item.
 */
module PlanReports {
  import opened Basics
  import opened FifoLaws
  import opened Windows
  import opened Resolver
  import opened ResolverLaws
  import opened StepLaws
  import opened Plans
  import opened Submissions
  import opened Planner
  import opened PlannerLaws
  import opened PlannedItems
  import opened PlanRepeats
  import opened Settlement

  // ----- corrections -----

  /** The previous quantity recorded with the submission's first count of the item. */
  ghost predicate FirstRecorded(recs: seq<Count>, subID: nat, prev: real) {
    exists m {:trigger recs[m]} ::
      && 0 <= m < |recs| && recs[m].subID == subID && recs[m].prev == prev
      && forall j :: 0 <= j < m ==> recs[j].subID != subID
  }

  /** The correction says what the step says. */
  ghost predicate TellsOf(c: Correction, id: nat, recs: seq<Count>, t: Step) {
    && t.corrected && c.itemID == id && c.subID == t.subID && c.origQty == t.origQty && c.newQty == t.newQty
    && c.newPrev == t.prevQty && FirstRecorded(recs, t.subID, c.origPrev)
  }

  /** The indices are those of the corrected steps, in order. */
  ghost predicate CorrectedSteps(steps: seq<Step>, ks: seq<nat>) {
    && (forall a, b :: 0 <= a < b < |ks| ==> ks[a] < ks[b])
    && forall k: nat :: k in ks <==> k < |steps| && steps[k].corrected
  }

  /** The corrections tell of the corrected steps, one each, in order. */
  ghost predicate TellAll(corrections: seq<Correction>, id: nat, recs: seq<Count>, steps: seq<Step>, ks: seq<nat>) {
    && CorrectedSteps(steps, ks) && |corrections| == |ks|
    && forall n {:trigger ks[n]} {:trigger corrections[n]} :: 0 <= n < |ks| ==>
         ks[n] < |steps| && TellsOf(corrections[n], id, recs, steps[ks[n]])
  }

  /** Every step's submission counted the item. */
  ghost predicate AllCounted(recs: seq<Count>, steps: seq<Step>) {
    forall t :: t in steps ==> Counted(recs, t.subID)
  }

  ghost predicate Counted(recs: seq<Count>, subID: nat) {
    exists m :: 0 <= m < |recs| && recs[m].subID == subID
  }

  lemma {:induction false} FirstPrev(recs: seq<Count>, subID: nat)
    requires Counted(recs, subID)
    ensures FirstRecorded(recs, subID, PrevOf(recs, subID))
  {
    if recs[0].subID != subID {
      var m :| 0 <= m < |recs| && recs[m].subID == subID;
      assert recs[1..][m - 1].subID == subID;
      FirstPrev(recs[1..], subID);
      var j :| 0 <= j < |recs| - 1 && recs[1..][j].subID == subID && recs[1..][j].prev == PrevOf(recs, subID) &&
        forall i :: 0 <= i < j ==> recs[1..][i].subID != subID;
      forall i | 0 <= i < j + 1
        ensures recs[i].subID != subID
      {
        assert i > 0 ==> recs[1..][i - 1] == recs[i];
      }
      assert recs[j + 1].subID == subID;
    }
  }

  lemma {:induction false} OneMoreCorrected(steps: seq<Step>, ks: seq<nat>)
    requires steps != [] && CorrectedSteps(steps[..|steps| - 1], ks)
    ensures CorrectedSteps(steps, if steps[|steps| - 1].corrected then ks + [|steps| - 1] else ks)
  {
    var n := |steps| - 1;
    var all := if steps[n].corrected then ks + [n] else ks;
    forall k: nat
      ensures k in all <==> k < |steps| && steps[k].corrected
    {
      assert k in ks <==> k < n && steps[..n][k].corrected;
    }
    forall a, b | 0 <= a < b < |all|
      ensures all[a] < all[b]
    {
      if b == |ks| {
        assert ks[a] in ks;
      }
    }
  }

  lemma {:induction false} CorrectionsTell(id: nat, recs: seq<Count>, steps: seq<Step>) returns (ks: seq<nat>)
    requires AllCounted(recs, steps)
    ensures TellAll(CorrectionsOf(id, recs, steps), id, recs, steps, ks)
  {
    ks := [];
    if steps != [] {
      var n := |steps| - 1;
      assert steps == steps[..n] + [steps[n]];
      var front := CorrectionsTell(id, recs, steps[..n]);
      var told, t := CorrectionsOf(id, recs, steps[..n]), steps[n];
      OneMoreCorrected(steps, front);
      if t.corrected {
        var c := Correction(t.subID, id, t.origQty, t.newQty, PrevOf(recs, t.subID), t.prevQty);
        FirstPrev(recs, t.subID);
        OneMoreTold(told, c, id, recs, steps, front);
        ks := front + [n];
      } else {
        NoMoreTold(told, id, recs, steps, front);
        ks := front;
      }
    }
  }

  /** Correction n tells of the step that the index names. */
  lemma {:induction false} StillTold(
    corrections: seq<Correction>, id: nat, recs: seq<Count>, steps: seq<Step>, ks: seq<nat>, n: nat)
    requires steps != [] && TellAll(corrections, id, recs, steps[..|steps| - 1], ks) && n < |ks|
    ensures n < |corrections| && ks[n] < |steps| && TellsOf(corrections[n], id, recs, steps[ks[n]])
  {
    assert TellsOf(corrections[n], id, recs, steps[..|steps| - 1][ks[n]]);
  }

  lemma {:induction false} OneMoreTold(
    corrections: seq<Correction>, c: Correction, id: nat, recs: seq<Count>, steps: seq<Step>, ks: seq<nat>)
    requires steps != [] && TellAll(corrections, id, recs, steps[..|steps| - 1], ks)
    requires TellsOf(c, id, recs, steps[|steps| - 1]) && CorrectedSteps(steps, ks + [|steps| - 1])
    ensures TellAll(corrections + [c], id, recs, steps, ks + [|steps| - 1])
  {
    var all, told := ks + [|steps| - 1], corrections + [c];
    forall n {:trigger told[n]} {:trigger all[n]} | 0 <= n < |all|
      ensures all[n] < |steps| && TellsOf(told[n], id, recs, steps[all[n]])
    {
      if n < |ks| {
        StillTold(corrections, id, recs, steps, ks, n);
      }
    }
  }

  lemma {:induction false} NoMoreTold(
    corrections: seq<Correction>, id: nat, recs: seq<Count>, steps: seq<Step>, ks: seq<nat>)
    requires steps != [] && TellAll(corrections, id, recs, steps[..|steps| - 1], ks) && CorrectedSteps(steps, ks)
    ensures TellAll(corrections, id, recs, steps, ks)
  {
    forall n {:trigger corrections[n]} {:trigger ks[n]} | 0 <= n < |ks|
      ensures ks[n] < |steps| && TellsOf(corrections[n], id, recs, steps[ks[n]])
    {
      StillTold(corrections, id, recs, steps, ks, n);
    }
  }

  function OfItem(id: nat): Correction -> bool {
    (c: Correction) => c.itemID == id
  }

  ghost predicate OwnCorrections(results: seq<Result<ItemResult, PlanError>>, ids: seq<nat>)
    requires |ids| == |results|
  {
    forall k {:trigger results[k]} :: 0 <= k < |ids| && results[k].Ok? ==> OfOwner(results[k].value.corrections, ids[k])
  }

  lemma {:induction false} TallyStep(results: seq<Result<ItemResult, PlanError>>, n: nat)
    requires 0 < n <= |results| && TallyItems(results, n).Ok?
    ensures TallyItems(results, n - 1).Ok? && results[n - 1].Ok?
    ensures TallyItems(results, n).value.corrections
         == TallyItems(results, n - 1).value.corrections + results[n - 1].value.corrections
  {
  }

  ghost predicate OfOwner(corrections: seq<Correction>, owner: nat) {
    forall c :: c in corrections ==> c.itemID == owner
  }

  lemma {:induction false} TallyCorrections(
    results: seq<Result<ItemResult, PlanError>>, ids: seq<nat>, n: nat, k: nat)
    requires n <= |ids| == |results| && k < |ids| && Distinct(ids) && OwnCorrections(results, ids)
    requires TallyItems(results, n).Ok? && results[k].Ok?
    ensures Filter(TallyItems(results, n).value.corrections, OfItem(ids[k]))
         == if k < n then results[k].value.corrections else []
  {
    if n > 0 {
      TallyStep(results, n);
      TallyCorrections(results, ids, n - 1, k);
      FilterPart(TallyItems(results, n - 1).value.corrections, results[n - 1].value.corrections, ids[k], ids[n - 1]);
      DistinctIndex(ids, k, n - 1);
    }
  }

  lemma {:induction false} FilterPart(a: seq<Correction>, b: seq<Correction>, id: nat, owner: nat)
    requires OfOwner(b, owner)
    ensures Filter(a + b, OfItem(id)) == if id == owner then Filter(a, OfItem(id)) + b else Filter(a, OfItem(id))
  {
    FilterConcat(a, b, OfItem(id));
    if id == owner {
      FilterAll(b, OfItem(id));
    } else {
      FilterNone(b, OfItem(id));
    }
  }

  lemma {:induction false} ResultsOwnCorrections(subs: seq<Submission>, ids: seq<nat>, items: map<nat, Item>)
    requires forall id :: id in ids ==> id in items
    ensures OwnCorrections(ResultsOf(Entries(subs), ids, items), ids)
  {
    forall k | 0 <= k < |ids| && Resolve(InputFor(subs, items, ids[k])).Ok?
      ensures var input := InputFor(subs, items, ids[k]);
              forall c :: c in CorrectionsOf(ids[k], input.recs, Resolve(input).value.steps) ==> c.itemID == ids[k]
    {
      var input := InputFor(subs, items, ids[k]);
      forall c | c in CorrectionsOf(ids[k], input.recs, Resolve(input).value.steps)
        ensures c.itemID == ids[k]
      {
        CorrectionsAre(ids[k], input.recs, Resolve(input).value.steps, c);
      }
    }
  }

  lemma {:induction false} StepsAreOfCounts(input: ItemInput)
    requires WellFormed(input) && Resolve(input).Ok?
    ensures AllCounted(input.recs, Resolve(input).value.steps)
  {
    var steps := Resolve(input).value.steps;
    ResolvedSteps(input);
    forall t | t in steps
      ensures Counted(input.recs, t.subID)
    {
      var k :| 0 <= k < |steps| && steps[k] == t;
      StepsReportCounts(input, k);
      assert Reports(input, steps, k);
    }
  }

  /** The item's part of a plan. */
  lemma {:induction false} PlanPart(subs: seq<Submission>, items: map<nat, Item>, id: nat)
    returns (ids: seq<nat>, t: Tally, k: nat)
    requires PlanOf(subs, items).Ok? && Mentioned(subs, id)
    ensures (forall x :: x in ids ==> x in items) && Distinct(ids) && k < |ids| && ids[k] == id && id in items
    ensures TallyOf(Entries(subs), ids, items) == Ok(t) && Resolve(InputFor(subs, items, id)).Ok?
    ensures PlanOf(subs, items).value.corrections == t.corrections && PlanOf(subs, items).value.items == t.items
  {
    ids, t := PlanIsTally(subs, items);
    MentionedAre(subs, id);
    k :| 0 <= k < |ids| && ids[k] == id;
    TallyNeedsAll(ResultsOf(Entries(subs), ids, items), |ids|);
    ResultMakes(subs, ids, items, k);
    ItemsDistinct(Entries(subs));
    StableSortDistinct(ItemsOf(Entries(subs)), Identity());
  }

  /**
   A plan's corrections of an item tell of its corrected steps, one each and in order: the quantities before
   and after, the stock before the count as the new previous quantity, and the one that was recorded.
   */
  lemma {:induction false} PlanCorrectsSteps(subs: seq<Submission>, items: map<nat, Item>, id: nat)
    returns (ks: seq<nat>)
    requires GoodLedgers(items) && PlanOf(subs, items).Ok? && Mentioned(subs, id)
    ensures id in items && Resolve(InputFor(subs, items, id)).Ok?
    ensures var input := InputFor(subs, items, id);
            TellAll(Filter(PlanOf(subs, items).value.corrections, OfItem(id)), id, input.recs,
                    Resolve(input).value.steps, ks)
  {
    var ids, t, k := PlanPart(subs, items, id);
    var input := InputFor(subs, items, id);
    InputWellFormed(Entries(subs), id, items[id]);
    StepsAreOfCounts(input);
    ks := CorrectionsTell(id, input.recs, Resolve(input).value.steps);
    ResultsOwnCorrections(subs, ids, items);
    TallyHasCorrections(subs, ids, items, k);
  }

  lemma {:induction false} TallyHasCorrections(subs: seq<Submission>, ids: seq<nat>, items: map<nat, Item>, k: nat)
    requires (forall id :: id in ids ==> id in items) && Distinct(ids) && k < |ids|
    requires OwnCorrections(ResultsOf(Entries(subs), ids, items), ids)
    requires TallyOf(Entries(subs), ids, items).Ok? && Resolve(InputFor(subs, items, ids[k])).Ok?
    ensures var input := InputFor(subs, items, ids[k]);
            Filter(TallyOf(Entries(subs), ids, items).value.corrections, OfItem(ids[k]))
              == CorrectionsOf(ids[k], input.recs, Resolve(input).value.steps)
  {
    TallyCorrections(ResultsOf(Entries(subs), ids, items), ids, |ids|, k);
  }

  /** Every correction of a plan is of an item that a submission names. */
  lemma {:induction false} PlanCorrectsNamed(subs: seq<Submission>, items: map<nat, Item>, c: Correction)
    requires PlanOf(subs, items).Ok? && c in PlanOf(subs, items).value.corrections
    ensures Mentioned(subs, c.itemID)
  {
    var ids, t := PlanIsTally(subs, items);
    var results := ResultsOf(Entries(subs), ids, items);
    var k := CorrectionOrigin(results, |ids|, c);
    ResultsOwnCorrections(subs, ids, items);
    MentionedAre(subs, ids[k]);
  }

  // ----- the preview -----

  /** The preview's step of a count. */
  ghost predicate ShowsCount(s: ItemStep, t: Step) {
    && s.isReconcile && s.subID == t.subID && s.at == t.at && s.origQty == t.origQty && s.correctedQty == t.newQty
    && s.prevQty == t.prevQty && s.drop == t.drop && (s.corrected <==> t.corrected)
  }

  /** The preview's step of a request. */
  ghost predicate ShowsRequest(s: ItemStep, d: Dispose) {
    && !s.isReconcile && s.subID == d.subID && s.at == d.at && s.origQty == s.correctedQty == s.drop == d.qty
    && s.prevQty == 0.0 && !s.corrected
  }

  function IsRequest(): ItemStep -> bool {
    (s: ItemStep) => !s.isReconcile
  }

  function TookPartIn(ignored: seq<nat>): Dispose -> bool {
    (d: Dispose) => d.subID !in ignored
  }

  lemma {:induction false} RequestSteps(disposes: seq<Dispose>, ignored: seq<nat>)
    ensures var steps, taken := DisposeSteps(disposes, ignored), Filter(disposes, TookPartIn(ignored));
            |steps| == |taken| && forall k {:trigger steps[k]} :: 0 <= k < |steps| ==> ShowsRequest(steps[k], taken[k])
  {
    if disposes != [] {
      RequestSteps(disposes[..|disposes| - 1], ignored);
    }
  }

  lemma {:induction false} RequestStepsSorted(disposes: seq<Dispose>, ignored: seq<nat>)
    requires SortedBy(disposes, DisposeTime())
    ensures SortedBy(DisposeSteps(disposes, ignored), StepTime())
  {
    var steps, taken := DisposeSteps(disposes, ignored), Filter(disposes, TookPartIn(ignored));
    RequestSteps(disposes, ignored);
    FilterSorted(disposes, TookPartIn(ignored), DisposeTime());
    forall k {:trigger steps[k]} | 0 < k < |steps|
      ensures StepTime()(steps[k - 1]) <= StepTime()(steps[k])
    {
      InOrder(taken, DisposeTime(), k - 1, k);
      assert ShowsRequest(steps[k - 1], taken[k - 1]) && ShowsRequest(steps[k], taken[k]);
    }
    Adjacent(steps, StepTime());
  }

  lemma {:induction false} RequestsAmong(counts: seq<ItemStep>, others: seq<ItemStep>)
    requires SortedBy(others, StepTime())
    requires (forall s :: s in counts ==> s.isReconcile) && (forall s :: s in others ==> !s.isReconcile)
    ensures Filter(StableSort(counts + others, StepTime()), IsRequest()) == others
  {
    StableSortFilter(counts + others, StepTime(), IsRequest());
    FilterConcat(counts, others, IsRequest());
    FilterNone(counts, IsRequest());
    FilterAll(others, IsRequest());
    assert Filter(counts + others, IsRequest()) == others;
    StableSortSorted(others, StepTime());
  }

  ghost predicate ShowCounts(shown: seq<ItemStep>, steps: seq<Step>) {
    |shown| == |steps| && forall k {:trigger shown[k]} :: 0 <= k < |shown| ==> ShowsCount(shown[k], steps[k])
  }

  ghost predicate ShowRequests(shown: seq<ItemStep>, taken: seq<Dispose>) {
    |shown| == |taken| && forall k {:trigger shown[k]} :: 0 <= k < |shown| ==> ShowsRequest(shown[k], taken[k])
  }

  /** The steps of the preview: those of the counts and of the requests that take part, each kind in order. */
  ghost predicate ShowsSteps(steps: seq<ItemStep>, input: ItemInput, r: Resolution) {
    && ShowCounts(Filter(steps, IsCount()), r.steps)
    && ShowRequests(Filter(steps, IsRequest()), Filter(input.disposes, TookPartIn(r.ignored)))
    && SortedBy(steps, StepTime())
  }

  lemma {:induction false} CountsShow(steps: seq<Step>)
    ensures ShowCounts(MapSeq(steps, CountStep()), steps)
  {
    var shown := MapSeq(steps, CountStep());
    forall k {:trigger shown[k]} | 0 <= k < |shown|
      ensures ShowsCount(shown[k], steps[k])
    {
      assert shown[k] == CountStep()(steps[k]);
    }
  }

  lemma {:induction false} ItemStepsShow(input: ItemInput, r: Resolution)
    requires SortedBy(input.disposes, DisposeTime()) && SortedBy(input.recs, CountTime())
    requires |r.steps| == |input.recs|
    requires forall k {:trigger r.steps[k]} :: 0 <= k < |r.steps| ==> r.steps[k].at == input.recs[k].at
    ensures ShowsSteps(ItemSteps(input.disposes, r), input, r)
  {
    CountsInOrder(input.disposes, r, input.recs);
    CountsShow(r.steps);
    RequestsInOrder(input.disposes, r);
    StableSortSorts(MapSeq(r.steps, CountStep()) + DisposeSteps(input.disposes, r.ignored), StepTime());
  }

  lemma {:induction false} RequestsInOrder(disposes: seq<Dispose>, r: Resolution)
    requires SortedBy(disposes, DisposeTime())
    ensures ShowRequests(Filter(ItemSteps(disposes, r), IsRequest()), Filter(disposes, TookPartIn(r.ignored)))
  {
    var counts, requests := MapSeq(r.steps, CountStep()), DisposeSteps(disposes, r.ignored);
    RequestSteps(disposes, r.ignored);
    RequestStepsSorted(disposes, r.ignored);
    DisposeStepsAreNoCounts(disposes, r.ignored);
    forall s | s in counts
      ensures s.isReconcile
    {
      var k :| 0 <= k < |counts| && counts[k] == s;
      assert counts[k] == CountStep()(r.steps[k]);
    }
    RequestsAmong(counts, requests);
  }

  /** An item's preview, field by field. */
  ghost predicate ShowsItem(p: ItemPlan, input: ItemInput, item: Item, r: Resolution) {
    && p.itemID == input.itemID && p.currentQty == item.quantity
    && p.startStock == (if input.recs == [] then 0.0 else StockBy(input.layers, input.recs[0].at))
    && p.appliedQty == item.quantity - SumBy(r.sells, Quantity()) - SumBy(r.disposals, Quantity())
    && p.finalStock == (if input.recs == [] then p.appliedQty else input.recs[|input.recs| - 1].qty)
    && ShowsSteps(p.steps, input, r)
  }

  /** A counted item ends at its last count. */
  lemma {:induction false} EndsAtLast(input: ItemInput)
    requires WellFormed(input) && input.recs != [] && Resolve(input).Ok?
    ensures var steps, n := Resolve(input).value.steps, |input.recs| - 1;
            |steps| == n + 1 && steps[n].newQty == input.recs[n].qty
  {
    ResolvedIsInScope(input);
    ResolvedSteps(input);
    StepReports(Scope(input), |input.recs| - 1);
    LastCorrection(Scope(input));
  }

  lemma {:induction false} ItemPlanShows(input: ItemInput, item: Item, r: Resolution)
    requires SortedBy(input.disposes, DisposeTime()) && SortedBy(input.recs, CountTime())
    requires |r.steps| == |input.recs|
    requires forall k {:trigger r.steps[k]} :: 0 <= k < |r.steps| ==> r.steps[k].at == input.recs[k].at
    requires r.startStock == if input.recs == [] then 0.0 else StockBy(input.layers, input.recs[0].at)
    requires input.recs != [] ==> r.steps[|input.recs| - 1].newQty == input.recs[|input.recs| - 1].qty
    ensures ShowsItem(ItemPlanOf(input, item, r), input, item, r)
  {
    ItemStepsShow(input, r);
  }

  lemma {:induction false} ResolvedItemShows(input: ItemInput, item: Item)
    requires WellFormed(input) && SortedBy(input.disposes, DisposeTime()) && Resolve(input).Ok?
    ensures ShowsItem(ItemPlanOf(input, item, Resolve(input).value), input, item, Resolve(input).value)
  {
    StartStockIsReceived(input);
    StepsInTime(input);
    if input.recs != [] {
      EndsAtLast(input);
    }
    ItemPlanShows(input, item, Resolve(input).value);
  }

  /** The preview of a plan has an entry per item named, in ascending order, and each shows its item. */
  lemma {:induction false} PlanShowsItems(subs: seq<Submission>, items: map<nat, Item>, p: ItemPlan)
    requires GoodLedgers(items) && PlanOf(subs, items).Ok? && p in PlanOf(subs, items).value.items
    ensures Mentioned(subs, p.itemID) && p.itemID in items
    ensures var input := InputFor(subs, items, p.itemID);
            Resolve(input).Ok? && ShowsItem(p, input, items[p.itemID], Resolve(input).value)
  {
    ItemPlanIs(subs, items, p);
    InputWellFormed(Entries(subs), p.itemID, items[p.itemID]);
    StableSortSorts(DisposesOf(Entries(subs), p.itemID), DisposeTime());
    ResolvedItemShows(InputFor(subs, items, p.itemID), items[p.itemID]);
  }

  /** The previews are of the ids, in ascending order. */
  ghost predicate ListsInOrder(shown: seq<ItemPlan>, subs: seq<Submission>) {
    && (forall id :: Mentioned(subs, id) <==> exists k :: 0 <= k < |shown| && shown[k].itemID == id)
    && (forall k, l :: 0 <= k < l < |shown| ==> shown[k].itemID < shown[l].itemID)
  }

  lemma {:induction false} PlanListsItems(subs: seq<Submission>, items: map<nat, Item>)
    requires PlanOf(subs, items).Ok?
    ensures ListsInOrder(PlanOf(subs, items).value.items, subs)
  {
    var ids, t := PlanIsTally(subs, items);
    TallyNames(subs, ids, items);
    IdsInOrder(subs, ids);
    NamedInOrder(subs, ids, t.items);
  }

  lemma {:induction false} IdsInOrder(subs: seq<Submission>, ids: seq<nat>)
    requires ids == StableSort(ItemsOf(Entries(subs)), Identity())
    ensures forall id :: Mentioned(subs, id) <==> id in ids
    ensures forall k, l :: 0 <= k < l < |ids| ==> ids[k] < ids[l]
  {
    ItemsDistinct(Entries(subs));
    StableSortDistinct(ItemsOf(Entries(subs)), Identity());
    StableSortSorts(ItemsOf(Entries(subs)), Identity());
    SortedIsAscending(ids);
    StableSortHas(ItemsOf(Entries(subs)), Identity());
    forall id
      ensures Mentioned(subs, id) <==> id in ids
    {
      MentionedAre(subs, id);
    }
  }

  lemma {:induction false} NamedInOrder(subs: seq<Submission>, ids: seq<nat>, shown: seq<ItemPlan>)
    requires (forall id :: Mentioned(subs, id) <==> id in ids) && |shown| == |ids|
    requires forall k, l :: 0 <= k < l < |ids| ==> ids[k] < ids[l]
    requires forall k {:trigger shown[k]} :: 0 <= k < |ids| ==> shown[k].itemID == ids[k]
    ensures ListsInOrder(shown, subs)
  {
    forall id
      ensures Mentioned(subs, id) <==> exists k :: 0 <= k < |shown| && shown[k].itemID == id
    {
      if Mentioned(subs, id) {
        var k :| 0 <= k < |ids| && ids[k] == id;
        assert shown[k].itemID == id;
      }
    }
  }

  lemma {:induction false} TallyNames(subs: seq<Submission>, ids: seq<nat>, items: map<nat, Item>)
    requires (forall id :: id in ids ==> id in items) && TallyOf(Entries(subs), ids, items).Ok?
    ensures var shown := TallyOf(Entries(subs), ids, items).value.items;
            |shown| == |ids| && forall k {:trigger shown[k]} :: 0 <= k < |ids| ==> shown[k].itemID == ids[k]
  {
    var results := ResultsOf(Entries(subs), ids, items);
    TallyCount(results, |ids|);
    forall k | 0 <= k < |ids|
      ensures TallyItems(results, |ids|).value.items[k].itemID == ids[k]
    {
      TallyItemAt(results, |ids|, k);
    }
  }

  // ----- the submissions applied as they are -----

  /** The list names submissions in their order, each at most once. */
  ghost predicate ListsSubs(subs: seq<Submission>, list: seq<nat>, places: seq<nat>) {
    && |list| == |places| && (forall k, l :: 0 <= k < l < |places| ==> places[k] < places[l])
    && forall k {:trigger list[k]} {:trigger places[k]} :: 0 <= k < |list| ==>
         places[k] < |subs| && list[k] == subs[places[k]].id
  }

  lemma {:induction false} OneMoreListed(subs: seq<Submission>, list: seq<nat>, places: seq<nat>, n: nat)
    requires ListsSubs(subs, list, places) && n < |subs| && forall k :: 0 <= k < |places| ==> places[k] < n
    ensures ListsSubs(subs, list + [subs[n].id], places + [n])
  {
  }

  lemma {:induction false} AsIsListed(subs: seq<Submission>, t: Tally, n: nat) returns (places: seq<nat>)
    requires n <= |subs| && AppliedAsIs(subs, t, n).Ok?
    ensures ListsSubs(subs, AppliedAsIs(subs, t, n).value, places) && forall k :: 0 <= k < |places| ==> places[k] < n
  {
    places := [];
    if n > 0 {
      var before := AsIsListed(subs, t, n - 1);
      OneMoreListed(subs, AppliedAsIs(subs, t, n - 1).value, before, n - 1);
      places := if AppliedAsIs(subs, t, n).value == AppliedAsIs(subs, t, n - 1).value then before else before + [n - 1];
    }
  }

  /** What a plan applies as it is stands in the order of the submissions. */
  lemma {:induction false} PlanAppliesInOrder(subs: seq<Submission>, items: map<nat, Item>) returns (places: seq<nat>)
    requires PlanOf(subs, items).Ok?
    ensures ListsSubs(subs, PlanOf(subs, items).value.appliedAsIs, places)
  {
    var ids, t := PlanIsTally(subs, items);
    places := AsIsListed(subs, t, |subs|);
  }
}

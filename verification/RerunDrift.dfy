/**
 Why planning again needs corrections that agree (cmd/util/reconcile.go, resolveItem and
 correctedPayload): two reconciles, the second of which lists the item three times. Its one correction is
 written over the other two lines as well, and the second plan leaves another final stock.
 */
module RerunDrift {
  import opened Basics
  import opened Fifo
  import opened Windows
  import opened Propagation
  import opened Resolver
  import opened ResolverLaws
  import opened Rerun
  import opened Causality
  import opened Plans
  import opened Submissions
  import opened Planner
  import opened PlannerLaws
  import opened PlannerRerun
  import opened PlanRepeats

  // ----- an item that all lines name -----

  /** Reconciles whose lines all name item 1. */
  ghost predicate OnlyItemOne(subs: seq<Submission>) {
    forall i {:trigger subs[i]} :: 0 <= i < |subs| ==> subs[i].isReconcile && LinesOfOne(subs[i])
  }

  ghost predicate LinesOfOne(sub: Submission) {
    forall j {:trigger sub.lines[j]} :: 0 <= j < |sub.lines| ==> sub.lines[j].itemID == 1
  }

  /** The counts of the first n lines. */
  ghost function LineCounts(sub: Submission, n: nat): (r: seq<Count>)
    requires n <= |sub.lines|
    ensures |r| == n
  {
    seq(n, j requires 0 <= j < n => Count(sub.id, sub.at, sub.lines[j].prev, sub.lines[j].qty))
  }

  lemma {:induction false} SubOfOne(sub: Submission, n: nat)
    requires sub.isReconcile && LinesOfOne(sub) && n <= |sub.lines|
    ensures CountsOf(SubEntries(sub, n), 1) == LineCounts(sub, n) && DisposesOf(SubEntries(sub, n), 1) == []
    ensures forall e :: e in SubEntries(sub, n) ==> e.itemID == 1 && e.isReconcile
  {
    if n > 0 {
      SubOfOne(sub, n - 1);
      assert sub.lines[n - 1].itemID == 1;
      assert SubEntries(sub, n)[..n - 1] == SubEntries(sub, n - 1);
    }
  }

  lemma {:induction false} EntriesOfOne(entries: seq<Entry>)
    requires entries != [] && forall e :: e in entries ==> e.itemID == 1 && e.isReconcile
    ensures ItemsOf(entries) == [1] && DisposesOf(entries, 1) == []
  {
    var front := entries[..|entries| - 1];
    assert entries == front + [entries[|entries| - 1]];
    if front != [] {
      EntriesOfOne(front);
    } else {
      assert ItemsOf(front) == [];
    }
  }

  lemma {:induction false} ReconcilesAreNeverRefused(subs: seq<Submission>, t: Tally, n: nat)
    requires n <= |subs| && forall i {:trigger subs[i]} :: 0 <= i < |subs| ==> subs[i].isReconcile
    ensures AppliedAsIs(subs, t, n).Ok?
  {
    if n > 0 {
      ReconcilesAreNeverRefused(subs, t, n - 1);
    }
  }

  lemma {:induction false} OneItemChecks(subs: seq<Submission>, items: map<nat, Item>)
    requires ReconcileCount(subs) >= 2 && ItemsOf(Entries(subs)) == [1] && 1 in items
    requires ConsumedLayer(StableSort(CountsOf(Entries(subs), 1), CountTime()), items[1].layers, |items[1].layers|)
          == None
    ensures ChecksPass(subs, items)
  {
    var errors := ConsumedErrors(Entries(subs), [1], items);
    assert errors[0] == None;
    assert FirstError(errors, 0) == None;
  }

  lemma {:induction false} OneItemTallied(entries: seq<Entry>, items: map<nat, Item>, input: ItemInput, r: Resolution)
    requires 1 in items && input == InputOf(entries, 1, items[1].layers) && Resolve(input) == Ok(r)
    ensures TallyOf(entries, [1], items).Ok?
    ensures var t := TallyOf(entries, [1], items).value;
            t.items == [ItemPlanOf(input, items[1], r)] && t.corrections == CorrectionsOf(1, input.recs, r.steps)
  {
    var results := ResultsOf(entries, [1], items);
    assert results == [Ok(ResultOf(input, items[1], r))];
    OneItemTally(results, results[0]);
  }

  /** The plan of reconciles that name one item. */
  lemma {:induction false} OneItemPlan(subs: seq<Submission>, items: map<nat, Item>, input: ItemInput, r: Resolution)
    requires OnlyItemOne(subs) && ReconcileCount(subs) >= 2 && ItemsOf(Entries(subs)) == [1] && 1 in items
    requires ConsumedLayer(StableSort(CountsOf(Entries(subs), 1), CountTime()), items[1].layers, |items[1].layers|)
          == None
    requires input == InputOf(Entries(subs), 1, items[1].layers) && Resolve(input) == Ok(r)
    ensures PlanOf(subs, items).Ok?
    ensures var plan := PlanOf(subs, items).value;
            && |plan.items| == 1 && plan.items[0].appliedQty == items[1].quantity - Outbound(r)
            && plan.corrections == CorrectionsOf(1, input.recs, r.steps)
  {
    OneItemChecks(subs, items);
    OneItemTallied(Entries(subs), items, input, r);
    PlanOfReconciles(subs, items, TallyOf(Entries(subs), [1], items).value);
  }

  lemma {:induction false} PlanOfReconciles(subs: seq<Submission>, items: map<nat, Item>, t: Tally)
    requires OnlyItemOne(subs) && ChecksPass(subs, items) && ItemsOf(Entries(subs)) == [1] && 1 in items
    requires TallyOf(Entries(subs), [1], items) == Ok(t)
    ensures PlanOf(subs, items).Ok?
    ensures PlanOf(subs, items).value.items == t.items && PlanOf(subs, items).value.corrections == t.corrections
  {
    var ids: seq<nat> := [1];
    assert ids[..0] == [];
    StableSortSorted(ids, Identity());
    ReconcilesAreNeverRefused(subs, t, |subs|);
    PlanFromTally(subs, items, ids, t);
  }

  lemma {:induction false} OneItemTally(results: seq<Result<ItemResult, PlanError>>, r: Result<ItemResult, PlanError>)
    requires results == [r] && r.Ok?
    ensures TallyItems(results, 1).Ok? && TallyItems(results, 1).value.items == [r.value.item]
    ensures TallyItems(results, 1).value.corrections == r.value.corrections
  {
    assert TallyItems(results, 0) == Ok(START);
  }

  // ----- the example -----

  /** Ten in stock, counted as 10 by submission 1; submission 2 lists it three times, as 5, 10 and 4. */
  ghost predicate DriftExample(subs: seq<Submission>, item: Item) {
    && |subs| == 2 && OnlyItemOne(subs)
    && subs[0].id == 1 && subs[0].at == 1 && |subs[0].lines| == 1 && subs[0].lines[0].qty == 10.0
    && subs[1].id == 2 && subs[1].at == 2 && |subs[1].lines| == 3
    && subs[1].lines[0].qty == 5.0 && subs[1].lines[1].qty == 10.0 && subs[1].lines[2].qty == 4.0
    && item.quantity == 10.0 && |item.layers| == 1 && item.layers[0] == Layer(100, 0, 10.0, 0.0, 1.0)
  }

  /** Four counts of one item, at 1, 2, 2 and 2, of at most the 10 received before. */
  ghost predicate FourCounts(s: ItemInput) {
    && s.itemID == 1 && |s.recs| == 4 && s.disposes == []
    && |s.layers| == 1 && s.layers[0] == Layer(100, 0, 10.0, 0.0, 1.0)
    && s.recs[0].at == 1 && s.recs[1].at == s.recs[2].at == s.recs[3].at == 2
    && forall k {:trigger s.recs[k]} :: 0 <= k < 4 ==> 0.0 <= s.recs[k].qty <= 10.0
  }

  lemma {:induction false} SortedFour(recs: seq<Count>)
    requires |recs| == 4 && recs[0].at == 1 && recs[1].at == recs[2].at == recs[3].at == 2
    ensures SortedBy(recs, CountTime())
  {
    assert SortedBy(recs[..1], CountTime());
    assert recs[..2][..1] == recs[..1] && SortedBy(recs[..2], CountTime());
    assert recs[..3][..2] == recs[..2] && SortedBy(recs[..3], CountTime());
  }

  lemma {:induction false} FourResolve(s: ItemInput)
    requires FourCounts(s)
    ensures WellFormed(s) && Scope(s) == s && StockBy(s.layers, 1) == StockBy(s.layers, 2) == 10.0
    ensures Resolve(s).Ok? && Outbound(Resolve(s).value) == 10.0 - s.recs[3].qty
  {
    SortedFour(s.recs);
    FilterAll(s.layers, CreatedBy(2));
    assert s.layers == [s.layers[0]];
    SumOne(s.layers[0], ReceivedBy(1));
    SumOne(s.layers[0], ReceivedBy(2));
    assert CountsAttainable(s);
    ResolvesExactlyWhen(s);
    OutboundTelescopes(s);
  }

  /** The propagation raises the line of 5 to 10 and leaves the others. */
  lemma {:induction false} DriftSteps(s: ItemInput, steps: seq<Step>)
    requires FourCounts(s) && s.recs[0].subID == 1 && s.recs[1].subID == s.recs[2].subID == s.recs[3].subID == 2
    requires s.recs[0].qty == 10.0 && s.recs[1].qty == 5.0 && s.recs[2].qty == 10.0 && s.recs[3].qty == 4.0
    requires Scope(s) == s && StockBy(s.layers, 1) == StockBy(s.layers, 2) == 10.0
    requires Resolve(s).Ok? && steps == Resolve(s).value.steps
    ensures |steps| == 4 && LastCorrected(steps, 1) == None && LastCorrected(steps, 2) == Some(10.0)
  {
    CountedResolution(s);
    DriftCorrections(s);
    StepsOfInput(s);
    assert StepOf(steps[0], s.recs[0], 10.0) && StepOf(steps[1], s.recs[1], 10.0);
    assert StepOf(steps[2], s.recs[2], 10.0) && StepOf(steps[3], s.recs[3], 4.0);
    assert steps[..3][..2] == steps[..2] && steps[..2][..1] == steps[..1] && steps[..1][..0] == [];
    assert LastCorrected([], 1) == None && LastCorrected(steps[..1], 1) == None;
    assert LastCorrected(steps[..2], 1) == None && LastCorrected(steps[..2], 2) == Some(10.0);
    assert LastCorrected(steps[..3], 1) == None && LastCorrected(steps[..3], 2) == Some(10.0);
  }

  lemma {:induction false} DriftCorrections(s: ItemInput)
    requires FourCounts(s) && StockBy(s.layers, 1) == StockBy(s.layers, 2) == 10.0 && Corrections(s)[0] <= StartStock(s)
    requires s.recs[0].qty == 10.0 && s.recs[1].qty == 5.0 && s.recs[2].qty == 10.0 && s.recs[3].qty == 4.0
    ensures Corrections(s) == [10.0, 10.0, 10.0, 4.0]
  {
    var c, r, d := Corrections(s), Received(s.recs, s.layers), Disposed(s.recs, s.disposes);
    TiedCountsFall(s);
    LastCorrection(s);
    CorrectedIsLeast(Quantities(s.recs), r, d);
    assert c[2] >= Quantities(s.recs)[2];
    assert c[1] <= c[0] + r[1] - d[1] && r[1] == 0.0 && d[1] == 0.0;
    assert c[2] <= c[1];
  }

  /** The counts that the example's submissions hold. */
  lemma {:induction false} ExampleCounts(subs: seq<Submission>)
    requires |subs| == 2 && OnlyItemOne(subs) && |subs[0].lines| == 1 && |subs[1].lines| == 3
    ensures CountsOf(Entries(subs), 1) == LineCounts(subs[0], 1) + LineCounts(subs[1], 3)
    ensures ItemsOf(Entries(subs)) == [1] && DisposesOf(Entries(subs), 1) == [] && ReconcileCount(subs) == 2
  {
    var first := subs[..1];
    assert first[..0] == [] && first[0] == subs[0];
    assert Entries(first) == Entries(first[..0]) + SubEntries(subs[0], 1);
    assert Entries([]) == [] && ReconcileCount([]) == 0;
    SubOfOne(subs[0], 1);
    SubOfOne(subs[1], 3);
    CountsConcat(SubEntries(subs[0], 1), SubEntries(subs[1], 3), 1);
    assert Entries(subs) == SubEntries(subs[0], 1) + SubEntries(subs[1], 3);
    EntriesOfOne(Entries(subs));
  }

  lemma {:induction false} ExampleInput(subs: seq<Submission>, layers: seq<Layer>)
    requires |subs| == 2 && OnlyItemOne(subs) && |subs[0].lines| == 1 && |subs[1].lines| == 3
    requires subs[0].at == 1 && subs[1].at == 2
    ensures InputOf(Entries(subs), 1, layers) ==
            ItemInput(1, LineCounts(subs[0], 1) + LineCounts(subs[1], 3), [], layers)
  {
    var counts := LineCounts(subs[0], 1) + LineCounts(subs[1], 3);
    ExampleCounts(subs);
    SortedFour(counts);
    StableSortSorted(counts, CountTime());
  }

  lemma {:induction false} ReissuedSubOfOne(subs: seq<Submission>, corrections: seq<Correction>, i: nat)
    requires OnlyItemOne(subs) && i < |subs|
    ensures var sub := Reissue(subs, corrections)[i];
            && sub == ReissueSub(subs[i], corrections) && sub.isReconcile && LinesOfOne(sub) &&
               |sub.lines| == |subs[i].lines|
  {
    if i < |subs| - 1 {
      ReissuedSubOfOne(subs[..|subs| - 1], corrections, i);
    } else {
      var sub := ReissueSub(subs[i], corrections);
      forall j {:trigger sub.lines[j]} | 0 <= j < |sub.lines|
        ensures sub.lines[j].itemID == 1
      {
        ReissuedLineAt(subs[i].lines, Filter(corrections, OfSub(subs[i].id)), j);
      }
    }
  }

  /** The quantity that line j of a submission is reissued with. */
  lemma {:induction false} ReissuedQty(sub: Submission, corrections: seq<Correction>, j: nat)
    requires sub.isReconcile && LinesOfOne(sub) && j < |sub.lines|
    ensures var found := LastFor(Filter(corrections, OfSub(sub.id)), 1);
            ReissueSub(sub, corrections).lines[j].qty == if found.Some? then found.value.newQty else sub.lines[j].qty
  {
    assert sub.lines[j].itemID == 1;
    ReissuedLineAt(sub.lines, Filter(corrections, OfSub(sub.id)), j);
  }

  /** The counts of the example's submissions as reissued: 10, and three times 10. */
  lemma {:induction false} ExampleReissued(subs: seq<Submission>, item: Item, corrections: seq<Correction>)
    requires DriftExample(subs, item)
    requires QtyOf(LastFor(Filter(corrections, OfSub(1)), 1)) == None
    requires QtyOf(LastFor(Filter(corrections, OfSub(2)), 1)) == Some(10.0)
    ensures var again := Reissue(subs, corrections);
            && OnlyItemOne(again) && |again[0].lines| == 1 && |again[1].lines| == 3
            && again[0].at == 1 && again[1].at == 2 && again[0].lines[0].qty == 10.0
            && forall j {:trigger again[1].lines[j]} :: 0 <= j < 3 ==> again[1].lines[j].qty == 10.0
  {
    var again := Reissue(subs, corrections);
    forall i {:trigger again[i]} | 0 <= i < 2
      ensures again[i].isReconcile && LinesOfOne(again[i])
    {
      ReissuedSubOfOne(subs, corrections, i);
    }
    ReissuedSubOfOne(subs, corrections, 0);
    ReissuedSubOfOne(subs, corrections, 1);
    ReissuedQty(subs[0], corrections, 0);
    forall j {:trigger again[1].lines[j]} | 0 <= j < 3
      ensures again[1].lines[j].qty == 10.0
    {
      ReissuedQty(subs[1], corrections, j);
    }
  }

  /** A plan of two submissions with one and three counts of item 1, of 10 in stock. */
  lemma {:induction false} ExamplePlan(subs: seq<Submission>, item: Item, input: ItemInput)
    requires |subs| == 2 && OnlyItemOne(subs) && |subs[0].lines| == 1 && |subs[1].lines| == 3
    requires subs[0].at == 1 && subs[1].at == 2
    requires item.quantity == 10.0 && |item.layers| == 1 && item.layers[0] == Layer(100, 0, 10.0, 0.0, 1.0)
    requires input == ItemInput(1, LineCounts(subs[0], 1) + LineCounts(subs[1], 3), [], item.layers) &&
             FourCounts(input)
    ensures input == InputOf(Entries(subs), 1, item.layers) && Resolve(input).Ok?
    ensures PlanOf(subs, map[1 := item]).Ok?
    ensures var plan := PlanOf(subs, map[1 := item]).value;
            && |plan.items| == 1 && plan.items[0].appliedQty == subs[1].lines[2].qty
            && plan.corrections == CorrectionsOf(1, input.recs, Resolve(input).value.steps)
  {
    ExampleCounts(subs);
    ExampleInput(subs, item.layers);
    FourResolve(input);
    assert ConsumedLayer(input.recs, item.layers, 0) == None;
    OneItemPlan(subs, map[1 := item], input, Resolve(input).value);
  }

  /** The first plan of the example: 6 are sold and 4 left, and the corrections name submission 2 with 10. */
  lemma {:induction false} ExampleFirst(subs: seq<Submission>, item: Item)
    requires DriftExample(subs, item)
    ensures PlanOf(subs, map[1 := item]).Ok?
    ensures var plan := PlanOf(subs, map[1 := item]).value;
            && |plan.items| == 1 && plan.items[0].appliedQty == 4.0
            && QtyOf(LastFor(Filter(plan.corrections, OfSub(1)), 1)) == None
            && QtyOf(LastFor(Filter(plan.corrections, OfSub(2)), 1)) == Some(10.0)
  {
    var input := ItemInput(1, LineCounts(subs[0], 1) + LineCounts(subs[1], 3), [], item.layers);
    ExamplePlan(subs, item, input);
    FourResolve(input);
    DriftSteps(input, Resolve(input).value.steps);
    LookUpOwn(1, input.recs, Resolve(input).value.steps, 1);
    LookUpOwn(1, input.recs, Resolve(input).value.steps, 2);
  }

  /** The plan of the reissued example: nothing is sold and 10 are left. */
  lemma {:induction false} ExampleSecond(subs: seq<Submission>, item: Item, corrections: seq<Correction>)
    requires DriftExample(subs, item)
    requires QtyOf(LastFor(Filter(corrections, OfSub(1)), 1)) == None
    requires QtyOf(LastFor(Filter(corrections, OfSub(2)), 1)) == Some(10.0)
    ensures PlanOf(Reissue(subs, corrections), map[1 := item]).Ok?
    ensures var again := PlanOf(Reissue(subs, corrections), map[1 := item]).value;
            |again.items| == 1 && again.items[0].appliedQty == 10.0
  {
    var again := Reissue(subs, corrections);
    ExampleReissued(subs, item, corrections);
    var input := ItemInput(1, LineCounts(again[0], 1) + LineCounts(again[1], 3), [], item.layers);
    ExamplePlan(again, item, input);
  }

  /** What becomes of the example: the corrections disagree, and the second plan leaves 10 instead of 4. */
  ghost predicate Drifts(subs: seq<Submission>, items: map<nat, Item>) {
    && PlanOf(subs, items).Ok?
    && var plan := PlanOf(subs, items).value; var again := PlanOf(Reissue(subs, plan.corrections), items);
    && !CorrectionsAgree(plan.items, plan.corrections) && !PlanRepeated(subs, plan, again)
    && again.Ok? && |plan.items| == |again.value.items| == 1
    && plan.items[0].appliedQty == 4.0 && again.value.items[0].appliedQty == 10.0
  }

  lemma {:induction false} ExampleIsGood(subs: seq<Submission>, item: Item)
    requires DriftExample(subs, item)
    ensures SortedBy(subs, SubTime()) && DistinctSubs(subs) && GoodLedgers(map[1 := item])
  {
    assert SortedBy(subs[..1], SubTime());
  }

  /** Plans that leave different quantities are no repetition of each other. */
  lemma {:induction false} DifferentQuantity(subs: seq<Submission>, plan: Plan, again: Result<Plan, PlanError>)
    requires again.Ok? && |plan.items| == |again.value.items| == 1
    requires plan.items[0].appliedQty != again.value.items[0].appliedQty
    ensures !PlanRepeated(subs, plan, again)
  {
    assert MapSeq(plan.items, WithoutCorrections())[0].appliedQty == plan.items[0].appliedQty;
  }

  lemma {:induction false} ExampleDrifts(subs: seq<Submission>, items: map<nat, Item>)
    requires 1 in items && items == map[1 := items[1]] && DriftExample(subs, items[1])
    ensures Drifts(subs, items)
  {
    ExampleIsGood(subs, items[1]);
    ExampleFirst(subs, items[1]);
    var plan := PlanOf(subs, items).value;
    ExampleSecond(subs, items[1], plan.corrections);
    DifferentQuantity(subs, plan, PlanOf(Reissue(subs, plan.corrections), items));
    RepeatsExactlyWhen(subs, items);
  }

  /**
   With duplicate lines the rewrite need not be stable: the one correction, from 5 to 10, also replaces
   the 4 counted last. Planned again, the item keeps 10 instead of 4: nothing is sold where 6 were.
   */
  lemma {:induction false} DuplicateLinesDrift() returns (subs: seq<Submission>, items: map<nat, Item>)
    ensures SortedBy(subs, SubTime()) && DistinctSubs(subs) && ReconcileCount(subs) == 2 && GoodLedgers(items)
    ensures Drifts(subs, items)
  {
    subs := [Submission(1, 1, true, [Line(1, 0.0, 10.0)]),
             Submission(2, 2, true, [Line(1, 0.0, 5.0), Line(1, 0.0, 10.0), Line(1, 0.0, 4.0)])];
    var item := Item(10.0, [Layer(100, 0, 10.0, 0.0, 1.0)]);
    items := map[1 := item];
    ExampleCounts(subs);
    ExampleIsGood(subs, item);
    ExampleDrifts(subs, items);
  }
}

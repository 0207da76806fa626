/**
 Exactly when there is a resolution plan (cmd/util/reconcile.go, computeResolution), over the
 submissions and the ledgers that go in.
 */
module PlanSuccess {
  import opened Basics
  import opened Fifo
  import opened Resolver
  import opened ResolverLaws
  import opened Plans
  import opened Submissions
  import opened Planner
  import opened PlannerLaws
  import opened PlannedItems

  /**
   The item can be resolved. With counts: its disposes come after the first count, every count is
   attainable and the last one not negative. Without counts: its ledger covers its disposes.
   */
  ghost predicate Resolvable(input: ItemInput) {
    && (forall d :: d in input.disposes ==> d.qty >= 0.0)
    && if input.recs == [] then
         SumBy(input.disposes, RequestedQty()) <= Capacity(input.layers)
       else
         && (forall d :: d in input.disposes ==> d.at > input.recs[0].at)
         && CountsAttainable(input) && input.recs[|input.recs| - 1].qty >= 0.0
  }

  /** The item is active, none of its stock that takes part is consumed, and it can be resolved. */
  ghost predicate ItemReady(subs: seq<Submission>, items: map<nat, Item>, id: nat) {
    id in items && NotConsumed(subs, items, id) && Resolvable(InputFor(subs, items, id))
  }

  /** The submission comes after the last count of one of its items. */
  ghost predicate TrailsSomewhere(subs: seq<Submission>, sub: Submission) {
    exists j :: 0 <= j < |sub.lines| && TrailsFor(subs, sub, sub.lines[j].itemID)
  }

  /** No dispose is in scope for one of its items and trailing for another. */
  ghost predicate NoConflicts(subs: seq<Submission>) {
    forall i {:trigger subs[i]} :: 0 <= i < |subs| && !subs[i].isReconcile ==>
      !(InScopeSomewhere(subs, subs[i]) && TrailsSomewhere(subs, subs[i]))
  }

  /** Two of the submissions are reconciles. */
  ghost predicate TwoReconciles(subs: seq<Submission>) {
    exists i, j {:trigger subs[i], subs[j]} :: 0 <= i < j < |subs| && subs[i].isReconcile && subs[j].isReconcile
  }

  /** What a caller can check before asking for a plan. */
  ghost predicate Plannable(subs: seq<Submission>, items: map<nat, Item>) {
    && TwoReconciles(subs) && (exists id :: Mentioned(subs, id))
    && (forall id :: Mentioned(subs, id) ==> ItemReady(subs, items, id))
    && NoConflicts(subs)
  }

  // ----- the checks and the items -----

  /** The checks before the resolver, over the submissions. */
  ghost predicate Admissible(subs: seq<Submission>, items: map<nat, Item>) {
    && TwoReconciles(subs) && (exists id :: Mentioned(subs, id))
    && (forall id :: Mentioned(subs, id) ==> id in items && NotConsumed(subs, items, id))
  }

  function IsReconcile(): Submission -> bool {
    (s: Submission) => s.isReconcile
  }

  lemma {:induction false} ReconcilesAre(subs: seq<Submission>)
    ensures ReconcileCount(subs) == |Filter(subs, IsReconcile())|
    ensures ReconcileCount(subs) >= 1 <==> exists i {:trigger subs[i]} :: 0 <= i < |subs| && subs[i].isReconcile
    ensures ReconcileCount(subs) >= 2 <==> TwoReconciles(subs)
  {
    if subs != [] {
      var n := |subs| - 1;
      var front := subs[..n];
      ReconcilesAre(front);
      if i :| 0 <= i < n && front[i].isReconcile {
        assert subs[i].isReconcile;
        if subs[n].isReconcile {
          assert subs[i].isReconcile && subs[n].isReconcile;
        }
      }
      if i, j :| 0 <= i < j < |subs| && subs[i].isReconcile && subs[j].isReconcile {
        assert front[i].isReconcile;
        assert j < n ==> front[j].isReconcile;
      }
      if i, j :| 0 <= i < j < n && front[i].isReconcile && front[j].isReconcile {
        assert subs[i].isReconcile && subs[j].isReconcile;
      }
    }
  }

  lemma {:induction false} ChecksPassExactlyWhen(subs: seq<Submission>, items: map<nat, Item>)
    ensures ChecksPass(subs, items) <==> Admissible(subs, items)
  {
    var ids := ItemsOf(Entries(subs));
    ReconcilesAre(subs);
    forall id
      ensures Mentioned(subs, id) <==> id in ids
    {
      MentionedAre(subs, id);
    }
    assert ids != [] ==> ids[0] in ids;
    if forall id :: id in ids ==> id in items {
      NothingConsumed(subs, items, ids);
    }
  }

  lemma {:induction false} ItemResolvesExactlyWhen(subs: seq<Submission>, items: map<nat, Item>, id: nat)
    requires GoodLedgers(items) && SoundLayers(items) && ChecksPass(subs, items) && Mentioned(subs, id)
    ensures id in items && (Resolve(InputFor(subs, items, id)).Ok? <==> Resolvable(InputFor(subs, items, id)))
  {
    CheckedIsUnconsumed(subs, items, id);
    var input := InputFor(subs, items, id);
    if input.recs == [] {
      UncountedResolvesExactlyWhen(input);
    } else {
      ResolvesExactlyWhen(input);
    }
  }

  ghost predicate AllResolve(subs: seq<Submission>, items: map<nat, Item>) {
    forall id :: Mentioned(subs, id) ==> id in items && Resolvable(InputFor(subs, items, id))
  }

  lemma {:induction false} TallyExactlyWhen(subs: seq<Submission>, items: map<nat, Item>) returns (ids: seq<nat>)
    requires GoodLedgers(items) && SoundLayers(items) && ChecksPass(subs, items)
    ensures ids == StableSort(ItemsOf(Entries(subs)), Identity()) && forall id :: id in ids <==> Mentioned(subs, id)
    ensures forall id :: id in ids ==> id in items
    ensures TallyOf(Entries(subs), ids, items).Ok? <==> AllResolve(subs, items)
  {
    ids := StableSort(ItemsOf(Entries(subs)), Identity());
    StableSortHas(ItemsOf(Entries(subs)), Identity());
    forall id
      ensures Mentioned(subs, id) <==> id in ids
    {
      MentionedAre(subs, id);
    }
    ResolvedAre(subs, items, ids);
  }

  lemma {:induction false} ResolvedAre(subs: seq<Submission>, items: map<nat, Item>, ids: seq<nat>)
    requires GoodLedgers(items) && SoundLayers(items) && ChecksPass(subs, items)
    requires (forall id :: id in ids <==> Mentioned(subs, id)) && (forall id :: id in ids ==> id in items)
    ensures TallyOf(Entries(subs), ids, items).Ok? <==> AllResolve(subs, items)
  {
    var results := ResultsOf(Entries(subs), ids, items);
    TallyNeedsAll(results, |ids|);
    forall k {:trigger ids[k]} | 0 <= k < |ids|
      ensures results[k].Ok? <==> Resolvable(InputFor(subs, items, ids[k]))
    {
      assert ids[k] in ids;
      ResultMakes(subs, ids, items, k);
      ItemResolvesExactlyWhen(subs, items, ids[k]);
    }
  }

  // ----- the disposes -----

  /** The dispose is ignored for exactly the items it names and trails. */
  ghost predicate TrailsByItem(
    subs: seq<Submission>, i: nat, results: seq<Result<ItemResult, PlanError>>, ids: seq<nat>)
    requires i < |subs| && |ids| == |results|
  {
    forall k {:trigger results[k]} :: 0 <= k < |ids| && results[k].Ok? ==>
      (subs[i].id in results[k].value.ignored <==> Names(subs[i], ids[k]) && TrailsFor(subs, subs[i], ids[k]))
  }

  lemma {:induction false} TrailsOfResolved(subs: seq<Submission>, i: nat, ids: seq<nat>, items: map<nat, Item>)
    requires DistinctSubs(subs) && i < |subs| && !subs[i].isReconcile && (forall id :: id in ids ==> id in items)
    ensures TrailsByItem(subs, i, ResultsOf(Entries(subs), ids, items), ids)
  {
    forall k | 0 <= k < |ids| && Resolve(InputOf(Entries(subs), ids[k], items[ids[k]].layers)).Ok? {
      ItemFate(subs, i, ids[k], items[ids[k]].layers);
    }
  }

  lemma {:induction false} TallyTrails(
    subs: seq<Submission>, i: nat, results: seq<Result<ItemResult, PlanError>>, ids: seq<nat>, n: nat)
    requires i < |subs| && n <= |ids| == |results| && TrailsByItem(subs, i, results, ids)
    requires TallyItems(results, n).Ok?
    ensures Get(TallyItems(results, n).value.ignored, subs[i].id) != [] <==>
            exists k {:trigger ids[k]} :: 0 <= k < n && Names(subs[i], ids[k]) && TrailsFor(subs, subs[i], ids[k])
  {
    if n > 0 {
      TallyTrails(subs, i, results, ids, n - 1);
      var before, r := TallyItems(results, n - 1).value, results[n - 1].value;
      NotedAre(before.ignored, r.itemID, r.ignored, subs[i].id);
      assert ids[n - 1] == ids[n - 1];
    }
  }

  lemma {:induction false} TrailsByLine(subs: seq<Submission>, ids: seq<nat>, i: nat)
    requires i < |subs| && forall id :: id in ids <==> Mentioned(subs, id)
    ensures TrailsSomewhere(subs, subs[i]) <==>
            exists k {:trigger ids[k]} :: 0 <= k < |ids| && Names(subs[i], ids[k]) && TrailsFor(subs, subs[i], ids[k])
  {
    if j :| 0 <= j < |subs[i].lines| && TrailsFor(subs, subs[i], subs[i].lines[j].itemID) {
      assert Names(subs[i], subs[i].lines[j].itemID);
      assert subs[i].lines[j].itemID in ids;
      var k :| 0 <= k < |ids| && ids[k] == subs[i].lines[j].itemID;
    }
  }

  /** A dispose of the tally is in conflict exactly when it is in scope for one item and trailing for another. */
  ghost predicate InConflict(t: Tally, x: nat) {
    Get(t.applied, x) != [] && Get(t.ignored, x) != []
  }

  lemma {:induction false} ConflictIs(subs: seq<Submission>, items: map<nat, Item>, ids: seq<nat>, t: Tally, i: nat)
    requires DistinctSubs(subs) && i < |subs| && !subs[i].isReconcile
    requires (forall id :: id in ids <==> Mentioned(subs, id)) && (forall id :: id in ids ==> id in items)
    requires TallyOf(Entries(subs), ids, items) == Ok(t)
    ensures InConflict(t, subs[i].id) <==> InScopeSomewhere(subs, subs[i]) && TrailsSomewhere(subs, subs[i])
  {
    var results := ResultsOf(Entries(subs), ids, items);
    FatesOfResolved(subs, i, ids, items);
    TallyFate(subs, i, results, ids, |ids|);
    forall id
      ensures id in ItemsOf(Entries(subs)) <==> Mentioned(subs, id)
    {
      MentionedAre(subs, id);
    }
    ScopeByItem(subs, ids, i);
    TrailsOfResolved(subs, i, ids, items);
    TallyTrails(subs, i, results, ids, |ids|);
    TrailsByLine(subs, ids, i);
  }

  lemma {:induction false} AppliedExactlyWhen(subs: seq<Submission>, t: Tally, n: nat)
    requires n <= |subs|
    ensures AppliedAsIs(subs, t, n).Ok? <==>
            forall i {:trigger subs[i]} :: 0 <= i < n && !subs[i].isReconcile ==> !InConflict(t, subs[i].id)
  {
    if n > 0 {
      AppliedExactlyWhen(subs, t, n - 1);
      assert subs[n - 1] == subs[n - 1];
    }
  }

  lemma {:induction false} FinishExactlyWhen(subs: seq<Submission>, items: map<nat, Item>, ids: seq<nat>, t: Tally)
    requires DistinctSubs(subs) && TallyReady(subs, items, ids) && TallyOf(Entries(subs), ids, items) == Ok(t)
    ensures Finish(subs, t).Ok? <==> NoConflicts(subs)
  {
    AppliedExactlyWhen(subs, t, |subs|);
    forall i {:trigger subs[i]} | 0 <= i < |subs| && !subs[i].isReconcile
      ensures InConflict(t, subs[i].id) <==> InScopeSomewhere(subs, subs[i]) && TrailsSomewhere(subs, subs[i])
    {
      ConflictIs(subs, items, ids, t, i);
    }
  }

  /** The ids are those the submissions name, all of them active. */
  ghost predicate TallyReady(subs: seq<Submission>, items: map<nat, Item>, ids: seq<nat>) {
    (forall id :: id in ids <==> Mentioned(subs, id)) && (forall id :: id in ids ==> id in items)
  }

  // ----- the plan -----

  /** Exactly when there is a plan. */
  lemma {:induction false} PlansExactlyWhen(subs: seq<Submission>, items: map<nat, Item>)
    requires DistinctSubs(subs) && GoodLedgers(items) && SoundLayers(items)
    ensures PlanOf(subs, items).Ok? <==> Plannable(subs, items)
  {
    ChecksPassExactlyWhen(subs, items);
    if ChecksPass(subs, items) {
      var ids := TallyExactlyWhen(subs, items);
      if AllResolve(subs, items) {
        var t := TallyOf(Entries(subs), ids, items).value;
        FinishExactlyWhen(subs, items, ids, t);
        PlanFromTally(subs, items, ids, t);
      }
    }
    if PlanOf(subs, items).Ok? {
      var ids, t := PlanIsTally(subs, items);
    }
  }
}

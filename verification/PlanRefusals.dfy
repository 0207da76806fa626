/**
 Why a resolution cannot be planned (cmd/util/reconcile.go, computeResolution): every error names the first
 thing that is wrong, over the submissions' lines and the ledgers.
 */
module PlanRefusals {
  import opened Basics
  import opened Fifo
  import opened Windows
  import opened Resolver
  import opened Plans
  import opened Submissions
  import opened Planner
  import opened PlannerLaws
  import opened PlannedItems
  import opened PlanInputs
  import opened PlanSuccess

  // ----- the first mention -----

  /** The line is the first one that names an item for which the test fails. */
  ghost predicate FirstFailing(subs: seq<Submission>, p: Place, fails: nat -> bool) {
    && IsPlace(subs, p) && fails(subs[p.0].lines[p.1].itemID)
    && forall q: Place :: IsPlace(subs, q) && Precedes(q, p) ==> !fails(subs[q.0].lines[q.1].itemID)
  }

  /** Where the k-th item to appear does so: at an entry before which only earlier ones appear. */
  lemma {:induction false} FirstAppearance(entries: seq<Entry>, k: nat) returns (n: nat)
    requires k < |ItemsOf(entries)|
    ensures n < |entries| && entries[n].itemID == ItemsOf(entries)[k]
    ensures forall m :: 0 <= m < n ==> entries[m].itemID in ItemsOf(entries)[..k]
  {
    var front, before := entries[..|entries| - 1], ItemsOf(entries[..|entries| - 1]);
    if k < |before| {
      n := FirstAppearance(front, k);
      assert ItemsOf(entries)[..k] == before[..k];
      forall m | 0 <= m < n
        ensures entries[m].itemID in ItemsOf(entries)[..k]
      {
        assert front[m].itemID in before[..k];
      }
    } else {
      n := |front|;
      assert ItemsOf(entries)[..k] == before;
      forall m | 0 <= m < n
        ensures entries[m].itemID in before
      {
        ItemsAre(front, front[m].itemID);
      }
    }
  }

  lemma {:induction false} PlaceOfEntry(subs: seq<Submission>, places: seq<Place>, q: Place) returns (m: nat)
    requires Placed(subs, Entries(subs), places, |subs|, 0) && IsPlace(subs, q)
    ensures m < |places| && places[m] == q && m < |Entries(subs)| && FromLine(subs, q, Entries(subs)[m])
  {
    assert q in places;
    m :| 0 <= m < |places| && places[m] == q;
    assert FromLine(subs, places[m], Entries(subs)[m]);
  }

  lemma {:induction false} FirstPlace(subs: seq<Submission>, k: nat, fails: nat -> bool) returns (p: Place)
    requires k < |ItemsOf(Entries(subs))| && fails(ItemsOf(Entries(subs))[k])
    requires forall j :: 0 <= j < k ==> !fails(ItemsOf(Entries(subs))[j])
    ensures FirstFailing(subs, p, fails) && subs[p.0].lines[p.1].itemID == ItemsOf(Entries(subs))[k]
  {
    var ids := ItemsOf(Entries(subs));
    var places := EntriesArePlaced(subs);
    var n := FirstAppearance(Entries(subs), k);
    p := places[n];
    assert FromLine(subs, p, Entries(subs)[n]);
    forall q: Place | IsPlace(subs, q) && Precedes(q, p)
      ensures !fails(subs[q.0].lines[q.1].itemID)
    {
      var m := PlaceOfEntry(subs, places, q);
      assert m < n;
      var j :| 0 <= j < k && ids[j] == Entries(subs)[m].itemID;
    }
  }

  // ----- what the errors say -----

  ghost function Inactive(items: map<nat, Item>): nat -> bool {
    (id: nat) => id !in items
  }

  ghost function UsedItem(subs: seq<Submission>, items: map<nat, Item>): nat -> bool {
    (id: nat) => id in items && !NotConsumed(subs, items, id)
  }

  /** Layer i is the first in scope that has been consumed. */
  ghost predicate FirstUsed(recs: seq<Count>, layers: seq<Layer>, i: nat) {
    && i < |layers| && LayerInScope(recs, layers[i]) && layers[i].consumed > 0.0
    && forall j :: 0 <= j < i ==> !(LayerInScope(recs, layers[j]) && layers[j].consumed > 0.0)
  }

  /** The smallest item that cannot be resolved. */
  ghost predicate FirstUnresolved(subs: seq<Submission>, items: map<nat, Item>, id: nat, e: ResolveError) {
    && Mentioned(subs, id) && id in items && Resolve(InputFor(subs, items, id)) == Err(e)
    && forall x: nat :: x < id && Mentioned(subs, x) ==> x in items && Resolve(InputFor(subs, items, x)).Ok?
  }

  /** The smallest item of the dispose that it trails, or that it does not. */
  ghost predicate SmallestItem(subs: seq<Submission>, sub: Submission, id: nat, trails: bool) {
    && Names(sub, id) && (TrailsFor(subs, sub, id) <==> trails)
    && forall x: nat :: x < id && Names(sub, x) ==> (TrailsFor(subs, sub, x) <==> !trails)
  }

  ghost predicate FirstConflict(subs: seq<Submission>, i: nat, ignoredFor: nat, appliedFor: nat) {
    && i < |subs| && !subs[i].isReconcile
    && SmallestItem(subs, subs[i], ignoredFor, true) && SmallestItem(subs, subs[i], appliedFor, false)
    && forall j :: 0 <= j < i && !subs[j].isReconcile ==>
         !(InScopeSomewhere(subs, subs[j]) && TrailsSomewhere(subs, subs[j]))
  }

  /** What the error of a plan says. */
  ghost predicate PlanRefusal(subs: seq<Submission>, items: map<nat, Item>, e: PlanError) {
    match e
    case TooFewReconciles(n) => n == |Filter(subs, IsReconcile())| < 2
    case NothingToLoad => TwoReconciles(subs) && forall id :: !Mentioned(subs, id)
    case NotActive(id) =>
      TwoReconciles(subs) && exists p: Place :: FirstFailing(subs, p, Inactive(items)) && ItemAt(subs, p) == id
    case AlreadyConsumed(id, layerID) =>
      && TwoReconciles(subs) && (forall x :: Mentioned(subs, x) ==> x in items) && id in items
      && (exists p: Place :: FirstFailing(subs, p, UsedItem(subs, items)) && ItemAt(subs, p) == id)
      && exists i: nat :: FirstUsed(RecsOf(subs, id), items[id].layers, i) && items[id].layers[i].id == layerID
    case Unresolved(id, error) => ChecksPass(subs, items) && FirstUnresolved(subs, items, id, error)
    case TrailingConflict(subID, ignoredFor, appliedFor) =>
      && ChecksPass(subs, items) && (forall id :: Mentioned(subs, id) ==> Resolves(subs, items, id))
      && exists i: nat :: FirstConflict(subs, i, ignoredFor, appliedFor) && subs[i].id == subID
  }

  /** The item that the line names. */
  ghost function ItemAt(subs: seq<Submission>, p: Place): nat {
    if IsPlace(subs, p) then subs[p.0].lines[p.1].itemID else 0
  }

  ghost predicate Resolves(subs: seq<Submission>, items: map<nat, Item>, id: nat) {
    id in items && Resolve(InputFor(subs, items, id)).Ok?
  }

  // ----- the checks -----

  lemma {:induction false} InactiveIs(ids: seq<nat>, items: map<nat, Item>, n: nat) returns (k: nat)
    requires n <= |ids| && InactiveError(ids, items, n).Some?
    ensures k < n && ids[k] !in items && InactiveError(ids, items, n) == Some(NotActive(ids[k]))
    ensures forall j :: 0 <= j < k ==> ids[j] in items
  {
    if InactiveError(ids, items, n - 1).Some? {
      k := InactiveIs(ids, items, n - 1);
    } else {
      k := n - 1;
      forall j | 0 <= j < k
        ensures ids[j] in items
      {
        assert ids[j] in ids[..k];
      }
    }
  }

  lemma {:induction false} RefusedInactive(subs: seq<Submission>, items: map<nat, Item>)
    requires TwoReconciles(subs)
    requires var ids := ItemsOf(Entries(subs)); InactiveError(ids, items, |ids|).Some?
    ensures var ids := ItemsOf(Entries(subs)); PlanRefusal(subs, items, InactiveError(ids, items, |ids|).value)
  {
    var ids := ItemsOf(Entries(subs));
    var k := InactiveIs(ids, items, |ids|);
    var p := FirstPlace(subs, k, Inactive(items));
    assert ItemAt(subs, p) == ids[k];
  }

  lemma {:induction false} FirstErrorIs(errors: seq<Option<PlanError>>, n: nat) returns (k: nat)
    requires n <= |errors| && FirstError(errors, n).Some?
    ensures k < n && errors[k] == FirstError(errors, n) && forall j :: 0 <= j < k ==> errors[j] == None
  {
    if FirstError(errors, n - 1).Some? {
      k := FirstErrorIs(errors, n - 1);
    } else {
      FirstErrorNone(errors, n - 1);
      k := n - 1;
    }
  }

  lemma {:induction false} FirstUsedIs(recs: seq<Count>, layers: seq<Layer>, n: nat) returns (i: nat)
    requires n <= |layers| && ConsumedLayer(recs, layers, n).Some?
    ensures i < n && FirstUsed(recs, layers, i) && ConsumedLayer(recs, layers, n) == Some(layers[i].id)
  {
    if ConsumedLayer(recs, layers, n - 1).Some? {
      i := FirstUsedIs(recs, layers, n - 1);
    } else {
      i := n - 1;
      forall j | 0 <= j < i
        ensures !(LayerInScope(recs, layers[j]) && layers[j].consumed > 0.0)
      {
        assert layers[j] in layers[..i];
      }
    }
  }

  lemma {:induction false} RefusedConsumed(subs: seq<Submission>, items: map<nat, Item>)
    requires TwoReconciles(subs) && forall id :: id in ItemsOf(Entries(subs)) ==> id in items
    requires ConsumedError(Entries(subs), ItemsOf(Entries(subs)), items).Some?
    ensures PlanRefusal(subs, items, ConsumedError(Entries(subs), ItemsOf(Entries(subs)), items).value)
  {
    var ids := ItemsOf(Entries(subs));
    var errors := ConsumedErrors(Entries(subs), ids, items);
    var k := FirstErrorIs(errors, |ids|);
    forall j | 0 <= j < |ids|
      ensures ids[j] in items && (errors[j] == None <==> NotConsumed(subs, items, ids[j]))
    {
      assert ids[j] in ids;
      NoConsumedLayer(RecsOf(subs, ids[j]), items[ids[j]].layers, ids[j]);
    }
    var p := FirstPlace(subs, k, UsedItem(subs, items));
    assert ItemAt(subs, p) == ids[k];
    var i := FirstUsedIs(RecsOf(subs, ids[k]), items[ids[k]].layers, |items[ids[k]].layers|);
    forall x | Mentioned(subs, x)
      ensures x in items
    {
      MentionedAre(subs, x);
    }
  }

  // ----- the resolver -----

  lemma {:induction false} FirstTallyError(results: seq<Result<ItemResult, PlanError>>, n: nat) returns (k: nat)
    requires n <= |results| && TallyItems(results, n).Err?
    ensures k < n && results[k].Err? && TallyItems(results, n).error == results[k].error
    ensures forall j :: 0 <= j < k ==> results[j].Ok?
  {
    if TallyItems(results, n - 1).Err? {
      k := FirstTallyError(results, n - 1);
    } else {
      TallyNeedsAll(results, n - 1);
      k := n - 1;
    }
  }

  lemma {:induction false} RefusedTally(subs: seq<Submission>, items: map<nat, Item>, ids: seq<nat>)
    requires ChecksPass(subs, items) && TallyReady(subs, items, ids) && SortedBy(ids, Identity())
    requires TallyOf(Entries(subs), ids, items).Err?
    ensures PlanRefusal(subs, items, TallyOf(Entries(subs), ids, items).error)
  {
    var results := ResultsOf(Entries(subs), ids, items);
    var k := FirstTallyError(results, |ids|);
    assert ids[k] in ids;
    ResultMakes(subs, ids, items, k);
    assert results[k] == ItemResultOf(InputFor(subs, items, ids[k]), items[ids[k]]);
    forall x: nat | x < ids[k] && Mentioned(subs, x)
      ensures x in items && Resolve(InputFor(subs, items, x)).Ok?
    {
      var j :| 0 <= j < |ids| && ids[j] == x;
      if k <= j {
        InOrder(ids, Identity(), k, j);
      }
      assert results[j].Ok?;
      ResultMakes(subs, ids, items, j);
    }
  }

  // ----- conflicts -----

  lemma {:induction false} NotedFirst(m: map<nat, seq<nat>>, item: nat, subIDs: seq<nat>, x: nat)
    ensures var before, after := Get(m, x), Get(Note(m, item, subIDs), x);
            && (after != [] <==> before != [] || x in subIDs)
            && (after != [] ==> after[0] == if before != [] then before[0] else item)
  {
    if subIDs != [] {
      assert subIDs == subIDs[..|subIDs| - 1] + [subIDs[|subIDs| - 1]];
      NotedFirst(m, item, subIDs[..|subIDs| - 1], x);
    }
  }

  /** The first of the first n items whose result lists the submission, as applied or as ignored. */
  ghost predicate FirstListing(
    results: seq<Result<ItemResult, PlanError>>, n: nat, x: nat, ignored: bool, k: nat)
    requires n <= |results|
  {
    && k < n && results[k].Ok? && x in (if ignored then results[k].value.ignored else results[k].value.applied)
    && forall j {:trigger results[j]} :: 0 <= j < k && results[j].Ok? ==>
         x !in (if ignored then results[j].value.ignored else results[j].value.applied)
  }

  lemma {:induction false} TallyLists(
    results: seq<Result<ItemResult, PlanError>>, ids: seq<nat>, n: nat, x: nat, ignored: bool)
    requires n <= |ids| == |results| && TallyItems(results, n).Ok?
    requires forall k {:trigger results[k]} :: 0 <= k < |ids| && results[k].Ok? ==> results[k].value.itemID == ids[k]
    ensures var t := TallyItems(results, n).value; var listed := Get(if ignored then t.ignored else t.applied, x);
            && (listed == [] ==> forall j {:trigger results[j]} :: 0 <= j < n && results[j].Ok? ==>
                  x !in (if ignored then results[j].value.ignored else results[j].value.applied))
            && (listed != [] ==> exists k: nat :: FirstListing(results, n, x, ignored, k) && listed[0] == ids[k])
  {
    if n > 0 {
      var t, r := TallyItems(results, n - 1).value, results[n - 1].value;
      TallyLists(results, ids, n - 1, x, ignored);
      NotedFirst(if ignored then t.ignored else t.applied, r.itemID, if ignored then r.ignored else r.applied, x);
      if Get(if ignored then t.ignored else t.applied, x) != [] {
        var k: nat :| FirstListing(results, n - 1, x, ignored, k);
        assert FirstListing(results, n, x, ignored, k);
      } else if x in (if ignored then r.ignored else r.applied) {
        assert FirstListing(results, n, x, ignored, n - 1);
      }
    }
  }

  lemma {:induction false} SmallestListed(
    subs: seq<Submission>, items: map<nat, Item>, ids: seq<nat>, i: nat, ignored: bool, k: nat)
    requires DistinctSubs(subs) && i < |subs| && !subs[i].isReconcile
    requires TallyReady(subs, items, ids) && SortedBy(ids, Identity())
    requires TallyOf(Entries(subs), ids, items).Ok?
    requires FirstListing(ResultsOf(Entries(subs), ids, items), |ids|, subs[i].id, ignored, k)
    ensures SmallestItem(subs, subs[i], ids[k], ignored)
  {
    var results := ResultsOf(Entries(subs), ids, items);
    FatesOfResolved(subs, i, ids, items);
    TrailsOfResolved(subs, i, ids, items);
    TallyNeedsAll(results, |ids|);
    forall x: nat | x < ids[k] && Names(subs[i], x)
      ensures TrailsFor(subs, subs[i], x) <==> !ignored
    {
      assert Mentioned(subs, x);
      var j :| 0 <= j < |ids| && ids[j] == x;
      if k <= j {
        InOrder(ids, Identity(), k, j);
      }
      assert results[j].Ok?;
    }
  }

  /** The first dispose in conflict. */
  lemma {:induction false} FirstApplyError(subs: seq<Submission>, t: Tally, n: nat) returns (i: nat)
    requires n <= |subs| && AppliedAsIs(subs, t, n).Err?
    ensures i < n && !subs[i].isReconcile && InConflict(t, subs[i].id)
    ensures AppliedAsIs(subs, t, n).error
         == TrailingConflict(subs[i].id, Get(t.ignored, subs[i].id)[0], Get(t.applied, subs[i].id)[0])
    ensures forall j :: 0 <= j < i && !subs[j].isReconcile ==> !InConflict(t, subs[j].id)
  {
    if AppliedAsIs(subs, t, n - 1).Err? {
      i := FirstApplyError(subs, t, n - 1);
    } else {
      AppliedExactlyWhen(subs, t, n - 1);
      i := n - 1;
      forall j | 0 <= j < i && !subs[j].isReconcile
        ensures !InConflict(t, subs[j].id)
      {
        assert subs[j] == subs[j];
      }
    }
  }

  lemma {:induction false} ListedSmallest(
    subs: seq<Submission>, items: map<nat, Item>, ids: seq<nat>, t: Tally, i: nat, ignored: bool)
    requires DistinctSubs(subs) && i < |subs| && !subs[i].isReconcile
    requires TallyReady(subs, items, ids) && SortedBy(ids, Identity()) && TallyOf(Entries(subs), ids, items) == Ok(t)
    requires Get(if ignored then t.ignored else t.applied, subs[i].id) != []
    ensures SmallestItem(subs, subs[i], Get(if ignored then t.ignored else t.applied, subs[i].id)[0], ignored)
  {
    var results := ResultsOf(Entries(subs), ids, items);
    TallyLists(results, ids, |ids|, subs[i].id, ignored);
    var k: nat :| FirstListing(results, |ids|, subs[i].id, ignored, k)
                  && Get(if ignored then t.ignored else t.applied, subs[i].id)[0] == ids[k];
    SmallestListed(subs, items, ids, i, ignored, k);
  }

  lemma {:induction false} RefusedConflict(subs: seq<Submission>, items: map<nat, Item>, ids: seq<nat>, t: Tally)
    requires DistinctSubs(subs) && ChecksPass(subs, items)
    requires TallyReady(subs, items, ids) && SortedBy(ids, Identity()) && TallyOf(Entries(subs), ids, items) == Ok(t)
    requires AppliedAsIs(subs, t, |subs|).Err?
    ensures PlanRefusal(subs, items, AppliedAsIs(subs, t, |subs|).error)
  {
    var i := FirstApplyError(subs, t, |subs|);
    ListedSmallest(subs, items, ids, t, i, true);
    ListedSmallest(subs, items, ids, t, i, false);
    forall j | 0 <= j < i && !subs[j].isReconcile
      ensures !(InScopeSomewhere(subs, subs[j]) && TrailsSomewhere(subs, subs[j]))
    {
      ConflictIs(subs, items, ids, t, j);
    }
    assert FirstConflict(subs, i, Get(t.ignored, subs[i].id)[0], Get(t.applied, subs[i].id)[0]);
    AllResolved(subs, items, ids);
  }

  lemma {:induction false} AllResolved(subs: seq<Submission>, items: map<nat, Item>, ids: seq<nat>)
    requires TallyReady(subs, items, ids) && TallyOf(Entries(subs), ids, items).Ok?
    ensures forall id :: Mentioned(subs, id) ==> Resolves(subs, items, id)
  {
    TallyNeedsAll(ResultsOf(Entries(subs), ids, items), |ids|);
    forall id | Mentioned(subs, id)
      ensures Resolves(subs, items, id)
    {
      var k :| 0 <= k < |ids| && ids[k] == id;
      ResultMakes(subs, ids, items, k);
    }
  }

  // ----- the plan -----

  /** A refused plan is refused for the first thing wrong with it. */
  lemma {:induction false} RefusedPlan(subs: seq<Submission>, items: map<nat, Item>)
    requires DistinctSubs(subs)
    ensures PlanOf(subs, items).Err? ==> PlanRefusal(subs, items, PlanOf(subs, items).error)
  {
    var ids := ItemsOf(Entries(subs));
    assert ids[..|ids|] == ids;
    ReconcilesAre(subs);
    if ReconcileCount(subs) >= 2 {
      if InactiveError(ids, items, |ids|).Some? {
        RefusedInactive(subs, items);
      } else if ids == [] {
        NoneMentioned(subs);
      } else {
        RefusedActive(subs, items);
      }
    }
  }

  lemma {:induction false} NoneMentioned(subs: seq<Submission>)
    requires ItemsOf(Entries(subs)) == []
    ensures forall id :: !Mentioned(subs, id)
  {
    forall id
      ensures !Mentioned(subs, id)
    {
      MentionedAre(subs, id);
    }
  }

  lemma {:induction false} RefusedActive(subs: seq<Submission>, items: map<nat, Item>)
    requires DistinctSubs(subs) && TwoReconciles(subs) && ReconcileCount(subs) >= 2 && ItemsOf(Entries(subs)) != []
    requires forall id :: id in ItemsOf(Entries(subs)) ==> id in items
    ensures PlanActive(subs, items).Err? ==> PlanRefusal(subs, items, PlanActive(subs, items).error)
  {
    if ConsumedError(Entries(subs), ItemsOf(Entries(subs)), items).Some? {
      RefusedConsumed(subs, items);
    } else {
      RefusedChecked(subs, items);
    }
  }

  lemma {:induction false} CheckedPlan(subs: seq<Submission>, items: map<nat, Item>, ids: seq<nat>)
    requires ChecksPass(subs, items) && TallyReady(subs, items, ids)
    requires ids == StableSort(ItemsOf(Entries(subs)), Identity()) && |ids| == |ItemsOf(Entries(subs))|
    ensures PlanActive(subs, items)
         == match TallyOf(Entries(subs), ids, items) case Err(e) => Err(e) case Ok(t) => Finish(subs, t)
  {
  }

  lemma {:induction false} RefusedChecked(subs: seq<Submission>, items: map<nat, Item>)
    requires DistinctSubs(subs) && ChecksPass(subs, items)
    ensures PlanActive(subs, items).Err? ==> PlanRefusal(subs, items, PlanActive(subs, items).error)
  {
    var ids := SortedItems(subs, items);
    CheckedPlan(subs, items, ids);
    var tally := TallyOf(Entries(subs), ids, items);
    if tally.Err? {
      RefusedTally(subs, items, ids);
    } else if AppliedAsIs(subs, tally.value, |subs|).Err? {
      RefusedConflict(subs, items, ids, tally.value);
    }
  }

  lemma {:induction false} SortedItems(subs: seq<Submission>, items: map<nat, Item>) returns (ids: seq<nat>)
    requires forall id :: id in ItemsOf(Entries(subs)) ==> id in items
    ensures ids == StableSort(ItemsOf(Entries(subs)), Identity()) && |ids| == |ItemsOf(Entries(subs))|
    ensures TallyReady(subs, items, ids) && SortedBy(ids, Identity())
  {
    ids := StableSort(ItemsOf(Entries(subs)), Identity());
    StableSortHas(ItemsOf(Entries(subs)), Identity());
    StableSortSorts(ItemsOf(Entries(subs)), Identity());
    forall id
      ensures Mentioned(subs, id) <==> id in ids
    {
      MentionedAre(subs, id);
    }
  }
}

/**
 What a resolution plan means for the submissions (cmd/util/reconcile.go, computeResolution): each has
 exactly one fate; and in which order the plan lists its transactions.
 */
module PlannerLaws {
  import opened Basics
  import opened Fifo
  import opened Windows
  import opened Resolver
  import opened Rerun
  import opened Plans
  import opened Submissions
  import opened Planner

  // ----- entries -----

  lemma {:induction false} SubEntryAt(sub: Submission, n: nat, j: nat)
    requires j < n <= |sub.lines|
    ensures SubEntries(sub, n)[j] == EntryOf(sub, sub.lines[j])
  {
    if j < n - 1 {
      SubEntryAt(sub, n - 1, j);
    }
  }

  /** Every entry is a line of a submission. */
  lemma {:induction false} EntryOrigin(subs: seq<Submission>, e: Entry) returns (i: nat, j: nat)
    requires e in Entries(subs)
    ensures i < |subs| && j < |subs[i].lines| && e == EntryOf(subs[i], subs[i].lines[j])
  {
    var sub := subs[|subs| - 1];
    if e in Entries(subs[..|subs| - 1]) {
      i, j := EntryOrigin(subs[..|subs| - 1], e);
    } else {
      i := |subs| - 1;
      var all := SubEntries(sub, |sub.lines|);
      j :| 0 <= j < |all| && all[j] == e;
      SubEntryAt(sub, |sub.lines|, j);
    }
  }

  /** Every line of a submission is an entry. */
  lemma {:induction false} LineIsEntry(subs: seq<Submission>, i: nat, j: nat)
    requires i < |subs| && j < |subs[i].lines|
    ensures EntryOf(subs[i], subs[i].lines[j]) in Entries(subs)
  {
    if i < |subs| - 1 {
      LineIsEntry(subs[..|subs| - 1], i, j);
    } else {
      SubEntryAt(subs[i], |subs[i].lines|, j);
      assert SubEntries(subs[i], |subs[i].lines|)[j] in SubEntries(subs[i], |subs[i].lines|);
    }
  }

  lemma {:induction false} ItemsAre(entries: seq<Entry>, id: nat)
    ensures id in ItemsOf(entries) <==> exists e :: e in entries && e.itemID == id
  {
    if entries != [] {
      assert entries == entries[..|entries| - 1] + [entries[|entries| - 1]];
      ItemsAre(entries[..|entries| - 1], id);
    }
  }

  lemma {:induction false} CountsAre(entries: seq<Entry>, id: nat, c: Count)
    ensures c in CountsOf(entries, id) <==>
            exists e :: e in entries && e.isReconcile && e.itemID == id && c == Count(e.subID, e.at, e.prev, e.qty)
  {
    if entries != [] {
      assert entries == entries[..|entries| - 1] + [entries[|entries| - 1]];
      CountsAre(entries[..|entries| - 1], id, c);
    }
  }

  lemma {:induction false} DisposesAre(entries: seq<Entry>, id: nat, d: Dispose)
    ensures d in DisposesOf(entries, id) <==>
            exists e :: e in entries && !e.isReconcile && e.itemID == id && d == Dispose(e.subID, e.at, e.qty)
  {
    if entries != [] {
      assert entries == entries[..|entries| - 1] + [entries[|entries| - 1]];
      DisposesAre(entries[..|entries| - 1], id, d);
    }
  }

  // ----- fates -----

  /** The counts of an item, in order. */
  ghost function RecsOf(subs: seq<Submission>, id: nat): seq<Count> {
    StableSort(CountsOf(Entries(subs), id), CountTime())
  }

  /** The submission comes after the last count of the item. */
  ghost predicate TrailsFor(subs: seq<Submission>, sub: Submission, id: nat) {
    RecsOf(subs, id) != [] && sub.at > LastAt(RecsOf(subs, id))
  }

  /** The submission is in scope for one of its items. */
  ghost predicate InScopeSomewhere(subs: seq<Submission>, sub: Submission) {
    exists j :: 0 <= j < |sub.lines| && !TrailsFor(subs, sub, sub.lines[j].itemID)
  }

  lemma {:induction false} NotedAre(m: map<nat, seq<nat>>, item: nat, subIDs: seq<nat>, x: nat)
    ensures Get(Note(m, item, subIDs), x) != [] <==> Get(m, x) != [] || x in subIDs
  {
    if subIDs != [] {
      assert subIDs == subIDs[..|subIDs| - 1] + [subIDs[|subIDs| - 1]];
      NotedAre(m, item, subIDs[..|subIDs| - 1], x);
    }
  }

  lemma {:induction false} TookPartAre(disposes: seq<Dispose>, ignored: seq<nat>, x: nat)
    ensures x in TookPart(disposes, ignored) <==> x !in ignored && exists d :: d in disposes && d.subID == x
  {
    if disposes != [] {
      assert disposes == disposes[..|disposes| - 1] + [disposes[|disposes| - 1]];
      TookPartAre(disposes[..|disposes| - 1], ignored, x);
    }
  }

  lemma {:induction false} SameSub(subs: seq<Submission>, i: nat, j: nat)
    requires DistinctSubs(subs) && i < |subs| && j < |subs| && subs[i].id == subs[j].id
    ensures i == j
  {
    assert forall a, b :: 0 <= a < b < |subs| ==> subs[a].id != subs[b].id;
  }

  /** The disposes of an item that belong to a dispose submission are its lines that name the item. */
  lemma {:induction false} DisposesOfSub(subs: seq<Submission>, i: nat, id: nat)
    requires DistinctSubs(subs) && i < |subs| && !subs[i].isReconcile
    ensures (exists d :: d in DisposesOf(Entries(subs), id) && d.subID == subs[i].id)
       <==> exists j :: 0 <= j < |subs[i].lines| && subs[i].lines[j].itemID == id
    ensures forall d :: d in DisposesOf(Entries(subs), id) && d.subID == subs[i].id ==> d.at == subs[i].at
  {
    var entries := Entries(subs);
    forall d | d in DisposesOf(entries, id) && d.subID == subs[i].id
      ensures d.at == subs[i].at
      ensures exists j :: 0 <= j < |subs[i].lines| && subs[i].lines[j].itemID == id
    {
      DisposesAre(entries, id, d);
      var e :| e in entries && !e.isReconcile && e.itemID == id && d == Dispose(e.subID, e.at, e.qty);
      var a, b := EntryOrigin(subs, e);
      SameSub(subs, a, i);
    }
    if j :| 0 <= j < |subs[i].lines| && subs[i].lines[j].itemID == id {
      LineIsEntry(subs, i, j);
      var e := EntryOf(subs[i], subs[i].lines[j]);
      DisposesAre(entries, id, Dispose(e.subID, e.at, e.qty));
    }
  }

  /** One of the submission's lines names the item. */
  ghost predicate Names(sub: Submission, id: nat) {
    exists j :: 0 <= j < |sub.lines| && sub.lines[j].itemID == id
  }

  /** The same for the sorted list of the item's input. */
  lemma {:induction false} InputDisposesOfSub(subs: seq<Submission>, i: nat, id: nat, layers: seq<Layer>)
    requires DistinctSubs(subs) && i < |subs| && !subs[i].isReconcile
    ensures var disposes := InputOf(Entries(subs), id, layers).disposes;
            && (Names(subs[i], id) <==> exists d :: d in disposes && d.subID == subs[i].id)
            && forall d :: d in disposes && d.subID == subs[i].id ==> d.at == subs[i].at
  {
    DisposesOfSub(subs, i, id);
    StableSortHas(DisposesOf(Entries(subs), id), DisposeTime());
  }

  /** The submissions a resolved item ignores: those after its last count, or none without counts. */
  ghost function Ignored(recs: seq<Count>, disposes: seq<Dispose>): seq<nat> {
    if recs == [] then [] else Trailing(recs, disposes)
  }

  lemma {:induction false} FateAmong(recs: seq<Count>, disposes: seq<Dispose>, x: nat, at: int)
    requires forall d :: d in disposes && d.subID == x ==> d.at == at
    ensures var named := exists d :: d in disposes && d.subID == x; var trails := recs != [] && at > LastAt(recs);
            && (x in TookPart(disposes, Ignored(recs, disposes)) <==> named && !trails)
            && (x in Ignored(recs, disposes) <==> named && trails)
  {
    TookPartAre(disposes, Ignored(recs, disposes), x);
    if recs != [] {
      IgnoredAreTrailing(recs, disposes, x);
    }
  }

  lemma {:induction false} FateInInput(subs: seq<Submission>, i: nat, id: nat, layers: seq<Layer>)
    requires DistinctSubs(subs) && i < |subs| && !subs[i].isReconcile
    ensures var input := InputOf(Entries(subs), id, layers); var ignored := Ignored(input.recs, input.disposes);
            && (subs[i].id in TookPart(input.disposes, ignored) <==>
               Names(subs[i], id) && !TrailsFor(subs, subs[i], id))
            && (subs[i].id in ignored <==> Names(subs[i], id) && TrailsFor(subs, subs[i], id))
  {
    var input := InputOf(Entries(subs), id, layers);
    InputDisposesOfSub(subs, i, id, layers);
    FateAmong(input.recs, input.disposes, subs[i].id, subs[i].at);
  }

  lemma {:induction false} IgnoredIs(input: ItemInput)
    requires Resolve(input).Ok?
    ensures Resolve(input).value.ignored == Ignored(input.recs, input.disposes)
  {
  }

  /** For one item: the dispose takes part when it names the item and does not trail, and is ignored when it trails. */
  lemma {:induction false} ItemFate(subs: seq<Submission>, i: nat, id: nat, layers: seq<Layer>)
    requires DistinctSubs(subs) && i < |subs| && !subs[i].isReconcile
    requires Resolve(InputOf(Entries(subs), id, layers)).Ok?
    ensures var input := InputOf(Entries(subs), id, layers); var r := Resolve(input).value;
            && (subs[i].id in TookPart(input.disposes, r.ignored) <==>
               Names(subs[i], id) && !TrailsFor(subs, subs[i], id))
            && (subs[i].id in r.ignored <==> Names(subs[i], id) && TrailsFor(subs, subs[i], id))
  {
    var input := InputOf(Entries(subs), id, layers);
    FateInInput(subs, i, id, layers);
    IgnoredIs(input);
  }

  /** One of the first n items is named by the submission and not trailed. */
  ghost predicate SomeInScope(subs: seq<Submission>, sub: Submission, ids: seq<nat>, n: nat)
    requires n <= |ids|
  {
    n > 0 && (SomeInScope(subs, sub, ids, n - 1) || (Names(sub, ids[n - 1]) && !TrailsFor(subs, sub, ids[n - 1])))
  }

  lemma {:induction false} SomeInScopeAt(subs: seq<Submission>, sub: Submission, ids: seq<nat>, n: nat, k: nat)
    requires k < n <= |ids| && Names(sub, ids[k]) && !TrailsFor(subs, sub, ids[k])
    ensures SomeInScope(subs, sub, ids, n)
  {
    if k < n - 1 {
      SomeInScopeAt(subs, sub, ids, n - 1, k);
    }
  }

  lemma {:induction false} SomeInScopeIs(subs: seq<Submission>, sub: Submission, ids: seq<nat>, n: nat) returns (j: nat)
    requires n <= |ids| && SomeInScope(subs, sub, ids, n)
    ensures j < |sub.lines| && !TrailsFor(subs, sub, sub.lines[j].itemID)
  {
    if SomeInScope(subs, sub, ids, n - 1) {
      j := SomeInScopeIs(subs, sub, ids, n - 1);
    } else {
      j :| 0 <= j < |sub.lines| && sub.lines[j].itemID == ids[n - 1];
    }
  }

  /** The dispose takes part for exactly the items it names and does not trail. */
  ghost predicate FatesByItem(subs: seq<Submission>, i: nat, results: seq<Result<ItemResult, PlanError>>, ids: seq<nat>)
    requires i < |subs| && |ids| == |results|
  {
    forall k {:trigger results[k]} :: 0 <= k < |ids| && results[k].Ok? ==>
      (subs[i].id in results[k].value.applied <==> Names(subs[i], ids[k]) && !TrailsFor(subs, subs[i], ids[k]))
  }

  lemma {:induction false} FatesOfResolved(subs: seq<Submission>, i: nat, ids: seq<nat>, items: map<nat, Item>)
    requires DistinctSubs(subs) && i < |subs| && !subs[i].isReconcile && (forall id :: id in ids ==> id in items)
    ensures FatesByItem(subs, i, ResultsOf(Entries(subs), ids, items), ids)
  {
    forall k | 0 <= k < |ids| && Resolve(InputOf(Entries(subs), ids[k], items[ids[k]].layers)).Ok? {
      ItemFate(subs, i, ids[k], items[ids[k]].layers);
    }
  }

  /** Over the first n items. */
  lemma {:induction false} TallyFate(
    subs: seq<Submission>, i: nat, results: seq<Result<ItemResult, PlanError>>, ids: seq<nat>, n: nat)
    requires i < |subs| && n <= |ids| == |results| && FatesByItem(subs, i, results, ids)
    requires TallyItems(results, n).Ok?
    ensures Get(TallyItems(results, n).value.applied, subs[i].id) != [] <==> SomeInScope(subs, subs[i], ids, n)
  {
    if n > 0 {
      TallyFate(subs, i, results, ids, n - 1);
      var before, r := TallyItems(results, n - 1).value, results[n - 1].value;
      NotedAre(before.applied, r.itemID, r.applied, subs[i].id);
    }
  }

  /** A submission is in scope somewhere exactly when one of the planned items is named by it and not trailed. */
  lemma {:induction false} ScopeByItem(subs: seq<Submission>, ids: seq<nat>, i: nat)
    requires i < |subs| && forall id :: id in ItemsOf(Entries(subs)) ==> id in ids
    ensures InScopeSomewhere(subs, subs[i]) <==> SomeInScope(subs, subs[i], ids, |ids|)
  {
    if SomeInScope(subs, subs[i], ids, |ids|) {
      var j := SomeInScopeIs(subs, subs[i], ids, |ids|);
    }
    if InScopeSomewhere(subs, subs[i]) {
      var j :| 0 <= j < |subs[i].lines| && !TrailsFor(subs, subs[i], subs[i].lines[j].itemID);
      LineIsEntry(subs, i, j);
      ItemsAre(Entries(subs), subs[i].lines[j].itemID);
      var k :| 0 <= k < |ids| && ids[k] == subs[i].lines[j].itemID;
      SomeInScopeAt(subs, subs[i], ids, |ids|, k);
    }
  }

  lemma {:induction false} CorrectionsAre(item: nat, recs: seq<Count>, steps: seq<Step>, c: Correction)
    requires c in CorrectionsOf(item, recs, steps)
    ensures exists k {:trigger steps[k]} ::
              && 0 <= k < |steps| && steps[k].corrected && steps[k].subID == c.subID
              && c.itemID == item && c.newQty == steps[k].newQty
  {
    var front, last := steps[..|steps| - 1], steps[|steps| - 1];
    if c in CorrectionsOf(item, recs, front) {
      CorrectionsAre(item, recs, front, c);
      var k :| 0 <= k < |front| && front[k].corrected && front[k].subID == c.subID && c.itemID == item &&
        c.newQty == front[k].newQty;
      assert steps[k] == front[k];
    } else {
      assert last == steps[|steps| - 1];
    }
  }

  lemma {:induction false} StepSubs(input: ItemInput, k: nat)
    requires Resolve(input).Ok? && k < |Resolve(input).value.steps|
    ensures |Resolve(input).value.steps| == |input.recs| && Resolve(input).value.steps[k].subID == input.recs[k].subID
  {
    var s := Scope(input);
    StepsFromAt(s.recs, StartStock(s), Corrections(s), Received(s.recs, s.layers), Disposed(s.recs, s.disposes),
      |s.recs|, k);
  }

  /** Every correction of a tally comes from one of its items. */
  lemma {:induction false} CorrectionOrigin(
    results: seq<Result<ItemResult, PlanError>>, n: nat, c: Correction)
    returns (k: nat)
    requires n <= |results| && TallyItems(results, n).Ok? && c in TallyItems(results, n).value.corrections
    ensures k < n && results[k].Ok? && c in results[k].value.corrections
  {
    if c in TallyItems(results, n - 1).value.corrections {
      k := CorrectionOrigin(results, n - 1, c);
    } else {
      k := n - 1;
    }
  }

  /** Only reconcile submissions are corrected. */
  lemma {:induction false} CorrectedIsReconcile(subs: seq<Submission>, id: nat, layers: seq<Layer>, c: Correction)
    requires Resolve(InputOf(Entries(subs), id, layers)).Ok?
    requires c in CorrectionsOf(id, InputOf(Entries(subs), id, layers).recs,
             Resolve(InputOf(Entries(subs), id, layers)).value.steps)
    ensures exists a :: 0 <= a < |subs| && subs[a].id == c.subID && subs[a].isReconcile
  {
    var input := InputOf(Entries(subs), id, layers);
    var r := Resolve(input).value;
    CorrectionsAre(id, input.recs, r.steps, c);
    var k :| 0 <= k < |r.steps| && r.steps[k].corrected && r.steps[k].subID == c.subID;
    StepSubs(input, k);
    StableSortHas(CountsOf(Entries(subs), id), CountTime());
    assert input.recs[k] in input.recs;
    CountsAre(Entries(subs), id, input.recs[k]);
    var e :| e in Entries(subs) && e.isReconcile && e.itemID == id &&
      input.recs[k] == Count(e.subID, e.at, e.prev, e.qty);
    var a, b := EntryOrigin(subs, e);
  }

  /** Who is applied as is: the reconciles that were not corrected and the disposes that took part. */
  lemma {:induction false} AsIsAre(subs: seq<Submission>, t: Tally, n: nat, x: nat)
    requires n <= |subs| && AppliedAsIs(subs, t, n).Ok?
    ensures x in AppliedAsIs(subs, t, n).value <==>
            exists a {:trigger subs[a]} :: 0 <= a < n && subs[a].id == x &&
              if subs[a].isReconcile then !IsCorrected(t.corrections, x) else Get(t.applied, x) != []
  {
    if n > 0 {
      AsIsAre(subs, t, n - 1, x);
      assert subs[n - 1] == subs[n - 1];
    }
  }

  ghost function TallyOf(entries: seq<Entry>, ids: seq<nat>, items: map<nat, Item>): Result<Tally, PlanError>
    requires forall id :: id in ids ==> id in items
  {
    TallyItems(ResultsOf(entries, ids, items), |ids|)
  }

  /** The checks that come before the items are resolved. */
  ghost predicate ChecksPass(subs: seq<Submission>, items: map<nat, Item>) {
    var ids := ItemsOf(Entries(subs));
    && ReconcileCount(subs) >= 2 && ids != [] && (forall id :: id in ids ==> id in items)
    && ConsumedError(Entries(subs), ids, items) == None
  }

  lemma {:induction false} PlanIsTally(subs: seq<Submission>, items: map<nat, Item>) returns (ids: seq<nat>, t: Tally)
    requires PlanOf(subs, items).Ok?
    ensures ChecksPass(subs, items)
    ensures (forall id :: id in ids ==> id in items) && ids == StableSort(ItemsOf(Entries(subs)), Identity())
    ensures forall id :: id in ids <==> id in ItemsOf(Entries(subs))
    ensures TallyOf(Entries(subs), ids, items) == Ok(t) && Finish(subs, t) == PlanOf(subs, items)
  {
    var itemIDs := ItemsOf(Entries(subs));
    assert itemIDs[..|itemIDs|] == itemIDs;
    ids := StableSort(itemIDs, Identity());
    StableSortHas(itemIDs, Identity());
    t := TallyOf(Entries(subs), ids, items).value;
  }

  lemma {:induction false} ActiveFromTally(subs: seq<Submission>, items: map<nat, Item>, ids: seq<nat>, t: Tally)
    requires (forall id :: id in ItemsOf(Entries(subs)) ==> id in items)
    requires ConsumedError(Entries(subs), ItemsOf(Entries(subs)), items) == None
    requires ids == StableSort(ItemsOf(Entries(subs)), Identity())
    requires (forall id :: id in ids ==> id in items) && TallyOf(Entries(subs), ids, items) == Ok(t)
    ensures PlanActive(subs, items) == Finish(subs, t)
  {
    StableSortHas(ItemsOf(Entries(subs)), Identity());
  }

  lemma {:induction false} PlanFromTally(subs: seq<Submission>, items: map<nat, Item>, ids: seq<nat>, t: Tally)
    requires ChecksPass(subs, items) && ids == StableSort(ItemsOf(Entries(subs)), Identity())
    requires (forall id :: id in ids ==> id in items) && TallyOf(Entries(subs), ids, items) == Ok(t)
    ensures PlanOf(subs, items) == Finish(subs, t)
  {
    var itemIDs := ItemsOf(Entries(subs));
    assert itemIDs[..|itemIDs|] == itemIDs;
    ActiveFromTally(subs, items, ids, t);
  }

  /** What became of a submission. */
  datatype Fate = Recreated | AsIs | LeftPending

  ghost predicate HasFate(plan: Plan, id: nat, fate: Fate) {
    match fate
    case Recreated => IsCorrected(plan.corrections, id) && id !in plan.appliedAsIs
    case AsIs => !IsCorrected(plan.corrections, id) && id in plan.appliedAsIs
    case LeftPending => !IsCorrected(plan.corrections, id) && id !in plan.appliedAsIs
  }

  /** The fate that a submission's kind, the corrections and its items decide. */
  ghost function FateOf(subs: seq<Submission>, corrections: seq<Correction>, sub: Submission): Fate {
    if !sub.isReconcile then (if InScopeSomewhere(subs, sub) then AsIs else LeftPending)
    else if IsCorrected(corrections, sub.id) then Recreated
    else AsIs
  }

  /**
   In a successful plan every submission is recreated with a correction, applied as it is, or left
   pending, never two of these; and it is left pending exactly when it is a dispose that is in scope
   for none of its items.
   */
  lemma {:induction false} ExactlyOneFate(subs: seq<Submission>, items: map<nat, Item>, i: nat)
    requires DistinctSubs(subs) && PlanOf(subs, items).Ok? && i < |subs|
    ensures var plan := PlanOf(subs, items).value;
            HasFate(plan, subs[i].id, FateOf(subs, plan.corrections, subs[i]))
  {
    var ids, t := PlanIsTally(subs, items);
    var x := subs[i].id;
    AsIsAre(subs, t, |subs|, x);
    forall a | 0 <= a < |subs| && subs[a].id == x
      ensures a == i
    {
      SameSub(subs, a, i);
    }
    if !subs[i].isReconcile {
      var results := ResultsOf(Entries(subs), ids, items);
      forall c | c in t.corrections
        ensures c.subID != x
      {
        var k := CorrectionOrigin(results, |ids|, c);
        CorrectedIsReconcile(subs, ids[k], items[ids[k]].layers, c);
      }
      FatesOfResolved(subs, i, ids, items);
      TallyFate(subs, i, results, ids, |ids|);
      ScopeByItem(subs, ids, i);
    }
  }

  /**
   A plan lists its transactions by item, then date, then kind, and leaves those that are alike in all
   three in the order in which the items' resolutions made them.
   */
  lemma {:induction false} PlanTxnsInOrder(
    subs: seq<Submission>, items: map<nat, Item>, x: SyntheticTxn)
    returns (t: Tally)
    requires PlanOf(subs, items).Ok?
    ensures var ids := StableSort(ItemsOf(Entries(subs)), Identity());
            (forall id :: id in ids ==> id in items) && TallyOf(Entries(subs), ids, items) == Ok(t)
    ensures var txns, alike := PlanOf(subs, items).value.stock.txns, Alike(TxnItem(), TxnDate(), TxnKindRank(), x);
            && Pairwise(txns, ByItemDateKind()) && multiset(txns) == multiset(t.stock.txns)
            && Filter(txns, alike) == Filter(t.stock.txns, alike)
  {
    var ids;
    ids, t := PlanIsTally(subs, items);
    SortBy3Sorts(t.stock.txns, TxnItem(), TxnDate(), TxnKindRank());
    SortBy3Stable(t.stock.txns, TxnItem(), TxnDate(), TxnKindRank(), x);
  }
}

/**
 Exactly when the resolve command goes through (cmd/util/reconcile.go, loadSubmissions,
 computeResolution, applyResolution), and a request that can be previewed but not applied.
 */
module ResolveRuns {
  import opened Basics
  import opened Fifo
  import opened Windows
  import opened Resolver
  import opened Plans
  import opened Ledgers
  import opened Submissions
  import opened Planner
  import opened PlannedItems
  import opened PlanSuccess
  import opened StoreLaws
  import T = Store

  /** The request loads, has a plan, and the plan applies. */
  ghost predicate GoesThrough(s: T.State, reconcileIDs: seq<nat>, disposeIDs: seq<nat>) {
    var loaded := T.LoadSubmissions(s.subs, reconcileIDs, disposeIDs);
    && loaded.Ok? && PlanOf(loaded.value, ActiveItems(s.ledger)).Ok?
    && T.ApplyResolution(s, reconcileIDs, disposeIDs, PlanOf(loaded.value, ActiveItems(s.ledger)).value).Ok?
  }

  lemma {:induction false} LoadedPlansExactlyWhen(
    s: T.State, reconcileIDs: seq<nat>, disposeIDs: seq<nat>, loaded: seq<Submission>)
    requires Sound(s.ledger) && T.LoadSubmissions(s.subs, reconcileIDs, disposeIDs) == Ok(loaded)
    ensures PlanOf(loaded, ActiveItems(s.ledger)).Ok? <==> Plannable(loaded, ActiveItems(s.ledger))
  {
    LoadedSubmissions(s.subs, reconcileIDs, disposeIDs, loaded);
    LoadedItemsAreGood(s.ledger);
    PlansExactlyWhen(loaded, ActiveItems(s.ledger));
  }

  /** The command goes through exactly when nothing is requested twice and what is loaded can be planned. */
  lemma {:induction false} ResolveGoesThroughExactlyWhen(s: T.State, reconcileIDs: seq<nat>, disposeIDs: seq<nat>)
    requires Sound(s.ledger)
    ensures GoesThrough(s, reconcileIDs, disposeIDs) <==>
            && Distinct(reconcileIDs + disposeIDs)
            && T.LoadSubmissions(s.subs, reconcileIDs, disposeIDs).Ok?
            && Plannable(T.LoadSubmissions(s.subs, reconcileIDs, disposeIDs).value, ActiveItems(s.ledger))
  {
    var loaded := T.LoadSubmissions(s.subs, reconcileIDs, disposeIDs);
    if loaded.Ok? {
      LoadedPlansExactlyWhen(s, reconcileIDs, disposeIDs, loaded.value);
      var plan := PlanOf(loaded.value, ActiveItems(s.ledger));
      if plan.Ok? {
        PreviewedPlanApplies(s, reconcileIDs, disposeIDs, loaded.value, plan.value);
      }
    }
  }

  // ----- a submission requested twice -----

  /** A pending reconcile that counts nothing of item 1. */
  ghost predicate EmptyCount(row: T.SubRow, at: Instant) {
    && row.kind == T.Reconcile && row.at == at && row.approval == T.Pending && !row.deleted
    && row.lines == [T.PayloadLine(1, Some(0.0), 0.0)]
  }

  /** An item without stock and two reconciles that say so. */
  ghost predicate EmptyStock(s: T.State) {
    && s.ledger == Ledger(map[1 := ItemRow(0.0, true)], [], 1)
    && 1 in s.subs && 2 in s.subs && EmptyCount(s.subs[1], 10) && EmptyCount(s.subs[2], 20)
  }

  /** The two reconciles as they are loaded. */
  ghost predicate EmptySubs(subs: seq<Submission>) {
    && |subs| == 2
    && subs[0] == Submission(1, 10, true, [Line(1, 0.0, 0.0)])
    && subs[1] == Submission(2, 20, true, [Line(1, 0.0, 0.0)])
  }

  lemma {:induction false} EmptyCountLoads(subs: map<nat, T.SubRow>, id: nat, at: Instant)
    requires id in subs && EmptyCount(subs[id], at)
    ensures T.LoadOne(subs, id, T.Reconcile) == Ok(Submission(id, at, true, [Line(1, 0.0, 0.0)]))
  {
    assert T.ParseLines(subs[id].lines, false) == [Line(1, 0.0, 0.0)];
  }

  lemma {:induction false} TwoLoad(subs: map<nat, T.SubRow>, ids: seq<nat>, recs: seq<nat>, loaded: seq<Submission>)
    requires |ids| == |loaded| == 2 && ids[0] in recs && ids[1] in recs
    requires T.LoadOne(subs, ids[0], T.Reconcile) == Ok(loaded[0])
    requires T.LoadOne(subs, ids[1], T.Reconcile) == Ok(loaded[1])
    ensures T.LoadAll(subs, ids, recs, |ids|) == Ok(loaded)
  {
    assert T.LoadAll(subs, ids, recs, 0).value == [];
    assert T.LoadAll(subs, ids, recs, 1).value == [loaded[0]];
    assert T.LoadAll(subs, ids, recs, 2).value == loaded;
  }

  lemma {:induction false} EmptySubsLoad(s: T.State, recs: seq<nat>, loaded: seq<Submission>)
    requires EmptyStock(s) && EmptySubs(loaded) && (recs == [1, 2] || recs == [1, 2, 2])
    ensures T.LoadSubmissions(s.subs, recs, []) == Ok(loaded)
  {
    var ids := T.Dedup(recs);
    assert recs + [] == recs;
    DedupTwo(recs);
    assert recs[0] == 1 && recs[1] == 2;
    EmptyCountLoads(s.subs, 1, 10);
    EmptyCountLoads(s.subs, 2, 20);
    TwoLoad(s.subs, ids, recs, loaded);
    StableSortSorted(loaded, T.SubId());
    StableSortSorted(loaded, SubTime());
  }

  lemma {:induction false} DedupTwo(ids: seq<nat>)
    requires ids == [1, 2] || ids == [1, 2, 2]
    ensures T.Dedup(ids) == [1, 2]
  {
    T.DedupStep([], 1);
    T.DedupStep([1], 2);
    T.DedupStep([1, 2], 2);
    assert [] + [1] == [1] && [1] + [2] == [1, 2] && [1, 2] + [2] == [1, 2, 2];
  }

  lemma {:induction false} OneEntry(sub: Submission)
    requires |sub.lines| == 1
    ensures SubEntries(sub, 1) == [EntryOf(sub, sub.lines[0])]
  {
    assert SubEntries(sub, 0) == [];
  }

  lemma {:induction false} EmptyEntries(subs: seq<Submission>)
    requires EmptySubs(subs)
    ensures Entries(subs) == [Entry(1, 10, true, 1, 0.0, 0.0)] + [Entry(2, 20, true, 1, 0.0, 0.0)]
  {
    var first := subs[..1];
    assert first[..0] == [];
    OneEntry(subs[0]);
    OneEntry(subs[1]);
    assert Entries(first) == SubEntries(subs[0], 1);
  }

  /** The counts of one more reconcile line of an item. */
  lemma {:induction false} OneMoreCount(entries: seq<Entry>, e: Entry)
    requires e.isReconcile && e.itemID == 1 && (entries == [] || ItemsOf(entries) == [1])
    ensures CountsOf(entries + [e], 1) == CountsOf(entries, 1) + [Count(e.subID, e.at, e.prev, e.qty)]
    ensures DisposesOf(entries + [e], 1) == DisposesOf(entries, 1) && ItemsOf(entries + [e]) == [1]
  {
    CollectStep(entries, e, 1);
  }

  lemma {:induction false} TwoCounts(entries: seq<Entry>, e: Entry, e': Entry)
    requires e.isReconcile && e'.isReconcile && e.itemID == e'.itemID == 1 && entries == [e] + [e']
    ensures CountsOf(entries, 1) == [Count(e.subID, e.at, e.prev, e.qty), Count(e'.subID, e'.at, e'.prev, e'.qty)]
    ensures DisposesOf(entries, 1) == [] && ItemsOf(entries) == [1]
  {
    OneMoreCount([], e);
    assert [] + [e] == [e];
    OneMoreCount([e], e');
  }

  /** The input of an item with two counts, in order, and nothing else. */
  lemma {:induction false} TwoCountInput(entries: seq<Entry>, counts: seq<Count>)
    requires CountsOf(entries, 1) == counts && DisposesOf(entries, 1) == [] && SortedBy(counts, CountTime())
    ensures InputOf(entries, 1, []) == ItemInput(1, counts, [], [])
  {
    StableSortSorted(counts, CountTime());
    StableSortSorted([], DisposeTime());
  }

  /** What the resolver gets for the item. */
  lemma {:induction false} EmptyInput(subs: seq<Submission>, items: map<nat, Item>)
    requires EmptySubs(subs) && 1 in items && items[1].layers == []
    ensures ItemsOf(Entries(subs)) == [1]
    ensures InputFor(subs, items, 1) == ItemInput(1, [Count(1, 10, 0.0, 0.0), Count(2, 20, 0.0, 0.0)], [], [])
  {
    EmptyEntries(subs);
    TwoCounts(Entries(subs), Entry(1, 10, true, 1, 0.0, 0.0), Entry(2, 20, true, 1, 0.0, 0.0));
    TwoCountInput(Entries(subs), [Count(1, 10, 0.0, 0.0), Count(2, 20, 0.0, 0.0)]);
  }

  lemma {:induction false} EmptyIsResolvable(input: ItemInput)
    requires input == ItemInput(1, [Count(1, 10, 0.0, 0.0), Count(2, 20, 0.0, 0.0)], [], [])
    ensures Resolvable(input)
  {
    assert StockBy([], 10) == 0.0 && DisposalsBy([], 10) == 0.0;
    assert StockBy([], 20) == 0.0 && DisposalsBy([], 20) == 0.0;
  }

  lemma {:induction false} EmptyIsPlannable(subs: seq<Submission>, items: map<nat, Item>)
    requires EmptySubs(subs) && 1 in items && items[1].layers == []
    ensures Plannable(subs, items)
  {
    EmptyTwo(subs);
    EmptyInput(subs, items);
    EmptyIsResolvable(InputFor(subs, items, 1));
    OnlyOneMentioned(subs);
    OneItemPlannable(subs, items);
  }

  lemma {:induction false} EmptyTwo(subs: seq<Submission>)
    requires EmptySubs(subs)
    ensures TwoReconciles(subs)
  {
    assert subs[0].isReconcile && subs[1].isReconcile;
  }

  lemma {:induction false} OneItemPlannable(subs: seq<Submission>, items: map<nat, Item>)
    requires TwoReconciles(subs) && forall id :: Mentioned(subs, id) <==> id == 1
    requires forall i {:trigger subs[i]} :: 0 <= i < |subs| ==> subs[i].isReconcile
    requires 1 in items && items[1].layers == [] && Resolvable(InputFor(subs, items, 1))
    ensures Plannable(subs, items)
  {
    assert Mentioned(subs, 1);
    assert ItemReady(subs, items, 1);
  }

  lemma {:induction false} OnlyOneMentioned(subs: seq<Submission>)
    requires ItemsOf(Entries(subs)) == [1]
    ensures forall id :: Mentioned(subs, id) <==> id == 1
  {
    forall id
      ensures Mentioned(subs, id) <==> id == 1
    {
      MentionedAre(subs, id);
    }
  }

  /**
   A submission requested twice passes the preview and fails the apply: the same two reconciles, which
   go through once each, are loaded and planned, and then refused.
   */
  lemma {:induction false} RequestedTwiceIsRefused(s: T.State) returns (loaded: seq<Submission>, plan: Plan)
    requires EmptyStock(s)
    ensures Sound(s.ledger) && GoesThrough(s, [1, 2], [])
    ensures Previewed(s, [1, 2, 2], [], loaded, plan) && !GoesThrough(s, [1, 2, 2], [])
  {
    loaded := [Submission(1, 10, true, [Line(1, 0.0, 0.0)]), Submission(2, 20, true, [Line(1, 0.0, 0.0)])];
    plan := EmptyPlan(s, loaded);
    EmptySubsLoad(s, [1, 2], loaded);
    EmptySubsLoad(s, [1, 2, 2], loaded);
    TwoAreDistinct();
    PreviewedGoesThrough(s, [1, 2], loaded, plan);
    PreviewedGoesThrough(s, [1, 2, 2], loaded, plan);
  }

  lemma {:induction false} EmptyPlan(s: T.State, loaded: seq<Submission>) returns (plan: Plan)
    requires EmptyStock(s) && EmptySubs(loaded)
    ensures Sound(s.ledger) && PlanOf(loaded, ActiveItems(s.ledger)) == Ok(plan)
  {
    EmptySubsLoad(s, [1, 2], loaded);
    EmptyIsPlannable(loaded, ActiveItems(s.ledger));
    LoadedPlansExactlyWhen(s, [1, 2], [], loaded);
    plan := PlanOf(loaded, ActiveItems(s.ledger)).value;
  }

  lemma {:induction false} PreviewedGoesThrough(s: T.State, recs: seq<nat>, loaded: seq<Submission>, plan: Plan)
    requires Sound(s.ledger) && Previewed(s, recs, [], loaded, plan)
    ensures GoesThrough(s, recs, []) <==> Distinct(recs)
  {
    assert recs + [] == recs;
    PreviewedPlanApplies(s, recs, [], loaded, plan);
  }

  lemma {:induction false} TwoAreDistinct()
    ensures Distinct([1, 2]) && !Distinct([1, 2, 2])
  {
    assert [1, 2][..1] == [1] && [1, 2, 2][..2] == [1, 2];
  }
}

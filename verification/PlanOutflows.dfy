/**
 What a whole plan takes out of an item (cmd/util/reconcile.go, computeResolution): by every date the
 disposals are what the dispose lines in scope ask for, and the sells what the counts leave no room for.
 */
module PlanOutflows {
  import opened Basics
  import opened Fifo
  import opened FifoLaws
  import opened Windows
  import opened Resolver
  import opened ResolverLaws
  import opened OwnDates
  import opened Outflows
  import opened StepLaws
  import opened Plans
  import opened Submissions
  import opened Planner
  import opened PlannerLaws
  import opened PlannedItems
  import opened Settlement

  /** The quantity of the item's transactions of the kind, dated by T. */
  function OfKind(id: nat, kind: TxnKind, T: Instant): SyntheticTxn -> real {
    (t: SyntheticTxn) => if t.itemID == id && t.kind == kind && t.at <= T then t.quantity else 0.0
  }

  function LineQty(id: nat): Line -> real {
    (l: Line) => if l.itemID == id then l.qty else 0.0
  }

  /** What a dispose submission dated by T asks for of the item. */
  function AskedOf(id: nat, T: Instant): Submission -> real {
    (s: Submission) => if !s.isReconcile && s.at <= T then SumBy(s.lines, LineQty(id)) else 0.0
  }

  // ----- the requests of an item -----

  function EntryAsks(id: nat, T: Instant): Entry -> real {
    (e: Entry) => if !e.isReconcile && e.itemID == id && e.at <= T then e.qty else 0.0
  }

  lemma {:induction false} DisposesAsked(entries: seq<Entry>, id: nat, T: Instant)
    ensures DisposalsBy(DisposesOf(entries, id), T) == SumBy(entries, EntryAsks(id, T))
  {
    if entries != [] {
      var front, e := entries[..|entries| - 1], entries[|entries| - 1];
      DisposesAsked(front, id, T);
      if !e.isReconcile && e.itemID == id {
        SumSnoc(DisposesOf(front, id), Dispose(e.subID, e.at, e.qty), DisposedBy(T));
      }
    }
  }

  lemma {:induction false} SubAsks(sub: Submission, n: nat, id: nat, T: Instant)
    requires n <= |sub.lines|
    ensures SumBy(SubEntries(sub, n), EntryAsks(id, T))
         == if !sub.isReconcile && sub.at <= T then SumBy(sub.lines[..n], LineQty(id)) else 0.0
  {
    if n > 0 {
      SubAsks(sub, n - 1, id, T);
      SumSnoc(SubEntries(sub, n - 1), EntryOf(sub, sub.lines[n - 1]), EntryAsks(id, T));
      SumStep(sub.lines, n - 1, LineQty(id));
    }
  }

  lemma {:induction false} EntriesAsk(subs: seq<Submission>, id: nat, T: Instant)
    ensures SumBy(Entries(subs), EntryAsks(id, T)) == SumBy(subs, AskedOf(id, T))
  {
    if subs != [] {
      var front, sub := subs[..|subs| - 1], subs[|subs| - 1];
      EntriesAsk(front, id, T);
      SumConcat(Entries(front), SubEntries(sub, |sub.lines|), EntryAsks(id, T));
      SubAsks(sub, |sub.lines|, id, T);
      assert sub.lines[..|sub.lines|] == sub.lines;
    }
  }

  lemma {:induction false} InputAsks(subs: seq<Submission>, items: map<nat, Item>, id: nat, T: Instant)
    requires id in items
    ensures DisposalsBy(InputFor(subs, items, id).disposes, T) == SumBy(subs, AskedOf(id, T))
  {
    var disposes := DisposesOf(Entries(subs), id);
    StableSortSorts(disposes, DisposeTime());
    SumPermuted(StableSort(disposes, DisposeTime()), disposes, DisposedBy(T));
    DisposesAsked(Entries(subs), id, T);
    EntriesAsk(subs, id, T);
  }

  /** Where the item's resolution ends, no later than T. */
  function Cutoff(recs: seq<Count>, T: Instant): Instant {
    if recs != [] && LastAt(recs) < T then LastAt(recs) else T
  }

  lemma {:induction false} ScopeAsks(input: ItemInput, T: Instant)
    ensures DisposalsBy(Scope(input).disposes, T) == DisposalsBy(input.disposes, Cutoff(input.recs, T))
  {
    if input.recs != [] {
      var cut := Cutoff(input.recs, T);
      SumFiltered(input.disposes, RequestedBy(LastAt(input.recs)), DisposedBy(cut));
      SumAgree(Scope(input).disposes, DisposedBy(cut), DisposedBy(T));
    }
  }

  // ----- from the items to the plan -----

  lemma {:induction false} OfItemResult(r: ItemResult, id: nat, kind: TxnKind, T: Instant)
    requires forall t :: t in r.stock.txns ==> t.itemID == r.itemID
    ensures r.itemID != id ==> SumBy(r.stock.txns, OfKind(id, kind, T)) == 0.0
  {
    if r.itemID != id {
      SumZero(r.stock.txns, OfKind(id, kind, T));
    }
  }

  /** Each result's transactions are of its own item. */
  ghost predicate OwnTxns(results: seq<Result<ItemResult, PlanError>>, ids: seq<nat>)
    requires |ids| == |results|
  {
    forall k {:trigger results[k]} :: 0 <= k < |ids| && results[k].Ok? ==>
      results[k].value.itemID == ids[k] && forall t :: t in results[k].value.stock.txns ==> t.itemID == ids[k]
  }

  lemma {:induction false} TallyOfKind(
    results: seq<Result<ItemResult, PlanError>>, ids: seq<nat>, n: nat, k: nat, kind: TxnKind, T: Instant)
    requires n <= |ids| == |results| && k < |ids| && Distinct(ids) && OwnTxns(results, ids)
    requires TallyItems(results, n).Ok? && results[k].Ok?
    ensures SumBy(TallyItems(results, n).value.stock.txns, OfKind(ids[k], kind, T))
         == if k < n then SumBy(results[k].value.stock.txns, OfKind(ids[k], kind, T)) else 0.0
  {
    if n > 0 {
      TallyStock(results, n);
      TallyOfKind(results, ids, n - 1, k, kind, T);
      SumConcat(TallyItems(results, n - 1).value.stock.txns, results[n - 1].value.stock.txns, OfKind(ids[k], kind, T));
      OfItemResult(results[n - 1].value, ids[k], kind, T);
      DistinctIndex(ids, k, n - 1);
    }
  }

  lemma {:induction false} TallyStock(results: seq<Result<ItemResult, PlanError>>, n: nat)
    requires 0 < n <= |results| && TallyItems(results, n).Ok?
    ensures TallyItems(results, n - 1).Ok? && results[n - 1].Ok?
    ensures TallyItems(results, n).value.stock.txns
         == TallyItems(results, n - 1).value.stock.txns + results[n - 1].value.stock.txns
  {
  }

  lemma {:induction false} ResolutionOfKind(input: ItemInput, kind: TxnKind, T: Instant)
    requires WellFormed(input) && Resolve(input).Ok?
    ensures var r := Resolve(input).value;
            SumBy(r.sells + r.disposals, OfKind(input.itemID, kind, T))
              == SumBy(if kind == Sell then r.sells else r.disposals, TakenBy(T))
  {
    var r, f := Resolve(input).value, OfKind(input.itemID, kind, T);
    SellsAreDropsAndDisposalsRequests(input, T);
    SumConcat(r.sells, r.disposals, f);
    if kind == Sell {
      SumAgree(r.sells, f, TakenBy(T));
      SumZero(r.disposals, f);
    } else {
      SumZero(r.sells, f);
      SumAgree(r.disposals, f, TakenBy(T));
    }
  }

  lemma {:induction false} ResultsOwn(subs: seq<Submission>, ids: seq<nat>, items: map<nat, Item>)
    requires GoodLedgers(items) && forall id :: id in ids ==> id in items
    ensures OwnTxns(ResultsOf(Entries(subs), ids, items), ids)
  {
    forall k | 0 <= k < |ids| && Resolve(InputFor(subs, items, ids[k])).Ok?
      ensures var r := Resolve(InputFor(subs, items, ids[k])).value;
              forall t :: t in r.sells + r.disposals ==> t.itemID == ids[k]
    {
      assert ids[k] in ids;
      InputWellFormed(Entries(subs), ids[k], items[ids[k]]);
      SellsAreDropsAndDisposalsRequests(InputFor(subs, items, ids[k]), 0);
    }
  }

  lemma {:induction false} TallyHasResult(
    subs: seq<Submission>, ids: seq<nat>, items: map<nat, Item>, k: nat, kind: TxnKind, T: Instant)
    requires GoodLedgers(items) && (forall id :: id in ids ==> id in items) && Distinct(ids) && k < |ids|
    requires TallyOf(Entries(subs), ids, items).Ok? && Resolve(InputFor(subs, items, ids[k])).Ok?
    ensures var r := Resolve(InputFor(subs, items, ids[k])).value;
            SumBy(TallyOf(Entries(subs), ids, items).value.stock.txns, OfKind(ids[k], kind, T))
              == SumBy(r.sells + r.disposals, OfKind(ids[k], kind, T))
  {
    ResultsOwn(subs, ids, items);
    TallyOfKind(ResultsOf(Entries(subs), ids, items), ids, |ids|, k, kind, T);
  }

  lemma {:induction false} TallyOfPlan(subs: seq<Submission>, items: map<nat, Item>, id: nat)
    returns (ids: seq<nat>, t: Tally, k: nat)
    requires GoodLedgers(items) && PlanOf(subs, items).Ok? && Mentioned(subs, id)
    ensures (forall x :: x in ids ==> x in items) && Distinct(ids) && k < |ids| && ids[k] == id
    ensures TallyOf(Entries(subs), ids, items) == Ok(t) && Resolve(InputFor(subs, items, id)).Ok?
    ensures multiset(PlanOf(subs, items).value.stock.txns) == multiset(t.stock.txns)
  {
    ids, t := PlanIsTally(subs, items);
    MentionedAre(subs, id);
    k :| 0 <= k < |ids| && ids[k] == id;
    TallyNeedsAll(ResultsOf(Entries(subs), ids, items), |ids|);
    ResultMakes(subs, ids, items, k);
    ItemsDistinct(Entries(subs));
    StableSortDistinct(ItemsOf(Entries(subs)), Identity());
    SortKeepsAll(t.stock.txns);
  }

  /** A plan's transactions of an item are those of its resolution. */
  lemma {:induction false} PlanOfKind(subs: seq<Submission>, items: map<nat, Item>, id: nat, kind: TxnKind, T: Instant)
    requires GoodLedgers(items) && PlanOf(subs, items).Ok? && Mentioned(subs, id)
    ensures id in items && WellFormed(InputFor(subs, items, id)) && Resolve(InputFor(subs, items, id)).Ok?
    ensures var r := Resolve(InputFor(subs, items, id)).value;
            SumBy(PlanOf(subs, items).value.stock.txns, OfKind(id, kind, T))
              == SumBy(if kind == Sell then r.sells else r.disposals, TakenBy(T))
  {
    var ids, t, k := TallyOfPlan(subs, items, id);
    assert ids[k] in ids;
    InputWellFormed(Entries(subs), id, items[id]);
    TallyHasResult(subs, ids, items, k, kind, T);
    SumPermuted(PlanOf(subs, items).value.stock.txns, t.stock.txns, OfKind(id, kind, T));
    ResolutionOfKind(InputFor(subs, items, id), kind, T);
  }

  // ----- the plan -----

  /**
   By every date the plan's disposals of an item add up to what the dispose lines dated by then ask for,
   as far as they do not trail the item's last count.
   */
  lemma {:induction false} PlanDisposals(subs: seq<Submission>, items: map<nat, Item>, id: nat, T: Instant)
    requires GoodLedgers(items) && PlanOf(subs, items).Ok? && Mentioned(subs, id)
    ensures id in items
    ensures SumBy(PlanOf(subs, items).value.stock.txns, OfKind(id, Disposal, T))
         == SumBy(subs, AskedOf(id, Cutoff(InputFor(subs, items, id).recs, T)))
  {
    PlanOfKind(subs, items, id, Disposal, T);
    var input := InputFor(subs, items, id);
    SellsAreDropsAndDisposalsRequests(input, T);
    ScopeAsks(input, T);
    InputAsks(subs, items, id, Cutoff(input.recs, T));
  }

  lemma {:induction false} DropsByCount(s: ItemInput, m: nat)
    requires InScope(s) && LastOfInstant(s.recs, m)
    ensures var T := s.recs[m].at;
            SumBy(Steps(s), DropBy(T)) == StockBy(s.layers, T) - DisposalsBy(s.disposes, T) - Corrections(s)[m]
  {
    StepDates(s);
    DropsByInstant(s.recs, Steps(s), m);
    DropsTelescope(s, m);
  }

  lemma {:induction false} SellsByCount(input: ItemInput, m: nat)
    requires WellFormed(input) && LastOfInstant(input.recs, m) && Resolve(input).Ok?
    ensures |Resolve(input).value.steps| == |input.recs|
    ensures var r, T := Resolve(input).value, input.recs[m].at;
            SumBy(r.sells, TakenBy(T)) == StockBy(input.layers, T) - DisposalsBy(input.disposes, T) - r.steps[m].newQty
  {
    ResolvedIsInScope(input);
    SellsAreDropsAndDisposalsRequests(input, input.recs[m].at);
    ResolvedSteps(input);
    StepReports(Scope(input), m);
    DropsByCount(Scope(input), m);
    ScopeBooks(input, m);
  }

  /**
   By the date of every count the plan's sells of the item add up to what had been received less what was
   disposed of and less the corrected count, and no sell has another date than a count's.
   */
  lemma {:induction false} PlanSells(subs: seq<Submission>, items: map<nat, Item>, id: nat, m: nat)
    requires GoodLedgers(items) && PlanOf(subs, items).Ok? && Mentioned(subs, id)
    requires id in items && LastOfInstant(InputFor(subs, items, id).recs, m)
    ensures var input := InputFor(subs, items, id); var T := input.recs[m].at;
            && Resolve(input).Ok? && |Resolve(input).value.steps| == |input.recs|
            && SumBy(PlanOf(subs, items).value.stock.txns, OfKind(id, Sell, T))
                 == StockBy(items[id].layers, T) - SumBy(subs, AskedOf(id, T)) - Resolve(input).value.steps[m].newQty
  {
    var input := InputFor(subs, items, id);
    PlanOfKind(subs, items, id, Sell, input.recs[m].at);
    SellsByCount(input, m);
    InputAsks(subs, items, id, input.recs[m].at);
  }

  // ----- totals -----

  /** Every transaction of the item is dated like one of its submissions. */
  lemma {:induction false} DatedLikeSubmission(subs: seq<Submission>, items: map<nat, Item>, id: nat, t: SyntheticTxn)
    requires id in items && MadeFor(subs, items, id, t) && WellFormed(InputFor(subs, items, id))
    ensures exists i {:trigger subs[i]} :: 0 <= i < |subs| && subs[i].at == t.at
  {
    var input := InputFor(subs, items, id);
    var ignored := ResolvedScope(input);
    var s := Scope(input);
    var events, r := EventsOf(s), Resolve(input).value;
    var e := TxnOfEvent(s.itemID, events, s.layers, if t in r.sells then Sell else Disposal, |events|, t);
    assert events[e] in events;
    EventDate(s, events[e]);
    StableSortHas(CountsOf(Entries(subs), id), CountTime());
    StableSortHas(DisposesOf(Entries(subs), id), DisposeTime());
    if c :| c in s.recs && c.at == t.at {
      CountsAre(Entries(subs), id, c);
      var entry :| entry in Entries(subs) && c == Count(entry.subID, entry.at, entry.prev, entry.qty);
      var i, j := EntryOrigin(subs, entry);
    } else {
      var d :| d in s.disposes && d.at == t.at;
      DisposesAre(Entries(subs), id, d);
      var entry :| entry in Entries(subs) && d == Dispose(entry.subID, entry.at, entry.qty);
      var i, j := EntryOrigin(subs, entry);
    }
  }

  /** The quantity of the item's transactions of the kind. */
  function AllOfKind(id: nat, kind: TxnKind): SyntheticTxn -> real {
    (t: SyntheticTxn) => if t.itemID == id && t.kind == kind then t.quantity else 0.0
  }

  /** What a dispose submission asks for of the item, unless it trails the item's last count. */
  ghost function AskedInScope(subs: seq<Submission>, id: nat): Submission -> real {
    (s: Submission) => if !s.isReconcile && !TrailsFor(subs, s, id) then SumBy(s.lines, LineQty(id)) else 0.0
  }

  lemma {:induction false} LatestDate(subs: seq<Submission>) returns (T: Instant)
    ensures forall i {:trigger subs[i]} :: 0 <= i < |subs| ==> subs[i].at <= T
  {
    if subs == [] {
      T := 0;
    } else {
      var last := subs[|subs| - 1].at;
      var before := LatestDate(subs[..|subs| - 1]);
      T := if before < last then last else before;
      forall i {:trigger subs[i]} | 0 <= i < |subs|
        ensures subs[i].at <= T
      {
        assert i < |subs| - 1 ==> subs[..|subs| - 1][i] == subs[i];
      }
    }
  }

  lemma {:induction false} AllAsked(subs: seq<Submission>, items: map<nat, Item>, id: nat, T: Instant)
    requires id in items && forall i {:trigger subs[i]} :: 0 <= i < |subs| ==> subs[i].at <= T
    ensures SumBy(subs, AskedOf(id, Cutoff(InputFor(subs, items, id).recs, T))) == SumBy(subs, AskedInScope(subs, id))
  {
    forall s | s in subs
      ensures AskedOf(id, Cutoff(RecsOf(subs, id), T))(s) == AskedInScope(subs, id)(s)
    {
      var i :| 0 <= i < |subs| && subs[i] == s;
      assert subs[i].at <= T;
    }
    SumAgree(subs, AskedOf(id, Cutoff(RecsOf(subs, id), T)), AskedInScope(subs, id));
  }

  /** All of a plan's disposals of an item add up to what the dispose lines that do not trail it ask for. */
  lemma {:induction false} PlanDisposesWhatWasAsked(subs: seq<Submission>, items: map<nat, Item>, id: nat)
    requires GoodLedgers(items) && PlanOf(subs, items).Ok? && Mentioned(subs, id)
    ensures SumBy(PlanOf(subs, items).value.stock.txns, AllOfKind(id, Disposal)) == SumBy(subs, AskedInScope(subs, id))
  {
    var txns := PlanOf(subs, items).value.stock.txns;
    var T := LatestDate(subs);
    PlanDisposals(subs, items, id, T);
    AllAsked(subs, items, id, T);
    forall t | t in txns
      ensures AllOfKind(id, Disposal)(t) == OfKind(id, Disposal, T)(t)
    {
      PlannedInTime(subs, items, t, T);
    }
    SumAgree(txns, AllOfKind(id, Disposal), OfKind(id, Disposal, T));
  }

  lemma {:induction false} PlannedInTime(subs: seq<Submission>, items: map<nat, Item>, t: SyntheticTxn, T: Instant)
    requires GoodLedgers(items) && PlanOf(subs, items).Ok? && t in PlanOf(subs, items).value.stock.txns
    requires forall i {:trigger subs[i]} :: 0 <= i < |subs| ==> subs[i].at <= T
    ensures t.at <= T
  {
    PlanTxns(subs, items, t);
    var id :| Mentioned(subs, id) && MadeFor(subs, items, id, t);
    InputWellFormed(Entries(subs), id, items[id]);
    DatedLikeSubmission(subs, items, id, t);
  }
}

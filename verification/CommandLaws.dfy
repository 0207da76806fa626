/**
 What the two commands do to the whole store (cmd/util/reconcile.go, cmd/util/dispose.go): when they go
 through, the stock tables and the submissions afterwards, and that a refused command changes nothing.
 */
module CommandLaws {
  import opened Basics
  import opened Fifo
  import opened FifoLaws
  import opened Ledgers
  import opened Bookings
  import opened Store
  import opened StoreLaws
  import opened ResolveRuns
  import opened PlannedItems
  import opened PlanSuccess
  import S = Submissions
  import P = Planner
  import D = Disposal
  import T = Transactions

  // ----- the resolve command -----

  /** The stock tables book the previewed plan. */
  lemma {:induction false} ResolveBooks(
    s: State, reconcileIDs: seq<nat>, disposeIDs: seq<nat>, loaded: seq<S.Submission>, plan: P.Plan)
    requires Sound(s.ledger) && Distinct(reconcileIDs + disposeIDs)
    requires Previewed(s, reconcileIDs, disposeIDs, loaded, plan)
    ensures BooksPlan(s.ledger, plan.stock, Execute(s, ResolveCommand(reconcileIDs, disposeIDs)).ledger)
  {
    PreviewedPlanApplies(s, reconcileIDs, disposeIDs, loaded, plan);
    var ids := ResolutionFits(s.ledger, loaded);
    ApplyBooks(s.ledger, plan.stock, ids, Execute(s, ResolveCommand(reconcileIDs, disposeIDs)).ledger);
  }

  /** A resolve command that does not go through leaves the store as it was. */
  lemma {:induction false} RefusedResolveIsIdle(s: State, reconcileIDs: seq<nat>, disposeIDs: seq<nat>)
    ensures !GoesThrough(s, reconcileIDs, disposeIDs) ==> Execute(s, ResolveCommand(reconcileIDs, disposeIDs)) == s
  {
  }

  /** A resolve command that goes through names only active items. */
  lemma {:induction false} ResolveNamesActive(s: State, reconcileIDs: seq<nat>, disposeIDs: seq<nat>, id: nat)
    requires Sound(s.ledger) && GoesThrough(s, reconcileIDs, disposeIDs)
    requires Mentioned(LoadSubmissions(s.subs, reconcileIDs, disposeIDs).value, id)
    ensures id in s.ledger.items && s.ledger.items[id].active
  {
    var loaded := LoadSubmissions(s.subs, reconcileIDs, disposeIDs).value;
    LoadedPlansExactlyWhen(s, reconcileIDs, disposeIDs, loaded);
    assert ItemReady(loaded, ActiveItems(s.ledger), id);
    LoadedItems(s.ledger, id);
  }

  // ----- the dispose command -----

  /** What a row that brought stock still holds of it at T. */
  function LeftBy(item: nat, at: Instant): T.Txn -> real {
    (t: T.Txn) => if BringsStock(t, item) && t.createdAt <= at then Pos(t.quantity - t.consumed) else 0.0
  }

  lemma {:induction false} RowsAvailable(txns: seq<T.Txn>, item: nat, at: Instant)
    ensures SumBy(LayerRows(txns, item), UnconsumedBy(at)) == SumBy(txns, LeftBy(item, at))
  {
    if txns != [] {
      var front, t := txns[..|txns| - 1], txns[|txns| - 1];
      RowsAvailable(front, item, at);
      if IsLayerOf(t, item) {
        SumSnoc(LayerRows(front, item), LayerOf(t), UnconsumedBy(at));
      }
    }
  }

  /** The stock of an instant, over the rows of the table. */
  lemma {:induction false} AvailableIsRows(txns: seq<T.Txn>, item: nat, at: Instant)
    ensures Available(LayersOf(txns, item), at) == SumBy(txns, LeftBy(item, at))
  {
    SortBy2Sorts(LayerRows(txns, item), LayerTime(), LayerId());
    SumPermuted(LayersOf(txns, item), LayerRows(txns, item), UnconsumedBy(at));
    RowsAvailable(txns, item, at);
  }

  /** The line names an active item that has the quantity, and had it in stock by the date. */
  ghost predicate LineCovered(g: Ledger, line: PayloadLine, at: Instant) {
    && line.itemID in g.items && g.items[line.itemID].active
    && line.quantity.Some? && 0.0 <= line.quantity.value <= g.items[line.itemID].quantity
    && line.quantity.value <= SumBy(g.txns, LeftBy(line.itemID, at))
  }

  /** The lines name different items and are all covered. */
  ghost predicate LinesFeasible(g: Ledger, lines: seq<PayloadLine>, at: Instant) {
    && lines != []
    && (forall i {:trigger lines[i]} :: 0 <= i < |lines| ==> LineCovered(g, lines[i], at))
    && (forall i, j :: 0 <= i < j < |lines| ==> lines[i].itemID != lines[j].itemID)
  }

  /** A pending dispose whose lines name different items and are all covered. */
  ghost predicate Disposable(s: State, subID: nat) {
    && subID in s.subs && !s.subs[subID].deleted && s.subs[subID].kind == Dispose && s.subs[subID].approval == Pending
    && LinesFeasible(s.ledger, s.subs[subID].lines, s.subs[subID].at)
  }

  lemma {:induction false} LineIsCovered(g: Ledger, lines: seq<PayloadLine>, at: Instant, i: nat)
    requires i < |lines|
    ensures var line := RequestsOf(lines)[i];
            LineCovered(g, lines[i], at) <==>
              && line.itemID in ActiveItems(g) && line.quantity.Some? && line.quantity.value >= 0.0
              && D.Covered(line.quantity.value, ActiveItems(g)[line.itemID], at)
  {
    LoadedItems(g, lines[i].itemID);
    AvailableIsRows(g.txns, lines[i].itemID, at);
  }

  /** Over payload and rows: when a dispose can be planned. */
  lemma {:induction false} DisposePlansExactlyWhen(g: Ledger, lines: seq<PayloadLine>, at: Instant)
    ensures D.PlanOf(RequestsOf(lines), ActiveItems(g), at).Ok? <==> LinesFeasible(g, lines, at)
  {
    var requests := RequestsOf(lines);
    D.PlannedExactlyWhen(requests, ActiveItems(g), at);
    forall i | 0 <= i < |lines|
      ensures requests[i].itemID == lines[i].itemID
      ensures LineCovered(g, lines[i], at) <==>
                && requests[i].itemID in ActiveItems(g)
                && requests[i].quantity.Some? && requests[i].quantity.value >= 0.0
                && D.Covered(requests[i].quantity.value, ActiveItems(g)[requests[i].itemID], at)
    {
      LineIsCovered(g, lines, at, i);
    }
    if D.GoodLines(requests) {
      forall i, j | 0 <= i < j < |lines|
        ensures lines[i].itemID != lines[j].itemID
      {
        assert requests[i].itemID != requests[j].itemID;
      }
    }
  }

  lemma {:induction false} PlannedDisposeBooks(g: Ledger, lines: seq<D.Request>, at: Instant)
    requires Sound(g) && D.PlanOf(lines, ActiveItems(g), at).Ok?
    ensures var plan := D.PlanOf(lines, ActiveItems(g), at).value.stock;
            ApplyStock(g, plan).Ok? && BooksPlan(g, plan, ApplyStock(g, plan).value)
  {
    var plan := D.PlanOf(lines, ActiveItems(g), at).value.stock;
    var ids := DisposalFits(g, lines, at);
    FittingPlanApplies(g, plan, ids, |plan.itemUpdates|);
    ApplyBooks(g, plan, ids, ApplyStock(g, plan).value);
  }

  /** The submission's row is approved and completed; every other row stands. */
  ghost predicate ApprovedOnly(s: State, after: State, subID: nat) {
    && after.subs.Keys == s.subs.Keys && after.nextSub == s.nextSub
    && forall id :: id in s.subs ==>
         && id in after.subs
         && after.subs[id] ==
              if id == subID then s.subs[id].(approval := Approved, processing := Completed) else s.subs[id]
  }

  /** The dispose plan of the submission, as the command makes it. */
  ghost function DisposePlanOf(s: State, subID: nat): Result<D.DisposePlan, D.DisposeError>
    requires subID in s.subs
  {
    D.PlanOf(RequestsOf(s.subs[subID].lines), ActiveItems(s.ledger), s.subs[subID].at)
  }

  /**
   The dispose command goes through exactly when the submission is a pending dispose whose lines are all
   covered; then its plan is booked and its row approved, and otherwise nothing changes.
   */
  lemma {:induction false} DisposeCommandIs(s: State, subID: nat)
    requires Sound(s.ledger)
    ensures Disposable(s, subID) ==>
              && DisposePlanOf(s, subID).Ok?
              && BooksPlan(s.ledger, DisposePlanOf(s, subID).value.stock, Execute(s, DisposeCommand(subID)).ledger)
              && ApprovedOnly(s, Execute(s, DisposeCommand(subID)), subID)
    ensures !Disposable(s, subID) ==> Execute(s, DisposeCommand(subID)) == s
  {
    if Live(s.subs, subID) && s.subs[subID].kind == Dispose && s.subs[subID].approval == Pending {
      var lines, at := s.subs[subID].lines, s.subs[subID].at;
      DisposePlansExactlyWhen(s.ledger, lines, at);
      if LinesFeasible(s.ledger, lines, at) {
        PlannedDisposeBooks(s.ledger, RequestsOf(lines), at);
      }
    }
  }
}

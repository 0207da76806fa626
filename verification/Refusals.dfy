/**
 Why the planners refuse (cmd/util/reconcile.go, resolveItem and computeResolution; cmd/util/dispose.go,
 computeDisposePlan): every error names the first thing that is wrong, in the order of the checks.
 */
module Refusals {
  import opened Basics
  import opened Fifo
  import opened Windows
  import opened Resolver
  import opened StepLaws
  import opened Plans
  import D = Disposal
  import L = DisposeLaws

  // ----- the resolver -----

  /** Dispose i is the first with a negative quantity. */
  ghost predicate FirstBelowZero(disposes: seq<Dispose>, i: nat) {
    i < |disposes| && disposes[i].qty < 0.0 && forall j :: 0 <= j < i ==> disposes[j].qty >= 0.0
  }

  /** Dispose i is the first that is not after the instant. */
  ghost predicate FirstNotAfter(disposes: seq<Dispose>, T: Instant, i: nat) {
    i < |disposes| && disposes[i].at <= T && forall j :: 0 <= j < i ==> disposes[j].at > T
  }

  /** Event i is the first that the layers do not cover. */
  ghost predicate FirstShort(events: seq<Event>, layers: seq<Layer>, i: nat) {
    i < |events| && Demand(events, i) <= Capacity(layers) < Demand(events, i + 1)
  }

  /** What the error of an item says. */
  ghost predicate ResolveRefusal(input: ItemInput, e: ResolveError) {
    match e
    case NegativeDispose(subID, qty) =>
      exists i: nat :: FirstBelowZero(input.disposes, i)
                       && input.disposes[i].subID == subID && input.disposes[i].qty == qty
    case DisposeOutOfScope(subID) =>
      && (forall d :: d in input.disposes ==> d.qty >= 0.0) && input.recs != []
      && exists i: nat :: FirstNotAfter(input.disposes, input.recs[0].at, i) && input.disposes[i].subID == subID
    case FirstCountAboveStart(corrected, start) =>
      && (forall d :: d in input.disposes ==> d.qty >= 0.0) && input.recs != []
      && (forall d :: d in input.disposes ==> d.at > input.recs[0].at)
      && start == StockBy(input.layers, input.recs[0].at) && corrected > start
      && (forall j: nat {:trigger NeededAt(input, j, 0)} :: j < |input.recs| ==> corrected >= NeededAt(input, j, 0))
      && (exists j: nat {:trigger NeededAt(input, j, 0)} :: j < |input.recs| && corrected == NeededAt(input, j, 0))
    case InsufficientStock(shortage) =>
      var events, layers := EventsOf(Scope(input)), Scope(input).layers;
      exists i: nat ::
        && FirstShort(events, layers, i) && shortage.at == events[i].at && shortage.isSell == events[i].isSell
        && shortage.missing == Demand(events, i + 1) - Capacity(layers)
  }

  lemma {:induction false} FirstNegativeIs(disposes: seq<Dispose>) returns (i: nat)
    requires FirstNegative(disposes).Some?
    ensures FirstBelowZero(disposes, i) && disposes[i] == FirstNegative(disposes).value
  {
    var front := disposes[..|disposes| - 1];
    if FirstNegative(front).Some? {
      i := FirstNegativeIs(front);
    } else {
      i := |front|;
      forall j | 0 <= j < i
        ensures disposes[j].qty >= 0.0
      {
        assert front[j] in front;
      }
    }
  }

  lemma {:induction false} FirstEarlyIs(disposes: seq<Dispose>, T: Instant) returns (i: nat)
    requires FirstEarly(disposes, T).Some?
    ensures FirstNotAfter(disposes, T, i) && disposes[i] == FirstEarly(disposes, T).value
  {
    var front := disposes[..|disposes| - 1];
    if FirstEarly(front, T).Some? {
      i := FirstEarlyIs(front, T);
    } else {
      i := |front|;
      forall j | 0 <= j < i
        ensures disposes[j].at > T
      {
        assert front[j] in front;
      }
    }
  }

  /** The first early dispose among those up to the last count is the first of all. */
  lemma {:induction false} FirstEarlyOfAll(disposes: seq<Dispose>, T: Instant, last: Instant)
    requires T <= last
    ensures FirstEarly(Filter(disposes, RequestedBy(last)), T) == FirstEarly(disposes, T)
  {
    if disposes != [] {
      FirstEarlyOfAll(disposes[..|disposes| - 1], T, last);
      var kept := Filter(disposes[..|disposes| - 1], RequestedBy(last));
      assert (kept + [disposes[|disposes| - 1]])[..|kept|] == kept;
    }
  }

  lemma {:induction false} UncoveredIs(layers: seq<Layer>, events: seq<Event>, e: nat) returns (i: nat)
    requires e <= |events| && Demand(events, e) <= Capacity(layers) < TotalDemand(events)
    ensures FirstShort(events, layers, i)
    ensures Uncovered(layers, events, e)
         == LedgerExhausted(events[i].at, events[i].isSell, Demand(events, i + 1) - Capacity(layers))
    decreases |events| - e
  {
    if Demand(events, e + 1) > Capacity(layers) {
      i := e;
    } else {
      i := UncoveredIs(layers, events, e + 1);
    }
  }

  lemma {:induction false} ShortageIs(input: ItemInput, ignored: seq<nat>)
    requires Settle(Scope(input), ignored).Err?
    ensures ResolveRefusal(input, Settle(Scope(input), ignored).error)
  {
    var s := Scope(input);
    var i := UncoveredIs(s.layers, EventsOf(s), 0);
  }

  lemma {:induction false} FirstCorrectionIs(input: ItemInput)
    requires SortedBy(input.recs, CountTime()) && input.recs != []
    ensures StartStock(Scope(input)) == StockBy(input.layers, input.recs[0].at)
    ensures var c := Corrections(Scope(input))[0];
            && (forall j: nat {:trigger NeededAt(input, j, 0)} :: j < |input.recs| ==> c >= NeededAt(input, j, 0))
            && (exists j: nat {:trigger NeededAt(input, j, 0)} :: j < |input.recs| && c == NeededAt(input, j, 0))
  {
    var s := Scope(input);
    CorrectionMeetsNeeds(s, 0);
    ScopeBooks(input, 0);
    forall j: nat {:trigger NeededAt(input, j, 0)} {:trigger NeededAt(s, j, 0)} | j < |input.recs|
      ensures NeededAt(s, j, 0) == NeededAt(input, j, 0)
    {
      ScopeBooks(input, j);
    }
  }

  /** A refused item is refused for the first thing wrong with it. */
  lemma {:induction false} RefusedItem(input: ItemInput)
    requires WellFormed(input)
    ensures Resolve(input).Err? ==> ResolveRefusal(input, Resolve(input).error)
  {
    if FirstNegative(input.disposes).Some? {
      var i := FirstNegativeIs(input.disposes);
    } else if input.recs == [] {
      if Settle(Scope(input), []).Err? {
        ShortageIs(input, []);
      }
    } else {
      RefusedCounts(input);
    }
  }

  lemma {:induction false} RefusedCounts(input: ItemInput)
    requires WellFormed(input) && input.recs != [] && FirstNegative(input.disposes) == None
    ensures Resolve(input).Err? ==> ResolveRefusal(input, Resolve(input).error)
  {
    var s, first := Scope(input), input.recs[0].at;
    AtMost(input.recs, 0, |input.recs| - 1);
    FirstEarlyOfAll(input.disposes, first, LastAt(input.recs));
    if FirstEarly(input.disposes, first).Some? {
      var i := FirstEarlyIs(input.disposes, first);
    } else if Corrections(s)[0] > StartStock(s) {
      FirstCorrectionIs(input);
    } else if Settle(s, Trailing(input.recs, input.disposes)).Err? {
      ShortageIs(input, Trailing(input.recs, input.disposes));
    }
  }

  // ----- the dispose planner -----

  /** Line i is the first that is not good after good ones. */
  ghost predicate FirstBad(lines: seq<D.Request>, i: nat) {
    i < |lines| && D.GoodLines(lines[..i]) && !D.GoodLines(lines[..i + 1])
  }

  /** The line of the smallest item that is not covered. */
  ghost predicate FirstUncovered(lines: seq<D.Request>, items: map<nat, Item>, at: Instant, i: nat) {
    && i < |lines| && D.GoodLines(lines) && (forall j :: 0 <= j < |lines| ==> lines[j].itemID in items)
    && !D.Covered(lines[i].quantity.value, items[lines[i].itemID], at)
    && forall j :: 0 <= j < |lines| && lines[j].itemID < lines[i].itemID ==>
         D.Covered(lines[j].quantity.value, items[lines[j].itemID], at)
  }

  /** Layer k is the first with stock that came after the submission. */
  ghost predicate FirstLateLayer(layers: seq<Layer>, at: Instant, k: nat) {
    && k < |layers| && layers[k].createdAt > at && Remaining(layers[k]) > 0.0
    && forall j :: 0 <= j < k ==> !(layers[j].createdAt > at && Remaining(layers[j]) > 0.0)
  }

  /** What the error of a dispose says. */
  ghost predicate DisposeRefusal(lines: seq<D.Request>, items: map<nat, Item>, at: Instant, e: D.DisposeError) {
    match e
    case NoItems => lines == []
    case MissingQuantity(id) => exists i: nat :: FirstBad(lines, i) && lines[i] == D.Request(id, None)
    case NegativeQuantity(id, q) => q < 0.0 && exists i: nat :: FirstBad(lines, i) && lines[i] == D.Request(id, Some(q))
    case ListedTwice(id) =>
      exists i: nat :: FirstBad(lines, i) && lines[i].itemID == id && lines[i].quantity.Some?
                       && lines[i].quantity.value >= 0.0 && exists j :: 0 <= j < i && lines[j].itemID == id
    case NoActiveItems =>
      lines != [] && D.GoodLines(lines) && forall i :: 0 <= i < |lines| ==> lines[i].itemID !in items
    case ItemNotActive(id) =>
      && D.GoodLines(lines) && id !in items
      && (exists i :: 0 <= i < |lines| && lines[i].itemID in items)
      && exists i :: 0 <= i < |lines| && lines[i].itemID == id && forall j :: 0 <= j < i ==> lines[j].itemID in items
    case ExceedsQuantity(id, requested, available) =>
      exists i: nat :: FirstUncovered(lines, items, at, i) && lines[i] == D.Request(id, Some(requested))
                       && available == items[id].quantity && requested > available
    case LayerAfterSubmission(id, layerID) =>
      exists i: nat, k: nat :: FirstUncovered(lines, items, at, i) && lines[i].itemID == id
                               && lines[i].quantity.value <= items[id].quantity
                               && FirstLateLayer(items[id].layers, at, k) && items[id].layers[k].id == layerID
    case StockExhausted(id, missing) =>
      exists i: nat :: FirstUncovered(lines, items, at, i) && lines[i].itemID == id
                       && lines[i].quantity.value <= items[id].quantity
                       && (forall k: nat :: !FirstLateLayer(items[id].layers, at, k))
                       && missing == lines[i].quantity.value - Capacity(items[id].layers)
  }

  lemma {:induction false} FirstBadIs(lines: seq<D.Request>, n: nat) returns (i: nat)
    requires n <= |lines| && D.LineError(lines, n).Some?
    ensures i < n && FirstBad(lines, i)
    ensures D.LineError(lines, i) == None && D.LineError(lines, i + 1) == D.LineError(lines, n)
  {
    if D.LineError(lines, n - 1).Some? {
      i := FirstBadIs(lines, n - 1);
    } else {
      D.NoLineError(lines, n - 1);
      D.NoLineError(lines, n);
      i := n - 1;
    }
  }

  lemma {:induction false} ListedBefore(lines: seq<D.Request>, i: nat)
    requires i < |lines| && lines[i].itemID in D.ItemIDs(lines, i)
    ensures exists j :: 0 <= j < i && lines[j].itemID == lines[i].itemID
  {
    var j :| 0 <= j < i && D.ItemIDs(lines, i)[j] == lines[i].itemID;
    assert lines[j].itemID == lines[i].itemID;
  }

  lemma {:induction false} LineErrorIs(lines: seq<D.Request>, items: map<nat, Item>, at: Instant)
    requires D.LineError(lines, |lines|).Some?
    ensures DisposeRefusal(lines, items, at, D.LineError(lines, |lines|).value)
  {
    var i := FirstBadIs(lines, |lines|);
    var line := lines[i];
    if line.quantity.None? {
      assert line == D.Request(line.itemID, None);
    } else if line.quantity.value < 0.0 {
      assert line == D.Request(line.itemID, Some(line.quantity.value));
    } else {
      ListedBefore(lines, i);
    }
  }

  lemma {:induction false} FirstInactiveIs(ids: seq<nat>, items: map<nat, Item>, n: nat) returns (i: nat)
    requires n <= |ids| && D.FirstInactive(ids, items, n).Some?
    ensures i < n && ids[i] == D.FirstInactive(ids, items, n).value && ids[i] !in items
    ensures forall j :: 0 <= j < i ==> ids[j] in items
  {
    if D.FirstInactive(ids, items, n - 1).Some? {
      i := FirstInactiveIs(ids, items, n - 1);
    } else {
      i := n - 1;
    }
  }

  lemma {:induction false} ActiveErrorIs(lines: seq<D.Request>, items: map<nat, Item>, at: Instant)
    requires lines != [] && D.GoodLines(lines) && D.ActiveError(D.ItemIDs(lines, |lines|), items).Some?
    ensures DisposeRefusal(lines, items, at, D.ActiveError(D.ItemIDs(lines, |lines|), items).value)
  {
    var ids := D.ItemIDs(lines, |lines|);
    if forall id :: id in ids ==> id !in items {
      forall i | 0 <= i < |lines|
        ensures lines[i].itemID !in items
      {
        assert ids[i] in ids;
      }
    } else {
      var id :| id in ids && id in items;
      var k :| 0 <= k < |ids| && ids[k] == id;
      assert lines[k].itemID in items;
      var i := FirstInactiveIs(ids, items, |ids|);
      assert lines[i].itemID == ids[i];
    }
  }

  lemma {:induction false} FirstLateIs(layers: seq<Layer>, at: Instant, i: nat)
    requires i <= |layers|
    requires forall j :: 0 <= j < i ==> !(layers[j].createdAt > at && Remaining(layers[j]) > 0.0)
    ensures match D.FirstLate(layers, at, i)
            case Some(id) => exists k: nat :: FirstLateLayer(layers, at, k) && layers[k].id == id
            case None => forall k: nat :: !FirstLateLayer(layers, at, k)
    decreases |layers| - i
  {
    if i < |layers| {
      if layers[i].createdAt > at && Remaining(layers[i]) > 0.0 {
        assert FirstLateLayer(layers, at, i);
      } else {
        FirstLateIs(layers, at, i + 1);
      }
    }
  }

  lemma {:induction false} ItemErrorIs(lines: seq<D.Request>, items: map<nat, Item>, at: Instant, i: nat)
    requires FirstUncovered(lines, items, at, i)
    requires D.PlanItem(lines[i].itemID, lines[i].quantity.value, items[lines[i].itemID], at).Err?
    ensures DisposeRefusal(lines, items, at,
              D.PlanItem(lines[i].itemID, lines[i].quantity.value, items[lines[i].itemID], at).error)
  {
    var id, q := lines[i].itemID, lines[i].quantity.value;
    assert lines[i] == D.Request(id, Some(q));
    if q <= items[id].quantity {
      FirstLateIs(items[id].layers, at, 0);
    }
  }

  lemma {:induction false} JoinErrorIs(plans: seq<Result<StockPlan, D.DisposeError>>, n: nat) returns (k: nat)
    requires n <= |plans| && D.JoinPlans(plans, n).Err?
    ensures k < n && plans[k].Err? && plans[k].error == D.JoinPlans(plans, n).error
    ensures forall j :: 0 <= j < k ==> plans[j].Ok?
  {
    if D.JoinPlans(plans, n - 1).Err? {
      k := JoinErrorIs(plans, n - 1);
    } else {
      D.JoinPlansOk(plans, n - 1);
      k := n - 1;
    }
  }

  lemma {:induction false} PlanErrorIs(
    lines: seq<D.Request>, items: map<nat, Item>, at: Instant, ids: seq<nat>, requested: map<nat, real>)
    requires D.GoodLines(lines) && L.ItemsOfLines(lines, ids) && requested == D.RequestedOf(lines, |lines|)
    requires forall id :: id in ids ==> id in items
    requires D.JoinPlans(D.PlansOf(ids, requested, items, at), |ids|).Err?
    ensures DisposeRefusal(lines, items, at, D.JoinPlans(D.PlansOf(ids, requested, items, at), |ids|).error)
  {
    var k := JoinErrorIs(D.PlansOf(ids, requested, items, at), |ids|);
    assert ids[k] in ids;
    var i :| 0 <= i < |lines| && lines[i].itemID == ids[k];
    D.RequestedAt(lines, |lines|, i);
    D.PlanItemOk(ids[k], requested[ids[k]], items[ids[k]], at);
    forall j | 0 <= j < |lines|
      ensures lines[j].itemID in items
      ensures lines[j].itemID < ids[k] ==> D.Covered(lines[j].quantity.value, items[lines[j].itemID], at)
    {
      assert lines[j].itemID in ids;
      var m :| 0 <= m < |ids| && ids[m] == lines[j].itemID;
      D.RequestedAt(lines, |lines|, j);
      if ids[m] < ids[k] {
        if k <= m {
          InOrder(ids, Identity(), k, m);
        }
        assert D.PlansOf(ids, requested, items, at)[m].Ok?;
        D.PlanItemOk(ids[m], requested[ids[m]], items[ids[m]], at);
      }
    }
    ItemErrorIs(lines, items, at, i);
  }

  /** A refused dispose is refused for the first thing wrong with it: the lines, the items, then item by item. */
  lemma {:induction false} RefusedDispose(lines: seq<D.Request>, items: map<nat, Item>, at: Instant)
    ensures D.PlanOf(lines, items, at).Err? ==> DisposeRefusal(lines, items, at, D.PlanOf(lines, items, at).error)
  {
    if lines != [] {
      assert lines[..|lines|] == lines;
      D.NoLineError(lines, |lines|);
      if D.LineError(lines, |lines|).Some? {
        LineErrorIs(lines, items, at);
      } else if D.ActiveError(D.ItemIDs(lines, |lines|), items).Some? {
        ActiveErrorIs(lines, items, at);
      } else {
        RefusedActive(lines, items, at);
      }
    }
  }

  lemma {:induction false} ActivePlanError(lines: seq<D.Request>, items: map<nat, Item>, at: Instant)
    returns (ids: seq<nat>)
    requires D.GoodLines(lines) && forall id :: id in D.ItemIDs(lines, |lines|) ==> id in items
    requires D.PlanActive(lines, items, at).Err?
    ensures ids == StableSort(D.ItemIDs(lines, |lines|), Identity())
    ensures (forall id :: id in ids ==> id in items) && forall id :: id in ids ==> id in D.RequestedOf(lines, |lines|)
    ensures var joined := D.JoinPlans(D.PlansOf(ids, D.RequestedOf(lines, |lines|), items, at), |ids|);
            joined.Err? && D.PlanActive(lines, items, at).error == joined.error
  {
    ids := StableSort(D.ItemIDs(lines, |lines|), Identity());
    StableSortHas(D.ItemIDs(lines, |lines|), Identity());
    D.RequestedKeys(lines, |lines|);
  }

  lemma {:induction false} RefusedActive(lines: seq<D.Request>, items: map<nat, Item>, at: Instant)
    requires D.GoodLines(lines) && forall id :: id in D.ItemIDs(lines, |lines|) ==> id in items
    ensures D.PlanActive(lines, items, at).Err? ==>
              DisposeRefusal(lines, items, at, D.PlanActive(lines, items, at).error)
  {
    if D.PlanActive(lines, items, at).Err? {
      L.LinesSorted(lines);
      var ids := ActivePlanError(lines, items, at);
      PlanErrorIs(lines, items, at, ids, D.RequestedOf(lines, |lines|));
    }
  }
}

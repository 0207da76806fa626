/**
 The planner of one standalone dispose submission (cmd/util/dispose.go, computeDisposePlan). It
 walks each item's layers oldest first, on its own terms and with a guard against backdating; it is
 proved against the closed form of Fifo and an exact feasibility condition.
 */
module Disposal {
  import opened Basics
  import opened Fifo
  import opened FifoLaws
  import opened Plans
  import opened Windows
  import opened Resolver

  /** One line of the submission's payload. */
  datatype Request = Request(itemID: nat, quantity: Option<real>)

  datatype DisposeError =
    | NoItems
    | MissingQuantity(itemID: nat)
    | NegativeQuantity(itemID: nat, quantity: real)
    | ListedTwice(itemID: nat)
    | NoActiveItems
    | ItemNotActive(itemID: nat)
    | ExceedsQuantity(itemID: nat, requested: real, available: real)
    | LayerAfterSubmission(itemID: nat, layerID: nat)
    | StockExhausted(itemID: nat, missing: real)

  // ----- the walk over one item's layers -----

  ghost function LayerUpdatesOf(layers: seq<Layer>, requested: real, n: nat): seq<LayerUpdate>
    requires n <= |layers|
  {
    if n == 0 then
      []
    else
      var rest, take := LayerUpdatesOf(layers, requested, n - 1), Share(layers, n - 1, 0.0, requested);
      if take > 0.0 then rest + [LayerUpdate(layers[n - 1].id, layers[n - 1].consumed + take)] else rest
  }

  /** The first layer from i on that still has stock and was created after the submission. */
  ghost function FirstLate(layers: seq<Layer>, at: Instant, i: nat): Option<nat>
    requires i <= |layers|
    decreases |layers| - i
  {
    if i == |layers| then None
    else if layers[i].createdAt > at && Remaining(layers[i]) > 0.0 then Some(layers[i].id)
    else FirstLate(layers, at, i + 1)
  }

  /** The walk in closed form: it succeeds exactly when the stock that existed at the submission covers the request. */
  ghost function Walk(item: nat, layers: seq<Layer>, requested: real, at: Instant): Result<StockPlan, DisposeError> {
    if requested <= Available(layers, at) then
      Ok(StockPlan(EventTxns(item, Event(at, requested, false), layers, 0.0, requested, |layers|),
                   LayerUpdatesOf(layers, requested, |layers|), []))
    else
      match FirstLate(layers, at, 0)
      case Some(layerID) => Err(LayerAfterSubmission(item, layerID))
      case None => Err(StockExhausted(item, requested - Capacity(layers)))
  }

  /** What a request of the whole line takes from layer i is the smaller of what is left to take and what it has. */
  lemma {:induction false} WalkTake(layers: seq<Layer>, i: nat, requested: real)
    requires i < |layers| && requested > Before(layers, i)
    ensures Share(layers, i, 0.0, requested) == Min(requested - Before(layers, i), Pos(Remaining(layers[i])))
    ensures Remaining(layers[i]) > 0.0 <==> Share(layers, i, 0.0, requested) > 0.0
  {
    ShareOfTotal(layers, i, requested);
  }

  lemma {:induction false} NoShareBeyond(item: nat, ev: Event, layers: seq<Layer>, requested: real, i: nat)
    requires i <= |layers| && requested <= Before(layers, i)
    ensures EventTxns(item, ev, layers, 0.0, requested, |layers|) == EventTxns(item, ev, layers, 0.0, requested, i)
    ensures LayerUpdatesOf(layers, requested, |layers|) == LayerUpdatesOf(layers, requested, i)
  {
    EventTxnsBeyond(item, ev, layers, 0.0, requested, i, |layers|);
    UpdatesBeyond(layers, requested, i, |layers|);
  }

  lemma {:induction false} UpdatesBeyond(layers: seq<Layer>, requested: real, k: nat, n: nat)
    requires k <= n <= |layers| && requested <= Before(layers, k)
    ensures LayerUpdatesOf(layers, requested, n) == LayerUpdatesOf(layers, requested, k)
  {
    if k < n {
      UpdatesBeyond(layers, requested, k, n - 1);
      BeforeMonotone(layers, k, n - 1);
    }
  }

  /** The layers before i hold nothing that came too late. */
  ghost predicate NoneLateBefore(layers: seq<Layer>, at: Instant, i: nat)
    requires i <= |layers|
  {
    FirstLate(layers, at, 0) == FirstLate(layers, at, i)
  }

  /** A late layer with stock puts all stock of the submission's date before it. */
  lemma {:induction false} LateLayerEndsStock(layers: seq<Layer>, at: Instant, i: nat)
    requires Chronological(layers) && i < |layers| && layers[i].createdAt > at
    ensures Available(layers, at) <= Before(layers, i)
  {
    var n := AvailableIsBefore(layers, at);
    BeforeMonotone(layers, n, i);
  }

  /** Stock that is not late existed at the submission. */
  lemma {:induction false} NotLateIsAvailable(layers: seq<Layer>, at: Instant, i: nat)
    requires Chronological(layers) && i <= |layers| && NoneLateBefore(layers, at, i)
    requires forall j {:trigger layers[j]} :: 0 <= j < i && Remaining(layers[j]) > 0.0 ==> layers[j].createdAt <= at
    ensures Before(layers, i) <= Available(layers, at)
  {
    var n := AvailableIsBefore(layers, at);
    if n < i {
      EmptyBetween(layers, n, i);
    } else {
      BeforeMonotone(layers, i, n);
    }
  }

  lemma {:induction false} EmptyBetween(layers: seq<Layer>, n: nat, i: nat)
    requires n <= i <= |layers|
    requires forall j {:trigger layers[j]} :: n <= j < i ==> Remaining(layers[j]) <= 0.0
    ensures Before(layers, i) == Before(layers, n)
  {
    if n < i {
      EmptyBetween(layers, n, i - 1);
    }
  }

  /** The map with each transaction's quantity added to its source's entry. */
  ghost function Accumulate(m: map<nat, real>, txns: seq<SyntheticTxn>): map<nat, real> {
    if txns == [] then
      m
    else
      var before, t := Accumulate(m, txns[..|txns| - 1]), txns[|txns| - 1];
      before[t.source := Grown(before, t.source) + t.quantity]
  }

  lemma {:induction false} AccumulateStep(m: map<nat, real>, txns: seq<SyntheticTxn>, t: SyntheticTxn)
    ensures var before := Accumulate(m, txns);
            Accumulate(m, txns + [t]) == before[t.source := Grown(before, t.source) + t.quantity]
  {
    assert (txns + [t])[..|txns|] == txns;
  }

  lemma {:induction false} AccumulateConcat(m: map<nat, real>, a: seq<SyntheticTxn>, b: seq<SyntheticTxn>)
    ensures Accumulate(m, a + b) == Accumulate(Accumulate(m, a), b)
  {
    if b == [] {
      assert a + b == a;
    } else {
      assert a + b == (a + b[..|b| - 1]) + [b[|b| - 1]];
      AccumulateStep(m, a + b[..|b| - 1], b[|b| - 1]);
      AccumulateConcat(m, a, b[..|b| - 1]);
    }
  }

  /** Where the walk is: at layer i, with so much left to take. */
  ghost predicate WalkedTo(item: nat, layers: seq<Layer>, requested: real, at: Instant, i: nat, toConsume: real,
                           txns: seq<SyntheticTxn>, updates: seq<LayerUpdate>) {
    && i <= |layers| && toConsume == requested - Min(requested, Before(layers, i))
    && txns == EventTxns(item, Event(at, requested, false), layers, 0.0, requested, i)
    && updates == LayerUpdatesOf(layers, requested, i)
    && NothingLate(layers, at, i) && NoneLateBefore(layers, at, i)
  }

  ghost predicate NothingLate(layers: seq<Layer>, at: Instant, i: nat)
    requires i <= |layers|
  {
    forall j {:trigger layers[j]} :: 0 <= j < i && Remaining(layers[j]) > 0.0 ==> layers[j].createdAt <= at
  }

  lemma {:induction false} WalkedPast(
    item: nat, layers: seq<Layer>, requested: real, at: Instant, i: nat, toConsume: real, txns: seq<SyntheticTxn>,
    updates: seq<LayerUpdate>)
    requires WalkedTo(item, layers, requested, at, i, toConsume, txns, updates) && i < |layers| && toConsume > 0.0
    requires Remaining(layers[i]) <= 0.0
    ensures WalkedTo(item, layers, requested, at, i + 1, toConsume, txns, updates)
  {
    WalkTake(layers, i, requested);
  }

  lemma {:induction false} WalkedDraw(
    item: nat, layers: seq<Layer>, requested: real, at: Instant, i: nat, toConsume: real, txns: seq<SyntheticTxn>,
    updates: seq<LayerUpdate>, take: real)
    requires WalkedTo(item, layers, requested, at, i, toConsume, txns, updates) && i < |layers| && toConsume > 0.0
    requires Remaining(layers[i]) > 0.0 && layers[i].createdAt <= at && take == Min(toConsume, Remaining(layers[i]))
    ensures WalkedTo(item, layers, requested, at, i + 1, toConsume - take,
                     txns + [SyntheticTxn(item, Disposal, take, layers[i].id, layers[i].price, at)],
                     updates + [LayerUpdate(layers[i].id, layers[i].consumed + take)])
  {
    WalkTake(layers, i, requested);
  }

  lemma {:induction false} WalkAborts(
    item: nat, layers: seq<Layer>, requested: real, at: Instant, i: nat, toConsume: real, txns: seq<SyntheticTxn>,
    updates: seq<LayerUpdate>)
    requires Chronological(layers) && WalkedTo(item, layers, requested, at, i, toConsume, txns, updates)
    requires i < |layers| && toConsume > 0.0 && Remaining(layers[i]) > 0.0 && layers[i].createdAt > at
    ensures Walk(item, layers, requested, at) == Err(LayerAfterSubmission(item, layers[i].id))
  {
    LateLayerEndsStock(layers, at, i);
  }

  lemma {:induction false} WalkEnds(
    item: nat, layers: seq<Layer>, requested: real, at: Instant, i: nat, toConsume: real, txns: seq<SyntheticTxn>,
    updates: seq<LayerUpdate>)
    requires Chronological(layers) && WalkedTo(item, layers, requested, at, i, toConsume, txns, updates)
    requires i == |layers| || toConsume <= 0.0
    ensures Walk(item, layers, requested, at)
         == if toConsume > 0.0 then Err(StockExhausted(item, toConsume)) else Ok(StockPlan(txns, updates, []))
  {
    NotLateIsAvailable(layers, at, i);
    if toConsume > 0.0 {
      AvailableWithinCapacity(layers, at);
    } else {
      NoShareBeyond(item, Event(at, requested, false), layers, requested, i);
    }
  }

  /** The FIFO walk of the source: one transaction and one layer update per layer drawn on. */
  method WalkLayers(item: nat, layers: seq<Layer>, requested: real, at: Instant, m: map<nat, real>)
    returns (r: Result<StockPlan, DisposeError>, deltas: map<nat, real>)
    requires Chronological(layers) && requested > 0.0
    ensures r == Walk(item, layers, requested, at)
    ensures r.Ok? ==> deltas == Accumulate(m, r.value.txns)
  {
    var txns: seq<SyntheticTxn>, updates: seq<LayerUpdate> := [], [];
    deltas := m;
    var toConsume := requested;
    var i := 0;
    while i < |layers| && toConsume > 0.0
      invariant WalkedTo(item, layers, requested, at, i, toConsume, txns, updates) && deltas == Accumulate(m, txns)
    {
      var src := layers[i];
      if Remaining(src) > 0.0 {
        var take := toConsume;
        if Remaining(src) < take {
          take := Remaining(src);
        }
        if src.createdAt > at {
          WalkAborts(item, layers, requested, at, i, toConsume, txns, updates);
          return Err(LayerAfterSubmission(item, src.id)), deltas;
        }
        WalkedDraw(item, layers, requested, at, i, toConsume, txns, updates, take);
        AccumulateStep(m, txns, SyntheticTxn(item, Disposal, take, src.id, src.price, at));
        txns := txns + [SyntheticTxn(item, Disposal, take, src.id, src.price, at)];
        updates := updates + [LayerUpdate(src.id, src.consumed + take)];
        deltas := deltas[src.id := Grown(deltas, src.id) + take];
        toConsume := toConsume - take;
      } else {
        WalkedPast(item, layers, requested, at, i, toConsume, txns, updates);
      }
      i := i + 1;
    }
    WalkEnds(item, layers, requested, at, i, toConsume, txns, updates);
    if toConsume > 0.0 {
      return Err(StockExhausted(item, toConsume)), deltas;
    }
    return Ok(StockPlan(txns, updates, [])), deltas;
  }

  lemma {:induction false} AvailableWithinCapacity(layers: seq<Layer>, at: Instant)
    requires Chronological(layers)
    ensures Available(layers, at) <= Capacity(layers)
  {
    var n := AvailableIsBefore(layers, at);
    BeforeMonotone(layers, n, |layers|);
  }

  // ----- the payload -----

  /** The first thing wrong with the first n lines. */
  ghost function LineError(lines: seq<Request>, n: nat): Option<DisposeError>
    requires n <= |lines|
  {
    if n == 0 then
      None
    else
      var earlier, line := LineError(lines, n - 1), lines[n - 1];
      if earlier.Some? then earlier
      else if line.quantity.None? then Some(MissingQuantity(line.itemID))
      else if line.quantity.value < 0.0 then Some(NegativeQuantity(line.itemID, line.quantity.value))
      else if line.itemID in ItemIDs(lines, n - 1) then Some(ListedTwice(line.itemID))
      else None
  }

  ghost function ItemIDs(lines: seq<Request>, n: nat): (r: seq<nat>)
    requires n <= |lines|
    ensures |r| == n && forall i :: 0 <= i < n ==> r[i] == lines[i].itemID
  {
    if n == 0 then [] else ItemIDs(lines, n - 1) + [lines[n - 1].itemID]
  }

  /** Every line names another item and a quantity that is not negative. */
  ghost predicate GoodLines(lines: seq<Request>) {
    && (forall i :: 0 <= i < |lines| ==> lines[i].quantity.Some? && lines[i].quantity.value >= 0.0)
    && (forall i, j :: 0 <= i < j < |lines| ==> lines[i].itemID != lines[j].itemID)
  }

  lemma {:induction false} NoLineError(lines: seq<Request>, n: nat)
    requires n <= |lines|
    ensures LineError(lines, n) == None <==> GoodLines(lines[..n])
  {
    if n > 0 {
      NoLineError(lines, n - 1);
      var all, front := lines[..n], lines[..n - 1];
      assert all == front + [lines[n - 1]];
      if LineError(lines, n) == None {
        forall i | 0 <= i < n - 1
          ensures all[i].itemID != all[n - 1].itemID && all[i] == front[i]
        {
          assert ItemIDs(lines, n - 1)[i] in ItemIDs(lines, n - 1);
        }
      }
      if GoodLines(all) {
        forall i | 0 <= i < n - 1
          ensures front[i] == all[i] && ItemIDs(lines, n - 1)[i] != lines[n - 1].itemID
        {
          assert all[i].itemID != all[n - 1].itemID;
        }
      }
    }
  }

  /** The requested quantity of every item that the first n lines name. */
  ghost function RequestedOf(lines: seq<Request>, n: nat): map<nat, real>
    requires n <= |lines|
  {
    if n == 0 then
      map[]
    else
      var q := lines[n - 1].quantity;
      RequestedOf(lines, n - 1)[lines[n - 1].itemID := if q.Some? then q.value else 0.0]
  }

  lemma {:induction false} RequestedKeys(lines: seq<Request>, n: nat)
    requires n <= |lines|
    ensures forall id :: id in RequestedOf(lines, n) <==> id in ItemIDs(lines, n)
  {
    if n > 0 {
      RequestedKeys(lines, n - 1);
    }
  }

  lemma {:induction false} RequestedAt(lines: seq<Request>, n: nat, i: nat)
    requires i < n <= |lines| && GoodLines(lines)
    ensures lines[i].itemID in RequestedOf(lines, n) &&
            RequestedOf(lines, n)[lines[i].itemID] == lines[i].quantity.value
  {
    if i < n - 1 {
      RequestedAt(lines, n - 1, i);
    }
  }

  method ReadLines(
    lines: seq<Request>)
    returns (error: Option<DisposeError>, requested: map<nat, real>, itemIDs: seq<nat>)
    ensures error == LineError(lines, |lines|)
    ensures error == None ==> itemIDs == ItemIDs(lines, |lines|) && requested == RequestedOf(lines, |lines|)
  {
    requested, itemIDs := map[], [];
    var i := 0;
    while i < |lines|
      invariant i <= |lines| && LineError(lines, i) == None
      invariant itemIDs == ItemIDs(lines, i) && requested == RequestedOf(lines, i)
    {
      var line := lines[i];
      RequestedKeys(lines, i);
      if line.quantity.None? {
        LineErrorStays(lines, i + 1);
        return Some(MissingQuantity(line.itemID)), requested, itemIDs;
      }
      if line.quantity.value < 0.0 {
        LineErrorStays(lines, i + 1);
        return Some(NegativeQuantity(line.itemID, line.quantity.value)), requested, itemIDs;
      }
      if line.itemID in requested {
        LineErrorStays(lines, i + 1);
        return Some(ListedTwice(line.itemID)), requested, itemIDs;
      }
      requested := requested[line.itemID := line.quantity.value];
      itemIDs := itemIDs + [line.itemID];
      i := i + 1;
    }
    error := None;
  }

  lemma {:induction false} LineErrorStays(lines: seq<Request>, n: nat)
    requires n <= |lines| && LineError(lines, n).Some?
    ensures LineError(lines, |lines|) == LineError(lines, n)
    decreases |lines| - n
  {
    if n < |lines| {
      LineErrorStays(lines, n + 1);
    }
  }

  // ----- the plan -----

  ghost function PlanItem(id: nat, requested: real, item: Item, at: Instant): Result<StockPlan, DisposeError> {
    if requested > item.quantity then
      Err(ExceedsQuantity(id, requested, item.quantity))
    else if requested <= 0.0 then
      Ok(StockPlan([], [], [ItemUpdate(id, item.quantity, item.quantity - requested)]))
    else
      match Walk(id, item.layers, requested, at)
      case Err(e) => Err(e)
      case Ok(walk) => Ok(walk.(itemUpdates := [ItemUpdate(id, item.quantity, item.quantity - requested)]))
  }

  ghost function PlansOf(ids: seq<nat>, requested: map<nat, real>, items: map<nat, Item>, at: Instant)
    : (r: seq<Result<StockPlan, DisposeError>>)
    requires forall id :: id in ids ==> id in requested && id in items
    ensures |r| == |ids|
  {
    seq(|ids|, k requires 0 <= k < |ids| => PlanItem(ids[k], requested[ids[k]], items[ids[k]], at))
  }

  /** The plan of the first n items, or the first item's failure. */
  ghost function JoinPlans(plans: seq<Result<StockPlan, DisposeError>>, n: nat): Result<StockPlan, DisposeError>
    requires n <= |plans|
  {
    if n == 0 then
      Ok(NO_CHANGE)
    else
      var earlier := JoinPlans(plans, n - 1);
      if earlier.Err? then earlier
      else if plans[n - 1].Err? then plans[n - 1]
      else Ok(Join(earlier.value, plans[n - 1].value))
  }

  ghost function FirstInactive(ids: seq<nat>, items: map<nat, Item>, n: nat): (r: Option<nat>)
    requires n <= |ids|
    ensures r == None <==> forall i :: 0 <= i < n ==> ids[i] in items
  {
    if n == 0 then None
    else
      var r := FirstInactive(ids, items, n - 1);
      if r.Some? then r else if ids[n - 1] in items then None else Some(ids[n - 1])
  }

  /** By item, then date, then source layer. */
  function InPlanOrder(txns: seq<SyntheticTxn>): seq<SyntheticTxn> {
    SortBy3(txns, TxnItem(), TxnDate(), TxnSource())
  }

  /** What is wrong with the listed items: none of them is active, or the first one that is not. */
  ghost function ActiveError(ids: seq<nat>, items: map<nat, Item>): (r: Option<DisposeError>)
    ensures ids != [] ==> (r == None <==> forall id :: id in ids ==> id in items)
  {
    if forall id :: id in ids ==> id !in items then
      assert ids != [] ==> ids[0] in ids;
      Some(NoActiveItems)
    else
      var inactive := FirstInactive(ids, items, |ids|);
      if inactive.Some? then Some(ItemNotActive(inactive.value)) else None
  }

  /** One line of the preview. */
  datatype DisposeItem = DisposeItem(itemID: nat, requested: real, current: real, resulting: real)

  datatype DisposePlan = DisposePlan(stock: StockPlan, items: seq<DisposeItem>, consumedDeltas: seq<Delta>)

  ghost function PreviewOf(ids: seq<nat>, requested: map<nat, real>, items: map<nat, Item>): (r: seq<DisposeItem>)
    requires forall id :: id in ids ==> id in requested && id in items
    ensures |r| == |ids|
  {
    seq(|ids|, k requires 0 <= k < |ids| =>
      DisposeItem(ids[k], requested[ids[k]], items[ids[k]].quantity, items[ids[k]].quantity - requested[ids[k]]))
  }

  /** The plan with its transactions in order, the preview of its items, and the deltas of its sources. */
  ghost function Completed(stock: StockPlan, preview: seq<DisposeItem>): DisposePlan {
    DisposePlan(stock.(txns := InPlanOrder(stock.txns)), preview, ListedDeltas(Accumulate(map[], stock.txns)))
  }

  ghost function PlanActive(lines: seq<Request>, items: map<nat, Item>, at: Instant): Result<DisposePlan, DisposeError>
    requires forall id :: id in ItemIDs(lines, |lines|) ==> id in items
  {
    var ids := ItemIDs(lines, |lines|);
    RequestedKeys(lines, |lines|);
    StableSortHas(ids, Identity());
    var sorted, requested := StableSort(ids, Identity()), RequestedOf(lines, |lines|);
    match JoinPlans(PlansOf(sorted, requested, items, at), |ids|)
    case Err(e) => Err(e)
    case Ok(stock) => Ok(Completed(stock, PreviewOf(sorted, requested, items)))
  }

  /** The dispose plan in closed form. */
  ghost function PlanOf(lines: seq<Request>, items: map<nat, Item>, at: Instant): Result<DisposePlan, DisposeError> {
    var bad := LineError(lines, |lines|);
    if lines == [] then
      Err(NoItems)
    else if bad.Some? then
      Err(bad.value)
    else
      var inactive := ActiveError(ItemIDs(lines, |lines|), items);
      if inactive.Some? then Err(inactive.value) else PlanActive(lines, items, at)
  }

  /** The quantity is there: in the item's quantity, and in layers that existed at the submission. */
  ghost predicate Covered(requested: real, item: Item, at: Instant) {
    requested <= item.quantity && requested <= Available(item.layers, at)
  }

  /** Every line names an active item that covers it. */
  ghost predicate Feasible(lines: seq<Request>, items: map<nat, Item>, at: Instant) {
    forall i {:trigger lines[i]} :: 0 <= i < |lines| ==>
      && lines[i].itemID in items && lines[i].quantity.Some?
      && Covered(lines[i].quantity.value, items[lines[i].itemID], at)
  }

  lemma {:induction false} PlanItemOk(id: nat, requested: real, item: Item, at: Instant)
    requires requested >= 0.0
    ensures PlanItem(id, requested, item, at).Ok? <==> Covered(requested, item, at)
  {
    SumNonNegative(item.layers, UnconsumedBy(at));
  }

  lemma {:induction false} JoinPlansOk(plans: seq<Result<StockPlan, DisposeError>>, n: nat)
    requires n <= |plans|
    ensures JoinPlans(plans, n).Ok? <==> forall k :: 0 <= k < n ==> plans[k].Ok?
  {
    if n > 0 {
      JoinPlansOk(plans, n - 1);
    }
  }

  lemma {:induction false} PlanItemsOk(ids: seq<nat>, requested: map<nat, real>, items: map<nat, Item>, at: Instant)
    requires forall id :: id in ids ==> id in requested && id in items && requested[id] >= 0.0
    ensures JoinPlans(PlansOf(ids, requested, items, at), |ids|).Ok? <==>
            forall id :: id in ids ==> Covered(requested[id], items[id], at)
  {
    var plans := PlansOf(ids, requested, items, at);
    JoinPlansOk(plans, |ids|);
    forall k | 0 <= k < |ids|
      ensures plans[k].Ok? <==> Covered(requested[ids[k]], items[ids[k]], at)
    {
      assert ids[k] in ids;
      PlanItemOk(ids[k], requested[ids[k]], items[ids[k]], at);
    }
  }

  lemma {:induction false} RequestedByLine(lines: seq<Request>, id: nat) returns (i: nat)
    requires GoodLines(lines) && id in ItemIDs(lines, |lines|)
    ensures i < |lines| && lines[i].itemID == id
    ensures id in RequestedOf(lines, |lines|) && RequestedOf(lines, |lines|)[id] == lines[i].quantity.value >= 0.0
  {
    i :| 0 <= i < |lines| && ItemIDs(lines, |lines|)[i] == id;
    RequestedAt(lines, |lines|, i);
  }

  lemma {:induction false} FeasibleByItem(lines: seq<Request>, items: map<nat, Item>, at: Instant)
    requires GoodLines(lines)
    ensures var ids, requested := ItemIDs(lines, |lines|), RequestedOf(lines, |lines|);
            Feasible(lines, items, at) <==>
              forall id :: id in ids ==> id in items && id in requested && Covered(requested[id], items[id], at)
  {
    var ids, requested := ItemIDs(lines, |lines|), RequestedOf(lines, |lines|);
    forall i | 0 <= i < |lines|
      ensures lines[i].itemID in ids && lines[i].itemID in requested &&
              requested[lines[i].itemID] == lines[i].quantity.value
    {
      RequestedAt(lines, |lines|, i);
      assert ids[i] in ids;
    }
    forall id | id in ids && Feasible(lines, items, at)
      ensures id in items && id in requested && Covered(requested[id], items[id], at)
    {
      var i := RequestedByLine(lines, id);
    }
  }

  lemma {:induction false} PlannedByItem(lines: seq<Request>, items: map<nat, Item>, at: Instant)
    requires GoodLines(lines) && forall id :: id in ItemIDs(lines, |lines|) ==> id in items
    ensures PlanActive(lines, items, at).Ok? <==> Feasible(lines, items, at)
  {
    var ids, requested := ItemIDs(lines, |lines|), RequestedOf(lines, |lines|);
    var sorted := StableSort(ids, Identity());
    StableSortHas(ids, Identity());
    forall id | id in sorted
      ensures id in requested && requested[id] >= 0.0
    {
      var i := RequestedByLine(lines, id);
    }
    PlanItemsOk(sorted, requested, items, at);
    FeasibleByItem(lines, items, at);
  }

  /**
   Exact feasibility: a plan is produced exactly when the payload is well formed and every line's
   quantity is there.
   */
  lemma {:induction false} PlannedExactlyWhen(lines: seq<Request>, items: map<nat, Item>, at: Instant)
    ensures PlanOf(lines, items, at).Ok? <==> lines != [] && GoodLines(lines) && Feasible(lines, items, at)
  {
    assert lines[..|lines|] == lines;
    NoLineError(lines, |lines|);
    if lines != [] && GoodLines(lines) {
      FeasibleByItem(lines, items, at);
      if ActiveError(ItemIDs(lines, |lines|), items) == None {
        PlannedByItem(lines, items, at);
      }
    }
  }

  // ----- the loops of the plan -----

  /** Plans one item of the submission. */
  method ComputeItem(id: nat, requested: real, item: Item, at: Instant, m: map<nat, real>)
    returns (r: Result<StockPlan, DisposeError>, deltas: map<nat, real>)
    requires Chronological(item.layers)
    ensures r == PlanItem(id, requested, item, at)
    ensures r.Ok? ==> deltas == Accumulate(m, r.value.txns)
  {
    if requested > item.quantity {
      return Err(ExceedsQuantity(id, requested, item.quantity)), m;
    }
    var update := ItemUpdate(id, item.quantity, item.quantity - requested);
    if !(requested > 0.0) {
      return Ok(StockPlan([], [], [update])), m;
    }
    r, deltas := WalkLayers(id, item.layers, requested, at, m);
    if r.Ok? {
      r := Ok(r.value.(itemUpdates := [update]));
    }
  }

  lemma {:induction false} JoinPlansFails(plans: seq<Result<StockPlan, DisposeError>>, n: nat)
    requires n <= |plans| && JoinPlans(plans, n).Err?
    ensures JoinPlans(plans, |plans|) == JoinPlans(plans, n)
    decreases |plans| - n
  {
    if n < |plans| {
      JoinPlansFails(plans, n + 1);
    }
  }

  lemma {:induction false} FirstInactiveStays(ids: seq<nat>, items: map<nat, Item>, n: nat)
    requires n <= |ids| && FirstInactive(ids, items, n).Some?
    ensures FirstInactive(ids, items, |ids|) == FirstInactive(ids, items, n)
    decreases |ids| - n
  {
    if n < |ids| {
      FirstInactiveStays(ids, items, n + 1);
    }
  }

  /** The loading step: some listed item is active, and then each of them must be. */
  method CheckActive(ids: seq<nat>, items: map<nat, Item>) returns (error: Option<DisposeError>)
    ensures error == ActiveError(ids, items)
  {
    var loaded := false;
    var i := 0;
    while i < |ids|
      invariant i <= |ids| && (loaded <==> exists j :: 0 <= j < i && ids[j] in items)
    {
      loaded := loaded || ids[i] in items;
      i := i + 1;
    }
    if !loaded {
      return Some(NoActiveItems);
    }
    i := 0;
    while i < |ids|
      invariant i <= |ids| && FirstInactive(ids, items, i) == None
    {
      if ids[i] !in items {
        FirstInactiveStays(ids, items, i + 1);
        return Some(ItemNotActive(ids[i]));
      }
      i := i + 1;
    }
    error := None;
  }

  /** computeDisposePlan: the payload, the active items, then one item after another by ascending id. */
  method ComputeDisposePlan(lines: seq<Request>, items: map<nat, Item>, at: Instant)
    returns (r: Result<DisposePlan, DisposeError>)
    requires GoodLedgers(items)
    ensures r == PlanOf(lines, items, at)
  {
    if |lines| == 0 {
      return Err(NoItems);
    }
    var error, requested, ids := ReadLines(lines);
    if error.Some? {
      return Err(error.value);
    }
    var inactive := CheckActive(ids, items);
    if inactive.Some? {
      return Err(inactive.value);
    }
    RequestedKeys(lines, |lines|);
    StableSortHas(ids, Identity());
    var stock, preview, deltas := ComputeItems(StableSort(ids, Identity()), requested, items, at);
    if stock.Err? {
      return Err(stock.error);
    }
    var listed := ListDeltas(deltas);
    return Ok(DisposePlan(stock.value.(txns := InPlanOrder(stock.value.txns)), preview, listed));
  }

  method ComputeItems(ids: seq<nat>, requested: map<nat, real>, items: map<nat, Item>, at: Instant)
    returns (r: Result<StockPlan, DisposeError>, preview: seq<DisposeItem>, deltas: map<nat, real>)
    requires GoodLedgers(items) && forall id :: id in ids ==> id in requested && id in items
    ensures r == JoinPlans(PlansOf(ids, requested, items, at), |ids|)
    ensures r.Ok? ==> preview == PreviewOf(ids, requested, items) && deltas == Accumulate(map[], r.value.txns)
  {
    ghost var plans, all := PlansOf(ids, requested, items, at), PreviewOf(ids, requested, items);
    r, preview, deltas := Ok(NO_CHANGE), [], map[];
    var i := 0;
    while i < |ids| && r.Ok?
      invariant i <= |ids| && r == JoinPlans(plans, i)
      invariant r.Ok? ==> preview == all[..i] && deltas == Accumulate(map[], r.value.txns)
    {
      var id := ids[i];
      assert id in ids;
      var p;
      p, deltas := ComputeItem(id, requested[id], items[id], at, deltas);
      JoinPlansStep(plans, i, p);
      if p.Ok? {
        AccumulateConcat(map[], r.value.txns, p.value.txns);
        preview := preview + [DisposeItem(id, requested[id], items[id].quantity, items[id].quantity - requested[id])];
        r := Ok(Join(r.value, p.value));
      } else {
        r := p;
      }
      i := i + 1;
    }
    if r.Err? {
      JoinPlansFails(plans, i);
    }
  }

  lemma {:induction false} JoinPlansStep(
    plans: seq<Result<StockPlan, DisposeError>>, i: nat, p: Result<StockPlan, DisposeError>)
    requires i < |plans| && plans[i] == p && JoinPlans(plans, i).Ok?
    ensures JoinPlans(plans, i + 1) == if p.Ok? then Ok(Join(JoinPlans(plans, i).value, p.value)) else p
  {
  }

  // ----- against the resolver -----

  lemma {:induction false} LoneDispose(item: nat, layers: seq<Layer>, d: Dispose)
    requires d.qty > 0.0
    ensures EventsOf(ItemInput(item, [], [d], layers)) == [Event(d.at, d.qty, false)]
  {
    var s, ev := ItemInput(item, [], [d], layers), Event(d.at, d.qty, false);
    assert [d][..0] == [];
    assert DisposeEvents([d]) == [ev];
    assert SellEvents(Steps(s)) + DisposeEvents([d]) == [ev];
    StableSortSorted([ev], EventTime());
  }

  /** The resolver's consumption is what the updates set for their layers, and what it was for all others. */
  ghost predicate SameConsumption(layers: seq<Layer>, updates: seq<LayerUpdate>, after: map<nat, real>) {
    && after.Keys == Ids(layers)
    && (forall u :: u in updates ==> u.layerID in after && after[u.layerID] == u.consumed)
    && (forall l :: l in layers && (forall u :: u in updates ==> u.layerID != l.id) ==>
          l.id in after && after[l.id] == l.consumed)
  }

  /**
   Two FIFO implementations, one answer: where the planner succeeds, the resolver makes the same
   disposals of the item.
   */
  lemma {:induction false} PlannerAgreesWithResolver(item: nat, layers: seq<Layer>, d: Dispose)
    requires Chronological(layers) && DistinctIds(layers) && d.qty > 0.0
    requires Walk(item, layers, d.qty, d.at).Ok?
    ensures var r := Resolve(ItemInput(item, [], [d], layers));
            && r.Ok? && r.value.sells == [] && r.value.disposals == Walk(item, layers, d.qty, d.at).value.txns
            && SameConsumption(layers, Walk(item, layers, d.qty, d.at).value.layerUpdates, r.value.consumedAfter)
  {
    var ev := Event(d.at, d.qty, false);
    LoneDispose(item, layers, d);
    assert [d][..0] == [];
    assert [ev][..0] == [];
    AvailableWithinCapacity(layers, d.at);
    assert Demand([ev], 1) == d.qty;
    assert TxnsOf(item, [ev], layers, Sell, 1) == [];
    assert TxnsOf(item, [ev], layers, Disposal, 1)
        == TxnsOf(item, [ev], layers, Disposal, 0) +
          EventTxns(item, ev, layers, Demand([ev], 0), Demand([ev], 1), |layers|);
    WalkConsumption(layers, d.qty);
  }

  lemma {:induction false} WalkConsumption(layers: seq<Layer>, requested: real)
    requires DistinctIds(layers) && requested > 0.0
    ensures SameConsumption(layers, LayerUpdatesOf(layers, requested, |layers|),
            ConsumedAfter(layers, requested, |layers|))
  {
    var updates, after := LayerUpdatesOf(layers, requested, |layers|), ConsumedAfter(layers, requested, |layers|);
    forall u | u in updates
      ensures u.layerID in after && after[u.layerID] == u.consumed
    {
      var i := UpdateOfLayer(layers, requested, |layers|, u);
      ConsumedAfterAt(layers, requested, |layers|, i);
    }
    forall l | l in layers && forall u :: u in updates ==> u.layerID != l.id
      ensures l.id in after && after[l.id] == l.consumed
    {
      var i :| 0 <= i < |layers| && layers[i] == l;
      ConsumedAfterAt(layers, requested, |layers|, i);
      if Share(layers, i, 0.0, requested) > 0.0 {
        DrawnIsUpdated(layers, requested, |layers|, i);
      }
    }
    ConsumedAfterKeys(layers, requested, |layers|);
    assert layers[..|layers|] == layers;
  }

  lemma {:induction false} ConsumedAfterKeys(layers: seq<Layer>, total: real, n: nat)
    requires n <= |layers|
    ensures ConsumedAfter(layers, total, n).Keys == Ids(layers[..n])
  {
    if n > 0 {
      ConsumedAfterKeys(layers, total, n - 1);
      IdsStep(layers, n - 1);
    }
  }

  lemma {:induction false} DrawnIsUpdated(layers: seq<Layer>, requested: real, n: nat, i: nat)
    requires i < n <= |layers| && Share(layers, i, 0.0, requested) > 0.0
    ensures exists u :: u in LayerUpdatesOf(layers, requested, n) && u.layerID == layers[i].id
  {
    if i < n - 1 {
      DrawnIsUpdated(layers, requested, n - 1, i);
      var u :| u in LayerUpdatesOf(layers, requested, n - 1) && u.layerID == layers[i].id;
      assert u in LayerUpdatesOf(layers, requested, n);
    } else {
      var u := LayerUpdate(layers[i].id, layers[i].consumed + Share(layers, i, 0.0, requested));
      assert u in LayerUpdatesOf(layers, requested, n);
    }
  }

  lemma {:induction false} UpdateOfLayer(layers: seq<Layer>, requested: real, n: nat, u: LayerUpdate) returns (i: nat)
    requires n <= |layers| && u in LayerUpdatesOf(layers, requested, n)
    ensures i < n && u == LayerUpdate(layers[i].id, layers[i].consumed + Share(layers, i, 0.0, requested))
    ensures Share(layers, i, 0.0, requested) > 0.0
  {
    if u in LayerUpdatesOf(layers, requested, n - 1) {
      i := UpdateOfLayer(layers, requested, n - 1, u);
    } else {
      i := n - 1;
    }
  }

  /**
   The resolver has no guard: a lone dispose resolves exactly when the whole ledger covers it, whenever
   its layers were created.
   */
  lemma {:induction false} ResolverIgnoresDates(item: nat, layers: seq<Layer>, d: Dispose)
    requires d.qty > 0.0
    ensures Resolve(ItemInput(item, [], [d], layers)).Ok? <==> d.qty <= Capacity(layers)
  {
    var ev := Event(d.at, d.qty, false);
    LoneDispose(item, layers, d);
    assert [d][..0] == [];
    assert [ev][..0] == [];
    assert Demand([ev], 1) == d.qty;
  }
}

/**
 The first-in-first-out consumption of stock layers by dated events
 (cmd/util/reconcile.go, the last loop of resolveItem).

 The layers are laid end to end on a line, each as long as its unconsumed stock, and the events
 likewise, each as long as its quantity. An event takes from a layer the length that the two have
 in common. The loop with its shared cursor is proved to compute exactly that.
 */
module Fifo {
  import opened Basics

  type Instant = int

  /** Unit costs are copied from layer to transaction and never computed with. */
  type Price = real

  /** A stock layer: a purchase, transfer-in, stock-up or opening-stock row. */
  datatype Layer = Layer(id: nat, createdAt: Instant, quantity: real, consumed: real, price: Price)

  datatype Event = Event(at: Instant, qty: real, isSell: bool)

  datatype TxnKind = Sell | Disposal

  datatype SyntheticTxn = SyntheticTxn(
    itemID: nat, kind: TxnKind, quantity: real, source: nat, price: Price, at: Instant)

  datatype Shortage = LedgerExhausted(at: Instant, isSell: bool, missing: real)

  datatype Consumption = Consumption(
    sells: seq<SyntheticTxn>, disposals: seq<SyntheticTxn>, consumedAfter: map<nat, real>)

  function Remaining(l: Layer): real {
    l.quantity - l.consumed
  }

  ghost predicate DistinctIds(layers: seq<Layer>) {
    forall i, j :: 0 <= i < j < |layers| ==> layers[i].id != layers[j].id
  }

  ghost function Ids(layers: seq<Layer>): set<nat> {
    if layers == [] then {} else Ids(layers[..|layers| - 1]) + {layers[|layers| - 1].id}
  }

  lemma {:induction false} IdsAre(layers: seq<Layer>, id: nat)
    ensures id in Ids(layers) <==> exists i {:trigger layers[i]} :: 0 <= i < |layers| && layers[i].id == id
  {
    if layers != [] {
      var front := layers[..|layers| - 1];
      IdsAre(front, id);
      if id in Ids(front) {
        var i :| 0 <= i < |front| && front[i].id == id;
        assert layers[i].id == id;
      }
      if i :| 0 <= i < |layers| && layers[i].id == id {
        assert i < |front| ==> front[i].id == id;
      }
    }
  }

  function LayerTime(): Layer -> int {
    (l: Layer) => l.createdAt
  }

  /** Oldest layer first. */
  ghost predicate Chronological(layers: seq<Layer>) {
    SortedBy(layers, LayerTime())
  }

  ghost predicate Positive(events: seq<Event>) {
    forall e :: e in events ==> e.qty > 0.0
  }

  // ----- the closed form -----

  /** Where layer i starts on the line: the unconsumed stock of the layers before it. */
  ghost function Before(layers: seq<Layer>, i: nat): (r: real)
    requires i <= |layers|
    ensures r >= 0.0
  {
    if i == 0 then 0.0 else Before(layers, i - 1) + Pos(Remaining(layers[i - 1]))
  }

  /** All the unconsumed stock. */
  ghost function Capacity(layers: seq<Layer>): real {
    Before(layers, |layers|)
  }

  /** Where event e starts on the line: the quantity of the events before it. */
  ghost function Demand(events: seq<Event>, e: nat): real
    requires e <= |events|
  {
    if e == 0 then 0.0 else Demand(events, e - 1) + events[e - 1].qty
  }

  ghost function TotalDemand(events: seq<Event>): real {
    Demand(events, |events|)
  }

  /** The length of [lo, hi) that lies inside [a, b). */
  ghost function Overlap(lo: real, hi: real, a: real, b: real): real {
    Pos(Min(hi, b) - Max(lo, a))
  }

  /** What a demand spanning [lo, hi) takes from layer i. */
  ghost function Share(layers: seq<Layer>, i: nat, lo: real, hi: real): real
    requires i < |layers|
  {
    Overlap(lo, hi, Before(layers, i), Before(layers, i + 1))
  }

  function KindOf(ev: Event): TxnKind {
    if ev.isSell then Sell else Disposal
  }

  function TxnFrom(item: nat, ev: Event, l: Layer, take: real): SyntheticTxn {
    SyntheticTxn(item, KindOf(ev), take, l.id, l.price, ev.at)
  }

  /** The transactions of one event spanning [lo, hi), drawn from the first n layers, oldest first. */
  ghost function EventTxns(item: nat, ev: Event, layers: seq<Layer>, lo: real, hi: real, n: nat): seq<SyntheticTxn>
    requires n <= |layers|
  {
    if n == 0 then
      []
    else
      var rest := EventTxns(item, ev, layers, lo, hi, n - 1);
      var take := Share(layers, n - 1, lo, hi);
      if take > 0.0 then
        rest + [TxnFrom(item, ev, layers[n - 1], take)]
      else
        rest
  }

  /** The transactions of the given kind that the first n events produce. */
  ghost function TxnsOf(item: nat, events: seq<Event>, layers: seq<Layer>, kind: TxnKind, n: nat): seq<SyntheticTxn>
    requires n <= |events|
  {
    if n == 0 then
      []
    else
      var rest := TxnsOf(item, events, layers, kind, n - 1);
      if KindOf(events[n - 1]) == kind then
        rest + EventTxns(item, events[n - 1], layers, Demand(events, n - 1), Demand(events, n), |layers|)
      else
        rest
  }

  /** The consumed quantity of the first n layers, by id, after a total demand of `total`. */
  ghost function ConsumedAfter(layers: seq<Layer>, total: real, n: nat): map<nat, real>
    requires n <= |layers|
  {
    if n == 0 then
      map[]
    else
      ConsumedAfter(layers, total, n - 1)[layers[n - 1].id := layers[n - 1].consumed + Share(layers, n - 1, 0.0, total)]
  }

  lemma {:induction false} ConsumedAfterAt(layers: seq<Layer>, total: real, n: nat, i: nat)
    requires i < n <= |layers| && DistinctIds(layers)
    ensures layers[i].id in ConsumedAfter(layers, total, n)
    ensures ConsumedAfter(layers, total, n)[layers[i].id] == layers[i].consumed + Share(layers, i, 0.0, total)
  {
    if i < n - 1 {
      ConsumedAfterAt(layers, total, n - 1, i);
    }
  }

  /** The failure of a demand the ledger cannot cover: the first event, from e on, that ends beyond the last layer. */
  ghost function Uncovered(layers: seq<Layer>, events: seq<Event>, e: nat): Shortage
    requires e <= |events| && Demand(events, e) <= Capacity(layers) < TotalDemand(events)
    decreases |events| - e
  {
    if Demand(events, e + 1) > Capacity(layers) then
      LedgerExhausted(events[e].at, events[e].isSell, Demand(events, e + 1) - Capacity(layers))
    else
      Uncovered(layers, events, e + 1)
  }

  /** What consuming the events does: it succeeds when the unconsumed stock covers the demand. */
  ghost function Consume(item: nat, layers: seq<Layer>, events: seq<Event>): Result<Consumption, Shortage> {
    if TotalDemand(events) > Capacity(layers) then
      Err(Uncovered(layers, events, 0))
    else
      Ok(Consumption(TxnsOf(item, events, layers, Sell, |events|),
                     TxnsOf(item, events, layers, Disposal, |events|),
                     ConsumedAfter(layers, TotalDemand(events), |layers|)))
  }

  // ----- facts about the line -----

  lemma {:induction false} BeforeMonotone(layers: seq<Layer>, i: nat, j: nat)
    requires i <= j <= |layers|
    ensures Before(layers, i) <= Before(layers, j)
  {
    if i < j {
      BeforeMonotone(layers, i, j - 1);
    }
  }

  lemma {:induction false} DemandMonotone(events: seq<Event>, i: nat, j: nat)
    requires i <= j <= |events| && Positive(events)
    ensures Demand(events, i) <= Demand(events, j)
  {
    if i < j {
      DemandMonotone(events, i, j - 1);
      assert events[j - 1] in events;
    }
  }

  /** The closed form of a layer's total consumption: the demand beyond the older layers, up to what the layer has. */
  lemma {:induction false} ShareOfTotal(layers: seq<Layer>, i: nat, total: real)
    requires i < |layers| && total >= 0.0
    ensures Share(layers, i, 0.0, total) == Min(Pos(Remaining(layers[i])), Pos(total - Before(layers, i)))
  {
  }

  /** Consumption is additive: serving [0, mid) and then [mid, hi) takes what serving [0, hi) takes. */
  lemma {:induction false} ShareSplits(layers: seq<Layer>, i: nat, lo: real, mid: real, hi: real)
    requires i < |layers| && lo <= mid <= hi
    ensures Share(layers, i, lo, hi) == Share(layers, i, lo, mid) + Share(layers, i, mid, hi)
  {
  }

  /** Strict FIFO: while an older layer has stock left, no younger one has been touched. */
  lemma {:induction false} OldestFirst(layers: seq<Layer>, i: nat, j: nat, total: real)
    requires i < j < |layers| && total >= 0.0
    requires Share(layers, j, 0.0, total) > 0.0
    ensures Share(layers, i, 0.0, total) == Pos(Remaining(layers[i]))
  {
    BeforeMonotone(layers, i + 1, j);
  }

  // ----- how the lists grow -----

  lemma {:induction false} EventTxnsEmpty(item: nat, ev: Event, layers: seq<Layer>, lo: real, n: nat)
    requires n <= |layers|
    ensures EventTxns(item, ev, layers, lo, lo, n) == []
  {
    if n > 0 {
      EventTxnsEmpty(item, ev, layers, lo, n - 1);
    }
  }

  /** Layers wholly before mid take no more when the demand grows from mid to hi. */
  lemma {:induction false} EventTxnsBelow(
    item: nat, ev: Event, layers: seq<Layer>, lo: real, mid: real, hi: real, n: nat)
    requires n <= |layers| && Before(layers, n) <= mid <= hi
    ensures EventTxns(item, ev, layers, lo, mid, n) == EventTxns(item, ev, layers, lo, hi, n)
  {
    if n > 0 {
      BeforeMonotone(layers, n - 1, n);
      EventTxnsBelow(item, ev, layers, lo, mid, hi, n - 1);
    }
  }

  /** Layers beyond hi take nothing. */
  lemma {:induction false} EventTxnsBeyond(item: nat, ev: Event, layers: seq<Layer>, lo: real, hi: real, k: nat, n: nat)
    requires k <= n <= |layers| && hi <= Before(layers, k)
    ensures EventTxns(item, ev, layers, lo, hi, n) == EventTxns(item, ev, layers, lo, hi, k)
  {
    if k < n {
      EventTxnsBeyond(item, ev, layers, lo, hi, k, n - 1);
      BeforeMonotone(layers, k, n - 1);
    }
  }

  /** A take that stays inside layer idx appends one transaction. */
  lemma {:induction false} EventTxnsGrows(
    item: nat, ev: Event, layers: seq<Layer>, lo: real, mid: real, hi: real, idx: nat)
    requires idx < |layers| && lo <= mid < hi
    requires Before(layers, idx) <= mid && hi <= Before(layers, idx + 1)
    requires mid == lo || mid <= Before(layers, idx)
    ensures EventTxns(item, ev, layers, lo, hi, |layers|)
         == EventTxns(item, ev, layers, lo, mid, |layers|)
            + [TxnFrom(item, ev, layers[idx], hi - mid)]
  {
    EventTxnsBeyond(item, ev, layers, lo, hi, idx + 1, |layers|);
    EventTxnsBeyond(item, ev, layers, lo, mid, idx + 1, |layers|);
    EventTxnsBelow(item, ev, layers, lo, mid, hi, idx);
  }

  // ----- the loop -----

  /** The books of the first n layers are right: both columns show what a demand of `served` takes. */
  ghost predicate Books(layers: seq<Layer>, remaining: seq<real>, m: map<nat, real>, served: real, n: nat)
    requires n <= |layers| == |remaining|
  {
    n == 0 ||
    var l, used := layers[n - 1], Share(layers, n - 1, 0.0, served);
    && Books(layers, remaining, m, served, n - 1)
    && remaining[n - 1] == Remaining(l) - used
    && l.id in m && m[l.id] == l.consumed + used
  }

  lemma {:induction false} BooksAt(
    layers: seq<Layer>, remaining: seq<real>, m: map<nat, real>, served: real, n: nat, i: nat)
    requires i < n <= |layers| == |remaining| && Books(layers, remaining, m, served, n)
    ensures remaining[i] == Remaining(layers[i]) - Share(layers, i, 0.0, served)
    ensures layers[i].id in m && m[layers[i].id] == layers[i].consumed + Share(layers, i, 0.0, served)
  {
    if i < n - 1 {
      BooksAt(layers, remaining, m, served, n - 1, i);
    }
  }

  /** The cursor sits in the layer that holds the point `served`. */
  ghost predicate CursorAt(layers: seq<Layer>, idx: nat, served: real) {
    idx <= |layers| && Before(layers, idx) <= served &&
    served <= Before(layers, if idx < |layers| then idx + 1 else idx)
  }

  /** Everything the loop carries from one event to the next, after a demand of `served`. */
  ghost predicate Serving(layers: seq<Layer>, remaining: seq<real>, m: map<nat, real>, idx: nat, served: real) {
    && |remaining| == |layers|
    && Books(layers, remaining, m, served, |layers|)
    && m.Keys == Ids(layers)
    && CursorAt(layers, idx, served)
  }

  /** Serving `take` more out of layer idx leaves the other layers alone. */
  lemma {:induction false} ServeFrom(layers: seq<Layer>, idx: nat, served: real, take: real, i: nat)
    requires idx < |layers| && i < |layers| && take >= 0.0
    requires Before(layers, idx) <= served && served + take <= Before(layers, idx + 1)
    ensures Share(layers, i, 0.0, served + take) == Share(layers, i, 0.0, served) + if i == idx then take else 0.0
  {
    ShareSplits(layers, i, 0.0, served, served + take);
    if i < idx {
      BeforeMonotone(layers, i + 1, idx);
    } else if idx < i {
      BeforeMonotone(layers, idx + 1, i);
    }
  }

  lemma {:induction false} BooksAfterTake(
    layers: seq<Layer>, remaining: seq<real>, m: map<nat, real>, served: real, n: nat, idx: nat, take: real)
    requires DistinctIds(layers) && n <= |layers| == |remaining| && Books(layers, remaining, m, served, n)
    requires idx < |layers| && layers[idx].id in m && take >= 0.0
    requires Before(layers, idx) <= served && served + take <= Before(layers, idx + 1)
    ensures Books(layers, remaining[idx := remaining[idx] - take],
                  m[layers[idx].id := m[layers[idx].id] + take], served + take, n)
  {
    if n > 0 {
      BooksAfterTake(layers, remaining, m, served, n - 1, idx, take);
      ServeFrom(layers, idx, served, take, n - 1);
    }
  }

  /** An exhausted layer at the cursor ends exactly where the demand served so far ends. */
  lemma {:induction false} ExhaustedAtCursor(
    layers: seq<Layer>, remaining: seq<real>, m: map<nat, real>, idx: nat, served: real)
    requires Serving(layers, remaining, m, idx, served)
    requires idx < |layers| && remaining[idx] <= 0.0
    ensures served == Before(layers, idx + 1) && Serving(layers, remaining, m, idx + 1, served)
  {
    BooksAt(layers, remaining, m, served, |layers|, idx);
    ShareOfTotal(layers, idx, served);
    if idx + 1 < |layers| {
      BeforeMonotone(layers, idx + 1, idx + 2);
    }
  }

  /** Taking `take` from the layer at the cursor keeps the books and stays in the layer. */
  lemma {:induction false} TakeAtCursor(
    layers: seq<Layer>, remaining: seq<real>, m: map<nat, real>, idx: nat, served: real, take: real)
    requires DistinctIds(layers) && Serving(layers, remaining, m, idx, served)
    requires idx < |layers| && 0.0 < take <= remaining[idx]
    ensures layers[idx].id in m && Before(layers, idx) <= served && served + take <= Before(layers, idx + 1)
    ensures Serving(layers, remaining[idx := remaining[idx] - take],
                    m[layers[idx].id := m[layers[idx].id] + take], idx, served + take)
  {
    BooksAt(layers, remaining, m, served, |layers|, idx);
    ShareOfTotal(layers, idx, served);
    BooksAfterTake(layers, remaining, m, served, |layers|, idx, take);
  }

  /** Skips the exhausted layers at the cursor. */
  method SkipExhausted(
    layers: seq<Layer>, remaining: array<real>, start: nat, ghost m: map<nat, real>, ghost served: real)
    returns (idx: nat)
    requires Serving(layers, remaining[..], m, start, served)
    ensures start <= idx && Serving(layers, remaining[..], m, idx, served)
    ensures idx < |layers| ==> remaining[idx] > 0.0
    ensures start < idx ==> remaining[start] <= 0.0 && served <= Before(layers, idx)
    ensures start < |layers| && remaining[start] <= 0.0 ==> start < idx
  {
    idx := start;
    while idx < |layers| && !(remaining[idx] > 0.0)
      invariant start <= idx && Serving(layers, remaining[..], m, idx, served)
      invariant start < idx ==> remaining[start] <= 0.0 && served <= Before(layers, idx)
    {
      ExhaustedAtCursor(layers, remaining[..], m, idx, served);
      idx := idx + 1;
    }
  }

  /** How many layers the cursor has used up. */
  ghost function UsedUp(remaining: seq<real>, idx: nat): nat {
    if idx < |remaining| && remaining[idx] <= 0.0 then idx + 1 else idx
  }

  /** One transaction: as much as is still wanted and the layer at the cursor has. */
  method DrawOnce(item: nat, ev: Event, layers: seq<Layer>, remaining: array<real>, m0: map<nat, real>, idx: nat,
                  toConsume: real, ghost lo: real, ghost at: real)
    returns (txn: SyntheticTxn, m: map<nat, real>)
    requires DistinctIds(layers) && Serving(layers, remaining[..], m0, idx, at)
    requires idx < |layers| && remaining[idx] > 0.0 && toConsume > 0.0
    requires lo <= at && (at == lo || at <= Before(layers, idx))
    modifies remaining
    ensures txn.quantity == Min(toConsume, old(remaining[idx])) && remaining[idx] == old(remaining[idx]) - txn.quantity
    ensures Serving(layers, remaining[..], m, idx, at + txn.quantity)
    ensures EventTxns(item, ev, layers, lo, at + txn.quantity, |layers|)
         == EventTxns(item, ev, layers, lo, at, |layers|) + [txn]
  {
    var take := toConsume;
    if remaining[idx] < take {
      take := remaining[idx];
    }
    var src := layers[idx];
    txn := SyntheticTxn(item, KindOf(ev), take, src.id, src.price, ev.at);
    ghost var before := remaining[..];
    TakeAtCursor(layers, before, m0, idx, at, take);
    EventTxnsGrows(item, ev, layers, lo, at, at + take, idx);
    remaining[idx] := remaining[idx] - take;
    assert remaining[..] == before[idx := before[idx] - take];
    m := m0[src.id := m0[src.id] + take];
  }

  /** Finds the next layer with stock left and draws once from it, unless the ledger is exhausted. */
  method DrawNext(item: nat, ev: Event, layers: seq<Layer>, remaining: array<real>, m0: map<nat, real>, start: nat,
                  toConsume: real, ghost lo: real, ghost at: real)
    returns (txn: Option<SyntheticTxn>, m: map<nat, real>, idx: nat)
    requires DistinctIds(layers) && toConsume > 0.0 && Serving(layers, remaining[..], m0, start, at)
    requires at == lo || (lo <= at && start < |layers| && remaining[start] <= 0.0)
    modifies remaining
    ensures txn == None ==> at == Capacity(layers)
    ensures txn.Some? ==>
              && 0.0 < txn.value.quantity <= toConsume &&
                 Serving(layers, remaining[..], m, idx, at + txn.value.quantity)
              && EventTxns(item, ev, layers, lo, at + txn.value.quantity, |layers|)
                   == EventTxns(item, ev, layers, lo, at, |layers|) + [txn.value]
              && UsedUp(old(remaining[..]), start) <= UsedUp(remaining[..], idx)
              && (txn.value.quantity < toConsume ==>
                    && idx < |layers| && remaining[idx] <= 0.0
                    && UsedUp(old(remaining[..]), start) < UsedUp(remaining[..], idx))
  {
    idx := SkipExhausted(layers, remaining, start, m0, at);
    if idx >= |layers| {
      return None, m0, idx;
    }
    var drawn;
    drawn, m := DrawOnce(item, ev, layers, remaining, m0, idx, toConsume, lo, at);
    txn := Some(drawn);
  }

  /** Serves one event, which starts at `lo` on the line: the middle loop of the source. */
  method ServeEvent(item: nat, ev: Event, layers: seq<Layer>, remaining: array<real>,
                    m0: map<nat, real>, start: nat, ghost lo: real)
    returns (served: bool, missing: real, txns: seq<SyntheticTxn>, m: map<nat, real>, idx: nat)
    requires DistinctIds(layers) && ev.qty > 0.0
    requires Serving(layers, remaining[..], m0, start, lo)
    modifies remaining
    ensures served <==> lo + ev.qty <= Capacity(layers)
    ensures !served ==> missing == lo + ev.qty - Capacity(layers)
    ensures served ==> Serving(layers, remaining[..], m, idx, lo + ev.qty)
    ensures served ==> txns == EventTxns(item, ev, layers, lo, lo + ev.qty, |layers|)
    ensures served ==> |txns| + UsedUp(old(remaining[..]), start) <= 1 + UsedUp(remaining[..], idx)
  {
    var toConsume := ev.qty;
    txns, m, idx, missing := [], m0, start, 0.0;
    ghost var at := lo;
    EventTxnsEmpty(item, ev, layers, lo, |layers|);
    while toConsume > 0.0
      invariant 0.0 <= toConsume <= ev.qty && at == lo + ev.qty - toConsume
      invariant Serving(layers, remaining[..], m, idx, at)
      invariant txns == EventTxns(item, ev, layers, lo, at, |layers|)
      invariant at == lo || toConsume == 0.0 || (idx < |layers| && remaining[idx] <= 0.0)
      invariant |txns| + UsedUp(old(remaining[..]), start)
             <= UsedUp(remaining[..], idx) + if toConsume > 0.0 then 0 else 1
      decreases |layers| - UsedUp(remaining[..], idx), toConsume > 0.0
    {
      var txn;
      txn, m, idx := DrawNext(item, ev, layers, remaining, m, idx, toConsume, lo, at);
      if txn == None {
        return false, toConsume, txns, m, idx;
      }
      txns := txns + [txn.value];
      toConsume := toConsume - txn.value.quantity;
      at := at + txn.value.quantity;
    }
    BeforeMonotone(layers, if idx < |layers| then idx + 1 else idx, |layers|);
    served := true;
  }

  lemma {:induction false} IdsStep(layers: seq<Layer>, i: nat)
    requires i < |layers|
    ensures Ids(layers[..i + 1]) == Ids(layers[..i]) + {layers[i].id}
  {
    assert layers[..i + 1][..i] == layers[..i];
  }

  lemma {:induction false} NothingServed(layers: seq<Layer>, remaining: seq<real>, m: map<nat, real>, n: nat)
    requires n <= |layers| == |remaining|
    requires forall j :: 0 <= j < n ==> remaining[j] == Remaining(layers[j])
    requires forall j :: 0 <= j < n ==> layers[j].id in m && m[layers[j].id] == layers[j].consumed
    ensures Books(layers, remaining, m, 0.0, n)
  {
    if n > 0 {
      NothingServed(layers, remaining, m, n - 1);
    }
  }

  lemma {:induction false} BooksAreConsumedAfter(
    layers: seq<Layer>, remaining: seq<real>, m: map<nat, real>, total: real, n: nat)
    requires n <= |layers| == |remaining| && DistinctIds(layers) && Books(layers, remaining, m, total, n)
    ensures ConsumedAfter(layers, total, n).Keys == Ids(layers[..n])
    ensures forall id :: id in ConsumedAfter(layers, total, n) ==>
            id in m && m[id] == ConsumedAfter(layers, total, n)[id]
  {
    if n > 0 {
      BooksAreConsumedAfter(layers, remaining, m, total, n - 1);
      IdsStep(layers, n - 1);
    }
  }

  lemma {:induction false} ServingIsConsumedAfter(
    layers: seq<Layer>, remaining: seq<real>, m: map<nat, real>, idx: nat, total: real)
    requires DistinctIds(layers) && Serving(layers, remaining, m, idx, total)
    ensures m == ConsumedAfter(layers, total, |layers|)
  {
    BooksAreConsumedAfter(layers, remaining, m, total, |layers|);
    assert layers[..|layers|] == layers;
  }

  method OpenBooks(layers: seq<Layer>) returns (remaining: array<real>, consumedAfter: map<nat, real>)
    requires DistinctIds(layers)
    ensures fresh(remaining) && Serving(layers, remaining[..], consumedAfter, 0, 0.0)
  {
    remaining := new real[|layers|];
    consumedAfter := map[];
    var i := 0;
    while i < |layers|
      invariant i <= |layers|
      invariant forall j :: 0 <= j < i ==> remaining[j] == Remaining(layers[j])
      invariant forall j :: 0 <= j < i ==>
                layers[j].id in consumedAfter && consumedAfter[layers[j].id] == layers[j].consumed
      invariant consumedAfter.Keys == Ids(layers[..i])
    {
      IdsStep(layers, i);
      remaining[i] := Remaining(layers[i]);
      consumedAfter := consumedAfter[layers[i].id := layers[i].consumed];
      i := i + 1;
    }
    assert layers[..i] == layers;
    NothingServed(layers, remaining[..], consumedAfter, |layers|);
  }

  /** What the loop over the events has after the first e of them. */
  ghost predicate ConsumedTo(
    item: nat, layers: seq<Layer>, events: seq<Event>, e: nat, remaining: seq<real>, m: map<nat, real>, idx: nat,
    sells: seq<SyntheticTxn>, disposals: seq<SyntheticTxn>)
  {
    && e <= |events| && Demand(events, e) <= Capacity(layers) && Serving(layers, remaining, m, idx, Demand(events, e))
    && sells == TxnsOf(item, events, layers, Sell, e) && disposals == TxnsOf(item, events, layers, Disposal, e)
    && |sells| + |disposals| <= e + UsedUp(remaining, idx)
    && (TotalDemand(events) > Capacity(layers) ==> Uncovered(layers, events, 0) == Uncovered(layers, events, e))
  }

  lemma {:induction false} ConsumedStep(
    item: nat, layers: seq<Layer>, events: seq<Event>, e: nat, remaining: seq<real>, m: map<nat, real>, idx: nat,
    sells: seq<SyntheticTxn>, disposals: seq<SyntheticTxn>,
    txns: seq<SyntheticTxn>, remaining': seq<real>, m': map<nat, real>, idx': nat)
    requires e < |events| && ConsumedTo(item, layers, events, e, remaining, m, idx, sells, disposals)
    requires Demand(events, e) + events[e].qty <= Capacity(layers)
    requires Serving(layers, remaining', m', idx', Demand(events, e) + events[e].qty)
    requires txns == EventTxns(item, events[e], layers, Demand(events, e), Demand(events, e) + events[e].qty, |layers|)
    requires |txns| + UsedUp(remaining, idx) <= 1 + UsedUp(remaining', idx')
    ensures var isSell := events[e].isSell;
            ConsumedTo(item, layers, events, e + 1, remaining', m', idx',
                       if isSell then sells + txns else sells, if isSell then disposals else disposals + txns)
  {
  }

  lemma {:induction false} ConsumeFails(
    item: nat, layers: seq<Layer>, events: seq<Event>, e: nat, remaining: seq<real>, m: map<nat, real>, idx: nat,
    sells: seq<SyntheticTxn>, disposals: seq<SyntheticTxn>)
    requires Positive(events) && e < |events|
    requires ConsumedTo(item, layers, events, e, remaining, m, idx, sells, disposals)
    requires Demand(events, e) + events[e].qty > Capacity(layers)
    ensures Consume(item, layers, events)
         == Err(LedgerExhausted(events[e].at, events[e].isSell, Demand(events, e) + events[e].qty - Capacity(layers)))
  {
    DemandMonotone(events, e + 1, |events|);
  }

  lemma {:induction false} ConsumedAll(
    item: nat, layers: seq<Layer>, events: seq<Event>, remaining: seq<real>, m: map<nat, real>, idx: nat,
    sells: seq<SyntheticTxn>, disposals: seq<SyntheticTxn>)
    requires DistinctIds(layers) && ConsumedTo(item, layers, events, |events|, remaining, m, idx, sells, disposals)
    ensures Consume(item, layers, events) == Ok(Consumption(sells, disposals, m))
    ensures |sells| + |disposals| <= |events| + |layers|
  {
    ServingIsConsumedAfter(layers, remaining, m, idx, TotalDemand(events));
  }

  /** Consumes the events oldest layer first: the closing loop of resolveItem. */
  method ConsumeFifo(item: nat, layers: seq<Layer>, events: seq<Event>)
    returns (r: Result<Consumption, Shortage>)
    requires DistinctIds(layers) && Positive(events)
    ensures r == Consume(item, layers, events)
    ensures r.Ok? ==> |r.value.sells| + |r.value.disposals| <= |events| + |layers|
  {
    var remaining, consumedAfter := OpenBooks(layers);
    var sells: seq<SyntheticTxn>, disposals: seq<SyntheticTxn> := [], [];
    var idx := 0;
    var e := 0;
    while e < |events|
      invariant ConsumedTo(item, layers, events, e, remaining[..], consumedAfter, idx, sells, disposals)
    {
      var ev := events[e];
      assert ev in events;
      ghost var before := remaining[..];
      var served, missing, txns, m, cursor :=
        ServeEvent(item, ev, layers, remaining, consumedAfter, idx, Demand(events, e));
      if !served {
        r := Err(LedgerExhausted(ev.at, ev.isSell, missing));
        ConsumeFails(item, layers, events, e, before, consumedAfter, idx, sells, disposals);
        return;
      }
      ConsumedStep(item, layers, events, e, before, consumedAfter, idx, sells, disposals, txns, remaining[..], m,
        cursor);
      sells, disposals := if ev.isSell then sells + txns else sells, if ev.isSell then disposals else disposals + txns;
      consumedAfter, idx, e := m, cursor, e + 1;
    }
    ConsumedAll(item, layers, events, remaining[..], consumedAfter, idx, sells, disposals);
    r := Ok(Consumption(sells, disposals, consumedAfter));
  }
}

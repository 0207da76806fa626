/**
 What the closed form of Fifo means: every event is covered exactly, every layer's consumption is
 what the transactions that name it add up to, and how far down the ledger an event reaches.
 */
module FifoLaws {
  import opened Basics
  import opened Fifo

  function Quantity(): SyntheticTxn -> real {
    (t: SyntheticTxn) => t.quantity
  }

  /** The quantity of a transaction if it draws on the given layer. */
  function QuantityFrom(source: nat): SyntheticTxn -> real {
    (t: SyntheticTxn) => if t.source == source then t.quantity else 0.0
  }

  function UnconsumedBy(T: Instant): Layer -> real {
    (l: Layer) => if l.createdAt <= T then Pos(Remaining(l)) else 0.0
  }

  /** The unconsumed stock in layers created at or before T. */
  function Available(layers: seq<Layer>, T: Instant): real {
    SumBy(layers, UnconsumedBy(T))
  }

  /** The transaction draws on a layer of the ledger that existed at T, at that layer's price. */
  ghost predicate DrawsOnStockOf(layers: seq<Layer>, t: SyntheticTxn, T: Instant) {
    exists i {:trigger layers[i]} ::
      0 <= i < |layers| && layers[i].id == t.source && layers[i].price == t.price && layers[i].createdAt <= T
  }

  // ----- one event -----

  /** The transactions of an event cover exactly the part of its span that the layers reach. */
  lemma {:induction false} EventCovered(item: nat, ev: Event, layers: seq<Layer>, lo: real, hi: real, n: nat)
    requires n <= |layers| && 0.0 <= lo <= hi
    ensures SumBy(EventTxns(item, ev, layers, lo, hi, n), Quantity()) == Overlap(lo, hi, 0.0, Before(layers, n))
  {
    if n > 0 {
      EventCovered(item, ev, layers, lo, hi, n - 1);
      var take := Share(layers, n - 1, lo, hi);
      if take > 0.0 {
        var txn := TxnFrom(item, ev, layers[n - 1], take);
        SumSnoc(EventTxns(item, ev, layers, lo, hi, n - 1), txn, Quantity());
      }
    }
  }

  /** What the transactions of an event draw from layer i is the layer's share of the event. */
  lemma {:induction false} EventDrawn(item: nat, ev: Event, layers: seq<Layer>, lo: real, hi: real, n: nat, i: nat)
    requires n <= |layers| && i < |layers| && DistinctIds(layers)
    ensures SumBy(EventTxns(item, ev, layers, lo, hi, n), QuantityFrom(layers[i].id))
         == if i < n then Share(layers, i, lo, hi) else 0.0
  {
    if n > 0 {
      EventDrawn(item, ev, layers, lo, hi, n - 1, i);
      var take := Share(layers, n - 1, lo, hi);
      if take > 0.0 {
        var txn := TxnFrom(item, ev, layers[n - 1], take);
        SumSnoc(EventTxns(item, ev, layers, lo, hi, n - 1), txn, QuantityFrom(layers[i].id));
      }
    }
  }

  /** Layer i gives the event a transaction, and it is t. */
  ghost predicate GivenBy(item: nat, ev: Event, layers: seq<Layer>, lo: real, hi: real, t: SyntheticTxn, i: nat)
    requires i < |layers|
  {
    var take := Share(layers, i, lo, hi);
    take > 0.0 && t == TxnFrom(item, ev, layers[i], take)
  }

  lemma {:induction false} EventTxnGiven(
    item: nat, ev: Event, layers: seq<Layer>, lo: real, hi: real, n: nat, t: SyntheticTxn)
    returns (i: nat)
    requires n <= |layers| && t in EventTxns(item, ev, layers, lo, hi, n)
    ensures i < n && GivenBy(item, ev, layers, lo, hi, t, i)
  {
    var rest := EventTxns(item, ev, layers, lo, hi, n - 1);
    if t in rest {
      i := EventTxnGiven(item, ev, layers, lo, hi, n - 1, t);
    } else {
      i := n - 1;
    }
  }

  lemma {:induction false} GivenEventTxn(
    item: nat, ev: Event, layers: seq<Layer>, lo: real, hi: real, n: nat, t: SyntheticTxn, i: nat)
    requires i < n <= |layers| && GivenBy(item, ev, layers, lo, hi, t, i)
    ensures t in EventTxns(item, ev, layers, lo, hi, n)
  {
    if i < n - 1 {
      GivenEventTxn(item, ev, layers, lo, hi, n - 1, t, i);
    }
  }

  // ----- the ledger as of an instant -----

  lemma {:induction false} BeforeIsSum(layers: seq<Layer>, T: Instant, n: nat)
    requires n <= |layers| && forall i :: 0 <= i < n ==> layers[i].createdAt <= T
    ensures SumBy(layers[..n], UnconsumedBy(T)) == Before(layers, n)
  {
    if n > 0 {
      BeforeIsSum(layers, T, n - 1);
      SumStep(layers, n - 1, UnconsumedBy(T));
    }
  }

  /** On a chronological ledger the layers of an instant are its first n, and `Available` is where they end. */
  lemma {:induction false} AvailableIsBefore(layers: seq<Layer>, T: Instant) returns (n: nat)
    requires Chronological(layers)
    ensures n <= |layers| && Available(layers, T) == Before(layers, n)
    ensures forall i :: 0 <= i < |layers| ==> (i < n <==> layers[i].createdAt <= T)
  {
    n := |layers|;
    while n > 0 && layers[n - 1].createdAt > T
      invariant n <= |layers|
      invariant forall i :: n <= i < |layers| ==> layers[i].createdAt > T
    {
      n := n - 1;
    }
    forall i | 0 <= i < n
      ensures layers[i].createdAt <= T
    {
      InOrder(layers, LayerTime(), i, n - 1);
    }
    BeforeIsSum(layers, T, n);
    assert layers == layers[..n] + layers[n..];
    SumConcat(layers[..n], layers[n..], UnconsumedBy(T));
    SumZero(layers[n..], UnconsumedBy(T));
  }

  /** An event draws only on layers that existed at T exactly when it ends within the stock of T. */
  lemma {:induction false} ReachesOnly(layers: seq<Layer>, lo: real, hi: real, T: Instant)
    requires Chronological(layers) && 0.0 <= lo < hi <= Capacity(layers)
    ensures (forall i :: 0 <= i < |layers| && Share(layers, i, lo, hi) > 0.0 ==> layers[i].createdAt <= T)
       <==> hi <= Available(layers, T)
  {
    var n := AvailableIsBefore(layers, T);
    if hi <= Before(layers, n) {
      forall i | 0 <= i < |layers| && Share(layers, i, lo, hi) > 0.0
        ensures layers[i].createdAt <= T
      {
        if n <= i {
          BeforeMonotone(layers, n, i);
        }
      }
    } else {
      var i := LastReached(layers, n, hi);
    }
  }

  /** The layer that holds the end of a demand. */
  lemma {:induction false} LastReached(layers: seq<Layer>, n: nat, hi: real) returns (i: nat)
    requires n <= |layers| && Before(layers, n) < hi <= Capacity(layers)
    ensures n <= i < |layers| && Before(layers, i) < hi <= Before(layers, i + 1)
  {
    i := n;
    while Before(layers, i + 1) < hi
      invariant n <= i < |layers| && Before(layers, i) < hi
      decreases |layers| - i
    {
      i := i + 1;
    }
  }

  /** The same for the transactions: all of them draw on stock of T exactly when the event ends within it. */
  lemma {:induction false} EventDrawsOnStockOf(item: nat, ev: Event, layers: seq<Layer>, lo: real, hi: real, T: Instant)
    requires Chronological(layers) && DistinctIds(layers) && 0.0 <= lo < hi <= Capacity(layers)
    ensures (forall t :: t in EventTxns(item, ev, layers, lo, hi, |layers|) ==> DrawsOnStockOf(layers, t, T))
       <==> hi <= Available(layers, T)
  {
    var txns := EventTxns(item, ev, layers, lo, hi, |layers|);
    ReachesOnly(layers, lo, hi, T);
    if hi <= Available(layers, T) {
      forall t | t in txns
        ensures DrawsOnStockOf(layers, t, T)
      {
        var i := EventTxnGiven(item, ev, layers, lo, hi, |layers|, t);
      }
    } else {
      var i :| 0 <= i < |layers| && Share(layers, i, lo, hi) > 0.0 && layers[i].createdAt > T;
      var t := TxnFrom(item, ev, layers[i], Share(layers, i, lo, hi));
      GivenEventTxn(item, ev, layers, lo, hi, |layers|, t, i);
      assert t in txns && !DrawsOnStockOf(layers, t, T);
    }
  }

  // ----- all events -----

  lemma {:induction false} DemandNonNegative(events: seq<Event>, n: nat)
    requires n <= |events| && Positive(events)
    ensures Demand(events, n) >= 0.0
  {
    DemandMonotone(events, 0, n);
  }

  /** Together the sells and the disposals add up to the demand: nothing is lost and nothing invented. */
  lemma {:induction false} DemandCovered(item: nat, events: seq<Event>, layers: seq<Layer>, n: nat)
    requires n <= |events| && Positive(events) && Demand(events, n) <= Capacity(layers)
    ensures SumBy(TxnsOf(item, events, layers, Sell, n), Quantity())
          + SumBy(TxnsOf(item, events, layers, Disposal, n), Quantity()) == Demand(events, n)
  {
    if n > 0 {
      var ev := events[n - 1];
      DemandMonotone(events, n - 1, n);
      DemandNonNegative(events, n - 1);
      DemandCovered(item, events, layers, n - 1);
      EventCovered(item, ev, layers, Demand(events, n - 1), Demand(events, n), |layers|);
      SumConcat(TxnsOf(item, events, layers, KindOf(ev), n - 1),
                EventTxns(item, ev, layers, Demand(events, n - 1), Demand(events, n), |layers|), Quantity());
    }
  }

  /** A layer's final consumption is what the transactions naming it add up to, whatever the events were. */
  lemma {:induction false} LayerDrawn(item: nat, events: seq<Event>, layers: seq<Layer>, n: nat, i: nat)
    requires n <= |events| && Positive(events) && i < |layers| && DistinctIds(layers)
    ensures SumBy(TxnsOf(item, events, layers, Sell, n), QuantityFrom(layers[i].id))
          + SumBy(TxnsOf(item, events, layers, Disposal, n), QuantityFrom(layers[i].id))
         == Share(layers, i, 0.0, Demand(events, n))
  {
    if n > 0 {
      var ev, lo, hi, f := events[n - 1], Demand(events, n - 1), Demand(events, n), QuantityFrom(layers[i].id);
      DemandMonotone(events, n - 1, n);
      DemandNonNegative(events, n - 1);
      LayerDrawn(item, events, layers, n - 1, i);
      EventDrawn(item, ev, layers, lo, hi, |layers|, i);
      ShareSplits(layers, i, 0.0, lo, hi);
      SumConcat(TxnsOf(item, events, layers, KindOf(ev), n - 1), EventTxns(item, ev, layers, lo, hi, |layers|), f);
    }
  }

  /** Every transaction comes from one event, in its span of the line. */
  lemma {:induction false} TxnOfEvent(
    item: nat, events: seq<Event>, layers: seq<Layer>, kind: TxnKind, n: nat, t: SyntheticTxn)
    returns (e: nat)
    requires n <= |events| && t in TxnsOf(item, events, layers, kind, n)
    ensures e < n && KindOf(events[e]) == kind
    ensures t in EventTxns(item, events[e], layers, Demand(events, e), Demand(events, e + 1), |layers|)
    ensures t.itemID == item && t.kind == kind && t.at == events[e].at && t.quantity > 0.0
    ensures exists i :: 0 <= i < |layers| && layers[i].id == t.source
  {
    if KindOf(events[n - 1]) == kind
       && t in EventTxns(item, events[n - 1], layers, Demand(events, n - 1), Demand(events, n), |layers|) {
      e := n - 1;
      var i := EventTxnGiven(item, events[e], layers, Demand(events, e), Demand(events, n), |layers|, t);
    } else {
      e := TxnOfEvent(item, events, layers, kind, n - 1, t);
    }
  }
}

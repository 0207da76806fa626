/**
 Which stock the synthesized transactions draw on (cmd/util/reconcile.go, resolveItem). The FIFO loop
 never looks at dates; that a sell draws only on stock that existed on its own date follows from the
 guard, the propagation and the unconsumed ledger together.
 */
module Causality {
  import opened Basics
  import opened Fifo
  import opened FifoLaws
  import opened Windows
  import opened Propagation
  import opened Resolver
  import opened ResolverLaws

  /** An accepted item: in scope, unconsumed, past the guard, with enough stock for its events. */
  ghost predicate Accepted(s: ItemInput) {
    && InScope(s) && Unconsumed(s.layers)
    && Corrections(s)[0] <= StartStock(s)
    && TotalDemand(EventsOf(s)) <= Capacity(s.layers)
  }

  ghost predicate IsTxnOf(s: ItemInput, t: SyntheticTxn) {
    IsTxn(s.itemID, EventsOf(s), s.layers, t)
  }

  /** Every transaction draws only on layers created by any count at or after its own date. */
  ghost predicate DrawsByClosingCount(s: ItemInput) {
    forall t, k: nat {:trigger IsTxnOf(s, t), s.recs[k]} ::
      IsTxnOf(s, t) && k < |s.recs| && t.at <= s.recs[k].at ==> DrawsOnStockOf(s.layers, t, s.recs[k].at)
  }

  /** The last count of the instant of count k, when counts of one instant only fall. */
  lemma {:induction false} LastOfSameInstant(recs: seq<Count>, c: seq<real>, k: nat) returns (m: nat)
    requires SortedBy(recs, CountTime()) && k < |recs| == |c|
    requires forall j: nat {:trigger c[j]} :: 1 <= j < |recs| && recs[j - 1].at == recs[j].at ==> c[j] <= c[j - 1]
    ensures k <= m && LastOfInstant(recs, m) && recs[m].at == recs[k].at && c[m] <= c[k]
    decreases |recs| - k
  {
    m := k;
    if k + 1 < |recs| {
      AtMost(recs, k, k + 1);
      if recs[k].at == recs[k + 1].at {
        m := LastOfSameInstant(recs, c, k + 1);
        assert c[k + 1] <= c[k];
      }
    }
  }

  lemma {:induction false} TiedCountsFall(s: ItemInput)
    ensures forall k: nat {:trigger Corrections(s)[k]} :: 1 <= k < |s.recs| && s.recs[k - 1].at == s.recs[k].at ==>
              Corrections(s)[k] <= Corrections(s)[k - 1]
  {
    var c, r, d := Corrections(s), Received(s.recs, s.layers), Disposed(s.recs, s.disposes);
    CorrectedIsLeast(Quantities(s.recs), r, d);
    forall k: nat {:trigger c[k]} | 1 <= k < |s.recs| && s.recs[k - 1].at == s.recs[k].at
      ensures c[k] <= c[k - 1]
    {
      assert r[k] == 0.0 && d[k] == 0.0;
      assert c[k] <= c[k - 1] + r[k] - d[k];
    }
  }

  /** All that leaves by the instant of count k: stock received by then less a corrected count not above count k's. */
  lemma {:induction false} OutflowByInstant(s: ItemInput, k: nat) returns (m: nat)
    requires InScope(s) && Corrections(s)[0] <= StartStock(s) && k < |s.recs|
    ensures k <= m < |s.recs| && s.recs[m].at == s.recs[k].at && Corrections(s)[m] <= Corrections(s)[k]
    ensures SumBy(EventsOf(s), DueBy(s.recs[k].at)) == StockBy(s.layers, s.recs[k].at) - Corrections(s)[m]
  {
    TiedCountsFall(s);
    m := LastOfSameInstant(s.recs, Corrections(s), k);
    OutflowByCount(s, m);
  }

  // ----- events that a chronological ledger serves -----

  /** Events in order of time that the ledger covers. */
  ghost predicate Servable(events: seq<Event>, layers: seq<Layer>) {
    && Positive(events) && SortedBy(events, EventTime()) && TotalDemand(events) <= Capacity(layers)
    && Chronological(layers) && DistinctIds(layers)
  }

  ghost predicate IsTxn(item: nat, events: seq<Event>, layers: seq<Layer>, t: SyntheticTxn) {
    t in TxnsOf(item, events, layers, t.kind, |events|)
  }

  /** The transactions of event e. */
  ghost function TxnsAt(item: nat, events: seq<Event>, layers: seq<Layer>, e: nat): seq<SyntheticTxn>
    requires e < |events|
  {
    EventTxns(item, events[e], layers, Demand(events, e), Demand(events, e + 1), |layers|)
  }

  /** All that is demanded up to event e fits the stock of T exactly when each transaction of e draws on it. */
  lemma {:induction false} EventReach(item: nat, events: seq<Event>, layers: seq<Layer>, e: nat, T: Instant)
    requires Servable(events, layers) && e < |events|
    ensures Demand(events, e + 1) <= Available(layers, T) <==>
            forall t :: t in TxnsAt(item, events, layers, e) ==> DrawsOnStockOf(layers, t, T)
  {
    DemandNonNegative(events, e);
    DemandMonotone(events, e + 1, |events|);
    assert events[e] in events;
    EventDrawsOnStockOf(item, events[e], layers, Demand(events, e), Demand(events, e + 1), T);
  }

  /** When no more is due by T than the stock of T, every transaction dated by T draws on that stock. */
  lemma {:induction false} TxnReach(item: nat, events: seq<Event>, layers: seq<Layer>, t: SyntheticTxn, T: Instant)
    requires Servable(events, layers) && IsTxn(item, events, layers, t) && t.at <= T
    requires SumBy(events, DueBy(T)) <= Available(layers, T)
    ensures DrawsOnStockOf(layers, t, T)
  {
    var e := TxnOfEvent(item, events, layers, t.kind, |events|, t);
    DueDemand(events, e, T);
    EventReach(item, events, layers, e, T);
  }

  /** All that is demanded up to an event due by T is part of what is due by T. */
  lemma {:induction false} DueDemand(events: seq<Event>, e: nat, T: Instant)
    requires SortedBy(events, EventTime()) && Positive(events) && e < |events| && events[e].at <= T
    ensures Demand(events, e + 1) <= SumBy(events, DueBy(T))
  {
    var n := DueIsPrefix(events, T);
    DemandMonotone(events, e + 1, n);
  }

  /** When more is due by T than the stock of T, some transaction dated by T reaches beyond it. */
  lemma {:induction false} Overreach(
    item: nat, events: seq<Event>, layers: seq<Layer>, T: Instant)
    returns (t: SyntheticTxn)
    requires Servable(events, layers) && SumBy(events, DueBy(T)) > Available(layers, T)
    ensures IsTxn(item, events, layers, t) && t.at <= T && !DrawsOnStockOf(layers, t, T)
  {
    SumNonNegative(layers, UnconsumedBy(T));
    var e := LastDue(events, T);
    t := EventOverreach(item, events, layers, e, T);
  }

  /** The event with which what is due by T is complete. */
  lemma {:induction false} LastDue(events: seq<Event>, T: Instant) returns (e: nat)
    requires SortedBy(events, EventTime()) && SumBy(events, DueBy(T)) > 0.0
    ensures e < |events| && events[e].at <= T && Demand(events, e + 1) == SumBy(events, DueBy(T))
  {
    var n := DueIsPrefix(events, T);
    assert Demand(events, 0) == 0.0;
    e := n - 1;
  }

  /** A transaction of an event that ends beyond the stock of T reaches beyond it. */
  lemma {:induction false} EventOverreach(item: nat, events: seq<Event>, layers: seq<Layer>, e: nat, T: Instant)
    returns (t: SyntheticTxn)
    requires Servable(events, layers) && e < |events| && Demand(events, e + 1) > Available(layers, T)
    ensures IsTxn(item, events, layers, t) && t.at == events[e].at && !DrawsOnStockOf(layers, t, T)
  {
    EventReach(item, events, layers, e, T);
    t :| t in TxnsAt(item, events, layers, e) && !DrawsOnStockOf(layers, t, T);
    var i := EventTxnGiven(item, events[e], layers, Demand(events, e), Demand(events, e + 1), |layers|, t);
    EventTxnsAmongAll(item, events, layers, e, |events|, t);
  }

  lemma {:induction false} EventTxnsAmongAll(
    item: nat, events: seq<Event>, layers: seq<Layer>, e: nat, n: nat, t: SyntheticTxn)
    requires e < n <= |events| && t in TxnsAt(item, events, layers, e)
    ensures t in TxnsOf(item, events, layers, KindOf(events[e]), n)
  {
    if e < n - 1 {
      EventTxnsAmongAll(item, events, layers, e, n - 1, t);
    }
  }

  /** Every transaction draws only on layers created at or before its own date. */
  ghost predicate OwnDated(item: nat, events: seq<Event>, layers: seq<Layer>) {
    forall t {:trigger IsTxn(item, events, layers, t)} ::
      IsTxn(item, events, layers, t) ==> DrawsOnStockOf(layers, t, t.at)
  }

  /** At the date of event e no more is due than the stock of that date. */
  ghost predicate DueInTime(events: seq<Event>, layers: seq<Layer>, e: nat)
    requires e < |events|
  {
    SumBy(events, DueBy(events[e].at)) <= Available(layers, events[e].at)
  }

  /** Transactions keep to stock of their own date exactly when no event outruns the stock of its date. */
  lemma {:induction false} OwnDatedWhenInTime(item: nat, events: seq<Event>, layers: seq<Layer>)
    requires Servable(events, layers)
    ensures OwnDated(item, events, layers) <==> forall e :: 0 <= e < |events| ==> DueInTime(events, layers, e)
  {
    if forall e :: 0 <= e < |events| ==> DueInTime(events, layers, e) {
      forall t | IsTxn(item, events, layers, t)
        ensures DrawsOnStockOf(layers, t, t.at)
      {
        var e := TxnOfEvent(item, events, layers, t.kind, |events|, t);
        assert DueInTime(events, layers, e);
        TxnReach(item, events, layers, t, t.at);
      }
    } else {
      var e :| 0 <= e < |events| && !DueInTime(events, layers, e);
      var t := Overreach(item, events, layers, events[e].at);
      LaterStockIncludes(layers, t, t.at, events[e].at);
    }
  }

  lemma {:induction false} LaterStockIncludes(layers: seq<Layer>, t: SyntheticTxn, T: Instant, U: Instant)
    requires T <= U
    ensures DrawsOnStockOf(layers, t, T) ==> DrawsOnStockOf(layers, t, U)
  {
  }

  // ----- the events of an accepted item -----

  lemma {:induction false} AcceptedIsServable(s: ItemInput)
    requires Accepted(s)
    ensures Servable(EventsOf(s), s.layers)
  {
    EventsSorted(s);
    EventsPositive(s);
  }

  /** Causality up to the closing count holds exactly when no corrected count is negative. */
  lemma {:induction false} CausalExactlyWhen(s: ItemInput)
    requires Accepted(s)
    ensures DrawsByClosingCount(s) <==> forall k :: 0 <= k < |s.recs| ==> Corrections(s)[k] >= 0.0
  {
    AcceptedIsServable(s);
    if forall k :: 0 <= k < |s.recs| ==> Corrections(s)[k] >= 0.0 {
      forall t, k: nat | IsTxnOf(s, t) && k < |s.recs| && t.at <= s.recs[k].at
        ensures DrawsOnStockOf(s.layers, t, s.recs[k].at)
      {
        var m := OutflowByInstant(s, k);
        UnconsumedAvailable(s.layers, s.recs[k].at);
        TxnReach(s.itemID, EventsOf(s), s.layers, t, s.recs[k].at);
      }
    } else {
      var k :| 0 <= k < |s.recs| && Corrections(s)[k] < 0.0;
      var m := OutflowByInstant(s, k);
      UnconsumedAvailable(s.layers, s.recs[k].at);
      var t := Overreach(s.itemID, EventsOf(s), s.layers, s.recs[k].at);
      assert IsTxnOf(s, t);
    }
  }

  lemma {:induction false} CorrectedNotBelowCounts(s: ItemInput)
    requires forall c :: c in s.recs ==> c.qty >= 0.0
    ensures forall k :: 0 <= k < |s.recs| ==> Corrections(s)[k] >= 0.0
  {
    CorrectedIsLeast(Quantities(s.recs), Received(s.recs, s.layers), Disposed(s.recs, s.disposes));
    forall k | 0 <= k < |s.recs|
      ensures Corrections(s)[k] >= 0.0
    {
      assert s.recs[k] in s.recs;
      assert Quantities(s.recs)[k] == s.recs[k].qty;
    }
  }

  /** A sell is dated at a count. */
  lemma {:induction false} SellAtCount(steps: seq<Step>, e: Event)
    requires e in SellEvents(steps)
    ensures exists k :: 0 <= k < |steps| && steps[k].at == e.at
  {
    var front := steps[..|steps| - 1];
    if e in SellEvents(front) {
      SellAtCount(front, e);
      var k :| 0 <= k < |front| && front[k].at == e.at;
      assert steps[k].at == e.at;
    }
  }

  lemma {:induction false} DisposalsAreNoSells(disposes: seq<Dispose>, e: Event)
    requires e in DisposeEvents(disposes)
    ensures !e.isSell
  {
    if e in DisposeEvents(disposes[..|disposes| - 1]) {
      DisposalsAreNoSells(disposes[..|disposes| - 1], e);
    }
  }

  lemma {:induction false} SellDate(s: ItemInput, t: SyntheticTxn) returns (k: nat)
    requires IsTxnOf(s, t) && t.kind == Sell
    ensures k < |s.recs| && s.recs[k].at == t.at
  {
    var events := EventsOf(s);
    var e := TxnOfEvent(s.itemID, events, s.layers, Sell, |events|, t);
    StableSortHas(SellEvents(Steps(s)) + DisposeEvents(s.disposes), EventTime());
    assert events[e] in events;
    if events[e] in DisposeEvents(s.disposes) {
      DisposalsAreNoSells(s.disposes, events[e]);
    }
    SellAtCount(Steps(s), events[e]);
    k :| 0 <= k < |Steps(s)| && Steps(s)[k].at == t.at;
    StepDates(s);
  }

  /**
   Causality of the resolver: with non-negative counts and an unconsumed ledger, every sell draws on
   stock that existed on the sell's own date, and every disposal on stock that existed at the count
   closing its window, at those layers' prices.
   */
  lemma {:induction false} SellsAndDisposalsAreCausal(input: ItemInput)
    requires WellFormed(input) && input.recs != [] && Unconsumed(Scope(input).layers)
    requires forall c :: c in input.recs ==> c.qty >= 0.0
    ensures Resolve(input).Ok? ==> Causal(input, Resolve(input).value)
  {
    if Resolve(input).Ok? {
      ResolvedIsInScope(input);
      EventsAreCausal(input, Scope(input), Resolve(input).value);
    }
  }

  /** Sells draw on stock of their own date, disposals on stock of every count that is not before them. */
  ghost predicate Causal(input: ItemInput, r: Resolution) {
    && (forall t :: t in r.sells ==> DrawsOnStockOf(Scope(input).layers, t, t.at))
    && (forall t, k: nat {:trigger t in r.disposals, input.recs[k]} ::
          t in r.disposals && k < |input.recs| && t.at <= input.recs[k].at ==>
          DrawsOnStockOf(Scope(input).layers, t, input.recs[k].at))
  }

  lemma {:induction false} EventsAreCausal(input: ItemInput, s: ItemInput, r: Resolution)
    requires s == Scope(input) && Accepted(s) && s.recs == input.recs && forall c :: c in input.recs ==> c.qty >= 0.0
    requires r.sells == TxnsOf(s.itemID, EventsOf(s), s.layers, Sell, |EventsOf(s)|)
    requires r.disposals == TxnsOf(s.itemID, EventsOf(s), s.layers, Disposal, |EventsOf(s)|)
    ensures Causal(input, r)
  {
    CorrectedNotBelowCounts(s);
    CausalExactlyWhen(s);
    forall t | t in r.sells
      ensures DrawsOnStockOf(s.layers, t, t.at)
    {
      var e := TxnOfEvent(s.itemID, EventsOf(s), s.layers, Sell, |EventsOf(s)|, t);
      assert IsTxnOf(s, t);
      var k := SellDate(s, t);
    }
    forall t, k: nat | t in r.disposals && k < |input.recs| && t.at <= input.recs[k].at
      ensures DrawsOnStockOf(s.layers, t, input.recs[k].at)
    {
      var e := TxnOfEvent(s.itemID, EventsOf(s), s.layers, Disposal, |EventsOf(s)|, t);
      assert IsTxnOf(s, t);
    }
  }
}

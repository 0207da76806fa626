/**
 What the resolver takes out, by kind and by date (cmd/util/reconcile.go, resolveItem): sells for the
 drops, disposals for the requests, in order of time and from the oldest stock on.
 */
module Outflows {
  import opened Basics
  import opened Fifo
  import opened FifoLaws
  import opened Windows
  import opened Resolver
  import opened ResolverLaws

  /** The quantity of a transaction dated by T. */
  function TakenBy(T: Instant): SyntheticTxn -> real {
    (t: SyntheticTxn) => if t.at <= T then t.quantity else 0.0
  }

  /** The quantity of a sell, or of a disposal, due by T. */
  function DueOf(isSell: bool, T: Instant): Event -> real {
    (e: Event) => if e.isSell == isSell && e.at <= T then e.qty else 0.0
  }

  // ----- from events to transactions -----

  /** A served event's transactions bear its date and add up to it. */
  lemma {:induction false} EventTaken(item: nat, ev: Event, layers: seq<Layer>, lo: real, hi: real, T: Instant)
    requires 0.0 <= lo <= hi <= Capacity(layers)
    ensures SumBy(EventTxns(item, ev, layers, lo, hi, |layers|), TakenBy(T)) == if ev.at <= T then hi - lo else 0.0
  {
    var txns := EventTxns(item, ev, layers, lo, hi, |layers|);
    forall t | t in txns
      ensures t.at == ev.at
    {
      var i := EventTxnGiven(item, ev, layers, lo, hi, |layers|, t);
    }
    if ev.at <= T {
      EventCovered(item, ev, layers, lo, hi, |layers|);
      SumAgree(txns, TakenBy(T), Quantity());
    } else {
      SumZero(txns, TakenBy(T));
    }
  }

  /** The transactions of one kind add up, by any date, to the events of that kind. */
  lemma {:induction false} KindTaken(
    item: nat, events: seq<Event>, layers: seq<Layer>, kind: TxnKind, n: nat, T: Instant)
    requires n <= |events| && Positive(events) && Demand(events, n) <= Capacity(layers)
    ensures SumBy(TxnsOf(item, events, layers, kind, n), TakenBy(T)) == SumBy(events[..n], DueOf(kind == Sell, T))
  {
    if n > 0 {
      var ev, lo, hi := events[n - 1], Demand(events, n - 1), Demand(events, n);
      DemandMonotone(events, n - 1, n);
      DemandNonNegative(events, n - 1);
      KindTaken(item, events, layers, kind, n - 1, T);
      EventTaken(item, ev, layers, lo, hi, T);
      SumConcat(TxnsOf(item, events, layers, kind, n - 1), EventTxns(item, ev, layers, lo, hi, |layers|), TakenBy(T));
      SumStep(events, n - 1, DueOf(kind == Sell, T));
    }
  }

  // ----- from drops and requests to events -----

  lemma {:induction false} SellEventsOfKind(steps: seq<Step>, T: Instant)
    requires forall t :: t in steps ==> t.drop >= 0.0
    ensures SumBy(SellEvents(steps), DueOf(true, T)) == SumBy(steps, DropBy(T))
    ensures SumBy(SellEvents(steps), DueOf(false, T)) == 0.0
  {
    if steps != [] {
      var front, t := steps[..|steps| - 1], steps[|steps| - 1];
      assert t in steps;
      SellEventsOfKind(front, T);
      if t.drop > 0.0 {
        SumSnoc(SellEvents(front), Event(t.at, t.drop, true), DueOf(true, T));
        SumSnoc(SellEvents(front), Event(t.at, t.drop, true), DueOf(false, T));
      } else {
        assert SellEvents(steps) == SellEvents(front);
      }
    }
  }

  lemma {:induction false} DisposeEventsOfKind(disposes: seq<Dispose>, T: Instant)
    requires forall d :: d in disposes ==> d.qty >= 0.0
    ensures SumBy(DisposeEvents(disposes), DueOf(false, T)) == DisposalsBy(disposes, T)
    ensures SumBy(DisposeEvents(disposes), DueOf(true, T)) == 0.0
  {
    if disposes != [] {
      var front, d := disposes[..|disposes| - 1], disposes[|disposes| - 1];
      assert d in disposes;
      DisposeEventsOfKind(front, T);
      if d.qty > 0.0 {
        SumSnoc(DisposeEvents(front), Event(d.at, d.qty, false), DueOf(false, T));
        SumSnoc(DisposeEvents(front), Event(d.at, d.qty, false), DueOf(true, T));
      } else {
        assert DisposeEvents(disposes) == DisposeEvents(front);
      }
    }
  }

  lemma {:induction false} EventsOfKind(s: ItemInput, isSell: bool, T: Instant)
    requires (forall t :: t in Steps(s) ==> t.drop >= 0.0) && forall d :: d in s.disposes ==> d.qty >= 0.0
    ensures SumBy(EventsOf(s), DueOf(isSell, T))
         == if isSell then SumBy(Steps(s), DropBy(T)) else DisposalsBy(s.disposes, T)
  {
    var unsorted := SellEvents(Steps(s)) + DisposeEvents(s.disposes);
    StableSortSorts(unsorted, EventTime());
    SumPermuted(EventsOf(s), unsorted, DueOf(isSell, T));
    SumConcat(SellEvents(Steps(s)), DisposeEvents(s.disposes), DueOf(isSell, T));
    SellEventsOfKind(Steps(s), T);
    DisposeEventsOfKind(s.disposes, T);
  }

  // ----- the resolution -----

  /** By any date the sells add up to the drops, and the disposals to the requests that take part. */
  ghost predicate TakesOut(input: ItemInput, r: Resolution, T: Instant) {
    && SumBy(r.sells, TakenBy(T)) == SumBy(r.steps, DropBy(T))
    && SumBy(r.disposals, TakenBy(T)) == DisposalsBy(Scope(input).disposes, T)
  }

  /** Every transaction is of its list's kind and of the item. */
  ghost predicate WellKinded(input: ItemInput, r: Resolution) {
    && (forall t :: t in r.sells ==> t.kind == Sell && t.itemID == input.itemID && t.quantity > 0.0)
    && (forall t :: t in r.disposals ==> t.kind == Disposal && t.itemID == input.itemID && t.quantity > 0.0)
  }

  lemma {:induction false} SettledTakesOut(s: ItemInput, ignored: seq<nat>, T: Instant)
    requires Settle(s, ignored).Ok?
    requires (forall t :: t in Steps(s) ==> t.drop >= 0.0) && forall d :: d in s.disposes ==> d.qty >= 0.0
    ensures var r := Settle(s, ignored).value;
            && SumBy(r.sells, TakenBy(T)) == SumBy(r.steps, DropBy(T))
            && SumBy(r.disposals, TakenBy(T)) == DisposalsBy(s.disposes, T)
  {
    var events := EventsOf(s);
    EventsPositive(s);
    KindTaken(s.itemID, events, s.layers, Sell, |events|, T);
    KindTaken(s.itemID, events, s.layers, Disposal, |events|, T);
    assert events[..|events|] == events;
    EventsOfKind(s, true, T);
    EventsOfKind(s, false, T);
  }

  lemma {:induction false} SettledKinds(s: ItemInput, ignored: seq<nat>)
    requires Settle(s, ignored).Ok?
    ensures WellKinded(s, Settle(s, ignored).value)
  {
    var r, events := Settle(s, ignored).value, EventsOf(s);
    forall t | t in r.sells
      ensures t.kind == Sell && t.itemID == s.itemID && t.quantity > 0.0
    {
      var e := TxnOfEvent(s.itemID, events, s.layers, Sell, |events|, t);
    }
    forall t | t in r.disposals
      ensures t.kind == Disposal && t.itemID == s.itemID && t.quantity > 0.0
    {
      var e := TxnOfEvent(s.itemID, events, s.layers, Disposal, |events|, t);
    }
  }

  /** A resolution settles its scope, whose requests and drops are not negative. */
  lemma {:induction false} ResolvedScope(input: ItemInput) returns (ignored: seq<nat>)
    requires WellFormed(input) && Resolve(input).Ok?
    ensures Resolve(input) == Settle(Scope(input), ignored)
    ensures (forall t :: t in Steps(Scope(input)) ==> t.drop >= 0.0)
    ensures forall d :: d in Scope(input).disposes ==> d.qty >= 0.0
  {
    ignored := if input.recs == [] then [] else Trailing(input.recs, input.disposes);
    if input.recs != [] {
      ResolvedIsInScope(input);
      DropsNonNegative(Scope(input));
    }
  }

  /** What leaves as a sell is what dropped, what leaves as a disposal is what was requested, date by date. */
  lemma {:induction false} SellsAreDropsAndDisposalsRequests(input: ItemInput, T: Instant)
    requires WellFormed(input)
    ensures Resolve(input).Ok? ==>
              WellKinded(input, Resolve(input).value) && TakesOut(input, Resolve(input).value, T)
  {
    if Resolve(input).Ok? {
      var ignored := ResolvedScope(input);
      SettledTakesOut(Scope(input), ignored, T);
      SettledKinds(Scope(input), ignored);
    }
  }

  // ----- the order of the events -----

  /** By date, and a sell before a disposal of the same instant. */
  function SellFirst(): (Event, Event) -> bool {
    (e: Event, f: Event) => e.isSell || !f.isSell
  }

  lemma {:induction false} SellsThenDisposals(steps: seq<Step>, disposes: seq<Dispose>)
    ensures Pairwise(SellEvents(steps) + DisposeEvents(disposes), SellFirst())
    ensures forall e :: e in SellEvents(steps) ==> e.isSell
    ensures forall e :: e in DisposeEvents(disposes) ==> !e.isSell
    decreases |steps| + |disposes|
  {
    var sells, disposals := SellEvents(steps), DisposeEvents(disposes);
    if disposes != [] {
      var front := DisposeEvents(disposes[..|disposes| - 1]);
      SellsThenDisposals(steps, disposes[..|disposes| - 1]);
      if disposals != front {
        var last := disposals[|disposals| - 1];
        assert sells + disposals == sells + front + [last];
        PairwiseSnoc(sells + front, last, SellFirst());
      }
    } else if steps != [] {
      var front := SellEvents(steps[..|steps| - 1]);
      SellsThenDisposals(steps[..|steps| - 1], disposes);
      assert front + [] == front && sells + [] == sells && disposals == [];
      if sells != front {
        PairwiseSnoc(front, sells[|sells| - 1], SellFirst());
      }
    }
  }

  /** Of two events the earlier is by date, and at one instant a sell is never behind a disposal. */
  lemma {:induction false} EventsInOrder(s: ItemInput, i: nat, j: nat)
    requires i < j < |EventsOf(s)|
    ensures var e, f := EventsOf(s)[i], EventsOf(s)[j]; e.at < f.at || (e.at == f.at && (e.isSell || !f.isSell))
  {
    SellsThenDisposals(Steps(s), s.disposes);
    StableSortPairwise(SellEvents(Steps(s)) + DisposeEvents(s.disposes), EventTime(), SellFirst());
    PairwiseAt(EventsOf(s), By(EventTime(), SellFirst()), i, j);
  }

  // ----- first in, first out, across transactions -----

  /** The one transaction comes before the other: by date, and at one instant a sell before a disposal. */
  predicate Earlier(t: SyntheticTxn, u: SyntheticTxn) {
    t.at < u.at || (t.at == u.at && t.kind == Sell && u.kind == Disposal)
  }

  lemma {:induction false} SpansInOrder(layers: seq<Layer>, i: nat, j: nat, lo: real, mid: real, mid': real, hi: real)
    requires i < |layers| && j < |layers| && mid <= mid'
    requires Share(layers, i, lo, mid) > 0.0 && Share(layers, j, mid', hi) > 0.0
    ensures i <= j
  {
    if j < i {
      BeforeMonotone(layers, j + 1, i);
    }
  }

  lemma {:induction false} EarlierEvent(s: ItemInput, e: nat, f: nat, t: SyntheticTxn, u: SyntheticTxn)
    requires e < |EventsOf(s)| && f < |EventsOf(s)| && Earlier(t, u)
    requires t.at == EventsOf(s)[e].at && (EventsOf(s)[e].isSell <==> t.kind == Sell)
    requires u.at == EventsOf(s)[f].at && (EventsOf(s)[f].isSell <==> u.kind == Sell)
    ensures e < f
  {
    if f < e {
      EventsInOrder(s, f, e);
    }
  }

  /** Of two transactions of an item the earlier one draws on a layer that is not behind the other's. */
  lemma {:induction false} EarlierDrawsOlder(input: ItemInput, t: SyntheticTxn, u: SyntheticTxn)
    returns (i: nat, j: nat)
    requires WellFormed(input) && Resolve(input).Ok? && Earlier(t, u)
    requires var r := Resolve(input).value; t in r.sells + r.disposals && u in r.sells + r.disposals
    ensures i <= j < |Scope(input).layers|
    ensures Scope(input).layers[i].id == t.source && Scope(input).layers[j].id == u.source
  {
    var s := Scope(input);
    var ignored := ResolvedScope(input);
    SettledKinds(s, ignored);
    i, j := SettledInOrder(s, ignored, t, u);
  }

  lemma {:induction false} SettledInOrder(s: ItemInput, ignored: seq<nat>, t: SyntheticTxn, u: SyntheticTxn)
    returns (i: nat, j: nat)
    requires Settle(s, ignored).Ok? && WellKinded(s, Settle(s, ignored).value) && Earlier(t, u)
    requires var r := Settle(s, ignored).value; t in r.sells + r.disposals && u in r.sells + r.disposals
    ensures i <= j < |s.layers| && s.layers[i].id == t.source && s.layers[j].id == u.source
  {
    var events, n := EventsOf(s), |EventsOf(s)|;
    var e := TxnOfEvent(s.itemID, events, s.layers, t.kind, n, t);
    var f := TxnOfEvent(s.itemID, events, s.layers, u.kind, n, u);
    EarlierEvent(s, e, f, t, u);
    i := EventTxnGiven(s.itemID, events[e], s.layers, Demand(events, e), Demand(events, e + 1), |s.layers|, t);
    j := EventTxnGiven(s.itemID, events[f], s.layers, Demand(events, f), Demand(events, f + 1), |s.layers|, u);
    EventsPositive(s);
    DemandMonotone(events, e + 1, f);
    SpansInOrder(s.layers, i, j, Demand(events, e), Demand(events, e + 1), Demand(events, f), Demand(events, f + 1));
  }
}

/**
 When every transaction is backdated to a day on which its source already existed
 (cmd/util/reconcile.go, resolveItem). Sells always are; a disposal inside a window need not be. The
 exact condition is over the counts, disposes and layers that go in.
 */
module OwnDates {
  import opened Basics
  import opened Fifo
  import opened FifoLaws
  import opened Windows
  import opened Propagation
  import opened Resolver
  import opened ResolverLaws
  import opened Causality

  /** Every transaction of the resolution draws on a layer created at or before its own date. */
  ghost predicate DrawsByOwnDate(input: ItemInput, r: Resolution) {
    forall t :: t in r.sells + r.disposals ==> DrawsOnStockOf(input.layers, t, t.at)
  }

  /** How far count j, with what was disposed of by then, falls short of what was received by then. */
  ghost function Shortfall(s: ItemInput, j: nat): real
    requires j < |s.recs|
  {
    s.recs[j].qty + DisposalsBy(s.disposes, s.recs[j].at) - StockBy(s.layers, s.recs[j].at)
  }

  /** Count j is the last one by T or a later one. */
  ghost predicate NotBefore(recs: seq<Count>, j: nat, T: Instant) {
    j < |recs| && (j + 1 < |recs| ==> T < recs[j + 1].at)
  }

  /**
   The stock for what leaves by T had arrived by T. With counts: one of the counts from T on (or the
   last before T) leaves room, with the disposals between it and T, in what was received by T.
   Without counts only disposals leave.
   */
  ghost predicate StockWasThere(s: ItemInput, T: Instant) {
    if s.recs == [] then
      DisposalsBy(s.disposes, T) <= Available(s.layers, T)
    else
      exists j {:trigger NotBefore(s.recs, j, T)} ::
        NotBefore(s.recs, j, T) && Shortfall(s, j) >= DisposalsBy(s.disposes, T) - StockBy(s.layers, T)
  }

  /** Everything of the input that takes part: with counts, nothing after the last one. */
  ghost predicate TakesPart(input: ItemInput, d: Dispose) {
    d in input.disposes && d.qty > 0.0 && (input.recs != [] ==> d.at <= LastAt(input.recs))
  }

  // ----- what leaves by an instant -----

  /** The last count by T. */
  lemma {:induction false} LastCountBy(recs: seq<Count>, T: Instant) returns (m: nat)
    requires SortedBy(recs, CountTime()) && recs != [] && recs[0].at <= T
    ensures m < |recs| && recs[m].at <= T && NotBefore(recs, m, T)
    ensures forall k: nat {:trigger recs[k]} :: k < |recs| ==> (k <= m <==> recs[k].at <= T)
    ensures forall j: nat {:trigger NotBefore(recs, j, T)} :: NotBefore(recs, j, T) <==> m <= j < |recs|
  {
    m := 0;
    while m + 1 < |recs| && recs[m + 1].at <= T
      invariant m < |recs| && recs[m].at <= T
    {
      m := m + 1;
    }
    forall k: nat {:trigger recs[k]} | k < |recs|
      ensures k <= m <==> recs[k].at <= T
    {
      if k <= m {
        AtMost(recs, k, m);
      } else {
        AtMost(recs, m + 1, k);
      }
    }
  }

  lemma {:induction false} DropsBy(steps: seq<Step>, recs: seq<Count>, T: Instant, m: nat)
    requires |steps| == |recs| && m < |recs|
    requires forall k: nat {:trigger steps[k]} :: k < |recs| ==> steps[k].at == recs[k].at
    requires forall k: nat {:trigger recs[k]} :: k < |recs| ==> (k <= m <==> recs[k].at <= T)
    ensures SumBy(steps, DropBy(T)) == SumBy(steps[..m + 1], Drop())
  {
    var head, tail := steps[..m + 1], steps[m + 1..];
    assert steps == head + tail;
    forall k | 0 <= k < |head|
      ensures head[k].at <= T
    {
      assert recs[k].at == steps[k].at;
    }
    forall k | 0 <= k < |tail|
      ensures tail[k].at > T
    {
      assert recs[m + 1 + k].at == steps[m + 1 + k].at;
    }
    SumConcat(head, tail, DropBy(T));
    SumAgree(head, DropBy(T), Drop());
    SumZero(tail, DropBy(T));
  }

  /** The room that the corrected count m leaves is that of the best count from m on. */
  lemma {:induction false} RoomOfCount(s: ItemInput, m: nat, x: real)
    requires m < |s.recs|
    ensures Corrections(s)[m] + DisposalsBy(s.disposes, s.recs[m].at) - StockBy(s.layers, s.recs[m].at) >= x <==>
            exists j: nat {:trigger Shortfall(s, j)} :: m <= j < |s.recs| && Shortfall(s, j) >= x
  {
    var q, r, d := Quantities(s.recs), Received(s.recs, s.layers), Disposed(s.recs, s.disposes);
    var top := PeakIsMaximum(q, r, d, m);
    NetTelescopes(s, m);
    var offset := DisposalsBy(s.disposes, s.recs[0].at) - StockBy(s.layers, s.recs[0].at);
    forall j: nat {:trigger Shortfall(s, j)} | m <= j < |s.recs|
      ensures Shortfall(s, j) == CarriedBack(q, r, d, j) + offset
      ensures CarriedBack(q, r, d, j) <= Peak(q, r, d, m)
    {
      NetTelescopes(s, j);
    }
    assert Shortfall(s, top) == Peak(q, r, d, m) + offset;
  }

  /** What leaves by T fits what was received by T exactly when the stock was there. */
  lemma {:induction false} DueFits(s: ItemInput, T: Instant)
    requires InScope(s) && Corrections(s)[0] <= StartStock(s) && s.recs[0].at <= T
    ensures SumBy(EventsOf(s), DueBy(T)) <= StockBy(s.layers, T) <==> StockWasThere(s, T)
  {
    var m := LastCountBy(s.recs, T);
    EventsDue(s, T);
    StepDates(s);
    DropsBy(Steps(s), s.recs, T, m);
    DropsTelescope(s, m);
    var x := DisposalsBy(s.disposes, T) - StockBy(s.layers, T);
    RoomOfCount(s, m, x);
    if j: nat :| m <= j < |s.recs| && Shortfall(s, j) >= x {
      assert NotBefore(s.recs, j, T);
    }
    if StockWasThere(s, T) {
      var j :| NotBefore(s.recs, j, T) && Shortfall(s, j) >= x;
      assert m <= j;
    }
  }

  // ----- events and their dates -----

  lemma {:induction false} DisposeEventsAre(disposes: seq<Dispose>, e: Event)
    ensures e in DisposeEvents(disposes) <==>
            exists d :: d in disposes && d.qty > 0.0 && e == Event(d.at, d.qty, false)
  {
    if disposes != [] {
      var front, last := disposes[..|disposes| - 1], disposes[|disposes| - 1];
      assert disposes == front + [last];
      DisposeEventsAre(front, e);
    }
  }

  /** Every event is a sell at a count or a positive disposal. */
  lemma {:induction false} EventDate(s: ItemInput, e: Event)
    requires e in EventsOf(s)
    ensures (exists c :: c in s.recs && c.at == e.at) ||
            (exists d :: d in s.disposes && d.qty > 0.0 && d.at == e.at)
  {
    StableSortHas(SellEvents(Steps(s)) + DisposeEvents(s.disposes), EventTime());
    if e in SellEvents(Steps(s)) {
      SellAtCount(Steps(s), e);
      StepDates(s);
      var k :| 0 <= k < |Steps(s)| && Steps(s)[k].at == e.at;
      assert s.recs[k] in s.recs;
    } else {
      DisposeEventsAre(s.disposes, e);
    }
  }

  /** When transactions keep to stock of their own date, no more is due by any instant than the stock of it. */
  lemma {:induction false} OwnDatedMeansDue(item: nat, events: seq<Event>, layers: seq<Layer>, T: Instant)
    requires Servable(events, layers) && OwnDated(item, events, layers)
    ensures SumBy(events, DueBy(T)) <= Available(layers, T)
  {
    if SumBy(events, DueBy(T)) > Available(layers, T) {
      var t := Overreach(item, events, layers, T);
      LaterStockIncludes(layers, t, t.at, T);
      assert false;
    }
  }

  /** The stock was there for every positive disposal and at every count. */
  ghost predicate AlwaysThere(s: ItemInput) {
    && (forall d :: TakesPart(s, d) ==> StockWasThere(s, d.at))
    && (forall c :: c in s.recs ==> StockWasThere(s, c.at))
  }

  /** An item whose events are served, and at whose dates what is due fits exactly when the stock was there. */
  lemma {:induction false} ServedOwnDates(s: ItemInput)
    requires Servable(EventsOf(s), s.layers)
    requires forall d :: d in s.disposes && d.qty > 0.0 ==> TakesPart(s, d)
    requires forall d :: d in s.disposes ==>
               (SumBy(EventsOf(s), DueBy(d.at)) <= Available(s.layers, d.at) <==> StockWasThere(s, d.at))
    requires forall c :: c in s.recs ==>
               (SumBy(EventsOf(s), DueBy(c.at)) <= Available(s.layers, c.at) <==> StockWasThere(s, c.at))
    ensures OwnDated(s.itemID, EventsOf(s), s.layers) <==> AlwaysThere(s)
  {
    var events := EventsOf(s);
    OwnDatedWhenInTime(s.itemID, events, s.layers);
    if AlwaysThere(s) {
      forall e | 0 <= e < |events|
        ensures DueInTime(events, s.layers, e)
      {
        assert events[e] in events;
        EventDate(s, events[e]);
      }
    }
    if OwnDated(s.itemID, events, s.layers) {
      forall d | TakesPart(s, d)
        ensures StockWasThere(s, d.at)
      {
        OwnDatedMeansDue(s.itemID, events, s.layers, d.at);
      }
      forall c | c in s.recs
        ensures StockWasThere(s, c.at)
      {
        OwnDatedMeansDue(s.itemID, events, s.layers, c.at);
      }
    }
  }

  /** An accepted item with counts. */
  lemma {:induction false} CountedOwnDates(s: ItemInput)
    requires Accepted(s)
    ensures OwnDated(s.itemID, EventsOf(s), s.layers) <==> AlwaysThere(s)
  {
    AcceptedIsServable(s);
    forall d | d in s.disposes
      ensures SumBy(EventsOf(s), DueBy(d.at)) <= Available(s.layers, d.at) <==> StockWasThere(s, d.at)
    {
      UnconsumedAvailable(s.layers, d.at);
      DueFits(s, d.at);
    }
    forall c | c in s.recs
      ensures SumBy(EventsOf(s), DueBy(c.at)) <= Available(s.layers, c.at) <==> StockWasThere(s, c.at)
    {
      UnconsumedAvailable(s.layers, c.at);
      var k :| 0 <= k < |s.recs| && s.recs[k] == c;
      AtMost(s.recs, 0, k);
      DueFits(s, c.at);
    }
    ServedOwnDates(s);
  }

  /** An item without counts. */
  lemma {:induction false} UncountedOwnDates(s: ItemInput)
    requires s.recs == [] && WellFormed(s) && (forall d :: d in s.disposes ==> d.qty >= 0.0)
    requires TotalDemand(EventsOf(s)) <= Capacity(s.layers)
    ensures OwnDated(s.itemID, EventsOf(s), s.layers) <==> AlwaysThere(s)
  {
    EventsSorted(s);
    EventsPositive(s);
    forall d | d in s.disposes
      ensures SumBy(EventsOf(s), DueBy(d.at)) == DisposalsBy(s.disposes, d.at)
    {
      var unsorted := SellEvents(Steps(s)) + DisposeEvents(s.disposes);
      StableSortSorts(unsorted, EventTime());
      SumPermuted(EventsOf(s), unsorted, DueBy(d.at));
      assert unsorted == DisposeEvents(s.disposes);
      DisposeEventsDue(s.disposes, d.at);
    }
    ServedOwnDates(s);
  }

  /** A count that is not negative, nor any later one, leaves room for itself. */
  lemma {:induction false} StockIsThereAtCounts(s: ItemInput, k: nat)
    requires InScope(s) && Corrections(s)[0] <= StartStock(s) && k < |s.recs|
    requires forall c :: c in s.recs ==> c.qty >= 0.0
    ensures StockWasThere(s, s.recs[k].at)
  {
    CorrectedNotBelowCounts(s);
    var m := OutflowByInstant(s, k);
    AtMost(s.recs, 0, k);
    DueFits(s, s.recs[k].at);
  }

  // ----- the whole input -----

  lemma {:induction false} ScopeKeepsDraws(input: ItemInput, t: SyntheticTxn)
    requires input.recs != [] ==> t.at <= LastAt(input.recs)
    ensures DrawsOnStockOf(Scope(input).layers, t, t.at) <==> DrawsOnStockOf(input.layers, t, t.at)
  {
    var s := Scope(input);
    if i :| 0 <= i < |input.layers| && input.layers[i].id == t.source && input.layers[i].price == t.price
            && input.layers[i].createdAt <= t.at {
      assert input.layers[i] in s.layers;
      var j :| 0 <= j < |s.layers| && s.layers[j] == input.layers[i];
    }
    if j :| 0 <= j < |s.layers| && s.layers[j].id == t.source && s.layers[j].price == t.price
            && s.layers[j].createdAt <= t.at {
      assert s.layers[j] in input.layers;
      var i :| 0 <= i < |input.layers| && input.layers[i] == s.layers[j];
    }
  }

  lemma {:induction false} ScopeKeepsStock(input: ItemInput, T: Instant)
    requires SortedBy(input.recs, CountTime()) && (input.recs != [] ==> T <= LastAt(input.recs))
    ensures StockWasThere(Scope(input), T) <==> StockWasThere(input, T)
  {
    if input.recs != [] {
      ScopeKeepsSums(input, T);
      forall j: nat {:trigger NotBefore(input.recs, j, T)} | j < |input.recs|
        ensures Shortfall(Scope(input), j) == Shortfall(input, j)
      {
        AtMost(input.recs, j, |input.recs| - 1);
        ScopeKeepsSums(input, input.recs[j].at);
      }
    }
  }

  /** The transactions of a resolution are those of its events. */
  lemma {:induction false} DrawsAreOwnDated(input: ItemInput, s: ItemInput, r: Resolution)
    requires s == Scope(input) && (input.recs != [] ==> forall e :: e in EventsOf(s) ==> e.at <= LastAt(input.recs))
    requires r.sells == TxnsOf(s.itemID, EventsOf(s), s.layers, Sell, |EventsOf(s)|)
    requires r.disposals == TxnsOf(s.itemID, EventsOf(s), s.layers, Disposal, |EventsOf(s)|)
    ensures DrawsByOwnDate(input, r) <==> OwnDated(s.itemID, EventsOf(s), s.layers)
  {
    forall t | t in r.sells + r.disposals
      ensures IsTxnOf(s, t) && (DrawsOnStockOf(s.layers, t, t.at) <==> DrawsOnStockOf(input.layers, t, t.at))
    {
      var kind := if t in r.sells then Sell else Disposal;
      var e := TxnOfEvent(s.itemID, EventsOf(s), s.layers, kind, |EventsOf(s)|, t);
      assert EventsOf(s)[e] in EventsOf(s);
      ScopeKeepsDraws(input, t);
    }
    forall t | IsTxnOf(s, t)
      ensures t in r.sells + r.disposals
    {
    }
  }

  lemma {:induction false} ScopeIsAlwaysThere(input: ItemInput)
    requires SortedBy(input.recs, CountTime())
    ensures AlwaysThere(Scope(input)) <==> AlwaysThere(input)
  {
    var s := Scope(input);
    forall d
      ensures TakesPart(s, d) <==> TakesPart(input, d)
      ensures TakesPart(input, d) ==> (StockWasThere(s, d.at) <==> StockWasThere(input, d.at))
    {
      if TakesPart(input, d) {
        ScopeKeepsStock(input, d.at);
      }
    }
    forall c | c in input.recs
      ensures StockWasThere(s, c.at) <==> StockWasThere(input, c.at)
    {
      var k :| 0 <= k < |input.recs| && input.recs[k] == c;
      AtMost(input.recs, k, |input.recs| - 1);
      ScopeKeepsStock(input, c.at);
    }
  }

  /**
   Exactly when a resolution is causal day by day, negative counts included: when the stock was there
   for every disposal that takes part and at every count. With counts the ledger is unconsumed up to the
   last one, as the planner checks.
   */
  lemma {:induction false} OwnDateExactlyWhen(input: ItemInput)
    requires WellFormed(input) && (input.recs != [] ==> Unconsumed(Scope(input).layers))
    ensures Resolve(input).Ok? ==> (DrawsByOwnDate(input, Resolve(input).value) <==> AlwaysThere(input))
  {
    if Resolve(input).Ok? {
      var s := Scope(input);
      ScopeIsAlwaysThere(input);
      if input.recs == [] {
        UncountedOwnDates(s);
      } else {
        ResolvedIsInScope(input);
        CountedOwnDates(s);
        EventsEndAtLast(s);
      }
      DrawsAreOwnDated(input, s, Resolve(input).value);
    }
  }

  /** Where no count is negative only disposals can predate their source. */
  lemma {:induction false} OwnDateByDisposals(input: ItemInput)
    requires WellFormed(input) && (input.recs != [] ==> Unconsumed(Scope(input).layers))
    requires forall c :: c in input.recs ==> c.qty >= 0.0
    ensures Resolve(input).Ok? ==>
              (DrawsByOwnDate(input, Resolve(input).value) <==>
                forall d :: TakesPart(input, d) ==> StockWasThere(input, d.at))
  {
    OwnDateExactlyWhen(input);
    if Resolve(input).Ok? && input.recs != [] {
      ResolvedIsInScope(input);
      forall c | c in input.recs
        ensures StockWasThere(input, c.at)
      {
        var k :| 0 <= k < |input.recs| && input.recs[k] == c;
        AtMost(input.recs, k, |input.recs| - 1);
        StockIsThereAtCounts(Scope(input), k);
        ScopeKeepsStock(input, c.at);
      }
    }
  }

  /** Disposals that outrun the stock received by some instant are sourced from stock that did not exist yet. */
  lemma {:induction false} OutrunByDisposals(input: ItemInput, T: Instant)
    requires WellFormed(input) && input.recs != [] && Unconsumed(Scope(input).layers) && T <= LastAt(input.recs)
    requires DisposalsBy(input.disposes, T) > StockBy(input.layers, T)
    ensures Resolve(input).Ok? ==> !DrawsByOwnDate(input, Resolve(input).value)
  {
    if Resolve(input).Ok? {
      var s := Scope(input);
      ResolvedIsInScope(input);
      ScopeKeepsSums(input, T);
      EventsEndAtLast(s);
      DrawsAreOwnDated(input, s, Resolve(input).value);
      OutrunInScope(s, T);
    }
  }

  lemma {:induction false} OutrunInScope(s: ItemInput, T: Instant)
    requires Accepted(s) && DisposalsBy(s.disposes, T) > StockBy(s.layers, T)
    ensures !OwnDated(s.itemID, EventsOf(s), s.layers)
  {
    AcceptedIsServable(s);
    EventsDue(s, T);
    DropsNonNegative(s);
    SumNonNegative(Steps(s), DropBy(T));
    UnconsumedAvailable(s.layers, T);
    var t := Overreach(s.itemID, EventsOf(s), s.layers, T);
    LaterStockIncludes(s.layers, t, t.at, T);
  }

  // ----- an example -----

  /** Two counts of nothing around a disposal of 100, dated 10, whose only source is dated 20. */
  ghost predicate BackdatedExample(s: ItemInput, d: Dispose, l: Layer) {
    && s == ItemInput(1, [Count(1, 1, 0.0, 0.0), Count(2, 30, 0.0, 0.0)], [d], [l])
    && d == Dispose(3, 10, 100.0) && l == Layer(200, 20, 100.0, 0.0, 10.0)
  }

  lemma {:induction false} ExampleIsWellFormed(s: ItemInput, d: Dispose, l: Layer)
    requires BackdatedExample(s, d, l)
    ensures WellFormed(s)
  {
    assert s.recs[..1] == [s.recs[0]];
  }

  lemma {:induction false} ExampleIsInScope(s: ItemInput, d: Dispose, l: Layer)
    requires BackdatedExample(s, d, l)
    ensures Scope(s) == s && Unconsumed(s.layers)
  {
    FilterAll(s.layers, CreatedBy(30));
    FilterAll(s.disposes, RequestedBy(30));
  }

  lemma {:induction false} ExampleIsAttainable(s: ItemInput, d: Dispose, l: Layer)
    requires BackdatedExample(s, d, l)
    ensures CountsAttainable(s)
    ensures DisposalsBy(s.disposes, 10) > StockBy(s.layers, 10)
  {
    SumOne(d, DisposedBy(1));
    SumOne(d, DisposedBy(10));
    SumOne(d, DisposedBy(30));
    SumOne(l, ReceivedBy(1));
    SumOne(l, ReceivedBy(10));
    SumOne(l, ReceivedBy(30));
  }

  /**
   A disposal inside a window need not be causal: the example is accepted although its disposal is
   dated before its source existed, as the repository's own test of a future purchase expects.
   */
  lemma {:induction false} DisposalMayPredateItsSource() returns (s: ItemInput)
    ensures WellFormed(s) && Resolve(s).Ok? && Unconsumed(Scope(s).layers) && !DrawsByOwnDate(s, Resolve(s).value)
    ensures forall c :: c in s.recs ==> c.qty >= 0.0
  {
    var d, l := Dispose(3, 10, 100.0), Layer(200, 20, 100.0, 0.0, 10.0);
    s := ItemInput(1, [Count(1, 1, 0.0, 0.0), Count(2, 30, 0.0, 0.0)], [d], [l]);
    ExampleIsWellFormed(s, d, l);
    ExampleIsInScope(s, d, l);
    ExampleIsAttainable(s, d, l);
    ResolvesExactlyWhen(s);
    OutrunByDisposals(s, 10);
  }

  // ----- a negative count -----

  /** Counts of -5 at 1 and 0 at 30 around a layer of 5, dated 20. */
  ghost predicate NegativeExample(s: ItemInput, l: Layer) {
    s == ItemInput(1, [Count(1, 1, 0.0, -5.0), Count(2, 30, 0.0, 0.0)], [], [l]) && l == Layer(200, 20, 5.0, 0.0, 10.0)
  }

  lemma {:induction false} NegativeExampleResolves(s: ItemInput, l: Layer)
    requires NegativeExample(s, l)
    ensures WellFormed(s) && Unconsumed(Scope(s).layers) && Resolve(s).Ok?
  {
    assert s.recs[..1] == [s.recs[0]];
    FilterAll(s.layers, CreatedBy(30));
    SumOne(l, ReceivedBy(1));
    SumOne(l, ReceivedBy(30));
    ResolvesExactlyWhen(s);
  }

  /**
   Nothing keeps a count from being negative, and then a sell may predate its source: the example
   resolves, and the stock was not there at its first count although there is no disposal at all.
   */
  lemma {:induction false} SellMayPredateItsSource() returns (s: ItemInput)
    ensures WellFormed(s) && Resolve(s).Ok? && Unconsumed(Scope(s).layers) && !DrawsByOwnDate(s, Resolve(s).value)
    ensures s.disposes == []
  {
    var l := Layer(200, 20, 5.0, 0.0, 10.0);
    s := ItemInput(1, [Count(1, 1, 0.0, -5.0), Count(2, 30, 0.0, 0.0)], [], [l]);
    NegativeExampleResolves(s, l);
    SumOne(l, ReceivedBy(1));
    SumOne(l, ReceivedBy(30));
    assert !StockWasThere(s, 1) by {
      assert Shortfall(s, 0) == -5.0 && Shortfall(s, 1) == -5.0;
    }
    assert s.recs[0] in s.recs;
    OwnDateExactlyWhen(s);
  }
}

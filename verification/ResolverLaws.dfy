/**
 What the resolver guarantees (cmd/util/reconcile.go, resolveItem): what the windows between the counts
 add up to, when the resolver succeeds, and how much leaves the stock by when.
 */
module ResolverLaws {
  import opened Basics
  import opened Fifo
  import opened FifoLaws
  import opened Windows
  import opened Propagation
  import opened Resolver

  function DueBy(T: Instant): Event -> real {
    (e: Event) => if e.at <= T then e.qty else 0.0
  }

  function DropBy(T: Instant): Step -> real {
    (s: Step) => if s.at <= T then s.drop else 0.0
  }

  function Itself(): real -> real {
    (x: real) => x
  }

  function LayerQty(): Layer -> real {
    (l: Layer) => l.quantity
  }

  function RequestedQty(): Dispose -> real {
    (d: Dispose) => d.qty
  }

  function Drop(): Step -> real {
    (s: Step) => s.drop
  }

  /** Layers as the resolver's caller admits them: unconsumed, and not negative. */
  ghost predicate Unconsumed(layers: seq<Layer>) {
    forall l :: l in layers ==> l.consumed == 0.0 && l.quantity >= 0.0
  }

  /** An item in scope whose disposes are all after the first count and not negative. */
  ghost predicate InScope(s: ItemInput) {
    && s.recs != [] && WellFormed(s)
    && (forall l :: l in s.layers ==> l.createdAt <= LastAt(s.recs))
    && (forall d :: d in s.disposes ==> s.recs[0].at < d.at <= LastAt(s.recs) && d.qty >= 0.0)
  }

  /** Every count, plus what was disposed of by then, is covered by what had been received by then. */
  ghost predicate CountsAttainable(s: ItemInput) {
    forall j {:trigger s.recs[j]} :: 0 <= j < |s.recs| ==>
      s.recs[j].qty + DisposalsBy(s.disposes, s.recs[j].at) <= StockBy(s.layers, s.recs[j].at)
  }

  // ----- the counts -----

  /** The windows telescope: the net inflow up to count k is the stock received by then less the disposals by then. */
  lemma {:induction false} NetTelescopes(s: ItemInput, k: nat)
    requires k < |s.recs|
    ensures Net(Received(s.recs, s.layers), Disposed(s.recs, s.disposes), k)
         == StockBy(s.layers, s.recs[k].at) - StockBy(s.layers, s.recs[0].at)
            - DisposalsBy(s.disposes, s.recs[k].at) + DisposalsBy(s.disposes, s.recs[0].at)
  {
    if k > 0 {
      NetTelescopes(s, k - 1);
    }
  }

  lemma {:induction false} ReceivedUpTo(recs: seq<Count>, layers: seq<Layer>, k: nat)
    requires k < |recs|
    ensures SumBy(Received(recs, layers)[..k + 1], Itself())
         == StockBy(layers, recs[k].at) - StockBy(layers, recs[0].at)
  {
    SumStep(Received(recs, layers), k, Itself());
    if k > 0 {
      ReceivedUpTo(recs, layers, k - 1);
    }
  }

  lemma {:induction false} DisposedUpTo(recs: seq<Count>, disposes: seq<Dispose>, k: nat)
    requires k < |recs|
    ensures SumBy(Disposed(recs, disposes)[..k + 1], Itself())
         == DisposalsBy(disposes, recs[k].at) - DisposalsBy(disposes, recs[0].at)
  {
    SumStep(Disposed(recs, disposes), k, Itself());
    if k > 0 {
      DisposedUpTo(recs, disposes, k - 1);
    }
  }

  /**
   Nothing falls between the windows: the start stock and all that the windows received are the stock in
   scope, and all that the windows disposed of are the disposes in scope.
   */
  lemma {:induction false} WindowsHoldEverything(s: ItemInput)
    requires InScope(s)
    ensures StartStock(s) + SumBy(Received(s.recs, s.layers), Itself()) == SumBy(s.layers, LayerQty())
    ensures SumBy(Disposed(s.recs, s.disposes), Itself()) == SumBy(s.disposes, RequestedQty())
  {
    var n := |s.recs| - 1;
    ReceivedUpTo(s.recs, s.layers, n);
    DisposedUpTo(s.recs, s.disposes, n);
    NothingDisposedAtFirst(s);
    assert Received(s.recs, s.layers)[..n + 1] == Received(s.recs, s.layers);
    assert Disposed(s.recs, s.disposes)[..n + 1] == Disposed(s.recs, s.disposes);
    SumAgree(s.layers, ReceivedBy(LastAt(s.recs)), LayerQty());
    SumAgree(s.disposes, DisposedBy(LastAt(s.recs)), RequestedQty());
  }

  lemma {:induction false} NothingDisposedAtFirst(s: ItemInput)
    requires InScope(s)
    ensures DisposalsBy(s.disposes, s.recs[0].at) == 0.0
  {
    SumZero(s.disposes, DisposedBy(s.recs[0].at));
  }

  /** The guard on the first count speaks for all of them: it passes exactly when every count is attainable. */
  lemma {:induction false} GuardMeansAttainable(s: ItemInput)
    requires InScope(s)
    ensures Corrections(s)[0] <= StartStock(s) <==> CountsAttainable(s)
  {
    var q, r, d := Quantities(s.recs), Received(s.recs, s.layers), Disposed(s.recs, s.disposes);
    var top := PeakIsMaximum(q, r, d, 0);
    NothingDisposedAtFirst(s);
    NetTelescopes(s, top);
    forall j | 0 <= j < |s.recs|
      ensures CarriedBack(q, r, d, j) <= Peak(q, r, d, 0)
      ensures CarriedBack(q, r, d, j) - StartStock(s)
           == s.recs[j].qty + DisposalsBy(s.disposes, s.recs[j].at) - StockBy(s.layers, s.recs[j].at)
    {
      NetTelescopes(s, j);
    }
  }

  /** The drops up to count n add up to what the books say minus what was counted. */
  lemma {:induction false} DropsTelescope(s: ItemInput, n: nat)
    requires InScope(s) && n < |s.recs|
    ensures SumBy(Steps(s)[..n + 1], Drop())
         == StockBy(s.layers, s.recs[n].at) - DisposalsBy(s.disposes, s.recs[n].at) - Corrections(s)[n]
  {
    var r, d := Received(s.recs, s.layers), Disposed(s.recs, s.disposes);
    SumStep(Steps(s), n, Drop());
    StepsFromAt(s.recs, StartStock(s), Corrections(s), r, d, |s.recs|, n);
    if n == 0 {
      NothingDisposedAtFirst(s);
    } else {
      DropsTelescope(s, n - 1);
    }
  }

  /** No drop is negative once the guard has passed. */
  lemma {:induction false} DropsNonNegative(s: ItemInput)
    requires InScope(s) && Corrections(s)[0] <= StartStock(s)
    ensures forall t :: t in Steps(s) ==> t.drop >= 0.0
  {
    var q, r, d := Quantities(s.recs), Received(s.recs, s.layers), Disposed(s.recs, s.disposes);
    CorrectedIsLeast(q, r, d);
    forall k | 0 <= k < |s.recs|
      ensures Steps(s)[k].drop >= 0.0
    {
      StepsFromAt(s.recs, StartStock(s), Corrections(s), r, d, |s.recs|, k);
    }
  }

  // ----- the events -----

  lemma {:induction false} SellEventsDue(steps: seq<Step>, T: Instant)
    requires forall t :: t in steps ==> t.drop >= 0.0
    ensures SumBy(SellEvents(steps), DueBy(T)) == SumBy(steps, DropBy(T))
  {
    if steps != [] {
      var t := steps[|steps| - 1];
      assert t in steps;
      SellEventsDue(steps[..|steps| - 1], T);
      if t.drop > 0.0 {
        SumSnoc(SellEvents(steps[..|steps| - 1]), Event(t.at, t.drop, true), DueBy(T));
      } else {
        assert SellEvents(steps) == SellEvents(steps[..|steps| - 1]);
      }
    }
  }

  lemma {:induction false} DisposeEventsDue(disposes: seq<Dispose>, T: Instant)
    requires forall d :: d in disposes ==> d.qty >= 0.0
    ensures SumBy(DisposeEvents(disposes), DueBy(T)) == DisposalsBy(disposes, T)
  {
    if disposes != [] {
      var d := disposes[|disposes| - 1];
      assert d in disposes;
      DisposeEventsDue(disposes[..|disposes| - 1], T);
      if d.qty > 0.0 {
        SumSnoc(DisposeEvents(disposes[..|disposes| - 1]), Event(d.at, d.qty, false), DueBy(T));
      } else {
        assert DisposeEvents(disposes) == DisposeEvents(disposes[..|disposes| - 1]);
      }
    }
  }

  lemma {:induction false} EventsDue(s: ItemInput, T: Instant)
    requires InScope(s) && Corrections(s)[0] <= StartStock(s)
    ensures SumBy(EventsOf(s), DueBy(T)) == SumBy(Steps(s), DropBy(T)) + DisposalsBy(s.disposes, T)
  {
    var unsorted := SellEvents(Steps(s)) + DisposeEvents(s.disposes);
    StableSortSorts(unsorted, EventTime());
    SumPermuted(EventsOf(s), unsorted, DueBy(T));
    SumConcat(SellEvents(Steps(s)), DisposeEvents(s.disposes), DueBy(T));
    DropsNonNegative(s);
    SellEventsDue(Steps(s), T);
    DisposeEventsDue(s.disposes, T);
  }

  /** Count m is the last of its instant. */
  ghost predicate LastOfInstant(recs: seq<Count>, m: nat) {
    m < |recs| && (m + 1 < |recs| ==> recs[m].at < recs[m + 1].at)
  }

  lemma {:induction false} StepDates(s: ItemInput)
    ensures forall k: nat {:trigger Steps(s)[k]} :: k < |s.recs| ==> Steps(s)[k].at == s.recs[k].at
  {
    forall k: nat {:trigger Steps(s)[k]} | k < |s.recs|
      ensures Steps(s)[k].at == s.recs[k].at
    {
      StepsFromAt(s.recs, StartStock(s), Corrections(s), Received(s.recs, s.layers), Disposed(s.recs, s.disposes),
        |s.recs|, k);
    }
  }

  lemma {:induction false} DropsByInstant(recs: seq<Count>, steps: seq<Step>, m: nat)
    requires SortedBy(recs, CountTime()) && LastOfInstant(recs, m) && |steps| == |recs|
    requires forall k: nat {:trigger steps[k]} :: k < |recs| ==> steps[k].at == recs[k].at
    ensures SumBy(steps, DropBy(recs[m].at)) == SumBy(steps[..m + 1], Drop())
  {
    var T := recs[m].at;
    forall k: nat {:trigger steps[k]} | k < |steps|
      ensures k <= m <==> steps[k].at <= T
    {
      if k <= m {
        AtMost(recs, k, m);
      } else {
        AtMost(recs, m + 1, k);
      }
    }
    var head, tail := steps[..m + 1], steps[m + 1..];
    assert steps == head + tail;
    SumConcat(head, tail, DropBy(T));
    SumAgree(head, DropBy(T), Drop());
    SumZero(tail, DropBy(T));
  }

  /** The outflow dated by a count leaves exactly that count: stock received by then minus the corrected count. */
  lemma {:induction false} OutflowByCount(s: ItemInput, m: nat)
    requires InScope(s) && Corrections(s)[0] <= StartStock(s) && LastOfInstant(s.recs, m)
    ensures SumBy(EventsOf(s), DueBy(s.recs[m].at)) == StockBy(s.layers, s.recs[m].at) - Corrections(s)[m]
  {
    EventsDue(s, s.recs[m].at);
    StepDates(s);
    DropsByInstant(s.recs, Steps(s), m);
    DropsTelescope(s, m);
  }

  function EventQty(): Event -> real {
    (e: Event) => e.qty
  }

  lemma {:induction false} DemandIsSum(events: seq<Event>, n: nat)
    requires n <= |events|
    ensures Demand(events, n) == SumBy(events[..n], EventQty())
  {
    if n > 0 {
      DemandIsSum(events, n - 1);
      SumStep(events, n - 1, EventQty());
    }
  }

  /** On sorted events the ones due by T come first, and their demand is the sum of the quantities due by T. */
  lemma {:induction false} DueIsPrefix(events: seq<Event>, T: Instant) returns (n: nat)
    requires SortedBy(events, EventTime())
    ensures n <= |events| && Demand(events, n) == SumBy(events, DueBy(T))
    ensures forall e :: 0 <= e < |events| ==> (e < n <==> events[e].at <= T)
  {
    n := |events|;
    while n > 0 && events[n - 1].at > T
      invariant n <= |events|
      invariant forall e :: n <= e < |events| ==> events[e].at > T
    {
      n := n - 1;
    }
    forall e | 0 <= e < n
      ensures events[e].at <= T
    {
      InOrder(events, EventTime(), e, n - 1);
    }
    assert events == events[..n] + events[n..];
    SumConcat(events[..n], events[n..], DueBy(T));
    SumZero(events[n..], DueBy(T));
    SumAgree(events[..n], DueBy(T), EventQty());
    DemandIsSum(events, n);
  }

  lemma {:induction false} EventsSorted(s: ItemInput)
    ensures SortedBy(EventsOf(s), EventTime())
  {
    StableSortSorts(SellEvents(Steps(s)) + DisposeEvents(s.disposes), EventTime());
  }

  lemma {:induction false} EventsInScope(steps: seq<Step>, disposes: seq<Dispose>, T: Instant)
    requires forall t :: t in steps ==> t.at <= T
    requires forall d :: d in disposes ==> d.at <= T
    ensures forall e :: e in SellEvents(steps) + DisposeEvents(disposes) ==> e.at <= T
    decreases |steps| + |disposes|
  {
    if steps != [] {
      assert steps[|steps| - 1] in steps;
      EventsInScope(steps[..|steps| - 1], disposes, T);
    } else if disposes != [] {
      assert disposes[|disposes| - 1] in disposes;
      EventsInScope(steps, disposes[..|disposes| - 1], T);
    }
  }

  lemma {:induction false} StepsInScope(recs: seq<Count>, steps: seq<Step>)
    requires recs != [] && SortedBy(recs, CountTime()) && |steps| == |recs|
    requires forall k: nat {:trigger steps[k]} :: k < |recs| ==> steps[k].at == recs[k].at
    ensures forall t :: t in steps ==> t.at <= LastAt(recs)
  {
    forall k: nat {:trigger steps[k]} | k < |recs|
      ensures steps[k].at <= LastAt(recs)
    {
      AtMost(recs, k, |recs| - 1);
    }
  }

  /** No event is dated after the last count. */
  lemma {:induction false} EventsEndAtLast(s: ItemInput)
    requires InScope(s)
    ensures forall e :: e in EventsOf(s) ==> e.at <= LastAt(s.recs)
  {
    StepDates(s);
    StepsInScope(s.recs, Steps(s));
    EventsInScope(Steps(s), s.disposes, LastAt(s.recs));
    StableSortHas(SellEvents(Steps(s)) + DisposeEvents(s.disposes), EventTime());
  }

  lemma {:induction false} AllDue(events: seq<Event>, T: Instant)
    requires forall e :: e in events ==> e.at <= T
    ensures TotalDemand(events) == SumBy(events, DueBy(T))
  {
    DemandIsSum(events, |events|);
    assert events[..|events|] == events;
    SumAgree(events, DueBy(T), EventQty());
  }

  lemma {:induction false} LastCorrection(s: ItemInput)
    requires s.recs != []
    ensures Corrections(s)[|s.recs| - 1] == s.recs[|s.recs| - 1].qty
  {
    LastCountStands(Quantities(s.recs), Received(s.recs, s.layers), Disposed(s.recs, s.disposes));
  }

  /** Conservation: everything that leaves is the stock in scope less the last count. */
  lemma {:induction false} TotalOutflow(s: ItemInput)
    requires InScope(s) && Corrections(s)[0] <= StartStock(s)
    ensures TotalDemand(EventsOf(s)) == StockBy(s.layers, LastAt(s.recs)) - s.recs[|s.recs| - 1].qty
  {
    OutflowByCount(s, |s.recs| - 1);
    LastCorrection(s);
    EventsEndAtLast(s);
    AllDue(EventsOf(s), LastAt(s.recs));
  }

  // ----- success -----

  lemma {:induction false} UnconsumedAvailable(layers: seq<Layer>, T: Instant)
    requires Unconsumed(layers)
    ensures Available(layers, T) == StockBy(layers, T)
  {
    SumAgree(layers, UnconsumedBy(T), ReceivedBy(T));
  }

  lemma {:induction false} CapacityIsAvailable(layers: seq<Layer>, T: Instant)
    requires forall l :: l in layers ==> l.createdAt <= T
    ensures Capacity(layers) == Available(layers, T)
  {
    BeforeIsSum(layers, T, |layers|);
    assert layers[..|layers|] == layers;
  }

  /** With an unconsumed ledger and the guard passed, the ledger runs dry exactly when the last count is negative. */
  lemma {:induction false} GuardMeansSufficient(s: ItemInput)
    requires InScope(s) && Unconsumed(s.layers) && Corrections(s)[0] <= StartStock(s)
    ensures TotalDemand(EventsOf(s)) <= Capacity(s.layers) <==> s.recs[|s.recs| - 1].qty >= 0.0
  {
    TotalOutflow(s);
    CapacityIsAvailable(s.layers, LastAt(s.recs));
    UnconsumedAvailable(s.layers, LastAt(s.recs));
  }

  // ----- from the whole input to its scope -----

  lemma {:induction false} ScopeIsWellFormed(input: ItemInput)
    requires WellFormed(input)
    ensures WellFormed(Scope(input))
  {
    if input.recs != [] {
      FilterKeepsIds(input.layers, CreatedBy(LastAt(input.recs)));
      FilterSorted(input.layers, CreatedBy(LastAt(input.recs)), LayerTime());
    }
  }

  /** What is in scope decides every sum up to the last count. */
  lemma {:induction false} ScopeKeepsSums(input: ItemInput, T: Instant)
    requires input.recs != [] && T <= LastAt(input.recs)
    ensures StockBy(Scope(input).layers, T) == StockBy(input.layers, T)
    ensures DisposalsBy(Scope(input).disposes, T) == DisposalsBy(input.disposes, T)
  {
    SumFiltered(input.layers, CreatedBy(LastAt(input.recs)), ReceivedBy(T));
    SumFiltered(input.disposes, RequestedBy(LastAt(input.recs)), DisposedBy(T));
  }

  lemma {:induction false} ScopeIsInScope(input: ItemInput)
    requires WellFormed(input) && input.recs != []
    ensures InScope(Scope(input)) <==>
            forall d :: d in Scope(input).disposes ==> d.at > input.recs[0].at && d.qty >= 0.0
  {
    ScopeIsWellFormed(input);
  }

  lemma {:induction false} AttainableInScope(input: ItemInput)
    requires WellFormed(input) && input.recs != []
    ensures CountsAttainable(Scope(input)) <==> CountsAttainable(input)
  {
    forall j: nat | j < |input.recs|
      ensures StockBy(Scope(input).layers, input.recs[j].at) == StockBy(input.layers, input.recs[j].at)
      ensures DisposalsBy(Scope(input).disposes, input.recs[j].at) == DisposalsBy(input.disposes, input.recs[j].at)
    {
      AtMost(input.recs, j, |input.recs| - 1);
      ScopeKeepsSums(input, input.recs[j].at);
    }
  }

  /** Exactly when an item with counts resolves, over a ledger that is unconsumed up to the last count. */
  lemma {:induction false} ResolvesExactlyWhen(input: ItemInput)
    requires WellFormed(input) && input.recs != [] && Unconsumed(Scope(input).layers)
    ensures Resolve(input).Ok? <==>
            && (forall d :: d in input.disposes ==> d.qty >= 0.0 && d.at > input.recs[0].at)
            && CountsAttainable(input)
            && input.recs[|input.recs| - 1].qty >= 0.0
  {
    var s := Scope(input);
    AtMost(input.recs, 0, |input.recs| - 1);
    assert forall d :: d in input.disposes && d !in s.disposes ==> d.at > LastAt(input.recs);
    assert FirstEarly(s.disposes, input.recs[0].at) == None <==>
      forall d :: d in input.disposes ==> d.at > input.recs[0].at;
    if forall d :: d in input.disposes ==> d.qty >= 0.0 && d.at > input.recs[0].at {
      ScopeIsInScope(input);
      GuardMeansAttainable(s);
      AttainableInScope(input);
      if Corrections(s)[0] <= StartStock(s) {
        GuardMeansSufficient(s);
      }
    }
  }

  lemma {:induction false} DisposeEventsDemand(disposes: seq<Dispose>)
    requires forall d :: d in disposes ==> d.qty >= 0.0
    ensures SumBy(DisposeEvents(disposes), EventQty()) == SumBy(disposes, RequestedQty())
  {
    if disposes != [] {
      var front, d := disposes[..|disposes| - 1], disposes[|disposes| - 1];
      assert d in disposes;
      DisposeEventsDemand(front);
      if d.qty > 0.0 {
        SumSnoc(DisposeEvents(front), Event(d.at, d.qty, false), EventQty());
      } else {
        assert DisposeEvents(disposes) == DisposeEvents(front);
      }
    }
  }

  /** Without counts all that leaves is what was requested. */
  lemma {:induction false} UncountedDemand(input: ItemInput)
    requires input.recs == [] && forall d :: d in input.disposes ==> d.qty >= 0.0
    ensures TotalDemand(EventsOf(input)) == SumBy(input.disposes, RequestedQty())
  {
    var events, unsorted := EventsOf(input), SellEvents(Steps(input)) + DisposeEvents(input.disposes);
    DisposeEventsDemand(input.disposes);
    assert unsorted == DisposeEvents(input.disposes);
    StableSortSorts(unsorted, EventTime());
    SumPermuted(events, unsorted, EventQty());
    DemandIsSum(events, |events|);
    assert events[..|events|] == events;
  }

  /** Exactly when an item without counts resolves: the whole ledger covers its disposes, whatever the dates. */
  lemma {:induction false} UncountedResolvesExactlyWhen(input: ItemInput)
    requires input.recs == []
    ensures Resolve(input).Ok? <==>
            && (forall d :: d in input.disposes ==> d.qty >= 0.0)
            && SumBy(input.disposes, RequestedQty()) <= Capacity(input.layers)
  {
    if forall d :: d in input.disposes ==> d.qty >= 0.0 {
      UncountedDemand(input);
    }
  }

  lemma {:induction false} SettlesPastGuard(s: ItemInput, ignored: seq<nat>)
    requires InScope(s) && Unconsumed(s.layers) && Corrections(s)[0] <= StartStock(s)
    requires s.recs[|s.recs| - 1].qty >= 0.0
    ensures Settle(s, ignored).Ok?
  {
    GuardMeansSufficient(s);
  }

  /** An accepted input is in scope and past its guard. */
  lemma {:induction false} ResolvedIsInScope(input: ItemInput)
    requires WellFormed(input) && input.recs != []
    ensures Resolve(input).Ok? ==>
              && InScope(Scope(input)) && Corrections(Scope(input))[0] <= StartStock(Scope(input))
              && forall d :: d in input.disposes ==> d.qty >= 0.0
  {
    ScopeIsInScope(input);
  }

  /** With non-negative counts, "insufficient stock" is unreachable: every other check comes first. */
  lemma {:induction false} NeverInsufficient(input: ItemInput)
    requires WellFormed(input) && input.recs != [] && Unconsumed(Scope(input).layers)
    requires forall c :: c in input.recs ==> c.qty >= 0.0
    ensures !(Resolve(input).Err? && Resolve(input).error.InsufficientStock?)
  {
    var s := Scope(input);
    assert input.recs[|input.recs| - 1] in input.recs;
    if FirstNegative(input.disposes).None? && FirstEarly(s.disposes, s.recs[0].at).None?
       && Corrections(s)[0] <= StartStock(s) {
      ScopeIsInScope(input);
      SettlesPastGuard(s, Trailing(input.recs, input.disposes));
    }
  }
}

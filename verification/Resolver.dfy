/**
 The resolver of one item (cmd/util/reconcile.go, resolveItem): scope, windows, propagation, drops,
 events and FIFO consumption, with the loops of the source proved against the closed form `Resolve`.
 */
module Resolver {
  import opened Basics
  import opened Fifo
  import opened Windows
  import opened Propagation

  /** The item's counts, disposes and stock layers, each in chronological order. */
  datatype ItemInput = ItemInput(itemID: nat, recs: seq<Count>, disposes: seq<Dispose>, layers: seq<Layer>)

  /** The outcome for one count. */
  datatype Step = Step(subID: nat, at: Instant, origQty: real, newQty: real, prevQty: real, drop: real, corrected: bool)

  datatype Resolution = Resolution(
    startStock: real, steps: seq<Step>, sells: seq<SyntheticTxn>, disposals: seq<SyntheticTxn>,
    consumedAfter: map<nat, real>, ignored: seq<nat>)

  datatype ResolveError =
    | NegativeDispose(subID: nat, qty: real)
    | DisposeOutOfScope(subID: nat)
    | FirstCountAboveStart(corrected: real, start: real)
    | InsufficientStock(shortage: Shortage)

  ghost predicate WellFormed(input: ItemInput) {
    && SortedBy(input.recs, CountTime())
    && DistinctIds(input.layers) && Chronological(input.layers)
  }

  function CreatedBy(T: Instant): Layer -> bool {
    (l: Layer) => l.createdAt <= T
  }

  function RequestedBy(T: Instant): Dispose -> bool {
    (d: Dispose) => d.at <= T
  }

  function EventTime(): Event -> int {
    (e: Event) => e.at
  }

  function LastAt(recs: seq<Count>): Instant
    requires recs != []
  {
    recs[|recs| - 1].at
  }

  // ----- the closed form -----

  ghost function FirstNegative(disposes: seq<Dispose>): (r: Option<Dispose>)
    ensures r == None <==> forall d :: d in disposes ==> d.qty >= 0.0
  {
    if disposes == [] then
      None
    else
      var front, d := disposes[..|disposes| - 1], disposes[|disposes| - 1];
      assert disposes == front + [d];
      var r := FirstNegative(front);
      if r.Some? then r else if d.qty < 0.0 then Some(d) else None
  }

  /** The part of the input that takes part: with counts, nothing after the last count does. */
  ghost function Scope(input: ItemInput): ItemInput {
    if input.recs == [] then
      input
    else
      input.(disposes := Filter(input.disposes, RequestedBy(LastAt(input.recs))),
             layers := Filter(input.layers, CreatedBy(LastAt(input.recs))))
  }

  /** The submissions of the disposes after the last count. */
  ghost function Trailing(recs: seq<Count>, disposes: seq<Dispose>): seq<nat> {
    if recs == [] || disposes == [] then
      []
    else
      var d := disposes[|disposes| - 1];
      Trailing(recs, disposes[..|disposes| - 1]) + if d.at <= LastAt(recs) then [] else [d.subID]
  }

  ghost function Quantities(recs: seq<Count>): (r: seq<real>)
    ensures |r| == |recs|
  {
    seq(|recs|, k requires 0 <= k < |recs| => recs[k].qty)
  }

  /** The corrected counts of an item in scope. */
  ghost function Corrections(s: ItemInput): (r: seq<real>)
    ensures |r| == |s.recs|
  {
    CorrectedCounts(Quantities(s.recs), Received(s.recs, s.layers), Disposed(s.recs, s.disposes))
  }

  /** The stock at the first count: everything received by then. */
  ghost function StartStock(s: ItemInput): real {
    if s.recs == [] then 0.0 else StockBy(s.layers, s.recs[0].at)
  }

  /** The stock just before count k, given the corrected counts c. */
  function StockBefore(start: real, c: seq<real>, received: seq<real>, disposed: seq<real>, k: nat): real
    requires k < |c| == |received| == |disposed|
  {
    if k == 0 then start else c[k - 1] + received[k] - disposed[k]
  }

  function StepAt(rec: Count, newQty: real, prev: real): Step {
    Step(rec.subID, rec.at, rec.qty, newQty, prev, prev - newQty, newQty != rec.qty)
  }

  ghost function StepsFrom(
    recs: seq<Count>, start: real, c: seq<real>, received: seq<real>, disposed: seq<real>, n: nat)
    : (r: seq<Step>)
    requires n <= |recs| == |c| == |received| == |disposed|
    ensures |r| == n
  {
    if n == 0 then
      []
    else
      StepsFrom(recs, start, c, received, disposed, n - 1)
      + [StepAt(recs[n - 1], c[n - 1], StockBefore(start, c, received, disposed, n - 1))]
  }

  lemma {:induction false} StepsFromAt(
    recs: seq<Count>, start: real, c: seq<real>, received: seq<real>, disposed: seq<real>, n: nat, k: nat)
    requires k < n <= |recs| == |c| == |received| == |disposed|
    ensures StepsFrom(recs, start, c, received, disposed, n)[k]
         == StepAt(recs[k], c[k], StockBefore(start, c, received, disposed, k))
  {
    if k < n - 1 {
      StepsFromAt(recs, start, c, received, disposed, n - 1, k);
    }
  }

  /** The outcome of every count of an item in scope. */
  ghost function Steps(s: ItemInput): (r: seq<Step>)
    ensures |r| == |s.recs|
  {
    StepsFrom(s.recs, StartStock(s), Corrections(s), Received(s.recs, s.layers), Disposed(s.recs, s.disposes), |s.recs|)
  }

  ghost function SellEvents(steps: seq<Step>): seq<Event> {
    if steps == [] then
      []
    else
      var s := steps[|steps| - 1];
      SellEvents(steps[..|steps| - 1]) + if s.drop > 0.0 then [Event(s.at, s.drop, true)] else []
  }

  ghost function DisposeEvents(disposes: seq<Dispose>): seq<Event> {
    if disposes == [] then
      []
    else
      var d := disposes[|disposes| - 1];
      DisposeEvents(disposes[..|disposes| - 1]) + if d.qty > 0.0 then [Event(d.at, d.qty, false)] else []
  }

  /** The consumption events of an item in scope, by date; a sell comes before a disposal of the same instant. */
  ghost function EventsOf(s: ItemInput): seq<Event> {
    StableSort(SellEvents(Steps(s)) + DisposeEvents(s.disposes), EventTime())
  }

  /** The outcome once the counts are settled: what the FIFO consumption makes of the events. */
  ghost function Settle(s: ItemInput, ignored: seq<nat>): Result<Resolution, ResolveError> {
    match Consume(s.itemID, s.layers, EventsOf(s))
    case Err(shortage) => Err(InsufficientStock(shortage))
    case Ok(c) =>
      Ok(Resolution(StartStock(s), Steps(s), c.sells, c.disposals, c.consumedAfter, ignored))
  }

  /** The resolver in closed form. */
  ghost function Resolve(input: ItemInput): Result<Resolution, ResolveError> {
    var s := Scope(input);
    var negative := FirstNegative(input.disposes);
    if negative.Some? then
      Err(NegativeDispose(negative.value.subID, negative.value.qty))
    else if s.recs == [] then
      Settle(s, [])
    else
      var early := FirstEarly(s.disposes, s.recs[0].at);
      if early.Some? then
        Err(DisposeOutOfScope(early.value.subID))
      else if Corrections(s)[0] > StartStock(s) then
        Err(FirstCountAboveStart(Corrections(s)[0], StartStock(s)))
      else
        Settle(s, Trailing(input.recs, input.disposes))
  }

  // ----- small facts the loops need -----

  lemma {:induction false} FirstNegativeStays(disposes: seq<Dispose>, n: nat)
    requires n <= |disposes| && FirstNegative(disposes[..n]).Some?
    ensures FirstNegative(disposes) == FirstNegative(disposes[..n])
    decreases |disposes| - n
  {
    if n == |disposes| {
      assert disposes[..n] == disposes;
    } else {
      assert disposes[..n + 1][..n] == disposes[..n];
      FirstNegativeStays(disposes, n + 1);
    }
  }

  lemma {:induction false} FilterKeepsIds(layers: seq<Layer>, p: Layer -> bool)
    requires DistinctIds(layers)
    ensures DistinctIds(Filter(layers, p))
  {
    if layers != [] {
      var front := layers[..|layers| - 1];
      FilterKeepsIds(front, p);
      forall l | l in Filter(front, p)
        ensures l.id != layers[|layers| - 1].id
      {
        var i :| 0 <= i < |front| && front[i] == l;
        assert layers[i] == l;
      }
    }
  }

  lemma {:induction false} SellEventsPositive(steps: seq<Step>)
    ensures Positive(SellEvents(steps))
  {
    if steps != [] {
      SellEventsPositive(steps[..|steps| - 1]);
    }
  }

  lemma {:induction false} DisposeEventsPositive(disposes: seq<Dispose>)
    ensures Positive(DisposeEvents(disposes))
  {
    if disposes != [] {
      DisposeEventsPositive(disposes[..|disposes| - 1]);
    }
  }

  lemma {:induction false} EventsPositive(s: ItemInput)
    ensures Positive(EventsOf(s))
  {
    SellEventsPositive(Steps(s));
    DisposeEventsPositive(s.disposes);
    StableSortHas(SellEvents(Steps(s)) + DisposeEvents(s.disposes), EventTime());
  }

  lemma {:induction false} StepsPrefix(steps: seq<Step>, k: nat)
    requires k < |steps|
    ensures SellEvents(steps[..k + 1]) ==
            SellEvents(steps[..k]) + if steps[k].drop > 0.0 then [Event(steps[k].at, steps[k].drop, true)] else []
  {
    assert steps[..k + 1][..k] == steps[..k];
  }

  lemma {:induction false} DisposesPrefix(disposes: seq<Dispose>, k: nat)
    requires k < |disposes|
    ensures DisposeEvents(disposes[..k + 1])
         == DisposeEvents(disposes[..k]) + if disposes[k].qty > 0.0
           then [Event(disposes[k].at, disposes[k].qty, false)] else []
  {
    assert disposes[..k + 1][..k] == disposes[..k];
  }

  // ----- the loops -----

  /** Whether a layer is dated strictly after the last count. */
  predicate IsTrailingPurchase(purchaseAt: Instant, lastReconcileAt: Instant) {
    purchaseAt > lastReconcileAt
  }

  method CheckDisposes(disposes: seq<Dispose>) returns (negative: Option<Dispose>)
    ensures negative == FirstNegative(disposes)
  {
    var i := 0;
    while i < |disposes|
      invariant i <= |disposes| && FirstNegative(disposes[..i]) == None
    {
      assert disposes[..i + 1][..i] == disposes[..i];
      if disposes[i].qty < 0.0 {
        FirstNegativeStays(disposes, i + 1);
        return Some(disposes[i]);
      }
      i := i + 1;
    }
    assert disposes[..i] == disposes;
    return None;
  }

  method KeepLayers(layers: seq<Layer>, last: Instant) returns (kept: seq<Layer>)
    ensures kept == Filter(layers, CreatedBy(last))
  {
    kept := [];
    var i := 0;
    while i < |layers|
      invariant i <= |layers| && kept == Filter(layers[..i], CreatedBy(last))
    {
      FilterStep(layers, i, CreatedBy(last));
      if !IsTrailingPurchase(layers[i].createdAt, last) {
        kept := kept + [layers[i]];
      }
      i := i + 1;
    }
    assert layers[..i] == layers;
  }

  method KeepDisposes(recs: seq<Count>, disposes: seq<Dispose>) returns (kept: seq<Dispose>, ignored: seq<nat>)
    requires recs != []
    ensures kept == Filter(disposes, RequestedBy(LastAt(recs)))
    ensures ignored == Trailing(recs, disposes)
  {
    kept, ignored := [], [];
    var last := LastAt(recs);
    var i := 0;
    while i < |disposes|
      invariant i <= |disposes| && kept == Filter(disposes[..i], RequestedBy(last))
      invariant ignored == Trailing(recs, disposes[..i])
    {
      FilterStep(disposes, i, RequestedBy(last));
      assert disposes[..i + 1][..i] == disposes[..i];
      if disposes[i].at > last {
        ignored := ignored + [disposes[i].subID];
      } else {
        kept := kept + [disposes[i]];
      }
      i := i + 1;
    }
    assert disposes[..i] == disposes;
  }

  method SumStartStock(layers: seq<Layer>, first: Instant) returns (startStock: real)
    ensures startStock == StockBy(layers, first)
  {
    startStock := 0.0;
    var i := 0;
    while i < |layers|
      invariant i <= |layers| && startStock == StockBy(layers[..i], first)
    {
      SumStep(layers, i, ReceivedBy(first));
      if layers[i].createdAt <= first {
        startStock := startStock + layers[i].quantity;
      }
      i := i + 1;
    }
    assert layers[..i] == layers;
  }

  method BuildEvents(steps: seq<Step>, disposes: seq<Dispose>) returns (events: seq<Event>)
    ensures events == StableSort(SellEvents(steps) + DisposeEvents(disposes), EventTime())
  {
    events := [];
    var i := 0;
    while i < |steps|
      invariant i <= |steps| && events == SellEvents(steps[..i])
    {
      StepsPrefix(steps, i);
      if steps[i].drop > 0.0 {
        events := events + [Event(steps[i].at, steps[i].drop, true)];
      }
      i := i + 1;
    }
    assert steps[..i] == steps;
    i := 0;
    while i < |disposes|
      invariant i <= |disposes| && events == SellEvents(steps) + DisposeEvents(disposes[..i])
    {
      DisposesPrefix(disposes, i);
      if disposes[i].qty > 0.0 {
        events := events + [Event(disposes[i].at, disposes[i].qty, false)];
      }
      i := i + 1;
    }
    assert disposes[..i] == disposes;
    events := StableSort(events, EventTime());
  }

  /** prev and drop of every count; "computed negative drop" cannot happen when the counts obey the window rule. */
  method BuildSteps(recs: seq<Count>, startStock: real, received: array<real>, disposed: array<real>,
                    corrected: array<real>, wasCorrected: array<bool>) returns (steps: seq<Step>)
    requires |recs| == corrected.Length == wasCorrected.Length == received.Length == disposed.Length
    requires WindowRule(corrected[..], received[..], disposed[..])
    requires |recs| > 0 ==> corrected[0] <= startStock
    requires forall j :: 0 <= j < |recs| ==> (wasCorrected[j] <==> corrected[j] != recs[j].qty)
    ensures steps == StepsFrom(recs, startStock, corrected[..], received[..], disposed[..], |recs|)
  {
    steps := [];
    var k := 0;
    while k < |recs|
      invariant k <= |recs| && steps == StepsFrom(recs, startStock, corrected[..], received[..], disposed[..], k)
    {
      var prev := startStock;
      if k >= 1 {
        prev := corrected[k - 1] + received[k] - disposed[k];
        assert corrected[..][k] <= corrected[..][k - 1] + received[..][k] - disposed[..][k];
      }
      var drop := prev - corrected[k];
      if drop < 0.0 {
        assert false;
      }
      steps := steps + [Step(recs[k].subID, recs[k].at, recs[k].qty, corrected[k], prev, drop, wasCorrected[k])];
      k := k + 1;
    }
  }

  /** Copies the counts and corrects them. */
  method CorrectCounts(recs: seq<Count>, received: seq<real>, disposed: seq<real>)
    returns (corrected: array<real>, wasCorrected: array<bool>)
    requires |recs| == |received| == |disposed|
    ensures fresh(corrected) && fresh(wasCorrected) && corrected.Length == wasCorrected.Length == |recs|
    ensures corrected[..] == CorrectedCounts(Quantities(recs), received, disposed)
    ensures forall j :: 0 <= j < |recs| ==> (wasCorrected[j] <==> corrected[j] != recs[j].qty)
  {
    corrected := new real[|recs|];
    wasCorrected := new bool[|recs|](_ => false);
    var i := 0;
    while i < |recs|
      modifies corrected
      invariant i <= |recs|
      invariant forall j :: 0 <= j < i ==> corrected[j] == recs[j].qty
    {
      corrected[i] := recs[i].qty;
      i := i + 1;
    }
    assert corrected[..] == Quantities(recs);
    ghost var counts := corrected[..];
    Propagate(corrected, wasCorrected, received, disposed);
    assert forall j :: 0 <= j < |recs| ==> counts[j] == recs[j].qty;
  }

  /** The windows, the propagation, the guard and the drops of an item with counts. */
  method ResolveCounts(s: ItemInput) returns (r: Result<(real, seq<Step>), ResolveError>)
    requires s.recs != [] && SortedBy(s.recs, CountTime())
    requires forall l :: l in s.layers ==> l.createdAt <= LastAt(s.recs)
    requires forall d :: d in s.disposes ==> d.at <= LastAt(s.recs)
    ensures var early := FirstEarly(s.disposes, s.recs[0].at);
            r == if early.Some? then Err(DisposeOutOfScope(early.value.subID))
                 else if Corrections(s)[0] > StartStock(s)
                   then Err(FirstCountAboveStart(Corrections(s)[0], StartStock(s)))
                 else Ok((StartStock(s), Steps(s)))
  {
    var startStock := SumStartStock(s.layers, s.recs[0].at);
    var received := SumReceived(s.recs, s.layers);
    var disposed, early := SumDisposed(s.recs, s.disposes);
    if early.Some? {
      return Err(DisposeOutOfScope(early.value.subID));
    }
    var corrected, wasCorrected := CorrectCounts(s.recs, received[..], disposed[..]);
    assert corrected[0] == corrected[..][0];
    if corrected[0] > startStock {
      return Err(FirstCountAboveStart(corrected[0], startStock));
    }
    CorrectedIsLeast(Quantities(s.recs), received[..], disposed[..]);
    var steps := BuildSteps(s.recs, startStock, received, disposed, corrected, wasCorrected);
    return Ok((startStock, steps));
  }

  /** resolveItem: the loops above in the order of the source. */
  method ResolveItem(input: ItemInput) returns (r: Result<Resolution, ResolveError>)
    requires WellFormed(input)
    ensures r == Resolve(input)
  {
    var negative := CheckDisposes(input.disposes);
    if negative.Some? {
      return Err(NegativeDispose(negative.value.subID, negative.value.qty));
    }
    var layers, disposes, ignored := input.layers, input.disposes, [];
    var startStock := 0.0;
    var steps: seq<Step> := [];
    if |input.recs| > 0 {
      layers := KeepLayers(input.layers, LastAt(input.recs));
      disposes, ignored := KeepDisposes(input.recs, input.disposes);
      FilterKeepsIds(input.layers, CreatedBy(LastAt(input.recs)));
      var counts := ResolveCounts(input.(layers := layers, disposes := disposes));
      if counts.Err? {
        return Err(counts.error);
      }
      startStock, steps := counts.value.0, counts.value.1;
    }
    var events := BuildEvents(steps, disposes);
    EventsPositive(Scope(input));
    var c := ConsumeFifo(input.itemID, layers, events);
    if c.Err? {
      return Err(InsufficientStock(c.error));
    }
    return Ok(Resolution(startStock, steps, c.value.sells, c.value.disposals, c.value.consumedAfter, ignored));
  }
}

/**
 Conservation of stock by a resolution, and what happens when the resolver runs again: on its own
 corrected counts, and without the disposes it left aside (cmd/util/reconcile.go, resolveItem,
 computeResolution's quantities and correctedPayload).
 */
module Rerun {
  import opened Basics
  import opened Fifo
  import opened FifoLaws
  import opened Windows
  import opened Propagation
  import opened Resolver
  import opened ResolverLaws

  // ----- conservation -----

  /** Everything a resolution takes out of stock. */
  ghost function Outbound(r: Resolution): real {
    SumBy(r.sells, Quantity()) + SumBy(r.disposals, Quantity())
  }

  function RemainingOf(): Layer -> real {
    (l: Layer) => Remaining(l)
  }

  function CreatedAfter(T: Instant): Layer -> bool {
    (l: Layer) => l.createdAt > T
  }

  lemma {:induction false} OutboundIsDemand(s: ItemInput, ignored: seq<nat>)
    requires Settle(s, ignored).Ok?
    ensures Outbound(Settle(s, ignored).value) == TotalDemand(EventsOf(s))
  {
    EventsPositive(s);
    DemandCovered(s.itemID, EventsOf(s), s.layers, |EventsOf(s)|);
  }

  /** The outbound of an item with counts is the stock received by the last count less that count. */
  lemma {:induction false} OutboundTelescopes(input: ItemInput)
    requires WellFormed(input) && input.recs != []
    ensures Resolve(input).Ok? ==>
              Outbound(Resolve(input).value) ==
                StockBy(input.layers, LastAt(input.recs)) - input.recs[|input.recs| - 1].qty
  {
    if Resolve(input).Ok? {
      ResolvedIsInScope(input);
      CountedResolution(input);
      OutboundInScope(input, Trailing(input.recs, input.disposes));
    }
  }

  lemma {:induction false} OutboundInScope(input: ItemInput, ignored: seq<nat>)
    requires input.recs != [] && InScope(Scope(input)) && Corrections(Scope(input))[0] <= StartStock(Scope(input))
    requires Settle(Scope(input), ignored).Ok?
    ensures Outbound(Settle(Scope(input), ignored).value)
         == StockBy(input.layers, LastAt(input.recs)) - input.recs[|input.recs| - 1].qty
  {
    OutboundIsDemand(Scope(input), ignored);
    TotalOutflow(Scope(input));
    ScopeKeepsSums(input, LastAt(input.recs));
  }

  lemma {:induction false} RemainingSplits(layers: seq<Layer>, T: Instant)
    requires forall l :: l in layers && l.createdAt <= T ==> l.consumed == 0.0
    ensures SumBy(layers, RemainingOf()) == StockBy(layers, T) + SumBy(Filter(layers, CreatedAfter(T)), RemainingOf())
  {
    var trailing := (l: Layer) => if l.createdAt > T then Remaining(l) else 0.0;
    SumPlus(layers, ReceivedBy(T), trailing, RemainingOf());
    SumFiltered(layers, CreatedAfter(T), trailing);
    SumAgree(Filter(layers, CreatedAfter(T)), trailing, RemainingOf());
  }

  /**
   On a ledger that agrees with the item's quantity, the quantity left after the outbound is the last
   count plus what later layers still hold: never negative, and the reported final stock when there
   are no later layers.
   */
  lemma {:induction false} AppliedQuantityIsLastCount(input: ItemInput, current: real)
    requires WellFormed(input) && input.recs != [] && Unconsumed(Scope(input).layers)
    requires forall l :: l in input.layers ==> Remaining(l) >= 0.0
    requires current == SumBy(input.layers, RemainingOf())
    ensures Resolve(input).Ok? ==> LeavesLastCount(input, current, Resolve(input).value)
  {
    OutboundTelescopes(input);
    LastCountIsLeft(input);
    TrailingStock(input);
  }

  /** The last step keeps the last count, which is not negative. */
  lemma {:induction false} LastCountIsLeft(input: ItemInput)
    requires WellFormed(input) && input.recs != [] && Unconsumed(Scope(input).layers)
    ensures Resolve(input).Ok? ==>
              var r, n := Resolve(input).value, |input.recs| - 1;
              |r.steps| == n + 1 && r.steps[n].newQty == input.recs[n].qty >= 0.0
  {
    ResolvesExactlyWhen(input);
    CountedResolution(input);
    LastStep(Scope(input));
  }

  /** What the outbound leaves of the current quantity. */
  ghost predicate LeavesLastCount(input: ItemInput, current: real, r: Resolution)
    requires input.recs != []
  {
    var n := |input.recs| - 1;
    && |r.steps| == n + 1 && r.steps[n].newQty == input.recs[n].qty
    && current - Outbound(r)
         == r.steps[n].newQty + SumBy(Filter(input.layers, CreatedAfter(LastAt(input.recs))), RemainingOf())
    && current - Outbound(r) >= r.steps[n].newQty >= 0.0
  }

  lemma {:induction false} TrailingStock(input: ItemInput)
    requires input.recs != [] && Unconsumed(Scope(input).layers) &&
             forall l :: l in input.layers ==> Remaining(l) >= 0.0
    ensures var later := SumBy(Filter(input.layers, CreatedAfter(LastAt(input.recs))), RemainingOf());
            later >= 0.0 && SumBy(input.layers, RemainingOf()) == StockBy(input.layers, LastAt(input.recs)) + later
  {
    forall l | l in input.layers && l.createdAt <= LastAt(input.recs)
      ensures l.consumed == 0.0
    {
      assert l in Scope(input).layers;
    }
    RemainingSplits(input.layers, LastAt(input.recs));
    SumNonNegative(Filter(input.layers, CreatedAfter(LastAt(input.recs))), RemainingOf());
  }

  lemma {:induction false} LastStep(s: ItemInput)
    requires s.recs != []
    ensures Steps(s)[|s.recs| - 1].newQty == s.recs[|s.recs| - 1].qty
  {
    LastCorrection(s);
    StepsFromAt(s.recs, StartStock(s), Corrections(s), Received(s.recs, s.layers), Disposed(s.recs, s.disposes),
                |s.recs|, |s.recs| - 1);
  }

  // ----- running again on the corrected counts -----

  /** The same submissions at the same dates, with the quantities c. */
  ghost predicate Recounted(recs: seq<Count>, again: seq<Count>, c: seq<real>) {
    && |again| == |recs| == |c|
    && forall k: nat {:trigger again[k]} :: k < |recs| ==>
         again[k].subID == recs[k].subID && again[k].at == recs[k].at && again[k].qty == c[k]
  }

  /** The step that reports a count taken as it stands. */
  function Uncorrected(t: Step): Step {
    t.(origQty := t.newQty, corrected := false)
  }

  lemma {:induction false} RecountedSorted(recs: seq<Count>, again: seq<Count>, c: seq<real>)
    requires Recounted(recs, again, c) && SortedBy(recs, CountTime())
    ensures SortedBy(again, CountTime())
  {
    if |again| > 1 {
      var n := |again| - 1;
      RecountedSorted(recs[..n], again[..n], c[..n]);
      assert again[n].at == recs[n].at && again[n - 1].at == recs[n - 1].at;
    }
  }

  lemma {:induction false} RecountedSums(s: ItemInput, again: seq<Count>)
    requires Recounted(s.recs, again, Corrections(s))
    ensures Received(again, s.layers) == Received(s.recs, s.layers)
    ensures Disposed(again, s.disposes) == Disposed(s.recs, s.disposes)
    ensures Corrections(s.(recs := again)) == Corrections(s)
  {
    var r, d := Received(s.recs, s.layers), Disposed(s.recs, s.disposes);
    forall k: nat | k < |again|
      ensures Received(again, s.layers)[k] == r[k] && Disposed(again, s.disposes)[k] == d[k]
    {
      assert again[k].at == s.recs[k].at;
      assert k >= 1 ==> again[k - 1].at == s.recs[k - 1].at;
    }
    assert Quantities(again) == Corrections(s);
    forall k: nat | k < |again|
      ensures CorrectedCounts(Corrections(s), r, d)[k] == Corrections(s)[k]
    {
      CorrectedIsFixed(Quantities(s.recs), r, d, k);
    }
    assert CorrectedCounts(Corrections(s), r, d) == Corrections(s);
  }

  lemma {:induction false} RecountedStep(rec: Count, again: Count, c: real, prev: real)
    requires again.subID == rec.subID && again.at == rec.at && again.qty == c
    ensures StepAt(again, c, prev) == Uncorrected(StepAt(rec, c, prev))
  {
  }

  ghost predicate SameSteps(steps: seq<Step>, again: seq<Step>) {
    |again| == |steps| && forall k {:trigger again[k]} :: 0 <= k < |steps| ==> again[k] == Uncorrected(steps[k])
  }

  lemma {:induction false} RecountedSteps(
    recs: seq<Count>, again: seq<Count>, start: real, c: seq<real>, received: seq<real>, disposed: seq<real>)
    requires Recounted(recs, again, c) && |recs| == |received| == |disposed|
    ensures SameSteps(StepsFrom(recs, start, c, received, disposed, |recs|),
            StepsFrom(again, start, c, received, disposed, |recs|))
  {
    forall k | 0 <= k < |recs|
      ensures StepsFrom(again, start, c, received, disposed, |recs|)[k]
           == Uncorrected(StepsFrom(recs, start, c, received, disposed, |recs|)[k])
    {
      StepsFromAt(recs, start, c, received, disposed, |recs|, k);
      StepsFromAt(again, start, c, received, disposed, |recs|, k);
      RecountedStep(recs[k], again[k], c[k], StockBefore(start, c, received, disposed, k));
    }
  }

  lemma {:induction false} SameSells(steps: seq<Step>, again: seq<Step>)
    requires SameSteps(steps, again)
    ensures SellEvents(again) == SellEvents(steps)
  {
    if steps != [] {
      SameSells(steps[..|steps| - 1], again[..|steps| - 1]);
      assert again[|steps| - 1] == Uncorrected(steps[|steps| - 1]);
    }
  }

  /** The scope s, recounted, has the same start stock and events, and the same steps taken as they stand. */
  lemma {:induction false} RecountedScope(s: ItemInput, s': ItemInput)
    requires s.recs != [] && Recounted(s.recs, s'.recs, Corrections(s)) && s' == s.(recs := s'.recs)
    ensures StartStock(s') == StartStock(s) && Corrections(s') == Corrections(s)
    ensures EventsOf(s') == EventsOf(s) && SameSteps(Steps(s), Steps(s'))
  {
    assert s'.recs[0].at == s.recs[0].at;
    RecountedSums(s, s'.recs);
    RecountedSteps(s.recs, s'.recs, StartStock(s), Corrections(s), Received(s.recs, s.layers),
      Disposed(s.recs, s.disposes));
    SameSells(Steps(s), Steps(s'));
  }

  lemma {:induction false} SettledAgain(s: ItemInput, s': ItemInput, ignored: seq<nat>)
    requires s'.itemID == s.itemID && s'.layers == s.layers && StartStock(s') == StartStock(s) &&
             EventsOf(s') == EventsOf(s)
    requires Settle(s, ignored).Ok?
    ensures Settle(s', ignored) == Ok(Settle(s, ignored).value.(steps := Steps(s')))
  {
  }

  lemma {:induction false} RecountedTrailing(recs: seq<Count>, again: seq<Count>, disposes: seq<Dispose>)
    requires recs != [] && |again| == |recs| && LastAt(again) == LastAt(recs)
    ensures Trailing(again, disposes) == Trailing(recs, disposes)
  {
    if disposes != [] {
      RecountedTrailing(recs, again, disposes[..|disposes| - 1]);
    }
  }

  /** The checks an item with counts has to pass before its events are consumed. */
  ghost predicate Passes(input: ItemInput)
    requires input.recs != []
  {
    && FirstNegative(input.disposes) == None
    && FirstEarly(Scope(input).disposes, input.recs[0].at) == None
    && Corrections(Scope(input))[0] <= StartStock(Scope(input))
  }

  lemma {:induction false} CountedResolution(input: ItemInput)
    requires input.recs != []
    ensures Resolve(input).Ok? ==> Passes(input)
    ensures Passes(input) ==> Resolve(input) == Settle(Scope(input), Trailing(input.recs, input.disposes))
  {
  }

  lemma {:induction false} PassesAgain(input: ItemInput, input': ItemInput)
    requires input.recs != [] && input' == input.(recs := input'.recs) &&
             Recounted(input.recs, input'.recs, Corrections(Scope(input)))
    requires Passes(input)
    ensures Passes(input') && Trailing(input'.recs, input.disposes) == Trailing(input.recs, input.disposes)
    ensures var s, s' := Scope(input), Scope(input');
            && s' == s.(recs := input'.recs) && StartStock(s') == StartStock(s)
            && EventsOf(s') == EventsOf(s) && SameSteps(Steps(s), Steps(s'))
  {
    var n := |input.recs| - 1;
    assert input'.recs[n].at == input.recs[n].at && input'.recs[0].at == input.recs[0].at;
    assert Scope(input') == Scope(input).(recs := input'.recs);
    RecountedScope(Scope(input), Scope(input'));
    RecountedTrailing(input.recs, input'.recs, input.disposes);
  }

  /** The second resolution succeeds like the first, with the same steps taken as they stand. */
  ghost predicate Repeats(first: Result<Resolution, ResolveError>, second: Result<Resolution, ResolveError>)
    requires first.Ok?
  {
    second.Ok? && second.value == first.value.(steps := second.value.steps) &&
      SameSteps(first.value.steps, second.value.steps)
  }

  /**
   Idempotence: on its own corrected counts the resolver corrects nothing further, and gives the same
   start stock, drops, transactions and layer consumption.
   */
  lemma {:induction false} RerunIsStable(input: ItemInput, again: seq<Count>)
    requires WellFormed(input) && Recounted(input.recs, again, Corrections(Scope(input)))
    ensures WellFormed(input.(recs := again))
    ensures Resolve(input).Ok? ==> Repeats(Resolve(input), Resolve(input.(recs := again)))
  {
    RecountedSorted(input.recs, again, Corrections(Scope(input)));
    if input.recs == [] {
      assert again == input.recs;
    } else if Resolve(input).Ok? {
      var input' := input.(recs := again);
      CountedResolution(input);
      PassesAgain(input, input');
      CountedResolution(input');
      SettledAgain(Scope(input), Scope(input'), Trailing(input.recs, input.disposes));
    }
  }

  // ----- running without what was left aside -----

  lemma {:induction false} NothingTrailing(recs: seq<Count>, disposes: seq<Dispose>)
    requires recs != [] && forall d :: d in disposes ==> d.at <= LastAt(recs)
    ensures Trailing(recs, disposes) == []
  {
    if disposes != [] {
      assert disposes[|disposes| - 1] in disposes;
      NothingTrailing(recs, disposes[..|disposes| - 1]);
    }
  }

  lemma {:induction false} PassesInScope(input: ItemInput)
    requires input.recs != [] && Passes(input)
    ensures Scope(Scope(input)) == Scope(input) && Scope(input).recs == input.recs && Passes(Scope(input))
    ensures Trailing(input.recs, Scope(input).disposes) == []
  {
    var s := Scope(input);
    FilterAll(s.layers, CreatedBy(LastAt(input.recs)));
    FilterAll(s.disposes, RequestedBy(LastAt(input.recs)));
    NothingTrailing(s.recs, s.disposes);
  }

  lemma {:induction false} SettledIgnoring(s: ItemInput, ignored: seq<nat>)
    requires Settle(s, ignored).Ok?
    ensures Settle(s, []) == Ok(Settle(s, ignored).value.(ignored := []))
  {
  }

  /** Disposes and layers after the last count are inert: without them the resolution is the same. */
  lemma {:induction false} TrailingIsInert(input: ItemInput)
    requires WellFormed(input)
    ensures Resolve(input).Ok? ==> Resolve(Scope(input)) == Ok(Resolve(input).value.(ignored := []))
  {
    if input.recs == [] {
      assert Scope(input) == input;
    } else if Resolve(input).Ok? {
      CountedResolution(input);
      PassesInScope(input);
      CountedResolution(Scope(input));
      SettledIgnoring(Scope(input), Trailing(input.recs, input.disposes));
    }
  }

  /** The ignored submissions are those of the disposes after the last count. */
  lemma {:induction false} IgnoredAreTrailing(recs: seq<Count>, disposes: seq<Dispose>, id: nat)
    requires recs != []
    ensures id in Trailing(recs, disposes) <==> exists d :: d in disposes && d.subID == id && d.at > LastAt(recs)
  {
    if disposes != [] {
      var d := disposes[|disposes| - 1];
      assert disposes == disposes[..|disposes| - 1] + [d];
      IgnoredAreTrailing(recs, disposes[..|disposes| - 1], id);
    }
  }
}

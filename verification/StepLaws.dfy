/**
 What the resolver reports of every count (cmd/util/reconcile.go, resolveItem), over the counts, disposes
 and layers that go in: the stock before the count, the quantity it is corrected to, and the drop.
 */
module StepLaws {
  import opened Basics
  import opened Fifo
  import opened Windows
  import opened Propagation
  import opened Resolver
  import opened ResolverLaws

  /** What count j requires of the stock at count k: the count and the disposals between, less what came in. */
  ghost function NeededAt(input: ItemInput, j: nat, k: nat): real
    requires j < |input.recs| && k < |input.recs|
  {
    input.recs[j].qty
    + DisposalsBy(input.disposes, input.recs[j].at) - DisposalsBy(input.disposes, input.recs[k].at)
    - StockBy(input.layers, input.recs[j].at) + StockBy(input.layers, input.recs[k].at)
  }

  /** The stock before count k: the start stock, or the count before with what came in and went out since. */
  ghost function BookedBefore(input: ItemInput, steps: seq<Step>, k: nat): real
    requires k < |input.recs| == |steps|
  {
    if k == 0 then
      StockBy(input.layers, input.recs[0].at)
    else
      steps[k - 1].newQty
      + StockBy(input.layers, input.recs[k].at) - StockBy(input.layers, input.recs[k - 1].at)
      - DisposalsBy(input.disposes, input.recs[k].at) + DisposalsBy(input.disposes, input.recs[k - 1].at)
  }

  /** Step k reports count k. */
  ghost predicate Reports(input: ItemInput, steps: seq<Step>, k: nat)
    requires k < |input.recs| == |steps|
  {
    var c, t := input.recs[k], steps[k];
    && t.subID == c.subID && t.at == c.at && t.origQty == c.qty
    && t.prevQty == BookedBefore(input, steps, k)
    && t.drop == t.prevQty - t.newQty >= 0.0
    && (t.corrected <==> t.newQty != c.qty)
  }

  /** Count k is corrected to the most that it or a later count requires. */
  ghost predicate MeetsNeeds(input: ItemInput, steps: seq<Step>, k: nat)
    requires k < |input.recs| == |steps|
  {
    && (forall j: nat {:trigger NeededAt(input, j, k)} :: k <= j < |input.recs| ==>
          steps[k].newQty >= NeededAt(input, j, k))
    && (exists j: nat {:trigger NeededAt(input, j, k)} :: k <= j < |input.recs| &&
          steps[k].newQty == NeededAt(input, j, k))
  }

  // ----- an item in scope -----

  lemma {:induction false} StepReports(s: ItemInput, k: nat)
    requires InScope(s) && Corrections(s)[0] <= StartStock(s) && k < |s.recs|
    ensures Reports(s, Steps(s), k) && Steps(s)[k].newQty == Corrections(s)[k]
  {
    var r, d := Received(s.recs, s.layers), Disposed(s.recs, s.disposes);
    StepsFromAt(s.recs, StartStock(s), Corrections(s), r, d, |s.recs|, k);
    if k > 0 {
      StepsFromAt(s.recs, StartStock(s), Corrections(s), r, d, |s.recs|, k - 1);
    }
    DropsNonNegative(s);
    assert Steps(s)[k] in Steps(s);
  }

  lemma {:induction false} NeedIsCarried(s: ItemInput, j: nat, k: nat)
    requires k <= j < |s.recs|
    ensures var q, r, d := Quantities(s.recs), Received(s.recs, s.layers), Disposed(s.recs, s.disposes);
            NeededAt(s, j, k) == CarriedBack(q, r, d, j) + Net(r, d, k)
  {
    NetTelescopes(s, j);
    NetTelescopes(s, k);
  }

  lemma {:induction false} CorrectionMeetsNeeds(s: ItemInput, k: nat)
    requires k < |s.recs|
    ensures forall j: nat {:trigger NeededAt(s, j, k)} :: k <= j < |s.recs| ==> Corrections(s)[k] >= NeededAt(s, j, k)
    ensures exists j: nat {:trigger NeededAt(s, j, k)} :: k <= j < |s.recs| && Corrections(s)[k] == NeededAt(s, j, k)
  {
    var q, r, d := Quantities(s.recs), Received(s.recs, s.layers), Disposed(s.recs, s.disposes);
    var top := PeakIsMaximum(q, r, d, k);
    forall j: nat {:trigger NeededAt(s, j, k)} | k <= j < |s.recs|
      ensures NeededAt(s, j, k) == CarriedBack(q, r, d, j) + Net(r, d, k)
      ensures CarriedBack(q, r, d, j) <= Peak(q, r, d, k)
    {
      NeedIsCarried(s, j, k);
    }
    assert Corrections(s)[k] == NeededAt(s, top, k);
  }

  // ----- the whole input -----

  lemma {:induction false} ScopeBooks(input: ItemInput, k: nat)
    requires SortedBy(input.recs, CountTime()) && k < |input.recs|
    ensures StockBy(Scope(input).layers, input.recs[k].at) == StockBy(input.layers, input.recs[k].at)
    ensures DisposalsBy(Scope(input).disposes, input.recs[k].at) == DisposalsBy(input.disposes, input.recs[k].at)
  {
    AtMost(input.recs, k, |input.recs| - 1);
    ScopeKeepsSums(input, input.recs[k].at);
  }

  lemma {:induction false} ScopeReports(input: ItemInput, steps: seq<Step>, k: nat)
    requires SortedBy(input.recs, CountTime()) && k < |input.recs| == |steps|
    ensures Reports(Scope(input), steps, k) <==> Reports(input, steps, k)
    ensures MeetsNeeds(Scope(input), steps, k) <==> MeetsNeeds(input, steps, k)
  {
    ScopeBooks(input, 0);
    ScopeBooks(input, k);
    if k > 0 {
      ScopeBooks(input, k - 1);
    }
    forall j: nat {:trigger NeededAt(input, j, k)} {:trigger NeededAt(Scope(input), j, k)} | j < |input.recs|
      ensures NeededAt(Scope(input), j, k) == NeededAt(input, j, k)
    {
      ScopeBooks(input, j);
    }
  }

  lemma {:induction false} ResolvedSteps(input: ItemInput)
    ensures Resolve(input).Ok? ==> Resolve(input).value.steps == Steps(Scope(input))
    ensures Resolve(input).Ok? ==> Resolve(input).value.startStock == StartStock(Scope(input))
  {
  }

  /** Every step reports its count, and corrects it to the most that it or a later count requires. */
  lemma {:induction false} StepsReportCounts(input: ItemInput, k: nat)
    requires WellFormed(input) && k < |input.recs|
    ensures Resolve(input).Ok? ==>
              var steps := Resolve(input).value.steps;
              |steps| == |input.recs| && Reports(input, steps, k) && MeetsNeeds(input, steps, k)
  {
    if Resolve(input).Ok? {
      ResolvedIsInScope(input);
      ResolvedSteps(input);
      StepReports(Scope(input), k);
      CorrectionMeetsNeeds(Scope(input), k);
      ScopeReports(input, Steps(Scope(input)), k);
    }
  }

  /** The start stock is what had been received by the first count; without counts there is none. */
  lemma {:induction false} StartStockIsReceived(input: ItemInput)
    requires WellFormed(input)
    ensures Resolve(input).Ok? ==>
              Resolve(input).value.startStock ==
                if input.recs == [] then 0.0 else StockBy(input.layers, input.recs[0].at)
  {
    ResolvedSteps(input);
    if input.recs != [] {
      ScopeBooks(input, 0);
    }
  }

  // ----- the disposes that are left out -----

  function LaterThan(T: Instant): Dispose -> bool {
    (d: Dispose) => d.at > T
  }

  /** The ids are those of the disposes, one each, in order. */
  ghost predicate IdsOfDisposes(ids: seq<nat>, disposes: seq<Dispose>) {
    |ids| == |disposes| && forall k {:trigger ids[k]} :: 0 <= k < |ids| ==> ids[k] == disposes[k].subID
  }

  lemma {:induction false} TrailingAre(recs: seq<Count>, disposes: seq<Dispose>)
    requires recs != []
    ensures IdsOfDisposes(Trailing(recs, disposes), Filter(disposes, LaterThan(LastAt(recs))))
  {
    if disposes != [] {
      TrailingAre(recs, disposes[..|disposes| - 1]);
    }
  }

  /** Left out are, in order, the disposes after the last count; without counts none. */
  lemma {:induction false} IgnoredInOrder(input: ItemInput)
    ensures Resolve(input).Ok? ==>
              IdsOfDisposes(Resolve(input).value.ignored,
                            if input.recs == [] then [] else Filter(input.disposes, LaterThan(LastAt(input.recs))))
  {
    if input.recs != [] {
      TrailingAre(input.recs, input.disposes);
    }
  }
}

/**
 Backward propagation of count corrections (cmd/util/reconcile.go, resolveItem).

 `received[k]` and `disposed[k]` are the stock that came in and the stock disposed of between count
 k - 1 and count k; index 0 is not used. A chain of counts obeys the window rule when no count is
 above the previous one plus what came in less what was disposed of.
 */
module Propagation {
  import opened Basics

  /** The net inflow between the first count and count k. */
  ghost function Net(received: seq<real>, disposed: seq<real>, k: nat): real
    requires k < |received| == |disposed|
  {
    if k == 0 then 0.0 else Net(received, disposed, k - 1) + received[k] - disposed[k]
  }

  /** Count j carried back to the first count: the stock there must have been at least this much. */
  ghost function CarriedBack(counts: seq<real>, received: seq<real>, disposed: seq<real>, j: nat): real
    requires j < |counts| == |received| == |disposed|
  {
    counts[j] - Net(received, disposed, j)
  }

  /** The largest of the counts k, k + 1, ... carried back: a suffix maximum. */
  ghost function Peak(counts: seq<real>, received: seq<real>, disposed: seq<real>, k: nat): real
    requires k < |counts| == |received| == |disposed|
    decreases |counts| - k
  {
    var here := CarriedBack(counts, received, disposed, k);
    if k == |counts| - 1 then here else Max(here, Peak(counts, received, disposed, k + 1))
  }

  /** The closed form of the corrected count k: the peak from k on, carried forward to k again. */
  ghost function Corrected(counts: seq<real>, received: seq<real>, disposed: seq<real>, k: nat): real
    requires k < |counts| == |received| == |disposed|
  {
    Peak(counts, received, disposed, k) + Net(received, disposed, k)
  }

  ghost predicate WindowRule(v: seq<real>, received: seq<real>, disposed: seq<real>)
    requires |v| == |received| == |disposed|
  {
    forall k :: 1 <= k < |v| ==> v[k] <= v[k - 1] + received[k] - disposed[k]
  }

  ghost predicate AtLeast(v: seq<real>, w: seq<real>)
    requires |v| == |w|
  {
    forall k :: 0 <= k < |v| ==> v[k] >= w[k]
  }

  ghost function CorrectedCounts(counts: seq<real>, received: seq<real>, disposed: seq<real>): (r: seq<real>)
    requires |counts| == |received| == |disposed|
    ensures |r| == |counts|
  {
    seq(|counts|, k requires 0 <= k < |counts| => Corrected(counts, received, disposed, k))
  }

  // ----- the suffix maximum -----

  /** Peak is the maximum: an upper bound of the later counts carried back, and one of them. */
  lemma {:induction false} PeakIsMaximum(counts: seq<real>, received: seq<real>, disposed: seq<real>, k: nat)
    returns (top: nat)
    requires k < |counts| == |received| == |disposed|
    ensures forall j :: k <= j < |counts| ==>
            CarriedBack(counts, received, disposed, j) <= Peak(counts, received, disposed, k)
    ensures k <= top < |counts| && Peak(counts, received, disposed, k) == CarriedBack(counts, received, disposed, top)
    decreases |counts| - k
  {
    top := k;
    if k < |counts| - 1 {
      var later := PeakIsMaximum(counts, received, disposed, k + 1);
      if CarriedBack(counts, received, disposed, k) < Peak(counts, received, disposed, k + 1) {
        top := later;
      }
    }
  }

  lemma {:induction false} PeakFalls(counts: seq<real>, received: seq<real>, disposed: seq<real>, i: nat, j: nat)
    requires i <= j < |counts| == |received| == |disposed|
    ensures Peak(counts, received, disposed, i) >= Peak(counts, received, disposed, j)
    decreases j - i
  {
    if i < j {
      PeakFalls(counts, received, disposed, i + 1, j);
    }
  }

  // ----- what the corrected counts are -----

  /** A chain that obeys the rule and is nowhere below the counts is nowhere below the corrected counts. */
  lemma {:induction false} CorrectedIsBelow(
    counts: seq<real>, received: seq<real>, disposed: seq<real>, v: seq<real>, k: nat)
    requires k < |counts| == |received| == |disposed| == |v|
    requires WindowRule(v, received, disposed) && AtLeast(v, counts)
    ensures Corrected(counts, received, disposed, k) <= v[k]
    decreases |counts| - k
  {
    if k < |counts| - 1 {
      CorrectedIsBelow(counts, received, disposed, v, k + 1);
      assert v[k + 1] <= v[k + 1 - 1] + received[k + 1] - disposed[k + 1];
    }
  }

  /** The corrected counts are the least chain at or above the counts that obeys the window rule. */
  lemma {:induction false} CorrectedIsLeast(counts: seq<real>, received: seq<real>, disposed: seq<real>)
    requires |counts| == |received| == |disposed|
    ensures var c := CorrectedCounts(counts, received, disposed);
            WindowRule(c, received, disposed) && AtLeast(c, counts) &&
            forall v: seq<real> {:trigger AtLeast(v, c)} ::
              |v| == |counts| && WindowRule(v, received, disposed) && AtLeast(v, counts) ==> AtLeast(v, c)
  {
    var c := CorrectedCounts(counts, received, disposed);
    forall k | 0 <= k < |c|
      ensures c[k] >= counts[k]
    {
      var _ := PeakIsMaximum(counts, received, disposed, k);
      assert CarriedBack(counts, received, disposed, k) <= Peak(counts, received, disposed, k);
    }
    forall k | 1 <= k < |c|
      ensures c[k] <= c[k - 1] + received[k] - disposed[k]
    {
      PeakFalls(counts, received, disposed, k - 1, k);
    }
    forall v: seq<real> | |v| == |counts| && WindowRule(v, received, disposed) && AtLeast(v, counts)
      ensures AtLeast(v, c)
    {
      forall k | 0 <= k < |v|
        ensures v[k] >= c[k]
      {
        CorrectedIsBelow(counts, received, disposed, v, k);
      }
    }
  }

  /** The last count is never changed. */
  lemma {:induction false} LastCountStands(counts: seq<real>, received: seq<real>, disposed: seq<real>)
    requires 0 < |counts| == |received| == |disposed|
    ensures Corrected(counts, received, disposed, |counts| - 1) == counts[|counts| - 1]
  {
  }

  /** A count that was changed leaves nothing unexplained at the next count: the next one meets the rule exactly. */
  lemma {:induction false} CorrectedMeansZeroDrop(counts: seq<real>, received: seq<real>, disposed: seq<real>, k: nat)
    requires k < |counts| == |received| == |disposed|
    requires Corrected(counts, received, disposed, k) != counts[k]
    ensures k + 1 < |counts|
    ensures Corrected(counts, received, disposed, k) + received[k + 1] - disposed[k + 1]
         == Corrected(counts, received, disposed, k + 1)
  {
  }

  /** Propagating corrected counts once more changes nothing. */
  lemma {:induction false} CorrectedIsFixed(counts: seq<real>, received: seq<real>, disposed: seq<real>, k: nat)
    requires k < |counts| == |received| == |disposed|
    ensures Corrected(CorrectedCounts(counts, received, disposed), received, disposed, k)
         == Corrected(counts, received, disposed, k)
    decreases |counts| - k
  {
    if k < |counts| - 1 {
      CorrectedIsFixed(counts, received, disposed, k + 1);
    }
  }

  /** The propagation loop, latest count first. */
  method Propagate(corrected: array<real>, wasCorrected: array<bool>, received: seq<real>, disposed: seq<real>)
    requires corrected.Length == wasCorrected.Length == |received| == |disposed|
    requires forall k :: 0 <= k < wasCorrected.Length ==> !wasCorrected[k]
    modifies corrected, wasCorrected
    ensures corrected[..] == CorrectedCounts(old(corrected[..]), received, disposed)
    ensures forall k :: 0 <= k < corrected.Length ==> (wasCorrected[k] <==> corrected[k] != old(corrected[k]))
  {
    ghost var counts := corrected[..];
    var k := corrected.Length - 1;
    while k >= 1
      invariant corrected.Length == 0 ==> k == -1
      invariant corrected.Length > 0 ==> 0 <= k < corrected.Length
      invariant forall j :: 0 <= j < k ==> corrected[j] == counts[j] && !wasCorrected[j]
      invariant forall j {:trigger corrected[j]} :: 0 <= k <= j < corrected.Length ==>
                corrected[j] == Corrected(counts, received, disposed, j)
      invariant forall j :: 0 <= k <= j < corrected.Length ==> (wasCorrected[j] <==> corrected[j] != counts[j])
    {
      var implied := corrected[k - 1] + received[k] - disposed[k];
      if corrected[k] > implied {
        corrected[k - 1] := corrected[k] - received[k] + disposed[k];
        wasCorrected[k - 1] := true;
      }
      k := k - 1;
    }
  }
}

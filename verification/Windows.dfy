/**
 The half-open windows between an item's counts (cmd/util/reconcile.go, rangeIndexFor and the
 window loops of resolveItem): window k is (count k - 1, count k].
 */
module Windows {
  import opened Basics
  import opened Fifo

  /** One reconcile submission's count of the item. */
  datatype Count = Count(subID: nat, at: Instant, prev: real, qty: real)

  /** One dispose submission's request for the item. */
  datatype Dispose = Dispose(subID: nat, at: Instant, qty: real)

  function CountTime(): Count -> int {
    (c: Count) => c.at
  }

  function DisposeTime(): Dispose -> int {
    (d: Dispose) => d.at
  }

  /** The quantity of a layer that existed at T. */
  function ReceivedBy(T: Instant): Layer -> real {
    (l: Layer) => if l.createdAt <= T then l.quantity else 0.0
  }

  /** The quantity of a dispose dated at or before T. */
  function DisposedBy(T: Instant): Dispose -> real {
    (d: Dispose) => if d.at <= T then d.qty else 0.0
  }

  function StockBy(layers: seq<Layer>, T: Instant): real {
    SumBy(layers, ReceivedBy(T))
  }

  function DisposalsBy(disposes: seq<Dispose>, T: Instant): real {
    SumBy(disposes, DisposedBy(T))
  }

  ghost predicate InWindow(recs: seq<Count>, t: Instant, k: nat) {
    1 <= k < |recs| && recs[k - 1].at < t <= recs[k].at
  }

  /** The stock received in each window; index 0 is not a window. */
  ghost function Received(recs: seq<Count>, layers: seq<Layer>): (r: seq<real>)
    ensures |r| == |recs|
  {
    seq(|recs|, k requires 0 <= k < |recs| =>
      if k == 0 then 0.0 else StockBy(layers, recs[k].at) - StockBy(layers, recs[k - 1].at))
  }

  /** The quantity disposed of in each window. */
  ghost function Disposed(recs: seq<Count>, disposes: seq<Dispose>): (r: seq<real>)
    ensures |r| == |recs|
  {
    seq(|recs|, k requires 0 <= k < |recs| =>
      if k == 0 then 0.0 else DisposalsBy(disposes, recs[k].at) - DisposalsBy(disposes, recs[k - 1].at))
  }

  /**
   Finds the window of an instant; there is one exactly when the instant is after the first count and
   not after the last.
   */
  method RangeIndexFor(recs: seq<Count>, t: Instant) returns (k: int)
    requires SortedBy(recs, CountTime())
    ensures k == -1 || (k >= 1 && InWindow(recs, t, k))
    ensures k == -1 <==> recs == [] || t <= recs[0].at || recs[|recs| - 1].at < t
  {
    k := 1;
    while k < |recs|
      invariant 1 <= k && (recs != [] ==> k <= |recs|)
      invariant recs != [] && recs[0].at < t ==> recs[k - 1].at < t
    {
      if recs[k - 1].at < t && t <= recs[k].at {
        AtMost(recs, 0, k - 1);
        AtMost(recs, k, |recs| - 1);
        return k;
      }
      k := k + 1;
    }
    return -1;
  }

  lemma {:induction false} AtMost(recs: seq<Count>, i: nat, j: nat)
    requires SortedBy(recs, CountTime()) && i <= j < |recs|
    ensures recs[i].at <= recs[j].at
  {
    InOrder(recs, CountTime(), i, j);
  }

  lemma {:induction false} OneWindow(recs: seq<Count>, t: Instant, j: nat, k: nat)
    requires SortedBy(recs, CountTime())
    requires InWindow(recs, t, j) && InWindow(recs, t, k)
    ensures j == k
  {
    AtMost(recs, if j < k then j else 0, if j < k then k - 1 else 0);
    AtMost(recs, if k < j then k else 0, if k < j then j - 1 else 0);
  }

  /**
   The windows partition time: an instant after the first count and up to the last is in exactly one,
   any other in none.
   */
  lemma {:induction false} WindowsPartition(recs: seq<Count>, t: Instant)
    requires SortedBy(recs, CountTime()) && recs != []
    ensures (recs[0].at < t <= recs[|recs| - 1].at) <==> exists k: nat :: InWindow(recs, t, k)
    ensures forall j: nat, k: nat :: InWindow(recs, t, j) && InWindow(recs, t, k) ==> j == k
  {
    forall j: nat, k: nat | InWindow(recs, t, j) && InWindow(recs, t, k)
      ensures j == k
    {
      OneWindow(recs, t, j, k);
    }
    if k: nat :| InWindow(recs, t, k) {
      AtMost(recs, 0, k - 1);
      AtMost(recs, k, |recs| - 1);
    }
    if recs[0].at < t <= recs[|recs| - 1].at {
      var k := 0;
      while recs[k + 1].at < t
        invariant 0 <= k < |recs| - 1 && recs[k].at < t
        decreases |recs| - k
      {
        k := k + 1;
      }
      assert InWindow(recs, t, k + 1);
    }
  }

  lemma {:induction false} StockStep(layers: seq<Layer>, i: nat, a: Instant, b: Instant)
    requires i < |layers| && a <= b
    ensures StockBy(layers[..i + 1], b) - StockBy(layers[..i + 1], a)
         == StockBy(layers[..i], b) - StockBy(layers[..i], a)
            + if a < layers[i].createdAt <= b then layers[i].quantity else 0.0
  {
    SumStep(layers, i, ReceivedBy(a));
    SumStep(layers, i, ReceivedBy(b));
  }

  lemma {:induction false} DisposalStep(disposes: seq<Dispose>, i: nat, a: Instant, b: Instant)
    requires i < |disposes| && a <= b
    ensures DisposalsBy(disposes[..i + 1], b) - DisposalsBy(disposes[..i + 1], a)
         == DisposalsBy(disposes[..i], b) - DisposalsBy(disposes[..i], a)
            + if a < disposes[i].at <= b then disposes[i].qty else 0.0
  {
    SumStep(disposes, i, DisposedBy(a));
    SumStep(disposes, i, DisposedBy(b));
  }

  lemma {:induction false} ReceivedStepAt(recs: seq<Count>, layers: seq<Layer>, i: nat, k: nat)
    requires SortedBy(recs, CountTime()) && i < |layers| && k < |recs|
    ensures Received(recs, layers[..i + 1])[k]
         == Received(recs, layers[..i])[k] + if InWindow(recs, layers[i].createdAt, k) then layers[i].quantity else 0.0
  {
    if k >= 1 {
      AtMost(recs, k - 1, k);
      StockStep(layers, i, recs[k - 1].at, recs[k].at);
    }
  }

  lemma {:induction false} DisposedStepAt(recs: seq<Count>, disposes: seq<Dispose>, i: nat, k: nat)
    requires SortedBy(recs, CountTime()) && i < |disposes| && k < |recs|
    ensures Disposed(recs, disposes[..i + 1])[k]
         == Disposed(recs, disposes[..i])[k] + if InWindow(recs, disposes[i].at, k) then disposes[i].qty else 0.0
  {
    if k >= 1 {
      AtMost(recs, k - 1, k);
      DisposalStep(disposes, i, recs[k - 1].at, recs[k].at);
    }
  }

  /** The vector r with q added in window w of the instant t and nowhere else. */
  lemma {:induction false} OnlyInWindow(recs: seq<Count>, t: Instant, w: nat, r: seq<real>, after: seq<real>, q: real)
    requires SortedBy(recs, CountTime()) && InWindow(recs, t, w) && |r| == |after| == |recs|
    requires forall k: nat {:trigger after[k]} :: k < |recs| ==>
             after[k] == r[k] + if InWindow(recs, t, k) then q else 0.0
    ensures after == r[w := r[w] + q]
  {
    forall k: nat | k < |recs|
      ensures after[k] == r[w := r[w] + q][k]
    {
      if InWindow(recs, t, k) {
        OneWindow(recs, t, k, w);
      }
    }
  }

  /** One more layer adds its quantity to its own window and to no other. */
  lemma {:induction false} ReceivedStep(recs: seq<Count>, layers: seq<Layer>, i: nat, w: nat)
    requires SortedBy(recs, CountTime()) && i < |layers| && InWindow(recs, layers[i].createdAt, w)
    ensures var r := Received(recs, layers[..i]);
            Received(recs, layers[..i + 1]) == r[w := r[w] + layers[i].quantity]
  {
    forall k: nat | k < |recs| {
      ReceivedStepAt(recs, layers, i, k);
    }
    OnlyInWindow(recs, layers[i].createdAt, w, Received(recs, layers[..i]), Received(recs, layers[..i + 1]),
      layers[i].quantity);
  }

  /** A layer of the first count or earlier is start stock and in no window. */
  lemma {:induction false} StartStockStep(recs: seq<Count>, layers: seq<Layer>, i: nat)
    requires SortedBy(recs, CountTime()) && recs != [] && i < |layers| && layers[i].createdAt <= recs[0].at
    ensures Received(recs, layers[..i + 1]) == Received(recs, layers[..i])
  {
    var before, after := Received(recs, layers[..i]), Received(recs, layers[..i + 1]);
    forall k: nat | k < |recs|
      ensures before[k] == after[k]
    {
      if k >= 1 {
        AtMost(recs, 0, k - 1);
      }
      ReceivedStepAt(recs, layers, i, k);
    }
  }

  lemma {:induction false} DisposedStep(recs: seq<Count>, disposes: seq<Dispose>, i: nat, w: nat)
    requires SortedBy(recs, CountTime()) && i < |disposes| && InWindow(recs, disposes[i].at, w)
    ensures var r := Disposed(recs, disposes[..i]);
            Disposed(recs, disposes[..i + 1]) == r[w := r[w] + disposes[i].qty]
  {
    forall k: nat | k < |recs| {
      DisposedStepAt(recs, disposes, i, k);
    }
    OnlyInWindow(recs, disposes[i].at, w, Disposed(recs, disposes[..i]), Disposed(recs, disposes[..i + 1]),
      disposes[i].qty);
  }

  /** Adds a layer after the first count to its window. */
  method AddReceived(recs: seq<Count>, layers: seq<Layer>, i: nat, received: array<real>)
    requires recs != [] && SortedBy(recs, CountTime()) && i < |layers|
    requires recs[0].at < layers[i].createdAt <= recs[|recs| - 1].at
    requires received[..] == Received(recs, layers[..i])
    modifies received
    ensures received[..] == Received(recs, layers[..i + 1])
  {
    var k := RangeIndexFor(recs, layers[i].createdAt);
    if k < 0 {
      assert false;  // "did not map to any range" cannot happen
    }
    ReceivedStep(recs, layers, i, k);
    received[k] := received[k] + layers[i].quantity;
  }

  /** Sums the layers into their windows. Layers of the first count or earlier are start stock. */
  method SumReceived(recs: seq<Count>, layers: seq<Layer>) returns (received: array<real>)
    requires recs != [] && SortedBy(recs, CountTime())
    requires forall l :: l in layers ==> l.createdAt <= recs[|recs| - 1].at
    ensures fresh(received) && received[..] == Received(recs, layers)
  {
    received := new real[|recs|](_ => 0.0);
    var i := 0;
    while i < |layers|
      invariant i <= |layers|
      invariant received[..] == Received(recs, layers[..i])
    {
      var p := layers[i];
      assert p in layers;
      if p.createdAt <= recs[0].at {
        StartStockStep(recs, layers, i);
      } else {
        AddReceived(recs, layers, i, received);
      }
      i := i + 1;
    }
    assert layers[..i] == layers;
  }

  /** Adds a dispose after the first count to its window. */
  method AddDisposed(recs: seq<Count>, disposes: seq<Dispose>, i: nat, disposed: array<real>)
    requires recs != [] && SortedBy(recs, CountTime()) && i < |disposes|
    requires recs[0].at < disposes[i].at <= recs[|recs| - 1].at
    requires disposed[..] == Disposed(recs, disposes[..i])
    modifies disposed
    ensures disposed[..] == Disposed(recs, disposes[..i + 1])
  {
    var k := RangeIndexFor(recs, disposes[i].at);
    if k <= 0 {
      assert false;  // "did not map to an inter-reconcile range" cannot happen
    }
    DisposedStep(recs, disposes, i, k);
    disposed[k] := disposed[k] + disposes[i].qty;
  }

  /** Sums the disposes into their windows, or finds the first one that is not after the first count. */
  method SumDisposed(recs: seq<Count>, disposes: seq<Dispose>) returns (disposed: array<real>, early: Option<Dispose>)
    requires recs != [] && SortedBy(recs, CountTime())
    requires forall d :: d in disposes ==> d.at <= recs[|recs| - 1].at
    ensures early == FirstEarly(disposes, recs[0].at)
    ensures fresh(disposed)
    ensures early.None? ==> disposed[..] == Disposed(recs, disposes)
  {
    disposed := new real[|recs|](_ => 0.0);
    var i := 0;
    while i < |disposes|
      invariant i <= |disposes|
      invariant FirstEarly(disposes[..i], recs[0].at) == None
      invariant disposed[..] == Disposed(recs, disposes[..i])
    {
      var d := disposes[i];
      assert d in disposes;
      assert disposes[..i + 1][..i] == disposes[..i];
      if d.at <= recs[0].at {
        FirstEarlyStays(disposes, i + 1, recs[0].at);
        return disposed, Some(d);
      }
      AddDisposed(recs, disposes, i, disposed);
      i := i + 1;
    }
    assert disposes[..i] == disposes;
    early := None;
  }

  /** The first dispose that is not after the first count. */
  ghost function FirstEarly(disposes: seq<Dispose>, first: Instant): (r: Option<Dispose>)
    ensures r == None <==> forall d :: d in disposes ==> d.at > first
  {
    if disposes == [] then
      None
    else
      var front, d := disposes[..|disposes| - 1], disposes[|disposes| - 1];
      assert disposes == front + [d];
      var r := FirstEarly(front, first);
      if r.Some? then r else if d.at <= first then Some(d) else None
  }

  lemma {:induction false} FirstEarlyStays(disposes: seq<Dispose>, n: nat, first: Instant)
    requires n <= |disposes| && FirstEarly(disposes[..n], first).Some?
    ensures FirstEarly(disposes, first) == FirstEarly(disposes[..n], first)
    decreases |disposes| - n
  {
    if n == |disposes| {
      assert disposes[..n] == disposes;
    } else {
      assert disposes[..n + 1][..n] == disposes[..n];
      FirstEarlyStays(disposes, n + 1, first);
    }
  }
}

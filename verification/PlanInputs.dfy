/**
 The submissions' lines that reach the resolver (cmd/util/reconcile.go, the collecting loops of
 computeResolution): every line that names an item, once, with its own quantities, in the order of the
 submissions.
 */
module PlanInputs {
  import opened Basics
  import opened Windows
  import opened Plans
  import opened Submissions
  import opened PlannedItems

  /** A line of a submission: which submission, which line. */
  type Place = (nat, nat)

  ghost predicate IsPlace(subs: seq<Submission>, p: Place) {
    p.0 < |subs| && p.1 < |subs[p.0].lines|
  }

  predicate Precedes(p: Place, q: Place) {
    p.0 < q.0 || (p.0 == q.0 && p.1 < q.1)
  }

  ghost predicate Increasing(places: seq<Place>) {
    forall k, l :: 0 <= k < l < |places| ==> Precedes(places[k], places[l])
  }

  /** The line names the item, in a submission of the kind. */
  ghost predicate Mentions(subs: seq<Submission>, isReconcile: bool, id: nat, p: Place) {
    && IsPlace(subs, p) && subs[p.0].isReconcile == isReconcile && subs[p.0].lines[p.1].itemID == id
  }

  /** The places are those of the lines that name the item, each once, in order. */
  ghost predicate AllMentions(subs: seq<Submission>, isReconcile: bool, id: nat, places: seq<Place>) {
    && Increasing(places)
    && forall p :: p in places <==> Mentions(subs, isReconcile, id, p)
  }

  /** The count that a reconcile's line states. */
  ghost predicate CountedBy(subs: seq<Submission>, p: Place, c: Count) {
    && IsPlace(subs, p)
    && c.subID == subs[p.0].id && c.at == subs[p.0].at
    && c.prev == subs[p.0].lines[p.1].prev && c.qty == subs[p.0].lines[p.1].qty
  }

  /** The request that a dispose's line states. */
  ghost predicate RequestedIn(subs: seq<Submission>, p: Place, d: Dispose) {
    && IsPlace(subs, p)
    && d.subID == subs[p.0].id && d.at == subs[p.0].at && d.qty == subs[p.0].lines[p.1].qty
  }

  // ----- entries and their lines -----

  /** The entry is the line. */
  ghost predicate FromLine(subs: seq<Submission>, p: Place, e: Entry) {
    && IsPlace(subs, p)
    && e.subID == subs[p.0].id && e.at == subs[p.0].at && e.isReconcile == subs[p.0].isReconcile
    && e.itemID == subs[p.0].lines[p.1].itemID
    && e.prev == subs[p.0].lines[p.1].prev && e.qty == subs[p.0].lines[p.1].qty
  }

  /** The entries are the lines of the places, which are all those before line m of submission i, in order. */
  ghost predicate Placed(subs: seq<Submission>, entries: seq<Entry>, places: seq<Place>, i: nat, m: nat) {
    && |places| == |entries| && Increasing(places)
    && (forall k {:trigger entries[k]} :: 0 <= k < |entries| ==> FromLine(subs, places[k], entries[k]))
    && (forall p :: p in places <==> IsPlace(subs, p) && Precedes(p, (i, m)))
  }

  lemma {:induction false} PlacesBefore(subs: seq<Submission>, i: nat) returns (places: seq<Place>)
    requires i <= |subs|
    ensures Placed(subs, Entries(subs[..i]), places, i, 0)
    decreases i, 0
  {
    if i == 0 {
      places := [];
    } else {
      places := PlacesWithin(subs, i - 1, |subs[i - 1].lines|);
      assert subs[..i][..i - 1] == subs[..i - 1];
    }
  }

  lemma {:induction false} PlacesWithin(subs: seq<Submission>, i: nat, m: nat) returns (places: seq<Place>)
    requires i < |subs| && m <= |subs[i].lines|
    ensures Placed(subs, Entries(subs[..i]) + SubEntries(subs[i], m), places, i, m)
    decreases i, m + 1
  {
    if m == 0 {
      places := PlacesBefore(subs, i);
      assert Entries(subs[..i]) + [] == Entries(subs[..i]);
    } else {
      var before := PlacesWithin(subs, i, m - 1);
      var entries, e := Entries(subs[..i]) + SubEntries(subs[i], m - 1), EntryOf(subs[i], subs[i].lines[m - 1]);
      places := before + [(i, m - 1)];
      assert Entries(subs[..i]) + SubEntries(subs[i], m) == entries + [e];
      OneMorePlace(subs, entries, e, before, i, m);
    }
  }

  lemma {:induction false} OneMorePlace(
    subs: seq<Submission>, entries: seq<Entry>, e: Entry, before: seq<Place>, i: nat, m: nat)
    requires i < |subs| && 0 < m <= |subs[i].lines|
    requires Placed(subs, entries, before, i, m - 1) && FromLine(subs, (i, m - 1), e)
    ensures Placed(subs, entries + [e], before + [(i, m - 1)], i, m)
  {
    var places := before + [(i, m - 1)];
    forall p
      ensures p in places <==> IsPlace(subs, p) && Precedes(p, (i, m))
    {
      assert p in before <==> IsPlace(subs, p) && Precedes(p, (i, m - 1));
    }
    forall k, l | 0 <= k < l < |places|
      ensures Precedes(places[k], places[l])
    {
      if l == |before| {
        assert before[k] in before;
      }
    }
  }

  /** Every line of every submission, in order. */
  lemma {:induction false} EntriesArePlaced(subs: seq<Submission>) returns (places: seq<Place>)
    ensures Placed(subs, Entries(subs), places, |subs|, 0)
  {
    places := PlacesBefore(subs, |subs|);
    assert subs[..|subs|] == subs;
  }

  // ----- one item's entries -----

  /** The indices picked are those of the item's entries of the kind, in order. */
  ghost predicate Picked(entries: seq<Entry>, isReconcile: bool, id: nat, picks: seq<nat>) {
    && (forall k, l :: 0 <= k < l < |picks| ==> picks[k] < picks[l])
    && forall n: nat ::
         n in picks <==> n < |entries| && entries[n].isReconcile == isReconcile && entries[n].itemID == id
  }

  lemma {:induction false} OneMorePick(entries: seq<Entry>, isReconcile: bool, id: nat, picks: seq<nat>)
    requires entries != [] && Picked(entries[..|entries| - 1], isReconcile, id, picks)
    ensures var n := |entries| - 1; var last := entries[n];
            Picked(entries, isReconcile, id,
                   if last.isReconcile == isReconcile && last.itemID == id then picks + [n] else picks)
  {
    var n := |entries| - 1;
    var front, last := entries[..n], entries[n];
    var all := if last.isReconcile == isReconcile && last.itemID == id then picks + [n] else picks;
    forall k: nat
      ensures k in all <==> k < |entries| && entries[k].isReconcile == isReconcile && entries[k].itemID == id
    {
      assert k in picks <==> k < n && front[k].isReconcile == isReconcile && front[k].itemID == id;
    }
    forall k, l | 0 <= k < l < |all|
      ensures all[k] < all[l]
    {
      if l == |picks| {
        assert picks[k] in picks;
      }
    }
  }

  /** The picked entries make the counts. */
  ghost predicate MakeCounts(entries: seq<Entry>, picks: seq<nat>, counts: seq<Count>) {
    && |counts| == |picks| && (forall k {:trigger picks[k]} :: 0 <= k < |picks| ==> picks[k] < |entries|)
    && forall k {:trigger counts[k]} :: 0 <= k < |picks| ==>
         var e := entries[picks[k]];
         counts[k] == Count(e.subID, e.at, e.prev, e.qty)
  }

  lemma {:induction false} CountsPick(entries: seq<Entry>, id: nat) returns (picks: seq<nat>)
    ensures Picked(entries, true, id, picks) && MakeCounts(entries, picks, CountsOf(entries, id))
  {
    picks := [];
    if entries != [] {
      var n := |entries| - 1;
      var front := CountsPick(entries[..n], id);
      OneMorePick(entries, true, id, front);
      var e := entries[n];
      picks := if e.isReconcile && e.itemID == id then front + [n] else front;
      MoreCounts(entries, front, CountsOf(entries[..n], id));
    }
  }

  lemma {:induction false} MoreCounts(entries: seq<Entry>, picks: seq<nat>, counts: seq<Count>)
    requires entries != [] && MakeCounts(entries[..|entries| - 1], picks, counts)
    ensures var n := |entries| - 1; var e := entries[n];
            && MakeCounts(entries, picks, counts)
            && MakeCounts(entries, picks + [n], counts + [Count(e.subID, e.at, e.prev, e.qty)])
  {
    var n := |entries| - 1;
    forall k {:trigger picks[k]} | 0 <= k < |picks|
      ensures picks[k] < n && entries[..n][picks[k]] == entries[picks[k]]
    {
    }
  }

  /** The picked entries make the requests. */
  ghost predicate MakeRequests(entries: seq<Entry>, picks: seq<nat>, disposes: seq<Dispose>) {
    && |disposes| == |picks| && (forall k {:trigger picks[k]} :: 0 <= k < |picks| ==> picks[k] < |entries|)
    && forall k {:trigger disposes[k]} :: 0 <= k < |picks| ==>
         var e := entries[picks[k]];
         disposes[k] == Dispose(e.subID, e.at, e.qty)
  }

  lemma {:induction false} DisposesPick(entries: seq<Entry>, id: nat) returns (picks: seq<nat>)
    ensures Picked(entries, false, id, picks) && MakeRequests(entries, picks, DisposesOf(entries, id))
  {
    picks := [];
    if entries != [] {
      var n := |entries| - 1;
      var front := DisposesPick(entries[..n], id);
      OneMorePick(entries, false, id, front);
      picks := if !entries[n].isReconcile && entries[n].itemID == id then front + [n] else front;
    }
  }

  /** The places of the picked entries. */
  lemma {:induction false} PickedPlaces(
    subs: seq<Submission>, all: seq<Place>, isReconcile: bool, id: nat, picks: seq<nat>)
    returns (places: seq<Place>)
    requires Placed(subs, Entries(subs), all, |subs|, 0) && Picked(Entries(subs), isReconcile, id, picks)
    ensures AllMentions(subs, isReconcile, id, places) && |places| == |picks|
    ensures forall k {:trigger places[k]} :: 0 <= k < |picks| ==> picks[k] < |all| && places[k] == all[picks[k]]
  {
    var entries := Entries(subs);
    forall k | 0 <= k < |picks|
      ensures picks[k] < |all|
    {
      assert picks[k] in picks;
    }
    places := seq(|picks|, k requires 0 <= k < |picks| => all[picks[k]]);
    forall p
      ensures p in places <==> Mentions(subs, isReconcile, id, p)
    {
      if p in places {
        var k :| 0 <= k < |places| && places[k] == p;
        assert picks[k] in picks;
        assert FromLine(subs, p, entries[picks[k]]);
      }
      if Mentions(subs, isReconcile, id, p) {
        assert p in all;
        var n :| 0 <= n < |all| && all[n] == p;
        assert FromLine(subs, p, entries[n]);
        assert n in picks;
        var k :| 0 <= k < |picks| && picks[k] == n;
        assert places[k] == p;
      }
    }
  }

  // ----- the resolver's input -----

  /** The counts are the lines of reconciles that name the item: all of them, once each, in order. */
  lemma {:induction false} CountsAreLines(subs: seq<Submission>, id: nat) returns (places: seq<Place>)
    ensures AllMentions(subs, true, id, places) && |places| == |CountsOf(Entries(subs), id)|
    ensures forall k {:trigger places[k]} :: 0 <= k < |places| ==>
              CountedBy(subs, places[k], CountsOf(Entries(subs), id)[k])
  {
    var all := EntriesArePlaced(subs);
    var picks := CountsPick(Entries(subs), id);
    places := PickedPlaces(subs, all, true, id, picks);
    forall k {:trigger places[k]} | 0 <= k < |places|
      ensures CountedBy(subs, places[k], CountsOf(Entries(subs), id)[k])
    {
      assert picks[k] < |all|;
      assert FromLine(subs, all[picks[k]], Entries(subs)[picks[k]]);
    }
  }

  lemma {:induction false} DisposesAreLines(subs: seq<Submission>, id: nat) returns (places: seq<Place>)
    ensures AllMentions(subs, false, id, places) && |places| == |DisposesOf(Entries(subs), id)|
    ensures forall k {:trigger places[k]} :: 0 <= k < |places| ==>
              RequestedIn(subs, places[k], DisposesOf(Entries(subs), id)[k])
  {
    var all := EntriesArePlaced(subs);
    var picks := DisposesPick(Entries(subs), id);
    places := PickedPlaces(subs, all, false, id, picks);
    forall k {:trigger places[k]} | 0 <= k < |places|
      ensures RequestedIn(subs, places[k], DisposesOf(Entries(subs), id)[k])
    {
      assert picks[k] < |all|;
      assert FromLine(subs, all[picks[k]], Entries(subs)[picks[k]]);
    }
  }

  lemma {:induction false} TimesInOrder(subs: seq<Submission>, places: seq<Place>, k: nat, l: nat)
    requires SortedBy(subs, SubTime()) && Increasing(places) && k <= l < |places|
    requires forall p :: p in places ==> IsPlace(subs, p)
    ensures IsPlace(subs, places[k]) && IsPlace(subs, places[l]) && subs[places[k].0].at <= subs[places[l].0].at
  {
    assert places[k] in places && places[l] in places;
    if k < l {
      assert Precedes(places[k], places[l]);
    }
    InOrder(subs, SubTime(), places[k].0, places[l].0);
  }

  /**
   What the resolver gets for an item. Of submissions in order of time, as they are loaded: exactly the
   lines that name it, each once and in order, the counts from reconciles and the requests from disposes.
   */
  lemma {:induction false} InputIsLines(subs: seq<Submission>, items: map<nat, Item>, id: nat)
    returns (counts: seq<Place>, requests: seq<Place>)
    requires SortedBy(subs, SubTime()) && id in items
    ensures AllMentions(subs, true, id, counts) && AllMentions(subs, false, id, requests)
    ensures var input := InputFor(subs, items, id);
            && input.itemID == id && input.layers == items[id].layers
            && |input.recs| == |counts| && |input.disposes| == |requests|
            && (forall k {:trigger counts[k]} :: 0 <= k < |counts| ==> CountedBy(subs, counts[k], input.recs[k]))
            && (forall k {:trigger requests[k]} :: 0 <= k < |requests| ==>
                  RequestedIn(subs, requests[k], input.disposes[k]))
  {
    counts := CountsAreLines(subs, id);
    requests := DisposesAreLines(subs, id);
    CountsInTime(subs, counts, CountsOf(Entries(subs), id));
    StableSortSorted(CountsOf(Entries(subs), id), CountTime());
    RequestsInTime(subs, requests, DisposesOf(Entries(subs), id));
    StableSortSorted(DisposesOf(Entries(subs), id), DisposeTime());
  }

  lemma {:induction false} CountsInTime(subs: seq<Submission>, places: seq<Place>, recs: seq<Count>)
    requires SortedBy(subs, SubTime()) && Increasing(places) && |places| == |recs|
    requires forall p :: p in places ==> IsPlace(subs, p)
    requires forall k {:trigger places[k]} :: 0 <= k < |places| ==> CountedBy(subs, places[k], recs[k])
    ensures SortedBy(recs, CountTime())
  {
    forall k {:trigger recs[k]} | 0 < k < |recs|
      ensures recs[k - 1].at <= recs[k].at
    {
      TimesInOrder(subs, places, k - 1, k);
    }
    Adjacent(recs, CountTime());
  }

  lemma {:induction false} RequestsInTime(subs: seq<Submission>, places: seq<Place>, disposes: seq<Dispose>)
    requires SortedBy(subs, SubTime()) && Increasing(places) && |places| == |disposes|
    requires forall p :: p in places ==> IsPlace(subs, p)
    requires forall k {:trigger places[k]} :: 0 <= k < |places| ==> RequestedIn(subs, places[k], disposes[k])
    ensures SortedBy(disposes, DisposeTime())
  {
    forall k {:trigger disposes[k]} | 0 < k < |disposes|
      ensures disposes[k - 1].at <= disposes[k].at
    {
      TimesInOrder(subs, places, k - 1, k);
    }
    Adjacent(disposes, DisposeTime());
  }

  /** In whatever order the submissions come, the input holds exactly the counts and requests their lines state. */
  lemma {:induction false} InputHasLines(subs: seq<Submission>, items: map<nat, Item>, id: nat, c: Count, d: Dispose)
    requires id in items
    ensures c in InputFor(subs, items, id).recs <==>
            exists p: Place :: Mentions(subs, true, id, p) && CountedBy(subs, p, c)
    ensures d in InputFor(subs, items, id).disposes <==>
            exists p: Place :: Mentions(subs, false, id, p) && RequestedIn(subs, p, d)
  {
    var recs, disposes := CountsOf(Entries(subs), id), DisposesOf(Entries(subs), id);
    StableSortHas(recs, CountTime());
    StableSortHas(disposes, DisposeTime());
    CountAmong(subs, id, c);
    RequestAmong(subs, id, d);
  }

  lemma {:induction false} CountAmong(subs: seq<Submission>, id: nat, c: Count)
    ensures c in CountsOf(Entries(subs), id) <==>
            exists p: Place :: Mentions(subs, true, id, p) && CountedBy(subs, p, c)
  {
    var recs := CountsOf(Entries(subs), id);
    var places := CountsAreLines(subs, id);
    if k :| 0 <= k < |recs| && recs[k] == c {
      assert places[k] in places && CountedBy(subs, places[k], recs[k]);
    }
    if p: Place :| Mentions(subs, true, id, p) && CountedBy(subs, p, c) {
      var k :| 0 <= k < |places| && places[k] == p;
      assert CountedBy(subs, places[k], recs[k]);
    }
  }

  lemma {:induction false} RequestAmong(subs: seq<Submission>, id: nat, d: Dispose)
    ensures d in DisposesOf(Entries(subs), id) <==>
            exists p: Place :: Mentions(subs, false, id, p) && RequestedIn(subs, p, d)
  {
    var disposes := DisposesOf(Entries(subs), id);
    var places := DisposesAreLines(subs, id);
    if k :| 0 <= k < |disposes| && disposes[k] == d {
      assert places[k] in places && RequestedIn(subs, places[k], disposes[k]);
    }
    if p: Place :| Mentions(subs, false, id, p) && RequestedIn(subs, p, d) {
      var k :| 0 <= k < |places| && places[k] == p;
      assert RequestedIn(subs, places[k], disposes[k]);
    }
  }
}

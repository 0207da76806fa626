/**
 From submissions to per-item inputs (cmd/util/reconcile.go, the first half of computeResolution).
 Submissions arrive parsed, in chronological order and with distinct ids.
 */
module Submissions {
  import opened Basics
  import opened Fifo
  import opened Windows
  import opened Resolver

  /** One line of a submission: the counted quantity, or the quantity to dispose of. */
  datatype Line = Line(itemID: nat, prev: real, qty: real)

  datatype Submission = Submission(id: nat, at: Instant, isReconcile: bool, lines: seq<Line>)

  /** A line together with its submission. */
  datatype Entry = Entry(subID: nat, at: Instant, isReconcile: bool, itemID: nat, prev: real, qty: real)

  function SubTime(): Submission -> int {
    (s: Submission) => s.at
  }

  function EntryTime(): Entry -> int {
    (e: Entry) => e.at
  }

  ghost predicate DistinctSubs(subs: seq<Submission>) {
    forall i, j :: 0 <= i < j < |subs| ==> subs[i].id != subs[j].id
  }

  // ----- closed forms -----

  ghost function ReconcileCount(subs: seq<Submission>): nat {
    if subs == [] then 0
    else ReconcileCount(subs[..|subs| - 1]) + if subs[|subs| - 1].isReconcile then 1 else 0
  }

  function EntryOf(sub: Submission, l: Line): Entry {
    Entry(sub.id, sub.at, sub.isReconcile, l.itemID, l.prev, l.qty)
  }

  ghost function SubEntries(sub: Submission, n: nat): (r: seq<Entry>)
    requires n <= |sub.lines|
    ensures |r| == n
  {
    if n == 0 then [] else SubEntries(sub, n - 1) + [EntryOf(sub, sub.lines[n - 1])]
  }

  /** Every line of every submission, in order. */
  ghost function Entries(subs: seq<Submission>): seq<Entry> {
    if subs == [] then
      []
    else
      var sub := subs[|subs| - 1];
      Entries(subs[..|subs| - 1]) + SubEntries(sub, |sub.lines|)
  }

  /** The items the entries name, in order of first appearance. */
  ghost function ItemsOf(entries: seq<Entry>): seq<nat> {
    if entries == [] then
      []
    else
      var before, id := ItemsOf(entries[..|entries| - 1]), entries[|entries| - 1].itemID;
      if id in before then before else before + [id]
  }

  ghost function CountsOf(entries: seq<Entry>, id: nat): seq<Count> {
    if entries == [] then
      []
    else
      var before, e := CountsOf(entries[..|entries| - 1], id), entries[|entries| - 1];
      if e.isReconcile && e.itemID == id then before + [Count(e.subID, e.at, e.prev, e.qty)] else before
  }

  ghost function DisposesOf(entries: seq<Entry>, id: nat): seq<Dispose> {
    if entries == [] then
      []
    else
      var before, e := DisposesOf(entries[..|entries| - 1], id), entries[|entries| - 1];
      if !e.isReconcile && e.itemID == id then before + [Dispose(e.subID, e.at, e.qty)] else before
  }

  /** The input of an item, as the resolver receives it. */
  ghost function InputOf(entries: seq<Entry>, id: nat, layers: seq<Layer>): ItemInput {
    ItemInput(id, StableSort(CountsOf(entries, id), CountTime()), StableSort(DisposesOf(entries, id), DisposeTime()),
      layers)
  }

  // ----- the collecting loops -----

  function Get<T>(m: map<nat, seq<T>>, id: nat): seq<T> {
    if id in m then m[id] else []
  }

  method CountReconciles(subs: seq<Submission>) returns (n: nat)
    ensures n == ReconcileCount(subs)
  {
    n := 0;
    var i := 0;
    while i < |subs|
      invariant i <= |subs| && n == ReconcileCount(subs[..i])
    {
      assert subs[..i + 1][..i] == subs[..i];
      if subs[i].isReconcile {
        n := n + 1;
      }
      i := i + 1;
    }
    assert subs[..i] == subs;
  }

  /** Every item's counts and disposes of the entries are filed under the item. */
  ghost predicate Filed(counts: map<nat, seq<Count>>, disposes: map<nat, seq<Dispose>>, entries: seq<Entry>) {
    && (forall id: nat {:trigger Get(counts, id)} :: Get(counts, id) == CountsOf(entries, id))
    && (forall id: nat {:trigger Get(disposes, id)} :: Get(disposes, id) == DisposesOf(entries, id))
  }

  lemma {:induction false} FiledAt(
    counts: map<nat, seq<Count>>, disposes: map<nat, seq<Dispose>>, entries: seq<Entry>, id: nat)
    requires Filed(counts, disposes, entries)
    ensures Get(counts, id) == CountsOf(entries, id) && Get(disposes, id) == DisposesOf(entries, id)
  {
  }

  /** What the collecting loop has after the entries so far. */
  ghost predicate Collected(
    itemIDs: seq<nat>, counts: map<nat, seq<Count>>, disposes: map<nat, seq<Dispose>>, entries: seq<Entry>) {
    itemIDs == ItemsOf(entries) && Filed(counts, disposes, entries)
  }

  lemma {:induction false} CollectStep(entries: seq<Entry>, e: Entry, id: nat)
    ensures CountsOf(entries + [e], id)
         == CountsOf(entries, id)
          + if e.isReconcile && e.itemID == id then [Count(e.subID, e.at, e.prev, e.qty)] else []
    ensures DisposesOf(entries + [e], id)
         == DisposesOf(entries, id) + if !e.isReconcile && e.itemID == id then [Dispose(e.subID, e.at, e.qty)] else []
    ensures ItemsOf(entries + [e]) == ItemsOf(entries) + if e.itemID in ItemsOf(entries) then [] else [e.itemID]
  {
    assert (entries + [e])[..|entries|] == entries;
  }

  /** Files one line under its item. */
  method CollectLine(
    sub: Submission, l: Line, itemIDs0: seq<nat>, counts0: map<nat, seq<Count>>, disposes0: map<nat, seq<Dispose>>,
    ghost entries: seq<Entry>)
    returns (itemIDs: seq<nat>, counts: map<nat, seq<Count>>, disposes: map<nat, seq<Dispose>>)
    requires Collected(itemIDs0, counts0, disposes0, entries)
    ensures Collected(itemIDs, counts, disposes, entries + [EntryOf(sub, l)])
  {
    itemIDs, counts, disposes := itemIDs0, counts0, disposes0;
    if l.itemID !in itemIDs {
      itemIDs := itemIDs + [l.itemID];
    }
    if sub.isReconcile {
      counts := counts[l.itemID := Get(counts, l.itemID) + [Count(sub.id, sub.at, l.prev, l.qty)]];
    } else {
      disposes := disposes[l.itemID := Get(disposes, l.itemID) + [Dispose(sub.id, sub.at, l.qty)]];
    }
    forall id: nat
      ensures Get(counts, id) == CountsOf(entries + [EntryOf(sub, l)], id)
      ensures Get(disposes, id) == DisposesOf(entries + [EntryOf(sub, l)], id)
    {
      CollectStep(entries, EntryOf(sub, l), id);
      assert Get(counts0, id) == CountsOf(entries, id) && Get(disposes0, id) == DisposesOf(entries, id);
    }
    CollectStep(entries, EntryOf(sub, l), l.itemID);
  }

  /** Files every line of one submission. */
  method CollectLines(
    sub: Submission, itemIDs0: seq<nat>, counts0: map<nat, seq<Count>>, disposes0: map<nat, seq<Dispose>>,
    ghost before: seq<Entry>)
    returns (itemIDs: seq<nat>, counts: map<nat, seq<Count>>, disposes: map<nat, seq<Dispose>>)
    requires Collected(itemIDs0, counts0, disposes0, before)
    ensures Collected(itemIDs, counts, disposes, before + SubEntries(sub, |sub.lines|))
  {
    itemIDs, counts, disposes := itemIDs0, counts0, disposes0;
    assert before + [] == before;
    var j := 0;
    while j < |sub.lines|
      invariant j <= |sub.lines|
      invariant Collected(itemIDs, counts, disposes, before + SubEntries(sub, j))
    {
      itemIDs, counts, disposes := CollectLine(sub, sub.lines[j], itemIDs, counts, disposes,
        before + SubEntries(sub, j));
      assert before + SubEntries(sub, j + 1) == before + SubEntries(sub, j) + [EntryOf(sub, sub.lines[j])];
      j := j + 1;
    }
  }

  /** Files every line of every submission under its item. */
  method CollectInputs(subs: seq<Submission>)
    returns (itemIDs: seq<nat>, counts: map<nat, seq<Count>>, disposes: map<nat, seq<Dispose>>)
    ensures Collected(itemIDs, counts, disposes, Entries(subs))
  {
    itemIDs, counts, disposes := [], map[], map[];
    var i := 0;
    while i < |subs|
      invariant i <= |subs|
      invariant Collected(itemIDs, counts, disposes, Entries(subs[..i]))
    {
      itemIDs, counts, disposes := CollectLines(subs[i], itemIDs, counts, disposes, Entries(subs[..i]));
      assert subs[..i + 1][..i] == subs[..i];
      i := i + 1;
    }
    assert subs[..i] == subs;
  }
}

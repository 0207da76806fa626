/**
 Rewriting the payloads by their corrections and resolving an item again (cmd/util/reconcile.go,
 computeResolution and correctedPayload): which correction a count finds, and exactly when the item's
 second resolution corrects nothing and is otherwise the same.
 */
module PlannerRerun {
  import opened Basics
  import opened Windows
  import opened Resolver
  import opened Rerun
  import opened Plans
  import opened Submissions
  import opened Planner
  import opened PlannerLaws
  import opened Settlement

  // ----- the reissued submissions -----

  /** The line with its correction, the last one that names its item. */
  ghost function ReissueLine(l: Line, corrections: seq<Correction>): Line {
    match LastFor(corrections, l.itemID)
    case Some(c) => l.(qty := c.newQty, prev := c.newPrev)
    case None => l
  }

  ghost function ReissueLines(lines: seq<Line>, corrections: seq<Correction>): (r: seq<Line>)
    ensures |r| == |lines|
  {
    if lines == [] then []
    else ReissueLines(lines[..|lines| - 1], corrections) + [ReissueLine(lines[|lines| - 1], corrections)]
  }

  /** A reconcile with its corrected payload; a dispose is left alone. */
  ghost function ReissueSub(sub: Submission, corrections: seq<Correction>): Submission {
    if sub.isReconcile then sub.(lines := ReissueLines(sub.lines, Filter(corrections, OfSub(sub.id)))) else sub
  }

  ghost function Reissue(subs: seq<Submission>, corrections: seq<Correction>): (r: seq<Submission>)
    ensures |r| == |subs|
  {
    if subs == [] then []
    else Reissue(subs[..|subs| - 1], corrections) + [ReissueSub(subs[|subs| - 1], corrections)]
  }

  ghost function ReissueEntry(e: Entry, corrections: seq<Correction>): Entry {
    if e.isReconcile then
      match LastFor(Filter(corrections, OfSub(e.subID)), e.itemID)
      case Some(c) => e.(qty := c.newQty, prev := c.newPrev)
      case None => e
    else
      e
  }

  ghost function ReissueEntries(entries: seq<Entry>, corrections: seq<Correction>): (r: seq<Entry>)
    ensures |r| == |entries|
  {
    if entries == [] then []
    else ReissueEntries(entries[..|entries| - 1], corrections) + [ReissueEntry(entries[|entries| - 1], corrections)]
  }

  ghost function ReissueCounts(recs: seq<Count>, item: nat, corrections: seq<Correction>): (r: seq<Count>)
    ensures |r| == |recs|
  {
    if recs == [] then
      []
    else
      var c := recs[|recs| - 1];
      ReissueCounts(recs[..|recs| - 1], item, corrections)
      + [match LastFor(Filter(corrections, OfSub(c.subID)), item)
         case Some(x) => c.(qty := x.newQty, prev := x.newPrev)
         case None => c]
  }

  // ----- from submissions to entries to counts -----

  lemma {:induction false} ReissuedLineAt(lines: seq<Line>, corrections: seq<Correction>, j: nat)
    requires j < |lines|
    ensures ReissueLines(lines, corrections)[j] == ReissueLine(lines[j], corrections)
  {
    if j < |lines| - 1 {
      ReissuedLineAt(lines[..|lines| - 1], corrections, j);
    }
  }

  lemma {:induction false} ReissuedConcat(a: seq<Entry>, b: seq<Entry>, corrections: seq<Correction>)
    ensures ReissueEntries(a + b, corrections) == ReissueEntries(a, corrections) + ReissueEntries(b, corrections)
  {
    if b == [] {
      assert a + b == a;
    } else {
      assert (a + b)[..|a + b| - 1] == a + b[..|b| - 1];
      ReissuedConcat(a, b[..|b| - 1], corrections);
    }
  }

  lemma {:induction false} ReissuedSub(sub: Submission, corrections: seq<Correction>, n: nat)
    requires n <= |sub.lines|
    ensures SubEntries(ReissueSub(sub, corrections), n) == ReissueEntries(SubEntries(sub, n), corrections)
  {
    if n > 0 {
      ReissuedSub(sub, corrections, n - 1);
      assert SubEntries(sub, n)[..n - 1] == SubEntries(sub, n - 1);
      if sub.isReconcile {
        ReissuedLineAt(sub.lines, Filter(corrections, OfSub(sub.id)), n - 1);
      }
    }
  }

  lemma {:induction false} ReissuedSubs(subs: seq<Submission>, corrections: seq<Correction>)
    ensures Entries(Reissue(subs, corrections)) == ReissueEntries(Entries(subs), corrections)
    ensures ReconcileCount(Reissue(subs, corrections)) == ReconcileCount(subs)
  {
    if subs != [] {
      var front, sub := subs[..|subs| - 1], subs[|subs| - 1];
      ReissuedSubs(front, corrections);
      ReissuedSub(sub, corrections, |sub.lines|);
      ReissuedConcat(Entries(front), SubEntries(sub, |sub.lines|), corrections);
      assert Reissue(subs, corrections)[..|front|] == Reissue(front, corrections);
    }
  }

  lemma {:induction false} ReissuedItems(entries: seq<Entry>, corrections: seq<Correction>)
    ensures ItemsOf(ReissueEntries(entries, corrections)) == ItemsOf(entries)
  {
    if entries != [] {
      ReissuedItems(entries[..|entries| - 1], corrections);
      assert ReissueEntries(entries, corrections)[..|entries| - 1] ==
        ReissueEntries(entries[..|entries| - 1], corrections);
    }
  }

  lemma {:induction false} ReissuedSteps(entries: seq<Entry>, corrections: seq<Correction>, id: nat)
    ensures CountsOf(ReissueEntries(entries, corrections), id) == ReissueCounts(CountsOf(entries, id), id, corrections)
    ensures DisposesOf(ReissueEntries(entries, corrections), id) == DisposesOf(entries, id)
  {
    if entries != [] {
      var front, e := entries[..|entries| - 1], entries[|entries| - 1];
      ReissuedSteps(front, corrections, id);
      assert ReissueEntries(entries, corrections)[..|front|] == ReissueEntries(front, corrections);
      var counts := CountsOf(front, id);
      assert (counts + [Count(e.subID, e.at, e.prev, e.qty)])[..|counts|] == counts;
    }
  }

  lemma {:induction false} ReissuedCountAt(recs: seq<Count>, item: nat, corrections: seq<Correction>, k: nat)
    requires k < |recs|
    ensures ReissueCounts(recs, item, corrections)[k]
         == match LastFor(Filter(corrections, OfSub(recs[k].subID)), item)
            case Some(x) => recs[k].(qty := x.newQty, prev := x.newPrev)
            case None => recs[k]
  {
    if k < |recs| - 1 {
      ReissuedCountAt(recs[..|recs| - 1], item, corrections, k);
    }
  }

  // ----- order and uniqueness -----

  /** No submission lists an item twice. */
  ghost predicate NoDuplicateLines(subs: seq<Submission>) {
    forall i, a, b {:trigger subs[i].lines[a], subs[i].lines[b]} ::
      0 <= i < |subs| && 0 <= a < b < |subs[i].lines| ==> subs[i].lines[a].itemID != subs[i].lines[b].itemID
  }

  ghost predicate OneSubEach(recs: seq<Count>) {
    forall a, b :: 0 <= a < b < |recs| ==> recs[a].subID != recs[b].subID
  }

  lemma {:induction false} SortedConcat<X>(s: seq<X>, t: seq<X>, key: X -> int)
    requires SortedBy(s, key) && SortedBy(t, key)
    requires s != [] && t != [] ==> key(s[|s| - 1]) <= key(t[0])
    ensures SortedBy(s + t, key)
  {
    if t == [] {
      assert s + t == s;
    } else {
      var front := t[..|t| - 1];
      assert (s + t)[..|s + t| - 1] == s + front;
      SortedConcat(s, front, key);
      if front != [] {
        assert (s + t)[|s + t| - 2] == front[|front| - 1];
      }
    }
  }

  lemma {:induction false} SubEntriesSorted(sub: Submission, n: nat)
    requires n <= |sub.lines|
    ensures SortedBy(SubEntries(sub, n), EntryTime()) && forall k :: 0 <= k < n ==> SubEntries(sub, n)[k].at == sub.at
  {
    if n > 0 {
      SubEntriesSorted(sub, n - 1);
      assert SubEntries(sub, n)[..n - 1] == SubEntries(sub, n - 1);
    }
  }

  lemma {:induction false} AppendedSorted(entries: seq<Entry>, sub: Submission)
    requires SortedBy(entries, EntryTime()) && (entries != [] ==> entries[|entries| - 1].at <= sub.at)
    ensures var all := entries + SubEntries(sub, |sub.lines|);
            SortedBy(all, EntryTime()) && (all != [] ==> all[|all| - 1].at <= sub.at)
  {
    SubEntriesSorted(sub, |sub.lines|);
    SortedConcat(entries, SubEntries(sub, |sub.lines|), EntryTime());
  }

  lemma {:induction false} EntriesSorted(subs: seq<Submission>)
    requires SortedBy(subs, SubTime())
    ensures SortedBy(Entries(subs), EntryTime())
    ensures Entries(subs) != [] ==> Entries(subs)[|Entries(subs)| - 1].at <= subs[|subs| - 1].at
  {
    if subs != [] {
      EntriesSorted(subs[..|subs| - 1]);
      AppendedSorted(Entries(subs[..|subs| - 1]), subs[|subs| - 1]);
    }
  }

  /** Counts come out in the order of the submissions, so the sort that follows changes nothing. */
  lemma {:induction false} CountsSorted(entries: seq<Entry>, id: nat)
    requires SortedBy(entries, EntryTime())
    ensures SortedBy(CountsOf(entries, id), CountTime())
    ensures CountsOf(entries, id) != [] ==>
            CountsOf(entries, id)[|CountsOf(entries, id)| - 1].at <= entries[|entries| - 1].at
  {
    if entries != [] {
      var front, e := entries[..|entries| - 1], entries[|entries| - 1];
      CountsSorted(front, id);
      var counts := CountsOf(front, id);
      assert front != [] ==> front[|front| - 1].at <= e.at;
      assert (counts + [Count(e.subID, e.at, e.prev, e.qty)])[..|counts|] == counts;
    }
  }

  lemma {:induction false} SubCountsOnce(sub: Submission, n: nat, id: nat)
    requires n <= |sub.lines| && forall a, b :: 0 <= a < b < n ==> sub.lines[a].itemID != sub.lines[b].itemID
    ensures |CountsOf(SubEntries(sub, n), id)| <= 1
    ensures CountsOf(SubEntries(sub, n), id) != [] ==> exists a :: 0 <= a < n && sub.lines[a].itemID == id
    ensures forall c :: c in CountsOf(SubEntries(sub, n), id) ==> c.subID == sub.id
  {
    if n > 0 {
      SubCountsOnce(sub, n - 1, id);
      assert SubEntries(sub, n)[..n - 1] == SubEntries(sub, n - 1);
    }
  }

  lemma {:induction false} CountsConcat(a: seq<Entry>, b: seq<Entry>, id: nat)
    ensures CountsOf(a + b, id) == CountsOf(a, id) + CountsOf(b, id)
  {
    if b == [] {
      assert a + b == a;
    } else {
      assert (a + b)[..|a + b| - 1] == a + b[..|b| - 1];
      CountsConcat(a, b[..|b| - 1], id);
    }
  }

  lemma {:induction false} CountOrigin(subs: seq<Submission>, id: nat, c: Count)
    requires c in CountsOf(Entries(subs), id)
    ensures exists i :: 0 <= i < |subs| && subs[i].id == c.subID
  {
    CountsAre(Entries(subs), id, c);
    var e :| e in Entries(subs) && e.isReconcile && e.itemID == id && c == Count(e.subID, e.at, e.prev, e.qty);
    var i, j := EntryOrigin(subs, e);
  }

  lemma {:induction false} OneMoreSub(a: seq<Count>, b: seq<Count>, subID: nat)
    requires OneSubEach(a) && |b| <= 1 && (forall c :: c in b ==> c.subID == subID) &&
             (forall c :: c in a ==> c.subID != subID)
    ensures OneSubEach(a + b)
  {
    assert b != [] ==> b[0] in b;
    assert forall i :: 0 <= i < |a| ==> a[i] in a;
  }

  lemma {:induction false} CountsOnce(subs: seq<Submission>, id: nat)
    requires DistinctSubs(subs) && NoDuplicateLines(subs)
    ensures OneSubEach(CountsOf(Entries(subs), id))
  {
    if subs != [] {
      var front, sub := subs[..|subs| - 1], subs[|subs| - 1];
      assert NoDuplicateLines(front) by {
        assert forall i :: 0 <= i < |front| ==> front[i] == subs[i];
      }
      CountsOnce(front, id);
      SubCountsOnce(sub, |sub.lines|, id);
      CountsConcat(Entries(front), SubEntries(sub, |sub.lines|), id);
      forall c | c in CountsOf(Entries(front), id)
        ensures c.subID != sub.id
      {
        CountOrigin(front, id, c);
        var j :| 0 <= j < |front| && front[j].id == c.subID;
        assert subs[j].id != subs[|subs| - 1].id;
      }
      OneMoreSub(CountsOf(Entries(front), id), CountsOf(SubEntries(sub, |sub.lines|), id), sub.id);
    }
  }

  /** Entries in order of time, with at most one count of an item per submission. */
  ghost predicate GoodEntries(entries: seq<Entry>) {
    SortedBy(entries, EntryTime()) && forall id: nat :: OneSubEach(CountsOf(entries, id))
  }

  lemma {:induction false} EntriesAreGood(subs: seq<Submission>)
    requires DistinctSubs(subs) && SortedBy(subs, SubTime()) && NoDuplicateLines(subs)
    ensures GoodEntries(Entries(subs))
  {
    EntriesSorted(subs);
    forall id: nat
      ensures OneSubEach(CountsOf(Entries(subs), id))
    {
      CountsOnce(subs, id);
    }
  }

  // ----- looking a correction up -----

  lemma {:induction false} LastForConcat(a: seq<Correction>, b: seq<Correction>, item: nat)
    ensures LastFor(a + b, item) == if LastFor(b, item).Some? then LastFor(b, item) else LastFor(a, item)
  {
    if b == [] {
      assert a + b == a;
    } else {
      assert (a + b)[..|a + b| - 1] == a + b[..|b| - 1];
      LastForConcat(a, b[..|b| - 1], item);
    }
  }

  lemma {:induction false} LastForNone(a: seq<Correction>, item: nat)
    requires forall c :: c in a ==> c.itemID != item
    ensures LastFor(a, item) == None
  {
    if a != [] {
      assert a[|a| - 1] in a;
      LastForNone(a[..|a| - 1], item);
    }
  }

  /** The quantity of the last corrected step of the submission. */
  ghost function LastCorrected(steps: seq<Step>, subID: nat): Option<real> {
    if steps == [] then
      None
    else
      var s := steps[|steps| - 1];
      if s.corrected && s.subID == subID then Some(s.newQty) else LastCorrected(steps[..|steps| - 1], subID)
  }

  function QtyOf(c: Option<Correction>): Option<real> {
    if c.Some? then Some(c.value.newQty) else None
  }

  /** Among an item's own corrections the look-up for a submission finds its last corrected step. */
  lemma {:induction false} LookUpOwn(item: nat, recs: seq<Count>, steps: seq<Step>, subID: nat)
    ensures QtyOf(LastFor(Filter(CorrectionsOf(item, recs, steps), OfSub(subID)), item)) == LastCorrected(steps, subID)
  {
    if steps != [] {
      var front, s := steps[..|steps| - 1], steps[|steps| - 1];
      LookUpOwn(item, recs, front, subID);
      if s.corrected {
        var before := CorrectionsOf(item, recs, front);
        var c := Correction(s.subID, item, s.origQty, s.newQty, PrevOf(recs, s.subID), s.prevQty);
        FilterSnoc(before, c, OfSub(subID));
        assert (Filter(before, OfSub(subID)) + [c])[..|Filter(before, OfSub(subID))|] == Filter(before, OfSub(subID));
      }
    }
  }

  /** A submission with one step of the item is found corrected exactly when that step is. */
  lemma {:induction false} OneStepOfSub(steps: seq<Step>, k: nat)
    requires k < |steps| && forall a, b :: 0 <= a < b < |steps| ==> steps[a].subID != steps[b].subID
    ensures LastCorrected(steps, steps[k].subID) == if steps[k].corrected then Some(steps[k].newQty) else None
  {
    if k == |steps| - 1 {
      NothingCorrectedOf(steps[..k], steps[k].subID);
    } else {
      OneStepOfSub(steps[..|steps| - 1], k);
    }
  }

  lemma {:induction false} NothingCorrectedOf(steps: seq<Step>, subID: nat)
    requires forall k :: 0 <= k < |steps| ==> steps[k].subID != subID
    ensures LastCorrected(steps, subID) == None
  {
    if steps != [] {
      NothingCorrectedOf(steps[..|steps| - 1], subID);
    }
  }

  /** A corrected step's submission has a last corrected step. */
  lemma {:induction false} CorrectedIsFound(steps: seq<Step>, k: nat)
    requires k < |steps| && steps[k].corrected
    ensures LastCorrected(steps, steps[k].subID).Some?
  {
    if k < |steps| - 1 {
      CorrectedIsFound(steps[..|steps| - 1], k);
    }
  }

  /** Each of the parts holds the corrections of its own item. */
  ghost predicate PartsByItem(parts: seq<seq<Correction>>, ids: seq<nat>) {
    |parts| <= |ids| && forall k, c {:trigger c in parts[k]} :: 0 <= k < |parts| && c in parts[k] ==> c.itemID == ids[k]
  }

  ghost function Flatten(parts: seq<seq<Correction>>): seq<Correction> {
    if parts == [] then [] else Flatten(parts[..|parts| - 1]) + parts[|parts| - 1]
  }

  lemma {:induction false} FlattenHas(parts: seq<seq<Correction>>, c: Correction)
    requires c in Flatten(parts)
    ensures exists k :: 0 <= k < |parts| && c in parts[k]
  {
    if c in Flatten(parts[..|parts| - 1]) {
      FlattenHas(parts[..|parts| - 1], c);
    }
  }

  /** An item's corrections can be looked up among all corrections. */
  lemma {:induction false} LookUp(parts: seq<seq<Correction>>, ids: seq<nat>, k: nat, x: nat)
    requires PartsByItem(parts, ids) && Distinct(ids) && k < |parts|
    ensures LastFor(Filter(Flatten(parts), OfSub(x)), ids[k]) == LastFor(Filter(parts[k], OfSub(x)), ids[k])
  {
    var n := |parts| - 1;
    var front, last := parts[..n], parts[n];
    FilterConcat(Flatten(front), last, OfSub(x));
    LastForConcat(Filter(Flatten(front), OfSub(x)), Filter(last, OfSub(x)), ids[k]);
    if k < n {
      LookUp(front, ids, k, x);
      DistinctAt(ids, k, n);
      forall c | c in Filter(last, OfSub(x))
        ensures c.itemID != ids[k]
      {
        assert c in parts[n];
      }
      LastForNone(Filter(last, OfSub(x)), ids[k]);
    } else {
      forall c | c in Filter(Flatten(front), OfSub(x))
        ensures c.itemID != ids[n]
      {
        FlattenHas(front, c);
        var j :| 0 <= j < n && c in front[j];
        assert c in parts[j];
        DistinctAt(ids, j, n);
      }
      LastForNone(Filter(Flatten(front), OfSub(x)), ids[n]);
    }
  }

  /** The corrections of one item. */
  ghost function PartOf(result: Result<ItemResult, PlanError>): seq<Correction> {
    if result.Ok? then result.value.corrections else []
  }

  /** The corrections of the first n items, item by item. */
  ghost function Parts(results: seq<Result<ItemResult, PlanError>>, n: nat): (r: seq<seq<Correction>>)
    requires n <= |results|
    ensures |r| == n && forall k :: 0 <= k < n ==> r[k] == PartOf(results[k])
  {
    if n == 0 then [] else Parts(results, n - 1) + [PartOf(results[n - 1])]
  }

  lemma {:induction false} PartNamesItem(input: ItemInput, item: Item, c: Correction)
    requires c in PartOf(ItemResultOf(input, item))
    ensures c.itemID == input.itemID
  {
    CorrectionsAre(input.itemID, input.recs, Resolve(input).value.steps, c);
  }

  lemma {:induction false} PartsBelong(entries: seq<Entry>, ids: seq<nat>, items: map<nat, Item>)
    requires forall id :: id in ids ==> id in items
    ensures PartsByItem(Parts(ResultsOf(entries, ids, items), |ids|), ids)
  {
    var results := ResultsOf(entries, ids, items);
    var parts := Parts(results, |ids|);
    forall k: nat, c: Correction {:trigger c in parts[k]} | k < |ids| && c in parts[k]
      ensures c.itemID == ids[k]
    {
      assert parts[k] == PartOf(results[k]);
      PartNamesItem(InputOf(entries, ids[k], items[ids[k]].layers), items[ids[k]], c);
    }
  }

  /** The corrections of a tally are those of its items, one after another. */
  lemma {:induction false} TallyParts(results: seq<Result<ItemResult, PlanError>>, n: nat)
    requires n <= |results| && TallyItems(results, n).Ok?
    ensures TallyItems(results, n).value.corrections == Flatten(Parts(results, n))
  {
    if n > 0 {
      TallyParts(results, n - 1);
      assert Parts(results, n)[..n - 1] == Parts(results, n - 1);
    }
  }

  // ----- one item again -----

  lemma {:induction false} StepsOfInput(input: ItemInput)
    requires Resolve(input).Ok?
    ensures |Resolve(input).value.steps| == |input.recs| == |Corrections(Scope(input))|
    ensures forall k {:trigger Resolve(input).value.steps[k]} :: 0 <= k < |input.recs| ==>
              StepOf(Resolve(input).value.steps[k], input.recs[k], Corrections(Scope(input))[k])
  {
    var s := Scope(input);
    var ignored := ResolveIsSettle(input);
    forall k | 0 <= k < |s.recs|
      ensures StepOf(Steps(s)[k], s.recs[k], Corrections(s)[k])
    {
      StepsFromAt(s.recs, StartStock(s), Corrections(s), Received(s.recs, s.layers), Disposed(s.recs, s.disposes),
        |s.recs|, k);
    }
  }

  /** The step reports the count and its corrected quantity. */
  predicate StepOf(step: Step, rec: Count, qty: real) {
    && step.subID == rec.subID && step.at == rec.at && step.origQty == rec.qty && step.newQty == qty
    && (step.corrected <==> qty != rec.qty)
  }

  /** Where the corrections name the submission and the item, they give the quantity. */
  ghost predicate Agrees(corrections: seq<Correction>, item: nat, subID: nat, qty: real) {
    var found := LastFor(Filter(corrections, OfSub(subID)), item);
    found.Some? ==> found.value.newQty == qty
  }

  /** No payload gets another quantity than the step of the count it holds. */
  ghost predicate StepsAgree(corrections: seq<Correction>, item: nat, steps: seq<Step>) {
    forall k {:trigger steps[k]} :: 0 <= k < |steps| ==> Agrees(corrections, item, steps[k].subID, steps[k].newQty)
  }

  /** The same, over the steps alone: the last corrected step of a submission speaks for all its steps. */
  ghost predicate LastCorrectedAgrees(steps: seq<Step>) {
    forall k {:trigger steps[k]} :: 0 <= k < |steps| && LastCorrected(steps, steps[k].subID).Some? ==>
      LastCorrected(steps, steps[k].subID).value == steps[k].newQty
  }

  /** Looked up for the item, the corrections give what the item's own part gives. */
  ghost predicate Serves(corrections: seq<Correction>, item: nat, part: seq<Correction>) {
    forall x: nat {:trigger OfSub(x)} ::
      LastFor(Filter(corrections, OfSub(x)), item) == LastFor(Filter(part, OfSub(x)), item)
  }

  lemma {:induction false} AgreeByLastCorrected(
    corrections: seq<Correction>, item: nat, recs: seq<Count>, steps: seq<Step>)
    requires Serves(corrections, item, CorrectionsOf(item, recs, steps))
    ensures StepsAgree(corrections, item, steps) <==> LastCorrectedAgrees(steps)
  {
    forall k | 0 <= k < |steps|
      ensures QtyOf(LastFor(Filter(corrections, OfSub(steps[k].subID)), item)) == LastCorrected(steps, steps[k].subID)
    {
      LookUpOwn(item, recs, steps, steps[k].subID);
      assert OfSub(steps[k].subID) == OfSub(steps[k].subID);
    }
  }

  /** When they agree, the reissued counts of an item are its counts with the corrected quantities. */
  lemma {:induction false} ReissuedCounts(input: ItemInput, corrections: seq<Correction>, steps: seq<Step>)
    requires Resolve(input).Ok? && steps == Resolve(input).value.steps
    requires Serves(corrections, input.itemID, CorrectionsOf(input.itemID, input.recs, steps))
    requires StepsAgree(corrections, input.itemID, steps)
    ensures Recounted(input.recs, ReissueCounts(input.recs, input.itemID, corrections), Corrections(Scope(input)))
  {
    var again := ReissueCounts(input.recs, input.itemID, corrections);
    StepsOfInput(input);
    forall k: nat {:trigger again[k]} | k < |input.recs|
      ensures again[k].subID == input.recs[k].subID && again[k].at == input.recs[k].at
      ensures again[k].qty == Corrections(Scope(input))[k]
    {
      assert StepOf(steps[k], input.recs[k], Corrections(Scope(input))[k]);
      ReissuedCountAt(input.recs, input.itemID, corrections, k);
      assert Agrees(corrections, input.itemID, steps[k].subID, steps[k].newQty);
      LookUpOwn(input.itemID, input.recs, steps, steps[k].subID);
      assert OfSub(input.recs[k].subID) == OfSub(steps[k].subID);
      if steps[k].corrected {
        CorrectedIsFound(steps, k);
      }
    }
  }

  /** When the second resolution takes the first one's corrected counts as they stand, the payloads agreed with them. */
  lemma {:induction false} RepeatedMeansAgreed(
    input: ItemInput, corrections: seq<Correction>, steps: seq<Step>, again: seq<Step>)
    requires Resolve(input).Ok? && steps == Resolve(input).value.steps && |again| == |steps|
    requires var input' := input.(recs := ReissueCounts(input.recs, input.itemID, corrections));
             Resolve(input').Ok? && again == Resolve(input').value.steps
    requires forall k {:trigger again[k]} :: 0 <= k < |steps| ==> again[k].origQty == steps[k].newQty
    ensures StepsAgree(corrections, input.itemID, steps)
  {
    var input' := input.(recs := ReissueCounts(input.recs, input.itemID, corrections));
    StepsOfInput(input);
    StepsOfInput(input');
    forall k {:trigger steps[k]} | 0 <= k < |steps|
      ensures Agrees(corrections, input.itemID, steps[k].subID, steps[k].newQty)
    {
      assert StepOf(steps[k], input.recs[k], Corrections(Scope(input))[k]);
      assert StepOf(again[k], input'.recs[k], Corrections(Scope(input'))[k]);
      ReissuedCountAt(input.recs, input.itemID, corrections, k);
    }
  }

  /**
   Idempotence of one item, exactly: written back to the payloads, its corrections give the same
   resolution with nothing corrected if and only if, for every submission, the last corrected step of the
   item has the quantity of all its steps.
   */
  lemma {:induction false} ItemRepeatsExactlyWhen(input: ItemInput)
    requires WellFormed(input)
    ensures Resolve(input).Ok? ==>
              var steps := Resolve(input).value.steps;
              var again := ReissueCounts(input.recs, input.itemID, CorrectionsOf(input.itemID, input.recs, steps));
              Repeats(Resolve(input), Resolve(input.(recs := again))) <==> LastCorrectedAgrees(steps)
  {
    if Resolve(input).Ok? {
      var steps := Resolve(input).value.steps;
      var corrections := CorrectionsOf(input.itemID, input.recs, steps);
      var input' := input.(recs := ReissueCounts(input.recs, input.itemID, corrections));
      AgreeByLastCorrected(corrections, input.itemID, input.recs, steps);
      if LastCorrectedAgrees(steps) {
        ReissuedCounts(input, corrections, steps);
        RerunIsStable(input, input'.recs);
      }
      if Repeats(Resolve(input), Resolve(input')) {
        RepeatedMeansAgreed(input, corrections, steps, Resolve(input').value.steps);
      }
    }
  }
}

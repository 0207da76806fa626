/**
 What an applied resolution leaves behind (cmd/util/reconcile.go, applyResolution): when a previewed
 plan goes through, and which rows the submissions table then holds.
 */
module StoreLaws {
  import opened Basics
  import opened Ledgers
  import opened Store
  import S = Submissions
  import P = Planner
  import L = PlannerLaws
  import R = PlannerRerun
  import T = Transactions

  // ----- what is loaded -----

  /** The row behind a loaded submission. */
  ghost predicate ReadFrom(subs: map<nat, SubRow>, sub: S.Submission) {
    && sub.id in subs && !subs[sub.id].deleted && subs[sub.id].approval == Pending
    && subs[sub.id].kind == (if sub.isReconcile then Reconcile else Dispose)
    && sub.at == subs[sub.id].at && LinesRead(subs[sub.id].lines, sub.lines, sub.isReconcile)
  }

  /** The lines as they stand in the payload; a dispose has no previous quantities. */
  ghost predicate LinesRead(payload: seq<PayloadLine>, lines: seq<S.Line>, isReconcile: bool) {
    && |lines| == |payload|
    && forall j {:trigger lines[j]} {:trigger payload[j]} :: 0 <= j < |lines| ==>
         && lines[j].itemID == payload[j].itemID && payload[j].quantity == Some(lines[j].qty)
         && lines[j].prev == if isReconcile then payload[j].prev else 0.0
  }

  lemma {:induction false} LoadedOne(subs: map<nat, SubRow>, ids: seq<nat>, reconcileIDs: seq<nat>, n: nat, k: nat)
    requires k < n <= |ids| && LoadAll(subs, ids, reconcileIDs, n).Ok?
    ensures var loaded := LoadAll(subs, ids, reconcileIDs, n).value;
            |loaded| == n && loaded[k].id == ids[k] && (loaded[k].isReconcile <==> ids[k] in reconcileIDs) &&
              ReadFrom(subs, loaded[k])
  {
    if k < n - 1 {
      LoadedOne(subs, ids, reconcileIDs, n - 1, k);
    } else {
      LoadedCount(subs, ids, reconcileIDs, n - 1);
    }
  }

  lemma {:induction false} LoadedCount(subs: map<nat, SubRow>, ids: seq<nat>, reconcileIDs: seq<nat>, n: nat)
    requires n <= |ids| && LoadAll(subs, ids, reconcileIDs, n).Ok?
    ensures |LoadAll(subs, ids, reconcileIDs, n).value| == n
  {
    if n > 0 {
      LoadedCount(subs, ids, reconcileIDs, n - 1);
    }
  }

  lemma {:induction false} DedupDistinct(ids: seq<nat>)
    ensures Distinct(Dedup(ids))
  {
    if ids != [] {
      DedupDistinct(ids[..|ids| - 1]);
      var rest, id := Dedup(ids[..|ids| - 1]), ids[|ids| - 1];
      assert (rest + [id])[..|rest|] == rest;
    }
  }

  ghost predicate SameIds(subs: seq<S.Submission>) {
    forall a, b :: a in subs && b in subs && a.id == b.id ==> a == b
  }

  lemma {:induction false} DistinctById(subs: seq<S.Submission>)
    requires Distinct(subs) && SameIds(subs)
    ensures S.DistinctSubs(subs)
  {
    forall i, j | 0 <= i < j < |subs|
      ensures subs[i].id != subs[j].id
    {
      DistinctAt(subs, i, j);
      assert subs[i] in subs && subs[j] in subs;
    }
  }

  lemma {:induction false} LoadedDistinct(loaded: seq<S.Submission>, ids: seq<nat>)
    requires |loaded| == |ids| && Distinct(ids) && forall k :: 0 <= k < |ids| ==> loaded[k].id == ids[k]
    ensures Distinct(loaded) && SameIds(loaded)
  {
    if loaded != [] {
      var front, last := loaded[..|loaded| - 1], loaded[|loaded| - 1];
      LoadedDistinct(front, ids[..|ids| - 1]);
      forall s | s in front
        ensures s.id != last.id
      {
        var k :| 0 <= k < |front| && front[k] == s;
        assert ids[..|ids| - 1][k] in ids[..|ids| - 1];
      }
      assert loaded == front + [last];
    }
  }

  /** A submission as one of the requested rows. */
  ghost predicate Requested(subs: map<nat, SubRow>, reconcileIDs: seq<nat>, s: S.Submission) {
    ReadFrom(subs, s) && (s.isReconcile <==> s.id in reconcileIDs)
  }

  lemma {:induction false} RawRequested(
    subs: map<nat, SubRow>, ids: seq<nat>, reconcileIDs: seq<nat>, raw: seq<S.Submission>)
    requires LoadAll(subs, ids, reconcileIDs, |ids|) == Ok(raw)
    ensures |raw| == |ids| && (forall k :: 0 <= k < |ids| ==> raw[k].id == ids[k])
    ensures forall s :: s in raw ==> Requested(subs, reconcileIDs, s)
  {
    LoadedCount(subs, ids, reconcileIDs, |ids|);
    forall k | 0 <= k < |ids|
      ensures raw[k].id == ids[k] && Requested(subs, reconcileIDs, raw[k])
    {
      LoadedOne(subs, ids, reconcileIDs, |ids|, k);
    }
  }

  lemma {:induction false} OrderedSubmissions(raw: seq<S.Submission>)
    requires Distinct(raw) && SameIds(raw)
    ensures S.DistinctSubs(InSubmissionOrder(raw)) && SortedBy(InSubmissionOrder(raw), S.SubTime())
    ensures Pairwise(InSubmissionOrder(raw), SubmissionOrder())
    ensures forall s :: s in InSubmissionOrder(raw) <==> s in raw
  {
    var byId := StableSort(raw, SubId());
    StableSortHas(raw, SubId());
    StableSortHas(byId, S.SubTime());
    StableSortDistinct(raw, SubId());
    StableSortDistinct(byId, S.SubTime());
    StableSortSorts(byId, S.SubTime());
    SortBy2Sorts(raw, S.SubTime(), SubId());
    DistinctById(InSubmissionOrder(raw));
  }

  ghost predicate HasId(subs: seq<S.Submission>, id: nat) {
    exists s :: s in subs && s.id == id
  }

  lemma {:induction false} IdsOf(loaded: seq<S.Submission>, ids: seq<nat>, id: nat)
    requires |loaded| == |ids| && forall k :: 0 <= k < |ids| ==> loaded[k].id == ids[k]
    ensures id in ids <==> HasId(loaded, id)
  {
    if id in ids {
      var k :| 0 <= k < |ids| && ids[k] == id;
      assert loaded[k] in loaded;
    }
  }

  /** Loading yields the requested submissions, each once, in chronological order. */
  lemma {:induction false} LoadedSubmissions(
    subs: map<nat, SubRow>, reconcileIDs: seq<nat>, disposeIDs: seq<nat>, loaded: seq<S.Submission>)
    requires LoadSubmissions(subs, reconcileIDs, disposeIDs) == Ok(loaded)
    ensures S.DistinctSubs(loaded) && SortedBy(loaded, S.SubTime()) && Pairwise(loaded, SubmissionOrder())
    ensures forall s :: s in loaded ==> Requested(subs, reconcileIDs, s)
    ensures forall id :: id in reconcileIDs + disposeIDs <==> HasId(loaded, id)
  {
    var ids := Dedup(reconcileIDs + disposeIDs);
    var raw := LoadAll(subs, ids, reconcileIDs, |ids|).value;
    RawRequested(subs, ids, reconcileIDs, raw);
    DedupDistinct(reconcileIDs + disposeIDs);
    LoadedDistinct(raw, ids);
    OrderedSubmissions(raw);
    forall id
      ensures id in ids <==> HasId(loaded, id)
    {
      IdsOf(raw, ids, id);
    }
  }

  // ----- applying what was planned -----

  /** A plan just previewed goes through exactly when no submission was requested twice. */
  lemma {:induction false} PreviewedPlanApplies(
    s: State, reconcileIDs: seq<nat>, disposeIDs: seq<nat>, loaded: seq<S.Submission>, plan: P.Plan)
    requires Sound(s.ledger)
    ensures Previewed(s, reconcileIDs, disposeIDs, loaded, plan) ==>
              (ApplyResolution(s, reconcileIDs, disposeIDs, plan).Ok? <==> Distinct(reconcileIDs + disposeIDs))
  {
    if Previewed(s, reconcileIDs, disposeIDs, loaded, plan) {
      FittingApplies(s, reconcileIDs, disposeIDs, loaded, plan);
    }
  }

  /** What the preview of a request loads and plans. */
  ghost predicate Previewed(
    s: State, reconcileIDs: seq<nat>, disposeIDs: seq<nat>, loaded: seq<S.Submission>, plan: P.Plan) {
    && LoadSubmissions(s.subs, reconcileIDs, disposeIDs) == Ok(loaded)
    && P.PlanOf(loaded, ActiveItems(s.ledger)) == Ok(plan)
  }

  lemma {:induction false} FittingApplies(
    s: State, reconcileIDs: seq<nat>, disposeIDs: seq<nat>, loaded: seq<S.Submission>, plan: P.Plan)
    requires Sound(s.ledger) && Previewed(s, reconcileIDs, disposeIDs, loaded, plan)
    ensures ApplyResolution(s, reconcileIDs, disposeIDs, plan).Ok? <==> Distinct(reconcileIDs + disposeIDs)
  {
    LoadedSubmissions(s.subs, reconcileIDs, disposeIDs, loaded);
    LiveCount(s.subs, reconcileIDs + disposeIDs);
    forall id | id in reconcileIDs + disposeIDs
      ensures Live(s.subs, id) && s.subs[id].approval == Pending
    {
      assert HasId(loaded, id);
      var sub :| sub in loaded && sub.id == id;
      assert Requested(s.subs, reconcileIDs, sub);
    }
    var ids := ResolutionFits(s.ledger, loaded);
    FittingPlanApplies(s.ledger, plan.stock, ids, |plan.stock.itemUpdates|);
  }

  // ----- the rows afterwards -----

  ghost predicate Corrects(corrections: seq<P.Correction>, id: nat) {
    Filter(corrections, P.OfSub(id)) != []
  }

  lemma {:induction false} CorrectsIs(corrections: seq<P.Correction>, id: nat)
    ensures Corrects(corrections, id) <==> P.IsCorrected(corrections, id)
  {
    var mine := Filter(corrections, P.OfSub(id));
    if mine != [] {
      assert mine[0] in mine;
    }
  }

  /** The rows of a table whose corrected submissions are deleted; every other row stands. */
  ghost predicate RowsStand(
    subs: map<nat, SubRow>, after: map<nat, SubRow>, ids: seq<nat>, corrections: seq<P.Correction>) {
    forall id {:trigger id in subs} {:trigger id in after} :: id in subs ==>
      && id in after
      && after[id] == if id in ids && Corrects(corrections, id) then subs[id].(deleted := true) else subs[id]
  }

  /** Correction m is the last one of the submission and the item. */
  ghost predicate IsLast(corrections: seq<P.Correction>, id: nat, item: nat, m: nat) {
    && m < |corrections| && corrections[m].subID == id && corrections[m].itemID == item
    && forall n :: m < n < |corrections| ==> !(corrections[n].subID == id && corrections[n].itemID == item)
  }

  /** The line after the corrections of its submission: the last one of its item decides, if there is one. */
  ghost predicate Rewritten(line: PayloadLine, line': PayloadLine, corrections: seq<P.Correction>, id: nat) {
    && line'.itemID == line.itemID
    && (forall m: nat {:trigger IsLast(corrections, id, line.itemID, m)} :: IsLast(corrections, id, line.itemID, m) ==>
          line'.quantity == Some(corrections[m].newQty) && line'.prev == corrections[m].newPrev)
    && ((forall c :: c in corrections ==> !(c.subID == id && c.itemID == line.itemID)) ==> line' == line)
  }

  /** A live, approved and completed row like the submission's, with its payload rewritten. */
  ghost predicate IsClone(row: SubRow, clone: SubRow, corrections: seq<P.Correction>, id: nat) {
    && !clone.deleted && clone.approval == Approved && clone.processing == Completed
    && clone.kind == row.kind && clone.at == row.at && clone.createdBy == row.createdBy
    && |clone.lines| == |row.lines|
    && forall j {:trigger clone.lines[j]} {:trigger row.lines[j]} :: 0 <= j < |row.lines| ==>
         Rewritten(row.lines[j], clone.lines[j], corrections, id)
  }

  lemma {:induction false} LastForIsLast(corrections: seq<P.Correction>, id: nat, item: nat)
    ensures match P.LastFor(Filter(corrections, P.OfSub(id)), item)
            case Some(c) => exists m: nat :: IsLast(corrections, id, item, m) && corrections[m] == c
            case None => forall c :: c in corrections ==> !(c.subID == id && c.itemID == item)
  {
    if corrections != [] {
      var n := |corrections| - 1;
      var front, last := corrections[..n], corrections[n];
      assert corrections == front + [last];
      LastForIsLast(front, id, item);
      if last.subID == id && last.itemID == item {
        assert IsLast(corrections, id, item, n);
      } else if m: nat :| IsLast(front, id, item, m) {
        assert IsLast(corrections, id, item, m);
      }
    }
  }

  lemma {:induction false} OneLast(corrections: seq<P.Correction>, id: nat, item: nat, m: nat, n: nat)
    requires IsLast(corrections, id, item, m) && IsLast(corrections, id, item, n)
    ensures m == n
  {
  }

  lemma {:induction false} LineIsRewritten(line: PayloadLine, corrections: seq<P.Correction>, id: nat)
    ensures Rewritten(line, CorrectedLine(line, Filter(corrections, P.OfSub(id))), corrections, id)
  {
    LastForIsLast(corrections, id, line.itemID);
    forall m: nat, n: nat | IsLast(corrections, id, line.itemID, m) && IsLast(corrections, id, line.itemID, n)
      ensures m == n
    {
      OneLast(corrections, id, line.itemID, m, n);
    }
    if m: nat :| IsLast(corrections, id, line.itemID, m) {
      assert corrections[m] in corrections;
    }
  }

  lemma {:induction false} CloneIs(row: SubRow, corrections: seq<P.Correction>, id: nat)
    ensures IsClone(row, CloneOf(row, Filter(corrections, P.OfSub(id))), corrections, id)
  {
    var mine := Filter(corrections, P.OfSub(id));
    forall j {:trigger row.lines[j]} | 0 <= j < |row.lines|
      ensures Rewritten(row.lines[j], CorrectedLines(row.lines, mine)[j], corrections, id)
    {
      CorrectedLineAt(row.lines, mine, j);
      LineIsRewritten(row.lines[j], corrections, id);
    }
  }

  /** A corrected submission has a clone among the new rows. */
  ghost predicate Cloned(subs: map<nat, SubRow>, after: map<nat, SubRow>, id: nat, corrections: seq<P.Correction>)
    requires id in subs
  {
    exists c :: c !in subs && c in after && IsClone(subs[id], after[c], corrections, id)
  }

  ghost predicate AllCloned(
    subs: map<nat, SubRow>, after: map<nat, SubRow>, ids: seq<nat>, corrections: seq<P.Correction>)
    requires forall id :: id in ids ==> id in subs
  {
    forall id :: id in ids && Corrects(corrections, id) ==> Cloned(subs, after, id, corrections)
  }

  ghost predicate Below(subs: map<nat, SubRow>, next: nat) {
    forall id :: id in subs ==> id < next
  }

  /** A table and its next id after the corrections of the given reconciles. */
  ghost predicate After(
    subs: map<nat, SubRow>, r: (map<nat, SubRow>, nat), ids: seq<nat>, corrections: seq<P.Correction>)
    requires forall id :: id in ids ==> id in subs
  {
    Below(r.0, r.1) && RowsStand(subs, r.0, ids, corrections) && AllCloned(subs, r.0, ids, corrections)
  }

  lemma {:induction false} CloneStays(
    subs: map<nat, SubRow>, before: map<nat, SubRow>, after: map<nat, SubRow>, id: nat, corrections: seq<P.Correction>)
    requires id in subs && Cloned(subs, before, id, corrections)
    requires forall c :: c in before && c !in subs ==> c in after && after[c] == before[c]
    ensures Cloned(subs, after, id, corrections)
  {
    var c :| c !in subs && c in before && IsClone(subs[id], before[c], corrections, id);
    assert c in after;
  }

  lemma {:induction false} CorrectOneClones(
    subs: map<nat, SubRow>, before: (map<nat, SubRow>, nat), ids: seq<nat>, id: nat, corrections: seq<P.Correction>)
    requires id in subs && id !in ids && (forall d :: d in ids ==> d in subs) && id in before.0 &&
             before.0[id] == subs[id]
    requires before.1 !in before.0 && before.1 !in subs && AllCloned(subs, before.0, ids, corrections)
    ensures AllCloned(subs, CorrectOne(before.0, before.1, id, corrections).0, ids + [id], corrections)
  {
    var after := CorrectOne(before.0, before.1, id, corrections).0;
    forall d | d in ids + [id] && Corrects(corrections, d)
      ensures Cloned(subs, after, d, corrections)
    {
      if d == id {
        CloneIs(subs[id], corrections, id);
        assert after[before.1] == CloneOf(subs[id], Filter(corrections, P.OfSub(id)));
      } else {
        CloneStays(subs, before.0, after, d, corrections);
      }
    }
  }

  lemma {:induction false} CorrectOneRows(
    subs: map<nat, SubRow>, before: (map<nat, SubRow>, nat), ids: seq<nat>, id: nat, corrections: seq<P.Correction>)
    requires id in subs && id !in ids && (forall d :: d in ids ==> d in subs) && id in before.0
    requires After(subs, before, ids, corrections)
    ensures After(subs, CorrectOne(before.0, before.1, id, corrections), ids + [id], corrections)
  {
    assert before.0[id] == subs[id];
    assert before.1 !in before.0 && before.1 !in subs;
    CorrectOneClones(subs, before, ids, id, corrections);
  }

  /** The rows after the corrections: corrected ones are deleted and cloned, the others stand. */
  lemma {:induction false} RowsCorrected(
    subs: map<nat, SubRow>, next: nat, ids: seq<nat>, corrections: seq<P.Correction>, n: nat)
    requires n <= |ids| && (forall id :: id in ids ==> id in subs) && Below(subs, next) && Distinct(ids)
    ensures After(subs, CorrectAll(subs, next, ids, corrections, n), ids[..n], corrections)
  {
    if n > 0 {
      RowsCorrected(subs, next, ids, corrections, n - 1);
      RowsStep(subs, CorrectAll(subs, next, ids, corrections, n - 1), ids, corrections, n - 1);
    }
  }

  lemma {:induction false} RowsStep(
    subs: map<nat, SubRow>, before: (map<nat, SubRow>, nat), ids: seq<nat>, corrections: seq<P.Correction>, n: nat)
    requires n < |ids| && (forall id :: id in ids ==> id in subs) && Distinct(ids)
    requires After(subs, before, ids[..n], corrections) && ids[n] in before.0
    ensures After(subs, CorrectOne(before.0, before.1, ids[n], corrections), ids[..n + 1], corrections)
  {
    assert ids[n] in subs;
    assert ids[..n + 1] == ids[..n] + [ids[n]];
    NotAmong(ids, n);
    CorrectOneRows(subs, before, ids[..n], ids[n], corrections);
  }

  lemma {:induction false} NotAmong(ids: seq<nat>, k: nat)
    requires Distinct(ids) && k < |ids|
    ensures ids[k] !in ids[..k]
  {
    forall j | 0 <= j < k
      ensures ids[j] != ids[k]
    {
      DistinctAt(ids, j, k);
    }
  }

  /** What the submissions table holds for a submission of the given fate. */
  ghost predicate RowShows(s: State, after: State, id: nat, corrections: seq<P.Correction>, fate: L.Fate)
    requires id in s.subs && id in after.subs
  {
    match fate
    case Recreated =>
      && after.subs[id] == s.subs[id].(deleted := true)
      && Cloned(s.subs, after.subs, id, corrections)
    case AsIs => after.subs[id] == s.subs[id].(approval := Approved, processing := Completed)
    case LeftPending => after.subs[id] == s.subs[id]
  }

  lemma {:induction false} DistinctPrefix(a: seq<nat>, b: seq<nat>)
    requires Distinct(a + b)
    ensures Distinct(a)
  {
    if b == [] {
      assert a + b == a;
    } else {
      assert (a + b)[..|a + b| - 1] == a + b[..|b| - 1];
      DistinctPrefix(a, b[..|b| - 1]);
    }
  }

  /** Who is applied as is was requested. */
  lemma {:induction false} AsIsWasRequested(subs: seq<S.Submission>, t: P.Tally, n: nat, id: nat)
    requires n <= |subs| && P.AppliedAsIs(subs, t, n).Ok? && id in P.AppliedAsIs(subs, t, n).value
    ensures exists a :: 0 <= a < |subs| && subs[a].id == id
  {
    L.AsIsAre(subs, t, n, id);
  }

  /** After an applied resolution every row shows its submission's fate: recreated, approved, or untouched. */
  lemma {:induction false} RowsShowFates(
    s: State, reconcileIDs: seq<nat>, disposeIDs: seq<nat>, plan: P.Plan, id: nat, fate: L.Fate)
    requires Below(s.subs, s.nextSub) && ApplyResolution(s, reconcileIDs, disposeIDs, plan).Ok?
    requires forall x :: x in plan.appliedAsIs ==> x in reconcileIDs + disposeIDs
    requires id in reconcileIDs + disposeIDs && L.HasFate(plan, id, fate)
    requires fate == L.Recreated ==> id in reconcileIDs
    ensures var after := ApplyResolution(s, reconcileIDs, disposeIDs, plan).value;
            id in s.subs && id in after.subs && RowShows(s, after, id, plan.corrections, fate)
  {
    var all, after := reconcileIDs + disposeIDs, ApplyResolution(s, reconcileIDs, disposeIDs, plan).value;
    LiveCount(s.subs, all);
    DistinctPrefix(reconcileIDs, disposeIDs);
    assert forall x :: x in reconcileIDs ==> x in all;
    RowsCorrected(s.subs, s.nextSub, reconcileIDs, plan.corrections, |reconcileIDs|);
    assert reconcileIDs[..|reconcileIDs|] == reconcileIDs;
    CorrectsIs(plan.corrections, id);
    var (subs, next) := CorrectAll(s.subs, s.nextSub, reconcileIDs, plan.corrections, |reconcileIDs|);
    if fate == L.Recreated {
      assert Cloned(s.subs, subs, id, plan.corrections);
      var c :| c !in s.subs && c in subs && IsClone(s.subs[id], subs[c], plan.corrections, id);
      assert c !in all;
      assert after.subs[c] == subs[c];
    }
  }

  lemma {:induction false} LoadedAt(
    subs: map<nat, SubRow>, reconcileIDs: seq<nat>, disposeIDs: seq<nat>, loaded: seq<S.Submission>, i: nat)
    requires LoadSubmissions(subs, reconcileIDs, disposeIDs) == Ok(loaded) && i < |loaded|
    ensures S.DistinctSubs(loaded) && loaded[i].id in reconcileIDs + disposeIDs
    ensures loaded[i].isReconcile <==> loaded[i].id in reconcileIDs
  {
    LoadedSubmissions(subs, reconcileIDs, disposeIDs, loaded);
    assert loaded[i] in loaded;
    assert Requested(subs, reconcileIDs, loaded[i]);
    assert HasId(loaded, loaded[i].id);
  }

  /** Where a requested submission was loaded. */
  lemma {:induction false} LoadedIndex(
    subs: map<nat, SubRow>, reconcileIDs: seq<nat>, disposeIDs: seq<nat>, loaded: seq<S.Submission>, id: nat)
    returns (i: nat)
    requires LoadSubmissions(subs, reconcileIDs, disposeIDs) == Ok(loaded) && id in reconcileIDs + disposeIDs
    ensures i < |loaded| && loaded[i].id == id && (loaded[i].isReconcile <==> id in reconcileIDs)
  {
    LoadedSubmissions(subs, reconcileIDs, disposeIDs, loaded);
    assert HasId(loaded, id);
    var sub :| sub in loaded && sub.id == id;
    i :| 0 <= i < |loaded| && loaded[i] == sub;
    LoadedAt(subs, reconcileIDs, disposeIDs, loaded, i);
  }

  lemma {:induction false} AsIsWereRequested(
    s: State, reconcileIDs: seq<nat>, disposeIDs: seq<nat>, loaded: seq<S.Submission>, plan: P.Plan)
    requires Previewed(s, reconcileIDs, disposeIDs, loaded, plan)
    ensures forall x :: x in plan.appliedAsIs ==> x in reconcileIDs + disposeIDs
  {
    LoadedSubmissions(s.subs, reconcileIDs, disposeIDs, loaded);
    var ids, t := L.PlanIsTally(loaded, ActiveItems(s.ledger));
    forall x | x in plan.appliedAsIs
      ensures x in reconcileIDs + disposeIDs
    {
      AsIsWasRequested(loaded, t, |loaded|, x);
      var a :| 0 <= a < |loaded| && loaded[a].id == x;
      assert loaded[a] in loaded;
    }
  }

  /** When a previewed plan has been applied, the row of each loaded submission shows its fate. */
  lemma {:induction false} RowOfLoaded(
    s: State, reconcileIDs: seq<nat>, disposeIDs: seq<nat>, loaded: seq<S.Submission>, plan: P.Plan, i: nat)
    requires Below(s.subs, s.nextSub) && Previewed(s, reconcileIDs, disposeIDs, loaded, plan) && i < |loaded|
    requires ApplyResolution(s, reconcileIDs, disposeIDs, plan).Ok?
    ensures var after, id := ApplyResolution(s, reconcileIDs, disposeIDs, plan).value, loaded[i].id;
            && id in s.subs && id in after.subs
            && RowShows(s, after, id, plan.corrections, L.FateOf(loaded, plan.corrections, loaded[i]))
  {
    LoadedAt(s.subs, reconcileIDs, disposeIDs, loaded, i);
    L.ExactlyOneFate(loaded, ActiveItems(s.ledger), i);
    AsIsWereRequested(s, reconcileIDs, disposeIDs, loaded, plan);
    RowsShowFates(s, reconcileIDs, disposeIDs, plan, loaded[i].id, L.FateOf(loaded, plan.corrections, loaded[i]));
  }

  /**
   The whole command, for submissions requested once each: if the plan can be made, it is applied, and
   every requested submission ends up recreated with its corrections, approved as it is, or untouched
   and pending, the last exactly when it is a dispose in scope for none of its items.
   */
  lemma {:induction false} ResolveSettlesEverySubmission(
    s: State, reconcileIDs: seq<nat>, disposeIDs: seq<nat>, loaded: seq<S.Submission>, plan: P.Plan, i: nat)
    requires Sound(s.ledger) && Below(s.subs, s.nextSub) && Distinct(reconcileIDs + disposeIDs)
    requires Previewed(s, reconcileIDs, disposeIDs, loaded, plan) && i < |loaded|
    ensures var after, id := Execute(s, ResolveCommand(reconcileIDs, disposeIDs)), loaded[i].id;
            && id in s.subs && id in after.subs
            && RowShows(s, after, id, plan.corrections, L.FateOf(loaded, plan.corrections, loaded[i]))
  {
    PreviewedPlanApplies(s, reconcileIDs, disposeIDs, loaded, plan);
    RowOfLoaded(s, reconcileIDs, disposeIDs, loaded, plan, i);
  }

  // ----- running a command twice -----

  lemma {:induction false} LoadAllStops(subs: map<nat, SubRow>, ids: seq<nat>, reconcileIDs: seq<nat>, n: nat, k: nat)
    requires k < n <= |ids|
    requires LoadOne(subs, ids[k], if ids[k] in reconcileIDs then Reconcile else Dispose).Err?
    ensures LoadAll(subs, ids, reconcileIDs, n).Err?
  {
    if k < n - 1 {
      LoadAllStops(subs, ids, reconcileIDs, n - 1, k);
    }
  }

  /** A submission that is deleted or no longer pending cannot be loaded. */
  lemma {:induction false} LoadRefuses(subs: map<nat, SubRow>, reconcileIDs: seq<nat>, disposeIDs: seq<nat>, id: nat)
    requires id in reconcileIDs && (Live(subs, id) ==> subs[id].approval != Pending)
    ensures LoadSubmissions(subs, reconcileIDs, disposeIDs).Err?
  {
    var ids := Dedup(reconcileIDs + disposeIDs);
    assert id in ids;
    var k :| 0 <= k < |ids| && ids[k] == id;
    LoadAllStops(subs, ids, reconcileIDs, |ids|, k);
  }

  lemma {:induction false} ShownIsNotPending(
    s: State, after: State, id: nat, corrections: seq<P.Correction>, fate: L.Fate)
    requires id in s.subs && id in after.subs && RowShows(s, after, id, corrections, fate) && fate != L.LeftPending
    ensures Live(after.subs, id) ==> after.subs[id].approval != Pending
  {
  }

  lemma {:induction false} AppliedRefusesAgain(
    s: State, reconcileIDs: seq<nat>, disposeIDs: seq<nat>, loaded: seq<S.Submission>, plan: P.Plan)
    requires Below(s.subs, s.nextSub) && Previewed(s, reconcileIDs, disposeIDs, loaded, plan)
    requires ApplyResolution(s, reconcileIDs, disposeIDs, plan).Ok?
    ensures LoadSubmissions(ApplyResolution(s, reconcileIDs, disposeIDs, plan).value.subs, reconcileIDs,
            disposeIDs).Err?
  {
    var id := reconcileIDs[0];
    assert id in reconcileIDs + disposeIDs;
    var i := LoadedIndex(s.subs, reconcileIDs, disposeIDs, loaded, id);
    RowOfLoaded(s, reconcileIDs, disposeIDs, loaded, plan, i);
    ShownIsNotPending(s, ApplyResolution(s, reconcileIDs, disposeIDs, plan).value, id, plan.corrections,
                      L.FateOf(loaded, plan.corrections, loaded[i]));
    LoadRefuses(ApplyResolution(s, reconcileIDs, disposeIDs, plan).value.subs, reconcileIDs, disposeIDs, id);
  }

  /** Running a command twice is running it once: the second run finds nothing pending to apply. */
  lemma {:induction false} SecondRunIsIdle(s: State, c: Command)
    requires Below(s.subs, s.nextSub)
    ensures Execute(Execute(s, c), c) == Execute(s, c)
  {
    match c
    case DisposeCommand(subID) => SecondDisposeIsIdle(s, subID);
    case ResolveCommand(reconcileIDs, disposeIDs) => SecondResolveIsIdle(s, reconcileIDs, disposeIDs);
  }

  lemma {:induction false} SecondDisposeIsIdle(s: State, subID: nat)
    ensures Disposed(Disposed(s, subID), subID) == Disposed(s, subID)
  {
  }

  lemma {:induction false} SecondResolveIsIdle(s: State, reconcileIDs: seq<nat>, disposeIDs: seq<nat>)
    requires Below(s.subs, s.nextSub)
    ensures Resolved(Resolved(s, reconcileIDs, disposeIDs), reconcileIDs, disposeIDs) ==
            Resolved(s, reconcileIDs, disposeIDs)
  {
    var load := LoadSubmissions(s.subs, reconcileIDs, disposeIDs);
    if load.Ok? {
      var planned := P.PlanOf(load.value, ActiveItems(s.ledger));
      if planned.Ok? && ApplyResolution(s, reconcileIDs, disposeIDs, planned.value).Ok? {
        AppliedRefusesAgain(s, reconcileIDs, disposeIDs, load.value, planned.value);
      }
    }
  }

  // ----- the clone's payload -----

  lemma {:induction false} CorrectedLineAt(lines: seq<PayloadLine>, corrections: seq<P.Correction>, j: nat)
    requires j < |lines|
    ensures CorrectedLines(lines, corrections)[j] == CorrectedLine(lines[j], corrections)
  {
    if j < |lines| - 1 {
      CorrectedLineAt(lines[..|lines| - 1], corrections, j);
    }
  }

  /** Read back, the payload of a corrected clone is the reissued submission that plans without corrections. */
  lemma {:induction false} CloneReadsAsReissued(
    subs: map<nat, SubRow>, sub: S.Submission, corrections: seq<P.Correction>, clone: SubRow)
    requires ReadFrom(subs, sub) && sub.isReconcile && IsClone(subs[sub.id], clone, corrections, sub.id)
    ensures clone.at == sub.at && LinesRead(clone.lines, R.ReissueSub(sub, corrections).lines, true)
  {
    var mine, lines := Filter(corrections, P.OfSub(sub.id)), subs[sub.id].lines;
    forall j {:trigger sub.lines[j]} | 0 <= j < |lines|
      ensures var line, again := clone.lines[j], R.ReissueLines(sub.lines, mine)[j];
              again.itemID == line.itemID && line.quantity == Some(again.qty) && again.prev == line.prev
    {
      assert Rewritten(lines[j], clone.lines[j], corrections, sub.id);
      LastForIsLast(corrections, sub.id, sub.lines[j].itemID);
      R.ReissuedLineAt(sub.lines, mine, j);
    }
  }

  // ----- the check after any run -----

  /** After any run of the two commands every item still passes the service's check of its active layers. */
  lemma {:induction false} RunPassesTheCheck(s: State, commands: seq<Command>, id: nat)
    requires Sound(s.ledger) && Agree(s.ledger) && id in Run(s, commands).ledger.items
    ensures var g := Run(s, commands).ledger;
            T.LedgerAccepted(g.items[id].quantity, Filter(g.txns, ActiveLayerOf(id)))
  {
    RunKeepsAgreement(s, commands);
    CheckPassesExactlyWhen(Run(s, commands).ledger, id);
  }
}

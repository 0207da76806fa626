/**
 The submissions table after a resolve command (cmd/util/reconcile.go, applyResolution): one new row per
 corrected submission and no other, and every row that was not requested as it was.
 */
module Clones {
  import opened Basics
  import opened Ledgers
  import opened Store
  import opened StoreLaws
  import S = Submissions
  import P = Planner

  /** The new row is the clone of the submission. */
  ghost predicate CloneAt(
    subs: map<nat, SubRow>, after: map<nat, SubRow>, id: nat, c: nat, corrections: seq<P.Correction>) {
    id in subs && c !in subs && c in after && IsClone(subs[id], after[c], corrections, id)
  }

  /** Which new row is the clone of which corrected submission. */
  ghost predicate ClonesOf(
    subs: map<nat, SubRow>, after: map<nat, SubRow>, ids: seq<nat>, corrections: seq<P.Correction>,
    clones: map<nat, nat>)
  {
    && (forall id :: id in clones <==> id in ids && Corrects(corrections, id))
    && (forall id :: id in clones ==> CloneAt(subs, after, id, clones[id], corrections))
    && (forall a, b :: a in clones && b in clones && a != b ==> clones[a] != clones[b])
    && (forall c :: c in after && c !in subs ==> exists id :: id in clones && clones[id] == c)
  }

  lemma {:induction false} OneMoreClone(
    subs: map<nat, SubRow>, before: (map<nat, SubRow>, nat), ids: seq<nat>, id: nat, corrections: seq<P.Correction>,
    clones: map<nat, nat>)
    requires id in subs && id !in ids && id in before.0 && before.0[id] == subs[id]
    requires Below(before.0, before.1) && (forall d :: d in subs ==> d in before.0)
    requires ClonesOf(subs, before.0, ids, corrections, clones)
    ensures ClonesOf(subs, CorrectOne(before.0, before.1, id, corrections).0, ids + [id], corrections,
                     if Corrects(corrections, id) then clones[id := before.1] else clones)
  {
    var after := CorrectOne(before.0, before.1, id, corrections).0;
    var more := if Corrects(corrections, id) then clones[id := before.1] else clones;
    CloneIs(subs[id], corrections, id);
    if Corrects(corrections, id) {
      NewClone(subs, before.0, before.1, after, ids, id, corrections, clones);
    }
  }

  /** A clone put under a new id. */
  lemma {:induction false} NewClone(
    subs: map<nat, SubRow>, before: map<nat, SubRow>, next: nat, after: map<nat, SubRow>, ids: seq<nat>, id: nat,
    corrections: seq<P.Correction>, clones: map<nat, nat>)
    requires id in subs && id !in ids && next !in before && (forall d :: d in subs ==> d in before)
    requires ClonesOf(subs, before, ids, corrections, clones) && Corrects(corrections, id)
    requires after.Keys == before.Keys + {next} && IsClone(subs[id], after[next], corrections, id)
    requires forall d :: d in before && d != id ==> after[d] == before[d]
    ensures ClonesOf(subs, after, ids + [id], corrections, clones[id := next])
  {
    var more := clones[id := next];
    forall d | d in clones
      ensures clones[d] != next && d != id && CloneAt(subs, after, d, clones[d], corrections)
    {
      assert CloneAt(subs, before, d, clones[d], corrections);
    }
    assert CloneAt(subs, after, id, next, corrections);
    forall c | c in after && c !in subs
      ensures exists d :: d in more && more[d] == c
    {
      CloneFound(subs, before, ids, corrections, clones, id, next, c);
    }
  }

  lemma {:induction false} CloneFound(
    subs: map<nat, SubRow>, before: map<nat, SubRow>, ids: seq<nat>, corrections: seq<P.Correction>,
    clones: map<nat, nat>, id: nat, next: nat, c: nat)
    requires ClonesOf(subs, before, ids, corrections, clones) && id !in ids && c !in subs
    requires c == next || c in before
    ensures var more := clones[id := next]; exists d :: d in more && more[d] == c
  {
    var more := clones[id := next];
    if c == next {
      assert more[id] == c;
    } else {
      var d :| d in clones && clones[d] == c;
      assert more[d] == c;
    }
  }

  /** Before its turn a submission's row is as it was. */
  lemma {:induction false} StillThere(
    subs: map<nat, SubRow>, next: nat, ids: seq<nat>, corrections: seq<P.Correction>, n: nat)
    requires n < |ids| && (forall id :: id in ids ==> id in subs) && Below(subs, next) && Distinct(ids)
    ensures ids[n] in subs && ids[n] !in ids[..n]
    ensures var (before, x) := CorrectAll(subs, next, ids, corrections, n);
            && ids[n] in before && before[ids[n]] == subs[ids[n]] && Below(before, x)
            && forall d :: d in subs ==> d in before
  {
    RowsCorrected(subs, next, ids, corrections, n);
    NotAmong(ids, n);
    assert ids[n] in ids;
  }

  lemma {:induction false} AllClones(
    subs: map<nat, SubRow>, next: nat, ids: seq<nat>, corrections: seq<P.Correction>, n: nat)
    returns (clones: map<nat, nat>)
    requires n <= |ids| && (forall id :: id in ids ==> id in subs) && Below(subs, next) && Distinct(ids)
    ensures ClonesOf(subs, CorrectAll(subs, next, ids, corrections, n).0, ids[..n], corrections, clones)
  {
    if n == 0 {
      clones := map[];
    } else {
      var front := AllClones(subs, next, ids, corrections, n - 1);
      clones := NextClone(subs, next, ids, corrections, n - 1, front);
    }
  }

  lemma {:induction false} NextClone(
    subs: map<nat, SubRow>, next: nat, ids: seq<nat>, corrections: seq<P.Correction>, n: nat, front: map<nat, nat>)
    returns (clones: map<nat, nat>)
    requires n < |ids| && (forall id :: id in ids ==> id in subs) && Below(subs, next) && Distinct(ids)
    requires ClonesOf(subs, CorrectAll(subs, next, ids, corrections, n).0, ids[..n], corrections, front)
    ensures ClonesOf(subs, CorrectAll(subs, next, ids, corrections, n + 1).0, ids[..n + 1], corrections, clones)
  {
    StillThere(subs, next, ids, corrections, n);
    var before := CorrectAll(subs, next, ids, corrections, n);
    OneMoreClone(subs, before, ids[..n], ids[n], corrections, front);
    assert ids[..n + 1] == ids[..n] + [ids[n]];
    clones := if Corrects(corrections, ids[n]) then front[ids[n] := before.1] else front;
  }

  /** Nothing but the requested rows has changed, and the new rows are the clones. */
  ghost predicate TableAfter(
    s: State, after: State, reconcileIDs: seq<nat>, disposeIDs: seq<nat>, corrections: seq<P.Correction>,
    clones: map<nat, nat>)
  {
    && ClonesOf(s.subs, after.subs, reconcileIDs, corrections, clones)
    && (forall id :: id in s.subs ==> id in after.subs)
    && (forall id :: id in s.subs && id !in reconcileIDs + disposeIDs ==> after.subs[id] == s.subs[id])
  }

  lemma {:induction false} AppliedIds(s: State, reconcileIDs: seq<nat>, disposeIDs: seq<nat>, plan: P.Plan)
    requires ApplyResolution(s, reconcileIDs, disposeIDs, plan).Ok?
    ensures Distinct(reconcileIDs) && (forall id :: id in reconcileIDs + disposeIDs ==> id in s.subs)
    ensures forall id :: id in reconcileIDs ==> id in s.subs
    ensures ApplyResolution(s, reconcileIDs, disposeIDs, plan).value.subs
         == Approve(CorrectAll(s.subs, s.nextSub, reconcileIDs, plan.corrections, |reconcileIDs|).0, plan.appliedAsIs)
  {
    LiveCount(s.subs, reconcileIDs + disposeIDs);
    DistinctPrefix(reconcileIDs, disposeIDs);
    forall id | id in reconcileIDs
      ensures id in s.subs
    {
      assert id in reconcileIDs + disposeIDs;
    }
  }

  lemma {:induction false} OthersStand(
    subs: map<nat, SubRow>, next: nat, ids: seq<nat>, plan: P.Plan, all: seq<nat>)
    requires Below(subs, next) && Distinct(ids) && (forall id :: id in ids ==> id in subs)
    requires (forall id :: id in ids ==> id in all) && forall x :: x in plan.appliedAsIs ==> x in all
    ensures var after := Approve(CorrectAll(subs, next, ids, plan.corrections, |ids|).0, plan.appliedAsIs);
            forall id :: id in subs ==> id in after && (id !in all ==> after[id] == subs[id])
  {
    RowsCorrected(subs, next, ids, plan.corrections, |ids|);
    assert ids[..|ids|] == ids;
  }

  lemma {:induction false} ApplyMakesClones(
    s: State, reconcileIDs: seq<nat>, disposeIDs: seq<nat>, loaded: seq<S.Submission>, plan: P.Plan)
    returns (clones: map<nat, nat>)
    requires Below(s.subs, s.nextSub) && Previewed(s, reconcileIDs, disposeIDs, loaded, plan)
    requires ApplyResolution(s, reconcileIDs, disposeIDs, plan).Ok?
    ensures TableAfter(s, ApplyResolution(s, reconcileIDs, disposeIDs, plan).value, reconcileIDs, disposeIDs,
                       plan.corrections, clones)
  {
    var all, n := reconcileIDs + disposeIDs, |reconcileIDs|;
    AppliedIds(s, reconcileIDs, disposeIDs, plan);
    AsIsWereRequested(s, reconcileIDs, disposeIDs, loaded, plan);
    clones := AllClones(s.subs, s.nextSub, reconcileIDs, plan.corrections, n);
    assert reconcileIDs[..n] == reconcileIDs;
    var corrected := CorrectAll(s.subs, s.nextSub, reconcileIDs, plan.corrections, n);
    ApproveKeepsClones(s.subs, corrected.0, reconcileIDs, plan, all, clones);
    OthersStand(s.subs, s.nextSub, reconcileIDs, plan, all);
  }

  lemma {:induction false} ApproveKeepsClones(
    subs: map<nat, SubRow>, corrected: map<nat, SubRow>, ids: seq<nat>, plan: P.Plan, all: seq<nat>,
    clones: map<nat, nat>)
    requires ClonesOf(subs, corrected, ids, plan.corrections, clones)
    requires (forall x :: x in plan.appliedAsIs ==> x in all) && (forall x :: x in all ==> x in subs)
    ensures ClonesOf(subs, Approve(corrected, plan.appliedAsIs), ids, plan.corrections, clones)
  {
    forall c | c in corrected && c !in subs
      ensures Approve(corrected, plan.appliedAsIs)[c] == corrected[c]
    {
    }
  }

  /**
   After the command the table holds, beyond the old rows, exactly one clone per corrected submission:
   live, approved, completed, dated and signed like it, each line with the last correction of its item.
   */
  lemma {:induction false} ResolveClones(
    s: State, reconcileIDs: seq<nat>, disposeIDs: seq<nat>, loaded: seq<S.Submission>, plan: P.Plan)
    returns (clones: map<nat, nat>)
    requires Sound(s.ledger) && Below(s.subs, s.nextSub) && Distinct(reconcileIDs + disposeIDs)
    requires Previewed(s, reconcileIDs, disposeIDs, loaded, plan)
    ensures TableAfter(s, Execute(s, ResolveCommand(reconcileIDs, disposeIDs)), reconcileIDs, disposeIDs,
                       plan.corrections, clones)
  {
    PreviewedPlanApplies(s, reconcileIDs, disposeIDs, loaded, plan);
    clones := ApplyMakesClones(s, reconcileIDs, disposeIDs, loaded, plan);
  }
}

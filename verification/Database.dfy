/**
 The store as the commands write it (cmd/util/reconcile.go, loadSubmissions and applyResolution;
 cmd/util/dispose.go, applyDisposePlan): an object whose tables the transactions update in place, and
 roll back on failure, proved against the closed forms of Store and Ledgers.
 */
module Database {
  import opened Basics
  import opened Fifo
  import opened Plans
  import opened Ledgers
  import opened Store
  import S = Submissions
  import P = Planner
  import D = Disposal
  import T = Transactions

  // ----- facts the loops need -----

  lemma {:induction false} SetQuantitiesFails(items: map<nat, ItemRow>, updates: seq<ItemUpdate>, n: nat)
    requires n <= |updates| && SetQuantities(items, updates, n).Err?
    ensures SetQuantities(items, updates, |updates|) == SetQuantities(items, updates, n)
    decreases |updates| - n
  {
    if n < |updates| {
      SetQuantitiesFails(items, updates, n + 1);
    }
  }

  /** The map expects `kind` of the ids, and of those expected already what it expected before. */
  ghost predicate Expects(expected: map<nat, SubKind>, before: map<nat, SubKind>, ids: seq<nat>, kind: SubKind) {
    && (forall id :: id in expected <==> id in ids)
    && (forall id :: id in expected ==> expected[id] == if id in before then before[id] else kind)
  }

  lemma {:induction false} SeenStep(ids: seq<nat>, i: nat, before: seq<nat>)
    requires i < |ids| && FirstCommon(ids[..i], before) == None
    ensures FirstCommon(ids[..i + 1], before) == if ids[i] in before then Some(ids[i]) else None
    ensures Dedup(before + ids[..i + 1])
         == if ids[i] in before + ids[..i] then Dedup(before + ids[..i]) else Dedup(before + ids[..i]) + [ids[i]]
    ensures forall id :: id in before + ids[..i + 1] <==> id in before + ids[..i] || id == ids[i]
  {
    assert ids[..i + 1][..i] == ids[..i];
    assert before + ids[..i + 1] == before + ids[..i] + [ids[i]];
    DedupStep(before + ids[..i], ids[i]);
  }

  /** One update of the transaction table: every row with the id. */
  function SetConsumed(txns: seq<T.Txn>, id: nat, consumed: real): (r: seq<T.Txn>)
    ensures |r| == |txns|
  {
    seq(|txns|, i requires 0 <= i < |txns| => if txns[i].id == id then txns[i].(consumed := consumed) else txns[i])
  }

  lemma {:induction false} SetConsumedStep(txns: seq<T.Txn>, updates: seq<LayerUpdate>, n: nat)
    requires n < |updates|
    ensures SetConsumed(WithConsumed(txns, updates[..n]), updates[n].layerID, updates[n].consumed) ==
            WithConsumed(txns, updates[..n + 1])
  {
    var before, after := WithConsumed(txns, updates[..n]), WithConsumed(txns, updates[..n + 1]);
    assert updates[..n + 1][..n] == updates[..n];
    forall i | 0 <= i < |txns|
      ensures SetConsumed(before, updates[n].layerID, updates[n].consumed)[i] == after[i]
    {
      WithConsumedAt(txns, updates[..n], i);
      WithConsumedAt(txns, updates[..n + 1], i);
    }
  }

  lemma {:induction false} NothingConsumed(txns: seq<T.Txn>)
    ensures WithConsumed(txns, []) == txns
  {
    forall i | 0 <= i < |txns|
      ensures WithConsumed(txns, [])[i] == txns[i]
    {
      WithConsumedAt(txns, [], i);
    }
  }

  class Database {
    var items: map<nat, ItemRow>
    var txns: seq<T.Txn>
    var nextTxn: nat
    var subs: map<nat, SubRow>
    var nextSub: nat

    function Stock(): Ledger
      reads this
    {
      Ledger(items, txns, nextTxn)
    }

    function Current(): State
      reads this
    {
      State(Stock(), subs, nextSub)
    }

    constructor (s: State)
      ensures Current() == s
    {
      items, txns, nextTxn := s.ledger.items, s.ledger.txns, s.ledger.nextTxn;
      subs, nextSub := s.subs, s.nextSub;
    }

    /** Locks the items, checks each quantity against the plan's, and writes the new one. */
    method UpdateItems(updates: seq<ItemUpdate>) returns (error: Option<ApplyError>)
      modifies this`items
      ensures match SetQuantities(old(items), updates, |updates|)
              case Err(e) => error == Some(e) && items == old(items)
              case Ok(after) => error == None && items == after
    {
      var locked := items;
      var i := 0;
      while i < |updates|
        invariant i <= |updates| && SetQuantities(locked, updates, i) == Ok(items)
      {
        var u := updates[i];
        if u.itemID !in locked {
          SetQuantitiesFails(locked, updates, i + 1);
          items := locked;
          return Some(ItemNotFound(u.itemID));
        }
        if locked[u.itemID].quantity != u.originalQty {
          SetQuantitiesFails(locked, updates, i + 1);
          items := locked;
          return Some(LockConflict(u.itemID, u.originalQty, locked[u.itemID].quantity));
        }
        items := items[u.itemID := locked[u.itemID].(quantity := u.newQty)];
        i := i + 1;
      }
      return None;
    }

    /** Inserts the synthesized transactions. */
    method InsertTxns(rows: seq<SyntheticTxn>)
      modifies this`txns, this`nextTxn
      ensures txns == old(txns) + NewRows(rows, old(nextTxn)) && nextTxn == old(nextTxn) + |rows|
    {
      var i := 0;
      assert txns == old(txns) + [];
      while i < |rows|
        invariant i <= |rows|
        invariant txns == old(txns) + NewRows(rows[..i], old(nextTxn)) && nextTxn == old(nextTxn) + i
      {
        assert rows[..i + 1][..i] == rows[..i];
        txns := txns + [RowOf(rows[i], nextTxn)];
        nextTxn := nextTxn + 1;
        i := i + 1;
      }
      assert rows[..i] == rows;
    }

    /** Writes the source layers' consumed quantities. */
    method UpdateSources(updates: seq<LayerUpdate>)
      modifies this`txns
      ensures txns == WithConsumed(old(txns), updates)
    {
      var i := 0;
      NothingConsumed(txns);
      while i < |updates|
        invariant i <= |updates| && txns == WithConsumed(old(txns), updates[..i])
      {
        SetConsumedStep(old(txns), updates, i);
        txns := SetConsumed(txns, updates[i].layerID, updates[i].consumed);
        i := i + 1;
      }
      assert updates[..i] == updates;
    }

    /** The stock part of both transactions. */
    method WriteStock(plan: StockPlan) returns (error: Option<ApplyError>)
      modifies this`items, this`txns, this`nextTxn
      ensures match ApplyStock(old(Stock()), plan)
              case Err(e) => error == Some(e) && Stock() == old(Stock())
              case Ok(after) => error == None && Stock() == after
    {
      error := UpdateItems(plan.itemUpdates);
      if error.None? {
        InsertTxns(plan.txns);
        UpdateSources(plan.layerUpdates);
      }
    }

    /** Soft-deletes each corrected reconcile and creates its corrected clone. */
    method RecreateCorrected(reconcileIDs: seq<nat>, corrections: seq<P.Correction>)
      requires forall id :: id in reconcileIDs ==> id in subs
      modifies this`subs, this`nextSub
      ensures (subs, nextSub) == CorrectAll(old(subs), old(nextSub), reconcileIDs, corrections, |reconcileIDs|)
    {
      var i := 0;
      while i < |reconcileIDs|
        invariant i <= |reconcileIDs|
        invariant (subs, nextSub) == CorrectAll(old(subs), old(nextSub), reconcileIDs, corrections, i)
      {
        var id := reconcileIDs[i];
        assert id in reconcileIDs;
        var mine := Filter(corrections, P.OfSub(id));
        if |mine| > 0 {
          var row := subs[id];
          var payload := CorrectedPayload(row.lines, mine);
          subs := subs[id := row.(deleted := true)];
          subs := subs[nextSub := SubRow(row.kind, row.at, row.createdBy, Approved, Completed, payload, false)];
          nextSub := nextSub + 1;
        }
        i := i + 1;
      }
    }

    /** applyResolution: one transaction. */
    method ApplyResolution(
      reconcileIDs: seq<nat>, disposeIDs: seq<nat>, plan: P.Plan)
      returns (error: Option<StoreError>)
      modifies this
      ensures match Store.ApplyResolution(old(Current()), reconcileIDs, disposeIDs, plan)
              case Err(e) => error == Some(e) && Current() == old(Current())
              case Ok(after) => error == None && Current() == after
    {
      var all := reconcileIDs + disposeIDs;
      var found := LiveAmong(subs, all);
      if |found| != |all| {
        return Some(SetChanged);
      }
      if exists id :: id in found && subs[id].approval != Pending {
        return Some(NoLongerPending);
      }
      AllLive(subs, all);
      assert forall id :: id in reconcileIDs ==> id in all;
      var failed := WriteStock(plan.stock);
      if failed.Some? {
        return Some(StockFailed(failed.value));
      }
      RecreateCorrected(reconcileIDs, plan.corrections);
      subs := Approve(subs, plan.appliedAsIs);
      return None;
    }

    /** applyDisposePlan: one transaction. */
    method ApplyDisposePlan(subID: nat, plan: StockPlan) returns (error: Option<StoreError>)
      modifies this
      ensures match Store.ApplyDispose(old(Current()), subID, plan)
              case Err(e) => error == Some(e) && Current() == old(Current())
              case Ok(after) => error == None && Current() == after
    {
      if !Live(subs, subID) {
        return Some(SetChanged);
      }
      if subs[subID].approval != Pending {
        return Some(NoLongerPending);
      }
      var failed := WriteStock(plan);
      if failed.Some? {
        return Some(StockFailed(failed.value));
      }
      subs := Approve(subs, [subID]);
      return None;
    }

    /** Notes the expected kind of the ids, appending the new ones, or finds the first one expected as another kind. */
    method Assign(ids: seq<nat>, kind: SubKind, expected: map<nat, SubKind>, ordered: seq<nat>, ghost before: seq<nat>)
      returns (expected': map<nat, SubKind>, ordered': seq<nat>, both: Option<nat>)
      requires ordered == Dedup(before) && (forall id :: id in expected <==> id in before)
      requires forall id :: id in expected ==> expected[id] != kind
      ensures both == FirstCommon(ids, before)
      ensures both == None ==> ordered' == Dedup(before + ids) && Expects(expected', expected, before + ids, kind)
    {
      expected', ordered', both := expected, ordered, None;
      var i := 0;
      assert before + ids[..0] == before;
      while i < |ids| && both.None?
        invariant i <= |ids| && both == FirstCommon(ids[..i], before)
        invariant both == None ==>
                  ordered' == Dedup(before + ids[..i]) && Expects(expected', expected, before + ids[..i], kind)
      {
        var id := ids[i];
        SeenStep(ids, i, before);
        if id in expected' {
          if expected'[id] != kind {
            both := Some(id);
          }
        } else {
          expected', ordered' := expected'[id := kind], ordered' + [id];
        }
        i := i + 1;
      }
      if both.Some? {
        FirstCommonStays(ids, before, i);
      } else {
        assert ids[..i] == ids;
      }
    }

    /** The ids to load, in order, and the first one requested as both kinds. */
    method AssignKinds(reconcileIDs: seq<nat>, disposeIDs: seq<nat>) returns (ordered: seq<nat>, both: Option<nat>)
      ensures both == FirstCommon(disposeIDs, reconcileIDs)
      ensures both == None ==> ordered == Dedup(reconcileIDs + disposeIDs)
    {
      var expected: map<nat, SubKind>;
      expected, ordered, both := Assign(reconcileIDs, Reconcile, map[], [], []);
      assert [] + reconcileIDs == reconcileIDs;
      expected, ordered, both := Assign(disposeIDs, Dispose, expected, ordered, reconcileIDs);
    }

    /** loadSubmissions: exactly the requested rows, each pending and of the expected kind, in chronological order. */
    method LoadSubmissions(
      reconcileIDs: seq<nat>, disposeIDs: seq<nat>)
      returns (r: Result<seq<S.Submission>, LoadError>)
      ensures r == Store.LoadSubmissions(subs, reconcileIDs, disposeIDs)
    {
      if |reconcileIDs| == 0 {
        return Err(NothingRequested);
      }
      var ordered, both := AssignKinds(reconcileIDs, disposeIDs);
      if both.Some? {
        return Err(BothKinds(both.value));
      }
      var loaded: seq<S.Submission> := [];
      var i := 0;
      while i < |ordered|
        invariant i <= |ordered| && LoadAll(subs, ordered, reconcileIDs, i) == Ok(loaded)
      {
        var one := LoadOne(subs, ordered[i], if ordered[i] in reconcileIDs then Reconcile else Dispose);
        if one.Err? {
          LoadAllFails(subs, ordered, reconcileIDs, i + 1);
          return Err(one.error);
        }
        loaded := loaded + [one.value];
        i := i + 1;
      }
      return Ok(InSubmissionOrder(loaded));
    }

    /** `reconcile resolve --apply`. */
    method ResolveAndApply(reconcileIDs: seq<nat>, disposeIDs: seq<nat>)
      requires Sound(Stock())
      modifies this
      ensures Current() == Execute(old(Current()), ResolveCommand(reconcileIDs, disposeIDs))
    {
      LoadedItemsAreGood(Stock());
      var loaded := LoadSubmissions(reconcileIDs, disposeIDs);
      if loaded.Err? {
        return;
      }
      var plan := P.ComputeResolution(loaded.value, ActiveItems(Stock()));
      if plan.Err? {
        return;
      }
      var error := ApplyResolution(reconcileIDs, disposeIDs, plan.value);
    }

    /** `reconcile dispose --apply`. */
    method DisposeAndApply(subID: nat)
      requires Sound(Stock())
      modifies this
      ensures Current() == Execute(old(Current()), DisposeCommand(subID))
    {
      LoadedItemsAreGood(Stock());
      if !Live(subs, subID) || subs[subID].kind != SubKind.Dispose || subs[subID].approval != Pending {
        return;
      }
      var plan := D.ComputeDisposePlan(RequestsOf(subs[subID].lines), ActiveItems(Stock()), subs[subID].at);
      if plan.Err? {
        return;
      }
      var error := ApplyDisposePlan(subID, plan.value.stock);
    }
  }
}

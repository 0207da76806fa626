/**
 When the requested submissions load, and why loading and applying refuse (cmd/util/reconcile.go,
 loadSubmissions and applyResolution; cmd/util/dispose.go, applyDisposePlan).
 */
module StoreRefusals {
  import opened Basics
  import opened Plans
  import opened Ledgers
  import opened Store
  import P = Planner

  // ----- loading -----

  /** A live, pending row of the kind whose lines all have a quantity. */
  ghost predicate Loadable(subs: map<nat, SubRow>, id: nat, kind: SubKind) {
    && id in subs && !subs[id].deleted && subs[id].approval == Pending && subs[id].kind == kind
    && forall j {:trigger subs[id].lines[j]} :: 0 <= j < |subs[id].lines| ==> subs[id].lines[j].quantity.Some?
  }

  function KindFor(reconcileIDs: seq<nat>, id: nat): SubKind {
    if id in reconcileIDs then Reconcile else Dispose
  }

  /** What is wrong with a submission that does not load, by the first check that fails. */
  ghost predicate RowRefusal(subs: map<nat, SubRow>, id: nat, kind: SubKind, e: LoadError) {
    if id !in subs || subs[id].deleted then e == NotFound(id)
    else if subs[id].approval != Pending then e == NotPending(id)
    else if subs[id].kind != kind then e == WrongKind(id)
    else e == MissingQuantity(id) && exists j :: 0 <= j < |subs[id].lines| && subs[id].lines[j].quantity == None
  }

  lemma {:induction false} LoadOneIs(subs: map<nat, SubRow>, id: nat, kind: SubKind)
    ensures LoadOne(subs, id, kind).Ok? <==> Loadable(subs, id, kind)
    ensures LoadOne(subs, id, kind).Err? ==> RowRefusal(subs, id, kind, LoadOne(subs, id, kind).error)
  {
  }

  lemma {:induction false} LoadAllIs(subs: map<nat, SubRow>, ids: seq<nat>, reconcileIDs: seq<nat>, n: nat)
    requires n <= |ids|
    ensures LoadAll(subs, ids, reconcileIDs, n).Ok? <==>
            forall k :: 0 <= k < n ==> Loadable(subs, ids[k], KindFor(reconcileIDs, ids[k]))
  {
    if n > 0 {
      LoadAllIs(subs, ids, reconcileIDs, n - 1);
      LoadOneIs(subs, ids[n - 1], KindFor(reconcileIDs, ids[n - 1]));
    }
  }

  lemma {:induction false} FirstRefused(subs: map<nat, SubRow>, ids: seq<nat>, reconcileIDs: seq<nat>, n: nat)
    returns (k: nat)
    requires n <= |ids| && LoadAll(subs, ids, reconcileIDs, n).Err?
    ensures k < n && RowRefusal(subs, ids[k], KindFor(reconcileIDs, ids[k]), LoadAll(subs, ids, reconcileIDs, n).error)
    ensures !Loadable(subs, ids[k], KindFor(reconcileIDs, ids[k]))
    ensures forall j :: 0 <= j < k ==> Loadable(subs, ids[j], KindFor(reconcileIDs, ids[j]))
  {
    if LoadAll(subs, ids, reconcileIDs, n - 1).Err? {
      k := FirstRefused(subs, ids, reconcileIDs, n - 1);
    } else {
      k := n - 1;
      LoadAllIs(subs, ids, reconcileIDs, n - 1);
      LoadOneIs(subs, ids[k], KindFor(reconcileIDs, ids[k]));
    }
  }

  /** The ids are requested of one kind each and all load. */
  ghost predicate AllLoadable(subs: map<nat, SubRow>, reconcileIDs: seq<nat>, disposeIDs: seq<nat>) {
    && reconcileIDs != [] && (forall id :: id in disposeIDs ==> id !in reconcileIDs)
    && (forall id :: id in reconcileIDs ==> Loadable(subs, id, Reconcile))
    && (forall id :: id in disposeIDs ==> Loadable(subs, id, Dispose))
  }

  /** Exactly when a request loads. */
  lemma {:induction false} LoadsExactlyWhen(subs: map<nat, SubRow>, reconcileIDs: seq<nat>, disposeIDs: seq<nat>)
    ensures LoadSubmissions(subs, reconcileIDs, disposeIDs).Ok? <==> AllLoadable(subs, reconcileIDs, disposeIDs)
  {
    var all := reconcileIDs + disposeIDs;
    var ids := Dedup(all);
    LoadAllIs(subs, ids, reconcileIDs, |ids|);
    if AllLoadable(subs, reconcileIDs, disposeIDs) {
      forall k | 0 <= k < |ids|
        ensures Loadable(subs, ids[k], KindFor(reconcileIDs, ids[k]))
      {
        assert ids[k] in all;
      }
    }
    if LoadSubmissions(subs, reconcileIDs, disposeIDs).Ok? {
      forall id | id in all
        ensures Loadable(subs, id, KindFor(reconcileIDs, id))
      {
        assert id in ids;
        var k :| 0 <= k < |ids| && ids[k] == id;
      }
      assert forall id :: id in reconcileIDs ==> id in all;
      assert forall id :: id in disposeIDs ==> id in all;
    }
  }

  /** Id i is the first of the list for which the test fails. */
  ghost predicate FirstFailing(ids: seq<nat>, fails: nat -> bool, i: nat) {
    i < |ids| && fails(ids[i]) && forall j :: 0 <= j < i ==> !fails(ids[j])
  }

  ghost function NotLoadable(subs: map<nat, SubRow>, reconcileIDs: seq<nat>): nat -> bool {
    (id: nat) => !Loadable(subs, id, KindFor(reconcileIDs, id))
  }

  /** What the error of loading says. */
  ghost predicate LoadRefusal(subs: map<nat, SubRow>, reconcileIDs: seq<nat>, disposeIDs: seq<nat>, e: LoadError) {
    if reconcileIDs == [] then
      e == NothingRequested
    else if exists id :: id in disposeIDs && id in reconcileIDs then
      exists i: nat :: FirstFailing(disposeIDs, (id: nat) => id in reconcileIDs, i) && e == BothKinds(disposeIDs[i])
    else
      var all := reconcileIDs + disposeIDs;
      exists i: nat :: FirstFailing(all, NotLoadable(subs, reconcileIDs), i)
                       && RowRefusal(subs, all[i], KindFor(reconcileIDs, all[i]), e)
  }

  lemma {:induction false} FirstCommonIs(ids: seq<nat>, others: seq<nat>) returns (i: nat)
    requires FirstCommon(ids, others).Some?
    ensures FirstFailing(ids, (id: nat) => id in others, i) && FirstCommon(ids, others) == Some(ids[i])
  {
    var front := ids[..|ids| - 1];
    if FirstCommon(front, others).Some? {
      i := FirstCommonIs(front, others);
    } else {
      i := |front|;
      forall j | 0 <= j < i
        ensures ids[j] !in others
      {
        assert front[j] in front;
      }
    }
  }

  /** Where the k-th id of the list without repetitions first stands. */
  lemma {:induction false} FirstOccurrence(ids: seq<nat>, k: nat) returns (n: nat)
    requires k < |Dedup(ids)|
    ensures n < |ids| && ids[n] == Dedup(ids)[k] && forall m :: 0 <= m < n ==> ids[m] in Dedup(ids)[..k]
  {
    var front, before := ids[..|ids| - 1], Dedup(ids[..|ids| - 1]);
    if k < |before| {
      n := FirstOccurrence(front, k);
      assert Dedup(ids)[..k] == before[..k];
      forall m | 0 <= m < n
        ensures ids[m] in Dedup(ids)[..k]
      {
        assert front[m] in before[..k];
      }
    } else {
      n := |front|;
      assert Dedup(ids)[..k] == before;
      forall m | 0 <= m < n
        ensures ids[m] in before
      {
        assert front[m] in front;
      }
    }
  }

  lemma {:induction false} RefusedRow(subs: map<nat, SubRow>, reconcileIDs: seq<nat>, all: seq<nat>) returns (i: nat)
    requires LoadAll(subs, Dedup(all), reconcileIDs, |Dedup(all)|).Err?
    ensures FirstFailing(all, NotLoadable(subs, reconcileIDs), i)
    ensures RowRefusal(subs, all[i], KindFor(reconcileIDs, all[i]),
                       LoadAll(subs, Dedup(all), reconcileIDs, |Dedup(all)|).error)
  {
    var ids := Dedup(all);
    var k := FirstRefused(subs, ids, reconcileIDs, |ids|);
    i := FirstOccurrence(all, k);
    forall m | 0 <= m < i
      ensures Loadable(subs, all[m], KindFor(reconcileIDs, all[m]))
    {
      assert all[m] in ids[..k];
      var j :| 0 <= j < |ids[..k]| && ids[..k][j] == all[m];
    }
  }

  /** A request that does not load is refused for the first thing wrong with it. */
  lemma {:induction false} RefusedRequest(subs: map<nat, SubRow>, reconcileIDs: seq<nat>, disposeIDs: seq<nat>)
    ensures var load := LoadSubmissions(subs, reconcileIDs, disposeIDs);
            load.Err? ==> LoadRefusal(subs, reconcileIDs, disposeIDs, load.error)
  {
    if reconcileIDs != [] {
      if FirstCommon(disposeIDs, reconcileIDs).Some? {
        var i := FirstCommonIs(disposeIDs, reconcileIDs);
        assert disposeIDs[i] in disposeIDs;
      } else if LoadSubmissions(subs, reconcileIDs, disposeIDs).Err? {
        var i := RefusedRow(subs, reconcileIDs, reconcileIDs + disposeIDs);
      }
    }
  }

  // ----- applying -----

  /** Update k is the first whose item is missing or has another quantity than planned. */
  ghost predicate FirstStale(items: map<nat, ItemRow>, updates: seq<ItemUpdate>, k: nat) {
    && k < |updates|
    && (updates[k].itemID in items ==> items[updates[k].itemID].quantity != updates[k].originalQty)
    && forall j :: 0 <= j < k ==>
         updates[j].itemID in items && items[updates[j].itemID].quantity == updates[j].originalQty
  }

  ghost predicate StockRefusal(g: Ledger, plan: StockPlan, e: ApplyError) {
    exists k: nat :: FirstStale(g.items, plan.itemUpdates, k) &&
      var u := plan.itemUpdates[k];
      e == if u.itemID in g.items then LockConflict(u.itemID, u.originalQty, g.items[u.itemID].quantity)
           else ItemNotFound(u.itemID)
  }

  lemma {:induction false} UpdatesHold(items: map<nat, ItemRow>, updates: seq<ItemUpdate>, n: nat)
    requires n <= |updates|
    ensures SetQuantities(items, updates, n).Ok? <==>
            forall j :: 0 <= j < n ==>
              updates[j].itemID in items && items[updates[j].itemID].quantity == updates[j].originalQty
  {
    if n > 0 {
      UpdatesHold(items, updates, n - 1);
    }
  }

  lemma {:induction false} FirstStaleIs(items: map<nat, ItemRow>, updates: seq<ItemUpdate>, n: nat) returns (k: nat)
    requires n <= |updates| && SetQuantities(items, updates, n).Err?
    ensures FirstStale(items, updates, k)
    ensures var u := updates[k];
            SetQuantities(items, updates, n).error ==
              if u.itemID in items then LockConflict(u.itemID, u.originalQty, items[u.itemID].quantity)
              else ItemNotFound(u.itemID)
  {
    if SetQuantities(items, updates, n - 1).Err? {
      k := FirstStaleIs(items, updates, n - 1);
    } else {
      UpdatesHold(items, updates, n - 1);
      k := n - 1;
    }
  }

  lemma {:induction false} StockRefused(g: Ledger, plan: StockPlan)
    ensures ApplyStock(g, plan).Err? ==> StockRefusal(g, plan, ApplyStock(g, plan).error)
  {
    if ApplyStock(g, plan).Err? {
      var k := FirstStaleIs(g.items, plan.itemUpdates, |plan.itemUpdates|);
    }
  }

  /** What the error of applying says: the set of rows, then their state, then the stock. */
  ghost predicate ApplyRefusal(s: State, all: seq<nat>, plan: StockPlan, e: StoreError) {
    if !Distinct(all) || (exists id :: id in all && (id !in s.subs || s.subs[id].deleted)) then e == SetChanged
    else if exists id :: id in all && id in s.subs && s.subs[id].approval != Pending then e == NoLongerPending
    else e.StockFailed? && StockRefusal(s.ledger, plan, e.error)
  }

  /** A resolution that does not apply is refused for the first check that fails. */
  lemma {:induction false} RefusedResolution(s: State, reconcileIDs: seq<nat>, disposeIDs: seq<nat>, plan: P.Plan)
    ensures var r := ApplyResolution(s, reconcileIDs, disposeIDs, plan);
            r.Err? ==> ApplyRefusal(s, reconcileIDs + disposeIDs, plan.stock, r.error)
  {
    LiveCount(s.subs, reconcileIDs + disposeIDs);
    StockRefused(s.ledger, plan.stock);
  }

  /** The same for a dispose. */
  lemma {:induction false} RefusedDisposal(s: State, subID: nat, plan: StockPlan)
    ensures var r := ApplyDispose(s, subID, plan); r.Err? ==> ApplyRefusal(s, [subID], plan, r.error)
  {
    assert [subID][..0] == [] && Distinct([subID]);
    assert subID in [subID];
    StockRefused(s.ledger, plan);
  }
}

/**
 What the resolver's plan and the dispose plan share (cmd/util/reconcile.go, cmd/util/dispose.go): the
 rows they write, the orders they list them in, and the consumption deltas they report.
 */
module Plans {
  import opened Basics
  import opened Fifo

  /** An active inventory item: its live quantity and its stock layers, oldest first. */
  datatype Item = Item(quantity: real, layers: seq<Layer>)

  /** Every item's layers are in order of time, each with its own id. */
  ghost predicate GoodLedgers(items: map<nat, Item>) {
    forall id :: id in items ==> Chronological(items[id].layers) && DistinctIds(items[id].layers)
  }

  /** No layer is consumed below nothing or beyond its quantity. */
  ghost predicate SoundLayers(items: map<nat, Item>) {
    forall id, l {:trigger l in items[id].layers} :: id in items && l in items[id].layers ==>
      0.0 <= l.consumed <= l.quantity
  }

  /** The final consumed quantity of a source layer. */
  datatype LayerUpdate = LayerUpdate(layerID: nat, consumed: real)

  /** The quantity an item must still have, and the one it gets. */
  datatype ItemUpdate = ItemUpdate(itemID: nat, originalQty: real, newQty: real)

  datatype StockPlan = StockPlan(txns: seq<SyntheticTxn>, layerUpdates: seq<LayerUpdate>, itemUpdates: seq<ItemUpdate>)

  const NO_CHANGE := StockPlan([], [], [])

  function Join(p: StockPlan, q: StockPlan): StockPlan {
    StockPlan(p.txns + q.txns, p.layerUpdates + q.layerUpdates, p.itemUpdates + q.itemUpdates)
  }

  function Identity(): nat -> int {
    (id: nat) => id
  }

  function TxnItem(): SyntheticTxn -> int {
    (t: SyntheticTxn) => t.itemID
  }

  function TxnDate(): SyntheticTxn -> int {
    (t: SyntheticTxn) => t.at
  }

  function TxnSource(): SyntheticTxn -> int {
    (t: SyntheticTxn) => t.source
  }

  /** "disposal" sorts before "sell". */
  function TxnKindRank(): SyntheticTxn -> int {
    (t: SyntheticTxn) => if t.kind == Disposal then 0 else 1
  }

  /** The order of a resolution's transactions: by item, then date, then kind. */
  function ByItemDateKind(): (SyntheticTxn, SyntheticTxn) -> bool {
    By(TxnItem(), By(TxnDate(), By(TxnKindRank(), Always())))
  }

  /** The order of a dispose plan's transactions: by item, then date, then source layer. */
  function ByItemDateSource(): (SyntheticTxn, SyntheticTxn) -> bool {
    By(TxnItem(), By(TxnDate(), By(TxnSource(), Always())))
  }

  // ----- consumption deltas -----

  /** By how much the consumption of a layer grows. */
  datatype Delta = Delta(layerID: nat, delta: real)

  function Grown(m: map<nat, real>, id: nat): real {
    if id in m then m[id] else 0.0
  }

  /** The largest of the ids. */
  ghost function Largest(ids: set<nat>): (r: nat)
    requires ids != {}
    ensures r in ids && forall id :: id in ids ==> id <= r
  {
    var id :| id in ids;
    if ids == {id} then
      id
    else
      assert ids == (ids - {id}) + {id};
      var rest := Largest(ids - {id});
      if id < rest then rest else id
  }

  ghost predicate Ascending(ids: seq<nat>) {
    forall i, j :: 0 <= i < j < |ids| ==> ids[i] < ids[j]
  }

  /** The ids in ascending order. */
  ghost function SortedIds(ids: set<nat>): (r: seq<nat>)
    ensures Ascending(r) && forall id :: id in r <==> id in ids
  {
    if ids == {} then
      []
    else
      var rest := SortedIds(ids - {Largest(ids)});
      assert forall i :: 0 <= i < |rest| ==> rest[i] in rest;
      rest + [Largest(ids)]
  }

  ghost function DeltasBy(m: map<nat, real>, ids: seq<nat>): (r: seq<Delta>)
    ensures |r| == |ids|
  {
    seq(|ids|, i requires 0 <= i < |ids| => Delta(ids[i], Grown(m, ids[i])))
  }

  /** The deltas of the map, by layer id. */
  ghost function ListedDeltas(m: map<nat, real>): seq<Delta> {
    DeltasBy(m, SortedIds(m.Keys))
  }

  lemma {:induction false} AscendingIsUnique(a: seq<nat>, b: seq<nat>)
    requires Ascending(a) && Ascending(b) && forall id :: id in a <==> id in b
    ensures a == b
  {
    if b != [] {
      assert b[0] in b;
    }
    if a != [] {
      assert a[0] in b && b != [];
      LastIsSame(a, b);
      var n, m := |a| - 1, |b| - 1;
      forall id
        ensures id in a[..n] <==> id in b[..m]
      {
        assert id in a <==> id in a[..n] || id == a[n];
        assert id in b <==> id in b[..m] || id == b[m];
      }
      AscendingIsUnique(a[..n], b[..m]);
      assert a == a[..n] + [a[n]] && b == b[..m] + [b[m]];
    }
  }

  lemma {:induction false} LastIsSame(a: seq<nat>, b: seq<nat>)
    requires Ascending(a) && Ascending(b) && a != [] && b != [] && forall id :: id in a <==> id in b
    ensures a[|a| - 1] == b[|b| - 1]
  {
    assert a[|a| - 1] in b && b[|b| - 1] in a;
    var i :| 0 <= i < |b| && b[i] == a[|a| - 1];
    var j :| 0 <= j < |a| && a[j] == b[|b| - 1];
  }

  lemma {:induction false} SortedIsAscending(ids: seq<nat>)
    requires SortedBy(ids, Identity()) && Distinct(ids)
    ensures Ascending(ids)
  {
    forall i, j | 0 <= i < j < |ids|
      ensures ids[i] < ids[j]
    {
      InOrder(ids, Identity(), i, j);
      DistinctAt(ids, i, j);
    }
  }

  lemma {:induction false} SortedKeys(ids: seq<nat>, keys: set<nat>)
    requires Distinct(ids) && forall id :: id in ids <==> id in keys
    ensures StableSort(ids, Identity()) == SortedIds(keys)
  {
    StableSortSorts(ids, Identity());
    StableSortHas(ids, Identity());
    StableSortDistinct(ids, Identity());
    SortedIsAscending(StableSort(ids, Identity()));
    AscendingIsUnique(StableSort(ids, Identity()), SortedIds(keys));
  }

  method CollectKeys(m: map<nat, real>) returns (ids: seq<nat>)
    ensures Distinct(ids) && forall id :: id in ids <==> id in m
  {
    ids := [];
    var left := m.Keys;
    while left != {}
      invariant left <= m.Keys && Distinct(ids) && forall id :: id in ids <==> id in m && id !in left
      decreases left
    {
      var id :| id in left;
      DistinctAppend(ids, id);
      ids, left := ids + [id], left - {id};
    }
  }

  method DeltasFor(m: map<nat, real>, ids: seq<nat>) returns (r: seq<Delta>)
    requires forall id :: id in ids ==> id in m
    ensures r == DeltasBy(m, ids)
  {
    r := [];
    var i := 0;
    while i < |ids|
      invariant i <= |ids| && r == DeltasBy(m, ids[..i])
    {
      assert ids[i] in ids;
      r := r + [Delta(ids[i], m[ids[i]])];
      i := i + 1;
    }
    assert ids[..i] == ids;
  }

  /** Collects the keys of the map, sorts them and lists their deltas. */
  method ListDeltas(m: map<nat, real>) returns (r: seq<Delta>)
    ensures r == ListedDeltas(m)
  {
    var keys := CollectKeys(m);
    SortedKeys(keys, m.Keys);
    r := DeltasFor(m, StableSort(keys, Identity()));
  }

  /** The list holds exactly the layers of the map, each once, by ascending id. */
  lemma {:induction false} ListedDeltasAre(m: map<nat, real>)
    ensures forall i, j :: 0 <= i < j < |ListedDeltas(m)| ==> ListedDeltas(m)[i].layerID < ListedDeltas(m)[j].layerID
    ensures forall d: Delta :: d in ListedDeltas(m) <==> d.layerID in m && d.delta == m[d.layerID]
  {
    var ids, r := SortedIds(m.Keys), ListedDeltas(m);
    forall d: Delta | d.layerID in m && d.delta == m[d.layerID]
      ensures d in r
    {
      var i :| 0 <= i < |ids| && ids[i] == d.layerID;
      assert r[i] == d;
    }
    forall i | 0 <= i < |r|
      ensures r[i].layerID in m && r[i].delta == m[r[i].layerID]
    {
      assert ids[i] in ids;
    }
  }
}

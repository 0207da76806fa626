/**
 The monthly report's category totals (internal/models/report_builder.go, buildLegacyView,
 getOrCreateReportItem, updatePOSummary): separate accumulators per category, per day and per purchase
 order, proved against the signed sum of the transactions.
 */
module Reports {
  import opened Basics
  import opened Transactions

  /** The day of the month. */
  type Day = d: nat | 1 <= d <= 31 witness 1

  /** The calendar: which day of the month an instant falls on. */
  type Calendar = int -> Day

  datatype ItemInfo = ItemInfo(product: Option<string>)

  datatype Order = Order(number: string, status: nat)

  datatype PoItem = PoItem(order: Option<Order>, unitPrice: real)

  datatype PoSummary = PoSummary(order: Order, unitPrice: real, byDay: map<nat, real>)

  datatype ReportItem = ReportItem(
    itemID: nat, product: Option<string>, start: real, txns: seq<Txn>, poMap: map<nat, PoSummary>,
    purchase: real, byDay: map<nat, real>, reconcile: real, transfer: real, dispose: real, end: real,
    source: Option<Txn>, consumes: seq<Txn>)

  // ----- what the accumulators stand for -----

  /** The item's transactions of one type. */
  function OfType(id: nat, t: TxnType): Txn -> bool {
    (x: Txn) => x.itemID == id && x.txnType == t
  }

  function NamesItem(id: nat): Txn -> bool {
    (x: Txn) => x.itemID == id
  }

  /** The item's purchases against one purchase order item. */
  function AgainstOrder(id: nat, po: nat): Txn -> bool {
    (x: Txn) => x.itemID == id && x.txnType == Purchase && x.poItemID == Some(po)
  }

  function AmountOf(p: Txn -> bool): Txn -> real {
    (x: Txn) => if p(x) then x.quantity else 0.0
  }

  function OnDay(p: Txn -> bool, day: Calendar, d: nat): Txn -> real {
    (x: Txn) => if p(x) && day(x.createdAt) == d then x.quantity else 0.0
  }

  /** The map holds the quantity of each day on which a selected transaction falls. */
  ghost predicate DayTotals(m: map<nat, real>, txns: seq<Txn>, p: Txn -> bool, day: Calendar) {
    && (forall d :: d in m <==> exists x :: x in txns && p(x) && day(x.createdAt) == d)
    && (forall d :: d in m ==> m[d] == SumBy(txns, OnDay(p, day, d)))
  }

  function KnownOrder(poItems: map<nat, PoItem>, po: nat): bool {
    po in poItems && poItems[po].order.Some?
  }

  /** A summary per known purchase order item that some purchase is against. */
  ghost predicate PoTotals(m: map<nat, PoSummary>, id: nat, txns: seq<Txn>, poItems: map<nat, PoItem>, day: Calendar) {
    && (forall po :: po in m <==> KnownOrder(poItems, po) && exists x :: x in txns && AgainstOrder(id, po)(x))
    && (forall po :: po in m ==>
          && m[po].order == poItems[po].order.value && m[po].unitPrice == poItems[po].unitPrice
          && DayTotals(m[po].byDay, txns, AgainstOrder(id, po), day))
  }

  /** The item's quantity of one type. */
  ghost function Amount(txns: seq<Txn>, id: nat, t: TxnType): real {
    SumBy(txns, AmountOf(OfType(id, t)))
  }

  ghost predicate Amounts(r: ReportItem, id: nat, txns: seq<Txn>) {
    && r.purchase == Amount(txns, id, Purchase) && r.reconcile == Amount(txns, id, Sell)
    && r.dispose == Amount(txns, id, Disposal) &&
       r.transfer == Amount(txns, id, TransferIn) - Amount(txns, id, TransferOut)
  }

  /** The report item's accumulators after the given transactions. */
  ghost predicate Totals(r: ReportItem, id: nat, txns: seq<Txn>, day: Calendar) {
    && r.txns == Filter(txns, NamesItem(id))
    && Amounts(r, id, txns)
    && DayTotals(r.byDay, txns, OfType(id, Purchase), day)
  }

  // ----- one transaction more -----

  /** The day map with one more quantity. */
  function AddOnDay(m: map<nat, real>, d: nat, qty: real): map<nat, real> {
    m[d := (if d in m then m[d] else 0.0) + qty]
  }

  lemma {:induction false} DayTotalsStep(m: map<nat, real>, txns: seq<Txn>, p: Txn -> bool, day: Calendar, x: Txn)
    requires DayTotals(m, txns, p, day)
    ensures DayTotals(if p(x) then AddOnDay(m, day(x.createdAt), x.quantity) else m, txns + [x], p, day)
  {
    var m' := if p(x) then AddOnDay(m, day(x.createdAt), x.quantity) else m;
    forall d | d in m'
      ensures m'[d] == SumBy(txns + [x], OnDay(p, day, d))
    {
      SumSnoc(txns, x, OnDay(p, day, d));
      if d !in m {
        SumZero(txns, OnDay(p, day, d));
      }
    }
    forall d
      ensures d in m' <==> exists y :: y in txns + [x] && p(y) && day(y.createdAt) == d
    {
      if y :| y in txns && p(y) && day(y.createdAt) == d {
        assert y in txns + [x];
      }
      assert x in txns + [x];
    }
  }

  lemma {:induction false} AmountStep(txns: seq<Txn>, id: nat, t: TxnType, x: Txn)
    ensures Amount(txns + [x], id, t)
         == Amount(txns, id, t) + if x.itemID == id && x.txnType == t then x.quantity else 0.0
  {
    SumSnoc(txns, x, AmountOf(OfType(id, t)));
  }

  lemma {:induction false} AmountsStep(id: nat, txns: seq<Txn>, x: Txn)
    ensures forall t: TxnType :: Amount(txns + [x], id, t)
              == Amount(txns, id, t) + if x.itemID == id && x.txnType == t then x.quantity else 0.0
  {
    forall t: TxnType {
      AmountStep(txns, id, t, x);
    }
  }

  lemma {:induction false} OtherItem(r: ReportItem, id: nat, txns: seq<Txn>, day: Calendar, x: Txn)
    requires Totals(r, id, txns, day) && x.itemID != id
    ensures Totals(r, id, txns + [x], day)
  {
    FilterSnoc(txns, x, NamesItem(id));
    AmountsStep(id, txns, x);
    DayTotalsStep(r.byDay, txns, OfType(id, Purchase), day, x);
  }

  lemma {:induction false} OtherOrders(
    m: map<nat, PoSummary>, id: nat, txns: seq<Txn>, poItems: map<nat, PoItem>, day: Calendar, x: Txn)
    requires PoTotals(m, id, txns, poItems, day)
    requires forall po :: AgainstOrder(id, po)(x) ==> !KnownOrder(poItems, po)
    ensures PoTotals(m, id, txns + [x], poItems, day)
  {
    forall po | po in m
      ensures DayTotals(m[po].byDay, txns + [x], AgainstOrder(id, po), day)
    {
      DayTotalsStep(m[po].byDay, txns, AgainstOrder(id, po), day, x);
    }
    forall po
      ensures po in m <==> KnownOrder(poItems, po) && exists y :: y in txns + [x] && AgainstOrder(id, po)(y)
    {
      if y :| y in txns && AgainstOrder(id, po)(y) {
        assert y in txns + [x];
      }
    }
  }

  // ----- the legacy view -----

  const NO_ITEM := ReportItem(0, None, 0.0, [], map[], 0.0, map[], 0.0, 0.0, 0.0, 0.0, None, [])

  /** Adds a purchase to the summary of its purchase order item, if that and its order are known. */
  method UpdatePoSummary(m: map<nat, PoSummary>, poItems: map<nat, PoItem>, x: Txn, ghost txns: seq<Txn>, day: Calendar)
    returns (m': map<nat, PoSummary>)
    requires x.txnType == Purchase && x.poItemID.Some? && PoTotals(m, x.itemID, txns, poItems, day)
    ensures PoTotals(m', x.itemID, txns + [x], poItems, day)
  {
    var po := x.poItemID.value;
    if po !in poItems || poItems[po].order == None {
      OtherOrders(m, x.itemID, txns, poItems, day, x);
      return m;
    }
    var summary := PoSummary(poItems[po].order.value, poItems[po].unitPrice, map[]);
    if po in m {
      summary := m[po];
    }
    assert DayTotals(summary.byDay, txns, AgainstOrder(x.itemID, po), day) by {
      if po !in m {
        assert forall y :: y in txns ==> !AgainstOrder(x.itemID, po)(y);
      }
    }
    var byDay := AddOnDay(summary.byDay, day(x.createdAt), x.quantity);
    m' := m[po := summary.(byDay := byDay)];
    forall q | q in m'
      ensures DayTotals(m'[q].byDay, txns + [x], AgainstOrder(x.itemID, q), day)
    {
      DayTotalsStep(if q == po then summary.byDay else m[q].byDay, txns, AgainstOrder(x.itemID, q), day, x);
    }
    forall q
      ensures q in m' <==> KnownOrder(poItems, q) && exists y :: y in txns + [x] && AgainstOrder(x.itemID, q)(y)
    {
      if y :| y in txns && AgainstOrder(x.itemID, q)(y) {
        assert y in txns + [x];
      }
      assert x in txns + [x];
    }
  }

  /** The item's accumulators with one more of its transactions. */
  function WithTxn(r: ReportItem, x: Txn, d: Day): ReportItem {
    var r := r.(txns := r.txns + [x]);
    match x.txnType
    case Purchase => r.(purchase := r.purchase + x.quantity, byDay := AddOnDay(r.byDay, d, x.quantity))
    case Sell => r.(reconcile := r.reconcile + x.quantity)
    case Disposal => r.(dispose := r.dispose + x.quantity)
    case TransferIn => r.(transfer := r.transfer + x.quantity)
    case TransferOut => r.(transfer := r.transfer - x.quantity)
    case _ => r
  }

  lemma {:induction false} AmountsWithTxn(r: ReportItem, txns: seq<Txn>, x: Txn, d: Day)
    requires Amounts(r, x.itemID, txns)
    ensures Amounts(WithTxn(r, x, d), x.itemID, txns + [x])
  {
    AmountsStep(x.itemID, txns, x);
  }

  lemma {:induction false} TotalsStep(r: ReportItem, txns: seq<Txn>, day: Calendar, x: Txn)
    requires Totals(r, x.itemID, txns, day)
    ensures Totals(WithTxn(r, x, day(x.createdAt)), x.itemID, txns + [x], day)
  {
    FilterSnoc(txns, x, NamesItem(x.itemID));
    AmountsWithTxn(r, txns, x, day(x.createdAt));
    DayTotalsStep(r.byDay, txns, OfType(x.itemID, Purchase), day, x);
  }

  /** Books one transaction of the item under its category. */
  method BookTxn(
    r: ReportItem, poItems: map<nat, PoItem>, x: Txn, ghost txns: seq<Txn>, day: Calendar)
    returns (r': ReportItem)
    requires Totals(r, x.itemID, txns, day) && PoTotals(r.poMap, x.itemID, txns, poItems, day)
    ensures Totals(r', x.itemID, txns + [x], day) && PoTotals(r'.poMap, x.itemID, txns + [x], poItems, day)
    ensures r'.itemID == r.itemID && r'.product == r.product && r'.start == r.start
    ensures r'.source == r.source && r'.consumes == r.consumes
  {
    TotalsStep(r, txns, day, x);
    r' := WithTxn(r, x, day(x.createdAt));
    if x.txnType == Purchase && x.poItemID.Some? {
      var poMap := UpdatePoSummary(r.poMap, poItems, x, txns, day);
      r' := r'.(poMap := poMap);
    } else {
      OtherOrders(r.poMap, x.itemID, txns, poItems, day, x);
    }
  }

  /** Some transaction names the item. */
  ghost predicate Named(txns: seq<Txn>, id: nat) {
    exists x :: x in txns && x.itemID == id
  }

  /** What an item's entry holds after the given transactions. */
  ghost predicate BookedItem(
    r: ReportItem, id: nat, lookup: map<nat, ItemInfo>, poItems: map<nat, PoItem>, day: Calendar,
    start: map<nat, real>, txns: seq<Txn>)
  {
    && id in lookup && r.itemID == id && r.product == lookup[id].product && r.source == None && r.consumes == []
    && r.start == (if id in start then start[id] else 0.0)
    && Totals(r, id, txns, day) && PoTotals(r.poMap, id, txns, poItems, day)
  }

  /** What the map of entries holds after the given transactions. */
  ghost predicate Booked(m: map<nat, ReportItem>, lookup: map<nat, ItemInfo>, poItems: map<nat, PoItem>, day: Calendar,
                         start: map<nat, real>, txns: seq<Txn>) {
    && (forall id :: id in m <==> id in lookup && Named(txns, id))
    && (forall id :: id in m ==> BookedItem(m[id], id, lookup, poItems, day, start, txns))
  }

  lemma {:induction false} NothingBooked(
    id: nat, product: Option<string>, start: real, txns: seq<Txn>, poItems: map<nat, PoItem>, day: Calendar)
    requires forall x :: x in txns ==> x.itemID != id
    ensures var r := NO_ITEM.(itemID := id, product := product, start := start);
            Totals(r, id, txns, day) && PoTotals(r.poMap, id, txns, poItems, day)
  {
    forall t: TxnType
      ensures Amount(txns, id, t) == 0.0
    {
      SumZero(txns, AmountOf(OfType(id, t)));
    }
    FilterNone(txns, NamesItem(id));
  }

  lemma {:induction false} BookedOthers(
    m: map<nat, ReportItem>, lookup: map<nat, ItemInfo>, poItems: map<nat, PoItem>, day: Calendar,
    start: map<nat, real>, txns: seq<Txn>, x: Txn, id: nat)
    requires Booked(m, lookup, poItems, day, start, txns) && id in m && id != x.itemID
    ensures BookedItem(m[id], id, lookup, poItems, day, start, txns + [x])
  {
    OtherItem(m[id], id, txns, day, x);
    OtherOrders(m[id].poMap, id, txns, poItems, day, x);
  }

  /** The item's entry, new if there is none yet. */
  method GetOrCreate(m: map<nat, ReportItem>, id: nat, info: ItemInfo) returns (r: ReportItem)
    ensures r == if id in m then m[id] else NO_ITEM.(itemID := id, product := info.product)
  {
    r := if id in m then m[id] else NO_ITEM.(itemID := id, product := info.product);
  }

  /** The entries of the other items after one more transaction. */
  lemma {:induction false} BookedStep(
    m: map<nat, ReportItem>, r: ReportItem, lookup: map<nat, ItemInfo>, poItems: map<nat, PoItem>, day: Calendar,
    start: map<nat, real>, txns: seq<Txn>, x: Txn)
    requires Booked(m, lookup, poItems, day, start, txns) && x.itemID in lookup
    requires BookedItem(r, x.itemID, lookup, poItems, day, start, txns + [x])
    ensures Booked(m[x.itemID := r], lookup, poItems, day, start, txns + [x])
  {
    var m' := m[x.itemID := r];
    forall id | id in m'
      ensures BookedItem(m'[id], id, lookup, poItems, day, start, txns + [x])
    {
      if id == x.itemID {
        assert m'[id] == r;
      } else {
        BookedOthers(m, lookup, poItems, day, start, txns, x, id);
      }
    }
    forall id
      ensures Named(txns + [x], id) <==> id == x.itemID || Named(txns, id)
    {
      NamedSnoc(txns, x, id);
    }
  }

  lemma {:induction false} NotBooked(m: map<nat, ReportItem>, lookup: map<nat, ItemInfo>, poItems: map<nat, PoItem>,
                                     day: Calendar, start: map<nat, real>, txns: seq<Txn>, x: Txn)
    requires Booked(m, lookup, poItems, day, start, txns) && x.itemID !in lookup
    ensures Booked(m, lookup, poItems, day, start, txns + [x])
  {
    forall id | id in m
      ensures BookedItem(m[id], id, lookup, poItems, day, start, txns + [x])
    {
      BookedOthers(m, lookup, poItems, day, start, txns, x, id);
    }
    forall id
      ensures Named(txns + [x], id) <==> id == x.itemID || Named(txns, id)
    {
      NamedSnoc(txns, x, id);
    }
  }

  /** Books one transaction, unless its item is not in the lookup. */
  method BookOne(m: map<nat, ReportItem>, lookup: map<nat, ItemInfo>, poItems: map<nat, PoItem>, day: Calendar,
                 start: map<nat, real>, x: Txn, ghost txns: seq<Txn>) returns (m': map<nat, ReportItem>)
    requires Booked(m, lookup, poItems, day, start, txns)
    ensures Booked(m', lookup, poItems, day, start, txns + [x])
  {
    if x.itemID !in lookup {
      NotBooked(m, lookup, poItems, day, start, txns, x);
      return m;
    }
    var r := GetOrCreate(m, x.itemID, lookup[x.itemID]);
    r := r.(start := if x.itemID in start then start[x.itemID] else 0.0);
    if x.itemID !in m {
      NothingBooked(x.itemID, lookup[x.itemID].product, r.start, txns, poItems, day);
    }
    r := BookTxn(r, poItems, x, txns, day);
    BookedStep(m, r, lookup, poItems, day, start, txns, x);
    m' := m[x.itemID := r];
  }

  lemma {:induction false} NamedSnoc(txns: seq<Txn>, x: Txn, id: nat)
    ensures Named(txns + [x], id) <==> id == x.itemID || Named(txns, id)
  {
    if y :| y in txns && y.itemID == id {
      assert y in txns + [x];
    }
    assert x in txns + [x];
  }

  method BookAll(
    txns: seq<Txn>, lookup: map<nat, ItemInfo>, poItems: map<nat, PoItem>, day: Calendar, start: map<nat, real>)
    returns (m: map<nat, ReportItem>)
    ensures Booked(m, lookup, poItems, day, start, txns)
  {
    m := map[];
    var i := 0;
    while i < |txns|
      invariant i <= |txns| && Booked(m, lookup, poItems, day, start, txns[..i])
    {
      assert txns[..i + 1] == txns[..i] + [txns[i]];
      m := BookOne(m, lookup, poItems, day, start, txns[i], txns[..i]);
      i := i + 1;
    }
    assert txns[..i] == txns;
  }

  function EndOf(r: ReportItem): real {
    r.start + r.purchase - r.reconcile - r.dispose + r.transfer
  }

  ghost predicate OncePerItem(items: seq<ReportItem>) {
    forall i, j :: 0 <= i < j < |items| ==> items[i].itemID != items[j].itemID
  }

  /** Closes every entry with its end quantity and lists the entries, in no particular order. */
  method CloseAll(m: map<nat, ReportItem>) returns (items: seq<ReportItem>)
    requires forall id :: id in m ==> m[id].itemID == id
    ensures OncePerItem(items)
    ensures forall r :: r in items <==> r.itemID in m && r == m[r.itemID].(end := EndOf(m[r.itemID]))
  {
    items := [];
    var left := m.Keys;
    while left != {}
      invariant left <= m.Keys && OncePerItem(items)
      invariant forall r :: r in items <==> r.itemID in m.Keys - left && r == m[r.itemID].(end := EndOf(m[r.itemID]))
      decreases left
    {
      var id :| id in left;
      assert forall r :: r in items ==> r.itemID != id;
      items := items + [m[id].(end := EndOf(m[id]))];
      left := left - {id};
    }
  }

  // ----- what the view means -----

  /** One item of the legacy view. */
  ghost predicate LegacyItem(r: ReportItem, lookup: map<nat, ItemInfo>, poItems: map<nat, PoItem>, day: Calendar,
                             history: seq<Txn>, txns: seq<Txn>) {
    && r.itemID in lookup && Named(txns, r.itemID)
    && r.product == lookup[r.itemID].product && r.source == None && r.consumes == []
    && r.start == SumBy(history, DeltaOf(r.itemID)) && r.end == EndOf(r)
    && Totals(r, r.itemID, txns, day) && PoTotals(r.poMap, r.itemID, txns, poItems, day)
  }

  /** An item per known item that the period's transactions name. */
  ghost predicate LegacyView(
    items: seq<ReportItem>, lookup: map<nat, ItemInfo>, poItems: map<nat, PoItem>, day: Calendar, history: seq<Txn>,
    txns: seq<Txn>)
  {
    && OncePerItem(items)
    && (forall r :: r in items ==> LegacyItem(r, lookup, poItems, day, history, txns))
    && (forall x :: x in txns && x.itemID in lookup ==> exists r :: r in items && r.itemID == x.itemID)
  }

  method BuildLegacyView(
    txns: seq<Txn>, history: seq<Txn>, lookup: map<nat, ItemInfo>, poItems: map<nat, PoItem>, day: Calendar)
    returns (items: seq<ReportItem>)
    ensures LegacyView(items, lookup, poItems, day, history, txns)
  {
    var start := AggTxnQuantities(history);
    StartQuantities(start, history);
    var m := BookAll(txns, lookup, poItems, day, start);
    items := CloseAll(m);
    forall r | r in items
      ensures LegacyItem(r, lookup, poItems, day, history, txns)
    {
      ClosedItem(m, lookup, poItems, day, start, history, txns, r.itemID);
    }
    forall x | x in txns && x.itemID in lookup
      ensures exists r :: r in items && r.itemID == x.itemID
    {
      assert Named(txns, x.itemID);
      assert m[x.itemID].(end := EndOf(m[x.itemID])) in items;
    }
  }

  /** The start quantity of every item. */
  ghost predicate Starts(start: map<nat, real>, history: seq<Txn>) {
    forall id: nat {:trigger id in start} :: (if id in start then start[id] else 0.0) == SumBy(history, DeltaOf(id))
  }

  lemma {:induction false} StartQuantities(start: map<nat, real>, history: seq<Txn>)
    requires forall id :: id in start <==> exists t :: t in history && t.itemID == id
    requires forall id :: id in start ==> start[id] == SumBy(history, DeltaOf(id))
    ensures Starts(start, history)
  {
    forall id: nat {:trigger id in start}
      ensures (if id in start then start[id] else 0.0) == SumBy(history, DeltaOf(id))
    {
      if id !in start {
        SumZero(history, DeltaOf(id));
      }
    }
  }

  lemma {:induction false} ClosedItem(
    m: map<nat, ReportItem>, lookup: map<nat, ItemInfo>, poItems: map<nat, PoItem>, day: Calendar,
    start: map<nat, real>, history: seq<Txn>, txns: seq<Txn>, id: nat)
    requires Booked(m, lookup, poItems, day, start, txns) && Starts(start, history) && id in m
    ensures LegacyItem(m[id].(end := EndOf(m[id])), lookup, poItems, day, history, txns)
  {
    var r := m[id];
    var closed := r.(end := EndOf(r));
    assert Totals(closed, id, txns, day) && PoTotals(closed.poMap, id, txns, poItems, day);
  }

  /**
   The end quantity, built from separate category accumulators, is the signed sum of the history and the
   period, less exactly the period's stock-ups and initial loads, which no category counts.
   */
  lemma {:induction false} EndQuantityIsNet(
    r: ReportItem, lookup: map<nat, ItemInfo>, poItems: map<nat, PoItem>, day: Calendar, history: seq<Txn>,
    txns: seq<Txn>)
    requires LegacyItem(r, lookup, poItems, day, history, txns)
    ensures r.end == SumBy(history + txns, DeltaOf(r.itemID))
                   - Amount(txns, r.itemID, ReconcileStockUp) - Amount(txns, r.itemID, Initial)
  {
    SumConcat(history, txns, DeltaOf(r.itemID));
    NetByType(r.itemID, txns);
  }

  lemma {:induction false} NetByType(id: nat, txns: seq<Txn>)
    ensures SumBy(txns, DeltaOf(id))
         == Amount(txns, id, Purchase) + Amount(txns, id, TransferIn) + Amount(txns, id, ReconcileStockUp) +
           Amount(txns, id, Initial)
          - Amount(txns, id, Sell) - Amount(txns, id, Disposal) - Amount(txns, id, TransferOut)
  {
    if txns != [] {
      var front, x := txns[..|txns| - 1], txns[|txns| - 1];
      assert txns == front + [x];
      NetByType(id, front);
      AmountsStep(id, front, x);
      SumSnoc(front, x, DeltaOf(id));
    }
  }

  /** Each category holds the item's quantity of its own type of transaction, and the transactions stand in order. */
  lemma {:induction false} CategoriesByType(
    r: ReportItem, lookup: map<nat, ItemInfo>, poItems: map<nat, PoItem>, day: Calendar, history: seq<Txn>,
    txns: seq<Txn>)
    requires LegacyItem(r, lookup, poItems, day, history, txns)
    ensures r.purchase == SumBy(txns, AmountOf((x: Txn) => x.itemID == r.itemID && x.txnType == Purchase))
    ensures r.reconcile == SumBy(txns, AmountOf((x: Txn) => x.itemID == r.itemID && x.txnType == Sell))
    ensures r.dispose == SumBy(txns, AmountOf((x: Txn) => x.itemID == r.itemID && x.txnType == Disposal))
    ensures r.transfer == SumBy(txns, AmountOf((x: Txn) => x.itemID == r.itemID && x.txnType == TransferIn))
                        - SumBy(txns, AmountOf((x: Txn) => x.itemID == r.itemID && x.txnType == TransferOut))
    ensures r.end == r.start + r.purchase + r.transfer - r.reconcile - r.dispose
    ensures forall x :: x in r.txns <==> x in txns && x.itemID == r.itemID
  {
    forall t: TxnType
      ensures Amount(txns, r.itemID, t) == SumBy(txns, AmountOf((x: Txn) => x.itemID == r.itemID && x.txnType == t))
    {
      SumAgree(txns, AmountOf(OfType(r.itemID, t)), AmountOf((x: Txn) => x.itemID == r.itemID && x.txnType == t));
    }
  }

  // ----- days -----

  /** The map's total over the days 1 to n. */
  function DaysTotal(m: map<nat, real>, n: nat): real {
    if n == 0 then 0.0 else DaysTotal(m, n - 1) + if n in m then m[n] else 0.0
  }

  /** The selected quantity of the days 1 to n. */
  function UpToDay(p: Txn -> bool, day: Calendar, n: nat): Txn -> real {
    (x: Txn) => if p(x) && day(x.createdAt) <= n then x.quantity else 0.0
  }

  lemma {:induction false} DaysTotalIs(m: map<nat, real>, txns: seq<Txn>, p: Txn -> bool, day: Calendar, n: nat)
    requires DayTotals(m, txns, p, day)
    ensures DaysTotal(m, n) == SumBy(txns, UpToDay(p, day, n))
  {
    if n == 0 {
      SumZero(txns, UpToDay(p, day, 0));
    } else {
      DaysTotalIs(m, txns, p, day, n - 1);
      SumPlus(txns, UpToDay(p, day, n - 1), OnDay(p, day, n), UpToDay(p, day, n));
      if n !in m {
        SumZero(txns, OnDay(p, day, n));
      }
    }
  }

  /** Over the days of a month a day map adds up to the whole selected quantity, and holds no other day. */
  lemma {:induction false} DaysAddUp(m: map<nat, real>, txns: seq<Txn>, p: Txn -> bool, day: Calendar)
    requires DayTotals(m, txns, p, day)
    ensures DaysTotal(m, 31) == SumBy(txns, AmountOf(p))
    ensures forall d :: d in m ==> 1 <= d <= 31
  {
    DaysTotalIs(m, txns, p, day, 31);
    SumAgree(txns, UpToDay(p, day, 31), AmountOf(p));
  }

  /** The item's purchases per day add up to what it purchased, and so do those of each purchase order item. */
  lemma {:induction false} PurchasesByDayAddUp(
    r: ReportItem, lookup: map<nat, ItemInfo>, poItems: map<nat, PoItem>, day: Calendar, history: seq<Txn>,
    txns: seq<Txn>)
    requires LegacyItem(r, lookup, poItems, day, history, txns)
    ensures DaysTotal(r.byDay, 31) == r.purchase
    ensures forall po :: po in r.poMap ==>
            DaysTotal(r.poMap[po].byDay, 31) == SumBy(txns, AmountOf(AgainstOrder(r.itemID, po)))
  {
    DaysAddUp(r.byDay, txns, OfType(r.itemID, Purchase), day);
    forall po | po in r.poMap
      ensures DaysTotal(r.poMap[po].byDay, 31) == SumBy(txns, AmountOf(AgainstOrder(r.itemID, po)))
    {
      DaysAddUp(r.poMap[po].byDay, txns, AgainstOrder(r.itemID, po), day);
    }
  }

  // ----- the order of the transactions -----

  lemma {:induction false} SameDays(
    m: map<nat, real>, m': map<nat, real>, txns: seq<Txn>, again: seq<Txn>, p: Txn -> bool, day: Calendar)
    requires multiset(txns) == multiset(again) && DayTotals(m, txns, p, day) && DayTotals(m', again, p, day)
    ensures m == m'
  {
    SameElements(txns, again);
    forall d
      ensures d in m <==> d in m'
      ensures d in m ==> m[d] == m'[d]
    {
      SumPermuted(txns, again, OnDay(p, day, d));
    }
  }

  lemma {:induction false} SameElements(txns: seq<Txn>, again: seq<Txn>)
    requires multiset(txns) == multiset(again)
    ensures forall x :: x in txns <==> x in again
  {
    forall x
      ensures x in txns <==> x in again
    {
      assert x in multiset(txns) <==> x in multiset(again);
    }
  }

  lemma {:induction false} SameOrders(
    m: map<nat, PoSummary>, m': map<nat, PoSummary>, id: nat, txns: seq<Txn>, again: seq<Txn>,
    poItems: map<nat, PoItem>, day: Calendar)
    requires multiset(txns) == multiset(again) && PoTotals(m, id, txns, poItems, day) &&
             PoTotals(m', id, again, poItems, day)
    ensures m == m'
  {
    SameElements(txns, again);
    forall po
      ensures po in m <==> po in m'
      ensures po in m ==> m[po] == m'[po]
    {
      if po in m && po in m' {
        SameDays(m[po].byDay, m'[po].byDay, txns, again, AgainstOrder(id, po), day);
      }
    }
  }

  /** The figures of an item do not depend on the order of the period's transactions or of the history. */
  lemma {:induction false} LegacyViewIgnoresOrder(
    r: ReportItem, r': ReportItem, lookup: map<nat, ItemInfo>, poItems: map<nat, PoItem>, day: Calendar,
    history: seq<Txn>, earlier: seq<Txn>, txns: seq<Txn>, again: seq<Txn>)
    requires multiset(txns) == multiset(again) && multiset(history) == multiset(earlier) && r'.itemID == r.itemID
    requires LegacyItem(r, lookup, poItems, day, history, txns) && LegacyItem(r', lookup, poItems, day, earlier, again)
    ensures r'.start == r.start && r'.purchase == r.purchase && r'.reconcile == r.reconcile && r'.dispose == r.dispose
    ensures r'.transfer == r.transfer && r'.end == r.end && r'.byDay == r.byDay && r'.poMap == r.poMap
  {
    SumPermuted(history, earlier, DeltaOf(r.itemID));
    forall t: TxnType
      ensures Amount(txns, r.itemID, t) == Amount(again, r.itemID, t)
    {
      SumPermuted(txns, again, AmountOf(OfType(r.itemID, t)));
    }
    SameDays(r.byDay, r'.byDay, txns, again, OfType(r.itemID, Purchase), day);
    SameOrders(r.poMap, r'.poMap, r.itemID, txns, again, poItems, day);
  }
}

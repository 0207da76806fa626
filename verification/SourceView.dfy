/**
 The report's source view (internal/models/report_builder.go, buildSourceView, sortSourceViewItems): the
 two-level index of consumes by item and source, the rows built from it, and the in-place exchange sort.
 */
module SourceView {
  import opened Basics
  import opened Transactions
  import opened Reports

  type Index = map<nat, map<nat, seq<Txn>>>

  // ----- the index -----

  /** The consumes of a source: same item, countering the source. */
  function ConsumeOf(item: nat, source: nat): Txn -> bool {
    (t: Txn) => t.itemID == item && t.counter == Some(source)
  }

  function LookUp(index: Index, item: nat, source: nat): seq<Txn> {
    if item in index && source in index[item] then index[item][source] else []
  }

  /** Reading the index gives, in order, the consumes that name the item and counter the source. */
  ghost predicate Indexes(index: Index, consumes: seq<Txn>) {
    forall item: nat, source: nat {:trigger LookUp(index, item, source)} ::
      LookUp(index, item, source) == Filter(consumes, ConsumeOf(item, source))
  }

  /** The index with one more consume at the end of its source's list. */
  function Insert(index: Index, c: Txn, source: nat): Index {
    var byItem := if c.itemID in index then index[c.itemID] else map[];
    index[c.itemID := byItem[source := (if source in byItem then byItem[source] else []) + [c]]]
  }

  lemma {:induction false} InsertStep(index: Index, consumes: seq<Txn>, c: Txn)
    requires Indexes(index, consumes)
    ensures Indexes(if c.counter.Some? then Insert(index, c, c.counter.value) else index, consumes + [c])
  {
    forall item: nat, source: nat
      ensures LookUp(if c.counter.Some? then Insert(index, c, c.counter.value) else index, item, source)
           == Filter(consumes + [c], ConsumeOf(item, source))
    {
      FilterSnoc(consumes, c, ConsumeOf(item, source));
      assert LookUp(index, item, source) == Filter(consumes, ConsumeOf(item, source));
    }
  }

  method IndexConsumes(consumes: seq<Txn>) returns (index: Index)
    ensures Indexes(index, consumes)
  {
    index := map[];
    var i := 0;
    while i < |consumes|
      invariant i <= |consumes| && Indexes(index, consumes[..i])
    {
      var c := consumes[i];
      assert consumes[..i + 1] == consumes[..i] + [c];
      InsertStep(index, consumes[..i], c);
      i := i + 1;
      if c.counter == None {
        continue;
      }
      index := Insert(index, c, c.counter.value);
    }
    assert consumes[..i] == consumes;
  }

  // ----- the rows -----

  function RowOf(source: Txn, lookup: map<nat, ItemInfo>, start: real, consumes: seq<Txn>): ReportItem
    requires source.itemID in lookup
  {
    NO_ITEM.(itemID := source.itemID, product := lookup[source.itemID].product, source := Some(source), start := start,
             txns := [source], consumes := consumes)
  }

  /** A row per source whose item is known, in the order of the sources. */
  ghost function RowsOf(
    sources: seq<Txn>, lookup: map<nat, ItemInfo>, history: seq<Txn>, consumes: seq<Txn>)
    : seq<ReportItem>
  {
    if sources == [] then
      []
    else
      var rest, s := RowsOf(sources[..|sources| - 1], lookup, history, consumes), sources[|sources| - 1];
      if s.itemID in lookup then
        rest + [RowOf(s, lookup, SumBy(history, DeltaOf(s.itemID)), Filter(consumes, ConsumeOf(s.itemID, s.id)))]
      else
        rest
  }

  method BuildRows(
    sources: seq<Txn>, lookup: map<nat, ItemInfo>, history: seq<Txn>, consumes: seq<Txn>)
    returns (rows: seq<ReportItem>)
    ensures rows == RowsOf(sources, lookup, history, consumes)
  {
    var start := AggTxnQuantities(history);
    StartQuantities(start, history);
    var index := IndexConsumes(consumes);
    rows := [];
    var i := 0;
    while i < |sources|
      invariant i <= |sources| && rows == RowsOf(sources[..i], lookup, history, consumes)
    {
      var s := sources[i];
      assert sources[..i + 1][..i] == sources[..i];
      if s.itemID in lookup {
        var details := [];
        if s.itemID in index {
          if s.id in index[s.itemID] {
            details := index[s.itemID][s.id];
          }
        }
        assert details == LookUp(index, s.itemID, s.id);
        rows := rows + [RowOf(s, lookup, if s.itemID in start then start[s.itemID] else 0.0, details)];
      }
      i := i + 1;
    }
    assert sources[..i] == sources;
  }

  /** The row is that of its source, with the consumes of that source in their order. */
  ghost predicate SourceRow(
    r: ReportItem, sources: seq<Txn>, lookup: map<nat, ItemInfo>, history: seq<Txn>, consumes: seq<Txn>) {
    && r.source.Some? && r.source.value in sources && r.itemID == r.source.value.itemID && r.itemID in lookup
    && r.product == lookup[r.itemID].product && r.txns == [r.source.value]
    && r.start == SumBy(history, DeltaOf(r.itemID))
    && r.consumes == Filter(consumes, ConsumeOf(r.itemID, r.source.value.id))
    && NoTotals(r)
  }

  /** No category is totalled in a row of this view. */
  ghost predicate NoTotals(r: ReportItem) {
    && r.purchase == r.reconcile == r.transfer == r.dispose == r.end == 0.0
    && r.byDay == map[] && r.poMap == map[]
  }

  lemma {:induction false} RowsAre(
    sources: seq<Txn>, lookup: map<nat, ItemInfo>, history: seq<Txn>, consumes: seq<Txn>, r: ReportItem)
    requires r in RowsOf(sources, lookup, history, consumes)
    ensures SourceRow(r, sources, lookup, history, consumes)
  {
    var front, s := sources[..|sources| - 1], sources[|sources| - 1];
    assert sources == front + [s];
    if r in RowsOf(front, lookup, history, consumes) {
      RowsAre(front, lookup, history, consumes, r);
    }
  }

  lemma {:induction false} SourceHasRow(
    sources: seq<Txn>, lookup: map<nat, ItemInfo>, history: seq<Txn>, consumes: seq<Txn>, s: Txn)
    requires s in sources && s.itemID in lookup
    ensures exists r :: r in RowsOf(sources, lookup, history, consumes) && r.source == Some(s)
  {
    var front, last := sources[..|sources| - 1], sources[|sources| - 1];
    assert sources == front + [last];
    var rows := RowsOf(sources, lookup, history, consumes);
    if s == last {
      assert rows[|rows| - 1].source == Some(s);
    } else {
      SourceHasRow(front, lookup, history, consumes, s);
    }
  }

  ghost predicate DistinctSources(sources: seq<Txn>) {
    forall i, j :: 0 <= i < j < |sources| ==> sources[i].id != sources[j].id
  }

  /** Rows of sources with distinct ids come from sources with distinct ids. */
  lemma {:induction false} RowsDistinct(
    sources: seq<Txn>, lookup: map<nat, ItemInfo>, history: seq<Txn>, consumes: seq<Txn>)
    requires DistinctSources(sources)
    ensures OneRowEach(RowsOf(sources, lookup, history, consumes))
  {
    if sources != [] {
      var front, s := sources[..|sources| - 1], sources[|sources| - 1];
      RowsDistinct(front, lookup, history, consumes);
      forall r | r in RowsOf(front, lookup, history, consumes)
        ensures r.source.Some? && r.source.value.id != s.id
      {
        RowsAre(front, lookup, history, consumes, r);
        var k :| 0 <= k < |front| && front[k] == r.source.value;
        assert sources[k].id != sources[|sources| - 1].id;
      }
    }
  }

  /** Every row has a source, and no two rows the same. */
  ghost predicate OneRowEach(rows: seq<ReportItem>) {
    && (forall r :: r in rows ==> r.source.Some?)
    && forall i, j :: 0 <= i < j < |rows| ==> rows[i].source.value.id != rows[j].source.value.id
  }

  /** With distinct sources no consume stands on two rows. */
  lemma {:induction false} NoConsumeTwice(
    rows: seq<ReportItem>, sources: seq<Txn>, lookup: map<nat, ItemInfo>, history: seq<Txn>, consumes: seq<Txn>,
    i: nat, j: nat, c: Txn)
    requires OneRowEach(rows) && (forall r :: r in rows ==> SourceRow(r, sources, lookup, history, consumes))
    requires i < |rows| && j < |rows| && c in rows[i].consumes && c in rows[j].consumes
    ensures i == j
  {
    assert rows[i] in rows && rows[j] in rows;
    assert ConsumeOf(rows[i].itemID, rows[i].source.value.id)(c) &&
      ConsumeOf(rows[j].itemID, rows[j].source.value.id)(c);
  }

  // ----- the sort -----

  /** Strings in byte order: the first difference decides, and a prefix comes first. */
  predicate NameLess(a: string, b: string) {
    b != [] && (a == [] || a[0] < b[0] || (a[0] == b[0] && NameLess(a[1..], b[1..])))
  }

  lemma {:induction false} NamesCompare(a: string, b: string)
    ensures (NameLess(a, b) || a == b || NameLess(b, a)) && !(NameLess(a, b) && (a == b || NameLess(b, a)))
  {
    if a != [] && b != [] {
      assert a == [a[0]] + a[1..] && b == [b[0]] + b[1..];
      NamesCompare(a[1..], b[1..]);
    }
  }

  lemma {:induction false} NamesChain(a: string, b: string, c: string)
    requires NameLess(a, b) && NameLess(b, c)
    ensures NameLess(a, c)
  {
    if a != [] && a[0] == b[0] == c[0] {
      NamesChain(a[1..], b[1..], c[1..]);
    }
  }

  function NameOf(r: ReportItem): string {
    if r.product.Some? then r.product.value else ""
  }

  /** Rows by product name. */
  predicate NameAtMost(x: ReportItem, y: ReportItem) {
    NameOf(x) == NameOf(y) || NameLess(NameOf(x), NameOf(y))
  }

  /** Rows by product name, then source date. */
  predicate RowAtMost(x: ReportItem, y: ReportItem) {
    NameLess(NameOf(x), NameOf(y))
    || (NameOf(x) == NameOf(y) &&
      (x.source.Some? && y.source.Some? ==> x.source.value.createdAt <= y.source.value.createdAt))
  }

  predicate AllDated(rows: seq<ReportItem>) {
    forall r :: r in rows ==> r.source.Some?
  }

  lemma {:induction false} NameAtMostChain(x: ReportItem, y: ReportItem, z: ReportItem)
    requires NameAtMost(x, y) && NameAtMost(y, z)
    ensures NameAtMost(x, z)
  {
    if NameLess(NameOf(x), NameOf(y)) && NameLess(NameOf(y), NameOf(z)) {
      NamesChain(NameOf(x), NameOf(y), NameOf(z));
    }
  }

  lemma {:induction false} RowAtMostChain(x: ReportItem, y: ReportItem, z: ReportItem)
    requires RowAtMost(x, y) && RowAtMost(y, z) && y.source.Some?
    ensures RowAtMost(x, z)
  {
    if NameLess(NameOf(x), NameOf(y)) && NameLess(NameOf(y), NameOf(z)) {
      NamesChain(NameOf(x), NameOf(y), NameOf(z));
    }
  }

  /** Whether the exchange sort swaps x, standing before y, with y. */
  predicate Swaps(x: ReportItem, y: ReportItem) {
    if NameOf(x) != NameOf(y) then NameLess(NameOf(y), NameOf(x))
    else x.source.Some? && y.source.Some? && x.source.value.createdAt > y.source.value.createdAt
  }

  lemma {:induction false} SwapsWhenOutOfOrder(x: ReportItem, y: ReportItem)
    ensures Swaps(x, y) <==> !RowAtMost(x, y)
    ensures Swaps(x, y) ==> RowAtMost(y, x) && NameAtMost(y, x)
    ensures !Swaps(x, y) ==> NameAtMost(x, y)
  {
    NamesCompare(NameOf(x), NameOf(y));
  }

  ghost predicate LeadsNames(rows: seq<ReportItem>, i: nat, n: nat)
    requires i < n <= |rows|
  {
    forall k :: i < k < n ==> NameAtMost(rows[i], rows[k])
  }

  ghost predicate Leads(rows: seq<ReportItem>, i: nat, n: nat)
    requires i < n <= |rows|
  {
    forall k :: i < k < n ==> RowAtMost(rows[i], rows[k])
  }

  /** Comparing and perhaps swapping with row j keeps the leading row at most all rows it was compared with. */
  lemma {:induction false} LeadStep(rows: seq<ReportItem>, i: nat, j: nat)
    requires i < j < |rows| && LeadsNames(rows, i, j) && (AllDated(rows) ==> Leads(rows, i, j))
    ensures var after := if Swaps(rows[i], rows[j]) then rows[i := rows[j]][j := rows[i]] else rows;
            LeadsNames(after, i, j + 1) && (AllDated(rows) ==> Leads(after, i, j + 1))
  {
    SwapsWhenOutOfOrder(rows[i], rows[j]);
    if Swaps(rows[i], rows[j]) {
      forall k | i < k < j
        ensures NameAtMost(rows[j], rows[k])
        ensures AllDated(rows) ==> RowAtMost(rows[j], rows[k])
      {
        NameAtMostChain(rows[j], rows[i], rows[k]);
        if AllDated(rows) {
          RowAtMostChain(rows[j], rows[i], rows[k]);
        }
      }
    }
  }

  lemma {:induction false} SwapPermutes(rows: seq<ReportItem>, i: nat, j: nat)
    requires i < j < |rows|
    ensures multiset(rows[i := rows[j]][j := rows[i]]) == multiset(rows)
  {
  }

  lemma {:induction false} SameDated(rows: seq<ReportItem>, again: seq<ReportItem>)
    requires multiset(rows) == multiset(again)
    ensures AllDated(rows) <==> AllDated(again)
  {
    forall r
      ensures r in rows <==> r in again
    {
      assert r in multiset(rows) <==> r in multiset(again);
    }
  }

  /** The inner loop: row i is exchanged with every later row it is out of order with. */
  method ExchangeFrom(a: array<ReportItem>, i: nat)
    requires i < a.Length
    modifies a
    ensures a[..i] == old(a[..i]) && multiset(a[..]) == multiset(old(a[..]))
    ensures LeadsNames(a[..], i, a.Length) && (AllDated(a[..]) ==> Leads(a[..], i, a.Length))
  {
    var j := i + 1;
    while j < a.Length
      invariant i < j <= a.Length
      invariant a[..i] == old(a[..i]) && multiset(a[..]) == multiset(old(a[..]))
      invariant LeadsNames(a[..], i, j) && (AllDated(a[..]) ==> Leads(a[..], i, j))
    {
      ghost var rows := a[..];
      LeadStep(rows, i, j);
      if Swaps(a[i], a[j]) {
        a[i], a[j] := a[j], a[i];
        assert a[..] == rows[i := rows[j]][j := rows[i]];
        SwapPermutes(rows, i, j);
        SameDated(rows, a[..]);
      }
      j := j + 1;
    }
  }

  /** The first n rows are at most every row from themselves on. */
  ghost predicate NamesSorted(rows: seq<ReportItem>, n: nat)
    requires n <= |rows|
  {
    forall p, q :: 0 <= p < n && p < q < |rows| ==> NameAtMost(rows[p], rows[q])
  }

  ghost predicate RowsSorted(rows: seq<ReportItem>, n: nat)
    requires n <= |rows|
  {
    forall p, q :: 0 <= p < n && p < q < |rows| ==> RowAtMost(rows[p], rows[q])
  }

  lemma {:induction false} TailPermuted(rows: seq<ReportItem>, after: seq<ReportItem>, i: nat)
    requires i <= |rows| == |after| && after[..i] == rows[..i] && multiset(after) == multiset(rows)
    ensures multiset(rows[i..]) == multiset(after[i..])
  {
    assert rows == rows[..i] + rows[i..] && after == after[..i] + after[i..];
    assert multiset(rows) == multiset(rows[..i]) + multiset(rows[i..]);
    assert multiset(after) == multiset(rows[..i]) + multiset(after[i..]);
    assert multiset(rows[i..]) == multiset(rows) - multiset(rows[..i]);
    assert multiset(after[i..]) == multiset(after) - multiset(rows[..i]);
  }

  /** Where a row behind row p of the permuted rows stood before. */
  lemma {:induction false} StoodBehind(
    rows: seq<ReportItem>, after: seq<ReportItem>, i: nat, p: nat, q: nat)
    returns (k: nat)
    requires p < i <= |rows| == |after| && after[..i] == rows[..i] && multiset(after) == multiset(rows) &&
             p < q < |after|
    ensures after[p] == rows[p] && p < k < |rows| && rows[k] == after[q]
  {
    assert after[..i][p] == rows[..i][p];
    if q < i {
      assert after[..i][q] == rows[..i][q];
      k := q;
    } else {
      TailPermuted(rows, after, i);
      assert after[i..][q - i] in multiset(after[i..]);
      var d :| 0 <= d < |rows[i..]| && rows[i..][d] == after[q];
      k := i + d;
    }
  }

  /** Permuting the rows from i on keeps the order of the first i, and a row that leads the rest extends it. */
  lemma {:induction false} NamesStep(rows: seq<ReportItem>, after: seq<ReportItem>, i: nat)
    requires i < |rows| == |after| && after[..i] == rows[..i] && multiset(after) == multiset(rows)
    requires NamesSorted(rows, i) && LeadsNames(after, i, |after|)
    ensures NamesSorted(after, i + 1)
  {
    forall p, q | 0 <= p < i && p < q < |after|
      ensures NameAtMost(after[p], after[q])
    {
      var k := StoodBehind(rows, after, i, p, q);
    }
  }

  lemma {:induction false} RowsStep(rows: seq<ReportItem>, after: seq<ReportItem>, i: nat)
    requires i < |rows| == |after| && after[..i] == rows[..i] && multiset(after) == multiset(rows)
    requires RowsSorted(rows, i) && Leads(after, i, |after|)
    ensures RowsSorted(after, i + 1)
  {
    forall p, q | 0 <= p < i && p < q < |after|
      ensures RowAtMost(after[p], after[q])
    {
      var k := StoodBehind(rows, after, i, p, q);
    }
  }

  /**
   The exchange sort permutes the rows and orders them by product name, a missing product counting as
   the empty name; when every row has a source, rows of one name are in order of their source's date.
   */
  method SortRows(a: array<ReportItem>)
    modifies a
    ensures multiset(a[..]) == multiset(old(a[..]))
    ensures NamesSorted(a[..], a.Length)
    ensures AllDated(a[..]) ==> RowsSorted(a[..], a.Length)
  {
    var i := 0;
    while i < a.Length
      invariant i <= a.Length && multiset(a[..]) == multiset(old(a[..]))
      invariant NamesSorted(a[..], i) && (AllDated(a[..]) ==> RowsSorted(a[..], i))
    {
      ghost var rows := a[..];
      ExchangeFrom(a, i);
      assert a[..][..i] == a[..i] && rows[..i] == a[..i];
      SameDated(rows, a[..]);
      NamesStep(rows, a[..], i);
      if AllDated(a[..]) {
        RowsStep(rows, a[..], i);
      }
      i := i + 1;
    }
  }

  // ----- the view -----

  /** A row per known source, in order of product name and source date. */
  ghost predicate SortedView(
    items: seq<ReportItem>, sources: seq<Txn>, lookup: map<nat, ItemInfo>, history: seq<Txn>, consumes: seq<Txn>) {
    && multiset(items) == multiset(RowsOf(sources, lookup, history, consumes))
    && RowsSorted(items, |items|)
  }

  method BuildSourceView(
    sources: seq<Txn>, lookup: map<nat, ItemInfo>, history: seq<Txn>, consumes: seq<Txn>)
    returns (items: seq<ReportItem>)
    ensures SortedView(items, sources, lookup, history, consumes)
  {
    var rows := BuildRows(sources, lookup, history, consumes);
    var a := new ReportItem[|rows|](i requires 0 <= i < |rows| => rows[i]);
    assert a[..] == rows;
    SortRows(a);
    items := a[..];
    RowsDated(sources, lookup, history, consumes);
    SameDated(rows, items);
  }

  lemma {:induction false} RowsDated(
    sources: seq<Txn>, lookup: map<nat, ItemInfo>, history: seq<Txn>, consumes: seq<Txn>)
    ensures AllDated(RowsOf(sources, lookup, history, consumes))
  {
    forall r | r in RowsOf(sources, lookup, history, consumes)
      ensures r.source.Some?
    {
      RowsAre(sources, lookup, history, consumes, r);
    }
  }

  lemma {:induction false} OneRowEachPermuted(rows: seq<ReportItem>, items: seq<ReportItem>)
    requires OneRowEach(rows) && multiset(items) == multiset(rows)
    ensures OneRowEach(items)
  {
    SameDated(rows, items);
    forall i, j | 0 <= i < j < |items|
      ensures items[i].source.value.id != items[j].source.value.id
    {
      var a, b := TwoPlaces(rows, items, i, j);
    }
  }

  lemma {:induction false} Without(rows: seq<ReportItem>, i: nat)
    requires i < |rows|
    ensures multiset(rows[..i] + rows[i + 1..]) == multiset(rows) - multiset{rows[i]}
  {
    assert rows == rows[..i] + [rows[i]] + rows[i + 1..];
  }

  lemma {:induction false} Elsewhere(rows: seq<ReportItem>, a: nat, x: ReportItem) returns (b: nat)
    requires a < |rows| && x in rows[..a] + rows[a + 1..]
    ensures b < |rows| && b != a && rows[b] == x
  {
    var rest := rows[..a] + rows[a + 1..];
    var c :| 0 <= c < |rest| && rest[c] == x;
    b := if c < a then c else c + 1;
  }

  /** Two places of the one sequence correspond to two places of its permutation. */
  lemma {:induction false} TwoPlaces(
    rows: seq<ReportItem>, items: seq<ReportItem>, i: nat, j: nat)
    returns (a: nat, b: nat)
    requires i < j < |items| && multiset(items) == multiset(rows)
    ensures a < |rows| && b < |rows| && a != b && rows[a] == items[i] && rows[b] == items[j]
  {
    assert items[i] in multiset(rows);
    a :| 0 <= a < |rows| && rows[a] == items[i];
    Without(rows, a);
    Without(items, i);
    var others := items[..i] + items[i + 1..];
    assert others[j - 1] in multiset(others);
    b := Elsewhere(rows, a, items[j]);
  }

  /**
   Each row of the view carries, in their order, exactly the consumes of its source; every known source
   has a row; and when the sources have distinct ids no consume stands on two rows.
   */
  lemma {:induction false} ViewIsIndexed(
    items: seq<ReportItem>, sources: seq<Txn>, lookup: map<nat, ItemInfo>, history: seq<Txn>, consumes: seq<Txn>)
    requires SortedView(items, sources, lookup, history, consumes)
    ensures forall r :: r in items ==> SourceRow(r, sources, lookup, history, consumes)
    ensures forall s :: s in sources && s.itemID in lookup ==> exists r :: r in items && r.source == Some(s)
    ensures DistinctSources(sources) ==>
              forall i, j, c ::
                0 <= i < |items| && 0 <= j < |items| && c in items[i].consumes && c in items[j].consumes ==> i == j
  {
    var rows := RowsOf(sources, lookup, history, consumes);
    SameRows(items, rows);
    forall r | r in items
      ensures SourceRow(r, sources, lookup, history, consumes)
    {
      RowsAre(sources, lookup, history, consumes, r);
    }
    forall s | s in sources && s.itemID in lookup
      ensures exists r :: r in items && r.source == Some(s)
    {
      SourceHasRow(sources, lookup, history, consumes, s);
    }
    if DistinctSources(sources) {
      RowsDistinct(sources, lookup, history, consumes);
      OneRowEachPermuted(rows, items);
      forall i, j, c | 0 <= i < |items| && 0 <= j < |items| && c in items[i].consumes && c in items[j].consumes
        ensures i == j
      {
        NoConsumeTwice(items, sources, lookup, history, consumes, i, j, c);
      }
    }
  }

  // ----- the order of the rows -----

  /** The strings agree before place k, where the one ends or has the smaller character. */
  ghost predicate FallsShort(a: string, b: string, k: nat) {
    && k <= |a| && k < |b| && (forall m :: 0 <= m < k ==> a[m] == b[m]) && (k == |a| || a[k] < b[k])
  }

  lemma {:induction false} LessWhereItDiffers(a: string, b: string)
    ensures NameLess(a, b) <==> exists k: nat :: FallsShort(a, b, k)
  {
    if a != [] && b != [] && a[0] == b[0] {
      LessWhereItDiffers(a[1..], b[1..]);
      if k: nat :| FallsShort(a[1..], b[1..], k) {
        assert forall m :: 0 < m < k + 1 ==> a[m] == a[1..][m - 1] && b[m] == b[1..][m - 1];
        assert FallsShort(a, b, k + 1);
      }
      if k: nat :| FallsShort(a, b, k) {
        assert FallsShort(a[1..], b[1..], k - 1);
      }
    } else if NameLess(a, b) {
      assert FallsShort(a, b, 0);
    }
  }

  /** Of two rows the earlier has the smaller product name, or the same name and no later a source. */
  lemma {:induction false} ViewInOrder(
    items: seq<ReportItem>, sources: seq<Txn>, lookup: map<nat, ItemInfo>, history: seq<Txn>, consumes: seq<Txn>,
    i: nat, j: nat)
    requires SortedView(items, sources, lookup, history, consumes) && i < j < |items|
    ensures var x, y := items[i], items[j];
            var a := if x.product.Some? then x.product.value else "";
            var b := if y.product.Some? then y.product.value else "";
            && x.source.Some? && y.source.Some?
            && ((exists k: nat :: FallsShort(a, b, k))
                || (a == b && x.source.value.createdAt <= y.source.value.createdAt))
  {
    OneRowPerSource(items, sources, lookup, history, consumes);
    assert items[i] in items && items[j] in items;
    LessWhereItDiffers(NameOf(items[i]), NameOf(items[j]));
  }

  // ----- one row per source -----

  function KnownItem(lookup: map<nat, ItemInfo>): Txn -> bool {
    (t: Txn) => t.itemID in lookup
  }

  /** The sources of rows that all have one. */
  function SourcesOf(rows: seq<ReportItem>): (r: seq<Txn>)
    requires AllDated(rows)
    ensures |r| == |rows|
  {
    seq(|rows|, i requires 0 <= i < |rows| => rows[i].source.value)
  }

  lemma {:induction false} SourcesOfRows(
    sources: seq<Txn>, lookup: map<nat, ItemInfo>, history: seq<Txn>, consumes: seq<Txn>)
    ensures AllDated(RowsOf(sources, lookup, history, consumes))
    ensures SourcesOf(RowsOf(sources, lookup, history, consumes)) == Filter(sources, KnownItem(lookup))
  {
    RowsDated(sources, lookup, history, consumes);
    if sources != [] {
      var front := sources[..|sources| - 1];
      SourcesOfRows(front, lookup, history, consumes);
      var rows, before := RowsOf(sources, lookup, history, consumes), RowsOf(front, lookup, history, consumes);
      if rows != before {
        assert rows[..|before|] == before;
        assert SourcesOf(rows) == SourcesOf(before) + [sources[|sources| - 1]];
      }
    }
  }

  lemma {:induction false} SourcesPermuted(a: seq<ReportItem>, b: seq<ReportItem>)
    requires multiset(a) == multiset(b) && AllDated(a)
    ensures AllDated(b)
    ensures multiset(SourcesOf(a)) == multiset(SourcesOf(b))
  {
    SameRows(a, b);
    if a != [] {
      var last, front := a[|a| - 1], a[..|a| - 1];
      var i := TakeOut(a, b);
      var rest := b[..i] + b[i + 1..];
      SameRows(front, rest);
      SourcesPermuted(front, rest);
      assert SourcesOf(a) == SourcesOf(front) + [last.source.value];
      assert SourcesOf(b) == SourcesOf(b[..i]) + [last.source.value] + SourcesOf(b[i + 1..]);
      assert SourcesOf(rest) == SourcesOf(b[..i]) + SourcesOf(b[i + 1..]);
    } else {
      assert |b| == |multiset(b)| == 0;
    }
  }

  /** The rows' sources are the known sources, each as often as it is given. */
  lemma {:induction false} OneRowPerSource(
    items: seq<ReportItem>, sources: seq<Txn>, lookup: map<nat, ItemInfo>, history: seq<Txn>, consumes: seq<Txn>)
    requires SortedView(items, sources, lookup, history, consumes)
    ensures AllDated(items)
    ensures multiset(SourcesOf(items)) == multiset(Filter(sources, KnownItem(lookup)))
  {
    SourcesOfRows(sources, lookup, history, consumes);
    SourcesPermuted(RowsOf(sources, lookup, history, consumes), items);
  }

  lemma {:induction false} SameRows(items: seq<ReportItem>, rows: seq<ReportItem>)
    requires multiset(items) == multiset(rows)
    ensures forall r :: r in items <==> r in rows
  {
    forall r
      ensures r in items <==> r in rows
    {
      assert r in multiset(items) <==> r in multiset(rows);
    }
  }
}

/**
 The report builder object: fields set by chained setters, then one of the two views
 (internal/models/report_builder.go, Build).
 */
module ReportBuilder {
  import opened Basics
  import opened Transactions
  import opened Reports
  import opened SourceView

  datatype BuildError = NoInventory | NoTransactions

  datatype OutputError = NotBuilt

  /** What a report is built from. */
  datatype Inputs = Inputs(
    txns: seq<Txn>, consumes: seq<Txn>, sources: seq<Txn>, history: seq<Txn>,
    lookup: map<nat, ItemInfo>, poItems: map<nat, PoItem>)

  /** The source view when there are sources, the category totals when not. */
  ghost predicate ViewOf(items: seq<ReportItem>, inputs: Inputs, day: Calendar) {
    if inputs.sources != [] then
      SortedView(items, inputs.sources, inputs.lookup, inputs.history, inputs.consumes)
    else
      LegacyView(items, inputs.lookup, inputs.poItems, day, inputs.history, inputs.txns)
  }

  class TxnReportBuilder {
    const hasInventory: bool
    const day: Calendar
    var txns: seq<Txn>
    var consumeTxns: seq<Txn>
    var sourceTxns: seq<Txn>
    var historicalTxns: seq<Txn>
    var itemLookup: map<nat, ItemInfo>
    var poItemLookup: map<nat, PoItem>
    var items: seq<ReportItem>
    var isBuilt: bool
    /** What the last successful build was made from. */
    ghost var shown: Option<Inputs>

    ghost predicate Valid()
      reads this
    {
      (isBuilt <==> shown.Some?) && (shown.Some? ==> ViewOf(items, shown.value, day))
    }

    ghost function Loaded(): Inputs
      reads this
    {
      Inputs(txns, consumeTxns, sourceTxns, historicalTxns, itemLookup, poItemLookup)
    }

    constructor (hasInventory: bool, day: Calendar)
      ensures Valid() && shown == None && this.hasInventory == hasInventory && this.day == day
      ensures Loaded() == Inputs([], [], [], [], map[], map[])
    {
      this.hasInventory, this.day := hasInventory, day;
      txns, consumeTxns, sourceTxns, historicalTxns := [], [], [], [];
      itemLookup, poItemLookup, items, isBuilt, shown := map[], map[], [], false, None;
    }

    method SetTxns(txns: seq<Txn>)
      requires Valid()
      modifies this`txns
      ensures Valid() && Loaded() == old(Loaded()).(txns := txns)
    {
      this.txns := txns;
    }

    method SetConsumeTxns(txns: seq<Txn>)
      requires Valid()
      modifies this`consumeTxns
      ensures Valid() && Loaded() == old(Loaded()).(consumes := txns)
    {
      consumeTxns := txns;
    }

    method SetSourceTxns(txns: seq<Txn>)
      requires Valid()
      modifies this`sourceTxns
      ensures Valid() && Loaded() == old(Loaded()).(sources := txns)
    {
      sourceTxns := txns;
    }

    method SetHistoricalTxns(txns: seq<Txn>)
      requires Valid()
      modifies this`historicalTxns
      ensures Valid() && Loaded() == old(Loaded()).(history := txns)
    {
      historicalTxns := txns;
    }

    method SetLookups(lookup: map<nat, ItemInfo>, poLookup: map<nat, PoItem>)
      requires Valid()
      modifies this`itemLookup, this`poItemLookup
      ensures Valid() && Loaded() == old(Loaded()).(lookup := lookup, poItems := poLookup)
    {
      itemLookup, poItemLookup := lookup, poLookup;
    }

    /** Builds the report from what is loaded, or leaves the last one as it was when the builder is not ready. */
    method Build() returns (error: Option<BuildError>)
      requires Valid()
      modifies this`items, this`isBuilt, this`shown
      ensures Valid()
      ensures error == if !hasInventory then Some(NoInventory) else if txns == [] then Some(NoTransactions) else None
      ensures error == None ==> shown == Some(Loaded())
      ensures error.Some? ==> items == old(items) && isBuilt == old(isBuilt) && shown == old(shown)
    {
      if !hasInventory {
        return Some(NoInventory);
      }
      if |txns| == 0 {
        return Some(NoTransactions);
      }
      if |sourceTxns| > 0 {
        var view := BuildSourceView(sourceTxns, itemLookup, historicalTxns, consumeTxns);
        items, isBuilt := view, true;
      } else {
        var view := BuildLegacyView(txns, historicalTxns, itemLookup, poItemLookup, day);
        items, isBuilt := view, true;
      }
      shown := Some(Loaded());
      return None;
    }

    /** The view of what the last successful build was made from; an error as long as there was none. */
    method GetOutput() returns (r: Result<seq<ReportItem>, OutputError>)
      requires Valid()
      ensures r.Ok? <==> shown.Some?
      ensures r.Ok? ==> ViewOf(r.value, shown.value, day)
    {
      return if isBuilt then Ok(items) else Err(NotBuilt);
    }
  }
}

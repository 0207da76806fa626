# Stock reconciliation, proved

A Dafny model of the one-off stock reconciliation tool of the inventory backend, and of the stock views it has to keep in agreement. It covers:

- the resolver of one item (`cmd/util/reconcile.go`, `resolveItem`): half-open windows between stock counts, backward correction of the counts, shrinkage at each count, time-ordered events, and FIFO consumption of the stock layers with one shared cursor;
- the plan over all items and the transaction that applies it (`computeResolution`, `applyResolution`, `correctedPayload`, `loadSubmissions`);
- the planner of a single dispose, a second FIFO walk with a guard on dates (`cmd/util/dispose.go`);
- the views of stock in `internal/models`: signed quantities, the ledger check, the two report views with the in-place exchange sort, and the base-unit hierarchy.

Loops over arrays and maps are methods with loops over arrays and maps, each proved equal to a closed form; the results about the system are lemmas about the closed forms. The tables of the database are the fields of the class `Database.Database`.

## How it is laid out

| module | content |
|---|---|
| Basics, Plans | sums, filters, the stable sort, plan data |
| Fifo, FifoLaws | consumption of events from layers: the loop, its closed form as overlap of intervals, what it means |
| Windows, Propagation | windows between counts, the backward correction |
| Resolver, ResolverLaws, StepLaws, Outflows | one item: the resolver, when it succeeds, what it reports of each count, what it takes out by kind and date |
| Causality, OwnDates, Rerun | one item: what its transactions draw on and by which date, running it again |
| Submissions, Planner, PlannerLaws | all items: the plan and the fate of each submission |
| PlanInputs, PlanOutflows, PlanReports | from the submissions' lines to the resolver, what a plan takes out for them, what it reports and corrects |
| PlannedItems, PlanSuccess | what a whole plan draws on and leaves, exactly when there is one |
| PlannerRerun, PlanRepeats, RerunDrift | planning again |
| Disposal, DisposeLaws, Deltas | the planner of one dispose, what it takes out and previews; the order and the previewed consumption of either plan |
| Transactions, Ledgers, Bookings, Settlement | the views of stock, the tables row by row, why a plan keeps the views in agreement |
| Store, StoreLaws, Clones, ResolveRuns, CommandLaws, Database | submissions and ledger together, whole runs, when a command goes through and what it leaves, the object that is updated in place |
| Refusals, PlanRefusals, StoreRefusals | why planners, loading and applying refuse: the first thing that is wrong |
| Reports, SourceView, ReportBuilder | the report views |
| Units | the base-unit hierarchy |

## What the proofs found

- **One guard does it all.** The check of the first corrected count against the start stock holds exactly when every single count, together with what was disposed of by its date, is at most what was received by its date (`ResolverLaws.GuardMeansAttainable`). The "negative drop" and "did not map" errors of `resolveItem` cannot occur at all: they are dead branches in the methods. The "ledger exhausted" error cannot occur for an item with at least one count, non-negative counts and an unconsumed ledger (`ResolverLaws.NeverInsufficient`); a lone disposal of an item without counts meets it exactly when the layers do not cover it (`Disposal.ResolverIgnoresDates`).
- **A disposal may be dated before its source.** Where no count is negative, sells never draw on stock that arrived after their own date, and disposals never on stock that arrived after the count that closes their window; but inside the window a disposal may come first (`OwnDates.DisposalMayPredateItsSource`). The single-dispose planner refuses such a disposal, the resolver does not.
- **With a negative count a sell may predate its source too.** Nothing in `parseSub`, `computeResolution` or `resolveItem` refuses a negative count, and `CreateReconcileSubmission` accepts one; a first count of -5 then sells stock that arrives later (`OwnDates.SellMayPredateItsSource`). The exact condition, over the counts, disposes and layers that go in and whatever the signs of the counts, is `OwnDates.OwnDateExactlyWhen`: at the date of every count and of every positive disposal that takes part, some count from the last one by then on must leave room for itself in what had been received. `PlannedItems.PlanOwnDateExactlyWhen` says the same of a whole plan, where the check for consumed layers supplies the unconsumed ledger.
- **An id given twice passes the preview and fails the apply**, because the preview removes duplicates and the apply compares counts of rows (`StoreLaws.PreviewedPlanApplies`; `ResolveRuns.RequestedTwiceIsRefused` is an example).
- **Duplicate lines break idempotence.** Corrections are looked up per submission and item, so with two lines for one item the rewrite of one overwrites the other, and running again gives another final stock (`RerunDrift.DuplicateLinesDrift`). Planning again repeats the plan if and only if, for every previewed count of a submission with a correction for the item, the last such correction is the quantity the preview shows for that count (`PlanRepeats.RepeatsExactlyWhen`); without duplicate lines this always holds (`PlanRepeats.PlanAgain`), and with them it holds when the lines are all corrected to one value or not at all.
- **The ledger check is stricter than the equality it checks.** Of two equal numbers it rejects exactly an item at zero that lists layers (`Transactions.RejectedThoughEqual`), such as one used-up purchase (`Transactions.UsedUpLayerIsRefused`). Its callers never get there: `populateConsumableTransactions` in `internal/repository/inventory_item.go` loads only layers with stock left, and over those the check is the equality (`Transactions.ActiveLayersDecide`).
- **Two unit functions disagree above a chain that is not loaded to its root**: the recursive total counts the factor of the topmost loaded unit, the walk does not (`Units.TotalAgainstWalk`; 12 against 1 in `Units.UnloadedBaseSplitsFactors`).
- **Where code and runbook differ** (`cmd/util/RECONCILE_46_RUNBOOK.md`), the model follows the code: a sell is dated at its own count, so shrinkage moves to an earlier count only where that count was corrected upwards; and a dispose after the last count of all its items stays pending rather than being approved.

## Assumptions

Layers come in order of creation time and id, with distinct ids, as the load query returns them. Layer quantities and consumed quantities are not negative and no layer is consumed beyond its quantity (`Ledgers.Sound`, shown to be kept, and handed to the planner by `Ledgers.LoadedItemsAreGood`). Plans are applied to the state they were computed from. Decimals and unit factors are exact reals, instants are integers, prices are copied and otherwise opaque.

## Model

| member | source | states |
|---|---|---|
| Fifo.ShareOfTotal | cmd/util/reconcile.go:627-674 | layer i gives a total demand the smaller of what it has left and what the older layers could not give |
| Fifo.OldestFirst | cmd/util/reconcile.go:639-641 | no layer is touched while an older one still has stock |
| Fifo.ShareSplits | cmd/util/reconcile.go:636-674 | what a layer gives depends only on the total demanded, however it is split into events |
| Fifo.SkipExhausted | cmd/util/reconcile.go:639-641 | the cursor stops at the first layer with stock left and keeps the books |
| Fifo.DrawOnce | cmd/util/reconcile.go:651-672 | one draw takes the smaller of need and rest, and extends the event's transactions of the closed form by one |
| Fifo.ServeEvent | cmd/util/reconcile.go:637-673 | an event is served exactly when the total fits the capacity, else the missing quantity is reported; termination and the bound on transactions by used-up layers |
| Fifo.ConsumeFifo | cmd/util/reconcile.go:627-674 | the double loop over events and layers is the closed form, success or shortage, with at most one transaction per event and layer together |
| FifoLaws.EventCovered | cmd/util/reconcile.go:637-673 | the transactions of one event add up to the part of it that the stock covers |
| FifoLaws.DemandCovered | cmd/util/reconcile.go:636-674 | all transactions together add up to all that was demanded |
| FifoLaws.EventDrawn | cmd/util/reconcile.go:651-671 | an event's transactions against a layer add up to that layer's share of the event |
| FifoLaws.LayerDrawn | cmd/util/reconcile.go:670-671 | all transactions against a layer add up to its share of the total, whatever the events and their order |
| FifoLaws.ReachesOnly | cmd/util/reconcile.go:635-641 | an event reaches only layers created by T if and only if the demand up to it fits the stock of T |
| FifoLaws.EventDrawsOnStockOf | cmd/util/reconcile.go:655-662 | the same for its transactions and the price copied from the source |
| Windows.RangeIndexFor | cmd/util/reconcile.go:682-689 | finds the window of an instant, or -1 exactly when it is in none |
| Windows.WindowsPartition | cmd/util/reconcile.go:679-689 | an instant is after the first and up to the last count if and only if it is in a window, and never in two, ties included |
| Windows.SumReceived | cmd/util/reconcile.go:519-533 | the loop over layers gives the stock received per window; the unmapped branch is dead |
| Windows.SumDisposed | cmd/util/reconcile.go:537-553 | the loop over disposes gives the quantity per window or the first dispose not after the first count |
| Propagation.PeakIsMaximum | cmd/util/reconcile.go:561-570 | the closed form is the largest later count carried back |
| Propagation.CorrectedIsLeast | cmd/util/reconcile.go:561-570 | the corrected counts obey the window rule, lie on or above the counted ones, and are the least such vector |
| Propagation.LastCountStands | cmd/util/reconcile.go:564-570 | the last count never changes |
| Propagation.CorrectedMeansZeroDrop | cmd/util/reconcile.go:566-568 | after a corrected count there is no drop at the next one |
| Propagation.CorrectedIsFixed | cmd/util/reconcile.go:564-570 | propagating the corrected counts again changes nothing |
| Propagation.Propagate | cmd/util/reconcile.go:555-570 | the in-place backward loop computes the closed form and flags exactly the counts it changed |
| Resolver.CheckDisposes | cmd/util/reconcile.go:468-475 | finds the first dispose with a negative quantity |
| Resolver.KeepDisposes | cmd/util/reconcile.go:499-509 | keeps the disposes up to the last count and lists the submissions of the others |
| Resolver.BuildSteps | cmd/util/reconcile.go:583-604 | one step per count with stock before, drop and correction flag; the negative drop branch is dead |
| Resolver.BuildEvents | cmd/util/reconcile.go:614-625 | positive drops and positive disposes in a stable order of time |
| Resolver.ResolveItem | cmd/util/reconcile.go:450-677 | the whole function, every error included, is the closed form `Resolve` |
| StepLaws.StepsReportCounts | cmd/util/reconcile.go:555-604 | over counts, disposes and layers: every step reports its count, the stock before it (what had been received by the first count, else the corrected count before with what came in and went out since), the drop between the two, and the corrected quantity, which is the most that it or a later count requires |
| StepLaws.StartStockIsReceived | cmd/util/reconcile.go:511-517 | the start stock is what had been received by the first count, none without counts |
| StepLaws.IgnoredInOrder | cmd/util/reconcile.go:497-509 | the ignored ids are those of the disposes after the last count, one each, in order |
| Outflows.SellsAreDropsAndDisposalsRequests | cmd/util/reconcile.go:607-674 | by every date the sells add up to the drops and the disposals to the requests in scope, each list of its own kind and of the item |
| Outflows.EventsInOrder | cmd/util/reconcile.go:614-625 | events go by date, at one instant a sell never behind a disposal |
| Outflows.EarlierDrawsOlder | cmd/util/reconcile.go:627-674 | of two transactions of an item the earlier never draws on a younger layer than the later |
| ResolverLaws.NetTelescopes | cmd/util/reconcile.go:519-553 | windows telescope: net inflow up to count k is stock received less disposals, both by its date |
| ResolverLaws.WindowsHoldEverything | cmd/util/reconcile.go:511-553 | start stock plus all that the windows received is the stock in scope, and all that the windows disposed of is the disposes in scope |
| ResolverLaws.GuardMeansAttainable | cmd/util/reconcile.go:572-577 | the guard on the first count holds if and only if every count is attainable from the stock received by its date |
| ResolverLaws.DropsTelescope | cmd/util/reconcile.go:579-604 | the drops up to a count add up to stock received less disposals less that corrected count |
| ResolverLaws.DropsNonNegative | cmd/util/reconcile.go:589-594 | past the guard no drop is negative |
| ResolverLaws.OutflowByCount | cmd/util/reconcile.go:579-625 | all that leaves by a count is the stock received by then less the corrected count |
| ResolverLaws.TotalOutflow | cmd/util/reconcile.go:579-625 | all that leaves is the stock in scope less the last count |
| ResolverLaws.GuardMeansSufficient | cmd/util/reconcile.go:572-577 | past the guard, on an unconsumed ledger, the layers cover all events if and only if the last count is not negative |
| ResolverLaws.ResolvesExactlyWhen | cmd/util/reconcile.go:464-677 | for an item with counts and an unconsumed ledger: resolved if and only if the disposes are not negative and come after the first count, the counts are attainable, and the last one is not negative |
| ResolverLaws.UncountedResolvesExactlyWhen | cmd/util/reconcile.go:464-677 | an item without counts resolves if and only if no dispose is negative and all the stock together covers them |
| Refusals.RefusedItem | cmd/util/reconcile.go:464-677 | an error of the resolver names the first thing wrong: the first negative dispose, the first dispose not after the first count, the first count's corrected quantity above the start stock, the first event that the layers do not cover |
| ResolverLaws.NeverInsufficient | cmd/util/reconcile.go:638-650 | with non-negative counts the exhausted-ledger error never occurs |
| Causality.CausalExactlyWhen | cmd/util/reconcile.go:627-674 | everything dated by a count draws on layers created by that count, for all counts, if and only if no corrected count is negative |
| Causality.SellsAndDisposalsAreCausal | cmd/util/reconcile.go:607-674 | every sell draws on a layer created by its own date, every disposal on one created by the count that closes its window |
| OwnDates.DueFits | cmd/util/reconcile.go:579-625 | what the resolver makes leave by an instant fits the stock of that instant if and only if some count from the last one by then on leaves room for it |
| OwnDates.OwnDateExactlyWhen | cmd/util/reconcile.go:484-674 | over counts of any sign, disposes and layers alone: every transaction draws on layers created by its own date if and only if the stock was there at every count and for every positive disposal that takes part, that is, a count not before that date leaves room in what was received by it; without counts, if the disposals by their dates fit the stock of those dates |
| OwnDates.OwnDateByDisposals | cmd/util/reconcile.go:484-674 | where no count is negative the disposals alone decide |
| OwnDates.SellMayPredateItsSource | cmd/util/reconcile.go:561-625 | a concrete accepted item with a count of -5 and no disposes, whose sell predates its source |
| OwnDates.OutrunByDisposals | cmd/util/reconcile.go:620-674 | if disposals by some date outrun the stock received by then, some transaction predates its source |
| OwnDates.DisposalMayPredateItsSource | cmd/util/reconcile_test.go:464-499 | a concrete accepted item whose disposal predates its source |
| Rerun.OutboundTelescopes | cmd/util/reconcile.go:843-852 | the outbound of an item with counts is the stock received by the last count less that count |
| Rerun.AppliedQuantityIsLastCount | cmd/util/reconcile.go:851-859 | on a consistent ledger the applied quantity is the last count plus what trailing layers still hold, never negative |
| Rerun.RerunIsStable | cmd/util/reconcile.go:564-604 | on its own corrected counts an item gives the same stock, drops, transactions and consumption and corrects nothing |
| Rerun.TrailingIsInert | cmd/util/reconcile.go:484-509 | layers and disposes after the last count change nothing in the result |
| Rerun.IgnoredAreTrailing | cmd/util/reconcile.go:497-509 | the ignored submissions are exactly those with a dispose after the last count |
| Submissions.CollectInputs | cmd/util/reconcile.go:716-762 | items in order of first mention, and per item its counts and disposes in submission order |
| PlanInputs.InputIsLines | cmd/util/reconcile.go:716-762 | of submissions in order of time the resolver gets, for an item, exactly the lines that name it, each once and in order: counts with date, previous and counted quantity from reconciles, requests with date and quantity from disposes |
| PlanInputs.InputHasLines | cmd/util/reconcile.go:716-762 | in whatever order they come, a count or request is in the input if and only if a line of that kind states it |
| Planner.CheckUnconsumed | cmd/util/reconcile.go:780-800 | the first in-scope layer that is already consumed, trailing layers exempt |
| Planner.ListCorrections | cmd/util/reconcile.go:869-891 | a correction per corrected step, with recorded and new previous quantity |
| Planner.ListSteps | cmd/util/reconcile.go:869-907 | the previewed steps of an item: its counts and the disposes that take part, in a stable order of time |
| Planner.TallyItem | cmd/util/reconcile.go:830-930 | what one resolved item adds to the plan: its preview with the step list, corrections, transactions, layer and quantity updates and consumption deltas |
| Planner.ListAppliedAsIs | cmd/util/reconcile.go:953-981 | the submissions applied as they are, or the dispose that is both in scope and trailing |
| Planner.ComputeResolution | cmd/util/reconcile.go:699-984 | the whole plan, step lists and consumption deltas included, with its errors in order, is the closed form `PlanOf` |
| PlanOutflows.PlanDisposals | cmd/util/reconcile.go:802-942 | by every date a plan's disposals of an item add up to what the dispose lines dated by then ask for, up to its last count |
| PlanOutflows.PlanDisposesWhatWasAsked | cmd/util/reconcile.go:802-942 | all of a plan's disposals of an item add up to what the dispose lines that do not trail it ask for |
| PlanOutflows.PlanSells | cmd/util/reconcile.go:802-942 | by the date of every count a plan's sells of an item add up to what was received less what dispose lines asked for less the corrected count |
| PlanReports.PlanCorrectsSteps | cmd/util/reconcile.go:869-891 | a plan's corrections of an item are its corrected steps, one each and in order, with quantity before and after, the stock before the count as new previous quantity, and the one recorded with the submission's first count |
| PlanReports.PlanShowsItems | cmd/util/reconcile.go:843-907 | every item's preview shows start stock, quantity before and after, last count, and a step per count and per request that takes part, field by field |
| PlanReports.PlanListsItems | cmd/util/reconcile.go:802-908 | the preview has one entry per item named, in ascending order |
| PlanReports.PlanAppliesInOrder | cmd/util/reconcile.go:953-981 | the submissions applied as they are stand in the order of the submissions |
| PlanRefusals.RefusedPlan | cmd/util/reconcile.go:699-984 | an error of the planner names the first thing wrong: too few reconciles, the first line whose item is not active, the first item and layer consumed, the smallest item not resolved, the first dispose in conflict with its smallest items |
| PlannerLaws.ItemFate | cmd/util/reconcile.go:832-841 | for one item a dispose takes part if and only if it names the item and does not come after its last count |
| PlannerLaws.ExactlyOneFate | cmd/util/reconcile.go:953-981 | each submission is recreated, applied as it is, or left pending, never two; left pending exactly when it is a dispose in scope for none of its items |
| PlannedItems.CheckedIsUnconsumed | cmd/util/reconcile.go:776-800 | once the check for consumed layers has passed, every item's ledger is unconsumed as far as it takes part, which the laws of one item ask for |
| PlannedItems.PlanTxns | cmd/util/reconcile.go:810-911 | the transactions of a plan are exactly those the resolver made of the items that the submissions name |
| PlannedItems.PlanIsCausal | cmd/util/reconcile.go:699-984 | where no count is negative, every sell of a plan draws on its item's stock of its own date, every disposal of a counted item on stock of every count not before it |
| PlannedItems.PlanOwnDateExactlyWhen | cmd/util/reconcile.go:699-984 | every transaction of a plan draws on its item's stock of its own date if and only if, for each item named, the stock was there at every count and for every disposal that takes part |
| PlannedItems.PlanNeverRunsDry | cmd/util/reconcile.go:638-650 | where no count is negative, no counted item makes a plan fail for want of stock |
| PlannedItems.PlanEndsAtLastCounts | cmd/util/reconcile.go:843-868 | each counted item over a consistent ledger is previewed to end at its last count plus what later layers hold, never negative |
| PlanSuccess.PlansExactlyWhen | cmd/util/reconcile.go:699-984 | there is a plan if and only if at least two reconciles were requested, some item is named, every item named is active, has no consumed layer in scope and can be resolved (by its counts, disposes and layers), and no dispose is in scope for one of its items and trailing for another |
| PlannerLaws.PlanTxnsInOrder | cmd/util/reconcile.go:933-942 | the plan's transactions are those of its items, ordered by item, then date, then kind, and those that tie stay in the order they were made |
| Deltas.ResolutionDeltasAreDraws | cmd/util/reconcile.go:913-951 | the previewed consumption deltas name, in ascending order and once each, exactly the layers the plan draws on, each with the sum of the plan's transactions against it |
| PlannerRerun.LookUpOwn | cmd/util/reconcile.go:880-890 | whatever an item's submissions list, looking up a submission's correction finds the quantity of its last corrected count |
| PlannerRerun.LookUp | cmd/util/reconcile.go:1162-1172 | looked up in the whole plan, an item's corrections are its own |
| PlannerRerun.ItemRepeatsExactlyWhen | cmd/util/reconcile.go:564-604 | an item resolved again on its rewritten counts gives the same result with nothing corrected if and only if, for every count of a submission with a corrected count, the last corrected one has the same corrected quantity |
| PlanRepeats.RepeatsExactlyWhen | cmd/util/reconcile.go:699-984 | for any submissions in chronological order, duplicate lines included: planning again from the corrected payloads repeats the plan, applying all reconciles and just the disposes applied before, if and only if the plan's corrections agree with its previewed counts |
| PlanRepeats.PlanAgain | cmd/util/reconcile.go:699-984 | without duplicate lines planning again from the corrected payloads gives the same stock and item plans, corrects nothing, and applies every reconcile as it is and the same disposes |
| RerunDrift.DuplicateLinesDrift | cmd/util/reconcile.go:1162-1172 | two concrete reconciles with duplicate lines whose plan and re-plan both succeed, where the second applies 10 and the first 4 |
| Disposal.WalkLayers | cmd/util/dispose.go:237-284 | the FIFO walk over layers with its guard on dates is the closed form, with the layer or the shortage it reports |
| Disposal.ReadLines | cmd/util/dispose.go:159-173 | the payload's requests, or its first bad line |
| Disposal.ComputeDisposePlan | cmd/util/dispose.go:152-308 | the whole planner, previewed items and consumption deltas included, is the closed form `Disposal.PlanOf` with its errors |
| DisposeLaws.DisposesWhatWasAsked | cmd/util/dispose.go:198-285 | for every line the plan's transactions of the item add up to its quantity |
| DisposeLaws.DisposesOldestFirst | cmd/util/dispose.go:237-276 | every transaction is a disposal of a listed item, dated like the submission, from stock of that date and at its price, after every older layer has given all it had |
| DisposeLaws.PreviewShowsLines | cmd/util/dispose.go:212-224 | the preview shows every line once, in ascending order of items, with requested, current and resulting quantity |
| Refusals.RefusedDispose | cmd/util/dispose.go:156-285 | an error names the first thing wrong: the first bad line, the first inactive item, or of the smallest item not covered its quantity, its first late layer, or the shortage |
| Disposal.PlannedExactlyWhen | cmd/util/dispose.go:156-285 | a plan is produced if and only if the lines are good, every item is active, and each request is at most the item's quantity and at most the unconsumed stock created by the submission's date |
| Deltas.DisposeTxnsInOrder | cmd/util/dispose.go:287-296 | the plan's transactions are those of its items, ordered by item, then date, then source layer |
| Deltas.DisposeDeltasAreDraws | cmd/util/dispose.go:272-306 | the previewed consumption deltas name, in ascending order and once each, exactly the layers the plan draws on, each with the sum of the plan's transactions against it |
| Disposal.PlannerAgreesWithResolver | cmd/util/dispose.go:237-276 | whenever the walk succeeds, the resolver draws the same transactions and leaves the same consumption: on the layers the walk updates its new value, on every other layer the old one |
| Disposal.ResolverIgnoresDates | cmd/util/reconcile.go:607-674 | the resolver, without counts, accepts a dispose if and only if all layers together cover it, whatever their dates |
| Settlement.PlannedItemSettles | cmd/util/dispose.go:199-285 | an item's disposals add up to the request, its quantity falls by that and not below zero, and each layer's consumption grows by what is drawn from it and stays within the layer |
| Settlement.DisposePlanSettles | cmd/util/dispose.go:198-296 | the same for the whole dispose plan after sorting |
| Settlement.ResolvedItemSettles | cmd/util/reconcile.go:910-930 | the same for one resolved item |
| Settlement.JoinSettles | cmd/util/reconcile.go:910-930 | adding an item's part to a plan of other items keeps both settled |
| Settlement.ResolutionPlanSettles | cmd/util/reconcile.go:802-942 | the same for the whole resolution plan after sorting |
| Transactions.AggTxnQuantities | internal/models/inventory_transaction.go:70-81 | the map holds exactly the named items, each with its signed sum |
| Transactions.ValidateActivePurchaseTransactions | internal/models/inventory_item.go:35-57 | accepts exactly the consistent items and tells the three errors apart |
| Transactions.ActiveLayersDecide | internal/models/inventory_item.go:35-57 | over layers with stock left the check is exactly equality of quantity and unconsumed stock |
| Transactions.UsedUpLayerIsRefused | internal/models/inventory_item.go:40-43 | a used-up purchase makes the check refuse an item at zero although both numbers are zero |
| Ledgers.LoadedItemsAreGood | cmd/util/reconcile.go:392-411 | the loaded layers are ordered by creation time and then id, have distinct ids, belong to one item each, and are consumed within their quantity |
| Bookings.LoadedItems | cmd/util/reconcile.go:376-411 | loaded are exactly the active items, with their quantity and a layer per row that brought them stock, with its id, date, quantity, consumption and price |
| Bookings.ApplyBooks | cmd/util/reconcile.go:1026-1090 | after an apply every old row is as it was but for what the plan draws from it, every transaction has a new row with its date, item, price, quantity, source as counter and type sell or disposal, and each item's quantity falls by its transactions, inactive items not at all |
| Ledgers.QuantityAfter | cmd/util/reconcile.go:1040-1058 | each item's quantity falls by the plan's transactions of that item |
| Ledgers.LayerStockAfter | cmd/util/reconcile.go:1077-1090 | so does its unconsumed layer stock |
| Ledgers.NetStockAfter | cmd/util/reconcile.go:1060-1075 | so does its signed sum of transactions |
| Ledgers.DrawnAfter | cmd/util/reconcile.go:1060-1090 | what is drawn on a layer grows by the plan's transactions that counter it |
| Ledgers.ApplyKeepsAgreement | cmd/util/reconcile.go:1026-1090 | applying a plan that fits keeps quantity, layer stock and signed sum equal, and consumption equal to what is countered |
| Ledgers.ApplyKeepsSound | cmd/util/reconcile.go:1026-1090 | and leaves no layer consumed beyond its quantity |
| Ledgers.CheckPassesExactlyWhen | internal/models/inventory_item.go:35-57 | the check of an item's active layers passes exactly when layer stock and quantity are equal |
| Store.CorrectedPayload | cmd/util/reconcile.go:1157-1178 | rewrites quantity and previous quantity of the corrected items, the last correction winning, and leaves other lines alone |
| Store.LiveCount | cmd/util/reconcile.go:1010-1017 | as many live rows as ids if and only if the ids are distinct and all live |
| Store.ExecuteKeepsAgreement | cmd/util/reconcile.go:1009-1152 | either command, applied or failed, keeps the views in agreement |
| Store.RunKeepsAgreement | cmd/util/reconcile.go:1026-1090 | so does every run of the two commands, and no quantity is ever negative |
| StoreLaws.LoadedSubmissions | cmd/util/reconcile.go:282-353 | loading yields the requested rows, each once, live, pending and of the expected kind, with the lines of their payloads, ordered by time and then id |
| StoreRefusals.LoadsExactlyWhen | cmd/util/reconcile.go:282-353 | a request loads if and only if it names a reconcile, no id twice over the kinds, and live pending rows of the kinds whose lines all have quantities |
| StoreRefusals.RefusedRequest | cmd/util/reconcile.go:282-353 | otherwise the error names the first id that is wrong and the first check it fails |
| StoreRefusals.RefusedResolution | cmd/util/reconcile.go:1009-1058 | an apply fails for the set of rows, then for a row no longer pending, then for the first item missing or changed |
| StoreRefusals.RefusedDisposal | cmd/util/dispose.go:318-352 | the same for a dispose |
| StoreLaws.PreviewedPlanApplies | cmd/util/reconcile.go:1010-1058 | a plan just computed applies if and only if no submission was requested twice |
| ResolveRuns.ResolveGoesThroughExactlyWhen | cmd/util/reconcile.go:282-1058 | the resolve command goes through if and only if no submission is requested twice, the requested ones load, and what they hold can be planned over the ledger |
| ResolveRuns.RequestedTwiceIsRefused | cmd/util/reconcile.go:1010-1017 | two concrete reconciles that go through; with one id given twice they are still loaded and planned, and then refused |
| StoreLaws.RowsShowFates | cmd/util/reconcile.go:1092-1149 | after an apply each row is deleted with a clone, approved and completed, or untouched, as its fate says; a clone is live, approved, completed, of the same kind, date and submitter, and each line has the last correction of its submission and item, or stands |
| StoreLaws.ResolveSettlesEverySubmission | cmd/util/reconcile.go:953-1152 | the whole command gives every requested submission the fate that its kind, its corrections and its items decide |
| Clones.ResolveClones | cmd/util/reconcile.go:1092-1149 | after the command the new rows are the clones of the corrected reconciles, exactly one each, and rows that were not requested stand |
| CommandLaws.ResolveBooks | cmd/util/reconcile.go:1009-1152 | the stock tables book the previewed plan, row by row |
| CommandLaws.RefusedResolveIsIdle | cmd/util/reconcile.go:699-1153 | a resolve command that does not go through changes nothing |
| CommandLaws.ResolveNamesActive | cmd/util/reconcile.go:383-411 | a resolve command that goes through names only items whose rows are active |
| CommandLaws.DisposeCommandIs | cmd/util/dispose.go:132-412 | over payload and rows: the dispose command goes through if and only if the submission is a live pending dispose whose lines name different active items, each with the quantity in hand and in stock by its date; then its plan is booked and only its row approved, and otherwise nothing changes |
| StoreLaws.SecondRunIsIdle | cmd/util/dispose.go:327-344 | running a command a second time changes nothing: what the first run settled or refused is refused |
| StoreLaws.CloneReadsAsReissued | cmd/util/reconcile.go:1110-1121 | read back, a clone has the lines of the submission from which planning again is stable |
| StoreLaws.RunPassesTheCheck | internal/models/inventory_item.go:35-57 | after every run each item passes the check of its active layers |
| Database.Database.UpdateItems | cmd/util/reconcile.go:1040-1058 | sets the quantities in order, or stops at a missing or changed item |
| Database.Database.WriteStock | cmd/util/reconcile.go:1026-1090 | quantities, new rows and consumption are written as the closed form says, or nothing is |
| Database.Database.RecreateCorrected | cmd/util/reconcile.go:1092-1132 | deletes each corrected submission and inserts its clone |
| Database.Database.ApplyResolution | cmd/util/reconcile.go:1009-1152 | the transaction leaves the closed form of the new state, or on any error the old state |
| Database.Database.ApplyDisposePlan | cmd/util/dispose.go:318-411 | the same for a dispose |
| Database.Database.LoadSubmissions | cmd/util/reconcile.go:282-353 | the loading loop, with its errors in order, is the closed form |
| Database.Database.ResolveAndApply | cmd/util/reconcile.go:699-1153 | load, plan and apply together take the step `Execute` of the resolve command |
| Database.Database.DisposeAndApply | cmd/util/dispose.go:132-412 | the same for the dispose command |
| Reports.UpdatePoSummary | internal/models/report_builder.go:297-329 | a summary per known purchase order item holds its purchases per day |
| Reports.BuildLegacyView | internal/models/report_builder.go:208-267 | one item per known item that the period names, with its categories, days, orders, start and end quantity |
| Reports.CategoriesByType | internal/models/report_builder.go:218-262 | each category is the item's quantity of its own type, transfers in less out, and the end quantity is built from them |
| Reports.EndQuantityIsNet | internal/models/report_builder.go:254-262 | the end quantity is the signed sum of history and period, less exactly the period's stock-ups and initial loads |
| Reports.PurchasesByDayAddUp | internal/models/report_builder.go:226-238 | the days 1 to 31 add up to the purchased quantity, per item and per purchase order item |
| Reports.LegacyViewIgnoresOrder | internal/models/report_builder.go:208-267 | the figures do not depend on the order of the transactions |
| SourceView.IndexConsumes | internal/models/report_builder.go:126-139 | reading the two-level index gives the consumes by item and source, in order |
| SourceView.SortRows | internal/models/report_builder.go:180-206 | the in-place exchange sort permutes, orders by product name with a missing product as the empty name, and by source date where every row has a source |
| SourceView.BuildSourceView | internal/models/report_builder.go:123-177 | a row per source of a known item, sorted |
| SourceView.ViewIsIndexed | internal/models/report_builder.go:141-170 | each row shows its source with the item's start quantity and no totals, and carries exactly the consumes of its source in order; every known source has a row; and with distinct sources no consume is on two rows |
| SourceView.OneRowPerSource | internal/models/report_builder.go:141-170 | the rows' sources are the sources of known items, each as often as it is given |
| SourceView.ViewInOrder | internal/models/report_builder.go:180-206 | of two rows the earlier has the smaller product name in byte order, or the same name and no later a source |
| ReportBuilder.TxnReportBuilder.Build | internal/models/report_builder.go:98-121 | builds from what is loaded the source view when there are sources and the totals when not, or leaves the last report as it was when not ready |
| ReportBuilder.TxnReportBuilder.GetOutput | internal/models/report_builder.go:61-66 | whatever was set since, the view of what the last successful build was made from, and an error exactly when there was none |
| Units.CalculateConversionFactorToCurrent | internal/models/unit.go:69-101 | the walk stops on every graph and gives the product along the route to the target, 0 when there is none |
| Units.ZeroExactlyWhenUnreachable | internal/models/unit.go:67-101 | with positive factors the result is 0 if and only if the target is not on the loaded chain, cycles and repeated copies of a unit included |
| Units.ConversionMultiplies | internal/models/unit.go:88-98 | factors multiply through any unit that comes no later than the target, repeated copies of a unit included |
| Units.ConversionAround | internal/models/unit.go:88-98 | through a unit that comes after the target on a cycle they multiply if and only if the factors around the cycle multiply to one |
| Units.WellLevelledFalls | internal/models/unit.go:55-65 | expected levels fall along every loaded chain, so the recursions end |
| Units.RootIsTop | internal/models/unit.go:32-41 | the root id is that of the top of the loaded chain |
| Units.TotalAgainstWalk | internal/models/unit.go:45-53 | the recursive total is the walk's factor to the top of the loaded chain times the top's own factor; they agree if and only if the top is a root or has factor 1 |
| Units.UnloadedBaseSplitsFactors | internal/models/unit.go:45-101 | a unit of twelve with an unloaded base, whose total is 12 and whose walked factor is 1 |
| Units.LoadedTotalIsWalk | internal/models/unit.go:45-101 | well levelled and fully loaded, the chain has level - 1 links to a root and the two factors agree |

## Left out

- Database access, queries, the command line, JSON and spreadsheet output, printing, time stamps, actors and reasons: loading is a given table, applying an atomic update of it.
- Several inventories: the model has one, so the checks that a submission or item belongs to the requested inventory do not occur.
- Malformed JSON in a payload; a missing quantity is modelled.
- The preview's product names, which nothing depends on.
- Messages: errors carry the values that decide them, not their text.
- Concurrent writers between preview and apply; the runbook prescribes a single run. The optimistic check on quantities is modelled.
- Wrap-around and rounding: decimals are exact in the source, float factors and prices are modelled as reals, and prices are only copied.
- The live reconcile flow, the service's own FIFO, selling prices and initial stock import.
- HTTP, authorization, spreadsheets, caches and configuration.
- The report's metadata and title, and the order in which the category view lists its items, which the source takes from map iteration.
- Rows and report entries are values that are replaced, not shared objects, so aliasing between the report and its input is not modelled.
- Units.GetTotalConversionFactorToRoot: asked only of hierarchies whose levels fall along loaded bases, because the recursion does not end on a cycle.

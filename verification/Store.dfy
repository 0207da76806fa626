/**
 The submissions table, the two apply transactions, and whole runs of the two commands
 (cmd/util/reconcile.go, loadSubmissions, applyResolution, correctedPayload; cmd/util/dispose.go,
 applyDisposePlan). A transaction either writes everything or leaves the store as it was.
 */
module Store {
  import opened Basics
  import opened Fifo
  import opened Plans
  import opened Ledgers
  import opened Settlement
  import S = Submissions
  import P = Planner
  import D = Disposal

  datatype SubKind = Reconcile | Dispose | Transfer

  datatype Approval = Pending | Approved | Rejected

  datatype Processing = Waiting | Failed | Completed | Canceled

  datatype PayloadLine = PayloadLine(itemID: nat, quantity: Option<real>, prev: real)

  datatype SubRow = SubRow(
    kind: SubKind, at: Instant, createdBy: nat, approval: Approval, processing: Processing,
    lines: seq<PayloadLine>, deleted: bool)

  datatype State = State(ledger: Ledger, subs: map<nat, SubRow>, nextSub: nat)

  datatype LoadError =
    | NothingRequested
    | BothKinds(id: nat)
    | NotFound(id: nat)
    | NotPending(id: nat)
    | WrongKind(id: nat)
    | MissingQuantity(id: nat)

  datatype StoreError = SetChanged | NoLongerPending | StockFailed(error: ApplyError)

  predicate Live(subs: map<nat, SubRow>, id: nat) {
    id in subs && !subs[id].deleted
  }

  // ----- loading submissions -----

  /** The ids in order of first appearance. */
  function Dedup(ids: seq<nat>): (r: seq<nat>)
    ensures forall id :: id in r <==> id in ids
  {
    if ids == [] then
      []
    else
      var rest, id := Dedup(ids[..|ids| - 1]), ids[|ids| - 1];
      assert ids == ids[..|ids| - 1] + [id];
      if id in rest then rest else rest + [id]
  }

  ghost function FirstCommon(ids: seq<nat>, others: seq<nat>): (r: Option<nat>)
    ensures r == None <==> forall id :: id in ids ==> id !in others
  {
    if ids == [] then
      None
    else
      var r, id := FirstCommon(ids[..|ids| - 1], others), ids[|ids| - 1];
      assert ids == ids[..|ids| - 1] + [id];
      if r.Some? then r else if id in others then Some(id) else None
  }

  predicate Complete(lines: seq<PayloadLine>) {
    forall i :: 0 <= i < |lines| ==> lines[i].quantity.Some?
  }

  /** A payload as the planner reads it; a dispose has no previous quantities. */
  function ParseLines(lines: seq<PayloadLine>, dispose: bool): (r: seq<S.Line>)
    requires Complete(lines)
    ensures |r| == |lines|
  {
    seq(|lines|, i requires 0 <= i < |lines| =>
      S.Line(lines[i].itemID, if dispose then 0.0 else lines[i].prev, lines[i].quantity.value))
  }

  function LoadOne(subs: map<nat, SubRow>, id: nat, kind: SubKind): Result<S.Submission, LoadError> {
    if !Live(subs, id) then Err(NotFound(id))
    else if subs[id].approval != Pending then Err(NotPending(id))
    else if subs[id].kind != kind then Err(WrongKind(id))
    else if !Complete(subs[id].lines) then Err(MissingQuantity(id))
    else Ok(S.Submission(id, subs[id].at, kind == Reconcile, ParseLines(subs[id].lines, kind == Dispose)))
  }

  ghost function LoadAll(
    subs: map<nat, SubRow>, ids: seq<nat>, reconcileIDs: seq<nat>, n: nat)
    : Result<seq<S.Submission>, LoadError>
    requires n <= |ids|
  {
    if n == 0 then
      Ok([])
    else
      var earlier := LoadAll(subs, ids, reconcileIDs, n - 1);
      if earlier.Err? then
        earlier
      else
        match LoadOne(subs, ids[n - 1], if ids[n - 1] in reconcileIDs then Reconcile else Dispose)
        case Err(e) => Err(e)
        case Ok(sub) => Ok(earlier.value + [sub])
  }

  function SubId(): S.Submission -> int {
    (s: S.Submission) => s.id
  }

  function SubmissionOrder(): (S.Submission, S.Submission) -> bool {
    By(S.SubTime(), By(SubId(), Always()))
  }

  /** By creation time, then id. */
  function InSubmissionOrder(subs: seq<S.Submission>): seq<S.Submission> {
    SortBy2(subs, S.SubTime(), SubId())
  }

  /** Loading in closed form. */
  ghost function LoadSubmissions(
    subs: map<nat, SubRow>, reconcileIDs: seq<nat>, disposeIDs: seq<nat>)
    : Result<seq<S.Submission>, LoadError>
  {
    var both, ids := FirstCommon(disposeIDs, reconcileIDs), Dedup(reconcileIDs + disposeIDs);
    if reconcileIDs == [] then Err(NothingRequested)
    else if both.Some? then Err(BothKinds(both.value))
    else
      match LoadAll(subs, ids, reconcileIDs, |ids|)
      case Err(e) => Err(e)
      case Ok(loaded) => Ok(InSubmissionOrder(loaded))
  }

  lemma {:induction false} LoadAllFails(subs: map<nat, SubRow>, ids: seq<nat>, reconcileIDs: seq<nat>, n: nat)
    requires n <= |ids| && LoadAll(subs, ids, reconcileIDs, n).Err?
    ensures LoadAll(subs, ids, reconcileIDs, |ids|) == LoadAll(subs, ids, reconcileIDs, n)
    decreases |ids| - n
  {
    if n < |ids| {
      LoadAllFails(subs, ids, reconcileIDs, n + 1);
    }
  }

  lemma {:induction false} FirstCommonStays(ids: seq<nat>, others: seq<nat>, n: nat)
    requires n <= |ids| && FirstCommon(ids[..n], others).Some?
    ensures FirstCommon(ids, others) == FirstCommon(ids[..n], others)
    decreases |ids| - n
  {
    if n == |ids| {
      assert ids[..n] == ids;
    } else {
      assert ids[..n + 1][..n] == ids[..n];
      FirstCommonStays(ids, others, n + 1);
    }
  }

  lemma {:induction false} DedupStep(ids: seq<nat>, id: nat)
    ensures Dedup(ids + [id]) == if id in ids then Dedup(ids) else Dedup(ids) + [id]
  {
    assert (ids + [id])[..|ids|] == ids;
  }

  // ----- corrected payloads -----

  ghost function CorrectedLine(line: PayloadLine, corrections: seq<P.Correction>): PayloadLine {
    match P.LastFor(corrections, line.itemID)
    case Some(c) => line.(quantity := Some(c.newQty), prev := c.newPrev)
    case None => line
  }

  ghost function CorrectedLines(lines: seq<PayloadLine>, corrections: seq<P.Correction>): (r: seq<PayloadLine>)
    ensures |r| == |lines|
  {
    if lines == [] then
      []
    else
      CorrectedLines(lines[..|lines| - 1], corrections) + [CorrectedLine(lines[|lines| - 1], corrections)]
  }

  /** Rewrites quantity and previous quantity of the corrected items and leaves the other lines alone. */
  method CorrectedPayload(lines: seq<PayloadLine>, corrections: seq<P.Correction>) returns (r: seq<PayloadLine>)
    ensures r == CorrectedLines(lines, corrections)
  {
    var byItem: map<nat, P.Correction> := map[];
    var i := 0;
    while i < |corrections|
      invariant i <= |corrections|
      invariant forall item: nat {:trigger item in byItem} ::
                  P.LastFor(corrections[..i], item) == if item in byItem then Some(byItem[item]) else None
    {
      assert corrections[..i + 1][..i] == corrections[..i];
      byItem := byItem[corrections[i].itemID := corrections[i]];
      i := i + 1;
    }
    assert corrections[..i] == corrections;
    r := [];
    i := 0;
    while i < |lines|
      invariant i <= |lines| && r == CorrectedLines(lines[..i], corrections)
    {
      var line := lines[i];
      assert lines[..i + 1][..i] == lines[..i];
      if line.itemID in byItem {
        line := line.(quantity := Some(byItem[line.itemID].newQty), prev := byItem[line.itemID].newPrev);
      }
      r := r + [line];
      i := i + 1;
    }
    assert lines[..i] == lines;
  }

  // ----- applying -----

  /** The corrected clone of a submission: same date and submitter, corrected payload, approved and completed. */
  ghost function CloneOf(row: SubRow, corrections: seq<P.Correction>): SubRow {
    SubRow(row.kind, row.at, row.createdBy, Approved, Completed, CorrectedLines(row.lines, corrections), false)
  }

  ghost function CorrectOne(
    subs: map<nat, SubRow>, next: nat, id: nat, corrections: seq<P.Correction>)
    : (map<nat, SubRow>, nat)
    requires id in subs
  {
    var mine := Filter(corrections, P.OfSub(id));
    if mine == [] then (subs, next)
    else (subs[id := subs[id].(deleted := true)][next := CloneOf(subs[id], mine)], next + 1)
  }

  /** The submissions after the first n of the reconciles have had their corrections. */
  ghost function CorrectAll(subs: map<nat, SubRow>, next: nat, ids: seq<nat>, corrections: seq<P.Correction>, n: nat)
    : (r: (map<nat, SubRow>, nat))
    requires n <= |ids| && forall id :: id in ids ==> id in subs
    ensures subs.Keys <= r.0.Keys
  {
    if n == 0 then
      (subs, next)
    else
      var (s, x) := CorrectAll(subs, next, ids, corrections, n - 1);
      CorrectOne(s, x, ids[n - 1], corrections)
  }

  /** The update of the submissions that are applied as they are. */
  function Approve(subs: map<nat, SubRow>, ids: seq<nat>): map<nat, SubRow> {
    map id | id in subs ::
      if id in ids && !subs[id].deleted then subs[id].(approval := Approved, processing := Completed) else subs[id]
  }

  ghost predicate StillPending(subs: map<nat, SubRow>, ids: seq<nat>) {
    forall id :: id in ids && Live(subs, id) ==> subs[id].approval == Pending
  }

  function LiveAmong(subs: map<nat, SubRow>, ids: seq<nat>): set<nat> {
    set id | id in ids && Live(subs, id)
  }

  /** applyResolution in closed form. */
  ghost function ApplyResolution(
    s: State, reconcileIDs: seq<nat>, disposeIDs: seq<nat>, plan: P.Plan)
    : Result<State, StoreError>
  {
    var all := reconcileIDs + disposeIDs;
    if |LiveAmong(s.subs, all)| != |all| then Err(SetChanged)
    else if !StillPending(s.subs, all) then Err(NoLongerPending)
    else
      match ApplyStock(s.ledger, plan.stock)
      case Err(e) => Err(StockFailed(e))
      case Ok(ledger) =>
        AllLive(s.subs, all);
        assert forall id :: id in reconcileIDs ==> id in all;
        var (subs, next) := CorrectAll(s.subs, s.nextSub, reconcileIDs, plan.corrections, |reconcileIDs|);
        Ok(State(ledger, Approve(subs, plan.appliedAsIs), next))
  }

  ghost function ApplyDispose(s: State, subID: nat, plan: StockPlan): Result<State, StoreError> {
    if !Live(s.subs, subID) then Err(SetChanged)
    else if s.subs[subID].approval != Pending then Err(NoLongerPending)
    else
      match ApplyStock(s.ledger, plan)
      case Err(e) => Err(StockFailed(e))
      case Ok(ledger) => Ok(State(ledger, Approve(s.subs, [subID]), s.nextSub))
  }

  lemma {:induction false} LiveAmongStep(subs: map<nat, SubRow>, ids: seq<nat>, id: nat)
    ensures LiveAmong(subs, ids + [id]) == LiveAmong(subs, ids) + if Live(subs, id) then {id} else {}
  {
  }

  /** As many live rows as ids means that the ids are distinct and all live, and the other way round. */
  lemma {:induction false} LiveCount(subs: map<nat, SubRow>, ids: seq<nat>)
    ensures |LiveAmong(subs, ids)| <= |ids|
    ensures |LiveAmong(subs, ids)| == |ids| <==> Distinct(ids) && forall id :: id in ids ==> Live(subs, id)
  {
    if ids == [] {
      assert LiveAmong(subs, ids) == {};
    } else {
      var front, id := ids[..|ids| - 1], ids[|ids| - 1];
      assert ids == front + [id];
      LiveCount(subs, front);
      LiveAmongStep(subs, front, id);
    }
  }

  lemma {:induction false} AllLive(subs: map<nat, SubRow>, ids: seq<nat>)
    requires |LiveAmong(subs, ids)| == |ids|
    ensures forall id :: id in ids ==> Live(subs, id)
  {
    LiveCount(subs, ids);
  }

  // ----- the commands -----

  function RequestsOf(lines: seq<PayloadLine>): (r: seq<D.Request>)
    ensures |r| == |lines|
  {
    seq(|lines|, i requires 0 <= i < |lines| => D.Request(lines[i].itemID, lines[i].quantity))
  }

  /** `reconcile resolve --apply`: load, plan, apply; any failure leaves the store as it was. */
  ghost function Resolved(s: State, reconcileIDs: seq<nat>, disposeIDs: seq<nat>): State {
    match LoadSubmissions(s.subs, reconcileIDs, disposeIDs)
    case Err(_) => s
    case Ok(subs) =>
      match P.PlanOf(subs, ActiveItems(s.ledger))
      case Err(_) => s
      case Ok(plan) =>
        match ApplyResolution(s, reconcileIDs, disposeIDs, plan)
        case Err(_) => s
        case Ok(s') => s'
  }

  /** `reconcile dispose --apply`. */
  ghost function Disposed(s: State, subID: nat): State {
    if !Live(s.subs, subID) || s.subs[subID].kind != Dispose || s.subs[subID].approval != Pending then
      s
    else
      match D.PlanOf(RequestsOf(s.subs[subID].lines), ActiveItems(s.ledger), s.subs[subID].at)
      case Err(_) => s
      case Ok(plan) =>
        match ApplyDispose(s, subID, plan.stock)
        case Err(_) => s
        case Ok(s') => s'
  }

  datatype Command = ResolveCommand(reconcileIDs: seq<nat>, disposeIDs: seq<nat>) | DisposeCommand(subID: nat)

  ghost function Execute(s: State, c: Command): State {
    match c
    case ResolveCommand(reconcileIDs, disposeIDs) => Resolved(s, reconcileIDs, disposeIDs)
    case DisposeCommand(subID) => Disposed(s, subID)
  }

  ghost function Run(s: State, commands: seq<Command>): State {
    if commands == [] then s else Execute(Run(s, commands[..|commands| - 1]), commands[|commands| - 1])
  }

  /** A resolution plan fits the ledger it was made from. */
  lemma {:induction false} ResolutionFits(g: Ledger, subs: seq<S.Submission>) returns (ids: seq<nat>)
    requires Sound(g) && P.PlanOf(subs, ActiveItems(g)).Ok?
    ensures Fits(g, P.PlanOf(subs, ActiveItems(g)).value.stock, ids)
  {
    LoadedItemsAreGood(g);
    ids := ResolutionPlanSettles(subs, ActiveItems(g));
  }

  lemma {:induction false} DisposalFits(g: Ledger, lines: seq<D.Request>, at: Instant) returns (ids: seq<nat>)
    requires Sound(g) && D.PlanOf(lines, ActiveItems(g), at).Ok?
    ensures Fits(g, D.PlanOf(lines, ActiveItems(g), at).value.stock, ids)
  {
    LoadedItemsAreGood(g);
    ids := DisposePlanSettles(lines, ActiveItems(g), at);
  }

  lemma {:induction false} ExecuteKeepsAgreement(s: State, c: Command)
    requires Sound(s.ledger) && Agree(s.ledger)
    ensures Sound(Execute(s, c).ledger) && Agree(Execute(s, c).ledger)
  {
    var s', g := Execute(s, c), s.ledger;
    if s'.ledger != g {
      match c
      case ResolveCommand(reconcileIDs, disposeIDs) =>
        var subs := LoadSubmissions(s.subs, reconcileIDs, disposeIDs).value;
        var ids := ResolutionFits(g, subs);
        ApplyKeepsSound(g, P.PlanOf(subs, ActiveItems(g)).value.stock, ids, s'.ledger);
        ApplyKeepsAgreement(g, P.PlanOf(subs, ActiveItems(g)).value.stock, ids, s'.ledger);
      case DisposeCommand(subID) =>
        var lines, at := RequestsOf(s.subs[subID].lines), s.subs[subID].at;
        var ids := DisposalFits(g, lines, at);
        ApplyKeepsSound(g, D.PlanOf(lines, ActiveItems(g), at).value.stock, ids, s'.ledger);
        ApplyKeepsAgreement(g, D.PlanOf(lines, ActiveItems(g), at).value.stock, ids, s'.ledger);
    }
  }

  /** Over every run of the two commands the three views of stock stay in agreement, and no stock is ever negative. */
  lemma {:induction false} RunKeepsAgreement(s: State, commands: seq<Command>)
    requires Sound(s.ledger) && Agree(s.ledger)
    ensures var g := Run(s, commands).ledger;
            Sound(g) && Agree(g) && forall id :: id in g.items ==> g.items[id].quantity >= 0.0
  {
    if commands != [] {
      RunKeepsAgreement(s, commands[..|commands| - 1]);
      ExecuteKeepsAgreement(Run(s, commands[..|commands| - 1]), commands[|commands| - 1]);
    }
    var g := Run(s, commands).ledger;
    forall id | id in g.items
      ensures g.items[id].quantity >= 0.0
    {
      NoNegativeStock(g, id);
    }
  }
}

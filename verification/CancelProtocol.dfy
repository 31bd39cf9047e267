/** `cancel_run` and `cancel_node` as functions of the disk, from any state a crash can leave. */
module CancelProtocol {
  import opened Prelude
  import opened Schema
  import opened NodeStatusFold
  import opened Reducer
  import opened ReducerLaws
  import opened Recovery
  import opened CrashSafety
  import opened CrashAgreement
  import opened Keyed
  import opened Cancel
  import opened CancelReady

  // ---- a call as a function of the disk ----

  /** Append one event: catch up, gate, log, fold. */
  function AppendOn(d: Disk, ev: Event): Disk {
    var s := CatchUp(d.log, d.st);
    if PlanEvent(d.log, s, ev).Accepted? then Disk(d.log + [ev], Step(d.log, s, ev)) else Disk(d.log, s)
  }

  predicate AppendOk(d: Disk, ev: Event) {
    PlanEvent(d.log, CatchUp(d.log, d.st), ev).Accepted?
  }

  /** Fold a logged event again. */
  function RefoldOn(d: Disk, ev: Event): Disk { Disk(d.log, Cut(d.log, d.st, ev, 2)) }

  predicate ReadsSettled(st: Store, id: NodeId) {
    id in st.nodes && st.nodes[id].status.IsTerminal()
  }

  /** What a step did: `ok` is false when an event was refused and the call stops. */
  datatype Turn = Turn(ok: bool, d: Disk, cancelled: bool)

  /** The report and the run status a call would append next. */
  function NextReport(d: Disk, clock: Clock, id: NodeId, summary: string, reason: string): Event {
    ReportEvent(d.st.run, |d.log| + 1, clock(|d.log| + 1), id, summary, reason)
  }

  function NextStatus(d: Disk, clock: Clock, s: Ending): Event {
    StatusEvent(d.st.run, |d.log| + 1, clock(|d.log| + 1), s)
  }

  /** Settle one node as the ledger read on entry decides: fold its logged cancel again if the
      node file still reads live, leave a settled node, report a live one. */
  function SettleOn(d: Disk, prior: Option<Event>, status: Status, clock: Clock, id: NodeId, summary: string,
      reason: string): Turn {
    if prior.Some? then
      if ReadsSettled(d.st, id) then Turn(true, d, false)
      else Turn(PlanEvent(d.log, d.st, prior.value).Accepted?, RefoldOn(d, prior.value), true)
    else if status.IsTerminal() then Turn(true, d, false)
    else
      var ev := NextReport(d, clock, id, summary, reason);
      Turn(AppendOk(d, ev), AppendOn(d, ev), true)
  }

  /** Record the terminal run status once: fold a logged one again, else append it. */
  function RecordOn(d: Disk, prior: Option<Event>, clock: Clock, s: Ending): Turn {
    if prior.Some? then Turn(PlanEvent(d.log, d.st, prior.value).Accepted?, RefoldOn(d, prior.value), false)
    else
      var ev := NextStatus(d, clock, s);
      Turn(AppendOk(d, ev), AppendOn(d, ev), false)
  }

  /** The node loop so far. */
  datatype Tally = Tally(ok: bool, d: Disk, cancelled: seq<NodeId>, settled: seq<NodeId>)

  function PriorReport(run: RunId, log: seq<Event>, id: NodeId): Option<Event> {
    FirstKeyed(log, KNodeReport, NodeKey(run, id))
  }

  function PriorStatus(run: RunId, log: seq<Event>): Option<Event> { FirstKeyed(log, KRunStatus, StatusKey(run)) }

  function AddTurn(t: Tally, id: NodeId, u: Turn): Tally {
    if !u.ok then t.(ok := false, d := u.d)
    else if u.cancelled then t.(d := u.d, cancelled := t.cancelled + [id])
    else t.(d := u.d, settled := t.settled + [id])
  }

  /** Settle the first `i` listed nodes; `d` is the disk on entry, which the ledger is read
      from. */
  function SettleAll(d: Disk, facts: seq<Fact>, i: nat, call: Call): Tally
    requires i <= |facts|
  {
    if i == 0 then Tally(true, d, [], [])
    else
      var t := SettleAll(d, facts, i - 1, call);
      if !t.ok then t
      else AddTurn(t, facts[i - 1].id,
                   SettleOn(t.d, PriorReport(d.st.run, d.log, facts[i - 1].id), facts[i - 1].status,
                            call.clock, facts[i - 1].id, RUN_SUMMARY, call.reason))
  }

  function AllFacts(d: Disk): seq<Fact> { NodeStatusFacts(d.log, None) }

  /** The disk and the result lists of one `cancel_run`. */
  function CancelOn(d: Disk, call: Call): Tally {
    var t := SettleAll(d, AllFacts(d), |AllFacts(d)|, call);
    if !t.ok || call.wasCancelled then t
    else
      var u := RecordOn(t.d, PriorStatus(d.st.run, d.log), call.clock, call.Ends());
      t.(ok := u.ok, d := u.d)
  }

  // ---- what a call does to any disk it may start from ----

  lemma PriorIsLogged(run: RunId, log: seq<Event>, kind: Kind, key: string) returns (p: nat)
    requires FirstKeyed(log, kind, key).Some?
    ensures p < |log| && log[p] == FirstKeyed(log, kind, key).value && Carries(log[p], kind, key)
  {
    FirstIsCarrier(log, kind, key);
    p :| 0 <= p < |log| && log[p] == FirstKeyed(log, kind, key).value;
  }

  /** The disk moved on by these events and may be started from; a Cancelled run stayed so. */
  ghost predicate Advances(d: Disk, e: Disk, added: seq<Event>) {
    Startable(e) && e.log == d.log + added && Onward(d.st, e.st)
  }

  lemma AdvancesNot(d: Disk)
    requires Startable(d)
    ensures Advances(d, d, [])
  {}

  /** A well-placed event numbered next, accepted by the gate. */
  lemma AppendAdvances(d: Disk, ev: Event)
    requires Startable(d) && AppendOk(d, ev) && Placed(d.st.run, d.log, ev) && ev.seqNo == |d.log| + 1
    requires ev.runId == d.st.run
    ensures Advances(d, AppendOn(d, ev), [ev])
  {
    var s, l := CatchUp(d.log, d.st), d.log + [ev];
    CatchUpOnward(d.log, d.st);
    StepOnward(d.log, s, ev);
    DisciplinedAppend(d.st.run, d.log, ev);
    LogRunStatusGrows(d.log, l);
    assert WellSeq(d.st.run, l);
  }

  lemma RefoldAdvances(d: Disk, ev: Event)
    requires Startable(d)
    ensures Advances(d, RefoldOn(d, ev), [])
  {
    CutOnward(d.log, d.st, ev, 2);
  }

  lemma AppendReportAdvances(d: Disk, id: NodeId, clock: Clock, summary: string, reason: string)
    requires Startable(d) && Straggler(d.st.run, d.log, id)
    ensures var ev := NextReport(d, clock, id, summary, reason); AppendOk(d, ev) && Advances(d, AppendOn(d, ev), [ev])
  {
    var ev := NextReport(d, clock, id, summary, reason);
    CatchUpOnward(d.log, d.st);
    CancelReportPlan(d.log, CatchUp(d.log, d.st), ev, id);
    ReportPlaced(d.st.run, d.log, |d.log| + 1, clock(|d.log| + 1), id, summary, reason);
    AppendAdvances(d, ev);
  }

  /** Folding a logged cancel report again. */
  lemma RefoldReportAdvances(d: Disk, log0: seq<Event>, id: NodeId)
    requires Startable(d) && log0 <= d.log && PriorReport(d.st.run, log0, id).Some?
    ensures var prior := PriorReport(d.st.run, log0, id).value;
            PlanEvent(d.log, d.st, prior).Accepted? && Advances(d, RefoldOn(d, prior), [])
  {
    var p := PriorIsLogged(d.st.run, log0, KNodeReport, NodeKey(d.st.run, id));
    assert d.log[p] == log0[p];
    LoggedReport(d.st.run, d.log, p, id);
    CancelReportPlan(d.log, d.st, d.log[p], id);
    RefoldAdvances(d, d.log[p]);
  }

  lemma AppendStatusAdvances(d: Disk, clock: Clock, s: Ending)
    requires Startable(d) && s.status.IsTerminal() && AllSettled(d.log) && PriorStatus(d.st.run, d.log).None?
    ensures var ev := NextStatus(d, clock, s);
            AppendOk(d, ev) && Advances(d, AppendOn(d, ev), [ev]) && ReadsTerminal(AppendOn(d, ev).st)
  {
    var ev, c := NextStatus(d, clock, s), CatchUp(d.log, d.st);
    CatchUpOnward(d.log, d.st);
    TerminalStatusPlan(d.log, c, ev, s.status);
    StatusPlaced(d.st.run, d.log, |d.log| + 1, clock(|d.log| + 1), s);
    AppendAdvances(d, ev);
    StatusStepTerminal(d.log, c, ev, s.status);
  }

  lemma StatusStepTerminal(log: seq<Event>, st: Store, ev: Event, s: Status)
    requires st.manifest.Some? && ev.runId == st.run && s.IsTerminal() && EndsRun(ev.body, s)
    ensures ReadsTerminal(Step(log, st, ev))
  {
    StepRunStatus(log, st, ev);
  }

  lemma RefoldStatusAdvances(d: Disk)
    requires Startable(d) && PriorStatus(d.st.run, d.log).Some?
    ensures var prior := PriorStatus(d.st.run, d.log).value;
            && PlanEvent(d.log, d.st, prior).Accepted? && Advances(d, RefoldOn(d, prior), [])
            && ReadsTerminal(RefoldOn(d, prior).st)
  {
    var p := PriorIsLogged(d.st.run, d.log, KRunStatus, StatusKey(d.st.run));
    LoggedStatus(d.st.run, d.log, p);
    var s: Status :| s.IsTerminal() && EndsRun(d.log[p].body, s);
    TerminalStatusPlan(d.log, d.st, d.log[p], s);
    RefoldAdvances(d, d.log[p]);
  }

  /** The events settling a node adds. */
  function ReportsFor(run: RunId, log0: seq<Event>, log: seq<Event>, clock: Clock, id: NodeId, summary: string,
      reason: string): seq<Event> {
    if Straggler(run, log0, id) then [ReportEvent(run, |log| + 1, clock(|log| + 1), id, summary, reason)] else []
  }

  /** There is something to do about the node: it is live and gets a report, or its cancel is logged
      and its file does not show it yet. */
  ghost predicate ActsOn(d: Disk, log0: seq<Event>, id: NodeId) {
    || Straggler(d.st.run, log0, id)
    || (PriorReport(d.st.run, log0, id).Some? && !ReadsSettled(d.st, id))
  }

  /** Settling one node did what it should: `log0` is the log the ledger was read from. */
  ghost predicate SettlesNode(d: Disk, log0: seq<Event>, clock: Clock, id: NodeId, summary: string, reason: string)
    requires id in FoldStatus(log0).status
  {
    var u := SettleOn(d, PriorReport(d.st.run, log0, id), FoldStatus(log0).status[id], clock, id, summary, reason);
    && u.ok && Advances(d, u.d, ReportsFor(d.st.run, log0, d.log, clock, id, summary, reason))
    && (if u.cancelled then WillRead(log0, id) else FoldStatus(log0).status[id].IsTerminal())
    && (u.cancelled <==> ActsOn(d, log0, id))
  }

  lemma {:induction false} SettleLogged(d: Disk, log0: seq<Event>, clock: Clock, id: NodeId, summary: string,
      reason: string)
    requires Startable(d) && log0 <= d.log && PriorReport(d.st.run, log0, id).Some?
    requires id in FoldStatus(log0).status && FoldStatus(log0).status[id] == Cancelled
    ensures SettlesNode(d, log0, clock, id, summary, reason)
  {
    if ReadsSettled(d.st, id) { AdvancesNot(d); } else { RefoldReportAdvances(d, log0, id); }
  }

  lemma {:induction false} SettleDone(d: Disk, log0: seq<Event>, clock: Clock, id: NodeId, summary: string,
      reason: string)
    requires Startable(d) && PriorReport(d.st.run, log0, id).None?
    requires id in FoldStatus(log0).status && FoldStatus(log0).status[id].IsTerminal()
    ensures SettlesNode(d, log0, clock, id, summary, reason)
  {
    AdvancesNot(d);
  }

  lemma SettleLive(d: Disk, log0: seq<Event>, clock: Clock, id: NodeId, summary: string, reason: string)
    requires Startable(d) && Straggler(d.st.run, log0, id) && Straggler(d.st.run, d.log, id)
    ensures SettlesNode(d, log0, clock, id, summary, reason)
  {
    AppendReportAdvances(d, id, clock, summary, reason);
  }

  /** Settling one node is never refused. */
  lemma {:induction false} SettleAdvances(d: Disk, log0: seq<Event>, clock: Clock, id: NodeId, summary: string,
      reason: string)
    requires Startable(d) && Disciplined(d.st.run, log0) && log0 <= d.log && id in FoldStatus(log0).status
    requires Straggler(d.st.run, log0, id) ==> Straggler(d.st.run, d.log, id)
    ensures SettlesNode(d, log0, clock, id, summary, reason)
  {
    if PriorReport(d.st.run, log0, id).Some? {
      CancelledForGood(d.st.run, log0, id);
      SettleLogged(d, log0, clock, id, summary, reason);
    } else if FoldStatus(log0).status[id].IsTerminal() {
      SettleDone(d, log0, clock, id, summary, reason);
    } else {
      SettleLive(d, log0, clock, id, summary, reason);
    }
  }

  /** Recording the run status on a disk whose nodes are all settled. */
  lemma RecordAdvances(d: Disk, clock: Clock, s: Ending)
    requires Startable(d) && AllSettled(d.log) && s.status.IsTerminal()
    ensures var u := RecordOn(d, PriorStatus(d.st.run, d.log), clock, s);
            && u.ok && ReadsTerminal(u.d.st)
            && Advances(d, u.d, if PriorStatus(d.st.run, d.log).Some? then [] else [NextStatus(d, clock, s)])
  {
    if PriorStatus(d.st.run, d.log).Some? { RefoldStatusAdvances(d); } else { AppendStatusAdvances(d, clock, s); }
  }

  /** Cancelled on entry, or live on entry and so Cancelled once reported. */
  ghost predicate WillRead(log: seq<Event>, id: NodeId) {
    && id in FoldStatus(log).status
    && (FoldStatus(log).status[id] == Cancelled || !FoldStatus(log).status[id].IsTerminal())
  }

  // ---- the node loop ----

  /** The reports for the first `i` listed nodes. */
  function ReportedUpTo(run: RunId, log: seq<Event>, ids: seq<NodeId>, i: nat, call: Call): seq<Event>
    requires i <= |ids|
  {
    WithReports(run, log, Stragglers(run, log, ids[..i]), call)
  }

  lemma {:induction false} StragglersNext(run: RunId, log: seq<Event>, ids: seq<NodeId>, i: nat)
    requires i < |ids|
    ensures Stragglers(run, log, ids[..i + 1]) ==
            if Straggler(run, log, ids[i]) then Stragglers(run, log, ids[..i]) + [ids[i]]
            else Stragglers(run, log, ids[..i])
  {
    assert ids[..i + 1][..i] == ids[..i] && ids[..i + 1][i] == ids[i];
  }

  lemma PrefixLands(run: RunId, log: seq<Event>, ids: seq<NodeId>, i: nat, call: Call)
    requires i < |ids| && Distinct(ids)
    ensures var l := ReportedUpTo(run, log, ids, i, call);
            log <= l && (Straggler(run, log, ids[i]) ==> Straggler(run, l, ids[i]))
  {
    var xs := Stragglers(run, log, ids[..i]);
    StragglersOf(run, log, ids[..i]);
    ReportsFold(run, log, xs, call);
    ReportsKeys(run, log, xs, call);
    if Straggler(run, log, ids[i]) { StillStraggler(run, log, ReportedUpTo(run, log, ids, i, call), xs, ids[i]); }
  }

  lemma ReportedNext(run: RunId, log: seq<Event>, ids: seq<NodeId>, i: nat, call: Call)
    requires i < |ids|
    ensures var l := ReportedUpTo(run, log, ids, i, call);
            ReportedUpTo(run, log, ids, i + 1, call) ==
              l + ReportsFor(run, log, l, call.clock, ids[i], RUN_SUMMARY, call.reason)
  {
    StragglersNext(run, log, ids, i);
    WithReportsNext(run, log, Stragglers(run, log, ids[..i]), ids[i], call);
    var l := ReportedUpTo(run, log, ids, i, call);
    assert l + [] == l;
  }

  /** The result lists after the first `i` nodes. */
  ghost predicate Progress(log: seq<Event>, ids: seq<NodeId>, i: nat, cancelled: seq<NodeId>, settled: seq<NodeId>)
    requires i <= |ids|
  {
    && multiset(cancelled) + multiset(settled) == multiset(ids[..i])
    && (forall id :: id in settled ==> id in FoldStatus(log).status && FoldStatus(log).status[id].IsTerminal())
    && (forall id :: id in cancelled ==> WillRead(log, id))
  }

  lemma {:induction false} ProgressNext(log: seq<Event>, ids: seq<NodeId>, i: nat, cancelled: seq<NodeId>,
      settled: seq<NodeId>)
    requires i < |ids| && Progress(log, ids, i, cancelled, settled)
    ensures WillRead(log, ids[i]) ==> Progress(log, ids, i + 1, cancelled + [ids[i]], settled)
    ensures ids[i] in FoldStatus(log).status && FoldStatus(log).status[ids[i]].IsTerminal() ==>
              Progress(log, ids, i + 1, cancelled, settled + [ids[i]])
  {
    assert ids[..i + 1] == ids[..i] + [ids[i]];
  }

  /** The loop's state after `i` nodes. */
  ghost predicate Tallied(d: Disk, ids: seq<NodeId>, i: nat, call: Call, t: Tally)
    requires i <= |ids|
  {
    && t.ok && Startable(t.d) && t.d.log == ReportedUpTo(d.st.run, d.log, ids, i, call) && Onward(d.st, t.d.st)
    && Progress(d.log, ids, i, t.cancelled, t.settled)
  }

  /** One turn of the loop, from a disk that has the reports of the first `i` nodes. */
  lemma TurnAdvances(d: Disk, e: Disk, ids: seq<NodeId>, i: nat, call: Call)
    requires Disciplined(d.st.run, d.log) && i < |ids| && Distinct(ids) && ids[i] in FoldStatus(d.log).status
    requires Startable(e) && e.st.run == d.st.run && e.log == ReportedUpTo(d.st.run, d.log, ids, i, call)
    ensures var u := SettleOn(e, PriorReport(d.st.run, d.log, ids[i]), FoldStatus(d.log).status[ids[i]], call.clock,
            ids[i], RUN_SUMMARY, call.reason);
            && u.ok && Startable(u.d) && Onward(e.st, u.d.st)
            && u.d.log == ReportedUpTo(d.st.run, d.log, ids, i + 1, call)
            && (if u.cancelled then WillRead(d.log, ids[i]) else FoldStatus(d.log).status[ids[i]].IsTerminal())
            && (u.cancelled <==> ActsOn(e, d.log, ids[i]))
  {
    PrefixLands(d.st.run, d.log, ids, i, call);
    ReportedNext(d.st.run, d.log, ids, i, call);
    SettleAdvances(e, d.log, call.clock, ids[i], RUN_SUMMARY, call.reason);
  }

  lemma TalliedNext(d: Disk, ids: seq<NodeId>, i: nat, call: Call, t: Tally)
    requires Disciplined(d.st.run, d.log) && i < |ids| && Distinct(ids) && ids[i] in FoldStatus(d.log).status
    requires Tallied(d, ids, i, call, t)
    ensures Tallied(d, ids, i + 1, call,
              AddTurn(t, ids[i], SettleOn(t.d, PriorReport(d.st.run, d.log, ids[i]), FoldStatus(d.log).status[ids[i]],
                                          call.clock, ids[i], RUN_SUMMARY, call.reason)))
  {
    TurnAdvances(d, t.d, ids, i, call);
    ProgressNext(d.log, ids, i, t.cancelled, t.settled);
  }

  lemma {:induction false} FactAt(log: seq<Event>, i: nat)
    requires i < |NodeIds(log)|
    ensures |NodeStatusFacts(log, None)| == |NodeIds(log)| && NodeIds(log)[i] in FoldStatus(log).status
    ensures NodeStatusFacts(log, None)[i].id == NodeIds(log)[i]
    ensures NodeStatusFacts(log, None)[i].status == FoldStatus(log).status[NodeIds(log)[i]]
  {
    NodeIdsAreTheNodes(log);
    assert NodeIds(log)[i] in NodeIds(log);
  }

  /** A node is listed as cancelled exactly when its turn did something about it, and as settled
      otherwise. */
  lemma {:induction false} TurnAnswers(d: Disk, i: nat, call: Call)
    requires Startable(d) && i < |NodeIds(d.log)| && |AllFacts(d)| == |NodeIds(d.log)|
    ensures var a, b := SettleAll(d, AllFacts(d), i, call), SettleAll(d, AllFacts(d), i + 1, call);
            var id := NodeIds(d.log)[i];
            if ActsOn(a.d, d.log, id) then b.cancelled == a.cancelled + [id] && b.settled == a.settled
            else b.cancelled == a.cancelled && b.settled == a.settled + [id]
  {
    SettleAllTallied(d, i, call);
    FactAt(d.log, i);
    NodeIdsDistinct(d.log);
    TurnAdvances(d, AfterTurns(d, i, call), NodeIds(d.log), i, call);
    SettleAllNext(d, AllFacts(d), i, call);
  }

  lemma {:induction false} SettleAllTallied(d: Disk, i: nat, call: Call)
    requires Startable(d) && i <= |NodeIds(d.log)| && |AllFacts(d)| == |NodeIds(d.log)|
    ensures Tallied(d, NodeIds(d.log), i, call, SettleAll(d, AllFacts(d), i, call))
  {
    if i == 0 {
      TallyStarts(d, call);
    } else {
      var j := i - 1;
      SettleAllTallied(d, j, call);
      FactAt(d.log, j);
      NodeIdsDistinct(d.log);
      TalliedNext(d, NodeIds(d.log), j, call, SettleAll(d, AllFacts(d), j, call));
      SettleAllNext(d, AllFacts(d), j, call);
    }
  }

  lemma SettleAllNext(d: Disk, facts: seq<Fact>, j: nat, call: Call)
    requires j < |facts| && SettleAll(d, facts, j, call).ok
    ensures var t := SettleAll(d, facts, j, call);
            SettleAll(d, facts, j + 1, call) ==
              AddTurn(t, facts[j].id, SettleOn(t.d, PriorReport(d.st.run, d.log, facts[j].id), facts[j].status,
                                               call.clock, facts[j].id, RUN_SUMMARY, call.reason))
  {}

  lemma TallyStarts(d: Disk, call: Call)
    requires Startable(d)
    ensures Tallied(d, NodeIds(d.log), 0, call, Tally(true, d, [], []))
  {
    assert NodeIds(d.log)[..0] == [];
  }

  /** The two result lists partition the logged node set: settled ones were terminal on entry,
      cancelled ones are Cancelled now. */
  ghost predicate Partition(log: seq<Event>, l: seq<Event>, cancelled: seq<NodeId>, settled: seq<NodeId>) {
    && multiset(cancelled) + multiset(settled) == multiset(NodeIds(log))
    && (forall id :: id in settled ==> id in FoldStatus(log).status && FoldStatus(log).status[id].IsTerminal())
    && (forall id :: id in cancelled ==> id in FoldStatus(l).status && FoldStatus(l).status[id] == Cancelled)
  }

  lemma ProgressDone(log: seq<Event>, l: seq<Event>, cancelled: seq<NodeId>, settled: seq<NodeId>)
    requires Progress(log, NodeIds(log), |NodeIds(log)|, cancelled, settled) && LiveOnesCancelled(log, l)
    ensures Partition(log, l, cancelled, settled)
  {
    var ids := NodeIds(log);
    assert ids[..|ids|] == ids;
    forall id | id in cancelled ensures id in FoldStatus(l).status && FoldStatus(l).status[id] == Cancelled {
      assert WillRead(log, id);
    }
  }

  /** `cancel_run` completes from every disk it may start from, whatever the projections hold. It
      leaves exactly `CancelledLog`: every logged node terminal in the log fold, cancel keys
      unique; the manifest on disk reads terminal; and the result lists partition the node
      set. */
  lemma CancelCompletes(d: Disk, call: Call)
    requires Startable(d) && call.wasCancelled == ReadsCancelled(d.st)
    ensures var t := CancelOn(d, call);
            && t.ok && Startable(t.d) && Onward(d.st, t.d.st) && ReadsTerminal(t.d.st)
            && t.d.log == CancelledLog(d.st.run, d.log, call) && Settles(d.st.run, d.log, t.d.log)
            && Partition(d.log, t.d.log, t.cancelled, t.settled)
  {
    NodesComplete(d, call);
    var t := SettleAll(d, AllFacts(d), |AllFacts(d)|, call);
    CancelSettles(d.st.run, d.log, call);
    ProgressDone(d.log, CancelledLog(d.st.run, d.log, call), t.cancelled, t.settled);
    StatusCompletes(d, t.d, call);
  }

  /** The node loop, complete. */
  lemma {:induction false} NodesComplete(d: Disk, call: Call)
    requires Startable(d)
    ensures var t := SettleAll(d, AllFacts(d), |AllFacts(d)|, call);
            && t.ok && Startable(t.d) && Onward(d.st, t.d.st) && t.d.log == Reported(d.st.run, d.log, call)
            && Progress(d.log, NodeIds(d.log), |NodeIds(d.log)|, t.cancelled, t.settled)
  {
    NodeIdsAreTheNodes(d.log);
    SettleAllTallied(d, |NodeIds(d.log)|, call);
    ReportedAll(d.st.run, d.log, call);
  }

  /** The run status after the node loop. */
  lemma StatusCompletes(d: Disk, e: Disk, call: Call)
    requires Disciplined(d.st.run, d.log) && Startable(e) && Onward(d.st, e.st)
    requires e.log == Reported(d.st.run, d.log, call)
    requires call.wasCancelled ==> ReadsCancelled(e.st)
    ensures call.wasCancelled ==> ReadsTerminal(e.st) && e.log == CancelledLog(d.st.run, d.log, call)
    ensures !call.wasCancelled ==>
              var u := RecordOn(e, PriorStatus(d.st.run, d.log), call.clock, call.Ends());
              && u.ok && Startable(u.d) && Onward(d.st, u.d.st) && ReadsTerminal(u.d.st)
              && u.d.log == CancelledLog(d.st.run, d.log, call)
  {
    ReportsSettle(d.st.run, d.log, call);
    if !call.wasCancelled { StatusRecorded(d.st.run, d.log, e, call); }
  }

  lemma StatusRecorded(run: RunId, log0: seq<Event>, e: Disk, call: Call)
    requires Startable(e) && e.st.run == run && AllSettled(e.log)
    requires PriorStatus(run, e.log) == PriorStatus(run, log0) && !call.wasCancelled
    ensures var u := RecordOn(e, PriorStatus(run, log0), call.clock, call.Ends());
            && u.ok && Startable(u.d) && Onward(e.st, u.d.st) && ReadsTerminal(u.d.st)
            && u.d.log == WithStatus(run, log0, e.log, call)
  {
    RecordAdvances(e, call.clock, call.Ends());
    assert e.log + [] == e.log;
  }

  lemma ReportedAll(run: RunId, log: seq<Event>, call: Call)
    ensures ReportedUpTo(run, log, NodeIds(log), |NodeIds(log)|, call) == Reported(run, log, call)
  {
    assert NodeIds(log)[..|NodeIds(log)|] == NodeIds(log);
  }

  // ---- a call cut anywhere, then a complete one ----

  /** The event a call appends after its first `i` turns, if any. */
  function NextEvent(d: Disk, e: Disk, i: nat, call: Call): Option<Event>
    requires i <= |NodeIds(d.log)|
  {
    if i < |NodeIds(d.log)| then
      if Straggler(d.st.run, d.log, NodeIds(d.log)[i])
      then Some(NextReport(e, call.clock, NodeIds(d.log)[i], RUN_SUMMARY, call.reason)) else None
    else if call.wasCancelled || PriorStatus(d.st.run, d.log).Some? then None
    else Some(NextStatus(e, call.clock, call.Ends()))
  }

  /** A crash inside the lock hold that follows disk `e`. */
  ghost predicate CutFrom(d: Disk, e: Disk, i: nat, call: Call, cut: Disk)
    requires i <= |NodeIds(d.log)|
  {
    && Hold(Nothing, e, cut)
    && (cut.log == e.log || (NextEvent(d, e, i, call).Some? && cut.log == e.log + [NextEvent(d, e, i, call).value]))
  }

  /** The disk after `i` turns. */
  function AfterTurns(d: Disk, i: nat, call: Call): Disk
    requires i <= |AllFacts(d)|
  {
    SettleAll(d, AllFacts(d), i, call).d
  }

  /** The disk a `cancel_run` leaves when a crash cuts it during or after its `i`-th turn. */
  ghost predicate CancelCut(d: Disk, call: Call, i: nat, cut: Disk) {
    i <= |NodeIds(d.log)| && i <= |AllFacts(d)| && CutFrom(d, AfterTurns(d, i, call), i, call, cut)
  }

  lemma {:induction false} ReportedGrows(run: RunId, log: seq<Event>, ids: seq<NodeId>, i: nat, call: Call)
    requires i <= |ids|
    ensures ReportedUpTo(run, log, ids, i, call) <= ReportedUpTo(run, log, ids, |ids|, call)
    decreases |ids| - i
  {
    if i < |ids| {
      ReportedGrows(run, log, ids, i + 1, call);
      ReportedNext(run, log, ids, i, call);
    }
  }

  /** The event may follow `l`: it is well placed, and the log with it is still a part of the
      call's log. */
  ghost predicate Fits(run: RunId, log: seq<Event>, l: seq<Event>, ev: Event, call: Call) {
    Placed(run, l, ev) && l + [ev] <= CancelledLog(run, log, call)
  }

  lemma NextEventFits(d: Disk, e: Disk, i: nat, call: Call)
    requires Disciplined(d.st.run, d.log) && LogRunStatus(d.log).Some? && i <= |NodeIds(d.log)|
    requires e.log == ReportedUpTo(d.st.run, d.log, NodeIds(d.log), i, call) && e.st.run == d.st.run
    ensures NextEvent(d, e, i, call).Some? ==> Fits(d.st.run, d.log, e.log, NextEvent(d, e, i, call).value, call)
  {
    if i == |NodeIds(d.log)| {
      if !call.wasCancelled && PriorStatus(d.st.run, d.log).None? { StatusEventFits(d.st.run, d.log, e.log, call); }
    } else if Straggler(d.st.run, d.log, NodeIds(d.log)[i]) {
      ReportEventFits(d.st.run, d.log, e.log, i, call);
    }
  }

  lemma ReportedWithin(run: RunId, log: seq<Event>, i: nat, call: Call)
    requires i <= |NodeIds(log)|
    ensures ReportedUpTo(run, log, NodeIds(log), i, call) <= CancelledLog(run, log, call)
  {
    ReportedGrows(run, log, NodeIds(log), i, call);
    ReportedAll(run, log, call);
  }

  lemma ReportEventFits(run: RunId, log: seq<Event>, l: seq<Event>, i: nat, call: Call)
    requires i < |NodeIds(log)| && Straggler(run, log, NodeIds(log)[i])
    requires l == ReportedUpTo(run, log, NodeIds(log), i, call)
    ensures var ev := ReportEvent(run, |l| + 1, call.clock(|l| + 1), NodeIds(log)[i], RUN_SUMMARY, call.reason);
            Fits(run, log, l, ev, call)
  {
    NodeIdsDistinct(log);
    PrefixLands(run, log, NodeIds(log), i, call);
    ReportPlaced(run, l, |l| + 1, call.clock(|l| + 1), NodeIds(log)[i], RUN_SUMMARY, call.reason);
    ReportWithin(run, log, l, i, call);
  }

  lemma ReportWithin(run: RunId, log: seq<Event>, l: seq<Event>, i: nat, call: Call)
    requires i < |NodeIds(log)| && Straggler(run, log, NodeIds(log)[i])
    requires l == ReportedUpTo(run, log, NodeIds(log), i, call)
    ensures var ev := ReportEvent(run, |l| + 1, call.clock(|l| + 1), NodeIds(log)[i], RUN_SUMMARY, call.reason);
            l + [ev] <= CancelledLog(run, log, call)
  {
    ReportedNext(run, log, NodeIds(log), i, call);
    ReportedWithin(run, log, i + 1, call);
  }

  lemma {:induction false} StatusEventFits(run: RunId, log: seq<Event>, l: seq<Event>, call: Call)
    requires Disciplined(run, log) && LogRunStatus(log).Some? && PriorStatus(run, log).None? && !call.wasCancelled
    requires l == ReportedUpTo(run, log, NodeIds(log), |NodeIds(log)|, call)
    ensures Fits(run, log, l, StatusEvent(run, |l| + 1, call.clock(|l| + 1), call.Ends()), call)
  {
    ReportedAll(run, log, call);
    ReportedTakesStatus(run, log, call);
    assert CancelledLog(run, log, call) == l + [StatusEvent(run, |l| + 1, call.clock(|l| + 1), call.Ends())];
  }

  lemma {:induction false} ReportedTakesStatus(run: RunId, log: seq<Event>, call: Call)
    requires Disciplined(run, log) && LogRunStatus(log).Some? && PriorStatus(run, log).None?
    ensures var l := Reported(run, log, call);
            Placed(run, l, StatusEvent(run, |l| + 1, call.clock(|l| + 1), call.Ends()))
  {
    ReportsSettle(run, log, call);
    SettledTakesStatus(run, log, Reported(run, log, call), call);
  }

  lemma {:induction false} SettledTakesStatus(run: RunId, log: seq<Event>, l: seq<Event>, call: Call)
    requires Settles(run, log, l) && LogRunStatus(log).Some? && PriorStatus(run, l).None?
    ensures Placed(run, l, StatusEvent(run, |l| + 1, call.clock(|l| + 1), call.Ends()))
  {
    LogRunStatusGrows(log, l);
    StatusPlaced(run, l, |l| + 1, call.clock(|l| + 1), call.Ends());
  }

  /** However a call is cut, a crash in a lossy window included, the disk it leaves may be started
      from, and its log is a part of the log the complete call would have left. */
  lemma CancelCutStartable(d: Disk, call: Call, i: nat, cut: Disk)
    requires Startable(d) && CancelCut(d, call, i, cut)
    ensures Startable(cut) && cut.st.run == d.st.run && cut.log <= CancelledLog(d.st.run, d.log, call)
    ensures d.log <= cut.log
  {
    NodeIdsAreTheNodes(d.log);
    SettleAllTallied(d, i, call);
    var e := AfterTurns(d, i, call);
    NextEventFits(d, e, i, call);
    ReportedWithin(d.st.run, d.log, i, call);
    TurnsExtend(d.st.run, d.log, i, call);
    CutFromStartable(d, e, i, call, cut);
  }

  lemma TurnsExtend(run: RunId, log: seq<Event>, i: nat, call: Call)
    requires i <= |NodeIds(log)|
    ensures log <= ReportedUpTo(run, log, NodeIds(log), i, call)
  {
    ReportTail(run, log, Stragglers(run, log, NodeIds(log)[..i]), call);
  }

  lemma CutFromStartable(d: Disk, e: Disk, i: nat, call: Call, cut: Disk)
    requires i <= |NodeIds(d.log)| && Startable(e) && e.st.run == d.st.run && d.log <= e.log
    requires CutFrom(d, e, i, call, cut) && e.log <= CancelledLog(d.st.run, d.log, call)
    requires NextEvent(d, e, i, call).Some? ==> Fits(d.st.run, d.log, e.log, NextEvent(d, e, i, call).value, call)
    ensures Startable(cut) && cut.st.run == d.st.run
    ensures cut.log <= CancelledLog(d.st.run, d.log, call) && d.log <= cut.log
  {
    HoldOnward(e, cut);
    HoldGrowth(Nothing, e, cut);
    if cut.log != e.log { CutGrowsStartable(e, cut, NextEvent(d, e, i, call).value); }
  }

  lemma CutGrowsStartable(e: Disk, cut: Disk, ev: Event)
    requires Startable(e) && Onward(e.st, cut.st) && Placed(e.st.run, e.log, ev)
    requires cut.log == e.log + [ev] && ev.seqNo == |e.log| + 1 && ev.runId == e.st.run
    ensures Startable(cut)
  {
    DisciplinedAppend(e.st.run, e.log, ev);
    LogRunStatusGrows(e.log, cut.log);
  }

  /** Cancel converges across crashes, on disk. Cut one `cancel_run` anywhere at all; a complete
      call from what it left settles every logged node, makes the manifest read terminal, keeps
      one event per cancel key; and a further call is either refused, because the run reads
      done or failed, or appends nothing. */
  lemma CancelConvergesOnDisk(d: Disk, first: Call, i: nat, cut: Disk, second: Call, third: Call)
    requires Startable(d) && CancelCut(d, first, i, cut)
    requires second.wasCancelled == ReadsCancelled(cut.st)
    ensures var t := CancelOn(cut, second);
            && t.ok && Startable(t.d) && AllSettled(t.d.log) && ReadsTerminal(t.d.st)
            && Disciplined(d.st.run, t.d.log) && NodeIds(t.d.log) == NodeIds(d.log)
            && (third.wasCancelled && ReadsCancelled(t.d.st) ==> CancelOn(t.d, third).d.log == t.d.log)
  {
    CancelCutStartable(d, first, i, cut);
    CancelCompletes(cut, second);
    CutListsSameNodes(d.st.run, d.log, first, cut.log);
    if third.wasCancelled && ReadsCancelled(CancelOn(cut, second).d.st) { FurtherCall(CancelOn(cut, second).d, third); }
  }

  lemma CutListsSameNodes(run: RunId, log: seq<Event>, call: Call, cut: seq<Event>)
    requires log <= cut <= CancelledLog(run, log, call)
    ensures NodeIds(cut) == NodeIds(log)
  {
    assert CancelledLog(run, log, call)[..|cut|] == cut;
    CutKeepsNodes(run, log, call, |cut|);
  }

  /** Nothing is left to do on a settled, cancelled run. */
  lemma FurtherCall(d: Disk, call: Call)
    requires Startable(d) && AllSettled(d.log) && ReadsCancelled(d.st) && call.wasCancelled
    ensures CancelOn(d, call).d.log == d.log
  {
    CancelCompletes(d, call);
    NoStragglers(d.st.run, d.log, NodeIds(d.log));
  }

  // ---- one node, with the last-node roll-up ----

  /** The log after the target has been settled. */
  function NodeReported(run: RunId, log: seq<Event>, id: NodeId, clock: Clock, reason: string): seq<Event> {
    log + ReportsFor(run, log, log, clock, id, NODE_SUMMARY, reason)
  }

  /** What settling one node does: nothing to its siblings, and it becomes Cancelled if it was
      live. */
  lemma {:induction false} NodeReportedFold(run: RunId, log: seq<Event>, id: NodeId, clock: Clock, reason: string)
    requires Disciplined(run, log) && id in FoldStatus(log).status
    ensures var l := NodeReported(run, log, id, clock, reason);
            && Disciplined(run, l) && NodeIds(l) == NodeIds(log)
            && FoldStatus(l).status == FoldStatus(log).status[id :=
                 if FoldStatus(log).status[id].IsTerminal() then FoldStatus(log).status[id] else Cancelled]
            && PriorStatus(run, l) == PriorStatus(run, log)
  {
    StragglersAreLive(run, log, id);
    if Straggler(run, log, id) {
      var ev := ReportEvent(run, |log| + 1, clock(|log| + 1), id, NODE_SUMMARY, reason);
      ReportObserved(run, log, |log| + 1, clock(|log| + 1), id, NODE_SUMMARY, reason);
      ReportPlaced(run, log, |log| + 1, clock(|log| + 1), id, NODE_SUMMARY, reason);
      DisciplinedAppend(run, log, ev);
      KeysApart(run, log, ev, id, NodeId(id.digits + "0"));
    } else {
      assert log + [] == log;
    }
  }

  /** The run outcome the log's nodes roll up to. */
  function RollUp(log: seq<Event>): Option<Status> {
    Aggregate(Statuses(NodeStatusFacts(log, None)))
  }

  lemma AllTerminalIsSettled(a: Acc, ids: seq<NodeId>)
    requires forall id :: id in ids <==> id in a.status
    ensures AllTerminal(Statuses(FactsOf(a, ids))) <==> forall id :: id in a.status ==> a.status[id].IsTerminal()
  {
    var ss := Statuses(FactsOf(a, ids));
    assert forall i :: 0 <= i < |ids| ==> ids[i] in ids && ss[i] == a.status[ids[i]];
    if AllTerminal(ss) {
      forall id | id in a.status ensures a.status[id].IsTerminal() {
        var i :| 0 <= i < |ids| && ids[i] == id;
        assert ss[i].IsTerminal();
      }
    }
  }

  lemma AggregateMeansSettled(a: Acc, ids: seq<NodeId>)
    requires forall id :: id in ids <==> id in a.status
    ensures var agg := Aggregate(Statuses(FactsOf(a, ids)));
            && (agg.Some? <==> ids != [] && forall id :: id in a.status ==> a.status[id].IsTerminal())
            && (agg.Some? ==> agg.value.IsTerminal())
  {
    AllTerminalIsSettled(a, ids);
  }

  /** A run rolls up exactly when it has nodes and none of them is live. */
  lemma RollUpMeansSettled(log: seq<Event>)
    ensures RollUp(log).Some? <==> NodeIds(log) != [] && AllSettled(log)
    ensures RollUp(log).Some? ==> RollUp(log).value.IsTerminal()
  {
    NodeIdsAreTheNodes(log);
    AggregateMeansSettled(FoldStatus(log), NodeIds(log));
  }

  /** The log's nodes are all terminal and roll up to this outcome: a failure dominates a
      cancellation, which dominates success. */
  ghost predicate RollsUpTo(log: seq<Event>, s: Status) {
    && NodeIds(log) != [] && AllSettled(log)
    && match s
       case Failed => Reads(log, Failed)
       case Cancelled => !Reads(log, Failed) && Reads(log, Cancelled)
       case Done => !Reads(log, Failed) && !Reads(log, Cancelled)
       case _ => false
  }

  /** Some node of the log has this status. */
  ghost predicate Reads(log: seq<Event>, s: Status) {
    exists id :: id in FoldStatus(log).status && FoldStatus(log).status[id] == s
  }

  lemma {:induction false} StatusListed(log: seq<Event>, s: Status)
    ensures s in Statuses(NodeStatusFacts(log, None)) <==> Reads(log, s)
  {
    NodeIdsAreTheNodes(log);
    ListedStatus(FoldStatus(log), NodeIds(log), s);
  }

  lemma {:induction false} ListedStatus(a: Acc, ids: seq<NodeId>, s: Status)
    requires forall id :: id in ids <==> id in a.status
    ensures s in Statuses(FactsOf(a, ids)) <==> exists id :: id in a.status && a.status[id] == s
  {
    var ss := Statuses(FactsOf(a, ids));
    assert forall i :: 0 <= i < |ids| ==> ids[i] in ids && ss[i] == a.status[ids[i]];
    if id :| id in a.status && a.status[id] == s {
      var i :| 0 <= i < |ids| && ids[i] == id;
      assert ss[i] == s;
    }
  }

  /** Which outcome a run rolls up to. */
  lemma {:induction false} RollUpExactly(log: seq<Event>, s: Status)
    ensures RollUp(log) == Some(s) <==> RollsUpTo(log, s)
  {
    RollUpMeansSettled(log);
    StatusListed(log, Failed);
    StatusListed(log, Cancelled);
  }

  /** The ledger's statuses with the target's replaced. */
  function Effective(facts: seq<Fact>, target: NodeId, status: Status): (ss: seq<Status>)
    ensures |ss| == |facts|
    ensures forall i :: 0 <= i < |facts| ==> ss[i] == if facts[i].id == target then status else facts[i].status
  {
    seq(|facts|, i requires 0 <= i < |facts| => if facts[i].id == target then status else facts[i].status)
  }

  lemma EffectiveFacts(a: Acc, b: Acc, ids: seq<NodeId>, target: NodeId, status: Status)
    requires (forall id :: id in ids ==> id in a.status && id in b.status) && b.status == a.status[target := status]
    ensures Effective(FactsOf(a, ids), target, status) == Statuses(FactsOf(b, ids))
  {
    assert forall i :: 0 <= i < |ids| ==> ids[i] in ids;
  }

  /** With the override they are the statuses of the log after the settlement. */
  lemma {:induction false} EffectiveIsFold(log: seq<Event>, l: seq<Event>, target: NodeId, status: Status)
    requires NodeIds(l) == NodeIds(log) && FoldStatus(l).status == FoldStatus(log).status[target := status]
    ensures Effective(NodeStatusFacts(log, None), target, status) == Statuses(NodeStatusFacts(l, None))
  {
    NodeIdsAreTheNodes(log);
    NodeIdsAreTheNodes(l);
    EffectiveFacts(FoldStatus(log), FoldStatus(l), NodeIds(log), target, status);
  }

  /** The disk and the answers of one `cancel_node`. */
  datatype NodeTurn = NodeTurn(ok: bool, d: Disk, cancelled: bool, rolled: Option<Status>)

  /** Roll the run up after a settlement, unless it was terminal or a node is left live. */
  function RollUpOn(u: Turn, prior: Option<Event>, onEntry: Status, statuses: seq<Status>, clock: Clock): NodeTurn {
    if !u.ok || onEntry.IsTerminal() || Aggregate(statuses).None? then NodeTurn(u.ok, u.d, u.cancelled, None)
    else
      var v := RecordOn(u.d, prior, clock, Ending(Aggregate(statuses).value, None));
      NodeTurn(v.ok, v.d, u.cancelled, Aggregate(statuses))
  }

  function CancelNodeOn(d: Disk, onEntry: Status, facts: seq<Fact>, fact: Fact, clock: Clock,
      reason: string): NodeTurn {
    var u := SettleOn(d, PriorReport(d.st.run, d.log, fact.id), fact.status, clock, fact.id, NODE_SUMMARY, reason);
    RollUpOn(u, PriorStatus(d.st.run, d.log), onEntry,
        Effective(facts, fact.id, if u.cancelled then Cancelled else fact.status), clock)
  }

  /** One run status after `mid`, exactly when the run was live and no node is left live. */
  ghost predicate RolledUp(run: RunId, mid: seq<Event>, prior: Option<Event>, onEntry: Status, clock: Clock,
      rolled: Option<Status>, l: seq<Event>) {
    && rolled == (if onEntry.IsTerminal() then None else RollUp(mid))
    && l == if rolled.None? || prior.Some? then mid
            else mid + [StatusEvent(run, |mid| + 1, clock(|mid| + 1), Ending(rolled.value, None))]
  }

  /** The log and the answer of a completed `cancel_node`: the target's report if it was live,
      then the roll-up. */
  ghost predicate NodeCancelled(run: RunId, log: seq<Event>, onEntry: Status, id: NodeId, clock: Clock, reason: string,
                                rolled: Option<Status>, l: seq<Event>) {
    RolledUp(run, NodeReported(run, log, id, clock, reason), PriorStatus(run, log), onEntry, clock, rolled, l)
  }

  /** `cancel_node` completes from every disk it may start from, rolls the run up exactly when it
      was live and the target was its last live node, and the manifest then reads terminal. */
  lemma CancelNodeCompletes(d: Disk, onEntry: Status, fact: Fact, clock: Clock, reason: string)
    requires Startable(d) && fact.id in FoldStatus(d.log).status && fact.status == FoldStatus(d.log).status[fact.id]
    ensures var t := CancelNodeOn(d, onEntry, AllFacts(d), fact, clock, reason);
            && t.ok && Startable(t.d) && Onward(d.st, t.d.st)
            && NodeCancelled(d.st.run, d.log, onEntry, fact.id, clock, reason, t.rolled, t.d.log)
            && (if t.cancelled then WillRead(d.log, fact.id) else fact.status.IsTerminal())
            && (t.cancelled <==> ActsOn(d, d.log, fact.id))
            && (t.rolled.Some? ==> ReadsTerminal(t.d.st))
            && forall s: Status :: t.rolled == Some(s) <==> !onEntry.IsTerminal() && RollsUpTo(t.d.log, s)
  {
    NodeSettles(d, fact, clock, reason);
    var u := SettleOn(d, PriorReport(d.st.run, d.log, fact.id), fact.status, clock, fact.id, NODE_SUMMARY, reason);
    var effective := if u.cancelled then Cancelled else fact.status;
    EffectiveIsFold(d.log, u.d.log, fact.id, effective);
    RollUpAdvances(u, PriorStatus(d.st.run, d.log), onEntry, Effective(AllFacts(d), fact.id, effective), clock);
    var t := CancelNodeOn(d, onEntry, AllFacts(d), fact, clock, reason);
    RolledIsExact(d.st.run, u.d.log, PriorStatus(d.st.run, d.log), onEntry, clock, t.rolled, t.d.log);
  }

  /** The outcome of the roll-up, in the log it leaves. */
  lemma {:induction false} RolledIsExact(run: RunId, mid: seq<Event>, prior: Option<Event>, onEntry: Status,
      clock: Clock, rolled: Option<Status>, l: seq<Event>)
    requires RolledUp(run, mid, prior, onEntry, clock, rolled, l)
    ensures forall s: Status :: rolled == Some(s) <==> !onEntry.IsTerminal() && RollsUpTo(l, s)
  {
    if l != mid { StatusObserved(run, mid, |mid| + 1, clock(|mid| + 1), Ending(rolled.value, None)); }
    forall s: Status ensures RollUp(mid) == Some(s) <==> RollsUpTo(l, s) { RollUpExactly(mid, s); }
  }

  lemma NodeSettles(d: Disk, fact: Fact, clock: Clock, reason: string)
    requires Startable(d) && fact.id in FoldStatus(d.log).status && fact.status == FoldStatus(d.log).status[fact.id]
    ensures var u := SettleOn(d, PriorReport(d.st.run, d.log, fact.id), fact.status, clock, fact.id, NODE_SUMMARY,
            reason);
            && u.ok && Startable(u.d) && Onward(d.st, u.d.st)
            && u.d.log == NodeReported(d.st.run, d.log, fact.id, clock, reason)
            && (if u.cancelled then WillRead(d.log, fact.id) else fact.status.IsTerminal())
            && (u.cancelled <==> ActsOn(d, d.log, fact.id))
            && NodeIds(u.d.log) == NodeIds(d.log) && PriorStatus(d.st.run, u.d.log) == PriorStatus(d.st.run, d.log)
            && var effective := if u.cancelled then Cancelled else fact.status;
               FoldStatus(u.d.log).status == FoldStatus(d.log).status[fact.id := effective]
  {
    NodeReportedFold(d.st.run, d.log, fact.id, clock, reason);
    SettleAdvances(d, d.log, clock, fact.id, NODE_SUMMARY, reason);
  }

  lemma RollUpAdvances(u: Turn, prior: Option<Event>, onEntry: Status, statuses: seq<Status>, clock: Clock)
    requires u.ok && Startable(u.d) && prior == PriorStatus(u.d.st.run, u.d.log)
    requires statuses == Statuses(NodeStatusFacts(u.d.log, None))
    ensures var t := RollUpOn(u, prior, onEntry, statuses, clock);
            && t.ok && Startable(t.d) && Onward(u.d.st, t.d.st) && t.cancelled == u.cancelled
            && RolledUp(u.d.st.run, u.d.log, prior, onEntry, clock, t.rolled, t.d.log)
            && (t.rolled.Some? ==> ReadsTerminal(t.d.st))
  {
    if !onEntry.IsTerminal() && RollUp(u.d.log).Some? { RolledUpAdvances(u.d, clock); }
  }

  lemma RolledUpAdvances(d: Disk, clock: Clock)
    requires Startable(d) && RollUp(d.log).Some?
    ensures var s, prior := Ending(RollUp(d.log).value, None), PriorStatus(d.st.run, d.log);
            var v := RecordOn(d, prior, clock, s);
            && v.ok && Startable(v.d) && Onward(d.st, v.d.st) && ReadsTerminal(v.d.st)
            && v.d.log == if prior.Some? then d.log
                          else d.log + [StatusEvent(d.st.run, |d.log| + 1, clock(|d.log| + 1), s)]
  {
    RollUpMeansSettled(d.log);
    RecordAdvances(d, clock, Ending(RollUp(d.log).value, None));
    assert d.log + [] == d.log;
  }
}

/** Every step of a cancel is a lock hold, so whatever lock holds keep, a cancel keeps: the disk
    agrees with the log after it, and equals the fold of the log if it did before. */
module CancelKeeps {
  import opened Prelude
  import opened Schema
  import opened NodeStatusFold
  import opened CrashSafety
  import opened CrashAgreement
  import opened CrashInvariants
  import opened Keyed
  import opened Cancel
  import opened CancelReady
  import opened CancelProtocol

  /** What lock holds keep of a disk. */
  ghost predicate Kept(d: Disk, e: Disk) {
    && Ready(e) && e.st.run == d.st.run && d.log <= e.log
    && (DiskInv(d.log, d.st) ==> DiskInv(e.log, e.st))
    && (Sane(d.log, d.st) ==> Sane(e.log, e.st))
  }

  /** A hold outside the lossy windows whose cancel-keyed event, if any, is well placed. */
  lemma HoldKept(d: Disk, e: Disk)
    requires Ready(d) && Hold(AllWindows, d, e) && (|e.log| > |d.log| ==> Placed(d.st.run, d.log, e.log[|d.log|]))
    ensures Kept(d, e)
  {
    HoldWidens(AllWindows, d, e);
    HoldKeepsReady(d, e);
    HoldGrowth(AllWindows, d, e);
    if DiskInv(d.log, d.st) { HoldKeeps(d, e); }
    if Sane(d.log, d.st) { HoldMoves(d, e); }
  }

  lemma AppendKept(d: Disk, ev: Event)
    requires Ready(d) && AppendOk(d, ev) && ev.seqNo == |d.log| + 1 && ev.runId == d.st.run
    requires Placed(d.st.run, d.log, ev)
    ensures Kept(d, AppendOn(d, ev))
  {
    assert FullAppend(d, AppendOn(d, ev), ev);
    assert AppendOn(d, ev).log[|d.log|] == ev;
    HoldKept(d, AppendOn(d, ev));
  }

  lemma RefoldReportKept(d: Disk, log0: seq<Event>, id: NodeId)
    requires Ready(d) && log0 <= d.log && PriorReport(d.st.run, log0, id).Some? && !ReadsSettled(d.st, id)
    ensures Kept(d, RefoldOn(d, PriorReport(d.st.run, log0, id).value))
  {
    var p := PriorIsLogged(d.st.run, log0, KNodeReport, NodeKey(d.st.run, id));
    assert d.log[p] == log0[p];
    ReportRefold(d, p, id);
    HoldKept(d, RefoldOn(d, d.log[p]));
  }

  /** One settled node. */
  lemma {:induction false} SettleKept(d: Disk, log0: seq<Event>, clock: Clock, id: NodeId, summary: string,
      reason: string)
    requires Ready(d) && log0 <= d.log && id in FoldStatus(log0).status
    requires Straggler(d.st.run, log0, id) ==> Straggler(d.st.run, d.log, id)
    ensures var status := FoldStatus(log0).status[id];
            Kept(d, SettleOn(d, PriorReport(d.st.run, log0, id), status, clock, id, summary, reason).d)
  {
    if PriorReport(d.st.run, log0, id).Some? {
      if !ReadsSettled(d.st, id) { RefoldReportKept(d, log0, id); }
    } else if !FoldStatus(log0).status[id].IsTerminal() {
      ReadyIsStartable(d);
      AppendReportAdvances(d, id, clock, summary, reason);
      ReportPlaced(d.st.run, d.log, |d.log| + 1, clock(|d.log| + 1), id, summary, reason);
      AppendKept(d, NextReport(d, clock, id, summary, reason));
    }
  }

  /** The recorded run status. */
  lemma RecordKept(d: Disk, clock: Clock, s: Ending)
    requires Ready(d) && AllSettled(d.log) && s.status.IsTerminal()
    ensures Kept(d, RecordOn(d, PriorStatus(d.st.run, d.log), clock, s).d)
  {
    ReadyIsStartable(d);
    if PriorStatus(d.st.run, d.log).Some? {
      var p := PriorIsLogged(d.st.run, d.log, KRunStatus, StatusKey(d.st.run));
      StatusRefold(d, p);
      HoldKept(d, RefoldOn(d, d.log[p]));
    } else {
      AppendStatusAdvances(d, clock, s);
      StatusPlaced(d.st.run, d.log, |d.log| + 1, clock(|d.log| + 1), s);
      AppendKept(d, NextStatus(d, clock, s));
    }
  }

  lemma KeptTwice(a: Disk, b: Disk, c: Disk)
    requires Kept(a, b) && Kept(b, c)
    ensures Kept(a, c)
  {}

  /** The node loop. */
  lemma {:induction false} TurnsKept(d: Disk, i: nat, call: Call)
    requires Ready(d) && i <= |NodeIds(d.log)| && |AllFacts(d)| == |NodeIds(d.log)|
    ensures Kept(d, AfterTurns(d, i, call))
  {
    if i > 0 {
      var j := i - 1;
      TurnsKept(d, j, call);
      ReadyIsStartable(d);
      SettleAllTallied(d, j, call);
      SettleAllNext(d, AllFacts(d), j, call);
      FactAt(d.log, j);
      NodeIdsDistinct(d.log);
      var e := AfterTurns(d, j, call);
      PrefixLands(d.st.run, d.log, NodeIds(d.log), j, call);
      SettleKept(e, d.log, call.clock, NodeIds(d.log)[j], RUN_SUMMARY, call.reason);
      KeptTwice(d, e, AfterTurns(d, i, call));
    }
  }

  /** A complete `cancel_run` from a disk any crash can leave leaves such a disk. */
  lemma CancelKeepsReady(d: Disk, call: Call)
    requires Ready(d) && call.wasCancelled == ReadsCancelled(d.st)
    ensures Kept(d, CancelOn(d, call).d)
  {
    ReadyIsStartable(d);
    NodeIdsAreTheNodes(d.log);
    NodesComplete(d, call);
    TurnsKept(d, |NodeIds(d.log)|, call);
    ReportsSettle(d.st.run, d.log, call);
    var e := AfterTurns(d, |NodeIds(d.log)|, call);
    if !call.wasCancelled {
      RecordKept(e, call.clock, call.Ends());
      KeptTwice(d, e, CancelOn(d, call).d);
    }
  }

  /** And so does one cut by a crash anywhere. */
  lemma CancelCutKeepsReady(d: Disk, call: Call, i: nat, cut: Disk)
    requires Ready(d) && CancelCut(d, call, i, cut)
    ensures Ready(cut) && cut.st.run == d.st.run && (Sane(d.log, d.st) ==> Sane(cut.log, cut.st))
  {
    ReadyIsStartable(d);
    NodeIdsAreTheNodes(d.log);
    SettleAllTallied(d, i, call);
    TurnsKept(d, i, call);
    var e := AfterTurns(d, i, call);
    NextEventFits(d, e, i, call);
    HoldGrowth(Nothing, e, cut);
    HoldKeepsReady(e, cut);
    if Sane(d.log, d.st) { HoldMoves(e, cut); }
  }

  /** A complete `cancel_node`. */
  lemma CancelNodeKeepsReady(d: Disk, onEntry: Status, fact: Fact, clock: Clock, reason: string)
    requires Ready(d) && fact.id in FoldStatus(d.log).status && fact.status == FoldStatus(d.log).status[fact.id]
    ensures Kept(d, CancelNodeOn(d, onEntry, AllFacts(d), fact, clock, reason).d)
  {
    ReadyIsStartable(d);
    NodeSettles(d, fact, clock, reason);
    SettleKept(d, d.log, clock, fact.id, NODE_SUMMARY, reason);
    var u := SettleOn(d, PriorReport(d.st.run, d.log, fact.id), fact.status, clock, fact.id, NODE_SUMMARY, reason);
    var effective := if u.cancelled then Cancelled else fact.status;
    EffectiveIsFold(d.log, u.d.log, fact.id, effective);
    RollUpKept(u, PriorStatus(d.st.run, d.log), onEntry, Effective(AllFacts(d), fact.id, effective), clock);
    KeptTwice(d, u.d, CancelNodeOn(d, onEntry, AllFacts(d), fact, clock, reason).d);
  }

  lemma RollUpKept(u: Turn, prior: Option<Event>, onEntry: Status, statuses: seq<Status>, clock: Clock)
    requires u.ok && Ready(u.d) && prior == PriorStatus(u.d.st.run, u.d.log)
    requires statuses == Statuses(NodeStatusFacts(u.d.log, None))
    ensures Kept(u.d, RollUpOn(u, prior, onEntry, statuses, clock).d)
  {
    RollUpMeansSettled(u.d.log);
    if !onEntry.IsTerminal() && RollUp(u.d.log).Some? { RecordKept(u.d, clock, Ending(RollUp(u.d.log).value, None)); }
  }
}

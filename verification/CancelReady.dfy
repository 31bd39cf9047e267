/** The disks cancellation may start from, and what folding a logged cancel event again does to
    one. */
module CancelReady {
  import opened Prelude
  import opened Schema
  import opened NodeStatusFold
  import opened Reducer
  import opened ReducerLaws
  import opened Recovery
  import opened CrashSafety
  import opened CrashAgreement
  import opened Keyed
  import opened Cancel

  /** All that cancellation needs: a numbered log of a created run, a manifest on disk, and cancel
      keys used by cancel alone. Nothing is asked of the projections. */
  ghost predicate Startable(d: Disk) {
    && WellSeq(d.st.run, d.log) && d.st.manifest.Some? && LogRunStatus(d.log).Some? && Disciplined(d.st.run, d.log)
  }

  /** A disk that some history of lock holds, cancels and crashes left behind. */
  ghost predicate Ready(d: Disk) {
    AnyDisk(d.log, d.st) && Disciplined(d.st.run, d.log)
  }

  lemma ReadyIsStartable(d: Disk)
    requires Ready(d)
    ensures Startable(d)
  {
    if InTheAir(d.log, d.st) { LogRunStatusGrows(d.log[..|d.log| - 1], d.log); }
  }

  /** Every lock hold, cut by a crash anywhere, keeps the disk ready, provided a cancel-keyed event
      it appends is well placed; in particular the log it leaves holds no run status of a cancel
      or roll-up before every earlier node is terminal. */
  lemma HoldKeepsReady(d: Disk, e: Disk)
    requires Ready(d) && Hold(Nothing, d, e)
    requires |e.log| > |d.log| ==> Placed(d.st.run, d.log, e.log[|d.log|])
    ensures Ready(e) && e.st.run == d.st.run
  {
    HoldKeepsAny(d, e);
    HoldGrowth(Nothing, d, e);
    if e.log != d.log { DisciplinedAppend(d.st.run, d.log, e.log[|d.log|]); }
  }

  // ---- run status along the protocol ----

  ghost predicate ReadsTerminal(st: Store) {
    st.manifest.Some? && st.manifest.value.status.IsTerminal()
  }

  ghost predicate ReadsCancelled(st: Store) {
    st.manifest.Some? && st.manifest.value.status == Cancelled
  }

  /** What every step of the protocol keeps of a manifest. */
  ghost predicate Onward(a: Store, b: Store) {
    && b.run == a.run && (a.manifest.Some? ==> b.manifest.Some?)
    && (ReadsCancelled(a) ==> ReadsCancelled(b)) && (ReadsTerminal(a) ==> ReadsTerminal(b))
  }

  lemma StepOnward(log: seq<Event>, st: Store, ev: Event)
    ensures Onward(st, Step(log, st, ev))
  {
    StepEvolves(log, st, ev);
  }

  lemma CutOnward(log: seq<Event>, st: Store, ev: Event, k: nat)
    ensures Onward(st, Cut(log, st, ev, k))
  {
    CutEvolves(log, st, ev, k);
  }

  lemma {:induction false} ReplayOnward(log: seq<Event>, base: nat, st: Store, i: nat)
    requires i <= |log|
    ensures Onward(st, ReplayTo(log, base, st, i))
  {
    if i > 0 {
      ReplayOnward(log, base, st, i - 1);
      StepOnward(log, ReplayTo(log, base, st, i - 1), log[i - 1]);
    }
  }

  lemma CatchUpOnward(log: seq<Event>, st: Store)
    ensures Onward(st, CatchUp(log, st))
  {
    ReplayOnward(log, Applied(st), st, |log|);
  }

  lemma HoldOnward(d: Disk, e: Disk)
    requires Hold(Nothing, d, e)
    ensures Onward(d.st, e.st)
  {
    CatchUpOnward(d.log, d.st);
    var s := CatchUp(d.log, d.st);
    if i: nat, k: nat :| ReplayCut(Nothing, d, e, i, k) {
      ReplayOnward(d.log, Applied(d.st), d.st, i);
      CutOnward(d.log, ReplayTo(d.log, Applied(d.st), d.st, i), d.log[i], k);
    } else if k: nat :| RefoldCut(Nothing, d, e, k) {
      CutOnward(d.log, d.st, d.log[|d.log| - 1], k);
    } else if ev, k: nat :| AppendCut(Nothing, d, e, ev, k) {
      CutOnward(d.log, s, ev, k);
    } else if ev :| FullAppend(d, e, ev) {
      StepOnward(d.log, s, ev);
    }
  }

  // ---- plans that are never refused ----

  /** A terminal run status without recovery claim, planned over any manifest. */
  lemma TerminalStatusPlan(log: seq<Event>, st: Store, ev: Event, s: Status)
    requires st.manifest.Some? && ev.runId == st.run && s.IsTerminal() && EndsRun(ev.body, s)
    ensures PlanEvent(log, st, ev).Accepted? && ReadsTerminal(Cut(log, st, ev, 2))
    ensures ReadsTerminal(st) ==> Cut(log, st, ev, 2) == st
  {
    CutShort(log, st, ev, 2);
  }

  /** A synthesized cancel report, planned over any store. */
  lemma CancelReportPlan(log: seq<Event>, st: Store, ev: Event, id: NodeId)
    requires ev.nodeId == Some(id) && ev.runId == st.run
    requires exists summary, reason :: ev.body == NodeReport(CancelReport(summary, reason))
    ensures PlanEvent(log, st, ev).Accepted?
  {
    var summary, reason :| ev.body == NodeReport(CancelReport(summary, reason));
    CancelReportCancels(summary, reason);
  }

  // ---- folding a logged cancel event again ----

  /** A logged cancel report and a logged cancel status, as events of the log. */
  lemma LoggedReport(run: RunId, log: seq<Event>, p: nat, id: NodeId)
    requires Disciplined(run, log) && p < |log| && NodeCancel(run, log[p], id)
    ensures log[p].nodeId == Some(id)
    ensures exists summary, reason :: log[p].body == NodeReport(CancelReport(summary, reason))
  {
    assert Placed(run, log[..p], log[p]);
    assert NodeCancelPlaced(run, log[..p], log[p], id);
  }

  lemma LoggedStatus(run: RunId, log: seq<Event>, p: nat)
    requires Disciplined(run, log) && p < |log| && RunCancel(run, log[p])
    ensures exists s: Status :: s.IsTerminal() && EndsRun(log[p].body, s)
  {
    assert Placed(run, log[..p], log[p]);
  }

  /** The log up to `j` has the report, so its fold has the node Cancelled. */
  lemma CancelledInFold(run: RunId, log: seq<Event>, p: nat, j: nat, id: NodeId)
    requires Disciplined(run, log) && p < j <= |log| && NodeCancel(run, log[p], id)
    ensures id in FoldStatus(log[..j]).status && FoldStatus(log[..j]).status[id] == Cancelled
  {
    DisciplinedPrefix(run, log, j);
    FirstIsCarrier(log[..j], KNodeReport, NodeKey(run, id));
    assert log[..j][p] == log[p];
    CancelledForGood(run, log[..j], id);
  }

  /** The log up to `j` has the run status, so the run is terminal there. */
  lemma TerminalInLog(run: RunId, log: seq<Event>, p: nat, j: nat)
    requires Disciplined(run, log) && p < j <= |log| && RunCancel(run, log[p])
    ensures LogRunStatus(log[..j]).Some? && LogRunStatus(log[..j]).value.IsTerminal()
  {
    assert Placed(run, log[..p], log[p]);
    assert log[..p + 1] == log[..p] + [log[p]];
    LogRunStatusSnoc(log[..p], log[p]);
    LogRunStatusGrows(log[..p + 1], log[..j]);
  }

  /** A disk under the invariant shows the log past event `p`, or that event is in the air. */
  lemma ShownPast(log: seq<Event>, st: Store, p: nat) returns (j: nat)
    requires AnyDisk(log, st) && p < |log|
    ensures j <= |log| && (j > p ==> Shows(log[..j], st)) && (j <= p ==> InTheAir(log, st) && p == |log| - 1)
  {
    assert log[..|log|] == log;
    if Shows(log, st) { j := |log|; } else { j := |log| - 1; }
  }

  lemma ReportReads(run: RunId, log: seq<Event>, st: Store, p: nat, j: nat, id: NodeId)
    requires Disciplined(run, log) && p < j <= |log| && NodeCancel(run, log[p], id) && Shows(log[..j], st)
    ensures id in st.nodes && st.nodes[id].status.IsTerminal()
  {
    CancelledInFold(run, log, p, j, id);
  }

  lemma StatusReads(run: RunId, log: seq<Event>, st: Store, p: nat, j: nat)
    requires Disciplined(run, log) && p < j <= |log| && RunCancel(run, log[p]) && Shows(log[..j], st)
    ensures ReadsTerminal(st)
  {
    TerminalInLog(run, log, p, j);
  }

  /** The event in the air folded again by itself. */
  lemma AirRefold(d: Disk, k: nat)
    requires OnDisk(d.log, d.st) && InTheAir(d.log, d.st)
    requires (d.log[|d.log| - 1].body.NodeReport? || d.log[|d.log| - 1].body.RunStatus?)
    ensures Hold(AllWindows, d, Disk(d.log, Cut(d.log, d.st, d.log[|d.log| - 1], k)))
  {
    assert RefoldCut(AllWindows, d, Disk(d.log, Cut(d.log, d.st, d.log[|d.log| - 1], k)), k);
  }

  /** A logged cancel report whose node does not read terminal is the event in the air, and folding
      it again is a lock hold of its own. */
  lemma ReportRefold(d: Disk, p: nat, id: NodeId)
    requires Ready(d) && p < |d.log| && NodeCancel(d.st.run, d.log[p], id)
    requires !(id in d.st.nodes && d.st.nodes[id].status.IsTerminal())
    ensures Hold(AllWindows, d, Disk(d.log, Cut(d.log, d.st, d.log[p], 2)))
  {
    LoggedReport(d.st.run, d.log, p, id);
    var j := ShownPast(d.log, d.st, p);
    if j > p { ReportReads(d.st.run, d.log, d.st, p, j, id); }
    AirRefold(d, 2);
  }

  /** A logged cancel status is visible in the manifest, or is the event in the air; either way
      folding it again is a lock hold. */
  lemma StatusRefold(d: Disk, p: nat)
    requires Ready(d) && p < |d.log| && RunCancel(d.st.run, d.log[p])
    ensures Hold(AllWindows, d, Disk(d.log, Cut(d.log, d.st, d.log[p], 2)))
    ensures ReadsTerminal(Cut(d.log, d.st, d.log[p], 2))
  {
    LoggedStatus(d.st.run, d.log, p);
    var s: Status :| s.IsTerminal() && EndsRun(d.log[p].body, s);
    TerminalStatusPlan(d.log, d.st, d.log[p], s);
    var j := ShownPast(d.log, d.st, p);
    if j > p { StatusReads(d.st.run, d.log, d.st, p, j); } else { AirRefold(d, 2); }
  }
}

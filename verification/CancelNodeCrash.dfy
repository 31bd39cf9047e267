/** `cancel_node` cut by a crash anywhere, followed by a complete `cancel_node` or `cancel_run`. */
module CancelNodeCrash {
  import opened Prelude
  import opened Schema
  import opened NodeStatusFold
  import opened CrashSafety
  import opened CrashAgreement
  import opened CrashInvariants
  import opened Cancel
  import opened CancelReady
  import opened CancelProtocol
  import opened CancelKeeps

  /** One call: the run status read on entry, the target as the ledger lists it, the clock, the
      reason. */
  datatype NodeCall = NodeCall(onEntry: Status, fact: Fact, clock: Clock, reason: string)

  /** The ledger lists the target. */
  predicate Listed(log: seq<Event>, fact: Fact) {
    fact.id in FoldStatus(log).status && fact.status == FoldStatus(log).status[fact.id]
  }

  function CallNode(d: Disk, c: NodeCall): NodeTurn {
    CancelNodeOn(d, c.onEntry, AllFacts(d), c.fact, c.clock, c.reason)
  }

  // ---- the disks a cut call leaves ----

  /** The disk once the target is settled. */
  function TargetSettled(d: Disk, c: NodeCall): Disk {
    SettleOn(d, PriorReport(d.st.run, d.log, c.fact.id), c.fact.status, c.clock, c.fact.id, NODE_SUMMARY, c.reason).d
  }

  /** The report the call appends, if any. */
  function TargetReport(d: Disk, c: NodeCall): Option<Event> {
    if Straggler(d.st.run, d.log, c.fact.id) then Some(NextReport(d, c.clock, c.fact.id, NODE_SUMMARY, c.reason))
    else None
  }

  /** The run status the call appends after it, if any. */
  function RollUpStatus(e: Disk, prior: Option<Event>, c: NodeCall): Option<Event> {
    if c.onEntry.IsTerminal() || prior.Some? || RollUp(e.log).None? then None
    else Some(NextStatus(e, c.clock, Ending(RollUp(e.log).value, None)))
  }

  /** One lock hold cut by a crash anywhere, which adds at most this event. */
  ghost predicate HoldAdds(e: Disk, cut: Disk, ev: Option<Event>) {
    Hold(Nothing, e, cut) && (cut.log == e.log || (ev.Some? && cut.log == e.log + [ev.value]))
  }

  /** The disk a `cancel_node` leaves when a crash cuts it while it settles the target or while it
      rolls the run up. */
  ghost predicate NodeCut(d: Disk, c: NodeCall, cut: Disk) {
    || HoldAdds(d, cut, TargetReport(d, c))
    || HoldAdds(TargetSettled(d, c), cut, RollUpStatus(TargetSettled(d, c), PriorStatus(d.st.run, d.log), c))
  }

  // ---- statuses along the way ----

  /** Only the target's status may have changed, from live to Cancelled. */
  ghost predicate TargetOnly(log: seq<Event>, l: seq<Event>, id: NodeId) {
    && id in FoldStatus(log).status && NodeIds(l) == NodeIds(log)
    && ( || FoldStatus(l).status == FoldStatus(log).status
         || TargetDone(log, l, id))
  }

  /** The target is settled and its siblings are untouched. */
  ghost predicate TargetDone(log: seq<Event>, l: seq<Event>, id: NodeId) {
    && id in FoldStatus(log).status && NodeIds(l) == NodeIds(log)
    && FoldStatus(l).status == FoldStatus(log).status[id := CancelledUnlessTerminal(FoldStatus(log).status[id])]
  }

  lemma TargetThenDone(log: seq<Event>, m: seq<Event>, l: seq<Event>, id: NodeId)
    requires TargetOnly(log, m, id) && TargetDone(m, l, id)
    ensures TargetDone(log, l, id)
  {}

  lemma {:induction false} ReportedIsDone(run: RunId, log: seq<Event>, c: NodeCall)
    requires Disciplined(run, log) && c.fact.id in FoldStatus(log).status
    ensures TargetDone(log, NodeReported(run, log, c.fact.id, c.clock, c.reason), c.fact.id)
  {
    NodeReportedFold(run, log, c.fact.id, c.clock, c.reason);
  }

  lemma {:induction false} StatusKeepsDone(run: RunId, log: seq<Event>, l: seq<Event>, id: NodeId, seqNo: nat, ts: nat,
      s: Ending)
    requires TargetDone(log, l, id)
    ensures TargetDone(log, l + [StatusEvent(run, seqNo, ts, s)], id)
  {
    StatusObserved(run, l, seqNo, ts, s);
  }

  // ---- a cut call may be started from ----

  lemma HoldAddsStartable(e: Disk, cut: Disk, ev: Option<Event>)
    requires Startable(e) && HoldAdds(e, cut, ev)
    requires ev.Some? ==>
               Placed(e.st.run, e.log, ev.value) && ev.value.seqNo == |e.log| + 1 && ev.value.runId == e.st.run
    ensures Startable(cut) && Onward(e.st, cut.st) && e.log <= cut.log
  {
    HoldOnward(e, cut);
    if cut.log != e.log { CutGrowsStartable(e, cut, ev.value); }
  }

  lemma {:induction false} SettleCut(d: Disk, c: NodeCall, cut: Disk)
    requires Startable(d) && Listed(d.log, c.fact) && HoldAdds(d, cut, TargetReport(d, c))
    ensures Startable(cut) && Onward(d.st, cut.st) && d.log <= cut.log && TargetOnly(d.log, cut.log, c.fact.id)
  {
    if Straggler(d.st.run, d.log, c.fact.id) {
      ReportPlaced(d.st.run, d.log, |d.log| + 1, c.clock(|d.log| + 1), c.fact.id, NODE_SUMMARY, c.reason);
    }
    HoldAddsStartable(d, cut, TargetReport(d, c));
    if cut.log != d.log { ReportedIsDone(d.st.run, d.log, c); }
  }

  lemma {:induction false} RollUpPlaced(e: Disk, c: NodeCall)
    requires Startable(e)
    ensures var ev := RollUpStatus(e, PriorStatus(e.st.run, e.log), c);
            ev.Some? ==>
              Placed(e.st.run, e.log, ev.value) && ev.value.seqNo == |e.log| + 1 && ev.value.runId == e.st.run
  {
    RollUpMeansSettled(e.log);
    if RollUpStatus(e, PriorStatus(e.st.run, e.log), c).Some? {
      StatusPlaced(e.st.run, e.log, |e.log| + 1, c.clock(|e.log| + 1), Ending(RollUp(e.log).value, None));
    }
  }

  lemma {:induction false} RollUpCut(d: Disk, c: NodeCall, cut: Disk)
    requires Startable(d) && Listed(d.log, c.fact)
    requires HoldAdds(TargetSettled(d, c), cut, RollUpStatus(TargetSettled(d, c), PriorStatus(d.st.run, d.log), c))
    ensures Startable(cut) && Onward(d.st, cut.st) && d.log <= cut.log && TargetDone(d.log, cut.log, c.fact.id)
  {
    NodeSettles(d, c.fact, c.clock, c.reason);
    ReportedIsDone(d.st.run, d.log, c);
    RecordCut(d.log, TargetSettled(d, c), c, cut);
  }

  lemma {:induction false} RecordCut(log: seq<Event>, e: Disk, c: NodeCall, cut: Disk)
    requires Startable(e) && TargetDone(log, e.log, c.fact.id)
    requires HoldAdds(e, cut, RollUpStatus(e, PriorStatus(e.st.run, e.log), c))
    ensures Startable(cut) && Onward(e.st, cut.st) && e.log <= cut.log && TargetDone(log, cut.log, c.fact.id)
  {
    RollUpPlaced(e, c);
    HoldAddsStartable(e, cut, RollUpStatus(e, PriorStatus(e.st.run, e.log), c));
    if cut.log != e.log {
      StatusKeepsDone(e.st.run, log, e.log, c.fact.id, |e.log| + 1, c.clock(|e.log| + 1),
          Ending(RollUp(e.log).value, None));
    }
  }

  /** However a `cancel_node` is cut, a crash in a lossy window included, a call may start from the
      disk it leaves, and its log differs from the one it found at most in the target. */
  lemma {:induction false} NodeCutStartable(d: Disk, c: NodeCall, cut: Disk)
    requires Startable(d) && Listed(d.log, c.fact) && NodeCut(d, c, cut)
    ensures Startable(cut) && Onward(d.st, cut.st) && d.log <= cut.log && TargetOnly(d.log, cut.log, c.fact.id)
  {
    if HoldAdds(d, cut, TargetReport(d, c)) { SettleCut(d, c, cut); } else { RollUpCut(d, c, cut); }
  }

  // ---- a complete call ----

  /** A complete call settles the target and leaves its siblings alone, and if no node is left live
      the manifest reads terminal. */
  lemma {:induction false} CallNodeSettles(d: Disk, c: NodeCall)
    requires Startable(d) && Listed(d.log, c.fact) && ManifestStatus(d.st) == Some(c.onEntry)
    ensures var t := CallNode(d, c);
            && t.ok && Startable(t.d) && Onward(d.st, t.d.st) && TargetDone(d.log, t.d.log, c.fact.id)
            && (AllSettled(t.d.log) ==> ReadsTerminal(t.d.st))
  {
    CancelNodeCompletes(d, c.onEntry, c.fact, c.clock, c.reason);
    NodeCancelledIsDone(d.st.run, d.log, c, CallNode(d, c).rolled, CallNode(d, c).d.log);
  }

  /** The log of a completed call: the target is settled, and no live node left means a roll-up. */
  lemma {:induction false} NodeCancelledIsDone(run: RunId, log: seq<Event>, c: NodeCall, rolled: Option<Status>,
      l: seq<Event>)
    requires Disciplined(run, log) && c.fact.id in FoldStatus(log).status
    requires NodeCancelled(run, log, c.onEntry, c.fact.id, c.clock, c.reason, rolled, l)
    ensures TargetDone(log, l, c.fact.id) && (AllSettled(l) && !c.onEntry.IsTerminal() ==> rolled.Some?)
  {
    ReportedIsDone(run, log, c);
    var mid := NodeReported(run, log, c.fact.id, c.clock, c.reason);
    if l != mid {
      StatusKeepsDone(run, log, mid, c.fact.id, |mid| + 1, c.clock(|mid| + 1), Ending(rolled.value, None));
    } else if AllSettled(l) {
      LastNodeRolls(mid, log, c.fact.id);
    }
  }

  /** A log with a listed node whose nodes are all terminal rolls up. */
  lemma {:induction false} LastNodeRolls(l: seq<Event>, log: seq<Event>, id: NodeId)
    requires AllSettled(l) && TargetDone(log, l, id)
    ensures RollUp(l).Some?
  {
    NodeIdsAreTheNodes(log);
    RollUpMeansSettled(l);
    assert id in NodeIds(l);
  }

  /** A second complete call on the same target appends nothing. */
  lemma {:induction false} CallNodeAgain(d: Disk, c: NodeCall)
    requires Startable(d) && Listed(d.log, c.fact) && ManifestStatus(d.st) == Some(c.onEntry)
    requires c.fact.status.IsTerminal() && (AllSettled(d.log) ==> ReadsTerminal(d.st))
    ensures CallNode(d, c).ok && CallNode(d, c).d.log == d.log
  {
    CancelNodeCompletes(d, c.onEntry, c.fact, c.clock, c.reason);
    assert NodeReported(d.st.run, d.log, c.fact.id, c.clock, c.reason) == d.log;
    RollUpMeansSettled(d.log);
  }

  /** `cancel_node` converges across crashes, on disk. Cut a call anywhere at all; a complete call on
      the same target from what it left settles the target, leaves its siblings as the first call
      found them, makes the manifest read terminal if no node is left live, and keeps one event
      per cancel key; and a further call appends nothing. */
  lemma {:induction false} CancelNodeConverges(d: Disk, c: NodeCall, cut: Disk, again: NodeCall, further: NodeCall)
    requires Startable(d) && Listed(d.log, c.fact) && NodeCut(d, c, cut)
    requires again.fact.id == c.fact.id && Listed(cut.log, again.fact) && ManifestStatus(cut.st) == Some(again.onEntry)
    ensures var t := CallNode(cut, again);
            && t.ok && Startable(t.d) && d.log <= t.d.log && TargetDone(d.log, t.d.log, c.fact.id)
            && Disciplined(d.st.run, t.d.log) && (AllSettled(t.d.log) ==> ReadsTerminal(t.d.st))
            && ( && further.fact.id == c.fact.id && Listed(t.d.log, further.fact)
                 && ManifestStatus(t.d.st) == Some(further.onEntry) ==>
                   CallNode(t.d, further).ok && CallNode(t.d, further).d.log == t.d.log)
  {
    NodeCutStartable(d, c, cut);
    CallNodeSettles(cut, again);
    var t := CallNode(cut, again);
    CallNodeGrows(cut, again);
    TargetThenDone(d.log, cut.log, t.d.log, c.fact.id);
    if && further.fact.id == c.fact.id && Listed(t.d.log, further.fact)
       && ManifestStatus(t.d.st) == Some(further.onEntry) {
      CallNodeAgain(t.d, further);
    }
  }

  lemma {:induction false} CallNodeGrows(d: Disk, c: NodeCall)
    requires Startable(d) && Listed(d.log, c.fact)
    ensures d.log <= CallNode(d, c).d.log
  {
    CancelNodeCompletes(d, c.onEntry, c.fact, c.clock, c.reason);
  }

  /** And so does a complete `cancel_run` after the cut: every node is settled, the live ones of the
      first call Cancelled, and the manifest reads terminal. */
  lemma {:induction false} RunAfterNodeCut(d: Disk, c: NodeCall, cut: Disk, call: Call)
    requires Startable(d) && Listed(d.log, c.fact) && NodeCut(d, c, cut)
    requires call.wasCancelled == ReadsCancelled(cut.st)
    ensures var t := CancelOn(cut, call);
            && t.ok && Startable(t.d) && ReadsTerminal(t.d.st) && Settles(d.st.run, d.log, t.d.log)
  {
    NodeCutStartable(d, c, cut);
    CancelCompletes(cut, call);
    TargetThenSettles(d.st.run, d.log, cut.log, CancelOn(cut, call).d.log, c.fact.id);
  }

  lemma {:induction false} TargetThenSettles(run: RunId, log: seq<Event>, m: seq<Event>, l: seq<Event>, id: NodeId)
    requires log <= m && TargetOnly(log, m, id) && Settles(run, m, l)
    ensures Settles(run, log, l)
  {
    forall x | x in FoldStatus(log).status
      ensures FoldStatus(l).status[x] == CancelledUnlessTerminal(FoldStatus(log).status[x])
    {
      assert FoldStatus(l).status[x] == CancelledUnlessTerminal(FoldStatus(m).status[x]);
    }
  }

  // ---- what the cut keeps ----

  /** A cut `cancel_node` from a disk any crash can leave leaves such a disk. */
  lemma {:induction false} NodeCutKeepsReady(d: Disk, c: NodeCall, cut: Disk)
    requires Ready(d) && Listed(d.log, c.fact) && NodeCut(d, c, cut)
    ensures Ready(cut) && cut.st.run == d.st.run && (Sane(d.log, d.st) ==> Sane(cut.log, cut.st))
  {
    ReadyIsStartable(d);
    if HoldAdds(d, cut, TargetReport(d, c)) {
      if Straggler(d.st.run, d.log, c.fact.id) {
        ReportPlaced(d.st.run, d.log, |d.log| + 1, c.clock(|d.log| + 1), c.fact.id, NODE_SUMMARY, c.reason);
      }
      HoldKeepsReady(d, cut);
      if Sane(d.log, d.st) { HoldMoves(d, cut); }
    } else {
      NodeSettles(d, c.fact, c.clock, c.reason);
      SettleKept(d, d.log, c.clock, c.fact.id, NODE_SUMMARY, c.reason);
      RollUpPlaced(TargetSettled(d, c), c);
      HoldKeepsReady(TargetSettled(d, c), cut);
      if Sane(d.log, d.st) { HoldMoves(TargetSettled(d, c), cut); }
    }
  }
}

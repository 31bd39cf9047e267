/** The source branch, set aside. In a Taskfleet-owned run no plan reads it, so a history maps
    step by step onto one in which no event ever names it, and there the two writes of a
    `node.created` have no lossy window between them. */
module SourceErasure {
  import opened Prelude
  import opened Schema
  import opened NodeStatusFold
  import opened Reducer
  import opened ReducerLaws
  import opened Recovery
  import opened CrashSafety

  // ---- the map ----

  function BlankSpawn(sp: Option<Spawn>): Option<Spawn> {
    if sp.Some? then Some(sp.value.(sourceBranch := None)) else None
  }

  function BlankRun(r: Option<RunSpec>): Option<RunSpec> {
    if r.Some? then Some(r.value.(sourceBranch := None)) else None
  }

  /** The event without the source branch it may name. */
  function BlankEvent(ev: Event): Event {
    match ev.body
    case NodeCreated(sp) => ev.(body := NodeCreated(BlankSpawn(sp)))
    case RunCreated(r) => ev.(body := RunCreated(BlankRun(r)))
    case _ => ev
  }

  function BlankLog(log: seq<Event>): (r: seq<Event>)
    ensures |r| == |log| && forall i :: 0 <= i < |log| ==> r[i] == BlankEvent(log[i])
  {
    seq(|log|, i requires 0 <= i < |log| => BlankEvent(log[i]))
  }

  function BlankManifest(m: Manifest): Manifest { m.(sourceBranch := None) }

  function BlankStore(st: Store): Store {
    if st.manifest.Some? then st.(manifest := Some(BlankManifest(st.manifest.value))) else st
  }

  function BlankOp(op: Op): Op {
    match op
    case PutManifest(m) => PutManifest(BlankManifest(m))
    case PutNode(_, _) => op
  }

  predicate Owned(st: Store) { st.manifest.Some? ==> st.manifest.value.owner == Taskfleet }

  // ---- logs ----

  lemma BlankPrefix(log: seq<Event>, i: nat)
    requires i <= |log|
    ensures BlankLog(log)[..i] == BlankLog(log[..i])
  {}

  lemma BlankSnoc(log: seq<Event>, ev: Event)
    ensures BlankLog(log + [ev]) == BlankLog(log) + [BlankEvent(ev)]
  {}

  lemma {:induction false} BlankFoldStatus(log: seq<Event>)
    ensures FoldStatus(BlankLog(log)) == FoldStatus(log)
  {
    if log != [] {
      BlankPrefix(log, |log| - 1);
      BlankFoldStatus(log[..|log| - 1]);
    }
  }

  lemma {:induction false} BlankBefore(log: seq<Event>, bound: nat)
    ensures Before(BlankLog(log), bound) == BlankLog(Before(log, bound))
  {
    if log != [] {
      var init, ev := log[..|log| - 1], log[|log| - 1];
      assert log == init + [ev];
      BlankBefore(init, bound);
      BlankSnoc(init, ev);
      BeforeSnoc(init, ev, bound);
      BeforeSnoc(BlankLog(init), BlankEvent(ev), bound);
      BlankSnoc(Before(init, bound), ev);
    }
  }

  lemma BlankVerdict(log: seq<Event>, at: nat, wanted: nat)
    ensures RecoveryVerdict(BlankLog(log), at, wanted) == RecoveryVerdict(log, at, wanted)
  {
    BlankBefore(log, at);
    BlankFoldStatus(Before(log, at));
    assert NodeStatusFacts(BlankLog(log), Some(at)) == NodeStatusFacts(log, Some(at));
  }

  // ---- plans and writes ----

  /** The same decision, and the same writes with the source branch blanked. */
  ghost predicate BlankPlan(p: Plan, q: Plan) {
    p.Accepted? == q.Accepted? &&
      (p.Accepted? ==> |q.ops| == |p.ops| && forall i :: 0 <= i < |p.ops| ==> q.ops[i] == BlankOp(p.ops[i]))
  }

  lemma BlankNodePlan(st: Store, ev: Event)
    requires Owned(st) && NodeLevel(ev.body)
    ensures PlanNode(BlankStore(st), ev) == PlanNode(st, ev)
  {
    if ev.nodeId.Some? {
      assert Gate(BlankStore(st), ev.nodeId.value, ev.body, ev.runId) == Gate(st, ev.nodeId.value, ev.body, ev.runId);
    }
  }

  lemma PlansErase(log: seq<Event>, st: Store, ev: Event)
    requires Owned(st)
    ensures BlankPlan(PlanEvent(log, st, ev), PlanEvent(BlankLog(log), BlankStore(st), BlankEvent(ev)))
  {
    if ev.runId != st.run { ForeignErases(log, st, ev); }
    else if ev.body.NodeCreated? { CreationErases(st, ev); }
    else if ev.body.RunCreated? { RunCreationErases(st, ev); }
    else if ev.body.RunStatus? { RunStatusErases(log, st, ev); }
    else if ev.body.SettlementIntent? { IntentErases(st, ev); }
    else if ev.body.Audit? { AuditErases(log, st, ev); }
    else { NodePlanErases(log, st, ev); }
  }

  lemma ForeignErases(log: seq<Event>, st: Store, ev: Event)
    requires ev.runId != st.run
    ensures PlanEvent(log, st, ev).Rejected? && PlanEvent(BlankLog(log), BlankStore(st), BlankEvent(ev)).Rejected?
  {}

  lemma CreationErases(st: Store, ev: Event)
    requires ev.runId == st.run && ev.body.NodeCreated?
    ensures BlankPlan(PlanNodeCreated(st, ev), PlanNodeCreated(BlankStore(st), BlankEvent(ev)))
  {}

  lemma RunCreationErases(st: Store, ev: Event)
    requires ev.runId == st.run && ev.body.RunCreated?
    ensures BlankPlan(PlanRunCreated(st, ev.body.run), PlanRunCreated(BlankStore(st), BlankRun(ev.body.run)))
  {}

  lemma RunStatusErases(log: seq<Event>, st: Store, ev: Event)
    requires ev.runId == st.run && ev.body.RunStatus?
    ensures BlankPlan(PlanRunStatus(log, st, ev), PlanRunStatus(BlankLog(log), BlankStore(st), ev))
  {
    if ev.body.recoverySeq.Some? { BlankVerdict(log, ev.seqNo, ev.body.recoverySeq.value); }
    RunStatusPlanErases(log, BlankLog(log), st, ev);
  }

  lemma RunStatusPlanErases(log: seq<Event>, over: seq<Event>, st: Store, ev: Event)
    requires ev.body.RunStatus?
    requires ev.body.recoverySeq.Some? ==>
               RecoveryVerdict(log, ev.seqNo, ev.body.recoverySeq.value) ==
                   RecoveryVerdict(over, ev.seqNo, ev.body.recoverySeq.value)
    ensures BlankPlan(PlanRunStatus(log, st, ev), PlanRunStatus(over, BlankStore(st), ev))
  {
    if st.manifest.Some? && ev.body.runStatus.Some? {
      var m, next := st.manifest.value, ev.body.runStatus.value;
      assert BlankOp(PutManifest(m.(status := next))) == PutManifest(BlankManifest(m).(status := next));
    }
  }

  lemma IntentErases(st: Store, ev: Event)
    requires Owned(st) && ev.runId == st.run && ev.body.SettlementIntent?
    ensures PlanSettlementIntent(st, ev).Rejected? && PlanSettlementIntent(BlankStore(st), ev).Rejected?
  {}

  lemma AuditErases(log: seq<Event>, st: Store, ev: Event)
    requires ev.runId == st.run && ev.body.Audit?
    ensures BlankPlan(PlanEvent(log, st, ev), PlanEvent(BlankLog(log), BlankStore(st), ev))
  {}

  lemma NodePlanErases(log: seq<Event>, st: Store, ev: Event)
    requires Owned(st) && ev.runId == st.run && NodeLevel(ev.body)
    ensures BlankPlan(PlanEvent(log, st, ev), PlanEvent(BlankLog(log), BlankStore(st), ev))
  {
    BlankNodePlan(st, ev);
    PlanIsNodePlan(log, st, ev);
    PlanIsNodePlan(BlankLog(log), BlankStore(st), ev);
    if PlanEvent(log, st, ev).Accepted? { PlanShape(log, st, ev); }
  }

  lemma WriteErases(st: Store, op: Op)
    ensures BlankStore(Write(st, op)) == Write(BlankStore(st), BlankOp(op))
  {}

  lemma CutErases(log: seq<Event>, st: Store, ev: Event, k: nat)
    requires Owned(st)
    ensures BlankStore(Cut(log, st, ev, k)) == Cut(BlankLog(log), BlankStore(st), BlankEvent(ev), k)
  {
    PlansErase(log, st, ev);
    if PlanEvent(log, st, ev).Accepted? {
      PlanShape(log, st, ev);
      CutShort(log, st, ev, k);
      CutShort(BlankLog(log), BlankStore(st), BlankEvent(ev), k);
      var ops := PlanEvent(log, st, ev).ops;
      if |ops| >= 1 { WriteErases(st, ops[0]); }
      if |ops| == 2 { WriteErases(Write(st, ops[0]), ops[1]); }
    }
  }

  lemma StepErases(log: seq<Event>, st: Store, ev: Event)
    requires Owned(st)
    ensures BlankStore(Step(log, st, ev)) == Step(BlankLog(log), BlankStore(st), BlankEvent(ev))
  {
    PlansErase(log, st, ev);
    CutErases(log, st, ev, 2);
    if PlanEvent(log, st, ev).Accepted? {
      CutIsCommit(log, st, ev);
      CutIsCommit(BlankLog(log), BlankStore(st), BlankEvent(ev));
    }
  }

  lemma OwnerStays(log: seq<Event>, st: Store, ev: Event, k: nat)
    requires st.manifest.Some? && Owned(st)
    ensures Step(log, st, ev).manifest.Some? && Owned(Step(log, st, ev))
    ensures Cut(log, st, ev, k).manifest.Some? && Owned(Cut(log, st, ev, k))
  {
    StepEvolves(log, st, ev);
    CutEvolves(log, st, ev, k);
  }

  lemma {:induction false} ReplayErases(log: seq<Event>, base: nat, st: Store, i: nat)
    requires st.manifest.Some? && Owned(st) && i <= |log|
    ensures Erases(ReplayTo(log, base, st, i), ReplayTo(BlankLog(log), base, BlankStore(st), i))
  {
    if i > 0 {
      var j := i - 1;
      ReplayErases(log, base, st, j);
      ReplayNext(log, base, st, j);
      ReplayNext(BlankLog(log), base, BlankStore(st), j);
      StepsErase(log, ReplayTo(log, base, st, j), j);
    }
  }

  /** A Taskfleet-owned store and its blanked form. */
  ghost predicate Erases(s: Store, b: Store) { s.manifest.Some? && Owned(s) && BlankStore(s) == b }

  /** One line of the walk. */
  lemma StepsErase(log: seq<Event>, s: Store, j: nat)
    requires s.manifest.Some? && Owned(s) && j < |log|
    ensures BlankLog(log)[j].seqNo == log[j].seqNo
    ensures Erases(Step(log, s, log[j]), Step(BlankLog(log), BlankStore(s), BlankLog(log)[j]))
  {
    StepErases(log, s, log[j]);
    OwnerStays(log, s, log[j], 0);
  }

  lemma CatchUpErases(log: seq<Event>, st: Store)
    requires st.manifest.Some? && Owned(st)
    ensures var s := CatchUp(log, st);
            s.manifest.Some? && Owned(s) && BlankStore(s) == CatchUp(BlankLog(log), BlankStore(st))
  {
    ReplayErases(log, Applied(st), st, |log|);
  }

  lemma {:induction false} FoldErases(run: RunId, log: seq<Event>)
    requires Owned(Fold(run, log))
    ensures BlankStore(Fold(run, log)) == Fold(run, BlankLog(log))
  {
    if log != [] {
      var n := |log| - 1;
      var pre := log[..n];
      StepEvolves(pre, Fold(run, pre), log[n]);
      FoldErases(run, pre);
      StepErases(pre, Fold(run, pre), log[n]);
      BlankPrefix(log, n);
    }
  }

  // ---- histories ----

  function BlankDisk(d: Disk): Disk { Disk(BlankLog(d.log), BlankStore(d.st)) }

  /** Blanked, only the window of a retry without attempt is left. */
  lemma WindowErases(st: Store, ev: Event, k: nat)
    requires !LeftOut(RetryWindow, st, ev, k)
    ensures !LossyWindow(BlankStore(st), BlankEvent(ev), k)
  {}

  lemma AdmitsErases(d: Disk, ev: Event)
    requires d.st.manifest.Some? && Owned(d.st) && Admits(d, ev)
    ensures Admits(BlankDisk(d), BlankEvent(ev))
  {
    CatchUpErases(d.log, d.st);
    PlansErase(d.log, CatchUp(d.log, d.st), ev);
  }

  lemma ReplayCutErases(d: Disk, e: Disk, i: nat, k: nat)
    requires d.st.manifest.Some? && Owned(d.st) && ReplayCut(RetryWindow, d, e, i, k)
    ensures ReplayCut(AllWindows, BlankDisk(d), BlankDisk(e), i, k) && e.st.manifest.Some? && Owned(e.st)
  {
    ReplayErases(d.log, Applied(d.st), d.st, i);
    var s := ReplayTo(d.log, Applied(d.st), d.st, i);
    CutErases(d.log, s, d.log[i], k);
    OwnerStays(d.log, s, d.log[i], k);
    WindowErases(s, d.log[i], k);
  }

  lemma RefoldCutErases(d: Disk, e: Disk, k: nat)
    requires d.st.manifest.Some? && Owned(d.st) && RefoldCut(RetryWindow, d, e, k)
    ensures RefoldCut(AllWindows, BlankDisk(d), BlankDisk(e), k) && e.st.manifest.Some? && Owned(e.st)
  {
    var ev := d.log[|d.log| - 1];
    CutErases(d.log, d.st, ev, k);
    OwnerStays(d.log, d.st, ev, k);
    WindowErases(d.st, ev, k);
  }

  lemma AppendCutErases(d: Disk, e: Disk, ev: Event, k: nat)
    requires d.st.manifest.Some? && Owned(d.st) && AppendCut(RetryWindow, d, e, ev, k)
    ensures AppendCut(AllWindows, BlankDisk(d), BlankDisk(e), BlankEvent(ev), k) && e.st.manifest.Some? && Owned(e.st)
  {
    AdmitsErases(d, ev);
    CatchUpErases(d.log, d.st);
    var s := CatchUp(d.log, d.st);
    CutErases(d.log, s, ev, k);
    OwnerStays(d.log, s, ev, k);
    WindowErases(s, ev, k);
    BlankSnoc(d.log, ev);
  }

  lemma FullAppendErases(d: Disk, e: Disk, ev: Event)
    requires d.st.manifest.Some? && Owned(d.st) && FullAppend(d, e, ev)
    ensures FullAppend(BlankDisk(d), BlankDisk(e), BlankEvent(ev)) && e.st.manifest.Some? && Owned(e.st)
  {
    AdmitsErases(d, ev);
    CatchUpErases(d.log, d.st);
    StepErases(d.log, CatchUp(d.log, d.st), ev);
    OwnerStays(d.log, CatchUp(d.log, d.st), ev, 0);
    BlankSnoc(d.log, ev);
  }

  /** A hold cut anywhere outside the retry window is, blanked, a window-free hold. */
  lemma HoldErases(d: Disk, e: Disk)
    requires d.st.manifest.Some? && Owned(d.st) && Hold(RetryWindow, d, e)
    ensures Hold(AllWindows, BlankDisk(d), BlankDisk(e)) && e.st.manifest.Some? && Owned(e.st)
  {
    CatchUpErases(d.log, d.st);
    if i, k :| ReplayCut(RetryWindow, d, e, i, k) { ReplayCutErases(d, e, i, k); }
    else if k :| RefoldCut(RetryWindow, d, e, k) { RefoldCutErases(d, e, k); }
    else if ev, k :| AppendCut(RetryWindow, d, e, ev, k) { AppendCutErases(d, e, ev, k); }
    else if ev :| FullAppend(d, e, ev) { FullAppendErases(d, e, ev); }
  }

  lemma InertErases(st: Store, ev: Event)
    requires Inert(st, ev)
    ensures Inert(BlankStore(st), BlankEvent(ev))
  {}

  lemma SettledErases(log: seq<Event>, st: Store)
    requires Settled(log, st) && Owned(st)
    ensures Settled(BlankLog(log), BlankStore(st))
  {
    FoldErases(st.run, log);
    forall i | Applied(st) <= i < |log| ensures Inert(BlankStore(st), BlankLog(log)[i]) { InertErases(st, log[i]); }
  }

  lemma {:induction false} HistoryErases(h: seq<Disk>, i: nat)
    requires History(RetryWindow, h) && i < |h| && Settled(h[0].log, h[0].st) && Owned(h[0].st)
    ensures h[i].st.manifest.Some? && Owned(h[i].st) && h[i].st.run == h[0].st.run
    ensures DiskInv(BlankLog(h[i].log), BlankStore(h[i].st)) && h[0].log <= h[i].log
  {
    if i == 0 {
      SettledErases(h[0].log, h[0].st);
    } else {
      HistoryErases(h, i - 1);
      var j := i - 1;
      assert Hold(RetryWindow, h[j], h[j + 1]);
      HoldKeepsErased(h[j], h[j + 1]);
    }
  }

  lemma HoldKeepsErased(d: Disk, e: Disk)
    requires d.st.manifest.Some? && Owned(d.st) && DiskInv(BlankLog(d.log), BlankStore(d.st))
    requires Hold(RetryWindow, d, e)
    ensures e.st.manifest.Some? && Owned(e.st) && e.st.run == d.st.run && d.log <= e.log
    ensures DiskInv(BlankLog(e.log), BlankStore(e.st))
  {
    HoldErases(d, e);
    HoldKeeps(BlankDisk(d), BlankDisk(e));
    HoldKeepsRun(RetryWindow, d, e);
    HoldGrowth(RetryWindow, d, e);
  }

  /** Equal in the recovery view with the source branch set aside. */
  ghost predicate SameButSource(a: Store, b: Store) { Same(BlankStore(a), BlankStore(b)) }

  /** Crash recovery of a Taskfleet-owned run. Every history whose crashes miss the window of a
      retry without attempt, those between the two writes of a `node.created` included: catch-up
      makes the projections the pure fold of the log but for the source branch, with the node
      count right and the watermark never above the last sequence number. */
  lemma TaskfleetRecovery(h: seq<Disk>, i: nat)
    requires History(RetryWindow, h) && i < |h| && Settled(h[0].log, h[0].st) && Owned(h[0].st)
    ensures var d := h[i];
            var s := CatchUp(d.log, d.st);
            && h[0].log <= d.log && d.st.run == h[0].st.run && WellSeq(d.st.run, d.log)
            && SameButSource(s, Fold(d.st.run, d.log))
            && s.manifest.Some? && s.manifest.value.nodeCount == NodeCount(s.nodes)
            && Applied(d.st) <= |d.log| && Applied(s) <= |d.log|
  {
    HistoryErases(h, i);
    StartOwned(h[0].log, h[0].st, h[i].log);
    BlankOnDisk(h[i].log, h[i].st);
    BlankRecovers(h[i].log, h[i].st);
  }

  /** A Taskfleet-owned start makes the fold of every longer log Taskfleet-owned. */
  lemma {:induction false} StartOwned(log: seq<Event>, st: Store, l: seq<Event>)
    requires Settled(log, st) && Owned(st) && log <= l
    ensures Owned(Fold(st.run, l))
  {
    assert l[..|log|] == log && l[..|l|] == l;
    FoldOwner(st.run, l, |log|, |l|);
  }

  lemma {:induction false} BlankRecovers(log: seq<Event>, st: Store)
    requires st.manifest.Some? && Owned(st) && DiskInv(BlankLog(log), BlankStore(st)) && Owned(Fold(st.run, log))
    ensures var s := CatchUp(log, st);
            && SameButSource(s, Fold(st.run, log)) && s.manifest.Some?
            && s.manifest.value.nodeCount == NodeCount(s.nodes) && Applied(s) <= |log|
  {
    CatchUpErases(log, st);
    CatchUpSettles(BlankLog(log), BlankStore(st));
    CatchUpKeepsRun(log, st);
    FoldErases(st.run, log);
    BlankSettled(BlankLog(log), CatchUp(log, st));
  }

  /** What a blanked store that is settled says of the store. */
  lemma BlankSettled(l: seq<Event>, s: Store)
    requires Settled(l, BlankStore(s))
    ensures s.manifest.Some? && s.manifest.value.nodeCount == NodeCount(s.nodes) && Applied(s) <= |l|
  {}

  lemma BlankOnDisk(log: seq<Event>, st: Store)
    requires DiskInv(BlankLog(log), BlankStore(st))
    ensures WellSeq(st.run, log) && Applied(st) <= |log|
  {
    WellSeqBlank(st.run, log);
  }

  lemma WellSeqBlank(run: RunId, log: seq<Event>)
    ensures WellSeq(run, BlankLog(log)) <==> WellSeq(run, log)
  {
    if WellSeq(run, BlankLog(log)) {
      forall i | 0 <= i < |log| ensures log[i].seqNo == i + 1 && log[i].runId == run {
        assert BlankLog(log)[i] == BlankEvent(log[i]);
      }
    }
  }

  lemma {:induction false} FoldOwner(run: RunId, log: seq<Event>, i: nat, j: nat)
    requires i <= j <= |log| && Fold(run, log[..i]).manifest.Some? && Owned(Fold(run, log[..i]))
    ensures Fold(run, log[..j]).manifest.Some? && Owned(Fold(run, log[..j]))
  {
    if i < j {
      FoldOwner(run, log, i, j - 1);
      FoldUnfolds(run, log, j);
    }
  }
}

/** Crash-recovery refinement over whole histories of lock holds and crashes. */
module CrashSafety {
  import opened Schema
  import opened Reducer
  import opened ReducerLaws
  import opened Refold
  import opened Recovery

  // ---- events that stay above the watermark ----

  /** Re-folding this logged event can never again change the view: an open request, or the
      failed launch of a session that was never bound. Such an event may be refused by every
      later catch-up, which then leaves the watermark below it. */
  ghost predicate Inert(st: Store, ev: Event) {
    || ev.body.AwaitingInput?
    || ( && ev.body.PiTransition? && ev.body.fact.Some? && ev.body.fact.value.state != Reserved
         && ev.nodeId.Some? && ev.nodeId.value in st.nodes
         && st.nodes[ev.nodeId.value].piSession.None? && PiAbsorbed(st.nodes[ev.nodeId.value]))
  }

  lemma InertIsNeutral(log: seq<Event>, st: Store, ev: Event, k: nat)
    requires Inert(st, ev)
    ensures Same(Cut(log, st, ev, k), st)
    ensures Cut(log, st, ev, k).manifest == st.manifest && Cut(log, st, ev, k).nodes.Keys == st.nodes.Keys
    ensures ev.body.PiTransition? ==> PlanEvent(log, st, ev).Rejected?
  {
    CutNode(log, st, ev, k);
  }

  lemma InertStays(log: seq<Event>, st: Store, ev: Event, x: Event, k: nat)
    requires Inert(st, x)
    ensures Inert(Cut(log, st, ev, k), x)
    ensures Inert(Step(log, st, ev), x)
  {
    CutEvolves(log, st, ev, k);
    StepEvolves(log, st, ev);
    if x.body.PiTransition? {
      var id := x.nodeId.value;
      AbsorbedStays(st, id, ev, Cut(log, st, ev, k));
      AbsorbedStays(st, id, ev, Step(log, st, ev));
    }
  }

  lemma AbsorbedStays(st: Store, id: NodeId, ev: Event, s: Store)
    requires id in st.nodes && PiAbsorbed(st.nodes[id]) && st.nodes[id].piSession.None?
    requires id in s.nodes && (s.nodes[id] == st.nodes[id] || NodeMoved(st, id, ev, s.nodes[id]))
    ensures PiAbsorbed(s.nodes[id]) && s.nodes[id].piSession.None?
  {}

  lemma InertSame(a: Store, b: Store, ev: Event)
    requires Same(a, b) && Inert(a, ev)
    ensures Inert(b, ev)
  {
    if ev.body.PiTransition? {
      assert SameNode(a.nodes[ev.nodeId.value], b.nodes[ev.nodeId.value]);
    }
  }

  /** A re-fold is refused only for an event that is inert from then on. */
  lemma RefusedIsInert(log: seq<Event>, st: Store, ev: Event, s: Store)
    requires PlanEvent(log, st, ev).Accepted? && !ev.body.AwaitingInput? && NodeLevel(ev.body)
    requires s == Cut(log, st, ev, 2) && ev.nodeId.Some? && ev.nodeId.value in s.nodes
    requires RefusedAgain(s.nodes[ev.nodeId.value], ev.body) && PlanEvent(log, st, ev).ops != []
    ensures Inert(s, ev)
  {
    CutNode(log, st, ev, 2);
  }

  // ---- what holds on disk whenever nobody holds the lock ----

  ghost predicate InertTail(log: seq<Event>, st: Store, m: nat)
    requires m <= |log|
  {
    forall i :: Applied(st) <= i < m ==> Inert(st, log[i])
  }

  ghost predicate OnDisk(log: seq<Event>, st: Store) {
    WellSeq(st.run, log) && st.manifest.Some? && Applied(st) <= |log|
  }

  /** Caught up: the projections show exactly the fold of the log. */
  ghost predicate Settled(log: seq<Event>, st: Store) {
    OnDisk(log, st) && CountOk(st) && Same(st, Fold(st.run, log)) && InertTail(log, st, |log|)
  }

  /** The last event is logged but not acknowledged by the watermark; none or all of its
      visible effect is on disk. */
  ghost predicate InFlight(log: seq<Event>, st: Store) {
    && OnDisk(log, st) && |log| > 0 && Applied(st) < |log|
    && var pre, ev := log[..|log| - 1], log[|log| - 1];
       var f := Fold(st.run, pre);
       && f.manifest.Some? && !ev.body.AwaitingInput? && PlanEvent(pre, f, ev).Accepted?
       && (CountOk(st) || ev.body.NodeCreated?)
       && InertTail(log, st, |log| - 1)
       && (Same(st, f) || (Same(st, Cut(pre, f, ev, 2)) && (ev.body.NodeRetry? ==> !LossyWindow(f, ev, 2))))
  }

  ghost predicate DiskInv(log: seq<Event>, st: Store) {
    Settled(log, st) || InFlight(log, st)
  }

  // ---- the reference fold ----

  lemma StepBounds(log: seq<Event>, st: Store, ev: Event)
    requires Applied(st) < ev.seqNo && CountOk(st)
    ensures Step(log, st, ev).run == st.run && Applied(Step(log, st, ev)) <= ev.seqNo && CountOk(Step(log, st, ev))
  {
    StepEvolves(log, st, ev);
    if PlanEvent(log, st, ev).Accepted? {
      PlanShape(log, st, ev);
      CutShort(log, st, ev, 2);
      CutIsCommit(log, st, ev);
    }
  }

  lemma {:induction false} FoldBounds(run: RunId, log: seq<Event>)
    requires WellSeq(run, log)
    ensures Fold(run, log).run == run && Applied(Fold(run, log)) <= |log| && CountOk(Fold(run, log))
  {
    if log != [] {
      var init, ev := log[..|log| - 1], log[|log| - 1];
      FoldBounds(run, init);
      StepBounds(init, Fold(run, init), ev);
    }
  }

  lemma {:induction false} CutIsCommit(log: seq<Event>, st: Store, ev: Event)
    requires PlanEvent(log, st, ev).Accepted?
    ensures Cut(log, st, ev, 2) == Commit(st, PlanEvent(log, st, ev).ops)
    ensures Step(log, st, ev) == Advance(Cut(log, st, ev, 2), ev.seqNo)
  {
    PlanShape(log, st, ev);
    var ops := PlanEvent(log, st, ev).ops;
    if |ops| == 2 { assert ops[..2] == ops; }
  }

  /** The nodes after a node-level event that reaches its node. */
  lemma StepReaching(log: seq<Event>, st: Store, ev: Event)
    requires NodeLevel(ev.body) && Reaches(st, ev)
    ensures var id := ev.nodeId.value;
            Step(log, st, ev).nodes == st.nodes[id := After(st.nodes[id], NodeChange(st, id, st.nodes[id], ev))]
  {
    CutReaching(log, st, ev, 2);
    PlanIsNodePlan(log, st, ev);
    CutIsCommit(log, st, ev);
  }

  /** Only a run-creation or a watermark write touches the watermark field. */
  lemma CutKeepsApplied(log: seq<Event>, st: Store, ev: Event, k: nat)
    requires st.manifest.Some?
    ensures Cut(log, st, ev, k).manifest.Some? && Applied(Cut(log, st, ev, k)) == Applied(st)
    ensures CountOk(st) && !ev.body.NodeCreated? ==> CountOk(Cut(log, st, ev, k))
  {
    if PlanEvent(log, st, ev).Accepted? {
      PlanShape(log, st, ev);
      CutShort(log, st, ev, k);
      var ops := PlanEvent(log, st, ev).ops;
      if |ops| == 1 && ops[0].PutNode? && NodeMoved(st, ops[0].id, ev, ops[0].n) {
        assert st.nodes[ops[0].id := ops[0].n].Keys == st.nodes.Keys;
        assert |st.nodes[ops[0].id := ops[0].n]| == |st.nodes.Keys|;
      }
    }
  }

  lemma SameTrans(a: Store, b: Store, c: Store)
    requires Same(a, b) && Same(b, c)
    ensures Same(a, c) && Same(b, a)
  {
    forall id | id in a.nodes ensures SameNode(a.nodes[id], c.nodes[id]) {
      assert SameNode(a.nodes[id], b.nodes[id]) && SameNode(b.nodes[id], c.nodes[id]);
    }
  }

  // ---- catch-up settles ----

  /** Walking inert events changes nothing visible and keeps them inert. */
  lemma {:induction false} InertReplay(log: seq<Event>, st: Store, m: nat, i: nat)
    requires OnDisk(log, st) && i <= m <= |log| && InertTail(log, st, m)
    ensures var s := ReplayTo(log, Applied(st), st, i);
            && s.run == st.run && OnDisk(log, s) && Same(s, st) && InertTail(log, s, m)
            && Applied(st) <= Applied(s) && (Applied(s) == Applied(st) || Applied(s) <= i)
            && (CountOk(st) ==> CountOk(s))
  {
    if i > 0 {
      InertReplay(log, st, m, i - 1);
      var s, ev := ReplayTo(log, Applied(st), st, i - 1), log[i - 1];
      if ev.seqNo > Applied(st) {
        InertSame(st, s, ev);
        InertStep(log, s, ev);
        SameTrans(Step(log, s, ev), s, st);
        forall j | Applied(s) <= j < m ensures Inert(Step(log, s, ev), log[j]) {
          InertStays(log, s, ev, log[j], 0);
        }
      }
    }
  }

  lemma InertStep(log: seq<Event>, s: Store, ev: Event)
    requires Inert(s, ev) && s.manifest.Some? && Applied(s) < ev.seqNo
    ensures var t := Step(log, s, ev);
            && t.run == s.run && Same(t, s) && t.manifest.Some? && (CountOk(s) ==> CountOk(t))
            && (Applied(t) == Applied(s) || Applied(t) == ev.seqNo)
  {
    InertIsNeutral(log, s, ev, 2);
    CutKeepsApplied(log, s, ev, 2);
    if PlanEvent(log, s, ev).Accepted? {
      CutIsCommit(log, s, ev);
      AdvanceSame(Cut(log, s, ev, 2), ev.seqNo);
      SameTrans(Step(log, s, ev), Cut(log, s, ev, 2), s);
    }
  }

  /** The lossless shapes: outside a lossy window any cut shows nothing or everything. */
  lemma LosslessCut(log: seq<Event>, st: Store, ev: Event, k: nat)
    requires PlanEvent(log, st, ev).Accepted? && !LossyWindow(st, ev, k)
    ensures Cut(log, st, ev, k) == st || Cut(log, st, ev, k) == Cut(log, st, ev, 2)
    ensures Cut(log, st, ev, k) == st || (ev.body.NodeRetry? ==> !LossyWindow(st, ev, 2))
  {
    PlanShape(log, st, ev);
    CutShort(log, st, ev, k);
    CutShort(log, st, ev, 2);
  }

  /** Folding the in-flight event again, whatever had landed, shows the fold of the log. */
  lemma FlightLands(log: seq<Event>, s: Store, k: nat)
    requires InFlight(log, s)
    ensures Settled(log, Step(log, s, log[|log| - 1]))
    ensures !LossyWindow(s, log[|log| - 1], k) ==> InFlight(log, Cut(log, s, log[|log| - 1], k))
  {
    if Same(s, Fold(s.run, log[..|log| - 1])) {
      StartLands(log, s);
      if !LossyWindow(s, log[|log| - 1], k) { StartCut(log, s, k); }
    } else {
      LandedLands(log, s);
      LandedFlies(log, s, k);
    }
  }

  /** The fold of the log, seen from the fold before the event in flight. */
  lemma FlightFold(log: seq<Event>, s: Store)
    requires InFlight(log, s)
    ensures var pre, ev := log[..|log| - 1], log[|log| - 1];
            var f := Fold(s.run, pre);
            var full := Cut(pre, f, ev, 2);
            && f.run == s.run && CountOk(f) && SameBefore(pre, log, ev.seqNo)
            && PlanEvent(log, f, ev) == PlanEvent(pre, f, ev) && Same(full, Fold(s.run, log))
            && full.manifest.Some? && (!ev.body.NodeCreated? ==> CountOk(full))
  {
    var pre, ev := log[..|log| - 1], log[|log| - 1];
    var f := Fold(s.run, pre);
    FoldBounds(s.run, pre);
    PlanIsStable(s.run, log, f, |log| - 1);
    CutIsCommit(pre, f, ev);
    CutKeepsApplied(pre, f, ev, 2);
    AdvanceSame(Cut(pre, f, ev, 2), ev.seqNo);
    SameBack(Advance(Cut(pre, f, ev, 2), ev.seqNo), Cut(pre, f, ev, 2));
  }

  /** After one step that shows the fold and moved the watermark, the disk is settled. */
  lemma {:induction false} StepSettles(log: seq<Event>, s: Store, ev: Event)
    requires OnDisk(log, s) && |log| > 0 && ev == log[|log| - 1] && Applied(s) < |log|
    requires InertTail(log, s, |log| - 1) && (CountOk(s) || PlanEvent(log, s, ev).Accepted?)
    requires Same(Cut(log, s, ev, 2), Fold(s.run, log))
    requires PlanEvent(log, s, ev).Rejected? ==> Inert(s, ev)
    ensures Settled(log, Step(log, s, ev))
  {
    var t := Step(log, s, ev);
    CutKeepsApplied(log, s, ev, 2);
    CutEvolves(log, s, ev, 2);
    if PlanEvent(log, s, ev).Accepted? {
      CutIsCommit(log, s, ev);
      AdvanceSame(Cut(log, s, ev, 2), ev.seqNo);
      SameTrans(t, Cut(log, s, ev, 2), Fold(s.run, log));
    }
  }

  /** None of its effect had landed. */
  lemma StartLands(log: seq<Event>, s: Store)
    requires InFlight(log, s) && Same(s, Fold(s.run, log[..|log| - 1]))
    ensures Settled(log, Step(log, s, log[|log| - 1]))
  {
    var pre, ev := log[..|log| - 1], log[|log| - 1];
    var f := Fold(s.run, pre);
    FlightFold(log, s);
    CutSame(log, s, f, ev, 2);
    SameTrans(Cut(log, s, ev, 2), Cut(pre, f, ev, 2), Fold(s.run, log));
    StepSettles(log, s, ev);
  }

  lemma StartCut(log: seq<Event>, s: Store, k: nat)
    requires InFlight(log, s) && Same(s, Fold(s.run, log[..|log| - 1])) && !LossyWindow(s, log[|log| - 1], k)
    ensures InFlight(log, Cut(log, s, log[|log| - 1], k))
  {
    var pre, ev := log[..|log| - 1], log[|log| - 1];
    var f := Fold(s.run, pre);
    FlightFold(log, s);
    CutSame(log, s, f, ev, k);
    LosslessCut(pre, f, ev, k);
    CutInFlight(log, s, k);
  }

  /** The book-keeping half of staying in flight across a cut. */
  lemma CutInFlight(log: seq<Event>, s: Store, k: nat)
    requires InFlight(log, s)
    requires var c, f := Cut(log, s, log[|log| - 1], k), Fold(s.run, log[..|log| - 1]);
             || Same(c, f)
             || ( && Same(c, Cut(log[..|log| - 1], f, log[|log| - 1], 2))
                  && (log[|log| - 1].body.NodeRetry? ==> !LossyWindow(f, log[|log| - 1], 2)))
    ensures InFlight(log, Cut(log, s, log[|log| - 1], k))
  {
    var ev := log[|log| - 1];
    CutKeepsApplied(log, s, ev, k);
    CutEvolves(log, s, ev, k);
    forall j | Applied(s) <= j < |log| - 1 ensures Inert(Cut(log, s, ev, k), log[j]) {
      InertStays(log, s, ev, log[j], k);
    }
  }

  /** All of its effect had landed: folding it again, cut anywhere, changes nothing visible. */
  lemma LandedAgain(log: seq<Event>, s: Store, k: nat)
    requires InFlight(log, s) && !Same(s, Fold(s.run, log[..|log| - 1]))
    ensures var pre, ev := log[..|log| - 1], log[|log| - 1];
            var full := Cut(pre, Fold(s.run, pre), ev, 2);
            && Same(Cut(log, s, ev, k), full)
            && PlanEvent(log, s, ev).Accepted? == PlanEvent(log, full, ev).Accepted?
  {
    var pre, ev := log[..|log| - 1], log[|log| - 1];
    var f := Fold(s.run, pre);
    var full := Cut(pre, f, ev, 2);
    FlightFold(log, s);
    CutIsCommit(pre, f, ev);
    NotDiverging(pre, f, ev);
    RefoldLanded(pre, f, ev, log, full);
    CutSame(log, s, full, ev, k);
    RefusedCut(log, full, ev, k);
  }

  lemma LandedRefused(log: seq<Event>, s: Store)
    requires InFlight(log, s) && !Same(s, Fold(s.run, log[..|log| - 1]))
    requires PlanEvent(log, s, log[|log| - 1]).Rejected?
    ensures Inert(s, log[|log| - 1])
  {
    var pre, ev := log[..|log| - 1], log[|log| - 1];
    var f := Fold(s.run, pre);
    var full := Cut(pre, f, ev, 2);
    FlightFold(log, s);
    LandedAgain(log, s, 0);
    CutIsCommit(pre, f, ev);
    CutShort(pre, f, ev, 2);
    RefoldLanded(pre, f, ev, log, full);
    RefusedIsInert(pre, f, ev, full);
    SameBack(s, full);
    InertSame(full, s, ev);
  }

  lemma LandedLands(log: seq<Event>, s: Store)
    requires InFlight(log, s) && !Same(s, Fold(s.run, log[..|log| - 1]))
    ensures Settled(log, Step(log, s, log[|log| - 1]))
  {
    var pre, ev := log[..|log| - 1], log[|log| - 1];
    FlightFold(log, s);
    LandedAgain(log, s, 2);
    SameTrans(Cut(log, s, ev, 2), Cut(pre, Fold(s.run, pre), ev, 2), Fold(s.run, log));
    if PlanEvent(log, s, ev).Rejected? {
      LandedRefused(log, s);
      CreationNeverRefused(log, s);
    }
    StepSettles(log, s, ev);
  }

  /** A creation in flight is accepted again, so a refused event left the node count right. */
  lemma CreationNeverRefused(log: seq<Event>, s: Store)
    requires InFlight(log, s) && Inert(s, log[|log| - 1])
    ensures CountOk(s)
  {}

  lemma LandedFlies(log: seq<Event>, s: Store, k: nat)
    requires InFlight(log, s) && !Same(s, Fold(s.run, log[..|log| - 1]))
    ensures InFlight(log, Cut(log, s, log[|log| - 1], k))
  {
    LandedAgain(log, s, k);
    CutInFlight(log, s, k);
  }

  lemma RefusedCut(log: seq<Event>, st: Store, ev: Event, k: nat)
    ensures PlanEvent(log, st, ev).Rejected? ==> Cut(log, st, ev, k) == st
  {}

  lemma NotDiverging(log: seq<Event>, st: Store, ev: Event)
    requires PlanEvent(log, st, ev).Accepted? && !ev.body.AwaitingInput?
    requires ev.body.NodeRetry? ==> !LossyWindow(st, ev, 2)
    ensures !Diverges(log, st, ev, Cut(log, st, ev, 2))
  {
    if NodeLevel(ev.body) { CutNode(log, st, ev, 2); }
  }

  /** Catch-up from any disk a crash can leave shows exactly the fold of the log. */
  lemma CatchUpSettles(log: seq<Event>, st: Store)
    requires DiskInv(log, st)
    ensures Settled(log, CatchUp(log, st)) && CatchUp(log, st).run == st.run
  {
    if Settled(log, st) { SettledCatchesUp(log, st); } else { FlightCatchesUp(log, st); }
  }

  lemma SettledCatchesUp(log: seq<Event>, st: Store)
    requires Settled(log, st)
    ensures Settled(log, CatchUp(log, st)) && CatchUp(log, st).run == st.run
  {
    InertReplay(log, st, |log|, |log|);
    SameTrans(CatchUp(log, st), st, Fold(st.run, log));
  }

  lemma FlightCatchesUp(log: seq<Event>, st: Store)
    requires InFlight(log, st)
    ensures Settled(log, CatchUp(log, st)) && CatchUp(log, st).run == st.run
  {
    WalkToFlight(log, st);
    ReplayLast(log, Applied(st), st, |log| - 1);
    FlightLands(log, ReplayTo(log, Applied(st), st, |log| - 1), 0);
    CatchUpKeepsRun(log, st);
  }

  /** Catch-up reaches the event in flight with nothing changed that the view compares. */
  lemma WalkToFlight(log: seq<Event>, st: Store)
    requires InFlight(log, st)
    ensures var s := ReplayTo(log, Applied(st), st, |log| - 1); InFlight(log, s) && s.run == st.run
  {
    InertReplay(log, st, |log| - 1, |log| - 1);
    ReplayedInFlight(log, st, ReplayTo(log, Applied(st), st, |log| - 1));
  }

  lemma ReplayedInFlight(log: seq<Event>, st: Store, s: Store)
    requires InFlight(log, st) && s.run == st.run && OnDisk(log, s) && Same(s, st) && InertTail(log, s, |log| - 1)
    requires Applied(s) == Applied(st) || Applied(s) <= |log| - 1
    requires CountOk(st) ==> CountOk(s)
    ensures InFlight(log, s)
  {
    var pre, ev := log[..|log| - 1], log[|log| - 1];
    var f := Fold(st.run, pre);
    if Same(st, f) { SameTrans(s, st, f); } else { SameTrans(s, st, Cut(pre, f, ev, 2)); }
  }

  // ---- whole histories ----

  /** What survives a crash: the event log and the projections. */
  datatype Disk = Disk(log: seq<Event>, st: Store)

  /** Which crashes a history leaves out: none, those in the window of a retry without attempt,
      or those in any lossy window. */
  datatype LeaveOut = Nothing | RetryWindow | AllWindows

  predicate LeftOut(w: LeaveOut, st: Store, ev: Event, k: nat) {
    match w
    case Nothing => false
    case RetryWindow => ev.body.NodeRetry? && LossyWindow(st, ev, k)
    case AllWindows => LossyWindow(st, ev, k)
  }

  /** Catch-up cut inside the `i`-th event, after `k` of its writes. */
  ghost predicate ReplayCut(w: LeaveOut, d: Disk, e: Disk, i: nat, k: nat) {
    && d.st.manifest.Some? && i < |d.log| && d.log[i].seqNo > Applied(d.st)
    && var s := ReplayTo(d.log, Applied(d.st), d.st, i);
       !LeftOut(w, s, d.log[i], k) && e == Disk(d.log, Cut(d.log, s, d.log[i], k))
  }

  /** The last event, still above the watermark, folded again by itself. */
  ghost predicate RefoldCut(w: LeaveOut, d: Disk, e: Disk, k: nat) {
    && d.st.manifest.Some? && |d.log| > 0 && d.log[|d.log| - 1].seqNo > Applied(d.st)
    && !LeftOut(w, d.st, d.log[|d.log| - 1], k) && e == Disk(d.log, Cut(d.log, d.st, d.log[|d.log| - 1], k))
  }

  /** The gate in front of the log: catch up, number the event, plan it. */
  ghost predicate Admits(d: Disk, ev: Event) {
    && ev.seqNo == |d.log| + 1 && ev.runId == d.st.run
    && PlanEvent(d.log, CatchUp(d.log, d.st), ev).Accepted?
  }

  /** An append cut after the event is durable and `k` projection writes are done. */
  ghost predicate AppendCut(w: LeaveOut, d: Disk, e: Disk, ev: Event, k: nat) {
    && Admits(d, ev)
    && var s := CatchUp(d.log, d.st);
       !LeftOut(w, s, ev, k) && e == Disk(d.log + [ev], Cut(d.log, s, ev, k))
  }

  ghost predicate FullAppend(d: Disk, e: Disk, ev: Event) {
    Admits(d, ev) && e == Disk(d.log + [ev], Step(d.log, CatchUp(d.log, d.st), ev))
  }

  /** One lock hold, complete or cut by a crash anywhere but in what is left out. */
  ghost predicate Hold(w: LeaveOut, d: Disk, e: Disk) {
    || e == d
    || (exists i, k :: ReplayCut(w, d, e, i, k))
    || (exists k :: RefoldCut(w, d, e, k))
    || e == Disk(d.log, CatchUp(d.log, d.st))
    || (exists ev, k :: AppendCut(w, d, e, ev, k))
    || (exists ev :: FullAppend(d, e, ev))
  }

  /** A hold adds at most one event. */
  lemma HoldGrowth(w: LeaveOut, d: Disk, e: Disk)
    requires Hold(w, d, e)
    ensures e.log == d.log || (|e.log| == |d.log| + 1 && e.log == d.log + [e.log[|d.log|]] && Admits(d, e.log[|d.log|]))
  {
    if ev, k :| AppendCut(w, d, e, ev, k) { assert e.log[|d.log|] == ev; }
    else if ev :| FullAppend(d, e, ev) { assert e.log[|d.log|] == ev; }
  }

  lemma {:induction false} ReplayKeepsRun(log: seq<Event>, base: nat, st: Store, i: nat)
    requires i <= |log|
    ensures ReplayTo(log, base, st, i).run == st.run
  {
    if i > 0 {
      ReplayKeepsRun(log, base, st, i - 1);
      StepEvolves(log, ReplayTo(log, base, st, i - 1), log[i - 1]);
    }
  }

  lemma CatchUpKeepsRun(log: seq<Event>, st: Store)
    ensures CatchUp(log, st).run == st.run
  {
    ReplayKeepsRun(log, Applied(st), st, |log|);
  }

  lemma CutKeepsRun(log: seq<Event>, st: Store, ev: Event, k: nat)
    ensures Cut(log, st, ev, k).run == st.run && Step(log, st, ev).run == st.run
  {
    CutEvolves(log, st, ev, k);
    StepEvolves(log, st, ev);
  }

  /** Catch-up and appends stay within the run. */
  lemma HoldKeepsRun(w: LeaveOut, d: Disk, e: Disk)
    requires Hold(w, d, e)
    ensures e.st.run == d.st.run
  {
    CatchUpKeepsRun(d.log, d.st);
    if i: nat, k: nat :| ReplayCut(w, d, e, i, k) {
      ReplayKeepsRun(d.log, Applied(d.st), d.st, i);
      CutKeepsRun(d.log, ReplayTo(d.log, Applied(d.st), d.st, i), d.log[i], k);
    } else if k: nat :| RefoldCut(w, d, e, k) {
      CutKeepsRun(d.log, d.st, d.log[|d.log| - 1], k);
    } else if ev, k: nat :| AppendCut(w, d, e, ev, k) {
      CutKeepsRun(d.log, CatchUp(d.log, d.st), ev, k);
    } else if ev :| FullAppend(d, e, ev) {
      CutKeepsRun(d.log, CatchUp(d.log, d.st), ev, 0);
    }
  }

  lemma NeutralKeeps(log: seq<Event>, st: Store, e: Store, m: nat)
    requires DiskInv(log, st) && m == if Settled(log, st) then |log| else |log| - 1
    requires e.run == st.run && OnDisk(log, e) && Same(e, st) && InertTail(log, e, m)
    requires Applied(e) == Applied(st) || Applied(e) <= m
    requires CountOk(st) ==> CountOk(e)
    ensures DiskInv(log, e)
  {
    if Settled(log, st) { SameTrans(e, st, Fold(st.run, log)); } else { ReplayedInFlight(log, st, e); }
  }

  /** Cutting the replay of an inert event. */
  lemma InertCutKeeps(log: seq<Event>, s: Store, ev: Event, k: nat, m: nat)
    requires OnDisk(log, s) && m <= |log| && InertTail(log, s, m) && Inert(s, ev)
    ensures var c := Cut(log, s, ev, k);
            && c.run == s.run && OnDisk(log, c) && Same(c, s) && InertTail(log, c, m) && Applied(c) == Applied(s)
            && (CountOk(s) ==> CountOk(c))
  {
    InertIsNeutral(log, s, ev, k);
    CutKeepsApplied(log, s, ev, k);
    CutEvolves(log, s, ev, k);
    forall j | Applied(s) <= j < m ensures Inert(Cut(log, s, ev, k), log[j]) {
      InertStays(log, s, ev, log[j], k);
    }
  }

  lemma {:induction false} ReplayCutInert(log: seq<Event>, st: Store, m: nat, i: nat, k: nat)
    requires DiskInv(log, st) && m == (if Settled(log, st) then |log| else |log| - 1) && Applied(st) <= i < m
    ensures var c := Cut(log, ReplayTo(log, Applied(st), st, i), log[i], k);
            DiskInv(log, c) && c.run == st.run
  {
    InertReplay(log, st, m, i);
    var s := ReplayTo(log, Applied(st), st, i);
    assert Inert(s, log[i]) by {
      assert Inert(st, log[i]);
      SameTrans(s, st, st);
      InertSame(st, s, log[i]);
    }
    InertCutKeeps(log, s, log[i], k, m);
    var c := Cut(log, s, log[i], k);
    SameTrans(c, s, st);
    NeutralKeeps(log, st, c, m);
  }

  lemma ReplayCutFlight(log: seq<Event>, st: Store, k: nat)
    requires InFlight(log, st)
    requires !LossyWindow(ReplayTo(log, Applied(st), st, |log| - 1), log[|log| - 1], k)
    ensures var c := Cut(log, ReplayTo(log, Applied(st), st, |log| - 1), log[|log| - 1], k);
            DiskInv(log, c) && c.run == st.run
  {
    InertReplay(log, st, |log| - 1, |log| - 1);
    var s := ReplayTo(log, Applied(st), st, |log| - 1);
    ReplayedInFlight(log, st, s);
    FlightLands(log, s, k);
    CutEvolves(log, s, log[|log| - 1], k);
  }

  lemma ReplayCutKeeps(d: Disk, e: Disk, i: nat, k: nat)
    requires DiskInv(d.log, d.st) && ReplayCut(AllWindows, d, e, i, k)
    ensures DiskInv(e.log, e.st) && e.st.run == d.st.run
  {
    ReplayCutIndex(d.log, d.st, i);
    if Settled(d.log, d.st) { ReplayCutInert(d.log, d.st, |d.log|, i, k); }
    else if i < |d.log| - 1 { ReplayCutInert(d.log, d.st, |d.log| - 1, i, k); }
    else { ReplayCutFlight(d.log, d.st, k); }
  }

  lemma ReplayCutIndex(log: seq<Event>, st: Store, i: nat)
    requires OnDisk(log, st) && i < |log| && log[i].seqNo > Applied(st)
    ensures Applied(st) <= i
  {}

  lemma AppendKeeps(d: Disk, ev: Event, k: nat)
    requires DiskInv(d.log, d.st) && Admits(d, ev)
    ensures var s := CatchUp(d.log, d.st);
            && Settled(d.log + [ev], Step(d.log, s, ev))
            && (!LossyWindow(s, ev, k) ==> DiskInv(d.log + [ev], Cut(d.log, s, ev, k)))
  {
    CatchUpSettles(d.log, d.st);
    var s, log, run := CatchUp(d.log, d.st), d.log + [ev], d.st.run;
    var f := Fold(run, d.log);
    assert log[..|log| - 1] == d.log;
    FoldBounds(run, d.log);
    CutIsCommit(d.log, s, ev);
    forall j | Applied(s) <= j < |d.log| ensures Inert(s, log[j]) { assert log[j] == d.log[j]; }
    if ev.body.AwaitingInput? {
      AppendAwaiting(d.log, s, ev, k);
    } else {
      CutSame(d.log, s, f, ev, k);
      CutKeepsApplied(d.log, s, ev, 0);
      CutShort(d.log, s, ev, 0);
      assert PlanEvent(d.log, f, ev).Accepted?;
      assert f.manifest.Some?;
      assert InFlight(log, s);
      FlightLands(log, s, k);
      PlanIsStable(run, log, s, |log| - 1);
    }
  }

  lemma AppendAwaiting(log: seq<Event>, s: Store, ev: Event, k: nat)
    requires Settled(log, s) && ev.body.AwaitingInput? && PlanEvent(log, s, ev).Accepted?
    requires ev.seqNo == |log| + 1 && ev.runId == s.run
    ensures Settled(log + [ev], Cut(log, s, ev, k)) && Settled(log + [ev], Step(log, s, ev))
  {
    InertIsNeutral(log, s, ev, k);
    CutKeepsApplied(log, s, ev, k);
    CutEvolves(log, s, ev, k);
    InertStep(log, s, ev);
    forall j | Applied(s) <= j < |log| ensures Inert(Cut(log, s, ev, k), log[j]) && Inert(Step(log, s, ev), log[j]) {
      InertStays(log, s, ev, log[j], k);
    }
    AwaitingSettles(log, s, ev, Cut(log, s, ev, k));
    AwaitingSettles(log, s, ev, Step(log, s, ev));
  }

  /** Any store that looks like the settled one, over the log with the request appended. */
  lemma AwaitingSettles(log: seq<Event>, s: Store, ev: Event, c: Store)
    requires Settled(log, s) && ev.body.AwaitingInput? && ev.seqNo == |log| + 1 && ev.runId == s.run
    requires c.run == s.run && c.manifest.Some? && Same(c, s) && CountOk(c)
    requires Applied(s) <= Applied(c) <= |log| + 1 && forall j :: Applied(s) <= j < |log| ==> Inert(c, log[j])
    ensures Settled(log + [ev], c)
  {
    var log', f := log + [ev], Fold(s.run, log);
    assert log'[..|log|] == log;
    FoldBounds(s.run, log);
    AwaitingStep(log, f, ev);
    SameTrans(c, s, f);
    SameTrans(Fold(s.run, log'), f, s);
    SameTrans(c, f, Fold(s.run, log'));
    forall j | Applied(c) <= j < |log'| ensures Inert(c, log'[j]) {
      if j < |log| { assert log'[j] == log[j]; }
    }
  }

  lemma AwaitingStep(log: seq<Event>, f: Store, ev: Event)
    requires ev.body.AwaitingInput?
    ensures Same(Step(log, f, ev), f)
  {
    InertIsNeutral(log, f, ev, 2);
    if PlanEvent(log, f, ev).Accepted? {
      CutIsCommit(log, f, ev);
      AdvanceSame(Cut(log, f, ev, 2), ev.seqNo);
      SameTrans(Step(log, f, ev), Cut(log, f, ev, 2), f);
    }
  }

  lemma RefoldCutKeeps(d: Disk, e: Disk, k: nat)
    requires DiskInv(d.log, d.st) && RefoldCut(AllWindows, d, e, k)
    ensures DiskInv(e.log, e.st) && e.st.run == d.st.run
  {
    if Settled(d.log, d.st) { SettledLastCut(d.log, d.st, k); } else { FlightLastCut(d.log, d.st, k); }
  }

  lemma SettledLastCut(log: seq<Event>, st: Store, k: nat)
    requires Settled(log, st) && |log| > 0 && log[|log| - 1].seqNo > Applied(st)
    ensures var c := Cut(log, st, log[|log| - 1], k); DiskInv(log, c) && c.run == st.run
  {
    var n := |log| - 1;
    CutEvolves(log, st, log[n], k);
    ReplayCutIndex(log, st, n);
    assert Inert(st, log[n]);
    InertCutKeeps(log, st, log[n], k, |log|);
    NeutralKeeps(log, st, Cut(log, st, log[n], k), |log|);
  }

  lemma FlightLastCut(log: seq<Event>, st: Store, k: nat)
    requires InFlight(log, st) && !LossyWindow(st, log[|log| - 1], k)
    ensures var c := Cut(log, st, log[|log| - 1], k); DiskInv(log, c) && c.run == st.run
  {
    CutEvolves(log, st, log[|log| - 1], k);
    FlightLands(log, st, k);
  }

  lemma HoldKeeps(d: Disk, e: Disk)
    requires DiskInv(d.log, d.st) && Hold(AllWindows, d, e)
    ensures DiskInv(e.log, e.st) && e.st.run == d.st.run && d.log <= e.log
  {
    HoldKeepsRun(AllWindows, d, e);
    if i, k :| ReplayCut(AllWindows, d, e, i, k) {
      ReplayCutKeeps(d, e, i, k);
    } else if k :| RefoldCut(AllWindows, d, e, k) {
      RefoldCutKeeps(d, e, k);
    } else if ev, k :| AppendCut(AllWindows, d, e, ev, k) {
      AppendCutKeeps(d, e, ev, k);
    } else if ev :| FullAppend(d, e, ev) {
      FullAppendKeeps(d, e, ev);
    } else {
      CatchUpSettles(d.log, d.st);
    }
  }

  lemma AppendCutKeeps(d: Disk, e: Disk, ev: Event, k: nat)
    requires DiskInv(d.log, d.st) && AppendCut(AllWindows, d, e, ev, k)
    ensures DiskInv(e.log, e.st) && d.log <= e.log
  {
    AppendKeeps(d, ev, k);
  }

  lemma FullAppendKeeps(d: Disk, e: Disk, ev: Event)
    requires DiskInv(d.log, d.st) && FullAppend(d, e, ev)
    ensures DiskInv(e.log, e.st) && d.log <= e.log
  {
    AppendKeeps(d, ev, 0);
  }

  ghost predicate History(w: LeaveOut, h: seq<Disk>) {
    forall i :: 0 <= i < |h| - 1 ==> Hold(w, h[i], h[i + 1])
  }

  lemma {:induction false} HistoryKeeps(h: seq<Disk>, i: nat)
    requires History(AllWindows, h) && i < |h| && Settled(h[0].log, h[0].st)
    ensures DiskInv(h[i].log, h[i].st) && h[0].log <= h[i].log && h[i].st.run == h[0].st.run
  {
    if i > 0 {
      HistoryKeeps(h, i - 1);
      var j := i - 1;
      assert Hold(AllWindows, h[j], h[j + 1]);
      HoldKeeps(h[j], h[j + 1]);
    }
  }

  /** Crash-recovery refinement. Over every history of lock holds and crashes that starts
      caught up, catching up at any point makes the projections equal to the pure fold of the
      log (open requests aside), with the derived node count right and the watermark never
      above the last sequence number. */
  lemma CrashRecoveryRefinement(h: seq<Disk>, i: nat)
    requires History(AllWindows, h) && i < |h| && Settled(h[0].log, h[0].st)
    ensures var d := h[i];
            var s := CatchUp(d.log, d.st);
            && h[0].log <= d.log && d.st.run == h[0].st.run && WellSeq(d.st.run, d.log)
            && Same(s, Fold(d.st.run, d.log))
            && s.manifest.Some? && s.manifest.value.nodeCount == NodeCount(s.nodes)
            && Applied(d.st) <= |d.log| && Applied(s) <= |d.log|
  {
    HistoryKeeps(h, i);
    CatchUpSettles(h[i].log, h[i].st);
  }

  // ---- catching up again ----

  /** After walking `i` lines, whatever stays above the watermark is refused by the store
      reached. */
  lemma {:induction false} LeftoversAreRefused(log: seq<Event>, st: Store, i: nat)
    requires WellSeq(st.run, log) && st.manifest.Some? && i <= |log|
    ensures var s := ReplayTo(log, Applied(st), st, i);
            && s.run == st.run && s.manifest.Some? && Applied(s) >= Applied(st)
            && (Applied(s) == Applied(st) || Applied(s) <= i)
            && forall j :: Applied(s) <= j < i ==> PlanEvent(log, s, log[j]).Rejected?
  {
    if i > 0 {
      LeftoversAreRefused(log, st, i - 1);
      var s, ev := ReplayTo(log, Applied(st), st, i - 1), log[i - 1];
      if ev.seqNo > Applied(st) && PlanEvent(log, s, ev).Accepted? {
        CutIsCommit(log, s, ev);
        CutKeepsApplied(log, s, ev, 2);
        CutEvolves(log, s, ev, 2);
      }
    }
  }

  lemma {:induction false} ReplayRefused(log: seq<Event>, s: Store, i: nat)
    requires WellSeq(s.run, log) && i <= |log|
    requires forall j :: Applied(s) <= j < i ==> PlanEvent(log, s, log[j]).Rejected?
    ensures ReplayTo(log, Applied(s), s, i) == s
  {
    if i > 0 { ReplayRefused(log, s, i - 1); }
  }

  /** Catching up twice is catching up once, whatever the log and the store. */
  lemma CatchUpIsIdempotent(log: seq<Event>, st: Store)
    requires WellSeq(st.run, log)
    ensures CatchUp(log, CatchUp(log, st)) == CatchUp(log, st)
  {
    if st.manifest.Some? {
      LeftoversAreRefused(log, st, |log|);
      ReplayRefused(log, CatchUp(log, st), |log|);
    }
  }

  lemma {:induction false} NothingToReplay(log: seq<Event>, st: Store, i: nat)
    requires WellSeq(st.run, log) && i <= |log| && i <= Applied(st)
    ensures ReplayTo(log, Applied(st), st, i) == st
  {
    if i > 0 { NothingToReplay(log, st, i - 1); }
  }
}

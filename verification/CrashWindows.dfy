/** Exactly what one crash loses, from any caught-up store. */
module CrashWindows {
  import opened Prelude
  import opened Schema
  import opened Reducer
  import opened ReducerLaws
  import opened Refold
  import opened Recovery
  import opened CrashSafety
  import opened CrashAgreement

  // ---- requests that stay above the watermark ----

  /** A well-formed request for a human decision on this node. */
  predicate Asks(ev: Event, id: NodeId) {
    ev.body.AwaitingInput? && ev.nodeId == Some(id) && ev.body.items.Some? && ValidItems(ev.body.items.value)
  }

  /** The first request for the node at or after a position of the log. */
  ghost predicate FirstAsk(log: seq<Event>, from: nat, id: NodeId, i: nat) {
    from <= i < |log| && Asks(log[i], id) && forall j :: from <= j < i ==> !Asks(log[j], id)
  }

  /** Cutting here reopens a request that the event has just closed: another request of the
      node was refused by every catch-up for want of room and is still above the watermark, so
      the next catch-up folds it onto the emptied node; and folding the event again then does
      not close it. */
  ghost predicate ReopeningWindow(log: seq<Event>, st: Store, ev: Event, k: nat) {
    && k >= 1 && ev.nodeId.Some? && ev.runId == st.run && ev.nodeId.value in st.nodes
    && var id, n := ev.nodeId.value, st.nodes[ev.nodeId.value];
       && n.awaiting.Some?
       && exists i: nat :: FirstAsk(log, Applied(st), id, i) && ClosesOnce(st, n, ev.body, log[i].seqNo)
  }

  /** The event closes the node's request, and closes no request opened by event `reopened`. */
  predicate ClosesOnce(st: Store, n: Node, b: Body, reopened: nat)
    requires n.awaiting.Some?
  {
    match b
    case InputResolved(s) => s == Some(n.awaiting.value.eventSeq) && reopened != n.awaiting.value.eventSeq
    case Resumed(a) =>
      && a.Some? && n.retryAttempts < a.value <= U32_MAX && !n.status.IsTerminal()
      && st.manifest.Some? && st.manifest.value.resident
    case _ => false
  }

  /** Caught up: catch-up changes nothing, and what is left above the watermark is inert. */
  ghost predicate CaughtUp(log: seq<Event>, st: Store) {
    OnDisk(log, st) && CountOk(st) && InertTail(log, st, |log|) && CatchUp(log, st) == st
  }

  /** Catching up any disk that any crash can leave gives such a store. */
  lemma CatchUpCatchesUp(log: seq<Event>, st: Store)
    requires AnyDisk(log, st)
    ensures CaughtUp(log, CatchUp(log, st))
  {
    CatchUpRests(log, st);
    CatchUpIsIdempotent(log, st);
  }

  // ---- the event alone ----

  ghost predicate EqualButWatermark(a: Store, b: Store) {
    && a.run == b.run && a.nodes == b.nodes && a.manifest.Some? == b.manifest.Some?
    && (a.manifest.Some? ==> a.manifest.value.(appliedSeq := 0) == b.manifest.value.(appliedSeq := 0))
  }

  lemma PlanIsStableAfter(log: seq<Event>, st: Store, ev: Event)
    requires WellSeq(st.run, log) && ev.seqNo == |log| + 1 && ev.runId == st.run
    ensures SameBefore(log, log + [ev], ev.seqNo) && PlanEvent(log + [ev], st, ev) == PlanEvent(log, st, ev)
  {
    var log' := log + [ev];
    assert log'[..|log|] == log && log'[|log|] == ev;
    PlanIsStable(st.run, log', st, |log|);
  }

  lemma CutHeals(log: seq<Event>, st: Store, ev: Event, log': seq<Event>, k: nat)
    requires PlanEvent(log, st, ev).Accepted? && CountOk(st) && st.manifest.Some? && Applied(st) < ev.seqNo
    requires SameBefore(log, log', ev.seqNo) && PlanEvent(log', st, ev) == PlanEvent(log, st, ev)
    ensures EqualButWatermark(Step(log', Cut(log, st, ev, k), ev), Step(log, st, ev)) <==>
            !LossyWindow(st, ev, k) && !DuplicatingWindow(st, ev, k)
  {
    PlanShape(log, st, ev);
    CutShort(log, st, ev, k);
    if Cut(log, st, ev, k) == st {
      UnwrittenCut(log, st, ev, k);
    } else if |PlanEvent(log, st, ev).ops| == 2 && k == 1 {
      MidCreationCut(log, st, ev, log');
    } else {
      CutShort(log, st, ev, 2);
      LandedCut(log, st, ev, log', k);
    }
  }

  /** A cut that shows nothing is outside the windows. */
  lemma UnwrittenCut(log: seq<Event>, st: Store, ev: Event, k: nat)
    requires PlanEvent(log, st, ev).Accepted? && Cut(log, st, ev, k) == st
    ensures !LossyWindow(st, ev, k) && !DuplicatingWindow(st, ev, k)
  {
    if LossyWindow(st, ev, k) || DuplicatingWindow(st, ev, k) {
      CutShort(log, st, ev, k);
      if NodeLevel(ev.body) { CutNode(log, st, ev, k); }
      assert false;
    }
  }

  lemma MidCreationCut(log: seq<Event>, st: Store, ev: Event, log': seq<Event>)
    requires PlanEvent(log, st, ev).Accepted? && |PlanEvent(log, st, ev).ops| == 2 && Applied(st) < ev.seqNo
    ensures EqualButWatermark(Step(log', Cut(log, st, ev, 1), ev), Step(log, st, ev)) <==>
            !LossyWindow(st, ev, 1) && !DuplicatingWindow(st, ev, 1)
  {
    PlanShape(log, st, ev);
    CutShort(log, st, ev, 1);
    CutShort(log, st, ev, 2);
    CutIsCommit(log, st, ev);
    assert PlanEvent(log', Cut(log, st, ev, 1), ev) == Accepted([]);
    CommitNone(Cut(log, st, ev, 1));
  }

  lemma LandedCut(log: seq<Event>, st: Store, ev: Event, log': seq<Event>, k: nat)
    requires PlanEvent(log, st, ev).Accepted? && PlanEvent(log, st, ev).ops != [] && CountOk(st) && st.manifest.Some?
    requires SameBefore(log, log', ev.seqNo) && Applied(st) < ev.seqNo && k >= 1
    requires Cut(log, st, ev, k) == Cut(log, st, ev, 2) && !(ev.body.NodeCreated? && k == 1)
    ensures EqualButWatermark(Step(log', Cut(log, st, ev, k), ev), Step(log, st, ev)) <==>
            !LossyWindow(st, ev, k) && !DuplicatingWindow(st, ev, k)
  {
    var c := Cut(log, st, ev, 2);
    CutIsCommit(log, st, ev);
    CutKeepsApplied(log, st, ev, 2);
    RefoldLanded(log, st, ev, log', c);
    LandedWindows(log, st, ev, k);
    if PlanEvent(log', c, ev).Accepted? { CutIsCommit(log', c, ev); }
    if Diverges(log, st, ev, c) {
      CutNode(log', c, ev, 2);
    }
  }

  /** For a landed event the windows are exactly the divergent re-folds. */
  lemma LandedWindows(log: seq<Event>, st: Store, ev: Event, k: nat)
    requires PlanEvent(log, st, ev).Accepted? && PlanEvent(log, st, ev).ops != []
    requires k >= 1 && !(ev.body.NodeCreated? && k == 1)
    ensures Diverges(log, st, ev, Cut(log, st, ev, 2)) <==> LossyWindow(st, ev, k) || DuplicatingWindow(st, ev, k)
  {
    if NodeLevel(ev.body) { CutNode(log, st, ev, 2); }
  }

  // ---- what is left above the watermark, over the cut store ----

  predicate Openable(n: Node) { !n.status.IsTerminal() && n.workerExit.None? && n.awaiting.None? }

  /** An event of the kinds that can stay above the watermark, refused by the store. */
  ghost predicate LeftOver(st: Store, e: Event) {
    (e.body.AwaitingInput? || e.body.PiTransition?) && e.runId == st.run && PlanNode(st, e).Rejected?
  }

  lemma CaughtUpLeavesRefused(log: seq<Event>, st: Store, j: nat)
    requires CaughtUp(log, st) && Applied(st) <= j < |log|
    ensures Inert(st, log[j]) && LeftOver(st, log[j])
  {
    LeftoversAreRefused(log, st, |log|);
    assert Inert(st, log[j]);
    PlanIsNodePlan(log, st, log[j]);
  }

  /** A refused request jams a live node whose open request is too full. */
  lemma Jammed(st: Store, e: Event, id: NodeId)
    requires Asks(e, id) && LeftOver(st, e)
    ensures id in st.nodes && st.nodes[id].awaiting.Some? && !st.nodes[id].status.IsTerminal()
    ensures st.nodes[id].workerExit.None?
    ensures |st.nodes[id].awaiting.value.items| + |e.body.items.value| > MAX_ITEMS
  {}

  lemma RequestIsLocal(a: Store, b: Store, e: Event)
    requires e.body.AwaitingInput? && e.nodeId.Some? ==>
               ((e.nodeId.value in a.nodes) == (e.nodeId.value in b.nodes))
               && (e.nodeId.value in a.nodes ==> a.nodes[e.nodeId.value] == b.nodes[e.nodeId.value])
    requires e.body.AwaitingInput?
    ensures PlanNode(a, e) == PlanNode(b, e)
  {}

  /** What a landed event does to an open request it does not close: it never shrinks. */
  lemma RequestGrows(st: Store, id: NodeId, ev: Event, n: Node)
    requires NodeMoved(st, id, ev, n) && st.nodes[id].awaiting.Some? && n.awaiting.Some?
    ensures |st.nodes[id].awaiting.value.items| <= |n.awaiting.value.items|
  {}

  /** Over the cut store a leftover is refused again or changes nothing, unless it is a request
      of a node the event has just emptied. */
  lemma LeftOverAfterCut(log: seq<Event>, st: Store, ev: Event, k: nat, e: Event)
    requires PlanEvent(log, st, ev).Accepted? && Inert(st, e) && LeftOver(st, e)
    ensures var c := Cut(log, st, ev, k);
            || PlanNode(c, e).Rejected?
            || (PlanNode(c, e) == Accepted([]) && NodeLevel(ev.body))
            || (NodeLevel(ev.body) && ev.nodeId.Some? && Asks(e, ev.nodeId.value)
                && ev.nodeId.value in c.nodes && Openable(c.nodes[ev.nodeId.value]))
  {
    var c := Cut(log, st, ev, k);
    CutEvolves(log, st, ev, k);
    if e.body.PiTransition? {
      InertStays(log, st, ev, e, k);
      InertIsNeutral(log, c, e, 0);
    } else if e.nodeId.Some? && e.nodeId.value in st.nodes && c.nodes[e.nodeId.value] != st.nodes[e.nodeId.value] {
      RequestAfterMove(st, c, ev, e);
    } else if e.nodeId.Some? && e.nodeId.value !in st.nodes {
      assert PlanNode(c, e).Rejected?;
    } else {
      RequestIsLocal(st, c, e);
    }
  }

  lemma RequestAfterMove(st: Store, c: Store, ev: Event, e: Event)
    requires e.body.AwaitingInput? && LeftOver(st, e) && e.nodeId.Some? && e.nodeId.value in st.nodes
    requires e.nodeId.value in c.nodes
    requires NodeMoved(st, e.nodeId.value, ev, c.nodes[e.nodeId.value]) && c.run == st.run
    ensures || PlanNode(c, e).Rejected?
            || PlanNode(c, e) == Accepted([])
            || (Asks(e, e.nodeId.value) && Openable(c.nodes[e.nodeId.value]))
  {
    var id := e.nodeId.value;
    if Asks(e, id) {
      Jammed(st, e, id);
      if c.nodes[id].awaiting.Some? { RequestGrows(st, id, ev, c.nodes[id]); }
    }
  }

  // ---- walking the leftovers ----

  lemma {:induction false} QuietWalk(log: seq<Event>, base: nat, c: Store, i: nat)
    requires WellSeq(c.run, log) && i <= |log| && c.manifest.Some?
    requires forall j :: base <= j < i ==>
               NodeLevel(log[j].body) && (PlanNode(c, log[j]).Rejected? ||
                   (PlanNode(c, log[j]) == Accepted([]) && CountOk(c)))
    ensures var w := ReplayTo(log, base, c, i);
            EqualButWatermark(w, c) && (Applied(w) == Applied(c) || Applied(w) <= i)
  {
    if i > 0 {
      QuietWalk(log, base, c, i - 1);
      var w, e := ReplayTo(log, base, c, i - 1), log[i - 1];
      if e.seqNo > base {
        NodePlanIgnoresWatermark(c, w, e);
        PlanIsNodePlan(log, w, e);
        CommitNone(w);
      }
    }
  }

  /** The cut store with the request of one node opened by event `seqNo`. */
  ghost predicate Reopened(c: Store, id: NodeId, seqNo: nat, w: Store) {
    && id in c.nodes && w.run == c.run && SameManifestButMark(w, c)
    && exists a: Awaiting :: a.eventSeq == seqNo && w.nodes == c.nodes[id := c.nodes[id].(awaiting := Some(a))]
  }

  ghost predicate SameManifestButMark(a: Store, b: Store) {
    && a.manifest.Some? && b.manifest.Some?
    && a.manifest.value.(appliedSeq := 0) == b.manifest.value.(appliedSeq := 0)
  }

  /** A leftover that does not ask this node is refused however the node's request stands. */
  lemma StrangerRefused(c: Store, w: Store, id: NodeId, seqNo: nat, e: Event)
    requires LeftOver(c, e) && !Asks(e, id)
    requires EqualButWatermark(w, c) || Reopened(c, id, seqNo, w)
    requires w.manifest.Some?
    ensures PlanNode(w, e).Rejected?
  {}

  /** A request folded onto an emptied node opens it; onto a reopened one it joins or is
      refused. */
  lemma AskStep(log: seq<Event>, c: Store, w: Store, id: NodeId, e: Event, seqNo: nat)
    requires Asks(e, id) && e.runId == c.run && id in c.nodes && Openable(c.nodes[id]) && CountOk(c) && c.manifest.Some?
    requires EqualButWatermark(w, c) || Reopened(c, id, seqNo, w)
    ensures EqualButWatermark(w, c) ==> Reopened(c, id, e.seqNo, Step(log, w, e))
    ensures Reopened(c, id, seqNo, w) ==> Reopened(c, id, seqNo, Step(log, w, e))
  {
    CutReaching(log, w, e, 2);
    PlanIsNodePlan(log, w, e);
    var s := Step(log, w, e);
    if PlanEvent(log, w, e).Accepted? {
      CutIsCommit(log, w, e);
      CutKeepsApplied(log, w, e, 2);
    }
    if EqualButWatermark(w, c) {
      var a := Awaiting(e.ts, e.seqNo, e.body.items.value);
      assert s.nodes == c.nodes[id := c.nodes[id].(awaiting := Some(a))];
    } else {
      var a: Awaiting :| a.eventSeq == seqNo && w.nodes == c.nodes[id := c.nodes[id].(awaiting := Some(a))];
      JoinStep(c, w, id, a, e, s);
    }
  }

  lemma JoinStep(c: Store, w: Store, id: NodeId, a: Awaiting, e: Event, s: Store)
    requires Asks(e, id) && id in c.nodes && Openable(c.nodes[id]) && e.runId == w.run && CountOk(c) && CountOk(w)
    requires w.nodes == c.nodes[id := c.nodes[id].(awaiting := Some(a))] && w.run == c.run && SameManifestButMark(w, c)
    requires s.run == w.run && SameManifestButMark(s, w)
    requires var n := if Reaches(w, e) then After(w.nodes[id], NodeChange(w, id, w.nodes[id], e)) else w.nodes[id];
             s.nodes == w.nodes[id := n]
    ensures Reopened(c, id, a.eventSeq, s)
  {
    if Reaches(w, e) {
      var b := a.(items := a.items + e.body.items.value);
      assert s.nodes == c.nodes[id := c.nodes[id].(awaiting := Some(b))];
    } else {
      assert s.nodes == c.nodes[id := c.nodes[id].(awaiting := Some(a))];
    }
  }

  /** The walk over an emptied node: the first request reopens it, the rest join or are
      refused, strangers are refused. */
  lemma {:induction false} OpenWalk(log: seq<Event>, base: nat, c: Store, id: NodeId, i: nat)
    requires WellSeq(c.run, log) && i <= |log| && c.manifest.Some? && CountOk(c) && id in c.nodes
    requires Openable(c.nodes[id])
    requires forall j :: base <= j < i ==> Asks(log[j], id) || LeftOver(c, log[j])
    ensures var w := ReplayTo(log, base, c, i);
            && w.run == c.run && w.manifest.Some? && (Applied(w) == Applied(c) || Applied(w) <= i)
            && ( || (EqualButWatermark(w, c) && forall j :: base <= j < i ==> !Asks(log[j], id))
                 || (exists f: nat :: f < i && FirstAsk(log, base, id, f) && Reopened(c, id, log[f].seqNo, w)))
  {
    if i > 0 {
      OpenWalk(log, base, c, id, i - 1);
      var w, e := ReplayTo(log, base, c, i - 1), log[i - 1];
      if e.seqNo > base {
        WalkBounds(log, w, e);
        if EqualButWatermark(w, c) && forall j :: base <= j < i - 1 ==> !Asks(log[j], id) {
          if Asks(e, id) {
            AskStep(log, c, w, id, e, 0);
            assert FirstAsk(log, base, id, i - 1);
          } else {
            StrangerStep(log, c, w, id, 0, e);
          }
        } else {
          var f: nat :| f < i - 1 && FirstAsk(log, base, id, f) && Reopened(c, id, log[f].seqNo, w);
          if Asks(e, id) {
            AskStep(log, c, w, id, e, log[f].seqNo);
          } else {
            StrangerStep(log, c, w, id, log[f].seqNo, e);
          }
        }
      }
    }
  }

  lemma WalkBounds(log: seq<Event>, w: Store, e: Event)
    requires w.manifest.Some?
    ensures Step(log, w, e).manifest.Some? && Step(log, w, e).run == w.run
    ensures Applied(Step(log, w, e)) == Applied(w) || Applied(Step(log, w, e)) == e.seqNo
  {
    StepEvolves(log, w, e);
    if PlanEvent(log, w, e).Accepted? {
      CutIsCommit(log, w, e);
      CutKeepsApplied(log, w, e, 2);
    }
  }

  lemma StrangerStep(log: seq<Event>, c: Store, w: Store, id: NodeId, seqNo: nat, e: Event)
    requires LeftOver(c, e) && !Asks(e, id) && w.manifest.Some? && w.run == c.run
    requires EqualButWatermark(w, c) || Reopened(c, id, seqNo, w)
    ensures Step(log, w, e) == w
  {
    StrangerRefused(c, w, id, seqNo, e);
    PlanIsNodePlan(log, w, e);
  }

  // ---- folding the event after the walk ----

  /** Plans do not read the watermark, so equal stores step to equal stores. */
  lemma StepIgnoresMark(log: seq<Event>, a: Store, b: Store, ev: Event)
    requires EqualButWatermark(a, b) && a.manifest.Some? && Applied(a) < ev.seqNo && Applied(b) < ev.seqNo
    ensures EqualButWatermark(Step(log, a, ev), Step(log, b, ev))
  {
    if NodeLevel(ev.body) && ev.runId == a.run {
      NodePlanIgnoresWatermark(b, a, ev);
      PlanIsNodePlan(log, a, ev);
      PlanIsNodePlan(log, b, ev);
      StepNodeMark(log, a, b, ev);
    } else {
      StepRunMark(log, a, b, ev);
    }
  }

  lemma StepNodeMark(log: seq<Event>, a: Store, b: Store, ev: Event)
    requires EqualButWatermark(a, b) && a.manifest.Some? && Applied(a) < ev.seqNo && Applied(b) < ev.seqNo
    requires NodeLevel(ev.body) && PlanEvent(log, a, ev) == PlanEvent(log, b, ev)
    ensures EqualButWatermark(Step(log, a, ev), Step(log, b, ev))
  {
    if PlanEvent(log, a, ev).Accepted? {
      CutIsCommit(log, a, ev);
      CutIsCommit(log, b, ev);
      CutShort(log, a, ev, 2);
      CutShort(log, b, ev, 2);
      PlanShape(log, a, ev);
    }
  }

  lemma StepRunMark(log: seq<Event>, a: Store, b: Store, ev: Event)
    requires EqualButWatermark(a, b) && a.manifest.Some? && Applied(a) < ev.seqNo && Applied(b) < ev.seqNo
    requires !NodeLevel(ev.body) || ev.runId != a.run
    ensures EqualButWatermark(Step(log, a, ev), Step(log, b, ev))
  {
    PlanRunMark(log, a, b, ev);
    if PlanEvent(log, a, ev).Accepted? {
      CutIsCommit(log, a, ev);
      CutIsCommit(log, b, ev);
      CutKeepsApplied(log, a, ev, 2);
      CutKeepsApplied(log, b, ev, 2);
      MarkCommits(Cut(log, a, ev, 2), Cut(log, b, ev, 2), ev.seqNo);
    }
  }

  /** Run-level plans over stores that differ in the watermark write the same, watermark aside. */
  lemma PlanRunMark(log: seq<Event>, a: Store, b: Store, ev: Event)
    requires EqualButWatermark(a, b) && a.manifest.Some? && (!NodeLevel(ev.body) || ev.runId != a.run)
    ensures PlanEvent(log, a, ev).Accepted? == PlanEvent(log, b, ev).Accepted?
    ensures EqualButWatermark(Cut(log, a, ev, 2), Cut(log, b, ev, 2))
  {
    if ev.runId != a.run || ev.body.Audit? {
      PlanNothingMark(log, a, b, ev);
    } else if ev.body.SettlementIntent? {
      PlanIntentMark(log, a, b, ev);
    } else {
      PlanSingleMark(log, a, b, ev);
    }
  }

  lemma PlanNothingMark(log: seq<Event>, a: Store, b: Store, ev: Event)
    requires EqualButWatermark(a, b) && (ev.runId != a.run || ev.body.Audit?)
    ensures PlanEvent(log, a, ev) == PlanEvent(log, b, ev)
    ensures EqualButWatermark(Cut(log, a, ev, 2), Cut(log, b, ev, 2))
  {
    if PlanEvent(log, a, ev).Accepted? {
      CutShort(log, a, ev, 2);
      CutShort(log, b, ev, 2);
    }
  }

  lemma PlanIntentMark(log: seq<Event>, a: Store, b: Store, ev: Event)
    requires EqualButWatermark(a, b) && a.manifest.Some? && ev.runId == a.run && ev.body.SettlementIntent?
    ensures PlanEvent(log, a, ev).Accepted? == PlanEvent(log, b, ev).Accepted?
    ensures EqualButWatermark(Cut(log, a, ev, 2), Cut(log, b, ev, 2))
  {
    if PlanEvent(log, a, ev).Accepted? {
      CutShort(log, a, ev, 2);
      CutShort(log, b, ev, 2);
    }
  }

  lemma PlanSingleMark(log: seq<Event>, a: Store, b: Store, ev: Event)
    requires EqualButWatermark(a, b) && a.manifest.Some? && ev.runId == a.run
    requires ev.body.RunCreated? || ev.body.RunStatus? || ev.body.NodeCreated?
    ensures PlanEvent(log, a, ev).Accepted? == PlanEvent(log, b, ev).Accepted?
    ensures EqualButWatermark(Cut(log, a, ev, 2), Cut(log, b, ev, 2))
  {
    if PlanEvent(log, a, ev).Accepted? {
      CutShort(log, a, ev, 2);
      CutShort(log, b, ev, 2);
    }
  }

  lemma MarkCommits(a: Store, b: Store, seqNo: nat)
    requires EqualButWatermark(a, b) && Applied(a) < seqNo && Applied(b) < seqNo
    ensures EqualButWatermark(Advance(a, seqNo), Advance(b, seqNo))
  {}

  /** The event closes the reopened request again exactly when it is not one that closes once,
      and otherwise leaves the node as it landed unless it is a retry that counts again. */
  lemma ClosesAgain(st: Store, id: NodeId, ev: Event, n: Node, w: Store, a: Awaiting, k: nat)
    requires NodeMoved(st, id, ev, n) && st.nodes[id].awaiting.Some? && Openable(n) && k >= 1
    requires !st.nodes[id].status.IsTerminal() && st.nodes[id].workerExit.None?
    requires w.run == st.run && SameManifestButMark(w, st) && id in w.nodes && w.nodes[id] == n.(awaiting := Some(a))
    ensures Reaches(w, ev)
    ensures After(w.nodes[id], NodeChange(w, id, w.nodes[id], ev)) == n <==>
            !LossyWindow(st, ev, k) && !ClosesOnce(st, st.nodes[id], ev.body, a.eventSeq)
  {}

  /** Only these kinds empty a live node's request and leave it live. */
  lemma EmptiedBy(st: Store, id: NodeId, ev: Event, n: Node)
    requires NodeMoved(st, id, ev, n) && st.nodes[id].awaiting.Some? && Openable(n)
    ensures ev.body.NodeRetry? || ev.body.InputResolved? || ev.body.Resumed? || ev.body.RoundReported?
  {}

  /** The walk reopened the node: whether the event heals it. */
  lemma ReopenedHeals(log: seq<Event>, log': seq<Event>, st: Store, ev: Event, k: nat, w: Store, seqNo: nat)
    requires NodeLevel(ev.body) && PlanEvent(log, st, ev).Accepted? && ev.nodeId.Some? && k >= 1 && st.manifest.Some?
    requires ev.nodeId.value in st.nodes && Reaches(st, ev) && CountOk(st) && Applied(st) < ev.seqNo
    requires Applied(w) < ev.seqNo
    requires var id, c := ev.nodeId.value, Cut(log, st, ev, k);
             && st.nodes[id].awaiting.Some? && !st.nodes[id].status.IsTerminal() && st.nodes[id].workerExit.None?
             && id in c.nodes && Openable(c.nodes[id]) && Reopened(c, id, seqNo, w)
    ensures EqualButWatermark(Step(log', w, ev), Step(log, st, ev)) <==>
            !LossyWindow(st, ev, k) && !ClosesOnce(st, st.nodes[ev.nodeId.value], ev.body, seqNo)
  {
    var id, c := ev.nodeId.value, Cut(log, st, ev, k);
    CutReaching(log, st, ev, k);
    StepReaching(log, st, ev);
    var n := c.nodes[id];
    assert NodeMoved(st, id, ev, n);
    var a: Awaiting :| a.eventSeq == seqNo && w.nodes == c.nodes[id := n.(awaiting := Some(a))];
    ClosesAgain(st, id, ev, n, w, a, k);
    StepReaching(log', w, ev);
    PlanIsNodePlan(log', w, ev);
    HealedCount(log', w, log, st, ev);
    SameAtNode(c.nodes, id, n, n.(awaiting := Some(a)), After(w.nodes[id], NodeChange(w, id, w.nodes[id], ev)));
  }

  lemma SameAtNode(nodes: map<NodeId, Node>, id: NodeId, n: Node, between: Node, m: Node)
    requires id in nodes && nodes[id] == n
    ensures nodes[id := between][id := m] == nodes <==> m == n
  {
    assert nodes[id := between][id := m][id] == m;
  }

  lemma HealedCount(log': seq<Event>, w: Store, log: seq<Event>, st: Store, ev: Event)
    requires NodeLevel(ev.body) && PlanEvent(log', w, ev).Accepted? && PlanEvent(log, st, ev).Accepted?
    requires Applied(st) < ev.seqNo && Applied(w) < ev.seqNo && SameManifestButMark(w, st) && w.run == st.run
    ensures Step(log', w, ev).run == Step(log, st, ev).run
    ensures Step(log', w, ev).nodes == Step(log, st, ev).nodes ==>
            EqualButWatermark(Step(log', w, ev), Step(log, st, ev))
  {
    CutIsCommit(log', w, ev);
    CutIsCommit(log, st, ev);
    CutNode(log', w, ev, 2);
    CutNode(log, st, ev, 2);
  }

  // ---- the theorem ----

  /** Some request of the node is above the watermark. */
  ghost predicate AskLeft(log: seq<Event>, st: Store, id: NodeId) {
    exists j :: Applied(st) <= j < |log| && Asks(log[j], id)
  }

  /** The event has emptied a node that has such a request. */
  ghost predicate Emptied(log: seq<Event>, st: Store, ev: Event, k: nat) {
    var c := Cut(log, st, ev, k);
    && NodeLevel(ev.body) && ev.nodeId.Some? && ev.nodeId.value in c.nodes && Openable(c.nodes[ev.nodeId.value])
    && AskLeft(log, st, ev.nodeId.value)
  }

  /** From any caught-up store, a crash after the event is logged and `k` writes are done is
      healed to the complete store, open requests included, if and only if it hit none of the
      four windows. */
  lemma CrashLosesExactly(log: seq<Event>, st: Store, ev: Event, k: nat)
    requires CaughtUp(log, st) && Admits(Disk(log, st), ev)
    ensures EqualButWatermark(CatchUp(log + [ev], Cut(log, st, ev, k)), Step(log, st, ev)) <==>
            !LossyWindow(st, ev, k) && !DuplicatingWindow(st, ev, k) && !ReopeningWindow(log, st, ev, k)
  {
    forall j | Applied(st) <= j < |log| ensures Inert(st, log[j]) && LeftOver(st, log[j]) {
      CaughtUpLeavesRefused(log, st, j);
    }
    CutWalks(log, st, ev, k);
    if Emptied(log, st, ev, k) { EmptiedCut(log, st, ev, k); } else { QuietCut(log, st, ev, k); }
  }

  /** Catch-up after the cut: walk the leftovers, then fold the event. */
  lemma {:induction false} CutWalks(log: seq<Event>, st: Store, ev: Event, k: nat)
    requires OnDisk(log, st) && ev.seqNo == |log| + 1 && ev.runId == st.run
    ensures var l, c := log + [ev], Cut(log, st, ev, k);
            && c.manifest.Some? && c.run == st.run && Applied(c) == Applied(st) && WellSeq(c.run, l)
            && CatchUp(l, c) == Step(l, ReplayTo(l, Applied(st), c, |log|), ev)
  {
    CutKeepsApplied(log, st, ev, k);
    CutEvolves(log, st, ev, k);
    LogWithEvent(st.run, log, ev);
    ReplayLast(log + [ev], Applied(st), Cut(log, st, ev, k), |log|);
  }

  lemma LogWithEvent(run: RunId, log: seq<Event>, ev: Event)
    requires WellSeq(run, log) && ev.seqNo == |log| + 1 && ev.runId == run
    ensures WellSeq(run, log + [ev]) && |log + [ev]| == |log| + 1 && (log + [ev])[|log|] == ev
  {}

  lemma QuietCut(log: seq<Event>, st: Store, ev: Event, k: nat)
    requires CaughtUp(log, st) && Admits(Disk(log, st), ev) && !Emptied(log, st, ev, k)
    requires forall j :: Applied(st) <= j < |log| ==> Inert(st, log[j]) && LeftOver(st, log[j])
    ensures EqualButWatermark(CatchUp(log + [ev], Cut(log, st, ev, k)), Step(log, st, ev)) <==>
            !LossyWindow(st, ev, k) && !DuplicatingWindow(st, ev, k) && !ReopeningWindow(log, st, ev, k)
  {
    var l, c := log + [ev], Cut(log, st, ev, k);
    CutWalks(log, st, ev, k);
    CutKeepsApplied(log, st, ev, k);
    forall j | Applied(st) <= j < |log|
      ensures NodeLevel(l[j].body) && (PlanNode(c, l[j]).Rejected? || (PlanNode(c, l[j]) == Accepted([]) && CountOk(c)))
    {
      assert l[j] == log[j];
      LeftOverAfterCut(log, st, ev, k, log[j]);
    }
    QuietWalk(l, Applied(st), c, |log|);
    StepIgnoresMark(l, ReplayTo(l, Applied(st), c, |log|), c, ev);
    PlanIsStableAfter(log, st, ev);
    CutHeals(log, st, ev, l, k);
    EqualTrans(CatchUp(l, c), Step(l, c, ev), Step(log, st, ev));
    if ReopeningWindow(log, st, ev, k) { WindowEmpties(log, st, ev, k); }
  }

  lemma EqualTrans(a: Store, b: Store, c: Store)
    requires EqualButWatermark(a, b)
    ensures EqualButWatermark(b, c) <==> EqualButWatermark(a, c)
  {}

  lemma WindowEmpties(log: seq<Event>, st: Store, ev: Event, k: nat)
    requires PlanEvent(log, st, ev).Accepted? && ReopeningWindow(log, st, ev, k)
    requires forall j :: Applied(st) <= j < |log| ==> LeftOver(st, log[j])
    ensures Emptied(log, st, ev, k)
  {
    var id := ev.nodeId.value;
    var i: nat :| FirstAsk(log, Applied(st), id, i) && ClosesOnce(st, st.nodes[id], ev.body, log[i].seqNo);
    Jammed(st, log[i], id);
    CutReaching(log, st, ev, k);
  }

  lemma EmptiedCut(log: seq<Event>, st: Store, ev: Event, k: nat)
    requires CaughtUp(log, st) && Admits(Disk(log, st), ev) && Emptied(log, st, ev, k)
    requires forall j :: Applied(st) <= j < |log| ==> Inert(st, log[j]) && LeftOver(st, log[j])
    ensures EqualButWatermark(CatchUp(log + [ev], Cut(log, st, ev, k)), Step(log, st, ev)) <==>
            !LossyWindow(st, ev, k) && !DuplicatingWindow(st, ev, k) && !ReopeningWindow(log, st, ev, k)
  {
    var l, c, id := log + [ev], Cut(log, st, ev, k), ev.nodeId.value;
    CutWalks(log, st, ev, k);
    EmptiedLands(log, st, ev, k);
    EmptiedLeftOvers(log, st, ev, k);
    OpenWalk(l, Applied(st), c, id, |log|);
    var w := ReplayTo(l, Applied(st), c, |log|);
    EmptiedHasAsk(log, st, id, l);
    var f: nat :| f < |log| && FirstAsk(l, Applied(st), id, f) && Reopened(c, id, l[f].seqNo, w);
    FirstAskStays(log, ev, Applied(st), id, f);
    ReopenedHeals(log, l, st, ev, k, w, log[f].seqNo);
    EmptiedBy(st, id, ev, c.nodes[id]);
    OnlyFirst(log, Applied(st), id, f);
  }

  /** The landed event moved the node, whose request was open. */
  lemma EmptiedLands(log: seq<Event>, st: Store, ev: Event, k: nat)
    requires CaughtUp(log, st) && PlanEvent(log, st, ev).Accepted? && ev.runId == st.run && Emptied(log, st, ev, k)
    requires forall j :: Applied(st) <= j < |log| ==> LeftOver(st, log[j])
    ensures var id, c := ev.nodeId.value, Cut(log, st, ev, k);
            && id in st.nodes && st.nodes[id].awaiting.Some? && !st.nodes[id].status.IsTerminal()
            && st.nodes[id].workerExit.None?
            && Reaches(st, ev) && k >= 1 && NodeMoved(st, id, ev, c.nodes[id]) && CountOk(c)
  {
    var id := ev.nodeId.value;
    var j :| Applied(st) <= j < |log| && Asks(log[j], id);
    Jammed(st, log[j], id);
    CutReaching(log, st, ev, k);
    CutKeepsApplied(log, st, ev, k);
  }

  lemma EmptiedLeftOvers(log: seq<Event>, st: Store, ev: Event, k: nat)
    requires CaughtUp(log, st) && PlanEvent(log, st, ev).Accepted? && ev.runId == st.run && Emptied(log, st, ev, k)
    requires Reaches(st, ev) && k >= 1
    requires forall j :: Applied(st) <= j < |log| ==> Inert(st, log[j]) && LeftOver(st, log[j])
    ensures var l, c := log + [ev], Cut(log, st, ev, k);
            forall j :: Applied(st) <= j < |log| ==> Asks(l[j], ev.nodeId.value) || LeftOver(c, l[j])
  {
    var l, c, id := log + [ev], Cut(log, st, ev, k), ev.nodeId.value;
    CutReaching(log, st, ev, k);
    forall j | Applied(st) <= j < |log| ensures Asks(l[j], id) || LeftOver(c, l[j]) {
      assert l[j] == log[j];
      if !Asks(log[j], id) { StrangerStays(log, st, c, ev, k, log[j]); }
    }
  }

  lemma StrangerStays(log: seq<Event>, st: Store, c: Store, ev: Event, k: nat, e: Event)
    requires c == Cut(log, st, ev, k) && NodeLevel(ev.body) && Reaches(st, ev) && k >= 1
    requires Inert(st, e) && LeftOver(st, e) && !Asks(e, ev.nodeId.value)
    ensures LeftOver(c, e)
  {
    CutReaching(log, st, ev, k);
    if e.body.PiTransition? {
      InertStays(log, st, ev, e, k);
      InertIsNeutral(log, c, e, 0);
      PlanIsNodePlan(log, c, e);
    } else if e.nodeId != ev.nodeId {
      RequestIsLocal(st, c, e);
    }
  }

  lemma EmptiedHasAsk(log: seq<Event>, st: Store, id: NodeId, l: seq<Event>)
    requires AskLeft(log, st, id) && log <= l
    ensures exists j :: Applied(st) <= j < |log| && Asks(l[j], id)
  {
    var j :| Applied(st) <= j < |log| && Asks(log[j], id);
    assert l[j] == log[j];
  }

  lemma FirstAskStays(log: seq<Event>, ev: Event, from: nat, id: NodeId, f: nat)
    requires f < |log| && FirstAsk(log + [ev], from, id, f)
    ensures FirstAsk(log, from, id, f) && (log + [ev])[f] == log[f]
  {
    forall j | from <= j < f ensures !Asks(log[j], id) { assert (log + [ev])[j] == log[j]; }
  }

  lemma OnlyFirst(log: seq<Event>, from: nat, id: NodeId, f: nat)
    requires FirstAsk(log, from, id, f)
    ensures forall i: nat :: FirstAsk(log, from, id, i) ==> i == f
  {}

  // ---- an answered question that comes back ----

  /** A request of `n` items. */
  function Request(n: nat): Body { AwaitingInput(Some(seq(n, _ => ITEM))) }

  /** Created, one question asked and acknowledged. */
  function AskedLog(): seq<Event> {
    [Event(1, 0, RUN, None, None, RunCreated(Some(RunSpec(Taskfleet, false, None)))),
     Ev(2, NodeCreated(Some(SPAWN))), Ev(3, Request(1))]
  }

  function Open(seqNo: nat, n: nat): Option<Awaiting> { Some(Awaiting(0, seqNo, seq(n, _ => ITEM))) }

  function AskedStore(a: Option<Awaiting>): Store {
    Store(RUN, Some(Manifest(Pending, 3, 1, Taskfleet, false, None, None)),
          map[DEFAULT_NODE := FreshNode(SPAWN).(awaiting := a)])
  }

  lemma RequestIsValid(n: nat)
    requires 1 <= n <= MAX_ITEMS
    ensures ValidItems(seq(n, _ => ITEM))
  {
    ItemIsValid();
    assert ITEM in [ITEM];
  }

  lemma PutAsked(log: seq<Event>, a: Option<Awaiting>, b: Option<Awaiting>, ev: Event)
    requires PlanEvent(log, AskedStore(a), ev) == Accepted([PutNode(DEFAULT_NODE, FreshNode(SPAWN).(awaiting := b))])
    ensures Cut(log, AskedStore(a), ev, 1) == AskedStore(b) && Cut(log, AskedStore(a), ev, 2) == AskedStore(b)
  {
    CutShort(log, AskedStore(a), ev, 1);
    CutShort(log, AskedStore(a), ev, 2);
  }

  /** That store is the fold of that log. */
  lemma AskedFolds()
    ensures Fold(RUN, AskedLog()) == AskedStore(Open(3, 1))
  {
    var log := AskedLog();
    assert log[..0] == [] && log[..3] == log;
    FoldUnfolds(RUN, log, 1);
    FoldUnfolds(RUN, log, 2);
    FoldUnfolds(RUN, log, 3);
    AskedStart(log[..0], log[..1]);
    AskedEnd(log[..2]);
  }

  function CreatedStore(): Store {
    Store(RUN, Some(Manifest(Pending, 2, 1, Taskfleet, false, None, None)), map[DEFAULT_NODE := FreshNode(SPAWN)])
  }

  lemma AskedStart(l0: seq<Event>, l1: seq<Event>)
    ensures Step(l1, Step(l0, EmptyStore(RUN), AskedLog()[0]), AskedLog()[1]) == CreatedStore()
  {
    var s1 := Store(RUN, Some(Manifest(Pending, 1, 0, Taskfleet, false, None, None)), map[]);
    CommitOne(EmptyStore(RUN), PutManifest(Manifest(Pending, 0, 0, Taskfleet, false, None, None)));
    assert Step(l0, EmptyStore(RUN), AskedLog()[0]) == s1;
    CommitTwo(s1, PutNode(DEFAULT_NODE, FreshNode(SPAWN)), PutManifest(s1.manifest.value));
  }

  lemma AskedEnd(l2: seq<Event>)
    ensures Step(l2, CreatedStore(), AskedLog()[2]) == AskedStore(Open(3, 1))
  {
    RequestIsValid(1);
    var n := FreshNode(SPAWN).(awaiting := Open(3, 1));
    assert PlanEvent(l2, CreatedStore(), AskedLog()[2]) == Accepted([PutNode(DEFAULT_NODE, n)]);
    CommitOne(CreatedStore(), PutNode(DEFAULT_NODE, n));
  }

  /** The store is caught up with that log, and with the four items still above the watermark. */
  lemma AskedIsCaughtUp()
    ensures CaughtUp(AskedLog(), AskedStore(Open(3, 1)))
    ensures CaughtUp(AskedLog() + [Ev(4, Request(4))], AskedStore(Open(3, 5)))
  {
    var log, jammed := AskedLog(), AskedStore(Open(3, 5));
    NothingToReplay(log, AskedStore(Open(3, 1)), |log|);
    var l := log + [Ev(4, Request(4))];
    RequestIsValid(4);
    assert l[3] == Ev(4, Request(4)) && WellSeq(RUN, l);
    assert PlanEvent(l, jammed, l[3]).Rejected?;
    ReplayRefused(l, jammed, |l|);
  }

  /** Four more items join the question. The crash comes after that write; the next catch-up
      refuses them for want of room, so the request stays above the watermark. */
  lemma RequestStaysAbove()
    ensures Fold(RUN, AskedLog()) == AskedStore(Open(3, 1)) && CaughtUp(AskedLog(), AskedStore(Open(3, 1)))
    ensures var log, ev := AskedLog(), Ev(4, Request(4));
            && Admits(Disk(log, AskedStore(Open(3, 1))), ev) && PlanEvent(log, AskedStore(Open(3, 1)), ev).Accepted?
            && Cut(log, AskedStore(Open(3, 1)), ev, 1) == AskedStore(Open(3, 5))
            && CatchUp(log + [ev], AskedStore(Open(3, 5))) == AskedStore(Open(3, 5))
            && !LossyWindow(AskedStore(Open(3, 1)), ev, 1) && !DuplicatingWindow(AskedStore(Open(3, 1)), ev, 1)
            && !ReopeningWindow(log, AskedStore(Open(3, 1)), ev, 1)
  {
    var log, ev, st := AskedLog(), Ev(4, Request(4)), AskedStore(Open(3, 1));
    AskedFolds();
    AskedIsCaughtUp();
    FourItemsJoin(log);
    PutAsked(log, Open(3, 1), Open(3, 5), ev);
  }

  lemma FourItemsJoin(log: seq<Event>)
    ensures PlanEvent(log, AskedStore(Open(3, 1)), Ev(4, Request(4))) ==
            Accepted([PutNode(DEFAULT_NODE, FreshNode(SPAWN).(awaiting := Open(3, 5)))])
  {
    RequestIsValid(4);
    assert seq(1, _ => ITEM) + seq(4, _ => ITEM) == seq(5, _ => ITEM);
  }

  /** The question is answered, and the crash comes after that write: the next catch-up opens
      the four items as a new question, which the answer no longer closes. */
  lemma AnsweredQuestionReopens()
    ensures var log, st, ev := AskedLog() + [Ev(4, Request(4))], AskedStore(Open(3, 5)), Ev(5, InputResolved(Some(3)));
            && CaughtUp(log, st) && Admits(Disk(log, st), ev) && ReopeningWindow(log, st, ev, 1)
            && !LossyWindow(st, ev, 1) && !DuplicatingWindow(st, ev, 1)
            && Step(log, st, ev).nodes[DEFAULT_NODE].awaiting == None
            && var s := CatchUp(log + [ev], Cut(log, st, ev, 1));
               DEFAULT_NODE in s.nodes && s.nodes[DEFAULT_NODE].awaiting == Open(4, 4)
  {
    var log, st, ev := AskedLog() + [Ev(4, Request(4))], AskedStore(Open(3, 5)), Ev(5, InputResolved(Some(3)));
    AskedIsCaughtUp();
    RequestIsValid(4);
    assert PlanEvent(log, st, ev) == Accepted([PutNode(DEFAULT_NODE, FreshNode(SPAWN))]);
    PutAsked(log, Open(3, 5), None, ev);
    CutIsCommit(log, st, ev);
    assert log[3] == Ev(4, Request(4)) && FirstAsk(log, 3, DEFAULT_NODE, 3);
    var l := log + [ev];
    assert WellSeq(RUN, l) && l[3] == log[3] && l[4] == ev;
    ReopeningReplay(l);
  }

  lemma ReopeningReplay(l: seq<Event>)
    requires |l| == 5 && WellSeq(RUN, l) && l[3] == Ev(4, Request(4)) && l[4] == Ev(5, InputResolved(Some(3)))
    ensures var s := CatchUp(l, AskedStore(None));
            DEFAULT_NODE in s.nodes && s.nodes[DEFAULT_NODE].awaiting == Open(4, 4)
  {
    var st := AskedStore(None);
    NothingToReplay(l, st, 3);
    RequestIsValid(4);
    assert PlanEvent(l, st, l[3]) == Accepted([PutNode(DEFAULT_NODE, FreshNode(SPAWN).(awaiting := Open(4, 4)))]);
    PutAsked(l, None, Open(4, 4), l[3]);
    CutIsCommit(l, st, l[3]);
    var s := Step(l, st, l[3]);
    assert s.nodes == AskedStore(Open(4, 4)).nodes;
    assert ReplayTo(l, 3, st, 4) == s;
    assert PlanEvent(l, s, l[4]) == Accepted([]);
    CommitNone(s);
    assert ReplayTo(l, 3, st, 5) == Step(l, s, l[4]);
  }
}

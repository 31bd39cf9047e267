/** The append-then-apply protocol and its crash recovery. A lock hold is one critical section
    that a crash can cut between any two projection writes, or before the watermark write. */
module Recovery {
  import opened Prelude
  import opened Schema
  import opened NodeStatusFold
  import opened Reducer
  import opened ReducerLaws
  import opened Refold

  // ---- catch-up ----

  /** The store after catch-up has walked the first `i` log lines; `base` is the watermark
      read on entry. */
  function ReplayTo(log: seq<Event>, base: nat, st: Store, i: nat): Store
    requires i <= |log|
  {
    if i == 0 then st
    else
      var s := ReplayTo(log, base, st, i - 1);
      if log[i - 1].seqNo <= base then s else Step(log, s, log[i - 1])
  }

  lemma {:induction false} ReplayNext(log: seq<Event>, base: nat, st: Store, i: nat)
    requires i < |log|
    ensures var s := ReplayTo(log, base, st, i);
            ReplayTo(log, base, st, i + 1) == if log[i].seqNo <= base then s else Step(log, s, log[i])
  {}

  lemma {:induction false} ReplayLast(log: seq<Event>, base: nat, st: Store, n: nat)
    requires |log| == n + 1 && log[n].seqNo > base
    ensures ReplayTo(log, base, st, |log|) == Step(log, ReplayTo(log, base, st, n), log[n])
  {}

  /** Catch-up folds every event above the watermark; without a manifest it does nothing. */
  function CatchUp(log: seq<Event>, st: Store): Store {
    if st.manifest.None? then st else ReplayTo(log, Applied(st), st, |log|)
  }

  // ---- what recovery can lose ----

  /** Cutting after `k` writes here loses the discovered source branch, or leaves a retry
      that will count itself again. */
  predicate LossyWindow(st: Store, ev: Event, k: nat) {
    && k >= 1 && ev.nodeId.Some? && ev.runId == st.run
    && match ev.body
       case NodeCreated(sp) =>
         && k == 1 && sp.Some? && st.manifest.Some? && ev.nodeId.value !in st.nodes
         && WithSource(st.manifest.value, ev.nodeId.value, sp.value) != st.manifest.value
       case NodeRetry(sp, attempt) =>
         && sp.Some? && attempt.None? && ev.nodeId.value in st.nodes
         && !st.nodes[ev.nodeId.value].status.IsTerminal() && RetryNumber(st.nodes[ev.nodeId.value], None) < U32_MAX
       case _ => false
  }

  /** Cutting after the write of an open-request event that still fits twice lists its items
      twice. */
  predicate DuplicatingWindow(st: Store, ev: Event, k: nat) {
    && k >= 1 && ev.nodeId.Some? && ev.runId == st.run && ev.body.AwaitingInput?
    && ev.body.items.Some? && ValidItems(ev.body.items.value) && ev.nodeId.value in st.nodes
    && var n := st.nodes[ev.nodeId.value];
       && !n.status.IsTerminal() && n.workerExit.None?
       && (if n.awaiting.Some? then |n.awaiting.value.items| else 0) + 2 * |ev.body.items.value| <= MAX_ITEMS
  }

  // ---- logs below an event ----

  lemma {:induction false} BeforeSnoc(log: seq<Event>, ev: Event, bound: nat)
    ensures Before(log + [ev], bound) == if ev.seqNo < bound then Before(log, bound) + [ev] else Before(log, bound)
  {
    assert (log + [ev])[..|log|] == log;
  }

  lemma {:induction false} BeforeIsPrefix(run: RunId, log: seq<Event>, i: nat)
    requires WellSeq(run, log) && i <= |log|
    ensures Before(log, i + 1) == log[..i]
  {
    if i == |log| {
      BeforeBelow(run, log, i + 1);
      assert log[..i] == log;
    } else {
      var init, ev := log[..|log| - 1], log[|log| - 1];
      assert log == init + [ev];
      BeforeIsPrefix(run, init, i);
      BeforeSnoc(init, ev, i + 1);
      assert init[..i] == log[..i];
    }
  }

  lemma {:induction false} BeforeBelow(run: RunId, log: seq<Event>, bound: nat)
    requires WellSeq(run, log) && |log| < bound
    ensures Before(log, bound) == log
  {
    if log != [] {
      var init, ev := log[..|log| - 1], log[|log| - 1];
      assert log == init + [ev];
      BeforeBelow(run, init, bound);
      BeforeSnoc(init, ev, bound);
    }
  }

  /** A plan made before the append and one made during any later replay, over a longer log,
      are the same plan. */
  lemma PlanIsStable(run: RunId, log: seq<Event>, st: Store, i: nat)
    requires WellSeq(run, log) && i < |log|
    ensures SameBefore(log[..i], log, i + 1)
    ensures PlanEvent(log, st, log[i]) == PlanEvent(log[..i], st, log[i])
  {
    BeforeIsPrefix(run, log, i);
    BeforeBelow(run, log[..i], i + 1);
    VerdictDependsOnBefore(log[..i], log, i + 1);
  }

  // ---- the view recovery preserves ----

  predicate SameNode(a: Node, b: Node) {
    a.(awaiting := None) == b.(awaiting := None)
  }

  predicate SameManifest(a: Option<Manifest>, b: Option<Manifest>) {
    && a.Some? == b.Some?
    && (a.Some? ==> a.value.(appliedSeq := 0, nodeCount := 0) == b.value.(appliedSeq := 0, nodeCount := 0))
  }

  /** Equal projections up to open requests and the two derived counters. */
  ghost predicate Same(a: Store, b: Store) {
    && a.run == b.run && SameManifest(a.manifest, b.manifest) && a.nodes.Keys == b.nodes.Keys
    && forall id :: id in a.nodes ==> SameNode(a.nodes[id], b.nodes[id])
  }

  lemma SameCount(a: Store, b: Store)
    requires Same(a, b) && CountOk(a) && CountOk(b)
    ensures a.manifest.Some? ==> a.manifest.value.nodeCount == b.manifest.value.nodeCount
  {
    assert |a.nodes| == |a.nodes.Keys| && |b.nodes| == |b.nodes.Keys|;
  }

  lemma AdvanceSame(a: Store, seqNo: nat)
    ensures Same(Advance(a, seqNo), a)
    ensures a.manifest.Some? && Applied(a) < seqNo ==> CountOk(Advance(a, seqNo)) && Applied(Advance(a, seqNo)) == seqNo
    ensures CountOk(a) ==> CountOk(Advance(a, seqNo))
  {}

  /** The node a node-level event leaves behind. */
  function After(n: Node, c: Change): Node {
    if c.Update? then c.n else n
  }

  lemma NodeChangeSame(a: Store, b: Store, id: NodeId, ev: Event)
    requires Same(a, b) && NodeLevel(ev.body) && !ev.body.AwaitingInput? && id in a.nodes
    requires a.manifest.Some? ==> a.manifest.value.nodeCount == b.manifest.value.nodeCount
    requires Gate(a, id, ev.body, ev.runId)
    ensures Gate(b, id, ev.body, ev.runId)
    ensures var ca, cb := NodeChange(a, id, a.nodes[id], ev), NodeChange(b, id, b.nodes[id], ev);
            ca.Refuse? == cb.Refuse? && SameNode(After(a.nodes[id], ca), After(b.nodes[id], cb))
  {}

  /** The writes of a node-level event, cut anywhere. */
  lemma CutNode(log: seq<Event>, st: Store, ev: Event, k: nat)
    requires NodeLevel(ev.body)
    ensures var p := PlanEvent(log, st, ev);
            Cut(log, st, ev, k) ==
              if k == 0 || p.Rejected? || p.ops == [] then st
              else st.(nodes := st.nodes[ev.nodeId.value := After(st.nodes[ev.nodeId.value],
                  NodeChange(st, ev.nodeId.value, st.nodes[ev.nodeId.value], ev))])
  {
    if PlanEvent(log, st, ev).Accepted? && PlanEvent(log, st, ev).ops != [] {
      var ops := PlanEvent(log, st, ev).ops;
      CommitOne(st, ops[0]);
      if k == 0 { assert ops[..k] == []; } else { assert (if k <= |ops| then ops[..k] else ops) == [ops[0]]; }
    }
  }

  lemma WindowSame(a: Store, b: Store, ev: Event, k: nat)
    requires Same(a, b)
    ensures LossyWindow(a, ev, k) == LossyWindow(b, ev, k)
  {}

  /** Stores that look the same take every event the same way, cut by cut. */
  lemma CutSame(log: seq<Event>, a: Store, b: Store, ev: Event, k: nat)
    requires Same(a, b) && !ev.body.AwaitingInput?
    requires (CountOk(a) && CountOk(b)) || ev.body.NodeCreated?
    ensures PlanEvent(log, a, ev).Accepted? == PlanEvent(log, b, ev).Accepted?
    ensures Same(Cut(log, a, ev, k), Cut(log, b, ev, k))
    ensures LossyWindow(a, ev, k) == LossyWindow(b, ev, k)
  {
    WindowSame(a, b, ev, k);
    if ev.runId != a.run { CutSameForeign(log, a, b, ev, k); }
    else if ev.body.NodeCreated? { CutSameCreated(log, a, b, ev, k); }
    else if ev.body.RunCreated? || ev.body.RunStatus? { CutSameManifest(log, a, b, ev, k); }
    else if ev.body.SettlementIntent? { CutSameIntent(log, a, b, ev, k); }
    else if ev.body.Audit? { CutSameAudit(log, a, b, ev, k); }
    else {
      CutSameNode(log, a, b, ev, k);
      PlanIsNodePlan(log, a, ev);
      PlanIsNodePlan(log, b, ev);
    }
  }

  lemma PlanIsNodePlan(log: seq<Event>, st: Store, ev: Event)
    requires NodeLevel(ev.body) && ev.runId == st.run
    ensures PlanEvent(log, st, ev) == PlanNode(st, ev)
  {}

  lemma CutSameForeign(log: seq<Event>, a: Store, b: Store, ev: Event, k: nat)
    requires Same(a, b) && ev.runId != a.run
    ensures PlanEvent(log, a, ev).Rejected? && PlanEvent(log, b, ev).Rejected?
    ensures Same(Cut(log, a, ev, k), Cut(log, b, ev, k))
  {}

  lemma CutSameAudit(log: seq<Event>, a: Store, b: Store, ev: Event, k: nat)
    requires Same(a, b) && ev.runId == a.run && ev.body.Audit?
    ensures PlanEvent(log, a, ev) == Accepted([]) == PlanEvent(log, b, ev)
    ensures Same(Cut(log, a, ev, k), Cut(log, b, ev, k))
  {
    CutShort(log, a, ev, k);
    CutShort(log, b, ev, k);
  }

  /** The event reaches a node that does not refuse it. */
  predicate Reaches(st: Store, ev: Event)
    requires NodeLevel(ev.body)
  {
    && ev.runId == st.run && ev.nodeId.Some? && ev.nodeId.value in st.nodes
    && Gate(st, ev.nodeId.value, ev.body, ev.runId)
    && !NodeChange(st, ev.nodeId.value, st.nodes[ev.nodeId.value], ev).Refuse?
  }

  function Put(st: Store, id: NodeId, n: Node): Store { st.(nodes := st.nodes[id := n]) }

  lemma CutReaching(log: seq<Event>, st: Store, ev: Event, k: nat)
    requires NodeLevel(ev.body)
    ensures Cut(log, st, ev, k) ==
            if k == 0 || !Reaches(st, ev) then st
            else Put(st, ev.nodeId.value, After(st.nodes[ev.nodeId.value],
                NodeChange(st, ev.nodeId.value, st.nodes[ev.nodeId.value], ev)))
  {
    CutNode(log, st, ev, k);
    if Reaches(st, ev) {
      assert st.nodes[ev.nodeId.value := st.nodes[ev.nodeId.value]] == st.nodes;
    }
  }

  lemma PutSame(a: Store, b: Store, id: NodeId, m: Node, n: Node)
    requires Same(a, b) && SameNode(m, n)
    ensures Same(Put(a, id, m), Put(b, id, n))
  {}

  lemma ReachesSame(a: Store, b: Store, ev: Event)
    requires Same(a, b) && NodeLevel(ev.body) && !ev.body.AwaitingInput? && CountOk(a) && CountOk(b) && Reaches(a, ev)
    ensures Reaches(b, ev)
    ensures var id := ev.nodeId.value;
            SameNode(After(a.nodes[id], NodeChange(a, id, a.nodes[id], ev)),
                After(b.nodes[id], NodeChange(b, id, b.nodes[id], ev)))
  {
    SameCount(a, b);
    NodeChangeSame(a, b, ev.nodeId.value, ev);
  }

  /** Acceptance without reaching depends on nothing but the node set and the gate. */
  lemma AcceptedSame(a: Store, b: Store, ev: Event)
    requires Same(a, b) && NodeLevel(ev.body) && !ev.body.AwaitingInput? && CountOk(a) && CountOk(b)
    requires PlanNode(a, ev).Accepted?
    ensures PlanNode(b, ev).Accepted?
  {
    SameCount(a, b);
    if ev.nodeId.value in a.nodes { NodeChangeSame(a, b, ev.nodeId.value, ev); }
  }

  lemma SameBack(a: Store, b: Store)
    requires Same(a, b)
    ensures Same(b, a)
  {
    forall id | id in b.nodes ensures SameNode(b.nodes[id], a.nodes[id]) { assert SameNode(a.nodes[id], b.nodes[id]); }
  }

  lemma CutSameNode(log: seq<Event>, a: Store, b: Store, ev: Event, k: nat)
    requires Same(a, b) && NodeLevel(ev.body) && !ev.body.AwaitingInput? && CountOk(a) && CountOk(b)
    ensures PlanNode(a, ev).Accepted? == PlanNode(b, ev).Accepted?
    ensures Same(Cut(log, a, ev, k), Cut(log, b, ev, k))
  {
    SameBack(a, b);
    if PlanNode(a, ev).Accepted? {
      AcceptedSame(a, b, ev);
    } else if PlanNode(b, ev).Accepted? {
      AcceptedSame(b, a, ev);
    }
    CutReaching(log, a, ev, k);
    CutReaching(log, b, ev, k);
    if Reaches(a, ev) {
      var id := ev.nodeId.value;
      ReachesSame(a, b, ev);
      PutSame(a, b, id, After(a.nodes[id], NodeChange(a, id, a.nodes[id], ev)),
          After(b.nodes[id], NodeChange(b, id, b.nodes[id], ev)));
    } else if Reaches(b, ev) {
      ReachesSame(b, a, ev);
    }
  }

  lemma CutSameCreated(log: seq<Event>, a: Store, b: Store, ev: Event, k: nat)
    requires Same(a, b) && ev.body.NodeCreated? && ev.runId == a.run
    ensures PlanEvent(log, a, ev).Accepted? == PlanEvent(log, b, ev).Accepted?
    ensures Same(Cut(log, a, ev, k), Cut(log, b, ev, k))
  {
    if PlanEvent(log, a, ev).Accepted? {
      CutShort(log, a, ev, k);
      CutShort(log, b, ev, k);
    }
  }

  lemma CutSameManifest(log: seq<Event>, a: Store, b: Store, ev: Event, k: nat)
    requires Same(a, b) && (ev.body.RunCreated? || ev.body.RunStatus?) && ev.runId == a.run
    ensures PlanEvent(log, a, ev).Accepted? == PlanEvent(log, b, ev).Accepted?
    ensures Same(Cut(log, a, ev, k), Cut(log, b, ev, k))
  {
    if PlanEvent(log, a, ev).Accepted? {
      CutShort(log, a, ev, k);
      CutShort(log, b, ev, k);
    }
  }

  lemma CutSameIntent(log: seq<Event>, a: Store, b: Store, ev: Event, k: nat)
    requires Same(a, b) && ev.body.SettlementIntent? && CountOk(a) && CountOk(b) && ev.runId == a.run
    ensures PlanEvent(log, a, ev).Accepted? == PlanEvent(log, b, ev).Accepted?
    ensures Same(Cut(log, a, ev, k), Cut(log, b, ev, k))
  {
    SameCount(a, b);
    IntentPlansSame(a, b, ev);
    if PlanEvent(log, a, ev).Accepted? {
      CutShort(log, a, ev, k);
      CutShort(log, b, ev, k);
    }
  }

  lemma IntentPlansSame(a: Store, b: Store, ev: Event)
    requires Same(a, b) && ev.body.SettlementIntent?
    requires a.manifest.Some? ==> a.manifest.value.nodeCount == b.manifest.value.nodeCount
    ensures match PlanSettlementIntent(a, ev)
            case Rejected => PlanSettlementIntent(b, ev).Rejected?
            case Accepted(ops) =>
              && PlanSettlementIntent(b, ev).Accepted? && a.manifest.Some? && b.manifest.Some?
              && if ops == [] then PlanSettlementIntent(b, ev).ops == []
                 else
                   var i := Some(ev.body.intent.value.(seqNo := ev.seqNo));
                   && ev.body.intent.Some?
                   && ops == [PutManifest(a.manifest.value.(intent := i))]
                   && PlanSettlementIntent(b, ev).ops == [PutManifest(b.manifest.value.(intent := i))]
  {}

  lemma CutShort(log: seq<Event>, st: Store, ev: Event, k: nat)
    requires PlanEvent(log, st, ev).Accepted?
    ensures var ops := PlanEvent(log, st, ev).ops;
            && (k == 0 || |ops| == 0 ==> Cut(log, st, ev, k) == st)
            && (k >= 1 && (|ops| == 1 || (|ops| == 2 && k == 1)) ==> Cut(log, st, ev, k) == Write(st, ops[0]))
            && (k >= 2 && |ops| == 2 ==> Cut(log, st, ev, k) == Write(Write(st, ops[0]), ops[1]))
  {
    PlanShape(log, st, ev);
    var ops := PlanEvent(log, st, ev).ops;
    var part := if k <= |ops| then ops[..k] else ops;
    if |part| == 0 { assert part == []; }
    else if |part| == 1 { assert part == [ops[0]]; CommitOne(st, ops[0]); }
    else { assert part == [ops[0], ops[1]]; CommitTwo(st, ops[0], ops[1]); }
  }
}

/** Folding an accepted event a second time: exactly when it changes nothing. */
module Refold {
  import opened Prelude
  import opened Schema
  import opened NodeStatusFold
  import opened Reducer
  import opened ReducerLaws

  /** The counter an advance would derive is the one recorded. */
  ghost predicate CountOk(st: Store) {
    st.manifest.Some? ==> st.manifest.value.nodeCount == NodeCount(st.nodes)
  }

  /** Folding `ev` over the node it has just produced changes that node again. */
  predicate ChangesAgain(n: Node, b: Body) {
    || ( && b.AwaitingInput? && b.items.Some? && n.awaiting.Some?
         && |n.awaiting.value.items| + |b.items.value| <= MAX_ITEMS)
    || (b.NodeRetry? && b.attempt.None? && n.retryAttempts < U32_MAX)
  }

  /** Folding `ev` over the node it has just produced is refused. */
  predicate RefusedAgain(n: Node, b: Body) {
    || (b.AwaitingInput? && b.items.Some? && n.awaiting.Some? && |n.awaiting.value.items| + |b.items.value| > MAX_ITEMS)
    || (b.PiTransition? && n.piSession.None? && n.piLifecycle.Some? && n.piLifecycle.value.state != Reserved)
  }

  lemma NodeRefold(st: Store, id: NodeId, ev: Event, n: Node, again: Store)
    requires NodeMoved(st, id, ev, n)
    requires again.run == st.run && again.nodes == st.nodes[id := n]
    requires again.manifest.Some? == st.manifest.Some?
    requires st.manifest.Some? ==>
               exists a, c :: again.manifest.value == st.manifest.value.(appliedSeq := a, nodeCount := c)
    ensures Gate(again, id, ev.body, ev.runId)
    ensures var c := NodeChange(again, id, n, ev);
            && (c.Refuse? <==> RefusedAgain(n, ev.body))
            && (c.Update? && c.n != n <==> ChangesAgain(n, ev.body))
  {}

  /** Two logs agree below the event, as they do whenever one extends the other. */
  ghost predicate SameBefore(log: seq<Event>, log': seq<Event>, seqNo: nat) {
    Before(log, seqNo) == Before(log', seqNo)
  }

  lemma VerdictDependsOnBefore(log: seq<Event>, log': seq<Event>, seqNo: nat)
    requires SameBefore(log, log', seqNo)
    ensures forall w :: RecoveryVerdict(log, seqNo, w) == RecoveryVerdict(log', seqNo, w)
  {
    assert NodeStatusFacts(log, Some(seqNo)) == NodeStatusFacts(log', Some(seqNo));
  }

  /** The landed store: all writes done, with the watermark advanced or not yet. */
  ghost predicate LandedAs(log: seq<Event>, st: Store, ev: Event, s: Store)
    requires PlanEvent(log, st, ev).Accepted?
  {
    var done := Commit(st, PlanEvent(log, st, ev).ops);
    s == done || s == Advance(done, ev.seqNo)
  }

  /** The second fold of a landed event writes something different. */
  ghost predicate Diverges(log: seq<Event>, st: Store, ev: Event, s: Store)
    requires PlanEvent(log, st, ev).Accepted?
  {
    && PlanEvent(log, st, ev).ops != [] && NodeLevel(ev.body)
    && ev.nodeId.Some? && ev.nodeId.value in s.nodes && ChangesAgain(s.nodes[ev.nodeId.value], ev.body)
  }

  /** Per-kind re-fold idempotence, both ways: after an event landed, folding it again leaves
      the store alone exactly unless it is an open-request event with room left or a retry
      without an attempt number. A refusal counts as a skip. */
  lemma RefoldLanded(log: seq<Event>, st: Store, ev: Event, log': seq<Event>, s: Store)
    requires CountOk(st) && PlanEvent(log, st, ev).Accepted? && LandedAs(log, st, ev, s)
    requires SameBefore(log, log', ev.seqNo)
    ensures Cut(log', s, ev, 2) == s <==> !Diverges(log, st, ev, s)
    ensures PlanEvent(log', s, ev).Accepted? && !Diverges(log, st, ev, s) ==> forall k :: Cut(log', s, ev, k) == s
    ensures PlanEvent(log', s, ev).Rejected? ==>
              && NodeLevel(ev.body) && ev.nodeId.Some? && ev.nodeId.value in s.nodes
              && RefusedAgain(s.nodes[ev.nodeId.value], ev.body)
  {
    PlanShape(log, st, ev);
    var ops := PlanEvent(log, st, ev).ops;
    if ops == [] {
      RefoldNothing(log, st, ev, log', s);
    } else if |ops| == 1 {
      assert ops == [ops[0]];
      CommitOne(st, ops[0]);
      if ops[0].PutNode? && NodeMoved(st, ops[0].id, ev, ops[0].n) {
        RefoldNode(log, st, ev, log', s);
      } else {
        RefoldSingle(log, st, ev, log', s);
      }
    } else {
      assert ops == [ops[0], ops[1]];
      CommitTwo(st, ops[0], ops[1]);
      assert PlanEvent(log', s, ev) == Accepted([]);
    }
  }

  lemma RefoldNothing(log: seq<Event>, st: Store, ev: Event, log': seq<Event>, s: Store)
    requires CountOk(st) && PlanEvent(log, st, ev) == Accepted([]) && SameBefore(log, log', ev.seqNo)
    requires s == st || s == Advance(st, ev.seqNo)
    ensures PlanEvent(log', s, ev) == Accepted([])
  {
    if NodeLevel(ev.body) {
      NodePlanIgnoresWatermark(st, s, ev);
    } else if ev.body.RunStatus? {
      VerdictDependsOnBefore(log, log', ev.seqNo);
    }
  }

  lemma NodePlanIgnoresWatermark(st: Store, s: Store, ev: Event)
    requires NodeLevel(ev.body)
    requires s.run == st.run && s.nodes == st.nodes && s.manifest.Some? == st.manifest.Some?
    requires st.manifest.Some? ==> s.manifest.value == st.manifest.value.(appliedSeq := s.manifest.value.appliedSeq)
    ensures PlanNode(s, ev) == PlanNode(st, ev)
  {
    if ev.nodeId.Some? {
      assert Gate(s, ev.nodeId.value, ev.body, ev.runId) == Gate(st, ev.nodeId.value, ev.body, ev.runId);
    }
  }

  lemma RefoldSingle(log: seq<Event>, st: Store, ev: Event, log': seq<Event>, s: Store)
    requires PlanEvent(log, st, ev).Accepted? && |PlanEvent(log, st, ev).ops| == 1 && !NodeLevel(ev.body)
    requires var done := Write(st, PlanEvent(log, st, ev).ops[0]); s == done || s == Advance(done, ev.seqNo)
    ensures PlanEvent(log', s, ev) == Accepted([])
  {}

  lemma RefoldNode(log: seq<Event>, st: Store, ev: Event, log': seq<Event>, s: Store)
    requires PlanEvent(log, st, ev).Accepted? && |PlanEvent(log, st, ev).ops| == 1 && NodeLevel(ev.body)
    requires var done := Write(st, PlanEvent(log, st, ev).ops[0]); s == done || s == Advance(done, ev.seqNo)
    ensures ev.nodeId.Some? && ev.nodeId.value in s.nodes
    ensures Cut(log', s, ev, 2) == s <==> !ChangesAgain(s.nodes[ev.nodeId.value], ev.body)
    ensures PlanEvent(log', s, ev).Accepted? && !ChangesAgain(s.nodes[ev.nodeId.value], ev.body) ==>
            forall k :: Cut(log', s, ev, k) == s
    ensures PlanEvent(log', s, ev).Rejected? <==> RefusedAgain(s.nodes[ev.nodeId.value], ev.body)
  {
    PlanShape(log, st, ev);
    var id, n := ev.nodeId.value, PlanEvent(log, st, ev).ops[0].n;
    LandedMark(st, id, n, ev.seqNo, s);
    NodeRefold(st, id, ev, n, s);
    RefoldCuts(log', s, ev, n);
  }

  /** The landed store differs from the one before in the node and the two derived counters. */
  lemma LandedMark(st: Store, id: NodeId, n: Node, seqNo: nat, s: Store)
    requires var done := Write(st, PutNode(id, n)); s == done || s == Advance(done, seqNo)
    ensures s.run == st.run && s.nodes == st.nodes[id := n] && s.manifest.Some? == st.manifest.Some?
    ensures st.manifest.Some? ==>
              s.manifest.value == st.manifest.value.(appliedSeq := s.manifest.value.appliedSeq,
                                                     nodeCount := s.manifest.value.nodeCount)
  {}

  /** The writes of the second fold, cut anywhere. */
  lemma RefoldCuts(log': seq<Event>, s: Store, ev: Event, n: Node)
    requires NodeLevel(ev.body) && ev.runId == s.run && ev.nodeId.Some? && ev.nodeId.value in s.nodes
    requires s.nodes[ev.nodeId.value] == n && Gate(s, ev.nodeId.value, ev.body, ev.runId)
    ensures var c := NodeChange(s, ev.nodeId.value, n, ev);
            && (PlanEvent(log', s, ev).Rejected? <==> c.Refuse?)
            && (Cut(log', s, ev, 2) == s <==> !(c.Update? && c.n != n))
            && (!(c.Update? && c.n != n) ==> forall k :: Cut(log', s, ev, k) == s)
  {
    var id := ev.nodeId.value;
    var c := NodeChange(s, id, n, ev);
    if c.Update? {
      CommitOne(s, PutNode(id, c.n));
      CommitNone(s);
      assert s.nodes[id := n] == s.nodes && s.nodes[id := c.n][id] == c.n;
      var p := PlanEvent(log', s, ev).ops;
      assert p == [PutNode(id, c.n)] && p[..0] == [] && p[..1] == p;
    }
  }

  // ---- the two exceptions, concretely ----

  const RUN: RunId := "r"
  const ITEM := Item("t", ["a"], "a")
  const SPAWN := Spawn(Some("b"), None, None)

  function Ev(seqNo: nat, b: Body): Event {
    Event(seqNo, 0, RUN, Some(DEFAULT_NODE), None, b)
  }

  function LiveStore(): Store {
    Store(RUN, Some(Manifest(Pending, 1, 1, Taskfleet, false, None, None)), map[DEFAULT_NODE := FreshNode(SPAWN)])
  }

  lemma ItemIsValid()
    ensures ValidItems([ITEM])
  {
    assert ITEM.topic[0] == 't' && ITEM.default[0] == 'a' && ITEM.options[0] == "a";
    assert ValidItem(ITEM);
  }

  /** The same request folded twice lists its item twice. */
  lemma AwaitingRefoldDuplicates()
    ensures var ev := Ev(2, AwaitingInput(Some([ITEM])));
            var s := Step([], LiveStore(), ev);
            && s.nodes[DEFAULT_NODE].awaiting == Some(Awaiting(0, 2, [ITEM]))
            && Cut([], s, ev, 2).nodes[DEFAULT_NODE].awaiting == Some(Awaiting(0, 2, [ITEM, ITEM]))
  {
    var st := LiveStore();
    var ev := Ev(2, AwaitingInput(Some([ITEM])));
    ItemIsValid();
    var n1 := st.nodes[DEFAULT_NODE].(awaiting := Some(Awaiting(0, 2, [ITEM])));
    assert AwaitingChange(st.nodes[DEFAULT_NODE], [ITEM], ev) == Update(n1);
    assert PlanEvent([], st, ev) == Accepted([PutNode(DEFAULT_NODE, n1)]);
    CommitOne(st, PutNode(DEFAULT_NODE, n1));
    var s := Step([], st, ev);
    assert s.nodes[DEFAULT_NODE] == n1;
    assert [ITEM] + [ITEM] == [ITEM, ITEM];
    var n2 := n1.(awaiting := Some(Awaiting(0, 2, [ITEM] + [ITEM])));
    assert AwaitingChange(n1, [ITEM], ev) == Update(n2);
    assert PlanEvent([], s, ev) == Accepted([PutNode(DEFAULT_NODE, n2)]);
    CommitOne(s, PutNode(DEFAULT_NODE, n2));
    assert Cut([], s, ev, 2) == Commit(s, [PutNode(DEFAULT_NODE, n2)]);
  }

  /** A retry without an attempt number counts up on every fold. */
  lemma RetryRefoldCountsTwice()
    ensures var ev := Ev(2, NodeRetry(Some(SPAWN), None));
            var s := Step([], LiveStore(), ev);
            && s.nodes[DEFAULT_NODE].retryAttempts == 1
            && Cut([], s, ev, 2).nodes[DEFAULT_NODE].retryAttempts == 2
  {
    var st := LiveStore();
    var ev := Ev(2, NodeRetry(Some(SPAWN), None));
    CommitOne(st, PlanEvent([], st, ev).ops[0]);
    var s := Step([], st, ev);
    CommitOne(s, PlanEvent([], s, ev).ops[0]);
  }
}

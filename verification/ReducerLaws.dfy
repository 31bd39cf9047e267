/** What every step of the reducer keeps, and what folding an event twice does. */
module ReducerLaws {
  import opened Prelude
  import opened Schema
  import opened Report
  import opened NodeStatusFold
  import opened Reducer

  // ---- shapes ----

  lemma {:induction false} CommitNone(st: Store)
    ensures Commit(st, []) == st
  {}

  lemma {:induction false} CommitOne(st: Store, a: Op)
    ensures Commit(st, [a]) == Write(st, a)
  {
    assert [a][..0] == [];
  }

  lemma {:induction false} CommitTwo(st: Store, a: Op, b: Op)
    ensures Commit(st, [a, b]) == Write(Write(st, a), b)
  {
    assert [a, b][..1] == [a];
    CommitOne(st, a);
  }

  ghost predicate NodeMoved(st: Store, id: NodeId, ev: Event, n: Node) {
    && id in st.nodes && NodeLevel(ev.body) && ev.nodeId == Some(id) && ev.runId == st.run
    && Gate(st, id, ev.body, ev.runId)
    && NodeChange(st, id, st.nodes[id], ev) == Update(n)
  }

  ghost predicate RunMoved(log: seq<Event>, m: Manifest, ev: Event, next: Status) {
    && ev.body.RunStatus? && ev.body.runStatus == Some(next)
    && (m.status.IsTerminal() ==>
          && m.status == Failed && next == Done && ev.body.childrenSuccessful && ev.body.recoverySeq.Some?
          && RecoveryVerdict(log, ev.seqNo, ev.body.recoverySeq.value))
  }

  /** The event records this settlement intent under its own sequence. */
  predicate SaysIntent(ev: Event, i: Intent) {
    ev.body.SettlementIntent? && ev.body.intent.Some? && i == ev.body.intent.value.(seqNo := ev.seqNo)
  }

  ghost predicate ManifestMoved(log: seq<Event>, st: Store, ev: Event, s: Store) {
    match (st.manifest, s.manifest)
    case (None, None) => true
    case (None, Some(m)) => m.intent.None? && m.status == Pending
    case (Some(_), None) => false
    case (Some(a), Some(b)) =>
      && b.owner == a.owner && b.resident == a.resident
      && (a.sourceBranch.Some? ==> b.sourceBranch == a.sourceBranch)
      && (b.intent == a.intent || (a.intent.None? && b.intent.Some? && SaysIntent(ev, b.intent.value)))
      && (b.status == a.status || RunMoved(log, a, ev, b.status))
  }

  /** The event creates this node. */
  predicate Creates(ev: Event, id: NodeId, n: Node) {
    && ev.nodeId == Some(id) && ev.body.NodeCreated? && ev.body.spawn.Some?
    && n == FreshNode(ev.body.spawn.value)
  }

  /** Everything one event, or any crash-cut prefix of its writes, can do to the store. */
  ghost predicate Evolves(log: seq<Event>, st: Store, ev: Event, s: Store) {
    && s.run == st.run
    && (forall id :: id in st.nodes ==>
          id in s.nodes && (s.nodes[id] == st.nodes[id] || NodeMoved(st, id, ev, s.nodes[id])))
    && (forall id :: id in s.nodes && id !in st.nodes ==> Creates(ev, id, s.nodes[id]))
    && ManifestMoved(log, st, ev, s)
  }

  /** The store after the first `k` planned writes of an event. */
  function Cut(log: seq<Event>, st: Store, ev: Event, k: nat): Store {
    match PlanEvent(log, st, ev)
    case Rejected => st
    case Accepted(ops) => Commit(st, if k <= |ops| then ops[..k] else ops)
  }

  /** Every plan has one of four shapes. */
  lemma PlanShape(log: seq<Event>, st: Store, ev: Event)
    requires PlanEvent(log, st, ev).Accepted?
    ensures var ops := PlanEvent(log, st, ev).ops;
            || ops == []
            || ( && |ops| == 1 && ops[0].PutManifest? && !NodeLevel(ev.body)
                 && ManifestMoved(log, st, ev, Write(st, ops[0])))
            || (|ops| == 1 && ops[0].PutNode? && NodeMoved(st, ops[0].id, ev, ops[0].n))
            || ( && ev.body.NodeCreated? && ev.body.spawn.Some? && ev.nodeId.Some? && ev.nodeId.value !in st.nodes
                 && 1 <= |ops| <= 2 && (|ops| == 2 <==> st.manifest.Some?)
                 && ops[0] == PutNode(ev.nodeId.value, FreshNode(ev.body.spawn.value))
                 && (|ops| == 2 ==> ops[1] == PutManifest(WithSource(st.manifest.value, ev.nodeId.value,
                    ev.body.spawn.value))))
  {}

  lemma CutEvolves(log: seq<Event>, st: Store, ev: Event, k: nat)
    ensures Evolves(log, st, ev, Cut(log, st, ev, k))
  {
    if PlanEvent(log, st, ev).Accepted? {
      PlanShape(log, st, ev);
      var ops := PlanEvent(log, st, ev).ops;
      var part := if k <= |ops| then ops[..k] else ops;
      if |part| == 0 {
        assert part == [];
      } else if |part| == 1 {
        assert part == [ops[0]];
        CommitOne(st, ops[0]);
      } else {
        assert part == [ops[0], ops[1]];
        CommitTwo(st, ops[0], ops[1]);
      }
    }
  }

  lemma StepEvolves(log: seq<Event>, st: Store, ev: Event)
    ensures Evolves(log, st, ev, Step(log, st, ev))
  {
    CutEvolves(log, st, ev, 2);
    match PlanEvent(log, st, ev) {
      case Rejected =>
      case Accepted(ops) =>
        assert Cut(log, st, ev, 2) == Commit(st, ops) by {
          assert |ops| <= 2;
          if |ops| == 2 { assert ops[..2] == ops; }
        }
    }
  }

  lemma {:induction false} FoldUnfolds(run: RunId, log: seq<Event>, j: nat)
    requires 0 < j <= |log|
    ensures Fold(run, log[..j]) == Step(log[..j - 1], Fold(run, log[..j - 1]), log[j - 1])
    ensures Evolves(log[..j - 1], Fold(run, log[..j - 1]), log[j - 1], Fold(run, log[..j]))
  {
    assert log[..j][..j - 1] == log[..j - 1];
    StepEvolves(log[..j - 1], Fold(run, log[..j - 1]), log[j - 1]);
  }

  lemma {:induction false} NodesPersist(run: RunId, log: seq<Event>, i: nat, j: nat)
    requires i <= j <= |log|
    ensures Fold(run, log[..i]).nodes.Keys <= Fold(run, log[..j]).nodes.Keys
    ensures Fold(run, log[..i]).manifest.Some? ==> Fold(run, log[..j]).manifest.Some?
    ensures Fold(run, log[..j]).run == run
  {
    if j > 0 {
      FoldUnfolds(run, log, j);
      NodesPersist(run, log, if i < j then i else i - 1, j - 1);
    }
  }

  // ---- what a step does, by kind ----

  /** The run status after one event, as a function of the status before it. */
  function RunAfter(log: seq<Event>, cur: Status, ev: Event): Status {
    if !ev.body.RunStatus? || ev.body.runStatus.None? then cur
    else if cur.IsTerminal()
         && !( && cur == Failed && ev.body.runStatus.value == Done
               && ev.body.childrenSuccessful && ev.body.recoverySeq.Some?
               && RecoveryVerdict(log, ev.seqNo, ev.body.recoverySeq.value))
    then cur
    else ev.body.runStatus.value
  }

  lemma StepRunStatus(log: seq<Event>, st: Store, ev: Event)
    requires st.manifest.Some? && ev.runId == st.run
    ensures Step(log, st, ev).manifest.Some?
    ensures Step(log, st, ev).manifest.value.status == RunAfter(log, st.manifest.value.status, ev)
    ensures Step(log, st, ev).manifest.value.resident == st.manifest.value.resident
  {
    StepEvolves(log, st, ev);
    if ev.body.RunStatus? && PlanEvent(log, st, ev).Accepted? && |PlanEvent(log, st, ev).ops| == 1 {
      CommitOne(st, PlanEvent(log, st, ev).ops[0]);
    }
  }

  lemma ManifestOnly(log: seq<Event>, st: Store, ev: Event)
    requires !NodeLevel(ev.body) && !ev.body.NodeCreated?
    ensures Step(log, st, ev).nodes == st.nodes
  {
    if PlanEvent(log, st, ev).Accepted? {
      PlanShape(log, st, ev);
      var ops := PlanEvent(log, st, ev).ops;
      if |ops| == 1 { CommitOne(st, ops[0]); }
    }
  }

  /** The node set after a creation. */
  lemma CreatedNodes(log: seq<Event>, st: Store, ev: Event)
    requires ev.body.NodeCreated? && PlanEvent(log, st, ev).Accepted?
    ensures ev.nodeId.Some?
    ensures ev.nodeId.value in st.nodes ==> Step(log, st, ev).nodes == st.nodes
    ensures ev.nodeId.value !in st.nodes ==>
              && ev.body.spawn.Some?
              && Step(log, st, ev).nodes == st.nodes[ev.nodeId.value := FreshNode(ev.body.spawn.value)]
  {
    PlanShape(log, st, ev);
    var ops := PlanEvent(log, st, ev).ops;
    if |ops| == 1 { CommitOne(st, ops[0]); } else if |ops| == 2 { CommitTwo(st, ops[0], ops[1]); }
  }

  // ---- terminal finality ----

  ghost predicate MergeReportFor(id: NodeId, ev: Event) {
    ev.nodeId == Some(id) && ev.body.NodeReport? && ConfirmedMerge(ev.body.report)
  }

  lemma NodeMoveIsFinal(st: Store, id: NodeId, ev: Event, n: Node)
    requires NodeMoved(st, id, ev, n)
    ensures st.nodes[id].status.IsTerminal() && n.status != st.nodes[id].status ==>
              st.nodes[id].status == Failed && n.status == Done && MergeReportFor(id, ev)
  {}

  /** Over any log whatever: Done and Cancelled nodes never change status, and a Failed node
      changes only to Done, by a confirmed-merge report addressed to it. */
  lemma {:induction false} NodeTerminalFinality(run: RunId, log: seq<Event>, id: NodeId, i: nat, j: nat)
    requires i <= j <= |log| && id in Fold(run, log[..i]).nodes
    ensures id in Fold(run, log[..j]).nodes
    ensures var a, b := Fold(run, log[..i]).nodes[id].status, Fold(run, log[..j]).nodes[id].status;
            a.IsTerminal() && a != b ==>
              a == Failed && b == Done && exists k :: i <= k < j && MergeReportFor(id, log[k])
  {
    if i < j {
      NodeTerminalFinality(run, log, id, i, j - 1);
      FoldUnfolds(run, log, j);
      var st := Fold(run, log[..j - 1]);
      if Fold(run, log[..j]).nodes[id] != st.nodes[id] {
        NodeMoveIsFinal(st, id, log[j - 1], Fold(run, log[..j]).nodes[id]);
      }
    }
  }

  /** Reports stamped by the agent path never revive a failed node, whatever they claim. */
  lemma {:induction false} AgentReportsNeverRevive(run: RunId, log: seq<Event>, id: NodeId, i: nat, j: nat)
    requires i <= j <= |log| && id in Fold(run, log[..i]).nodes
    requires Fold(run, log[..i]).nodes[id].status.IsTerminal()
    requires forall k :: i <= k < j && log[k].nodeId == Some(id) && log[k].body.NodeReport? ==>
               exists r :: log[k].body.report == Stamp(Agent, r)
    ensures id in Fold(run, log[..j]).nodes
    ensures Fold(run, log[..j]).nodes[id].status == Fold(run, log[..i]).nodes[id].status
  {
    NodeTerminalFinality(run, log, id, i, j);
    if k :| i <= k < j && MergeReportFor(id, log[k]) {
      var r :| log[k].body.report == Stamp(Agent, r);
      StampDecidesMerge(Agent, r);
      assert false;
    }
  }

  /** The same for the run: Done and Cancelled are final; Failed leaves only to Done, by a
      run-status event whose recovery verdict holds over the log before it. */
  lemma {:induction false} RunTerminalFinality(run: RunId, log: seq<Event>, i: nat, j: nat)
    requires i <= j <= |log| && Fold(run, log[..i]).manifest.Some?
    ensures Fold(run, log[..j]).manifest.Some?
    ensures var a, b := Fold(run, log[..i]).manifest.value.status, Fold(run, log[..j]).manifest.value.status;
            a.IsTerminal() && a != b ==>
              && a == Failed && b == Done
              && exists k :: && i <= k < j && log[k].body.RunStatus? && log[k].body.recoverySeq.Some?
                             && RecoveryVerdict(log[..k], log[k].seqNo, log[k].body.recoverySeq.value)
  {
    if i < j {
      RunTerminalFinality(run, log, i, j - 1);
      FoldUnfolds(run, log, j);
    }
  }

  // ---- caller Pi lifecycle ----

  function PiId(n: Node): Option<string> {
    if n.piLifecycle.Some? then Some(n.piLifecycle.value.id)
    else if n.piSession.Some? then Some(n.piSession.value.id) else None
  }

  ghost predicate PiInv(n: Node) {
    n.piLifecycle.Some? ==>
      var l := n.piLifecycle.value;
      && l.generation >= 1
      && (n.piSession.None? ==> l.generation == 1 && l.state != Started && l.state != Exited)
      && (n.piSession.Some? ==> l.id == n.piSession.value.id && l.path == Some(n.piSession.value.path))
  }

  ghost predicate PiAbsorbed(n: Node) {
    n.piLifecycle.Some? &&
      ( || n.piLifecycle.value.state == ControlUncertain
        || (n.piLifecycle.value.state == LaunchFailed && n.piSession.None?))
  }

  /** What any stretch of history does to a node's Pi facts. */
  ghost predicate PiOnward(a: Node, b: Node) {
    && (PiId(a).Some? ==> PiId(b) == PiId(a))
    && (a.piSession.Some? ==> b.piSession == a.piSession)
    && Generation(a) <= Generation(b)
    && (PiAbsorbed(a) ==> b.piLifecycle == a.piLifecycle && b.piSession == a.piSession)
  }

  /** What one event does: generations start at 1 and rise by one, only out of Exited or
      LaunchFailed and only into Started. */
  ghost predicate PiOneStep(a: Node, b: Node) {
    Generation(b) != Generation(a) ==>
      || (a.piLifecycle.None? && Generation(b) == 1)
      || ( && a.piLifecycle.Some? && b.piLifecycle.Some? && Generation(b) == Generation(a) + 1
           && (a.piLifecycle.value.state == Exited || a.piLifecycle.value.state == LaunchFailed)
           && b.piLifecycle.value.state == Started)
  }

  lemma PiMove(st: Store, id: NodeId, ev: Event, n: Node)
    requires NodeMoved(st, id, ev, n) && PiInv(st.nodes[id])
    ensures PiInv(n) && PiOnward(st.nodes[id], n) && PiOneStep(st.nodes[id], n)
  {}

  lemma {:induction false} PiInvHolds(run: RunId, log: seq<Event>)
    ensures forall id :: id in Fold(run, log).nodes ==> PiInv(Fold(run, log).nodes[id])
  {
    if log != [] {
      var init := log[..|log| - 1];
      PiInvHolds(run, init);
      assert log[..|log|] == log;
      FoldUnfolds(run, log, |log|);
      forall id | id in Fold(run, log).nodes ensures PiInv(Fold(run, log).nodes[id]) {
        if id in Fold(run, init).nodes && Fold(run, log).nodes[id] != Fold(run, init).nodes[id] {
          PiMove(Fold(run, init), id, log[|log| - 1], Fold(run, log).nodes[id]);
        }
      }
    }
  }

  /** Caller Pi safety over every log: the session id is fixed once reserved or bound,
      generations never fall, and ControlUncertain, like an unbound LaunchFailed, absorbs. */
  lemma {:induction false} PiLifecycleSafety(run: RunId, log: seq<Event>, id: NodeId, i: nat, j: nat)
    requires i <= j <= |log| && id in Fold(run, log[..i]).nodes
    ensures id in Fold(run, log[..j]).nodes
    ensures PiOnward(Fold(run, log[..i]).nodes[id], Fold(run, log[..j]).nodes[id])
    ensures j == i + 1 ==> PiOneStep(Fold(run, log[..i]).nodes[id], Fold(run, log[..j]).nodes[id])
  {
    if i < j {
      PiLifecycleSafety(run, log, id, i, j - 1);
      FoldUnfolds(run, log, j);
      PiInvHolds(run, log[..j - 1]);
      var st, s := Fold(run, log[..j - 1]), Fold(run, log[..j]);
      if s.nodes[id] != st.nodes[id] {
        PiMove(st, id, log[j - 1], s.nodes[id]);
      }
    }
  }

  // ---- merge transactions, settlement intent, open requests ----

  ghost predicate MergeLinked(m: Manifest, id: NodeId, n: Node) {
    n.pendingMerge.Some? ==>
      var t := n.pendingMerge.value;
      match m.owner
      case Taskfleet => t.link.None? && !n.status.IsTerminal()
      case Caller =>
        && m.intent.Some? && m.intent.value.nodeId == id && m.intent.value.operation == OpMerge
        && t.link == Some(MergeLink(m.intent.value.seqNo, m.intent.value.key, m.intent.value.writerDev,
           m.intent.value.writerIno))
        && n.branch == Some(t.workerBranch)
  }

  ghost predicate NodeInv(manifest: Option<Manifest>, id: NodeId, n: Node) {
    && (n.awaiting.Some? ==> !n.status.IsTerminal() && n.workerExit.None? && 1 <= |n.awaiting.value.items| <= MAX_ITEMS)
    && (n.lastReport.Some? ==> n.status.IsTerminal())
    && (manifest.None? ==> n.pendingMerge.None?)
    && (manifest.Some? ==> MergeLinked(manifest.value, id, n))
  }

  ghost predicate StoreInv(st: Store) {
    forall id :: id in st.nodes ==> NodeInv(st.manifest, id, st.nodes[id])
  }

  lemma NodeMoveKeepsInv(st: Store, id: NodeId, ev: Event, n: Node)
    requires NodeMoved(st, id, ev, n) && NodeInv(st.manifest, id, st.nodes[id])
    ensures NodeInv(st.manifest, id, n)
  {}

  lemma EvolvesKeepsInv(log: seq<Event>, st: Store, ev: Event, s: Store)
    requires StoreInv(st) && Evolves(log, st, ev, s)
    ensures StoreInv(s)
    ensures st.manifest.Some? && st.manifest.value.intent.Some? ==> s.manifest.value.intent == st.manifest.value.intent
  {
    forall id | id in s.nodes ensures NodeInv(s.manifest, id, s.nodes[id]) {
      if id in st.nodes {
        if s.nodes[id] != st.nodes[id] {
          NodeMoveKeepsInv(st, id, ev, s.nodes[id]);
        }
        assert NodeInv(st.manifest, id, s.nodes[id]);
      }
    }
  }

  predicate HasIntent(st: Store) { st.manifest.Some? && st.manifest.value.intent.Some? }

  ghost predicate BothPending(st: Store, a: NodeId, b: NodeId) {
    && a in st.nodes && b in st.nodes
    && st.nodes[a].pendingMerge.Some? && st.nodes[b].pendingMerge.Some?
  }

  /** In a caller-owned run at most one node holds a pending merge. */
  ghost predicate OnePending(st: Store) {
    st.manifest.Some? && st.manifest.value.owner == Caller ==> forall a, b :: BothPending(st, a, b) ==> a == b
  }

  /** The links to the one settlement intent leave room for one merge only. */
  lemma OneCallerMerge(st: Store)
    requires StoreInv(st)
    ensures OnePending(st)
  {
    if st.manifest.Some? && st.manifest.value.owner == Caller {
      forall a, b | BothPending(st, a, b) ensures a == b {
        assert NodeInv(st.manifest, a, st.nodes[a]) && NodeInv(st.manifest, b, st.nodes[b]);
      }
    }
  }

  /** Every state any log leads to, and every state a crash can leave inside one event's
      writes, satisfies the merge-transaction and open-request invariants; the settlement
      intent, once recorded, never changes. */
  lemma {:induction false} ReachableInvariants(run: RunId, log: seq<Event>, ev: Event, k: nat)
    ensures StoreInv(Fold(run, log)) && OnePending(Fold(run, log))
    ensures StoreInv(Cut(log, Fold(run, log), ev, k))
    ensures forall i :: 0 <= i <= |log| && HasIntent(Fold(run, log[..i])) ==>
              && HasIntent(Fold(run, log))
              && Fold(run, log).manifest.value.intent == Fold(run, log[..i]).manifest.value.intent
  {
    assert log[..|log|] == log;
    if log != [] {
      var init := log[..|log| - 1];
      ReachableInvariants(run, init, ev, k);
      FoldUnfolds(run, log, |log|);
      EvolvesKeepsInv(init, Fold(run, init), log[|log| - 1], Fold(run, log));
      forall i | 0 <= i < |log| ensures init[..i] == log[..i] {}
    }
    OneCallerMerge(Fold(run, log));
    CutEvolves(log, Fold(run, log), ev, k);
    EvolvesKeepsInv(log, Fold(run, log), ev, Cut(log, Fold(run, log), ev, k));
  }

}

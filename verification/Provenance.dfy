/** Where the facts on a node come from: every one is the payload of a logged event addressed
    to that node, and a worker exit belongs to the node's current attempt. */
module Provenance {
  import opened Prelude
  import opened Json
  import opened Schema
  import opened Report
  import opened Reducer
  import opened ReducerLaws

  // ---- the event that says it ----

  predicate SaysReport(ev: Event, report: Fields) { ev.body == NodeReport(report) }

  predicate SaysExit(ev: Event, x: WorkerExit, attempt: nat) {
    ev.body == WorkerExited(Some(ExitFact(attempt, x.code, x.signal))) && ev.ts == x.at
  }

  predicate SaysMerge(ev: Event, t: MergeTxn) { ev.body == MergeStarted(Some(t)) }

  predicate SaysDeath(ev: Event, at: nat) { ev.body.DeathObserved? && ev.ts == at }

  predicate SaysSession(ev: Event, s: PiSession) { ev.body == PiBound(Some(s)) }

  /** The first request of an open generation: it fixes the clock and the sequence, and its
      items come first. */
  predicate OpensRequest(ev: Event, a: Awaiting) {
    && ev.body.AwaitingInput? && ev.body.items.Some? && ev.body.items.value <= a.items
    && ev.ts == a.openedAt && ev.seqNo == a.eventSeq
  }

  predicate SpawnedAs(sp: Option<Spawn>, n: Node) {
    sp.Some? && sp.value.branch == n.branch && sp.value.worktree == n.worktree
  }

  predicate SaysPlace(ev: Event, n: Node) {
    (ev.body.NodeCreated? && SpawnedAs(ev.body.spawn, n)) || (ev.body.NodeRetry? && SpawnedAs(ev.body.respawn, n))
  }

  /** The event can have put a node in this status. */
  predicate SaysStatus(ev: Event, s: Status) {
    match ev.body
    case NodeCreated(_) => s == Pending
    case NodeRetry(_, _) => s == Pending
    case Resumed(_) => s == Pending
    case NodeStatus(x) => x == Some(s)
    case NodeReport(r) => StrictOutcome(r) == Some(s)
    case _ => false
  }

  // ---- one event ----

  /** Each fact of the new node is the old one or is what the event says. */
  ghost predicate FactsMoved(was: Node, ev: Event, n: Node) {
    && (n.lastReport.Some? && n.lastReport != was.lastReport ==> SaysReport(ev, n.lastReport.value))
    && (n.workerExit.Some? && (n.workerExit != was.workerExit || n.retryAttempts != was.retryAttempts) ==>
          SaysExit(ev, n.workerExit.value, n.retryAttempts))
    && (n.pendingMerge.Some? && n.pendingMerge != was.pendingMerge ==> SaysMerge(ev, n.pendingMerge.value))
    && (n.firstDeathAt.Some? && n.firstDeathAt != was.firstDeathAt ==> SaysDeath(ev, n.firstDeathAt.value))
    && (n.piSession.Some? && n.piSession != was.piSession ==> SaysSession(ev, n.piSession.value))
    && (n.awaiting.Some? && was.awaiting.None? ==> OpensRequest(ev, n.awaiting.value))
    && (n.awaiting.Some? && was.awaiting.Some? ==>
          && n.awaiting.value.openedAt == was.awaiting.value.openedAt
          && n.awaiting.value.eventSeq == was.awaiting.value.eventSeq
          && was.awaiting.value.items <= n.awaiting.value.items)
    && (n.branch != was.branch || n.worktree != was.worktree ==> SaysPlace(ev, n))
    && (n.status != was.status ==> SaysStatus(ev, n.status))
  }

  lemma MoveIsSaid(st: Store, id: NodeId, ev: Event, n: Node)
    requires NodeMoved(st, id, ev, n)
    ensures FactsMoved(st.nodes[id], ev, n)
  {
    if ev.body.NodeReport? { SkimIsFaithful(ev.body.report); }
  }

  // ---- whole logs ----

  ghost predicate Justified(log: seq<Event>, id: NodeId, n: Node) {
    && (n.lastReport.Some? ==>
          exists k :: 0 <= k < |log| && log[k].nodeId == Some(id) && SaysReport(log[k], n.lastReport.value))
    && (n.workerExit.Some? ==>
          exists k :: && 0 <= k < |log| && log[k].nodeId == Some(id)
                      && SaysExit(log[k], n.workerExit.value, n.retryAttempts))
    && (n.pendingMerge.Some? ==>
          exists k :: 0 <= k < |log| && log[k].nodeId == Some(id) && SaysMerge(log[k], n.pendingMerge.value))
    && (n.firstDeathAt.Some? ==>
          exists k :: 0 <= k < |log| && log[k].nodeId == Some(id) && SaysDeath(log[k], n.firstDeathAt.value))
    && (n.piSession.Some? ==>
          exists k :: 0 <= k < |log| && log[k].nodeId == Some(id) && SaysSession(log[k], n.piSession.value))
    && (n.awaiting.Some? ==>
          exists k :: 0 <= k < |log| && log[k].nodeId == Some(id) && OpensRequest(log[k], n.awaiting.value))
    && (exists k :: 0 <= k < |log| && log[k].nodeId == Some(id) && SaysPlace(log[k], n))
    && (exists k :: 0 <= k < |log| && log[k].nodeId == Some(id) && SaysStatus(log[k], n.status))
  }

  lemma JustifiedLater(log: seq<Event>, ev: Event, id: NodeId, n: Node)
    requires Justified(log, id, n)
    ensures Justified(log + [ev], id, n)
  {
    var l := log + [ev];
    forall k | 0 <= k < |log| ensures l[k] == log[k] {}
    if n.lastReport.Some? {
      var k :| 0 <= k < |log| && log[k].nodeId == Some(id) && SaysReport(log[k], n.lastReport.value);
      assert SaysReport(l[k], n.lastReport.value);
    }
    if n.workerExit.Some? {
      var k :| 0 <= k < |log| && log[k].nodeId == Some(id) && SaysExit(log[k], n.workerExit.value, n.retryAttempts);
      assert SaysExit(l[k], n.workerExit.value, n.retryAttempts);
    }
    if n.pendingMerge.Some? {
      var k :| 0 <= k < |log| && log[k].nodeId == Some(id) && SaysMerge(log[k], n.pendingMerge.value);
      assert SaysMerge(l[k], n.pendingMerge.value);
    }
    if n.firstDeathAt.Some? {
      var k :| 0 <= k < |log| && log[k].nodeId == Some(id) && SaysDeath(log[k], n.firstDeathAt.value);
      assert SaysDeath(l[k], n.firstDeathAt.value);
    }
    if n.piSession.Some? {
      var k :| 0 <= k < |log| && log[k].nodeId == Some(id) && SaysSession(log[k], n.piSession.value);
      assert SaysSession(l[k], n.piSession.value);
    }
    if n.awaiting.Some? {
      var k :| 0 <= k < |log| && log[k].nodeId == Some(id) && OpensRequest(log[k], n.awaiting.value);
      assert OpensRequest(l[k], n.awaiting.value);
    }
    var p :| 0 <= p < |log| && log[p].nodeId == Some(id) && SaysPlace(log[p], n);
    assert SaysPlace(l[p], n);
    var s :| 0 <= s < |log| && log[s].nodeId == Some(id) && SaysStatus(log[s], n.status);
    assert SaysStatus(l[s], n.status);
  }

  /** A logged event moves a justified node to a justified one, whenever it is folded. */
  lemma JustifiedMove(log: seq<Event>, i: nat, id: NodeId, was: Node, n: Node)
    requires i < |log| && log[i].nodeId == Some(id)
    requires Justified(log, id, was) && FactsMoved(was, log[i], n)
    ensures Justified(log, id, n)
  {
    if n.awaiting.Some? && was.awaiting.Some? {
      var k :| 0 <= k < |log| && log[k].nodeId == Some(id) && OpensRequest(log[k], was.awaiting.value);
      assert OpensRequest(log[k], n.awaiting.value);
    }
    if n.branch == was.branch && n.worktree == was.worktree {
      var k :| 0 <= k < |log| && log[k].nodeId == Some(id) && SaysPlace(log[k], was);
      assert SaysPlace(log[k], n);
    }
  }

  lemma JustifiedFresh(log: seq<Event>, i: nat, id: NodeId, n: Node)
    requires i < |log| && Creates(log[i], id, n)
    ensures Justified(log, id, n)
  {
    assert SaysPlace(log[i], n) && SaysStatus(log[i], Pending);
  }

  /** The settlement intent of the manifest is one the log records. */
  ghost predicate IntentJustified(log: seq<Event>, st: Store) {
    HasIntent(st) ==> exists k :: 0 <= k < |log| && SaysIntent(log[k], st.manifest.value.intent.value)
  }

  /** Every fact of the store is justified by the log. */
  ghost predicate AllJustified(log: seq<Event>, st: Store) {
    IntentJustified(log, st) && forall id :: id in st.nodes ==> Justified(log, id, st.nodes[id])
  }

  /** Folding a logged event, at any time and cut anywhere, keeps every fact justified. */
  lemma EvolvesKeepsFacts(log: seq<Event>, over: seq<Event>, st: Store, i: nat, s: Store)
    requires i < |log| && AllJustified(log, st) && Evolves(over, st, log[i], s)
    ensures AllJustified(log, s)
  {
    forall id | id in s.nodes ensures Justified(log, id, s.nodes[id]) {
      if id !in st.nodes {
        JustifiedFresh(log, i, id, s.nodes[id]);
      } else if s.nodes[id] != st.nodes[id] {
        MoveIsSaid(st, id, log[i], s.nodes[id]);
        JustifiedMove(log, i, id, st.nodes[id], s.nodes[id]);
      }
    }
  }

  lemma AllJustifiedLater(log: seq<Event>, ev: Event, st: Store)
    requires AllJustified(log, st)
    ensures AllJustified(log + [ev], st)
  {
    if HasIntent(st) {
      var k :| 0 <= k < |log| && SaysIntent(log[k], st.manifest.value.intent.value);
      assert (log + [ev])[k] == log[k];
    }
    forall id | id in st.nodes ensures Justified(log + [ev], id, st.nodes[id]) {
      JustifiedLater(log, ev, id, st.nodes[id]);
    }
  }

  /** Over every log: each node's status, place, last report, worker exit, pending merge, death
      time, session and open request are what some logged event addressed to it says; the exit
      is of the current attempt, and the open request keeps the clock, the sequence and the
      leading items of the event that opened it. */
  lemma {:induction false} EveryFactIsLogged(run: RunId, log: seq<Event>)
    ensures AllJustified(log, Fold(run, log))
  {
    if log != [] {
      var pre, ev := log[..|log| - 1], log[|log| - 1];
      assert log == pre + [ev] && log[..|log|] == log;
      EveryFactIsLogged(run, pre);
      AllJustifiedLater(pre, ev, Fold(run, pre));
      FoldUnfolds(run, log, |log|);
      EvolvesKeepsFacts(log, pre, Fold(run, pre), |log| - 1, Fold(run, log));
    }
  }
}

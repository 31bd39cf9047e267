/** A manifest written before the watermark existed reads as zero, so its first catch-up folds
    the whole log over the projections that log already produced. */
module LegacyMigration {
  import opened Prelude
  import opened Schema
  import opened Report
  import opened Reducer
  import opened ReducerLaws
  import opened Refold
  import opened Recovery
  import opened LogFold

  /** The kinds that read or write a node's status. */
  predicate BearsOnStatus(b: Body) {
    b.NodeStatus? || b.NodeReport? || b.NodeRetry? || b.Resumed?
  }

  /** The run's creation comes first and each node's status events follow its creation. */
  ghost predicate Ordered(run: RunId, log: seq<Event>) {
    && (log != [] ==> log[0].body.RunCreated?)
    && forall i :: 0 <= i < |log| ==> FollowsCreation(run, log, i)
  }

  ghost predicate FollowsCreation(run: RunId, log: seq<Event>, i: nat)
    requires i < |log|
  {
    BearsOnStatus(log[i].body) && log[i].nodeId.Some? ==> log[i].nodeId.value in Fold(run, log[..i]).nodes
  }

  function Unmarked(st: Store): Store {
    if st.manifest.Some? then st.(manifest := Some(st.manifest.value.(appliedSeq := 0))) else st
  }

  /** The status an event sets the node to unconditionally while it is live. */
  function SetsTo(ev: Event, id: NodeId): Option<Status> {
    if ev.nodeId != Some(id) then None
    else match ev.body
      case NodeStatus(s) => s
      case NodeRetry(sp, _) => if sp.Some? then Some(Pending) else None
      case _ => None
  }

  /** The last status the log set for the node by a status or retry event. */
  function LastSet(log: seq<Event>, id: NodeId): Option<Status> {
    if log == [] then None
    else if SetsTo(log[|log| - 1], id).Some? then SetsTo(log[|log| - 1], id)
    else LastSet(log[..|log| - 1], id)
  }

  /** Some retry of the node carries its attempt number. */
  predicate Renumbered(log: seq<Event>, id: NodeId) {
    log != [] &&
      ( || (log[|log| - 1].nodeId == Some(id) && log[|log| - 1].body.NodeRetry? && log[|log| - 1].body.attempt.Some?)
        || Renumbered(log[..|log| - 1], id))
  }

  /** Migration changes this live node's status: nothing re-bases its attempt counter, and the
      log last set another status than the one the node has. */
  predicate Drifts(log: seq<Event>, id: NodeId, status: Status) {
    !status.IsTerminal() && !Renumbered(log, id) && LastSet(log, id).Some? && LastSet(log, id).value != status
  }

  /** Re-folded node `r` beside its final form `s` and its historical form `f` so far. */
  ghost predicate NodeTracks(s: Node, f: Option<Node>, r: Node) {
    && r.status.IsTerminal() == s.status.IsTerminal()
    && (s.status.IsTerminal() ==> r.status == s.status)
    && (r.lastReport == s.lastReport || (f.Some? && f.value.status == Done && s.status == Done &&
       r.lastReport == f.value.lastReport))
  }

  /** How the re-fold of a finally live node goes after the prefix `pre` of the log. */
  ghost predicate LiveTracks(pre: seq<Event>, renumbered: bool, id: NodeId, s: Node, f: Option<Node>, r: Node) {
    if Renumbered(pre, id) then f.Some? && r.status == f.value.status && r.retryAttempts == f.value.retryAttempts
    else (renumbered || (r.retryAttempts >= s.retryAttempts &&
        r.status == if LastSet(pre, id).Some? then LastSet(pre, id).value else s.status))
  }

  /** One event applied to a node in its history and in the re-fold. */
  lemma NodeTracksStep(st: Store, rst: Store, id: NodeId, s: Node, f: Node, r: Node, ev: Event)
    requires NodeLevel(ev.body) && ev.nodeId == Some(id) && NodeTracks(s, Some(f), r)
    requires Gate(st, id, ev.body, ev.runId) && Gate(rst, id, ev.body, ev.runId)
    requires BearsOnStatus(ev.body) ==> !NodeChange(st, id, f, ev).Refuse?
    requires (f.lastReport.Some? ==> f.status.IsTerminal()) && (s.lastReport.Some? ==> s.status.IsTerminal())
    requires var f' := After(f, NodeChange(st, id, f, ev));
             f'.status.IsTerminal() ==>
               s.status.IsTerminal() && (f'.status != s.status ==> f'.status == Failed && s.status == Done)
    ensures NodeTracks(s, Some(After(f, NodeChange(st, id, f, ev))), After(r, NodeChange(rst, id, r, ev)))
  {
    if ev.body.NodeReport? { SkimIsFaithful(ev.body.report); }
  }

  lemma {:induction false} PrefixSnoc(pre: seq<Event>, ev: Event, id: NodeId)
    ensures LastSet(pre + [ev], id) == if SetsTo(ev, id).Some? then SetsTo(ev, id) else LastSet(pre, id)
    ensures Renumbered(pre + [ev], id) <==>
            Renumbered(pre, id) || (ev.nodeId == Some(id) && ev.body.NodeRetry? && ev.body.attempt.Some?)
  {
    assert (pre + [ev])[..|pre|] == pre;
  }

  /** The same for a node that ends live. */
  lemma LiveTracksStep(st: Store, rst: Store, pre: seq<Event>, renumbered: bool, id: NodeId, s: Node, f: Node,
      r: Node, ev: Event)
    requires BearsOnStatus(ev.body) && ev.nodeId == Some(id) && !s.status.IsTerminal() && !r.status.IsTerminal()
    requires !f.status.IsTerminal()
    requires Gate(st, id, ev.body, ev.runId) && Gate(rst, id, ev.body, ev.runId) && !NodeChange(st, id, f, ev).Refuse?
    requires LiveTracks(pre, renumbered, id, s, Some(f), r)
    requires var f' := After(f, NodeChange(st, id, f, ev));
             !f'.status.IsTerminal() && (!renumbered ==> f'.retryAttempts <= s.retryAttempts)
    ensures LiveTracks(pre + [ev], renumbered, id, s, Some(After(f, NodeChange(st, id, f, ev))),
            After(r, NodeChange(rst, id, r, ev)))
  {
    PrefixSnoc(pre, ev, id);
    LiveAfter(st, id, f, ev);
    LiveAfter(rst, id, r, ev);
    if ev.body.NodeReport? { ReportIsTerminal(st, id, f, ev); }
  }

  /** Status and attempt of a live node after each status-bearing kind. */
  lemma LiveAfter(st: Store, id: NodeId, n: Node, ev: Event)
    requires BearsOnStatus(ev.body) && Gate(st, id, ev.body, ev.runId) && !n.status.IsTerminal()
    ensures var n' := After(n, NodeChange(st, id, n, ev));
            match ev.body
            case NodeStatus(x) => n'.retryAttempts == n.retryAttempts &&
                n'.status == if x.Some? then x.value else n.status
            case NodeRetry(sp, a) =>
              n'.status == (if sp.Some? then Pending else n.status) &&
                  n'.retryAttempts == if sp.Some? then RetryNumber(n, a) else n.retryAttempts
            case Resumed(a) =>
              if a.value <= n.retryAttempts then n' == n else n'.status == Pending && n'.retryAttempts == a.value
            case _ => true
  {}

  /** An accepted report ends a live node. */
  lemma ReportIsTerminal(st: Store, id: NodeId, n: Node, ev: Event)
    requires ev.body.NodeReport? && Gate(st, id, ev.body, ev.runId) && !NodeChange(st, id, n, ev).Refuse?
    requires !n.status.IsTerminal()
    ensures After(n, NodeChange(st, id, n, ev)).status.IsTerminal()
  {}

  /** The whole re-folded store beside the final one, after `i` events. */
  ghost predicate Tracks(run: RunId, log: seq<Event>, i: nat, r: Store)
    requires i <= |log|
  {
    var s, f := Fold(run, log), Fold(run, log[..i]);
    && r.run == s.run && r.nodes.Keys == s.nodes.Keys && f.nodes.Keys <= s.nodes.Keys
    && (forall id :: id in s.nodes ==> TracksAt(run, log, i, r, id))
    && r.manifest.Some? && s.manifest.Some? && r.manifest.value.resident == s.manifest.value.resident
    && StatusTracks(s.manifest.value.status, f.manifest, r.manifest.value.status)
  }

  ghost predicate TracksAt(run: RunId, log: seq<Event>, i: nat, r: Store, id: NodeId)
    requires i <= |log|
  {
    var s, f := Fold(run, log), Fold(run, log[..i]);
    var was := NodeAt(f, id);
    && id in s.nodes && id in r.nodes && NodeTracks(s.nodes[id], was, r.nodes[id])
    && (!s.nodes[id].status.IsTerminal() ==> LiveTracks(log[..i], Renumbered(log, id), id, s.nodes[id], was,
       r.nodes[id]))
  }

  /** The node after one event, whichever way the plan goes. */
  lemma StepNode(log: seq<Event>, st: Store, ev: Event, id: NodeId)
    requires id in st.nodes
    ensures id in Step(log, st, ev).nodes
    ensures Step(log, st, ev).nodes[id] ==
            if && NodeLevel(ev.body) && ev.nodeId == Some(id) && ev.runId == st.run && Gate(st, id, ev.body, ev.runId)
            then After(st.nodes[id], NodeChange(st, id, st.nodes[id], ev)) else st.nodes[id]
  {
    if NodeLevel(ev.body) {
      StepNodes(log, st, ev);
      CutNode(log, st, ev, 2);
    } else {
      StepEvolves(log, st, ev);
    }
  }

  lemma QuietKinds(st: Store, id: NodeId, n: Node, ev: Event)
    requires NodeLevel(ev.body) && Gate(st, id, ev.body, ev.runId) && !BearsOnStatus(ev.body)
    ensures var n' := After(n, NodeChange(st, id, n, ev));
            n'.status == n.status && n'.lastReport == n.lastReport && n'.retryAttempts == n.retryAttempts
  {}

  lemma AttemptStep(log: seq<Event>, st: Store, ev: Event, id: NodeId)
    requires id in st.nodes && !(ev.nodeId == Some(id) && ev.body.NodeRetry? && ev.body.attempt.Some?)
    ensures id in Step(log, st, ev).nodes && st.nodes[id].retryAttempts <= Step(log, st, ev).nodes[id].retryAttempts
  {
    StepNode(log, st, ev, id);
  }

  /** Attempt counters only rise while no retry re-bases them. */
  lemma {:induction false} AttemptsRise(run: RunId, log: seq<Event>, id: NodeId, i: nat, j: nat)
    requires i <= j <= |log| && id in Fold(run, log[..i]).nodes && !Renumbered(log[..j], id)
    ensures id in Fold(run, log[..j]).nodes
    ensures Fold(run, log[..i]).nodes[id].retryAttempts <= Fold(run, log[..j]).nodes[id].retryAttempts
  {
    if i < j {
      var k := j - 1;
      LogSnoc(log, k);
      PrefixSnoc(log[..k], log[k], id);
      AttemptsRise(run, log, id, i, k);
      FoldUnfolds(run, log, k + 1);
      AttemptStep(log[..k], Fold(run, log[..k]), log[k], id);
    }
  }

  lemma LogSnoc(log: seq<Event>, k: nat)
    requires k < |log|
    ensures log[..k + 1] == log[..k] + [log[k]]
  {}

  /** Events that do not bear on this node's status leave the tracking alone. */
  lemma QuietTracks(pre: seq<Event>, ev: Event, renumbered: bool, id: NodeId, s: Node, f: Option<Node>, r: Node,
      f': Option<Node>, r': Node)
    requires NodeTracks(s, f, r) && (!s.status.IsTerminal() ==> LiveTracks(pre, renumbered, id, s, f, r))
    requires ev.nodeId == Some(id) ==> !BearsOnStatus(ev.body)
    requires r'.status == r.status && r'.lastReport == r.lastReport && r'.retryAttempts == r.retryAttempts
    requires PassedOver(f, f')
    ensures NodeTracks(s, f', r') && (!s.status.IsTerminal() ==> LiveTracks(pre + [ev], renumbered, id, s, f', r'))
  {
    PrefixSnoc(pre, ev, id);
  }

  /** A node-level event leaves a node it does not bear on as it was, in status terms. */
  lemma QuietStep(log: seq<Event>, st: Store, ev: Event, id: NodeId)
    requires id in st.nodes && !(ev.nodeId == Some(id) && BearsOnStatus(ev.body))
    ensures id in Step(log, st, ev).nodes
    ensures var n, n' := st.nodes[id], Step(log, st, ev).nodes[id];
            n'.status == n.status && n'.lastReport == n.lastReport && n'.retryAttempts == n.retryAttempts
  {
    StepNode(log, st, ev, id);
    if NodeLevel(ev.body) && ev.nodeId == Some(id) && Gate(st, id, ev.body, ev.runId) {
      QuietKinds(st, id, st.nodes[id], ev);
    }
  }

  /** In status terms, history passed over the event. */
  ghost predicate PassedOver(was: Option<Node>, now: Option<Node>) {
    was.Some? ==>
      && now.Some? && now.value.status == was.value.status && now.value.lastReport == was.value.lastReport
      && now.value.retryAttempts == was.value.retryAttempts
  }

  ghost function NodeAt(st: Store, id: NodeId): Option<Node> {
    if id in st.nodes then Some(st.nodes[id]) else None
  }

  lemma {:induction false} QuietHistory(run: RunId, log: seq<Event>, i: nat, id: NodeId)
    requires i < |log| && !(log[i].nodeId == Some(id) && BearsOnStatus(log[i].body))
    ensures PassedOver(NodeAt(Fold(run, log[..i]), id), NodeAt(Fold(run, log[..i + 1]), id))
  {
    FoldUnfolds(run, log, i + 1);
    if id in Fold(run, log[..i]).nodes { QuietStep(log[..i], Fold(run, log[..i]), log[i], id); }
  }

  lemma TracksQuietly(run: RunId, log: seq<Event>, i: nat, r: Store, id: NodeId)
    requires i < |log| && TracksAt(run, log, i, r, id)
    requires !(log[i].nodeId == Some(id) && BearsOnStatus(log[i].body))
    ensures TracksAt(run, log, i + 1, Step(log, r, log[i]), id)
  {
    QuietHistory(run, log, i, id);
    QuietStep(log, r, log[i], id);
    LogSnoc(log, i);
    QuietTracks(log[..i], log[i], Renumbered(log, id), id, Fold(run, log).nodes[id],
                NodeAt(Fold(run, log[..i]), id), r.nodes[id], NodeAt(Fold(run, log[..i + 1]), id),
                    Step(log, r, log[i]).nodes[id]);
  }

  /** What history says about a status-bearing event of a node and about the node's end. */
  ghost predicate Historic(st: Store, id: NodeId, s: Node, ev: Event, renumbered: bool) {
    && id in st.nodes && NodeLevel(ev.body) && Gate(st, id, ev.body, ev.runId)
    && !NodeChange(st, id, st.nodes[id], ev).Refuse?
    && (st.nodes[id].lastReport.Some? ==> st.nodes[id].status.IsTerminal())
    && (s.lastReport.Some? ==> s.status.IsTerminal())
    && var n := After(st.nodes[id], NodeChange(st, id, st.nodes[id], ev));
       && (n.status.IsTerminal() ==>
             s.status.IsTerminal() && (n.status != s.status ==> n.status == Failed && s.status == Done))
       && (!renumbered ==> n.retryAttempts <= s.retryAttempts)
  }

  /** The event as history took it. */
  lemma {:induction false} StatusAccepted(run: RunId, log: seq<Event>, i: nat, id: NodeId)
    requires WellSeq(run, log) && Admissible(run, log) && Ordered(run, log) && i < |log|
    requires log[i].nodeId == Some(id) && BearsOnStatus(log[i].body)
    ensures var f, ev := Fold(run, log[..i]), log[i];
            && id in f.nodes && NodeLevel(ev.body) && Gate(f, id, ev.body, ev.runId)
            && !NodeChange(f, id, f.nodes[id], ev).Refuse?
            && id in Fold(run, log[..i + 1]).nodes
            && Fold(run, log[..i + 1]).nodes[id] == After(f.nodes[id], NodeChange(f, id, f.nodes[id], ev))
  {
    assert FollowsCreation(run, log, i);
    assert PlanEvent(log[..i], Fold(run, log[..i]), log[i]).Accepted?;
    NodesPersist(run, log, i, i);
    FoldUnfolds(run, log, i + 1);
    StepNode(log[..i], Fold(run, log[..i]), log[i], id);
  }

  lemma {:induction false} HistoryOf(run: RunId, log: seq<Event>, i: nat, id: NodeId)
    requires WellSeq(run, log) && Admissible(run, log) && Ordered(run, log) && i < |log|
    requires log[i].nodeId == Some(id) && BearsOnStatus(log[i].body)
    ensures var f := Fold(run, log[..i]);
            && id in Fold(run, log).nodes && Historic(f, id, Fold(run, log).nodes[id], log[i], Renumbered(log, id))
            && id in Fold(run, log[..i + 1]).nodes
            && Fold(run, log[..i + 1]).nodes[id] == After(f.nodes[id], NodeChange(f, id, f.nodes[id], log[i]))
  {
    StatusAccepted(run, log, i, id);
    assert log[..|log|] == log;
    NodeTerminalFinality(run, log, id, i + 1, |log|);
    if Fold(run, log).nodes[id].lastReport.Some? { ReportsAreTerminal(run, log, id); }
    if Fold(run, log[..i]).nodes[id].lastReport.Some? { ReportsAreTerminal(run, log[..i], id); }
    if !Renumbered(log, id) { AttemptsRise(run, log, id, i + 1, |log|); }
  }

  lemma {:induction false} ReportsAreTerminal(run: RunId, log: seq<Event>, id: NodeId)
    requires id in Fold(run, log).nodes && Fold(run, log).nodes[id].lastReport.Some?
    ensures Fold(run, log).nodes[id].status.IsTerminal()
  {
    ReachableInvariants(run, log, Event(0, 0, run, None, None, Audit("")), 0);
  }

  /** Both kinds of tracking across one status-bearing event. */
  lemma StatusEventTracks(st: Store, rst: Store, pre: seq<Event>, renumbered: bool, id: NodeId, s: Node, ev: Event)
    requires BearsOnStatus(ev.body) && ev.nodeId == Some(id) && Historic(st, id, s, ev, renumbered)
    requires id in rst.nodes && Gate(rst, id, ev.body, ev.runId) && NodeTracks(s, Some(st.nodes[id]), rst.nodes[id])
    requires !s.status.IsTerminal() ==> LiveTracks(pre, renumbered, id, s, Some(st.nodes[id]), rst.nodes[id])
    ensures var f' := After(st.nodes[id], NodeChange(st, id, st.nodes[id], ev));
            var r' := After(rst.nodes[id], NodeChange(rst, id, rst.nodes[id], ev));
            && NodeTracks(s, Some(f'), r')
            && (!s.status.IsTerminal() ==> LiveTracks(pre + [ev], renumbered, id, s, Some(f'), r'))
  {
    NodeTracksStep(st, rst, id, s, st.nodes[id], rst.nodes[id], ev);
    if !s.status.IsTerminal() {
      LiveBefore(st, id, st.nodes[id], ev);
      LiveTracksStep(st, rst, pre, renumbered, id, s, st.nodes[id], rst.nodes[id], ev);
    }
  }

  /** A terminal node does not come back to life. */
  lemma LiveBefore(st: Store, id: NodeId, n: Node, ev: Event)
    requires NodeLevel(ev.body) && Gate(st, id, ev.body, ev.runId)
    requires !After(n, NodeChange(st, id, n, ev)).status.IsTerminal()
    ensures !n.status.IsTerminal()
  {}

  lemma {:induction false} TracksStatusEvent(run: RunId, log: seq<Event>, i: nat, r: Store, id: NodeId)
    requires WellSeq(run, log) && Admissible(run, log) && Ordered(run, log) && i < |log| && Tracks(run, log, i, r)
    requires id in Fold(run, log).nodes && log[i].nodeId == Some(id) && BearsOnStatus(log[i].body)
    ensures TracksAt(run, log, i + 1, Step(log, r, log[i]), id)
  {
    assert TracksAt(run, log, i, r, id);
    HistoryOf(run, log, i, id);
    NodesPersist(run, log, |log|, |log|);
    assert log[..|log|] == log;
    GatesOpen(run, log, i, r, id);
    StatusEventTracked(run, log, i, r, id);
  }

  lemma {:induction false} StatusEventTracked(run: RunId, log: seq<Event>, i: nat, r: Store, id: NodeId)
    requires i < |log| && log[i].nodeId == Some(id) && BearsOnStatus(log[i].body) && log[i].runId == run && r.run == run
    requires TracksAt(run, log, i, r, id) && Gate(r, id, log[i].body, log[i].runId)
    requires Historic(Fold(run, log[..i]), id, Fold(run, log).nodes[id], log[i], Renumbered(log, id))
    requires var f := Fold(run, log[..i]);
             && id in Fold(run, log[..i + 1]).nodes
             && Fold(run, log[..i + 1]).nodes[id] == After(f.nodes[id], NodeChange(f, id, f.nodes[id], log[i]))
    ensures TracksAt(run, log, i + 1, Step(log, r, log[i]), id)
  {
    StepNode(log, r, log[i], id);
    StatusEventTracks(Fold(run, log[..i]), r, log[..i], Renumbered(log, id), id, Fold(run, log).nodes[id], log[i]);
    LogSnoc(log, i);
  }

  /** A status-bearing event that passed its gate in history passes it again. */
  lemma {:induction false} GatesOpen(run: RunId, log: seq<Event>, i: nat, r: Store, id: NodeId)
    requires i < |log| && Tracks(run, log, i, r) && BearsOnStatus(log[i].body)
    requires Gate(Fold(run, log[..i]), id, log[i].body, log[i].runId)
    ensures Gate(r, id, log[i].body, log[i].runId)
  {
    if log[i].body.Resumed? {
      assert log[..|log|] == log;
      ResidentIsFixed(run, log, i, |log|);
    }
  }

  lemma {:induction false} ResidentIsFixed(run: RunId, log: seq<Event>, i: nat, j: nat)
    requires i <= j <= |log| && Fold(run, log[..i]).manifest.Some?
    ensures Fold(run, log[..j]).manifest.Some?
    ensures Fold(run, log[..j]).manifest.value.resident == Fold(run, log[..i]).manifest.value.resident
  {
    if i < j {
      ResidentIsFixed(run, log, i, j - 1);
      FoldUnfolds(run, log, j);
    }
  }

  lemma TracksStep(run: RunId, log: seq<Event>, i: nat, r: Store)
    requires WellSeq(run, log) && Admissible(run, log) && Ordered(run, log) && i < |log| && Tracks(run, log, i, r)
    ensures Tracks(run, log, i + 1, Step(log, r, log[i]))
  {
    var ev := log[i];
    forall id | id in Fold(run, log).nodes ensures TracksAt(run, log, i + 1, Step(log, r, ev), id) {
      if ev.nodeId == Some(id) && BearsOnStatus(ev.body) { TracksStatusEvent(run, log, i, r, id); }
      else { assert TracksAt(run, log, i, r, id); TracksQuietly(run, log, i, r, id); }
    }
    assert log[..|log|] == log;
    NodesPersist(run, log, i + 1, |log|);
    KeysStay(run, log, i, r);
    StepRunStatus(log, r, ev);
    RunTracksEvent(run, log, i, r.manifest.value.status);
  }

  lemma {:induction false} KeysStay(run: RunId, log: seq<Event>, i: nat, r: Store)
    requires i < |log| && Admissible(run, log) && r.nodes.Keys == Fold(run, log).nodes.Keys && r.run == run
    requires log[i].runId == run
    ensures Step(log, r, log[i]).nodes.Keys == r.nodes.Keys && Step(log, r, log[i]).run == run
  {
    var ev := log[i];
    StepEvolves(log, r, ev);
    if NodeLevel(ev.body) {
      StepNodes(log, r, ev);
      CutNode(log, r, ev, 2);
    } else if ev.body.NodeCreated? {
      CreatedBefore(run, log, i);
      assert PlanEvent(log, r, ev) == Accepted([]);
    } else {
      ManifestOnly(log, r, ev);
    }
  }

  lemma {:induction false} CreatedBefore(run: RunId, log: seq<Event>, i: nat)
    requires i < |log| && Admissible(run, log) && log[i].body.NodeCreated?
    ensures log[i].nodeId.Some? && log[i].nodeId.value in Fold(run, log).nodes
  {
    NodesPersist(run, log, i + 1, |log|);
    assert log[..|log|] == log;
    FoldUnfolds(run, log, i + 1);
    assert PlanEvent(log[..i], Fold(run, log[..i]), log[i]).Accepted?;
    CreatedNodes(log[..i], Fold(run, log[..i]), log[i]);
  }

  lemma RunStatusTracks(pre: seq<Event>, log: seq<Event>, ev: Event, s: Status, f: Status, r: Status)
    requires SameBefore(pre, log, ev.seqNo)
    requires r.IsTerminal() == s.IsTerminal() && (s.IsTerminal() ==> r == s) && (r == s || r == f)
    requires var f' := RunAfter(pre, f, ev);
             f'.IsTerminal() ==> s.IsTerminal() && (f' != s ==> f' == Failed && s == Done)
    ensures var r' := RunAfter(log, r, ev);
            r'.IsTerminal() == s.IsTerminal() && (s.IsTerminal() ==> r' == s) && (r' == s || r' == RunAfter(pre, f, ev))
  {
    VerdictDependsOnBefore(pre, log, ev.seqNo);
  }

  ghost predicate StatusTracks(s: Status, f: Option<Manifest>, r: Status) {
    && r.IsTerminal() == s.IsTerminal() && (s.IsTerminal() ==> r == s)
    && (r == s || (f.Some? && r == f.value.status))
  }

  lemma {:induction false} RunTracksEvent(run: RunId, log: seq<Event>, i: nat, r: Status)
    requires WellSeq(run, log) && Ordered(run, log) && Admissible(run, log) && i < |log|
    requires Fold(run, log).manifest.Some?
    requires StatusTracks(Fold(run, log).manifest.value.status, Fold(run, log[..i]).manifest, r)
    ensures StatusTracks(Fold(run, log).manifest.value.status, Fold(run, log[..i + 1]).manifest,
            RunAfter(log, r, log[i]))
  {
    if i > 0 {
      ManifestFirst(run, log, i);
      HistoricRunStatus(run, log, i);
      PlanIsStable(run, log, EmptyStore(run), i);
      RunStatusTracks(log[..i], log, log[i], Fold(run, log).manifest.value.status,
          Fold(run, log[..i]).manifest.value.status, r);
    }
  }

  lemma {:induction false} HistoricRunStatus(run: RunId, log: seq<Event>, i: nat)
    requires WellSeq(run, log) && i < |log| && Fold(run, log[..i]).manifest.Some?
    ensures Fold(run, log[..i + 1]).manifest.Some? && Fold(run, log).manifest.Some?
    ensures var f', s := Fold(run, log[..i + 1]).manifest.value.status, Fold(run, log).manifest.value.status;
            && f' == RunAfter(log[..i], Fold(run, log[..i]).manifest.value.status, log[i])
            && (f'.IsTerminal() ==> s.IsTerminal() && (f' != s ==> f' == Failed && s == Done))
  {
    assert log[..|log|] == log;
    FoldUnfolds(run, log, i + 1);
    NodesPersist(run, log, i, i);
    StepRunStatus(log[..i], Fold(run, log[..i]), log[i]);
    RunTerminalFinality(run, log, i + 1, |log|);
  }

  lemma {:induction false} ManifestFirst(run: RunId, log: seq<Event>, i: nat)
    requires 0 < i <= |log| && log[0].body.RunCreated? && Admissible(run, log)
    ensures Fold(run, log[..i]).manifest.Some?
  {
    FoldUnfolds(run, log, 1);
    assert log[..0] == [];
    var empty := EmptyStore(run);
    assert PlanEvent([], empty, log[0]).Accepted?;
    CommitOne(empty, PlanEvent([], empty, log[0]).ops[0]);
    NodesPersist(run, log, 1, i);
  }

  lemma {:induction false} StartTracks(run: RunId, log: seq<Event>)
    requires Fold(run, log).manifest.Some?
    ensures Tracks(run, log, 0, Unmarked(Fold(run, log)))
  {
    assert log[..|log|] == log && log[..0] == [];
    NodesPersist(run, log, 0, |log|);
    forall id | id in Fold(run, log).nodes ensures TracksAt(run, log, 0, Unmarked(Fold(run, log)), id) {
      assert LastSet(log[..0], id).None? && !Renumbered(log[..0], id);
    }
  }

  lemma ReplayOne(run: RunId, log: seq<Event>, st: Store, j: nat)
    requires WellSeq(run, log) && j < |log|
    ensures ReplayTo(log, 0, st, j + 1) == Step(log, ReplayTo(log, 0, st, j), log[j])
  {}

  lemma {:induction false} ReplayTracks(run: RunId, log: seq<Event>, i: nat)
    requires WellSeq(run, log) && Admissible(run, log) && Ordered(run, log) && i <= |log|
    requires Fold(run, log).manifest.Some?
    ensures Tracks(run, log, i, ReplayTo(log, 0, Unmarked(Fold(run, log)), i))
  {
    if i == 0 {
      StartTracks(run, log);
    } else {
      var j, u := i - 1, Unmarked(Fold(run, log));
      ReplayTracks(run, log, j);
      TracksStep(run, log, j, ReplayTo(log, 0, u, j));
      ReplayOne(run, log, u, j);
    }
  }

  /** Same outcomes: the node set, every node's status and last report, and the run status. */
  ghost predicate SameOutcomes(a: Store, b: Store) {
    && a.nodes.Keys == b.nodes.Keys && a.manifest.Some? && b.manifest.Some?
    && a.manifest.value.status == b.manifest.value.status
    && forall id :: id in a.nodes ==>
         a.nodes[id].status == b.nodes[id].status && a.nodes[id].lastReport == b.nodes[id].lastReport
  }

  /** Migrating a legacy manifest is the identity on outcomes exactly when no live node
      drifts. Whatever drifts, the run status, every last report and every terminal status
      stay. */
  lemma {:induction false} LegacyMigrationExactly(run: RunId, log: seq<Event>)
    requires WellSeq(run, log) && Admissible(run, log) && Ordered(run, log) && Fold(run, log).manifest.Some?
    ensures var s := Fold(run, log);
            var r := CatchUp(log, Unmarked(s));
            && r.nodes.Keys == s.nodes.Keys && r.manifest.Some? && r.manifest.value.status == s.manifest.value.status
            && (forall id :: id in s.nodes ==> r.nodes[id].lastReport == s.nodes[id].lastReport)
            && (forall id :: id in s.nodes ==> (r.nodes[id].status != s.nodes[id].status <==>
               Drifts(log, id, s.nodes[id].status)))
            && (SameOutcomes(r, s) <==> forall id :: id in s.nodes ==> !Drifts(log, id, s.nodes[id].status))
  {
    ReplayTracks(run, log, |log|);
    assert log[..|log|] == log;
    var s := Fold(run, log);
    var r := CatchUp(log, Unmarked(s));
    assert r == ReplayTo(log, 0, Unmarked(s), |log|);
    forall id | id in s.nodes
      ensures r.nodes[id].lastReport == s.nodes[id].lastReport
      ensures r.nodes[id].status != s.nodes[id].status <==> Drifts(log, id, s.nodes[id].status)
    {
      assert TracksAt(run, log, |log|, r, id);
    }
  }

  /** One event of a live node that is no resumption. */
  lemma {:induction false} NeverResumedStep(run: RunId, log: seq<Event>, j: nat, id: NodeId)
    requires WellSeq(run, log) && Admissible(run, log) && j < |log| && !log[j].body.Resumed?
    requires id in Fold(run, log[..j]).nodes && id in Fold(run, log[..j + 1]).nodes
    requires !Fold(run, log[..j]).nodes[id].status.IsTerminal()
    requires !Fold(run, log[..j + 1]).nodes[id].status.IsTerminal()
    ensures Fold(run, log[..j + 1]).nodes[id].status ==
            if SetsTo(log[j], id).Some? then SetsTo(log[j], id).value else Fold(run, log[..j]).nodes[id].status
  {
    var pre, ev := log[..j], log[j];
    FoldUnfolds(run, log, j + 1);
    NodesPersist(run, log, j, j);
    if ev.nodeId == Some(id) && BearsOnStatus(ev.body) {
      assert PlanEvent(log[..j], Fold(run, log[..j]), log[j]).Accepted?;
      SetStep(pre, Fold(run, pre), ev, id);
    } else {
      QuietStep(pre, Fold(run, pre), ev, id);
    }
  }

  /** In history a live node that was never resumed has the status last set for it. */
  lemma {:induction false} NeverResumed(run: RunId, log: seq<Event>, i: nat, id: NodeId)
    requires WellSeq(run, log) && Admissible(run, log) && Ordered(run, log) && i <= |log|
    requires forall j :: 0 <= j < |log| ==> !log[j].body.Resumed?
    requires id in Fold(run, log[..i]).nodes && !Fold(run, log[..i]).nodes[id].status.IsTerminal()
    ensures Fold(run, log[..i]).nodes[id].status ==
            if LastSet(log[..i], id).Some? then LastSet(log[..i], id).value else Pending
  {
    if i > 0 {
      var j := i - 1;
      LogSnoc(log, j);
      PrefixSnoc(log[..j], log[j], id);
      if id in Fold(run, log[..j]).nodes {
        NodeTerminalFinality(run, log, id, j, i);
        NeverResumed(run, log, j, id);
        NeverResumedStep(run, log, j, id);
      } else {
        NothingSet(run, log, j, id);
        JustCreated(run, log, j, id);
      }
    }
  }

  /** A node appears as pending, by an event that sets nothing. */
  lemma {:induction false} JustCreated(run: RunId, log: seq<Event>, j: nat, id: NodeId)
    requires j < |log| && Ordered(run, log) && id !in Fold(run, log[..j]).nodes && id in Fold(run, log[..j + 1]).nodes
    ensures Fold(run, log[..j + 1]).nodes[id].status == Pending && SetsTo(log[j], id).None?
  {
    FoldUnfolds(run, log, j + 1);
    assert FollowsCreation(run, log, j);
  }

  lemma SetStep(log: seq<Event>, st: Store, ev: Event, id: NodeId)
    requires id in st.nodes && ev.nodeId == Some(id) && ev.runId == st.run && BearsOnStatus(ev.body)
    requires !ev.body.Resumed?
    requires PlanEvent(log, st, ev).Accepted? && id in Step(log, st, ev).nodes
    requires !st.nodes[id].status.IsTerminal() && !Step(log, st, ev).nodes[id].status.IsTerminal()
    ensures SetsTo(ev, id) == Some(Step(log, st, ev).nodes[id].status)
  {
    StepNode(log, st, ev, id);
  }

  lemma {:induction false} NothingSet(run: RunId, log: seq<Event>, i: nat, id: NodeId)
    requires Ordered(run, log) && i <= |log| && id !in Fold(run, log[..i]).nodes
    ensures LastSet(log[..i], id).None?
  {
    if i > 0 {
      NodesPersist(run, log, i - 1, i);
      NothingSet(run, log, i - 1, id);
      assert log[..i] == log[..i - 1] + [log[i - 1]];
      PrefixSnoc(log[..i - 1], log[i - 1], id);
      assert FollowsCreation(run, log, i - 1);
    }
  }

  lemma {:induction false} NoResumption(run: RunId, log: seq<Event>, i: nat)
    requires Admissible(run, log) && i < |log| && Fold(run, log).manifest.Some?
    requires !Fold(run, log).manifest.value.resident
    ensures !log[i].body.Resumed?
  {
    assert log[..|log|] == log;
    assert PlanEvent(log[..i], Fold(run, log[..i]), log[i]).Accepted? || log[i].body.AwaitingInput?;
    if log[i].body.Resumed? {
      ResumptionNeedsResident(log[..i], Fold(run, log[..i]), log[i]);
      ResidentIsFixed(run, log, i, |log|);
    }
  }

  lemma ResumptionNeedsResident(log: seq<Event>, st: Store, ev: Event)
    requires ev.body.Resumed? && PlanEvent(log, st, ev).Accepted?
    ensures st.manifest.Some? && st.manifest.value.resident
  {}

  /** In particular it is the identity in every run that is not resident. */
  lemma {:induction false} LegacyMigrationIsIdentity(run: RunId, log: seq<Event>)
    requires WellSeq(run, log) && Admissible(run, log) && Ordered(run, log)
    requires Fold(run, log).manifest.Some? && !Fold(run, log).manifest.value.resident
    ensures SameOutcomes(CatchUp(log, Unmarked(Fold(run, log))), Fold(run, log))
  {
    LegacyMigrationExactly(run, log);
    forall i | 0 <= i < |log| ensures !log[i].body.Resumed? { NoResumption(run, log, i); }
    assert log[..|log|] == log;
    forall id | id in Fold(run, log).nodes ensures !Drifts(log, id, Fold(run, log).nodes[id].status) {
      if !Fold(run, log).nodes[id].status.IsTerminal() { NeverResumed(run, log, |log|, id); }
    }
  }

  // ---- a drifting node ----

  const RESIDENT_RUN: RunId := "r"

  function ResidentEvent(seqNo: nat, b: Body): Event {
    Event(seqNo, 0, RESIDENT_RUN, Some(DEFAULT_NODE), None, b)
  }

  /** Set running, then resumed as attempt 1: the resumption put the node back to pending. */
  function ResidentLog(): seq<Event> {
    [ResidentEvent(1, RunCreated(Some(RunSpec(Taskfleet, true, None)))), ResidentEvent(2, NodeCreated(Some(SPAWN))),
     ResidentEvent(3, NodeStatus(Some(Running))), ResidentEvent(4, Resumed(Some(1)))]
  }

  function ResidentManifest(seqNo: nat, count: nat): Manifest {
    Manifest(Pending, seqNo, count, Taskfleet, true, None, None)
  }

  function ResidentStore(seqNo: nat, n: Node): Store {
    Store(RESIDENT_RUN, Some(ResidentManifest(seqNo, 1)), map[DEFAULT_NODE := n])
  }

  function ResidentRunning(): Node { FreshNode(SPAWN).(status := Running) }

  function ResidentResumed(): Node { FreshNode(SPAWN).(retryAttempts := 1) }

  function ResidentCreated(): Store { Store(RESIDENT_RUN, Some(ResidentManifest(1, 0)), map[]) }

  /** The fold of each prefix of that log. */
  lemma ResidentFold()
    ensures var log := ResidentLog();
            && Fold(RESIDENT_RUN, log[..1]) == ResidentCreated()
            && Fold(RESIDENT_RUN, log[..2]) == ResidentStore(2, FreshNode(SPAWN))
            && Fold(RESIDENT_RUN, log[..3]) == ResidentStore(3, ResidentRunning())
            && Fold(RESIDENT_RUN, log) == ResidentStore(4, ResidentResumed())
  {
    ResidentFolds(ResidentLog());
  }

  lemma {:induction false} ResidentFolds(log: seq<Event>)
    requires log == ResidentLog()
    ensures Fold(RESIDENT_RUN, log[..1]) == ResidentCreated()
    ensures Fold(RESIDENT_RUN, log[..2]) == ResidentStore(2, FreshNode(SPAWN))
    ensures Fold(RESIDENT_RUN, log[..3]) == ResidentStore(3, ResidentRunning())
    ensures Fold(RESIDENT_RUN, log) == ResidentStore(4, ResidentResumed())
  {
    ResidentFoldsFirst(log);
    assert log[..4] == log;
    FoldUnfolds(RESIDENT_RUN, log, 3);
    FoldUnfolds(RESIDENT_RUN, log, 4);
    ResidentEnd(log[..2], log[..3]);
  }

  lemma {:induction false} ResidentFoldsFirst(log: seq<Event>)
    requires log == ResidentLog()
    ensures Fold(RESIDENT_RUN, log[..1]) == ResidentCreated()
    ensures Fold(RESIDENT_RUN, log[..2]) == ResidentStore(2, FreshNode(SPAWN))
  {
    assert log[..0] == [];
    FoldUnfolds(RESIDENT_RUN, log, 1);
    FoldUnfolds(RESIDENT_RUN, log, 2);
    ResidentStart(log[..0], log[..1]);
  }

  /** Each event is accepted where it stands, and follows the creation it needs. */
  lemma ResidentEventFits(i: nat)
    requires i < |ResidentLog()|
    ensures var log := ResidentLog();
            && PlanEvent(log[..i], Fold(RESIDENT_RUN, log[..i]), log[i]).Accepted?
            && FollowsCreation(RESIDENT_RUN, log, i)
  {
    ResidentFold();
    var log := ResidentLog();
    assert log[..0] == [];
    ResidentPlans(log[..i], i);
  }

  /** The store each event of that log finds. */
  function ResidentBefore(i: nat): Store {
    if i == 0 then EmptyStore(RESIDENT_RUN) else if i == 1 then ResidentCreated()
    else if i == 2 then ResidentStore(2, FreshNode(SPAWN)) else ResidentStore(3, ResidentRunning())
  }

  lemma ResidentPlans(pre: seq<Event>, i: nat)
    requires i < |ResidentLog()|
    ensures PlanEvent(pre, ResidentBefore(i), ResidentLog()[i]).Accepted?
    ensures i >= 2 ==> DEFAULT_NODE in ResidentBefore(i).nodes
  {}

  lemma ResidentEnd(l2: seq<Event>, l3: seq<Event>)
    ensures Step(l2, ResidentStore(2, FreshNode(SPAWN)), ResidentLog()[2]) == ResidentStore(3, ResidentRunning())
    ensures Step(l3, ResidentStore(3, ResidentRunning()), ResidentLog()[3]) == ResidentStore(4, ResidentResumed())
  {
    ResidentRuns(l2);
    ResidentResumes(l3);
  }

  lemma ResidentRuns(l2: seq<Event>)
    ensures Step(l2, ResidentStore(2, FreshNode(SPAWN)), ResidentLog()[2]) == ResidentStore(3, ResidentRunning())
  {
    ResidentPut(2, FreshNode(SPAWN), ResidentRunning());
    assert ResidentLog()[2] == ResidentEvent(3, NodeStatus(Some(Running)));
  }

  lemma ResidentResumes(l3: seq<Event>)
    ensures Step(l3, ResidentStore(3, ResidentRunning()), ResidentLog()[3]) == ResidentStore(4, ResidentResumed())
  {
    ResidentPut(3, ResidentRunning(), ResidentResumed());
    assert ResidentLog()[3] == ResidentEvent(4, Resumed(Some(1)));
  }

  /** One node write and its acknowledgement. */
  lemma ResidentPut(seqNo: nat, n: Node, m: Node)
    ensures Advance(Commit(ResidentStore(seqNo, n), [PutNode(DEFAULT_NODE, m)]), seqNo + 1) ==
            ResidentStore(seqNo + 1, m)
  {
    CommitOne(ResidentStore(seqNo, n), PutNode(DEFAULT_NODE, m));
    assert map[DEFAULT_NODE := n][DEFAULT_NODE := m] == map[DEFAULT_NODE := m];
  }

  lemma ResidentStart(l0: seq<Event>, l1: seq<Event>)
    ensures Step(l0, EmptyStore(RESIDENT_RUN), ResidentLog()[0]) == ResidentCreated()
    ensures Step(l1, ResidentCreated(), ResidentLog()[1]) == ResidentStore(2, FreshNode(SPAWN))
  {
    CommitOne(EmptyStore(RESIDENT_RUN), PutManifest(ResidentManifest(0, 0)));
    CommitTwo(ResidentCreated(), PutNode(DEFAULT_NODE, FreshNode(SPAWN)), PutManifest(ResidentManifest(1, 0)));
  }

  /** The re-fold of each event of that log, over the node as it ended. */
  lemma ResidentRefold(log: seq<Event>, k: nat, n: Node)
    requires k < 4 && n == FreshNode(SPAWN).(status := n.status, retryAttempts := 1) && !n.status.IsTerminal()
    ensures Step(log, ResidentStore(k, n), ResidentLog()[k]) ==
            ResidentStore(k + 1, if k == 2 then n.(status := Running) else n)
  {
    var st := ResidentStore(k, n);
    CommitNone(st);
    if k == 2 && n.status != Running { CommitOne(st, PutNode(DEFAULT_NODE, n.(status := Running))); }
  }

  /** Re-folding that log finds attempt 1 already recorded, skips the resumption, and leaves
      the node running; the log is one `LegacyMigrationExactly` speaks of. */
  lemma {:induction false} ResidentMigrationChangesStatus(log: seq<Event>)
    requires log == ResidentLog()
    ensures WellSeq(RESIDENT_RUN, log) && Admissible(RESIDENT_RUN, log) && Ordered(RESIDENT_RUN, log)
    ensures var s := Fold(RESIDENT_RUN, log);
            && s.manifest.Some? && s.nodes.Keys == {DEFAULT_NODE} && s.nodes[DEFAULT_NODE].status == Pending
            && var r := CatchUp(log, Unmarked(s));
               DEFAULT_NODE in r.nodes && r.nodes[DEFAULT_NODE].status == Running
  {
    ResidentFold();
    ResidentLogMeets();
    ResidentReplay(log);
    ResidentUnmarked();
  }

  lemma ResidentUnmarked()
    ensures Unmarked(ResidentStore(4, ResidentResumed())) == ResidentStore(0, ResidentResumed())
  {}

  lemma ResidentLogMeets()
    ensures var log := ResidentLog();
            WellSeq(RESIDENT_RUN, log) && Admissible(RESIDENT_RUN, log) && Ordered(RESIDENT_RUN, log)
  {
    forall i | 0 <= i < |ResidentLog()|
      ensures var log := ResidentLog();
              && PlanEvent(log[..i], Fold(RESIDENT_RUN, log[..i]), log[i]).Accepted?
              && FollowsCreation(RESIDENT_RUN, log, i)
    {
      ResidentEventFits(i);
    }
  }

  lemma ResidentReplay(log: seq<Event>)
    requires log == ResidentLog()
    ensures CatchUp(log, ResidentStore(0, ResidentResumed())) ==
            ResidentStore(4, ResidentResumed().(status := Running))
  {
    var n := ResidentResumed();
    var u := ResidentStore(0, n);
    ReplayOne(RESIDENT_RUN, log, u, 0);
    ReplayOne(RESIDENT_RUN, log, u, 1);
    ReplayOne(RESIDENT_RUN, log, u, 2);
    ReplayOne(RESIDENT_RUN, log, u, 3);
    ResidentRefold(log, 0, n);
    ResidentRefold(log, 1, n);
    ResidentRefold(log, 2, n);
    ResidentRefold(log, 3, n.(status := Running));
  }
}

/** The log-derived status fold agrees with the reducer, and what that buys. */
module LogFold {
  import opened Prelude
  import opened Schema
  import opened Report
  import opened NodeStatusFold
  import opened Reducer
  import opened ReducerLaws
  import opened Recovery

  /** Accepted event by event by the append gate. Open requests are exempt: they never bear
      on status. */
  ghost predicate Admissible(run: RunId, log: seq<Event>) {
    forall i {:trigger PlanEvent(log[..i], Fold(run, log[..i]), log[i])} :: 0 <= i < |log| ==>
      log[i].body.AwaitingInput? || PlanEvent(log[..i], Fold(run, log[..i]), log[i]).Accepted?
  }

  lemma AdmissiblePrefix(run: RunId, log: seq<Event>, i: nat)
    requires Admissible(run, log) && i <= |log|
    ensures Admissible(run, log[..i])
  {
    forall j | 0 <= j < i ensures log[..i][..j] == log[..j] {}
  }

  /** Same node set, same live/terminal split, same exact terminal status. */
  ghost predicate Agree(a: Acc, st: Store) {
    && a.status.Keys == st.nodes.Keys
    && forall id :: id in a.status ==> Agrees(a.status[id], st.nodes[id].status)
  }

  predicate Agrees(a: Status, b: Status) {
    a.IsTerminal() == b.IsTerminal() && (a.IsTerminal() ==> a == b)
  }

  lemma StepNodes(log: seq<Event>, st: Store, ev: Event)
    requires NodeLevel(ev.body)
    ensures Step(log, st, ev).nodes == Cut(log, st, ev, 2).nodes
  {
    if PlanEvent(log, st, ev).Accepted? {
      var ops := PlanEvent(log, st, ev).ops;
      if |ops| == 1 { CommitOne(st, ops[0]); }
    }
  }

  lemma NodeAgrees(st: Store, id: NodeId, n: Node, ev: Event, cur: Status)
    requires NodeLevel(ev.body) && Gate(st, id, ev.body, ev.runId) && Agrees(cur, n.status)
    requires ev.body.AwaitingInput? || !NodeChange(st, id, n, ev).Refuse?
    ensures Agrees(StatusAfter(cur, ev.body), After(n, NodeChange(st, id, n, ev)).status)
    ensures Adopts(cur, ev.body) <==> MergeReportFor(id, ev.(nodeId := Some(id))) && n.status != Cancelled
  {
    if ev.body.NodeReport? { SkimIsFaithful(ev.body.report); }
  }

  lemma ObserveAgrees(log: seq<Event>, a: Acc, st: Store, ev: Event)
    requires Agree(a, st) && (ev.body.AwaitingInput? || PlanEvent(log, st, ev).Accepted?)
    ensures Agree(Observe(a, ev), Step(log, st, ev))
  {
    if NodeLevel(ev.body) { ObserveNodeLevel(log, a, st, ev); } else { ObserveRunLevel(log, a, st, ev); }
  }

  lemma ObserveNodeLevel(log: seq<Event>, a: Acc, st: Store, ev: Event)
    requires Agree(a, st) && NodeLevel(ev.body) && (ev.body.AwaitingInput? || PlanEvent(log, st, ev).Accepted?)
    ensures Agree(Observe(a, ev), Step(log, st, ev))
  {
    StepNodes(log, st, ev);
    CutReaching(log, st, ev, 2);
    if Reaches(st, ev) {
      var id := ev.nodeId.value;
      NodeAgrees(st, id, st.nodes[id], ev, a.status[id]);
    } else if ev.nodeId.Some? && ev.nodeId.value in st.nodes {
      UnreachedAgrees(log, st, ev);
    }
  }

  /** A node an admitted event does not reach keeps its status in the log fold too. */
  lemma UnreachedAgrees(log: seq<Event>, st: Store, ev: Event)
    requires NodeLevel(ev.body) && (ev.body.AwaitingInput? || PlanEvent(log, st, ev).Accepted?)
    requires ev.nodeId.Some? && ev.nodeId.value in st.nodes && !Reaches(st, ev)
    ensures ev.body.AwaitingInput?
  {}

  lemma ObserveRunLevel(log: seq<Event>, a: Acc, st: Store, ev: Event)
    requires Agree(a, st) && !NodeLevel(ev.body) && PlanEvent(log, st, ev).Accepted?
    ensures Agree(Observe(a, ev), Step(log, st, ev))
  {
    if ev.body.NodeCreated? {
      ObserveCreated(log, a, st, ev);
    } else {
      ManifestOnly(log, st, ev);
    }
  }

  lemma ObserveCreated(log: seq<Event>, a: Acc, st: Store, ev: Event)
    requires Agree(a, st) && ev.body.NodeCreated? && PlanEvent(log, st, ev).Accepted?
    ensures Agree(Observe(a, ev), Step(log, st, ev))
  {
    CreatedNodes(log, st, ev);
  }

  /** The status fold refines the reducer on every log the append gate accepts, although it
      ignores retries and resumptions. */
  lemma {:induction false} LogFoldRefinesReducer(run: RunId, log: seq<Event>)
    requires Admissible(run, log)
    ensures Agree(FoldStatus(log), Fold(run, log))
  {
    if log != [] {
      var n := |log| - 1;
      AdmissiblePrefix(run, log, n);
      LogFoldRefinesReducer(run, log[..n]);
      ObserveAgrees(log[..n], FoldStatus(log[..n]), Fold(run, log[..n]), log[n]);
    }
  }

  // ---- adopted merge reports ----

  /** The log creates the node. */
  ghost predicate Created(log: seq<Event>, id: NodeId) {
    exists k :: 0 <= k < |log| && log[k].nodeId == Some(id) && log[k].body.NodeCreated?
  }

  lemma {:induction false} KnownIsCreated(log: seq<Event>, id: NodeId)
    ensures id in FoldStatus(log).status <==> Created(log, id)
  {
    if log != [] {
      var init, ev := log[..|log| - 1], log[|log| - 1];
      KnownIsCreated(init, id);
      if Created(init, id) {
        var k :| 0 <= k < |init| && init[k].nodeId == Some(id) && init[k].body.NodeCreated?;
        assert log[k] == init[k];
      }
      if k :| 0 <= k < |log| && log[k].nodeId == Some(id) && log[k].body.NodeCreated? {
        if k < |init| { assert init[k] == log[k]; }
      }
    }
  }

  /** Event `k` gives the node this status: its creation, or a `node.status` after it. */
  ghost predicate GivesStatus(log: seq<Event>, id: NodeId, k: nat, s: Status) {
    && k < |log| && log[k].nodeId == Some(id)
    && if log[k].body.NodeCreated? then s == Pending && !Created(log[..k], id)
       else log[k].body == NodeStatus(Some(s)) && Created(log[..k], id)
  }

  predicate Restates(ev: Event, id: NodeId) {
    ev.nodeId == Some(id) && ev.body.NodeStatus? && ev.body.nodeStatus.Some?
  }

  /** A node that is live in the status fold has the status last given to it. */
  lemma {:induction false} LiveStatusIsLast(log: seq<Event>, id: NodeId)
    requires id in FoldStatus(log).status && !FoldStatus(log).status[id].IsTerminal()
    ensures exists k: nat :: GivesStatus(log, id, k, FoldStatus(log).status[id])
              && forall j :: k < j < |log| ==> !Restates(log[j], id)
  {
    var n := |log| - 1;
    var init, ev, s := log[..n], log[n], FoldStatus(log).status[id];
    KnownIsCreated(init, id);
    if id in FoldStatus(init).status && !Restates(ev, id) {
      LiveStatusIsLast(init, id);
      var k: nat :| GivesStatus(init, id, k, s) && forall j :: k < j < n ==> !Restates(init[j], id);
      assert log[k] == init[k] && log[..k] == init[..k];
      assert GivesStatus(log, id, k, s);
      forall j | k < j < |log| ensures !Restates(log[j], id) { if j < n { assert log[j] == init[j]; } }
    } else {
      assert GivesStatus(log, id, n, s);
    }
  }

  /** Event `k` is the first to create the node. */
  ghost predicate FirstCreation(log: seq<Event>, id: NodeId, k: nat) {
    k < |log| && log[k].nodeId == Some(id) && log[k].body.NodeCreated? && !Created(log[..k], id)
  }

  /** The node order of the status fold is the order of first creation. */
  lemma {:induction false} OrderIsCreation(log: seq<Event>, i: nat, j: nat, p: nat, q: nat)
    requires i < j < |FoldStatus(log).order|
    requires FirstCreation(log, FoldStatus(log).order[i], p) && FirstCreation(log, FoldStatus(log).order[j], q)
    ensures p < q
  {
    var n := |log| - 1;
    var init, order := log[..n], FoldStatus(log).order;
    FoldIsCoherent(init);
    FoldIsCoherent(log);
    assert order[i] != order[j];
    KnownIsCreated(init, order[i]);
    KnownIsCreated(init, order[j]);
    assert init[..p] == log[..p] || p == n;
    assert init[..q] == log[..q] || q == n;
    if p < n && q < n {
      assert init[p] == log[p] && init[q] == log[q];
      OrderKept(log, order[i], p);
      OrderKept(log, order[j], q);
      OrderIsCreation(init, i, j, p, q);
    }
  }

  /** A node created earlier is in the order before the last event. */
  lemma {:induction false} OrderKept(log: seq<Event>, id: NodeId, p: nat)
    requires p < |log| - 1 && FirstCreation(log, id, p)
    ensures id in FoldStatus(log[..|log| - 1]).order
  {
    var init := log[..|log| - 1];
    assert init[p] == log[p];
    KnownIsCreated(init, id);
    FoldIsCoherent(init);
  }

  /** The report at sequence `w` is a confirmed merge of a node that existed by then. */
  ghost predicate AdoptedAt(log: seq<Event>, id: NodeId, w: nat) {
    1 <= w <= |log| && MergeReportFor(id, log[w - 1]) && Created(log[..w - 1], id)
  }

  ghost predicate LastAdopted(log: seq<Event>, id: NodeId, w: nat) {
    AdoptedAt(log, id, w) && forall v :: w < v <= |log| ==> !AdoptedAt(log, id, v)
  }

  lemma AdoptedPrefix(log: seq<Event>, id: NodeId)
    requires |log| > 0
    ensures forall w :: 1 <= w < |log| ==> (AdoptedAt(log, id, w) <==> AdoptedAt(log[..|log| - 1], id, w))
  {
    var init := log[..|log| - 1];
    forall w | 1 <= w < |log| ensures AdoptedAt(log, id, w) <==> AdoptedAt(init, id, w) {
      assert log[..w - 1] == init[..w - 1] && log[w - 1] == init[w - 1];
    }
  }

  lemma AdoptsExactly(cur: Status, id: NodeId, ev: Event)
    requires ev.nodeId == Some(id)
    ensures Adopts(cur, ev.body) <==> MergeReportFor(id, ev) && cur != Cancelled
  {
    if ev.body.NodeReport? { SkimIsFaithful(ev.body.report); }
  }

  /** One event either adopts a merge for the node or leaves its record alone. */
  lemma ObserveMerged(a: Acc, ev: Event, id: NodeId)
    requires id in a.status && id in Observe(a, ev).status && Observe(a, ev).status[id] != Cancelled
    ensures a.status[id] != Cancelled
    ensures Lookup(Observe(a, ev).merged, id) ==
            if MergeReportFor(id, ev) then Some(ev.seqNo) else Lookup(a.merged, id)
  {
    if ev.nodeId == Some(id) { AdoptsExactly(a.status[id], id, ev); }
  }

  /** Over every log: for a node that is not cancelled the status fold records exactly the last
      adopted merge. */
  lemma {:induction false} MergedIsLastAdopted(run: RunId, log: seq<Event>, id: NodeId, w: nat)
    requires WellSeq(run, log) && id in FoldStatus(log).status && FoldStatus(log).status[id] != Cancelled
    ensures Lookup(FoldStatus(log).merged, id) == Some(w) <==> LastAdopted(log, id, w)
  {
    var n := |log| - 1;
    KnownIsCreated(log[..n], id);
    if id in FoldStatus(log[..n]).status {
      ObserveMerged(FoldStatus(log[..n]), log[n], id);
      MergedIsLastAdopted(run, log[..n], id, w);
      LastAdoptedStep(log, id, w);
    } else {
      NotYetMerged(log, id);
    }
  }

  lemma LastAdoptedStep(log: seq<Event>, id: NodeId, w: nat)
    requires |log| > 0
    ensures LastAdopted(log, id, w) <==>
            if AdoptedAt(log, id, |log|) then w == |log| else LastAdopted(log[..|log| - 1], id, w)
  {
    AdoptedPrefix(log, id);
    var init := log[..|log| - 1];
    if !AdoptedAt(log, id, |log|) {
      if LastAdopted(init, id, w) {
        forall v | w < v <= |log| ensures !AdoptedAt(log, id, v) {
          if v < |log| { assert !AdoptedAt(init, id, v); }
        }
      }
      if LastAdopted(log, id, w) {
        forall v | w < v <= |init| ensures !AdoptedAt(init, id, v) { assert !AdoptedAt(log, id, v); }
      }
    }
  }

  /** A node its last event creates has adopted nothing. */
  lemma {:induction false} NotYetMerged(log: seq<Event>, id: NodeId)
    requires |log| > 0 && id in FoldStatus(log).status && id !in FoldStatus(log[..|log| - 1]).status
    ensures id !in FoldStatus(log).merged && forall v: nat :: !AdoptedAt(log, id, v)
  {
    var init := log[..|log| - 1];
    FoldIsCoherent(init);
    KnownIsCreated(init, id);
    forall v: nat ensures !AdoptedAt(log, id, v) {
      if 1 <= v <= |log| { CreatedGrows(log, v - 1, |log| - 1, id); }
    }
  }

  lemma CreatedGrows(log: seq<Event>, i: nat, j: nat, id: NodeId)
    requires i <= j <= |log|
    ensures Created(log[..i], id) ==> Created(log[..j], id)
  {
    if k :| 0 <= k < i && log[..i][k].nodeId == Some(id) && log[..i][k].body.NodeCreated? {
      assert log[..j][k] == log[..i][k];
    }
  }

  /** Some node of the store adopted the report at sequence `w` last. */
  ghost predicate NamesAdopted(log: seq<Event>, st: Store, w: nat) {
    exists id :: id in st.nodes && LastAdopted(log, id, w)
  }

  ghost predicate AllDone(st: Store) {
    st.nodes != map[] && forall id :: id in st.nodes ==> st.nodes[id].status == Done
  }

  /** The verdict, read off any projections that agree with the log: every node is Done, and the
      named report is the last merge one of them adopted. */
  lemma {:induction false} VerdictMeaning(log: seq<Event>, st: Store, w: nat)
    requires WellSeq(st.run, log) && Agree(FoldStatus(log), st)
    ensures RecoveryVerdict(log, |log| + 1, w) <==> AllDone(st) && NamesAdopted(log, st, w)
  {
    BeforeBelow(st.run, log, |log| + 1);
    NodeIdsAreTheNodes(log);
    assert NodeStatusFacts(log, Some(|log| + 1)) == FactsOf(FoldStatus(log), NodeIds(log));
    AllDoneAggregates(log, st);
    if AllDone(st) { FactsNameAdopted(log, st, w); }
  }

  /** Once every node is Done, the facts name a merge exactly when some node adopted it last. */
  lemma {:induction false} FactsNameAdopted(log: seq<Event>, st: Store, w: nat)
    requires WellSeq(st.run, log) && Agree(FoldStatus(log), st) && AllDone(st)
    requires forall id :: id in NodeIds(log) <==> id in FoldStatus(log).status
    ensures var facts := FactsOf(FoldStatus(log), NodeIds(log));
            (exists i :: 0 <= i < |facts| && facts[i].merged == Some(w)) <==> NamesAdopted(log, st, w)
  {
    var a, ids := FoldStatus(log), NodeIds(log);
    var facts := FactsOf(a, ids);
    if i :| 0 <= i < |facts| && facts[i].merged == Some(w) {
      assert ids[i] in st.nodes;
      MergedIsLastAdopted(st.run, log, ids[i], w);
    }
    if id :| id in st.nodes && LastAdopted(log, id, w) {
      MergedIsLastAdopted(st.run, log, id, w);
      var i :| 0 <= i < |ids| && ids[i] == id;
      assert facts[i].merged == Some(w);
    }
  }

  lemma AggregateDone(ss: seq<Status>)
    ensures Aggregate(ss) == Some(Done) <==> ss != [] && forall i :: 0 <= i < |ss| ==> ss[i] == Done
  {
    if Aggregate(ss) == Some(Done) {
      forall i | 0 <= i < |ss| ensures ss[i] == Done { assert ss[i].IsTerminal() && ss[i] in ss; }
    }
  }

  lemma {:induction false} AllDoneAggregates(log: seq<Event>, st: Store)
    requires Agree(FoldStatus(log), st)
    requires forall id :: id in NodeIds(log) <==> id in FoldStatus(log).status
    ensures AllDone(st) <==> Aggregate(Statuses(FactsOf(FoldStatus(log), NodeIds(log)))) == Some(Done)
  {
    var a, ids := FoldStatus(log), NodeIds(log);
    AggregateDone(Statuses(FactsOf(a, ids)));
    DoneStatuses(a, ids);
    if AllDone(st) {
      var id :| id in st.nodes;
      assert id in ids;
    }
    forall id | id in a.status ensures a.status[id] == Done <==> st.nodes[id].status == Done {
      assert Agrees(a.status[id], st.nodes[id].status);
    }
  }

  lemma {:induction false} DoneStatuses(a: Acc, ids: seq<NodeId>)
    requires forall id :: id in ids <==> id in a.status
    ensures var ss := Statuses(FactsOf(a, ids));
            (forall i :: 0 <= i < |ss| ==> ss[i] == Done) <==> (forall id :: id in a.status ==> a.status[id] == Done)
  {
    var ss := Statuses(FactsOf(a, ids));
    forall i | 0 <= i < |ids| ensures ids[i] in a.status && ss[i] == a.status[ids[i]] { assert ids[i] in ids; }
    if forall i :: 0 <= i < |ss| ==> ss[i] == Done {
      forall id | id in a.status ensures a.status[id] == Done {
        var i :| 0 <= i < |ids| && ids[i] == id;
        assert ss[i] == Done;
      }
    }
  }

  /** The event asks a failed run whose store is `st` to become Done, and may. */
  ghost predicate Deserved(log: seq<Event>, st: Store, b: Body) {
    && b.RunStatus? && b.runStatus == Some(Done) && b.childrenSuccessful && b.recoverySeq.Some?
    && AllDone(st) && NamesAdopted(log, st, b.recoverySeq.value)
  }

  /** A run leaves Failed exactly when the event attests its children, asks for Done, every
      node created earlier is Done and the named sequence is the last merge report adopted by
      one of them; it then becomes Done. This holds of any projections that agree with the log,
      and over any longer log the event is planned alike. */
  lemma {:induction false} FailedRunRecovery(log: seq<Event>, st: Store, ev: Event, longer: seq<Event>, later: Store)
    requires WellSeq(st.run, log) && Agree(FoldStatus(log), st) && ev.seqNo == |log| + 1 && ev.runId == st.run
    requires st.manifest.Some? && st.manifest.value.status == Failed
    requires WellSeq(st.run, longer) && log + [ev] <= longer
    ensures var after := Step(log, st, ev);
            after.manifest.Some? && after.manifest.value.status == if Deserved(log, st, ev.body) then Done else Failed
    ensures PlanEvent(longer, later, ev) == PlanEvent(log, later, ev)
  {
    StepRunStatus(log, st, ev);
    if ev.body.RunStatus? && ev.body.recoverySeq.Some? { VerdictMeaning(log, st, ev.body.recoverySeq.value); }
    assert longer[..|log|] == log && longer[|log|] == ev;
    PlanIsStable(st.run, longer, later, |log|);
  }
}

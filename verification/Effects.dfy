/** What each event does once it is accepted, and exactly when it is: the positive half of the
    reducer, kind by kind, in terms of the node before and the node after. */
module Effects {
  import opened Prelude
  import opened Json
  import opened Schema
  import opened Report
  import opened Reducer
  import opened ReducerLaws
  import opened Recovery
  import opened CrashSafety

  /** The event is addressed to an existing node of the run. */
  predicate To(st: Store, ev: Event, id: NodeId) {
    ev.runId == st.run && ev.nodeId == Some(id) && id in st.nodes
  }

  predicate Accepts(log: seq<Event>, st: Store, ev: Event) { PlanEvent(log, st, ev).Accepted? }

  /** The node the event leaves. */
  ghost function Left(log: seq<Event>, st: Store, ev: Event, id: NodeId): Node
    requires id in st.nodes
  {
    StepEvolves(log, st, ev);
    Step(log, st, ev).nodes[id]
  }

  /** Nothing but this node, the watermark and the node count moved. */
  ghost predicate OnlyNode(log: seq<Event>, st: Store, ev: Event, id: NodeId)
    requires id in st.nodes
  {
    var s := Step(log, st, ev);
    s.run == st.run && s.nodes == st.nodes[id := Left(log, st, ev, id)] && SameManifest(s.manifest, st.manifest)
  }

  /** A node-level event in general: the change its reducer plans is what it leaves. */
  lemma NodeLands(log: seq<Event>, st: Store, ev: Event, id: NodeId)
    requires To(st, ev, id) && NodeLevel(ev.body)
    ensures Accepts(log, st, ev) <==>
            Gate(st, id, ev.body, ev.runId) && !NodeChange(st, id, st.nodes[id], ev).Refuse?
    ensures Accepts(log, st, ev) ==> Left(log, st, ev, id) == After(st.nodes[id], NodeChange(st, id, st.nodes[id], ev))
    ensures OnlyNode(log, st, ev, id)
  {
    PlanIsNodePlan(log, st, ev);
    if Accepts(log, st, ev) {
      StepReaching(log, st, ev);
      CutReaching(log, st, ev, 2);
      CutIsCommit(log, st, ev);
    } else {
      assert st.nodes[id := st.nodes[id]] == st.nodes;
    }
  }

  /** A node-level event for a node that does not exist is a no-op if it is well formed; the Pi
      kinds refuse it. */
  lemma MissingNode(log: seq<Event>, st: Store, ev: Event, id: NodeId)
    requires ev.runId == st.run && ev.nodeId == Some(id) && id !in st.nodes && NodeLevel(ev.body)
    ensures Accepts(log, st, ev) <==> Gate(st, id, ev.body, ev.runId) && !ev.body.PiBound? && !ev.body.PiTransition?
    ensures Step(log, st, ev).nodes == st.nodes && SameManifest(Step(log, st, ev).manifest, st.manifest)
  {
    PlanIsNodePlan(log, st, ev);
    if Accepts(log, st, ev) { CommitNone(st); }
  }

  // ---- status and report ----

  lemma StatusLands(log: seq<Event>, st: Store, ev: Event, id: NodeId)
    requires To(st, ev, id) && ev.body.NodeStatus?
    ensures Accepts(log, st, ev) <==> ev.body.nodeStatus.Some?
    ensures OnlyNode(log, st, ev, id)
    ensures Accepts(log, st, ev) ==>
              var n, m, s := st.nodes[id], Left(log, st, ev, id), ev.body.nodeStatus.value;
              && m == n.(status := m.status, pendingMerge := m.pendingMerge, awaiting := m.awaiting)
              && m.status == (if n.status.IsTerminal() then n.status else s)
              && (if !n.status.IsTerminal() && s.IsTerminal() then m.pendingMerge.None? && m.awaiting.None?
                  else m.pendingMerge == n.pendingMerge && m.awaiting == n.awaiting)
  {
    NodeLands(log, st, ev, id);
  }

  /** A confirmed merge of a node that failed or is done. */
  predicate LateMerge(n: Node, report: Fields) {
    n.status in {Failed, Done} && ConfirmedMerge(report)
  }

  lemma ReportLands(log: seq<Event>, st: Store, ev: Event, id: NodeId)
    requires To(st, ev, id) && ev.body.NodeReport?
    ensures Accepts(log, st, ev) <==> st.nodes[id].status.IsTerminal() || StrictOutcome(ev.body.report).Some?
    ensures OnlyNode(log, st, ev, id)
    ensures Accepts(log, st, ev) ==>
              var n, m, r := st.nodes[id], Left(log, st, ev, id), ev.body.report;
              && m == n.(status := m.status, lastReport := m.lastReport, pendingMerge := m.pendingMerge,
                         awaiting := m.awaiting)
              && (if n.status.IsTerminal() && !LateMerge(n, r) then m == n
                  else
                    && m.lastReport == Some(r) && Some(m.status) == StrictOutcome(r)
                    && (if n.lastReport == Some(r) && n.status == Done then m == n
                        else m.pendingMerge.None? && m.awaiting.None?))
  {
    NodeLands(log, st, ev, id);
    SkimIsFaithful(ev.body.report);
  }

  // ---- retry, exit, death ----

  /** The attempt a retry of attempt `was` is: its own number cut to 32 bits, or one more up to the
      largest 32-bit number. */
  predicate NextAttempt(was: nat, attempt: Option<nat>, now: nat) {
    match attempt
    case Some(a) => now <= 0xFFFF_FFFF && now <= a && (a - now) % 0x1_0000_0000 == 0
    case None => now == if was < 0xFFFF_FFFF then was + 1 else was
  }

  lemma RetryLands(log: seq<Event>, st: Store, ev: Event, id: NodeId)
    requires To(st, ev, id) && ev.body.NodeRetry?
    ensures Accepts(log, st, ev) <==> st.nodes[id].status.IsTerminal() || ev.body.respawn.Some?
    ensures OnlyNode(log, st, ev, id)
    ensures Accepts(log, st, ev) && st.nodes[id].status.IsTerminal() ==> Left(log, st, ev, id) == st.nodes[id]
    ensures Accepts(log, st, ev) && !st.nodes[id].status.IsTerminal() ==>
              var n, m, sp := st.nodes[id], Left(log, st, ev, id), ev.body.respawn.value;
              && m.branch == sp.branch && m.worktree == sp.worktree && m.status == Pending
              && m.lastReport.None? && m.workerExit.None? && m.firstDeathAt.None?
              && m.pendingMerge.None? && m.awaiting.None?
              && NextAttempt(n.retryAttempts, ev.body.attempt, m.retryAttempts)
              && m.piSession == n.piSession && m.piLifecycle == n.piLifecycle
  {
    NodeLands(log, st, ev, id);
  }

  /** An exit fact as the reducer takes it: 32-bit attempt, exactly one of code and signal. */
  predicate WellFormedExit(x: Option<ExitFact>) {
    x.Some? && x.value.attempt <= 0xFFFF_FFFF && (x.value.code.Some? <==> x.value.signal.None?)
  }

  lemma ExitLands(log: seq<Event>, st: Store, ev: Event, id: NodeId)
    requires To(st, ev, id) && ev.body.WorkerExited?
    ensures Accepts(log, st, ev) <==> WellFormedExit(ev.body.exit)
    ensures OnlyNode(log, st, ev, id)
    ensures Accepts(log, st, ev) ==>
              var n, m, x := st.nodes[id], Left(log, st, ev, id), ev.body.exit.value;
              if x.attempt == n.retryAttempts && n.workerExit.None? then
                && m.workerExit == Some(WorkerExit(x.code, x.signal, ev.ts)) && m.awaiting.None?
                && m == n.(workerExit := m.workerExit, awaiting := m.awaiting)
              else m == n
  {
    NodeLands(log, st, ev, id);
  }

  lemma DeathLands(log: seq<Event>, st: Store, ev: Event, id: NodeId)
    requires To(st, ev, id) && ev.body.DeathObserved?
    ensures Accepts(log, st, ev) && OnlyNode(log, st, ev, id)
    ensures var n, m := st.nodes[id], Left(log, st, ev, id);
            && m == n.(firstDeathAt := m.firstDeathAt)
            && m.firstDeathAt ==
               if n.firstDeathAt.None? && !n.status.IsTerminal() && n.workerExit.None? && n.lastReport.None?
                  && n.pendingMerge.None?
               then Some(ev.ts) else n.firstDeathAt
  {
    NodeLands(log, st, ev, id);
  }

  // ---- open requests ----

  /** A question a human can answer: a topic of at most 512 characters, one to sixteen options of
      at most 256, none blank, and one of them is the default. */
  predicate Answerable(i: Item) {
    && !Blank(i.topic) && |i.topic| <= 512 && !Blank(i.default)
    && 0 < |i.options| <= 16
    && (forall k :: 0 <= k < |i.options| ==> !Blank(i.options[k]) && |i.options[k]| <= 256)
    && exists k :: 0 <= k < |i.options| && i.options[k] == i.default
  }

  predicate WellFormedRequest(items: Option<seq<Item>>) {
    && items.Some? && 0 < |items.value| <= 8
    && forall k :: 0 <= k < |items.value| ==> Answerable(items.value[k])
  }

  lemma AnswerableIsValid(i: Item)
    ensures ValidItem(i) <==> Answerable(i)
  {
    if ValidItem(i) {
      forall k | 0 <= k < |i.options| ensures !Blank(i.options[k]) && |i.options[k]| <= 256 {
        assert i.options[k] in i.options;
      }
    }
  }

  lemma RequestIsValid(items: seq<Item>)
    ensures ValidItems(items) <==> WellFormedRequest(Some(items))
  {
    forall i ensures ValidItem(i) <==> Answerable(i) { AnswerableIsValid(i); }
    if ValidItems(items) {
      forall k | 0 <= k < |items| ensures Answerable(items[k]) { assert items[k] in items; }
    }
  }

  function OpenItems(n: Node): seq<Item> { if n.awaiting.Some? then n.awaiting.value.items else [] }

  lemma RequestLands(log: seq<Event>, st: Store, ev: Event, id: NodeId)
    requires To(st, ev, id) && ev.body.AwaitingInput?
    ensures var n := st.nodes[id];
            Accepts(log, st, ev) <==>
              && WellFormedRequest(ev.body.items)
              && (n.status.IsTerminal() || n.workerExit.Some? || |OpenItems(n)| + |ev.body.items.value| <= 8
                  || n.awaiting.None?)
    ensures OnlyNode(log, st, ev, id)
    ensures Accepts(log, st, ev) ==>
              var n, m := st.nodes[id], Left(log, st, ev, id);
              if n.status.IsTerminal() || n.workerExit.Some? then m == n
              else
                && m.awaiting.Some? && m == n.(awaiting := m.awaiting)
                && m.awaiting.value.items == OpenItems(n) + ev.body.items.value
                && m.awaiting.value.openedAt == (if n.awaiting.Some? then n.awaiting.value.openedAt else ev.ts)
                && m.awaiting.value.eventSeq == (if n.awaiting.Some? then n.awaiting.value.eventSeq else ev.seqNo)
  {
    NodeLands(log, st, ev, id);
    if ev.body.items.Some? {
      RequestIsValid(ev.body.items.value);
      assert [] + ev.body.items.value == ev.body.items.value;
    }
  }

  lemma ResolvedLands(log: seq<Event>, st: Store, ev: Event, id: NodeId)
    requires To(st, ev, id) && ev.body.InputResolved?
    ensures Accepts(log, st, ev) <==> ev.body.eventSeq.Some?
    ensures OnlyNode(log, st, ev, id)
    ensures Accepts(log, st, ev) ==>
              var n, m := st.nodes[id], Left(log, st, ev, id);
              && m == n.(awaiting := m.awaiting)
              && m.awaiting == if n.awaiting.Some? && n.awaiting.value.eventSeq == ev.body.eventSeq.value then None
                               else n.awaiting
  {
    NodeLands(log, st, ev, id);
  }

  // ---- resident rounds ----

  predicate Resident(st: Store) { st.manifest.Some? && st.manifest.value.resident }

  lemma ResumedLands(log: seq<Event>, st: Store, ev: Event, id: NodeId)
    requires To(st, ev, id) && ev.body.Resumed?
    ensures Accepts(log, st, ev) <==>
            Resident(st) && ev.body.resumeAttempt.Some? && ev.body.resumeAttempt.value <= 0xFFFF_FFFF
    ensures OnlyNode(log, st, ev, id)
    ensures Accepts(log, st, ev) ==>
              var n, m, a := st.nodes[id], Left(log, st, ev, id), ev.body.resumeAttempt.value;
              if n.status.IsTerminal() || a <= n.retryAttempts then m == n
              else
                && m.status == Pending && m.retryAttempts == a && m.workerExit.None? && m.firstDeathAt.None?
                && m.awaiting.None? && m.pendingMerge.None?
                && m.branch == n.branch && m.worktree == n.worktree && m.lastReport == n.lastReport
                && m.piSession == n.piSession && m.piLifecycle == n.piLifecycle
  {
    NodeLands(log, st, ev, id);
  }

  lemma RoundReportedLands(log: seq<Event>, st: Store, ev: Event, id: NodeId)
    requires To(st, ev, id) && ev.body.RoundReported?
    ensures Accepts(log, st, ev) <==>
            Resident(st) && ev.body.roundAttempt.Some? && ev.body.roundAttempt.value <= 0xFFFF_FFFF
    ensures OnlyNode(log, st, ev, id)
    ensures Accepts(log, st, ev) ==>
              var n, m := st.nodes[id], Left(log, st, ev, id);
              && m == n.(awaiting := m.awaiting)
              && m.awaiting == if !n.status.IsTerminal() && n.retryAttempts == ev.body.roundAttempt.value then None
                               else n.awaiting
  {
    NodeLands(log, st, ev, id);
  }

  lemma RoundLandedLands(log: seq<Event>, st: Store, ev: Event, id: NodeId)
    requires To(st, ev, id) && ev.body.RoundLanded?
    ensures Accepts(log, st, ev) <==> Resident(st) && ev.body.landedOp.Some?
    ensures OnlyNode(log, st, ev, id)
    ensures Accepts(log, st, ev) ==>
              var n, m := st.nodes[id], Left(log, st, ev, id);
              && m == n.(pendingMerge := m.pendingMerge)
              && m.pendingMerge == if !n.status.IsTerminal() && LandsMerge(n, ev.body.landedOp.value) then None
                                   else n.pendingMerge
  {
    NodeLands(log, st, ev, id);
  }

  predicate LandsMerge(n: Node, op: string) {
    n.pendingMerge.Some? && n.pendingMerge.value.landing && n.pendingMerge.value.opId == op
  }

  // ---- merges ----

  /** A transaction of a caller-owned run carries the recorded merge intent of its node and the
      run's source branch. */
  predicate CarriesIntent(m: Manifest, id: NodeId, t: MergeTxn) {
    && m.intent.Some? && m.intent.value.operation == OpMerge && m.intent.value.nodeId == id
    && t.link.Some? && t.link.value.intentSeq == m.intent.value.seqNo && t.link.value.intentKey == m.intent.value.key
    && t.link.value.writerDev == m.intent.value.writerDev && t.link.value.writerIno == m.intent.value.writerIno
    && (match m.sourceBranch case Some(b) => t.sourceBranch == b case None => t.sourceBranch == "")
  }

  /** The generation of the node's latest launch, zero before the first. */
  function LaunchesOf(n: Node): nat {
    match n.piLifecycle case None => 0 case Some(l) => l.generation
  }

  /** The node can take it: its branch and generation are those of the transaction and intent. */
  predicate FitsWorker(m: Manifest, n: Node, t: MergeTxn)
    requires m.intent.Some?
  {
    n.branch == Some(t.workerBranch) && LaunchesOf(n) == m.intent.value.generation
  }

  predicate MayStart(st: Store, id: NodeId, t: MergeTxn)
    requires id in st.nodes
  {
    && st.manifest.Some?
    && match st.manifest.value.owner
       case Taskfleet => t.link.None?
       case Caller =>
         && CarriesIntent(st.manifest.value, id, t) && st.manifest.value.intent.value.runId == st.run
         && FitsWorker(st.manifest.value, st.nodes[id], t)
  }

  /** A settled node takes one only to repair the single failed node of a failed caller-owned
      run. */
  predicate OpenToMerge(st: Store, id: NodeId)
    requires id in st.nodes
  {
    || !st.nodes[id].status.IsTerminal()
    || ( && st.manifest.Some? && st.manifest.value.owner == Caller && st.manifest.value.status == Failed
         && st.manifest.value.nodeCount == 1 && st.nodes[id].status == Failed)
  }

  predicate PendingOp(n: Node, op: string) { n.pendingMerge.Some? && n.pendingMerge.value.opId == op }

  /** An accepted start leaves a merge under its operation id pending: its own transaction, unless
      that operation was pending already. */
  lemma MergeLands(log: seq<Event>, st: Store, ev: Event, id: NodeId)
    requires To(st, ev, id) && ev.body.MergeStarted?
    ensures Accepts(log, st, ev) <==> ev.body.txn.Some? && MayStart(st, id, ev.body.txn.value)
    ensures OnlyNode(log, st, ev, id)
    ensures Accepts(log, st, ev) ==>
              var n, m, t := st.nodes[id], Left(log, st, ev, id), ev.body.txn.value;
              && m == n.(pendingMerge := m.pendingMerge)
              && (if OpenToMerge(st, id)
                  then PendingOp(m, t.opId) && (m.pendingMerge == Some(t) || (PendingOp(n, t.opId) && m == n))
                       && (!PendingOp(n, t.opId) ==> m.pendingMerge == Some(t))
                  else m == n)
  {
    NodeLands(log, st, ev, id);
  }

  lemma AbortLands(log: seq<Event>, st: Store, ev: Event, id: NodeId)
    requires To(st, ev, id) && ev.body.MergeAborted?
    ensures Accepts(log, st, ev) <==> ev.body.abortedOp.Some?
    ensures OnlyNode(log, st, ev, id)
    ensures Accepts(log, st, ev) ==>
              var n, m := st.nodes[id], Left(log, st, ev, id);
              && m == n.(pendingMerge := m.pendingMerge)
              && m.pendingMerge == if PendingOp(n, ev.body.abortedOp.value) then None else n.pendingMerge
  {
    NodeLands(log, st, ev, id);
  }

  // ---- caller Pi sessions ----

  predicate CallerRun(st: Store) { st.manifest.Some? && st.manifest.value.owner == Caller }

  /** A binding that names the node's own worktree and says which session file. */
  predicate WellFormedBinding(n: Node, b: PiSession) {
    b.cwd != "" && b.id != "" && b.path != "" && n.worktree == Some(b.cwd)
  }

  /** It takes up the reservation of this node: same id and generation, no other file, and the
      launch still reserved or started. */
  predicate TakesUp(l: PiLifecycle, b: PiSession) {
    && l.id == b.id && b.generation == Some(l.generation) && (l.path.None? || l.path == Some(b.path))
    && (l.state == Reserved || l.state == Started)
  }

  lemma BindingLands(log: seq<Event>, st: Store, ev: Event, id: NodeId)
    requires To(st, ev, id) && ev.body.PiBound?
    ensures var n, p := st.nodes[id], ev.body.binding;
            Accepts(log, st, ev) <==>
              && CallerRun(st) && p.Some? && WellFormedBinding(n, p.value)
              && (n.piSession == p || ( && n.piSession.None?
                                        && if n.piLifecycle.Some? then TakesUp(n.piLifecycle.value, p.value)
                                           else p.value.generation.None?))
    ensures OnlyNode(log, st, ev, id)
    ensures Accepts(log, st, ev) ==>
              var n, m := st.nodes[id], Left(log, st, ev, id);
              && m.piSession == ev.body.binding && m == n.(piSession := m.piSession, piLifecycle := m.piLifecycle)
              && (if n.piSession.Some? || n.piLifecycle.None? then m.piLifecycle == n.piLifecycle
                  else m.piLifecycle == Some(n.piLifecycle.value.(path := Some(ev.body.binding.value.path))))
  {
    NodeLands(log, st, ev, id);
  }

  /** A lifecycle fact in itself and against the bound session: a reason exactly for the states that
      end a launch, a path from the start on and not before, and the session's id and path. */
  predicate FactInOrder(n: Node, f: PiLifecycle) {
    && f.generation >= 1
    && (f.state in {LaunchFailed, Exited, ControlUncertain} <==> f.reason.Some?)
    && (f.reason.Some? ==> !Blank(f.reason.value) && |f.reason.value| <= 1024)
    && (f.state == Reserved ==> f.path.None?) && (f.state == Started ==> f.path.Some?)
    && (match n.piSession
        case Some(s) => f.id == s.id && f.path == Some(s.path)
        case None => f.state == Reserved || (n.piLifecycle.Some? && n.piLifecycle.value.state == Reserved))
  }

  /** The lifecycle as a transition table. */
  predicate Transition(n: Node, f: PiLifecycle) {
    match n.piLifecycle
    case None => f.generation == 1 && f.state == (if n.piSession.Some? then Started else Reserved)
    case Some(was) =>
      match was.state
      case Reserved =>
        && f.generation == was.generation && f.id == was.id
        && (f.state in {LaunchFailed, ControlUncertain} || (f.state == Started && n.piSession.Some?))
        && (f.path == was.path || (was.path.None? && f.state == Started))
      case Started => f.generation == was.generation && f.state in {Exited, ControlUncertain}
      case Exited => f.generation == was.generation + 1 && f.state == Started
      case LaunchFailed => f.generation == was.generation + 1 && f.state == Started
      case ControlUncertain => false
  }

  /** An accepted lifecycle fact is the node's lifecycle. */
  lemma LifecycleLands(log: seq<Event>, st: Store, ev: Event, id: NodeId)
    requires To(st, ev, id) && ev.body.PiTransition?
    ensures var n, f := st.nodes[id], ev.body.fact;
            Accepts(log, st, ev) <==>
              && CallerRun(st) && f.Some? && FactInOrder(n, f.value)
              && (n.piLifecycle == f || (!st.manifest.value.status.IsTerminal() && Transition(n, f.value)))
    ensures OnlyNode(log, st, ev, id)
    ensures Accepts(log, st, ev) ==>
              var n, m := st.nodes[id], Left(log, st, ev, id);
              m.piLifecycle == ev.body.fact && m == n.(piLifecycle := m.piLifecycle)
  {
    NodeLands(log, st, ev, id);
  }

  // ---- run-level events ----

  /** An event of another run is refused. */
  lemma ForeignRefused(log: seq<Event>, st: Store, ev: Event)
    requires ev.runId != st.run
    ensures !Accepts(log, st, ev) && Step(log, st, ev) == st
  {}

  /** The manifest a step leaves, the watermark and the node count aside. */
  ghost predicate ManifestIs(log: seq<Event>, st: Store, ev: Event, m: Manifest) {
    Step(log, st, ev).run == st.run && SameManifest(Step(log, st, ev).manifest, Some(m))
  }

  lemma RunStepIs(log: seq<Event>, st: Store, ev: Event)
    requires ev.runId == st.run && !NodeLevel(ev.body) && Accepts(log, st, ev)
    ensures PlanEvent(log, st, ev).ops == [] ==>
              Step(log, st, ev).nodes == st.nodes && SameManifest(Step(log, st, ev).manifest, st.manifest)
    ensures |PlanEvent(log, st, ev).ops| == 1 && PlanEvent(log, st, ev).ops[0].PutManifest? ==>
              Step(log, st, ev).nodes == st.nodes && ManifestIs(log, st, ev, PlanEvent(log, st, ev).ops[0].m)
  {
    CutIsCommit(log, st, ev);
    CutShort(log, st, ev, 2);
  }

  /** The first creation of the run fixes its owner, residency and source branch; a later one does
      nothing. */
  lemma RunCreatedLands(log: seq<Event>, st: Store, ev: Event)
    requires ev.runId == st.run && ev.body.RunCreated?
    ensures Accepts(log, st, ev) <==> st.manifest.Some? || ev.body.run.Some?
    ensures Step(log, st, ev).nodes == st.nodes
    ensures st.manifest.Some? ==> SameManifest(Step(log, st, ev).manifest, st.manifest)
    ensures Accepts(log, st, ev) && st.manifest.None? ==>
              && Step(log, st, ev).manifest.Some?
              && var m, r := Step(log, st, ev).manifest.value, ev.body.run.value;
                 && m.status == Pending && m.owner == r.owner && m.resident == r.resident
                 && m.sourceBranch == r.sourceBranch && m.intent.None?
  {
    if Accepts(log, st, ev) { RunStepIs(log, st, ev); }
  }

  /** Only the status moves, and it is the one asked for wherever the run is not settled. */
  lemma RunStatusLands(log: seq<Event>, st: Store, ev: Event)
    requires ev.runId == st.run && ev.body.RunStatus? && st.manifest.Some?
    ensures Accepts(log, st, ev) <==> ev.body.runStatus.Some?
    ensures Step(log, st, ev).nodes == st.nodes && Step(log, st, ev).manifest.Some?
    ensures ManifestIs(log, st, ev, st.manifest.value.(status := Step(log, st, ev).manifest.value.status))
    ensures Accepts(log, st, ev) && !st.manifest.value.status.IsTerminal() ==>
              Step(log, st, ev).manifest.value.status == ev.body.runStatus.value
  {
    if Accepts(log, st, ev) { RunStepIs(log, st, ev); }
  }

  /** Creation makes a pending node at the place it names, and the default node's may reveal the
      source branch, once. */
  lemma NodeCreatedLands(log: seq<Event>, st: Store, ev: Event)
    requires ev.runId == st.run && ev.body.NodeCreated? && st.manifest.Some?
    ensures Accepts(log, st, ev) <==> ev.nodeId.Some? && (ev.nodeId.value in st.nodes || ev.body.spawn.Some?)
    ensures Accepts(log, st, ev) && ev.nodeId.value in st.nodes ==>
              Step(log, st, ev).nodes == st.nodes && SameManifest(Step(log, st, ev).manifest, st.manifest)
    ensures Accepts(log, st, ev) && ev.nodeId.value !in st.nodes ==>
              var id, sp, s := ev.nodeId.value, ev.body.spawn.value, Step(log, st, ev);
              && id in s.nodes && s.nodes == st.nodes[id := s.nodes[id]] && Untouched(s.nodes[id], sp)
              && s.manifest.Some?
              && ManifestIs(log, st, ev, st.manifest.value.(sourceBranch := s.manifest.value.sourceBranch))
              && s.manifest.value.sourceBranch ==
                 if st.manifest.value.sourceBranch.None? && id == NodeId("0001") && sp.sourceBranch.Some? &&
                     sp.sourceBranch.value != "" then sp.sourceBranch else st.manifest.value.sourceBranch
  {
    if Accepts(log, st, ev) {
      CutIsCommit(log, st, ev);
      CutShort(log, st, ev, 2);
    }
  }

  /** A node nothing has happened to. */
  predicate Untouched(n: Node, sp: Spawn) {
    && n.status == Pending && n.branch == sp.branch && n.worktree == sp.worktree && n.retryAttempts == 0
    && n.lastReport.None? && n.workerExit.None? && n.pendingMerge.None? && n.firstDeathAt.None? && n.awaiting.None?
    && n.piSession.None? && n.piLifecycle.None?
  }

  /** An intent addressed as its event is, with the key the event carries, an actor, a writer and a
      gate, for the node's current generation. */
  predicate WellFormedIntent(ev: Event, n: Node, i: Intent) {
    && i.runId == ev.runId && ev.nodeId == Some(i.nodeId) && ev.key == Some(i.key) && !Blank(i.key) && !Blank(i.actor)
    && i.writerDev >= 1 && i.writerIno >= 1 && i.gateDev >= 1 && i.gateIno >= 1 && i.seqNo == 0
    && i.generation == LaunchesOf(n)
  }

  /** A settled run takes an intent only to merge or discard the single failed node of a failed
      run. */
  predicate OpenToIntent(m: Manifest, n: Node, i: Intent) {
    || !m.status.IsTerminal()
    || ( && m.status == Failed && n.status == Failed && m.nodeCount == 1 && i.nodeId == NodeId("0001")
         && i.operation != OpCancel)
  }

  /** An accepted intent is the manifest's intent, under the event's sequence. */
  lemma IntentLands(log: seq<Event>, st: Store, ev: Event, id: NodeId)
    requires To(st, ev, id) && ev.body.SettlementIntent?
    ensures var n, i := st.nodes[id], ev.body.intent;
            Accepts(log, st, ev) <==>
              && CallerRun(st) && i.Some? && WellFormedIntent(ev, n, i.value)
              && match st.manifest.value.intent
                 case Some(was) => was == i.value.(seqNo := ev.seqNo)
                 case None => OpenToIntent(st.manifest.value, n, i.value)
    ensures Step(log, st, ev).nodes == st.nodes
    ensures Accepts(log, st, ev) ==>
              ManifestIs(log, st, ev, st.manifest.value.(intent := Some(ev.body.intent.value.(seqNo := ev.seqNo))))
    ensures !Accepts(log, st, ev) ==> Step(log, st, ev) == st
  {
    if Accepts(log, st, ev) { RunStepIs(log, st, ev); }
  }

  /** An intent for a node that does not exist is refused. */
  lemma IntentNeedsNode(log: seq<Event>, st: Store, ev: Event)
    requires ev.body.SettlementIntent? && (ev.nodeId.None? || ev.nodeId.value !in st.nodes)
    ensures !Accepts(log, st, ev) && Step(log, st, ev) == st
  {}

  lemma AuditLands(log: seq<Event>, st: Store, ev: Event)
    requires ev.runId == st.run && ev.body.Audit?
    ensures Accepts(log, st, ev)
    ensures Step(log, st, ev).nodes == st.nodes && SameManifest(Step(log, st, ev).manifest, st.manifest)
  {
    RunStepIs(log, st, ev);
  }
}

/** The projections read off the log, fact by fact: a node or the manifest has a fact exactly when
    some event of the log set it and no later one ended it. */
module LogReading {
  import opened Prelude
  import opened Json
  import opened Schema
  import opened Report
  import opened Reducer
  import opened ReducerLaws
  import opened Recovery
  import opened CrashSafety
  import opened Effects

  // ---- facts of a node ----

  datatype Fact =
    | StatusIs(status: Status)
    | PlacedAt(branch: Option<string>, worktree: Option<string>)
    | Attempt(number: nat)
    | Reported(report: Fields)
    | ExitedWith(exit: WorkerExit)
    | DiedAt(at: nat)
    | Merging(txn: MergeTxn)
    | AskedBy(at: nat, seqNo: nat)
    | BoundTo(session: PiSession)
    | Launched(life: PiLifecycle)

  predicate Has(n: Node, f: Fact) {
    match f
    case StatusIs(s) => n.status == s
    case PlacedAt(b, w) => n.branch == b && n.worktree == w
    case Attempt(a) => n.retryAttempts == a
    case Reported(r) => n.lastReport == Some(r)
    case ExitedWith(x) => n.workerExit == Some(x)
    case DiedAt(t) => n.firstDeathAt == Some(t)
    case Merging(t) => n.pendingMerge == Some(t)
    case AskedBy(t, q) => n.awaiting.Some? && n.awaiting.value.openedAt == t && n.awaiting.value.eventSeq == q
    case BoundTo(s) => n.piSession == Some(s)
    case Launched(l) => n.piLifecycle == Some(l)
  }

  // ---- events that take effect on a node ----

  predicate Live(n: Node) { !n.status.IsTerminal() }

  /** The event creates the node at this place. */
  predicate Spawns(st: Store, ev: Event, id: NodeId) {
    ev.runId == st.run && ev.nodeId == Some(id) && id !in st.nodes && ev.body.NodeCreated? && ev.body.spawn.Some?
  }

  /** A retry of a live node. */
  predicate Retries(st: Store, ev: Event, id: NodeId) {
    To(st, ev, id) && ev.body.NodeRetry? && ev.body.respawn.Some? && Live(st.nodes[id])
  }

  /** A resumption of a live resident node as a later attempt. */
  predicate Resumes(st: Store, ev: Event, id: NodeId) {
    && To(st, ev, id) && ev.body.Resumed? && ev.body.resumeAttempt.Some? && Resident(st) && Live(st.nodes[id])
    && st.nodes[id].retryAttempts < ev.body.resumeAttempt.value <= 0xFFFF_FFFF
  }

  /** A status set on a live node. */
  predicate SetsStatus(st: Store, ev: Event, id: NodeId) {
    To(st, ev, id) && ev.body.NodeStatus? && ev.body.nodeStatus.Some? && Live(st.nodes[id])
  }

  /** A report that settles a live node, or a late confirmed merge. */
  predicate Reports(st: Store, ev: Event, id: NodeId) {
    && To(st, ev, id) && ev.body.NodeReport?
    && (if Live(st.nodes[id]) then StrictOutcome(ev.body.report).Some? else LateMerge(st.nodes[id], ev.body.report))
  }

  /** The report the node already has, which changes nothing. */
  predicate Repeats(n: Node, ev: Event) {
    ev.body.NodeReport? && n.status == Done && n.lastReport == Some(ev.body.report)
  }

  predicate Settles(st: Store, ev: Event, id: NodeId) {
    || (SetsStatus(st, ev, id) && ev.body.nodeStatus.value.IsTerminal())
    || (Reports(st, ev, id) && !Repeats(st.nodes[id], ev))
  }

  /** A new attempt. */
  predicate Restarts(st: Store, ev: Event, id: NodeId) { Retries(st, ev, id) || Resumes(st, ev, id) }

  /** The first exit fact of the current attempt. */
  predicate Exits(st: Store, ev: Event, id: NodeId) {
    && To(st, ev, id) && ev.body.WorkerExited? && WellFormedExit(ev.body.exit) && st.nodes[id].workerExit.None?
    && ev.body.exit.value.attempt == st.nodes[id].retryAttempts
  }

  /** A start of a merge that is not pending yet. */
  predicate StartsMerge(st: Store, ev: Event, id: NodeId) {
    && To(st, ev, id) && ev.body.MergeStarted? && ev.body.txn.Some? && MayStart(st, id, ev.body.txn.value)
    && OpenToMerge(st, id) && !PendingOp(st.nodes[id], ev.body.txn.value.opId)
  }

  /** The operation is aborted, or its round landed. */
  predicate ClosesMerge(st: Store, ev: Event, id: NodeId) {
    && To(st, ev, id)
    && ( || (ev.body.MergeAborted? && ev.body.abortedOp.Some? && PendingOp(st.nodes[id], ev.body.abortedOp.value))
         || ( && ev.body.RoundLanded? && ev.body.landedOp.Some? && Resident(st) && Live(st.nodes[id])
              && LandsMerge(st.nodes[id], ev.body.landedOp.value)))
  }

  /** A request that opens one on the node. */
  predicate Opens(st: Store, ev: Event, id: NodeId) {
    && To(st, ev, id) && ev.body.AwaitingInput? && WellFormedRequest(ev.body.items)
    && Live(st.nodes[id]) && st.nodes[id].workerExit.None? && st.nodes[id].awaiting.None?
  }

  /** The request is answered, or its round reported. */
  predicate Answers(st: Store, ev: Event, id: NodeId) {
    && To(st, ev, id) && st.nodes[id].awaiting.Some?
    && ( || ev.body == InputResolved(Some(st.nodes[id].awaiting.value.eventSeq))
         || ( && ev.body == RoundReported(Some(st.nodes[id].retryAttempts)) && st.nodes[id].retryAttempts <= 0xFFFF_FFFF
              && Resident(st) && Live(st.nodes[id])))
  }

  predicate Binds(st: Store, ev: Event, id: NodeId) {
    && To(st, ev, id) && ev.body.PiBound? && ev.body.binding.Some? && CallerRun(st)
    && st.nodes[id].piSession.None? && WellFormedBinding(st.nodes[id], ev.body.binding.value)
    && match st.nodes[id].piLifecycle
       case None => ev.body.binding.value.generation.None?
       case Some(l) => TakesUp(l, ev.body.binding.value)
  }

  predicate Moves(st: Store, ev: Event, id: NodeId) {
    && To(st, ev, id) && ev.body.PiTransition? && ev.body.fact.Some? && CallerRun(st)
    && !st.manifest.value.status.IsTerminal()
    && FactInOrder(st.nodes[id], ev.body.fact.value) && Transition(st.nodes[id], ev.body.fact.value)
  }

  /** The lifecycle a binding fills in. */
  predicate Fills(st: Store, ev: Event, id: NodeId, l: PiLifecycle) {
    && Binds(st, ev, id) && st.nodes[id].piLifecycle.Some?
    && l == st.nodes[id].piLifecycle.value.(path := Some(ev.body.binding.value.path))
  }

  // ---- what sets a fact and what ends it ----

  predicate Sets(st: Store, ev: Event, id: NodeId, f: Fact) {
    match f
    case StatusIs(s) =>
      || (Spawns(st, ev, id) && s == Pending)
      || (Restarts(st, ev, id) && s == Pending)
      || (SetsStatus(st, ev, id) && ev.body.nodeStatus == Some(s))
      || (Reports(st, ev, id) && StrictOutcome(ev.body.report) == Some(s))
    case PlacedAt(b, w) =>
      || (Spawns(st, ev, id) && b == ev.body.spawn.value.branch && w == ev.body.spawn.value.worktree)
      || (Retries(st, ev, id) && b == ev.body.respawn.value.branch && w == ev.body.respawn.value.worktree)
    case Attempt(a) =>
      || (Spawns(st, ev, id) && a == 0)
      || (Retries(st, ev, id) && NextAttempt(st.nodes[id].retryAttempts, ev.body.attempt, a))
      || (Resumes(st, ev, id) && ev.body.resumeAttempt == Some(a))
    case Reported(r) => Reports(st, ev, id) && r == ev.body.report
    case ExitedWith(x) =>
      && Exits(st, ev, id)
      && x.code == ev.body.exit.value.code && x.signal == ev.body.exit.value.signal && x.at == ev.ts
    case DiedAt(t) =>
      && To(st, ev, id) && ev.body.DeathObserved? && t == ev.ts && Live(st.nodes[id])
      && st.nodes[id].firstDeathAt.None? && st.nodes[id].workerExit.None? && st.nodes[id].lastReport.None?
      && st.nodes[id].pendingMerge.None?
    case Merging(t) => StartsMerge(st, ev, id) && ev.body.txn == Some(t)
    case AskedBy(t, q) => Opens(st, ev, id) && ev.ts == t && ev.seqNo == q
    case BoundTo(s) => Binds(st, ev, id) && ev.body.binding == Some(s)
    case Launched(l) => (Moves(st, ev, id) && ev.body.fact == Some(l)) || Fills(st, ev, id, l)
  }

  /** A fact is ended by what sets another of its kind, and the passing ones by what closes them. */
  predicate Ends(st: Store, ev: Event, id: NodeId, f: Fact) {
    match f
    case StatusIs(_) => Restarts(st, ev, id) || SetsStatus(st, ev, id) || Reports(st, ev, id)
    case PlacedAt(_, _) => Retries(st, ev, id)
    case Attempt(_) => Restarts(st, ev, id)
    case Reported(_) => Reports(st, ev, id) || Retries(st, ev, id)
    case ExitedWith(_) => Restarts(st, ev, id)
    case DiedAt(_) => Restarts(st, ev, id)
    case Merging(_) =>
      Restarts(st, ev, id) || Settles(st, ev, id) || ClosesMerge(st, ev, id) || StartsMerge(st, ev, id)
    case AskedBy(_, _) => Restarts(st, ev, id) || Settles(st, ev, id) || Exits(st, ev, id) || Answers(st, ev, id)
    case BoundTo(_) => false
    case Launched(_) => Moves(st, ev, id) || Binds(st, ev, id)
  }

  // ---- one event ----

  ghost predicate HasFact(st: Store, id: NodeId, f: Fact) { id in st.nodes && Has(st.nodes[id], f) }

  /** One event, one fact: it holds afterwards exactly if the event set it, or it held and the event
      did not end it. */
  ghost predicate FactMoves(log: seq<Event>, st: Store, ev: Event, id: NodeId, f: Fact) {
    HasFact(Step(log, st, ev), id, f) <==> Sets(st, ev, id, f) || (HasFact(st, id, f) && !Ends(st, ev, id, f))
  }

  /** An event that does not address an existing node moves no fact of it. */
  lemma StrangerMoves(log: seq<Event>, st: Store, ev: Event, id: NodeId, f: Fact)
    requires id in st.nodes && (!To(st, ev, id) || !NodeLevel(ev.body))
    ensures FactMoves(log, st, ev, id, f)
  {
    StepEvolves(log, st, ev);
    StrangerIdle(st, ev, id, f);
  }

  lemma StrangerIdle(st: Store, ev: Event, id: NodeId, f: Fact)
    requires id in st.nodes && (!To(st, ev, id) || !NodeLevel(ev.body))
    ensures !Sets(st, ev, id, f) && !Ends(st, ev, id, f)
  {}

  /** A node appears by its creation alone, as a fresh one. */
  lemma CreationMoves(log: seq<Event>, st: Store, ev: Event, id: NodeId, f: Fact)
    requires id !in st.nodes
    ensures FactMoves(log, st, ev, id, f)
  {
    StepEvolves(log, st, ev);
    if Spawns(st, ev, id) { CreatedNodes(log, st, ev); }
  }

  /** The node an addressed event leaves, and one fact of it. */
  ghost predicate FactTurns(st: Store, ev: Event, id: NodeId, m: Node, f: Fact)
    requires id in st.nodes
  {
    Has(m, f) <==> Sets(st, ev, id, f) || (Has(st.nodes[id], f) && !Ends(st, ev, id, f))
  }

  ghost predicate Leaves(st: Store, ev: Event, id: NodeId, m: Node) {
    && To(st, ev, id) && NodeLevel(ev.body)
    && if Gate(st, id, ev.body, ev.runId) && !NodeChange(st, id, st.nodes[id], ev).Refuse?
       then m == After(st.nodes[id], NodeChange(st, id, st.nodes[id], ev)) else m == st.nodes[id]
  }

  lemma AddressedMoves(log: seq<Event>, st: Store, ev: Event, id: NodeId, m: Node, f: Fact)
    requires To(st, ev, id) && NodeLevel(ev.body) && m == Left(log, st, ev, id) && FactTurns(st, ev, id, m, f)
    ensures FactMoves(log, st, ev, id, f)
  {
    StepEvolves(log, st, ev);
  }

  lemma LeftIsLeft(log: seq<Event>, st: Store, ev: Event, id: NodeId)
    requires To(st, ev, id) && NodeLevel(ev.body)
    ensures Leaves(st, ev, id, Left(log, st, ev, id))
  {
    NodeLands(log, st, ev, id);
  }

  lemma StatusTurns(st: Store, ev: Event, id: NodeId, m: Node, s: Status)
    requires Leaves(st, ev, id, m)
    ensures FactTurns(st, ev, id, m, StatusIs(s))
  {
    if ev.body.NodeReport? { SkimIsFaithful(ev.body.report); }
  }

  lemma PlaceTurns(st: Store, ev: Event, id: NodeId, m: Node, b: Option<string>, w: Option<string>)
    requires Leaves(st, ev, id, m)
    ensures FactTurns(st, ev, id, m, PlacedAt(b, w))
  {}

  lemma AttemptTurns(st: Store, ev: Event, id: NodeId, m: Node, a: nat)
    requires Leaves(st, ev, id, m)
    ensures FactTurns(st, ev, id, m, Attempt(a))
  {}

  lemma ReportTurns(st: Store, ev: Event, id: NodeId, m: Node, r: Fields)
    requires Leaves(st, ev, id, m)
    ensures FactTurns(st, ev, id, m, Reported(r))
  {}

  lemma ExitTurns(st: Store, ev: Event, id: NodeId, m: Node, x: WorkerExit)
    requires Leaves(st, ev, id, m)
    ensures FactTurns(st, ev, id, m, ExitedWith(x))
  {}

  lemma DeathTurns(st: Store, ev: Event, id: NodeId, m: Node, t: nat)
    requires Leaves(st, ev, id, m)
    ensures FactTurns(st, ev, id, m, DiedAt(t))
  {}

  lemma MergeTurns(st: Store, ev: Event, id: NodeId, m: Node, t: MergeTxn)
    requires Leaves(st, ev, id, m)
    ensures FactTurns(st, ev, id, m, Merging(t))
  {}

  lemma RequestTurns(st: Store, ev: Event, id: NodeId, m: Node, t: nat, q: nat)
    requires Leaves(st, ev, id, m)
    ensures FactTurns(st, ev, id, m, AskedBy(t, q))
  {
    if ev.body.AwaitingInput? && ev.body.items.Some? { RequestIsValid(ev.body.items.value); }
  }

  lemma SessionTurns(st: Store, ev: Event, id: NodeId, m: Node, s: PiSession)
    requires Leaves(st, ev, id, m)
    ensures FactTurns(st, ev, id, m, BoundTo(s))
  {}

  lemma LifecycleTurns(st: Store, ev: Event, id: NodeId, m: Node, l: PiLifecycle)
    requires Leaves(st, ev, id, m)
    ensures FactTurns(st, ev, id, m, Launched(l))
  {}

  lemma EveryFactTurns(st: Store, ev: Event, id: NodeId, m: Node, f: Fact)
    requires Leaves(st, ev, id, m)
    ensures FactTurns(st, ev, id, m, f)
  {
    match f
    case StatusIs(s) => StatusTurns(st, ev, id, m, s);
    case PlacedAt(b, w) => PlaceTurns(st, ev, id, m, b, w);
    case Attempt(a) => AttemptTurns(st, ev, id, m, a);
    case Reported(r) => ReportTurns(st, ev, id, m, r);
    case ExitedWith(x) => ExitTurns(st, ev, id, m, x);
    case DiedAt(t) => DeathTurns(st, ev, id, m, t);
    case Merging(t) => MergeTurns(st, ev, id, m, t);
    case AskedBy(t, q) => RequestTurns(st, ev, id, m, t, q);
    case BoundTo(s) => SessionTurns(st, ev, id, m, s);
    case Launched(l) => LifecycleTurns(st, ev, id, m, l);
  }

  lemma EveryFactMoves(log: seq<Event>, st: Store, ev: Event, id: NodeId, f: Fact)
    ensures FactMoves(log, st, ev, id, f)
  {
    if id !in st.nodes {
      CreationMoves(log, st, ev, id, f);
    } else if !To(st, ev, id) || !NodeLevel(ev.body) {
      StrangerMoves(log, st, ev, id, f);
    } else {
      LeftIsLeft(log, st, ev, id);
      EveryFactTurns(st, ev, id, Left(log, st, ev, id), f);
      AddressedMoves(log, st, ev, id, Left(log, st, ev, id), f);
    }
  }

  // ---- whole logs ----

  /** Event `k` of the log set the fact. */
  ghost predicate SetAt(run: RunId, log: seq<Event>, k: nat, id: NodeId, f: Fact) {
    k < |log| && Sets(Fold(run, log[..k]), log[k], id, f)
  }

  ghost predicate EndedAt(run: RunId, log: seq<Event>, k: nat, id: NodeId, f: Fact) {
    k < |log| && Ends(Fold(run, log[..k]), log[k], id, f)
  }

  /** Some event set the fact, and none of the first `n` has ended it since. */
  ghost predicate Stands(run: RunId, log: seq<Event>, n: nat, id: NodeId, f: Fact) {
    exists k: nat :: k < n && SetAt(run, log, k, id, f) && forall j: nat :: k < j < n ==> !EndedAt(run, log, j, id, f)
  }

  lemma {:induction false} StandsNext(run: RunId, log: seq<Event>, n: nat, id: NodeId, f: Fact)
    ensures Stands(run, log, n + 1, id, f) <==>
            SetAt(run, log, n, id, f) || (Stands(run, log, n, id, f) && !EndedAt(run, log, n, id, f))
  {
    if Stands(run, log, n + 1, id, f) { StandsBack(run, log, n, id, f); }
    if Stands(run, log, n, id, f) && !EndedAt(run, log, n, id, f) { StandsOn(run, log, n, id, f); }
  }

  lemma {:induction false} StandsBack(run: RunId, log: seq<Event>, n: nat, id: NodeId, f: Fact)
    requires Stands(run, log, n + 1, id, f)
    ensures SetAt(run, log, n, id, f) || (Stands(run, log, n, id, f) && !EndedAt(run, log, n, id, f))
  {
    var k: nat :|
      k < n + 1 && SetAt(run, log, k, id, f) && forall j: nat :: k < j < n + 1 ==> !EndedAt(run, log, j, id, f);
    if k < n { assert !EndedAt(run, log, n, id, f); }
  }

  lemma {:induction false} StandsOn(run: RunId, log: seq<Event>, n: nat, id: NodeId, f: Fact)
    requires Stands(run, log, n, id, f) && !EndedAt(run, log, n, id, f)
    ensures Stands(run, log, n + 1, id, f)
  {
    var k: nat :| k < n && SetAt(run, log, k, id, f) && forall j: nat :: k < j < n ==> !EndedAt(run, log, j, id, f);
    forall j: nat | k < j < n + 1 ensures !EndedAt(run, log, j, id, f) {
      if j == n { assert !EndedAt(run, log, n, id, f); }
    }
  }

  lemma {:induction false} FactsUpTo(run: RunId, log: seq<Event>, n: nat, id: NodeId, f: Fact)
    requires n <= |log|
    ensures HasFact(Fold(run, log[..n]), id, f) <==> Stands(run, log, n, id, f)
  {
    if n > 0 {
      FactsUpTo(run, log, n - 1, id, f);
      StandsNext(run, log, n - 1, id, f);
      FoldUnfolds(run, log, n);
      EveryFactMoves(log[..n - 1], Fold(run, log[..n - 1]), log[n - 1], id, f);
    }
  }

  /** Over every log whatever: a node has a fact exactly when some event of the log set it and no
      later one ended it. In particular its place is that of its last creation or retry, its exit
      and its pending merge stand until a new attempt or what settles them, and its session and
      lifecycle are the last ones accepted. */
  lemma {:induction false} FactsAreRead(run: RunId, log: seq<Event>, id: NodeId, f: Fact)
    ensures HasFact(Fold(run, log), id, f) <==> Stands(run, log, |log|, id, f)
  {
    assert log[..|log|] == log;
    FactsUpTo(run, log, |log|, id, f);
  }

  // ---- the items of an open request ----

  /** A request whose items the node takes. */
  predicate Joins(st: Store, ev: Event, id: NodeId) {
    && To(st, ev, id) && ev.body.AwaitingInput? && WellFormedRequest(ev.body.items)
    && Live(st.nodes[id]) && st.nodes[id].workerExit.None?
    && (st.nodes[id].awaiting.None? || |OpenItems(st.nodes[id])| + |ev.body.items.value| <= 8)
  }

  /** The items the events from `k` on, before `n`, added to the node's request. */
  ghost function ItemsFrom(run: RunId, log: seq<Event>, id: NodeId, k: nat, n: nat): seq<Item>
    requires n <= |log|
  {
    if n <= k then []
    else
      ItemsFrom(run, log, id, k, n - 1) +
      if Joins(Fold(run, log[..n - 1]), log[n - 1], id) then log[n - 1].body.items.value else []
  }

  /** One event and the items of a request that is open after it. */
  lemma ItemsTurn(st: Store, ev: Event, id: NodeId, m: Node)
    requires Leaves(st, ev, id, m) && m.awaiting.Some?
    ensures Joins(st, ev, id) ==> m.awaiting.value.items == OpenItems(st.nodes[id]) + ev.body.items.value
    ensures !Joins(st, ev, id) ==> st.nodes[id].awaiting.Some? && m.awaiting.value.items == OpenItems(st.nodes[id])
    ensures m.awaiting.value.eventSeq ==
            if st.nodes[id].awaiting.Some? then st.nodes[id].awaiting.value.eventSeq else ev.seqNo
    ensures st.nodes[id].awaiting.None? ==> Joins(st, ev, id)
  {
    if ev.body.AwaitingInput? && ev.body.items.Some? {
      RequestIsValid(ev.body.items.value);
      assert [] + ev.body.items.value == ev.body.items.value;
    }
  }

  lemma ItemsStep(log: seq<Event>, st: Store, ev: Event, id: NodeId)
    requires id in Step(log, st, ev).nodes && Step(log, st, ev).nodes[id].awaiting.Some?
    ensures id in st.nodes
    ensures var n, m := st.nodes[id], Step(log, st, ev).nodes[id];
            && m.awaiting.value.items ==
               OpenItems(n) + (if Joins(st, ev, id) then ev.body.items.value else [])
            && m.awaiting.value.eventSeq == (if n.awaiting.Some? then n.awaiting.value.eventSeq else ev.seqNo)
            && (n.awaiting.None? ==> Joins(st, ev, id))
  {
    StepEvolves(log, st, ev);
    assert OpenItems(st.nodes[id]) + [] == OpenItems(st.nodes[id]);
    if To(st, ev, id) && NodeLevel(ev.body) {
      LeftIsLeft(log, st, ev, id);
      ItemsTurn(st, ev, id, Left(log, st, ev, id));
    }
  }

  /** The request open on the node holds what was asked since it was opened. */
  ghost predicate Collected(run: RunId, log: seq<Event>, n: nat, id: NodeId, a: Awaiting)
    requires n <= |log|
  {
    1 <= a.eventSeq <= n && a.items == ItemsFrom(run, log, id, a.eventSeq - 1, n)
  }

  lemma {:induction false} CollectedNext(run: RunId, log: seq<Event>, n: nat, id: NodeId, was: Node, a: Awaiting)
    requires n < |log| && (was.awaiting.Some? ==> Collected(run, log, n, id, was.awaiting.value))
    requires a.eventSeq == if was.awaiting.Some? then was.awaiting.value.eventSeq else n + 1
    requires var joins := Joins(Fold(run, log[..n]), log[n], id);
             && a.items == OpenItems(was) + (if joins then log[n].body.items.value else [])
             && (was.awaiting.None? ==> joins)
    ensures Collected(run, log, n + 1, id, a)
  {
    ItemsFromNext(run, log, id, a.eventSeq - 1, n);
  }

  /** Over every log: an open request holds exactly the items of the event that opened it and of
      every request the node took since, in order. */
  lemma {:induction false} RequestIsAll(run: RunId, log: seq<Event>, n: nat, id: NodeId)
    requires WellSeq(run, log) && n <= |log| && id in Fold(run, log[..n]).nodes
    requires Fold(run, log[..n]).nodes[id].awaiting.Some?
    ensures Collected(run, log, n, id, Fold(run, log[..n]).nodes[id].awaiting.value)
  {
    assert log[..0] == [];
    if n > 0 {
      FoldUnfolds(run, log, n);
      ItemsStep(log[..n - 1], Fold(run, log[..n - 1]), log[n - 1], id);
      var was := Fold(run, log[..n - 1]).nodes[id];
      if was.awaiting.Some? { RequestIsAll(run, log, n - 1, id); }
      CollectedNext(run, log, n - 1, id, was, Fold(run, log[..n]).nodes[id].awaiting.value);
    }
  }

  lemma {:induction false} ItemsFromNext(run: RunId, log: seq<Event>, id: NodeId, k: nat, n: nat)
    requires k <= n < |log|
    ensures ItemsFrom(run, log, id, k, n + 1) ==
            ItemsFrom(run, log, id, k, n) +
            (if Joins(Fold(run, log[..n]), log[n], id) then log[n].body.items.value else [])
    ensures k == n ==> ItemsFrom(run, log, id, k, n) == []
  {}

  // ---- facts of the manifest ----

  datatype RunFact = OwnedBy(owner: AgentOwner, resident: bool) | SourceIs(branch: string) | IntentIs(intent: Intent)

  ghost predicate HasRunFact(st: Store, f: RunFact) {
    && st.manifest.Some?
    && match f
       case OwnedBy(o, r) => st.manifest.value.owner == o && st.manifest.value.resident == r
       case SourceIs(b) => st.manifest.value.sourceBranch == Some(b)
       case IntentIs(i) => st.manifest.value.intent == Some(i)
  }

  /** The event creates the run. */
  predicate Founds(st: Store, ev: Event) {
    ev.runId == st.run && st.manifest.None? && ev.body.RunCreated? && ev.body.run.Some?
  }

  predicate SetsRun(st: Store, ev: Event, f: RunFact) {
    match f
    case OwnedBy(o, r) => Founds(st, ev) && ev.body.run.value.owner == o && ev.body.run.value.resident == r
    case SourceIs(b) =>
      || (Founds(st, ev) && ev.body.run.value.sourceBranch == Some(b))
      || ( && Spawns(st, ev, NodeId("0001")) && st.manifest.Some? && st.manifest.value.sourceBranch.None?
           && ev.body.spawn.value.sourceBranch == Some(b) && b != "")
    case IntentIs(i) =>
      && ev.body.SettlementIntent? && ev.body.intent.Some? && To(st, ev, ev.body.intent.value.nodeId)
      && CallerRun(st) && st.manifest.value.intent.None?
      && WellFormedIntent(ev, st.nodes[ev.body.intent.value.nodeId], ev.body.intent.value)
      && OpenToIntent(st.manifest.value, st.nodes[ev.body.intent.value.nodeId], ev.body.intent.value)
      && i == ev.body.intent.value.(seqNo := ev.seqNo)
  }

  ghost predicate RunFactMoves(log: seq<Event>, st: Store, ev: Event, f: RunFact) {
    HasRunFact(Step(log, st, ev), f) <==> SetsRun(st, ev, f) || HasRunFact(st, f)
  }

  lemma RunFactsMove(log: seq<Event>, st: Store, ev: Event, f: RunFact)
    ensures RunFactMoves(log, st, ev, f)
  {
    if ev.runId == st.run && ev.body.RunCreated? { RunCreatedLands(log, st, ev); }
    else if ev.runId == st.run && ev.body.NodeCreated? { CreationRunFacts(log, st, ev, f); }
    else if ev.body.SettlementIntent? { IntentRunFacts(log, st, ev, f); }
    else { OtherRunFacts(log, st, ev, f); }
  }

  lemma CreationRunFacts(log: seq<Event>, st: Store, ev: Event, f: RunFact)
    requires ev.runId == st.run && ev.body.NodeCreated?
    ensures RunFactMoves(log, st, ev, f)
  {
    if st.manifest.Some? { NodeCreatedLands(log, st, ev); } else { RunlessCreation(log, st, ev); }
  }

  lemma RunlessCreation(log: seq<Event>, st: Store, ev: Event)
    requires ev.body.NodeCreated? && st.manifest.None?
    ensures Step(log, st, ev).manifest.None?
  {
    if Accepts(log, st, ev) {
      CutIsCommit(log, st, ev);
      CutShort(log, st, ev, 2);
    }
  }

  lemma IntentRunFacts(log: seq<Event>, st: Store, ev: Event, f: RunFact)
    requires ev.body.SettlementIntent?
    ensures RunFactMoves(log, st, ev, f)
  {
    if ev.runId != st.run { ForeignRefused(log, st, ev); }
    else if ev.nodeId.None? || ev.nodeId.value !in st.nodes { IntentNeedsNode(log, st, ev); }
    else { IntentLands(log, st, ev, ev.nodeId.value); }
  }

  lemma OtherRunFacts(log: seq<Event>, st: Store, ev: Event, f: RunFact)
    requires ev.runId != st.run || (!ev.body.RunCreated? && !ev.body.NodeCreated?)
    requires !ev.body.SettlementIntent?
    ensures RunFactMoves(log, st, ev, f)
  {
    if Accepts(log, st, ev) {
      CutIsCommit(log, st, ev);
      CutShort(log, st, ev, 2);
      PlanShape(log, st, ev);
    }
  }

  /** One of the first `n` events set the fact. */
  ghost predicate SetBefore(run: RunId, log: seq<Event>, n: nat, f: RunFact) {
    exists k: nat :: k < n && RunSetAt(run, log, k, f)
  }

  ghost predicate RunSetAt(run: RunId, log: seq<Event>, k: nat, f: RunFact) {
    k < |log| && SetsRun(Fold(run, log[..k]), log[k], f)
  }

  lemma {:induction false} SetBeforeNext(run: RunId, log: seq<Event>, n: nat, f: RunFact)
    ensures SetBefore(run, log, n + 1, f) <==> RunSetAt(run, log, n, f) || SetBefore(run, log, n, f)
  {
    if SetBefore(run, log, n, f) {
      var k: nat :| k < n && RunSetAt(run, log, k, f);
      assert k < n + 1;
    }
  }

  lemma {:induction false} RunFactsUpTo(run: RunId, log: seq<Event>, n: nat, f: RunFact)
    requires n <= |log|
    ensures HasRunFact(Fold(run, log[..n]), f) <==> SetBefore(run, log, n, f)
  {
    if n > 0 {
      RunFactsUpTo(run, log, n - 1, f);
      SetBeforeNext(run, log, n - 1, f);
      FoldUnfolds(run, log, n);
      RunFactsMove(log[..n - 1], Fold(run, log[..n - 1]), log[n - 1], f);
    }
  }

  /** Over every log: owner, residency, source branch and settlement intent are what the event that
      first set them says, for good. */
  lemma {:induction false} RunFactsAreRead(run: RunId, log: seq<Event>, f: RunFact)
    ensures HasRunFact(Fold(run, log), f) <==> SetBefore(run, log, |log|, f)
  {
    assert log[..|log|] == log;
    RunFactsUpTo(run, log, |log|, f);
  }

  // ---- on disk ----

  lemma SameFacts(a: Store, b: Store, id: NodeId, f: Fact)
    requires Same(a, b) && !f.AskedBy?
    ensures HasFact(a, id, f) <==> HasFact(b, id, f)
  {
    if id in a.nodes { assert SameNode(a.nodes[id], b.nodes[id]); }
  }

  lemma SameRunFacts(a: Store, b: Store, f: RunFact)
    requires Same(a, b)
    ensures HasRunFact(a, f) <==> HasRunFact(b, f)
  {}

  /** The same on disk: over every history whose crashes miss the lossy windows, what a caught-up
      node or manifest says is read off the log, open requests aside. */
  lemma {:induction false} FactsAfterCrashes(h: seq<Disk>, i: nat, id: NodeId, f: Fact, g: RunFact)
    requires History(AllWindows, h) && i < |h| && Settled(h[0].log, h[0].st)
    ensures var log, s := h[i].log, CatchUp(h[i].log, h[i].st);
            && (!f.AskedBy? ==> (HasFact(s, id, f) <==> Stands(s.run, log, |log|, id, f)))
            && (HasRunFact(s, g) <==> SetBefore(s.run, log, |log|, g))
  {
    CrashRecoveryRefinement(h, i);
    CatchUpKeepsRun(h[i].log, h[i].st);
    var log, s := h[i].log, CatchUp(h[i].log, h[i].st);
    FactsAreRead(s.run, log, id, f);
    RunFactsAreRead(s.run, log, g);
    if !f.AskedBy? { SameFacts(s, Fold(s.run, log), id, f); }
    SameRunFacts(s, Fold(s.run, log), g);
  }
}

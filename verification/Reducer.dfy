/** The event reducer: a plan from the current projections and one event to a list of
    projection writes, and the functions that carry a plan out. */
module Reducer {
  import opened Prelude
  import opened Json
  import opened Schema
  import opened Report
  import opened NodeStatusFold

  datatype Op = PutManifest(m: Manifest) | PutNode(id: NodeId, n: Node)

  /** A refused event never reaches the log; an accepted one may plan no write at all. */
  datatype Plan = Rejected | Accepted(ops: seq<Op>)

  /** What a node-level event does to an existing node. */
  datatype Change = Keep | Update(n: Node) | Refuse

  const MAX_ITEMS := 8
  const MAX_TOPIC_CHARS := 512
  const MAX_OPTIONS := 16
  const MAX_OPTION_CHARS := 256
  const MAX_REASON := 1024

  // ---- run-level reducers ----

  function PlanRunCreated(st: Store, run: Option<RunSpec>): Plan {
    if st.manifest.Some? then Accepted([])
    else if run.None? then Rejected
    else Accepted([PutManifest(Manifest(Pending, 0, 0, run.value.owner, run.value.resident, run.value.sourceBranch,
        None))])
  }

  /** A terminal run is frozen, except that a failed run becomes done when the event names
      an adopted merge report, every node is done and the children are attested. */
  function PlanRunStatus(log: seq<Event>, st: Store, ev: Event): Plan
    requires ev.body.RunStatus?
  {
    if st.manifest.None? then Accepted([]) else
    var m := st.manifest.value;
    if ev.body.runStatus.None? then Rejected else
    var next := ev.body.runStatus.value;
    var allowed :=
      && m.status == Failed && next == Done && ev.body.childrenSuccessful
      && ev.body.recoverySeq.Some? && RecoveryVerdict(log, ev.seqNo, ev.body.recoverySeq.value);
    if m.status.IsTerminal() && !allowed then Accepted([])
    else if m.status == next then Accepted([])
    else Accepted([PutManifest(m.(status := next))])
  }

  function FreshNode(s: Spawn): Node {
    Node(Pending, s.branch, s.worktree, None, 0, None, None, None, None, None, None)
  }

  /** The manifest write of `node.created`: the default node may reveal the source branch. */
  function WithSource(m: Manifest, id: NodeId, s: Spawn): Manifest {
    if id == DEFAULT_NODE && m.sourceBranch.None? && s.sourceBranch.Some? && s.sourceBranch.value != ""
    then m.(sourceBranch := s.sourceBranch) else m
  }

  function PlanNodeCreated(st: Store, ev: Event): Plan
    requires ev.body.NodeCreated?
  {
    if ev.nodeId.None? then Rejected
    else if ev.nodeId.value in st.nodes then Accepted([])
    else if ev.body.spawn.None? then Rejected
    else
      var put := PutNode(ev.nodeId.value, FreshNode(ev.body.spawn.value));
      if st.manifest.None? then Accepted([put])
      else Accepted([put, PutManifest(WithSource(st.manifest.value, ev.nodeId.value, ev.body.spawn.value))])
  }

  function Generation(n: Node): nat {
    if n.piLifecycle.Some? then n.piLifecycle.value.generation else 0
  }

  predicate IntentOpen(m: Manifest, n: Node, id: NodeId, i: Intent) {
    m.status.IsTerminal() ==>
      && m.status == Failed && n.status == Failed && m.nodeCount == 1 && id == DEFAULT_NODE
      && (i.operation == OpMerge || i.operation == OpDiscard)
  }

  function PlanSettlementIntent(st: Store, ev: Event): Plan
    requires ev.body.SettlementIntent?
  {
    if ev.nodeId.None? || st.manifest.None? || ev.nodeId.value !in st.nodes || ev.body.intent.None? then Rejected else
    var id, m, i := ev.nodeId.value, st.manifest.value, ev.body.intent.value;
    var n := st.nodes[id];
    if m.owner != Caller || i.runId != ev.runId || i.nodeId != id || ev.key != Some(i.key) || Blank(i.key) ||
        Blank(i.actor)
       || i.writerDev == 0 || i.writerIno == 0 || i.gateDev == 0 || i.gateIno == 0 || i.seqNo != 0
       || i.generation != Generation(n)
    then Rejected else
    var recorded := i.(seqNo := ev.seqNo);
    if m.intent.Some? then (if m.intent.value == recorded then Accepted([]) else Rejected)
    else if !IntentOpen(m, n, id, i) then Rejected
    else Accepted([PutManifest(m.(intent := Some(recorded)))])
  }

  // ---- node-level reducers ----

  function StatusChange(n: Node, next: Option<Status>): Change {
    if next.None? then Refuse
    else if n.status.IsTerminal() || n.status == next.value then Keep
    else if next.value.IsTerminal() then Update(n.(status := next.value, pendingMerge := None, awaiting := None))
    else Update(n.(status := next.value))
  }

  /** A settled node is frozen except for a late confirmed merge of a failed or done one. */
  function ReportChange(n: Node, report: Fields): Change {
    if n.status.IsTerminal() then
      if PermitsTerminalMergeRecovery(n.status, report) then
        if n.lastReport == Some(report) && n.status == Done then Keep
        else Update(n.(lastReport := Some(report), status := Done, pendingMerge := None, awaiting := None))
      else Keep
    else match StrictOutcome(report)
      case None => Refuse
      case Some(s) => Update(n.(lastReport := Some(report), status := s, awaiting := None, pendingMerge := None))
  }

  /** The attempt a retry records: its absolute number cut to 32 bits, else one more. */
  function RetryNumber(n: Node, attempt: Option<nat>): nat {
    if attempt.Some? then attempt.value % (U32_MAX + 1)
    else if n.retryAttempts < U32_MAX then n.retryAttempts + 1 else n.retryAttempts
  }

  function RetryChange(n: Node, spawn: Option<Spawn>, attempt: Option<nat>): Change {
    if n.status.IsTerminal() then Keep
    else if spawn.None? then Refuse
    else Update(n.(branch := spawn.value.branch, worktree := spawn.value.worktree, status := Pending,
        lastReport := None,
                   pendingMerge := None, workerExit := None, firstDeathAt := None, awaiting := None,
                   retryAttempts := RetryNumber(n, attempt)))
  }

  function ExitChange(n: Node, x: ExitFact, ts: nat): Change {
    if x.attempt != n.retryAttempts || n.workerExit.Some? then Keep
    else Update(n.(workerExit := Some(WorkerExit(x.code, x.signal, ts)), awaiting := None))
  }

  function DeathChange(n: Node, ts: nat): Change {
    if n.firstDeathAt.Some? || n.status.IsTerminal() || n.workerExit.Some? || n.lastReport.Some? || n.pendingMerge.Some?
    then Keep else Update(n.(firstDeathAt := Some(ts)))
  }

  predicate ValidItem(i: Item) {
    && !Blank(i.topic) && |i.topic| <= MAX_TOPIC_CHARS && !Blank(i.default)
    && 1 <= |i.options| <= MAX_OPTIONS
    && (forall o :: o in i.options ==> !Blank(o) && |o| <= MAX_OPTION_CHARS)
    && i.default in i.options
  }

  predicate ValidItems(items: seq<Item>) {
    1 <= |items| <= MAX_ITEMS && forall i :: i in items ==> ValidItem(i)
  }

  /** The first request opens a generation; later ones join it up to the bound. */
  function AwaitingChange(n: Node, items: seq<Item>, ev: Event): Change {
    if n.status.IsTerminal() || n.workerExit.Some? then Keep
    else if n.awaiting.None? then Update(n.(awaiting := Some(Awaiting(ev.ts, ev.seqNo, items))))
    else if |n.awaiting.value.items| + |items| > MAX_ITEMS then Refuse
    else Update(n.(awaiting := Some(n.awaiting.value.(items := n.awaiting.value.items + items))))
  }

  function ResolvedChange(n: Node, eventSeq: nat): Change {
    if n.awaiting.Some? && n.awaiting.value.eventSeq == eventSeq then Update(n.(awaiting := None)) else Keep
  }

  function ResumedChange(n: Node, attempt: nat): Change {
    if n.status.IsTerminal() || attempt <= n.retryAttempts then Keep
    else Update(n.(status := Pending, workerExit := None, firstDeathAt := None, awaiting := None,
                   pendingMerge := None, retryAttempts := attempt))
  }

  function RoundReportedChange(n: Node, attempt: nat): Change {
    if n.status.IsTerminal() || attempt != n.retryAttempts then Keep else Update(n.(awaiting := None))
  }

  function RoundLandedChange(n: Node, op: string): Change {
    if n.status.IsTerminal() then Keep
    else if n.pendingMerge.Some? && n.pendingMerge.value.landing && n.pendingMerge.value.opId == op
    then Update(n.(pendingMerge := None)) else Update(n)
  }

  /** A caller-owned merge must carry the recorded settlement intent. */
  predicate LinkMatches(m: Manifest, id: NodeId, run: RunId, t: MergeTxn) {
    match m.owner
    case Taskfleet => t.link.None?
    case Caller =>
      && m.intent.Some? && t.link.Some?
      && m.intent.value.operation == OpMerge && m.intent.value.runId == run && m.intent.value.nodeId == id
      && t.link.value == MergeLink(m.intent.value.seqNo, m.intent.value.key, m.intent.value.writerDev,
         m.intent.value.writerIno)
      && t.sourceBranch == (if m.sourceBranch.Some? then m.sourceBranch.value else "")
  }

  function MergeStartedChange(m: Manifest, id: NodeId, n: Node, t: MergeTxn): Change
    requires m.owner == Caller ==> m.intent.Some?
  {
    if m.owner == Caller && (n.branch != Some(t.workerBranch) || Generation(n) != m.intent.value.generation) then Refuse
    else if n.status.IsTerminal()
         && !(m.owner == Caller && n.status == Failed && m.status == Failed && m.nodeCount == 1
              && m.intent.value.operation == OpMerge && m.intent.value.nodeId == id)
    then Keep
    else if n.pendingMerge.Some? && n.pendingMerge.value.opId == t.opId then Keep
    else Update(n.(pendingMerge := Some(t)))
  }

  function MergeAbortedChange(n: Node, op: string): Change {
    if n.pendingMerge.Some? && n.pendingMerge.value.opId == op then Update(n.(pendingMerge := None)) else Keep
  }

  /** Binding a native session is write-once and must match any reservation. */
  function PiBoundChange(n: Node, b: PiSession): Change {
    if b.cwd == "" || n.worktree != Some(b.cwd) || b.id == "" || b.path == "" then Refuse
    else if n.piSession.Some? then (if n.piSession.value == b then Keep else Refuse)
    else match n.piLifecycle
      case None => if b.generation.Some? then Refuse else Update(n.(piSession := Some(b)))
      case Some(l) =>
        if l.id != b.id || Some(l.generation) != b.generation || (l.path.Some? && l.path.value != b.path)
           || !(l.state == Reserved || l.state == Started)
        then Refuse
        else Update(n.(piSession := Some(b), piLifecycle := Some(l.(path := Some(b.path)))))
  }

  predicate PiFactValid(n: Node, f: PiLifecycle) {
    && f.generation != 0
    && (n.piSession.Some? ==> f.id == n.piSession.value.id && f.path == Some(n.piSession.value.path))
    && (f.state == Reserved ==> f.path.None?)
    && (f.state == Started ==> f.path.Some?)
    && (n.piSession.None? && f.state != Reserved ==> n.piLifecycle.Some? && n.piLifecycle.value.state == Reserved)
    && (f.reason.Some? ==> !Blank(f.reason.value) && |f.reason.value| <= MAX_REASON)
    && ((f.state == Started || f.state == Reserved) <==> f.reason.None?)
  }

  predicate PiStepAllowed(n: Node, f: PiLifecycle) {
    match n.piLifecycle
    case None => f.generation == 1 && ((f.state == Started && n.piSession.Some?) ||
        (f.state == Reserved && n.piSession.None?))
    case Some(was) =>
      || (was.generation == f.generation && was.state == Started && (f.state == Exited || f.state == ControlUncertain))
      || ( && was.generation == f.generation && was.state == Reserved && was.id == f.id
           && (was.path == f.path || (was.path.None? && f.state == Started && n.piSession.Some?))
           && (f.state == LaunchFailed || f.state == ControlUncertain || (f.state == Started && n.piSession.Some?)))
      || (was.generation + 1 == f.generation && (was.state == Exited || was.state == LaunchFailed) &&
         f.state == Started)
  }

  function PiChange(m: Manifest, n: Node, f: PiLifecycle): Change {
    if !PiFactValid(n, f) then Refuse
    else if n.piLifecycle == Some(f) then Keep
    else if m.status.IsTerminal() || !PiStepAllowed(n, f) then Refuse
    else Update(n.(piLifecycle := Some(f)))
  }

  /** The kinds that act on one existing node. */
  predicate NodeLevel(b: Body) {
    !(b.RunCreated? || b.RunStatus? || b.NodeCreated? || b.SettlementIntent? || b.Audit?)
  }

  predicate IsPi(b: Body) { b.PiBound? || b.PiTransition? }

  /** The checks made before the target node is looked up. */
  predicate Gate(st: Store, id: NodeId, b: Body, run: RunId) {
    match b
    case WorkerExited(x) => x.Some? && x.value.attempt <= U32_MAX && (x.value.code.Some? != x.value.signal.Some?)
    case AwaitingInput(items) => items.Some? && ValidItems(items.value)
    case InputResolved(s) => s.Some?
    case Resumed(a) => a.Some? && a.value <= U32_MAX && st.manifest.Some? && st.manifest.value.resident
    case RoundReported(a) => a.Some? && a.value <= U32_MAX && st.manifest.Some? && st.manifest.value.resident
    case RoundLanded(o) => o.Some? && st.manifest.Some? && st.manifest.value.resident
    case MergeStarted(t) => t.Some? && st.manifest.Some? && LinkMatches(st.manifest.value, id, run, t.value)
    case MergeAborted(o) => o.Some?
    case PiBound(p) => p.Some? && st.manifest.Some? && st.manifest.value.owner == Caller
    case PiTransition(p) => p.Some? && st.manifest.Some? && st.manifest.value.owner == Caller
    case _ => true
  }

  function NodeChange(st: Store, id: NodeId, n: Node, ev: Event): Change
    requires NodeLevel(ev.body) && Gate(st, id, ev.body, ev.runId)
  {
    match ev.body
    case NodeStatus(s) => StatusChange(n, s)
    case NodeReport(r) => ReportChange(n, r)
    case NodeRetry(s, a) => RetryChange(n, s, a)
    case WorkerExited(x) => ExitChange(n, x.value, ev.ts)
    case DeathObserved => DeathChange(n, ev.ts)
    case AwaitingInput(items) => AwaitingChange(n, items.value, ev)
    case InputResolved(s) => ResolvedChange(n, s.value)
    case Resumed(a) => ResumedChange(n, a.value)
    case RoundReported(a) => RoundReportedChange(n, a.value)
    case RoundLanded(o) => RoundLandedChange(n, o.value)
    case MergeStarted(t) => MergeStartedChange(st.manifest.value, id, n, t.value)
    case MergeAborted(o) => MergeAbortedChange(n, o.value)
    case PiBound(p) => PiBoundChange(n, p.value)
    case PiTransition(p) => PiChange(st.manifest.value, n, p.value)
    case _ => Keep
  }

  function PlanNode(st: Store, ev: Event): Plan
    requires NodeLevel(ev.body)
  {
    if ev.nodeId.None? || !Gate(st, ev.nodeId.value, ev.body, ev.runId) then Rejected
    else if ev.nodeId.value !in st.nodes then (if IsPi(ev.body) then Rejected else Accepted([]))
    else match NodeChange(st, ev.nodeId.value, st.nodes[ev.nodeId.value], ev)
      case Keep => Accepted([])
      case Update(n) => Accepted([PutNode(ev.nodeId.value, n)])
      case Refuse => Rejected
  }

  /** The single plan behind both the append gate and every application. The log is read
      only for the failed-run recovery check, and only below the event's own sequence. */
  function PlanEvent(log: seq<Event>, st: Store, ev: Event): Plan {
    if ev.runId != st.run then Rejected else
    match ev.body
    case RunCreated(r) => PlanRunCreated(st, r)
    case RunStatus(_, _, _, _) => PlanRunStatus(log, st, ev)
    case NodeCreated(_) => PlanNodeCreated(st, ev)
    case SettlementIntent(_) => PlanSettlementIntent(st, ev)
    case Audit(_) => Accepted([])
    case _ => PlanNode(st, ev)
  }

  // ---- carrying a plan out ----

  function Write(st: Store, op: Op): Store {
    match op
    case PutManifest(m) => st.(manifest := Some(m))
    case PutNode(id, n) => st.(nodes := st.nodes[id := n])
  }

  function Commit(st: Store, ops: seq<Op>): Store {
    if ops == [] then st else Write(Commit(st, ops[..|ops| - 1]), ops[|ops| - 1])
  }

  /** The derived node counter, saturating like its 32-bit field. */
  function NodeCount(nodes: map<NodeId, Node>): nat {
    if |nodes| <= U32_MAX then |nodes| else U32_MAX
  }

  function Applied(st: Store): nat {
    if st.manifest.Some? then st.manifest.value.appliedSeq else 0
  }

  /** Move the watermark and re-derive the counter in one manifest write. */
  function Advance(st: Store, seqNo: nat): Store {
    if st.manifest.Some? && st.manifest.value.appliedSeq < seqNo
    then st.(manifest := Some(st.manifest.value.(appliedSeq := seqNo, nodeCount := NodeCount(st.nodes))))
    else st
  }

  /** One event fully applied; a refused event is skipped and leaves the watermark alone. */
  function Step(log: seq<Event>, st: Store, ev: Event): Store {
    match PlanEvent(log, st, ev)
    case Rejected => st
    case Accepted(ops) => Advance(Commit(st, ops), ev.seqNo)
  }

  function EmptyStore(run: RunId): Store { Store(run, None, map[]) }

  /** The reference meaning of a log: the events folded one by one from nothing. */
  function Fold(run: RunId, log: seq<Event>): Store {
    if log == [] then EmptyStore(run)
    else Step(log[..|log| - 1], Fold(run, log[..|log| - 1]), log[|log| - 1])
  }
}

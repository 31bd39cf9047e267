/** State and event shapes of one run. */
module Schema {
  import opened Prelude
  import opened Json

  const U32_MAX: nat := 0xFFFF_FFFF

  datatype Status = Pending | Running | Blocked | Done | Failed | Cancelled {
    predicate IsTerminal() {
      Done? || Failed? || Cancelled?
    }
  }

  predicate AllTerminal(ss: seq<Status>) {
    forall i :: 0 <= i < |ss| ==> ss[i].IsTerminal()
  }

  /** The run outcome a set of node statuses rolls up to: nothing while a node is live or
      none exists; a failure dominates a cancellation, which dominates success. */
  function Aggregate(ss: seq<Status>): Option<Status> {
    if ss == [] || !AllTerminal(ss) then None
    else if Failed in ss then Some(Failed)
    else if Cancelled in ss then Some(Cancelled)
    else Some(Done)
  }

  /** Which outcome a mix of node statuses has: none while one is live or there is none, Failed
      once any failed, Cancelled if none failed and any was cancelled, Done if all are. */
  ghost predicate RollsTo(ss: seq<Status>, r: Option<Status>) {
    match r
    case None => ss == [] || exists i :: 0 <= i < |ss| && !ss[i].IsTerminal()
    case Some(s) =>
      && ss != [] && (forall i :: 0 <= i < |ss| ==> ss[i].IsTerminal())
      && (s == Failed <==> exists i :: 0 <= i < |ss| && ss[i] == Failed)
      && (s == Cancelled <==>
            (forall i :: 0 <= i < |ss| ==> ss[i] != Failed) && exists i :: 0 <= i < |ss| && ss[i] == Cancelled)
      && (s == Done <==> forall i :: 0 <= i < |ss| ==> ss[i] == Done)
  }

  lemma AggregateIsRollsTo(ss: seq<Status>)
    ensures forall r :: RollsTo(ss, r) <==> r == Aggregate(ss)
  {
    forall r ensures RollsTo(ss, r) <==> r == Aggregate(ss) { RollUpIsOne(ss, r); }
  }

  lemma RollUpIsOne(ss: seq<Status>, r: Option<Status>)
    ensures RollsTo(ss, r) <==> r == Aggregate(ss)
  {
    forall s: Status ensures s in ss <==> exists i :: 0 <= i < |ss| && ss[i] == s {}
    if AllTerminal(ss) && Failed !in ss && Cancelled !in ss {
      forall i | 0 <= i < |ss| ensures ss[i] == Done { assert ss[i] in ss && ss[i].IsTerminal(); }
    }
    if ss != [] { assert ss[0] in ss; }
  }

  /** The one-pass roll-up over three flags. */
  method AggregateTerminalStatus(ss: seq<Status>) returns (r: Option<Status>)
    ensures RollsTo(ss, r)
    ensures r == Aggregate(ss)
  {
    AggregateIsRollsTo(ss);
    var any, anyFailed, anyCancelled := false, false, false;
    for i := 0 to |ss|
      invariant any == (i > 0)
      invariant AllTerminal(ss[..i])
      invariant anyFailed <==> Failed in ss[..i]
      invariant anyCancelled <==> Cancelled in ss[..i]
    {
      any := true;
      assert ss[..i + 1] == ss[..i] + [ss[i]];
      match ss[i] {
        case Done =>
        case Failed => anyFailed := true;
        case Cancelled => anyCancelled := true;
        case _ => return None;
      }
    }
    assert ss[..|ss|] == ss;
    if !any { return None; }
    return Some(if anyFailed then Failed else if anyCancelled then Cancelled else Done);
  }

  /** A validated node id: `n-` followed by these digits. */
  datatype NodeId = NodeId(digits: string)

  const DEFAULT_NODE := NodeId("0001")

  /** The numeric suffix node listings are sorted by. */
  function Suffix(digits: string): nat {
    if digits == [] || !('0' <= digits[|digits| - 1] <= '9') then 0
    else 10 * Suffix(digits[..|digits| - 1]) + (digits[|digits| - 1] as nat - '0' as nat)
  }

  type RunId = string

  datatype AgentOwner = Taskfleet | Caller

  datatype SettlementOperation = OpMerge | OpCancel | OpDiscard

  /** The write-once settlement fence of a caller-owned run. */
  datatype Intent = Intent(
    runId: RunId, nodeId: NodeId, key: string, operation: SettlementOperation, actor: string,
    reason: Option<string>, writerDev: nat, writerIno: nat, gateDev: nat, gateIno: nat,
    generation: nat, seqNo: nat)

  datatype Manifest = Manifest(
    status: Status, appliedSeq: nat, nodeCount: nat, owner: AgentOwner, resident: bool,
    sourceBranch: Option<string>, intent: Option<Intent>)

  datatype MergeLink = MergeLink(intentSeq: nat, intentKey: string, writerDev: nat, writerIno: nat)

  /** An in-flight merge transaction. */
  datatype MergeTxn = MergeTxn(
    opId: string, sourceBranch: string, workerBranch: string, link: Option<MergeLink>, landing: bool)

  datatype WorkerExit = WorkerExit(code: Option<int>, signal: Option<int>, at: nat)

  datatype Item = Item(topic: string, options: seq<string>, default: string)

  datatype Awaiting = Awaiting(openedAt: nat, eventSeq: nat, items: seq<Item>)

  datatype PiSession = PiSession(
    id: string, path: string, cwd: string, fileDev: nat, fileIno: nat, generation: Option<nat>)

  datatype PiState = Reserved | Started | LaunchFailed | Exited | ControlUncertain

  datatype PiLifecycle = PiLifecycle(
    generation: nat, id: string, path: Option<string>, state: PiState, reason: Option<string>)

  datatype Node = Node(
    status: Status, branch: Option<string>, worktree: Option<string>, lastReport: Option<Fields>,
    retryAttempts: nat, workerExit: Option<WorkerExit>, pendingMerge: Option<MergeTxn>,
    firstDeathAt: Option<nat>, awaiting: Option<Awaiting>,
    piSession: Option<PiSession>, piLifecycle: Option<PiLifecycle>)

  datatype RunSpec = RunSpec(owner: AgentOwner, resident: bool, sourceBranch: Option<string>)

  datatype Spawn = Spawn(branch: Option<string>, worktree: Option<string>, sourceBranch: Option<string>)

  datatype ExitFact = ExitFact(attempt: nat, code: Option<int>, signal: Option<int>)

  /** Event kinds with their payloads. An outer `None` stands for a payload whose required
      fields are missing or ill-typed; each reducer decides when that matters. `Audit`
      covers the kinds that write no projection, known or unknown. */
  datatype Body =
    | RunCreated(run: Option<RunSpec>)
    | RunStatus(runStatus: Option<Status>, recoverySeq: Option<nat>, childrenSuccessful: bool, note: Option<string>)
    | NodeCreated(spawn: Option<Spawn>)
    | NodeStatus(nodeStatus: Option<Status>)
    | NodeReport(report: Fields)
    | NodeRetry(respawn: Option<Spawn>, attempt: Option<nat>)
    | PiBound(binding: Option<PiSession>)
    | PiTransition(fact: Option<PiLifecycle>)
    | SettlementIntent(intent: Option<Intent>)
    | WorkerExited(exit: Option<ExitFact>)
    | DeathObserved
    | AwaitingInput(items: Option<seq<Item>>)
    | InputResolved(eventSeq: Option<nat>)
    | Resumed(resumeAttempt: Option<nat>)
    | RoundReported(roundAttempt: Option<nat>)
    | RoundLanded(landedOp: Option<string>)
    | MergeStarted(txn: Option<MergeTxn>)
    | MergeAborted(abortedOp: Option<string>)
    | Audit(kind: string)

  datatype Event = Event(
    seqNo: nat, ts: nat, runId: RunId, nodeId: Option<NodeId>, key: Option<string>, body: Body)

  /** The projections: one manifest file and one file per node. */
  datatype Store = Store(run: RunId, manifest: Option<Manifest>, nodes: map<NodeId, Node>)

  /** A log as the append protocol numbers it: sequence numbers are exactly 1..n. */
  predicate WellSeq(run: RunId, log: seq<Event>) {
    forall i :: 0 <= i < |log| ==> log[i].seqNo == i + 1 && log[i].runId == run
  }
}

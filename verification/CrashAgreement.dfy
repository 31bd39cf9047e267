/** What survives every crash, lossy windows included: the node set, the live/terminal split,
    exact terminal statuses, the run status, the node count and the watermark. */
module CrashAgreement {
  import opened Prelude
  import opened Schema
  import opened Report
  import opened NodeStatusFold
  import opened Reducer
  import opened ReducerLaws
  import opened Refold
  import opened Recovery
  import opened CrashSafety
  import opened LogFold

  // ---- outcomes read off the log ----

  /** The run status the log alone gives; none before the run is created. */
  function LogRunStatus(log: seq<Event>): Option<Status> {
    if log == [] then None
    else
      var pre, ev := log[..|log| - 1], log[|log| - 1];
      match LogRunStatus(pre)
      case None => if ev.body.RunCreated? && ev.body.run.Some? then Some(Pending) else None
      case Some(cur) => Some(RunAfter(pre, cur, ev))
  }

  lemma {:induction false} LogRunStatusSnoc(pre: seq<Event>, ev: Event)
    ensures LogRunStatus(pre + [ev]) ==
            match LogRunStatus(pre)
            case None => if ev.body.RunCreated? && ev.body.run.Some? then Some(Pending) else None
            case Some(cur) => Some(RunAfter(pre, cur, ev))
  {
    assert (pre + [ev])[..|pre|] == pre;
  }

  /** Once created the run has a status, and a terminal one stays terminal. */
  lemma {:induction false} LogRunStatusGrows(log: seq<Event>, l: seq<Event>)
    requires log <= l && LogRunStatus(log).Some?
    ensures LogRunStatus(l).Some?
    ensures LogRunStatus(log).value.IsTerminal() ==> LogRunStatus(l).value.IsTerminal()
  {
    if |l| == |log| {
      assert l == log;
    } else {
      LogRunStatusGrows(log, l[..|l| - 1]);
    }
  }

  lemma {:induction false} FoldStatusSnoc(pre: seq<Event>, ev: Event)
    ensures FoldStatus(pre + [ev]) == Observe(FoldStatus(pre), ev)
  {
    assert (pre + [ev])[..|pre|] == pre;
  }

  function ManifestStatus(st: Store): Option<Status> {
    if st.manifest.Some? then Some(st.manifest.value.status) else None
  }

  /** The store shows the outcomes of the log. */
  ghost predicate Shows(log: seq<Event>, st: Store) {
    Agree(FoldStatus(log), st) && LogRunStatus(log) == ManifestStatus(st)
  }

  /** The event passes the gate of any store that shows `pre`, as far as outcomes go. */
  predicate Fit(pre: seq<Event>, ev: Event) {
    var a := FoldStatus(pre).status;
    match ev.body
    case NodeStatus(s) => ev.nodeId.Some? && (ev.nodeId.value in a ==> s.Some?)
    case NodeReport(r) =>
      ev.nodeId.Some? && (ev.nodeId.value in a && !a[ev.nodeId.value].IsTerminal() ==> StrictOutcome(r).Some?)
    case NodeCreated(sp) => ev.nodeId.Some? && (ev.nodeId.value !in a ==> sp.Some?)
    case RunStatus(s, _, _, _) => LogRunStatus(pre).Some? ==> s.Some?
    case _ => true
  }

  ghost predicate Sound(log: seq<Event>) {
    forall i {:trigger Fit(log[..i], log[i])} :: 0 <= i < |log| ==> Fit(log[..i], log[i])
  }

  lemma SoundAppend(log: seq<Event>, ev: Event)
    requires Sound(log) && Fit(log, ev)
    ensures Sound(log + [ev])
  {
    var l := log + [ev];
    forall i | 0 <= i < |l| ensures Fit(l[..i], l[i]) {
      if i < |log| { assert l[..i] == log[..i] && l[i] == log[i]; } else { assert l[..i] == log; }
    }
  }

  lemma SoundInit(log: seq<Event>)
    requires Sound(log) && |log| > 0
    ensures Sound(log[..|log| - 1]) && Fit(log[..|log| - 1], log[|log| - 1])
  {
    var pre := log[..|log| - 1];
    forall i | 0 <= i < |pre| ensures Fit(pre[..i], pre[i]) {
      assert pre[..i] == log[..i] && pre[i] == log[i];
      assert Fit(log[..i], log[i]);
    }
    assert Fit(log[..|log| - 1], log[|log| - 1]);
  }

  /** The kinds whose folding, at any time and any number of times, leaves outcomes alone. */
  predicate Harmless(b: Body) {
    !(b.NodeStatus? || b.NodeReport? || b.NodeCreated? || b.RunStatus? || b.RunCreated?)
  }

  /** What the gate admits is fit. */
  lemma AcceptedIsFit(pre: seq<Event>, log: seq<Event>, st: Store, ev: Event)
    requires Shows(pre, st) && PlanEvent(log, st, ev).Accepted?
    ensures Fit(pre, ev)
  {
    if ev.body.NodeStatus? || ev.body.NodeReport? {
      assert ev.nodeId.Some?;
      if ev.nodeId.value in st.nodes {
        assert Agrees(FoldStatus(pre).status[ev.nodeId.value], st.nodes[ev.nodeId.value].status);
      }
    }
  }

  // ---- stores that show a log, step by step ----

  lemma SameShows(log: seq<Event>, a: Store, b: Store)
    requires Same(a, b) && Shows(log, b)
    ensures Shows(log, a)
  {
    forall id | id in a.nodes ensures Agrees(FoldStatus(log).status[id], a.nodes[id].status) {
      assert SameNode(a.nodes[id], b.nodes[id]);
    }
  }

  /** Replacing one node by one of agreeing status. */
  lemma {:induction false} PutShows(log: seq<Event>, st: Store, id: NodeId, n: Node)
    requires Shows(log, st) && id in st.nodes && Agrees(FoldStatus(log).status[id], n.status)
    ensures Shows(log, Put(st, id, n))
  {}

  lemma HarmlessNode(st: Store, id: NodeId, n: Node, ev: Event)
    requires NodeLevel(ev.body) && Harmless(ev.body) && Gate(st, id, ev.body, ev.runId)
    ensures After(n, NodeChange(st, id, n, ev)).status.IsTerminal() == n.status.IsTerminal()
    ensures n.status.IsTerminal() ==> After(n, NodeChange(st, id, n, ev)).status == n.status
  {}

  lemma HarmlessShows(log: seq<Event>, over: seq<Event>, st: Store, ev: Event, k: nat)
    requires Shows(log, st) && Harmless(ev.body)
    ensures Shows(log, Cut(over, st, ev, k))
  {
    if NodeLevel(ev.body) {
      CutReaching(over, st, ev, k);
      if Reaches(st, ev) {
        var id := ev.nodeId.value;
        HarmlessNode(st, id, st.nodes[id], ev);
        PutShows(log, st, id, After(st.nodes[id], NodeChange(st, id, st.nodes[id], ev)));
      }
    } else if PlanEvent(over, st, ev).Accepted? {
      CutShort(over, st, ev, k);
    }
  }

  lemma {:induction false} HarmlessFolds(pre: seq<Event>, ev: Event)
    requires Harmless(ev.body)
    ensures FoldStatus(pre + [ev]).status == FoldStatus(pre).status
    ensures LogRunStatus(pre).Some? ==> LogRunStatus(pre + [ev]) == LogRunStatus(pre)
  {
    FoldStatusSnoc(pre, ev);
    LogRunStatusSnoc(pre, ev);
  }

  /** One node set or added on both sides. */
  lemma AgreePut(a: Acc, b: Acc, st: Store, id: NodeId, x: Status, n: Node)
    requires Agree(a, st) && b.status == a.status[id := x] && Agrees(x, n.status)
    ensures Agree(b, Put(st, id, n))
  {}

  /** Only a run status or run creation moves the run status. */
  lemma {:induction false} RunStatusStays(pre: seq<Event>, ev: Event)
    requires !ev.body.RunStatus? && !ev.body.RunCreated?
    ensures LogRunStatus(pre + [ev]) == LogRunStatus(pre)
  {
    LogRunStatusSnoc(pre, ev);
  }

  /** A status or report event, the first time it is folded. */
  lemma StatusShows(pre: seq<Event>, over: seq<Event>, st: Store, ev: Event, k: nat)
    requires Shows(pre, st) && Fit(pre, ev) && ev.runId == st.run && (ev.body.NodeStatus? || ev.body.NodeReport?)
    ensures PlanEvent(over, st, ev).Accepted?
    ensures Shows(if k == 0 then pre else pre + [ev], Cut(over, st, ev, k))
  {
    FoldStatusSnoc(pre, ev);
    RunStatusStays(pre, ev);
    CutReaching(over, st, ev, k);
    PlanIsNodePlan(over, st, ev);
    var id := ev.nodeId.value;
    if id in st.nodes {
      var cur, n := FoldStatus(pre).status[id], After(st.nodes[id], NodeChange(st, id, st.nodes[id], ev));
      StatusFits(st, id, ev, cur);
      AgreePut(FoldStatus(pre), FoldStatus(pre + [ev]), st, id, StatusAfter(cur, ev.body), n);
    }
  }

  lemma StatusFits(st: Store, id: NodeId, ev: Event, cur: Status)
    requires (ev.body.NodeStatus? || ev.body.NodeReport?) && id in st.nodes && Agrees(cur, st.nodes[id].status)
    requires ev.nodeId == Some(id) && ev.runId == st.run
    requires ev.body.NodeStatus? ==> ev.body.nodeStatus.Some?
    requires ev.body.NodeReport? && !cur.IsTerminal() ==> StrictOutcome(ev.body.report).Some?
    ensures Reaches(st, ev)
    ensures Agrees(StatusAfter(cur, ev.body), After(st.nodes[id], NodeChange(st, id, st.nodes[id], ev)).status)
  {
    NodeAgrees(st, id, st.nodes[id], ev, cur);
  }

  /** The same event folded again over a store that already shows it. */
  lemma StatusShowsAgain(pre: seq<Event>, over: seq<Event>, st: Store, ev: Event, k: nat)
    requires Shows(pre + [ev], st) && Fit(pre, ev) && ev.runId == st.run && (ev.body.NodeStatus? || ev.body.NodeReport?)
    ensures PlanEvent(over, st, ev).Accepted?
    ensures Shows(pre + [ev], Cut(over, st, ev, k))
  {
    FoldStatusSnoc(pre, ev);
    CutReaching(over, st, ev, k);
    var id := ev.nodeId.value;
    if id in st.nodes {
      StatusAgain(st.nodes[id], ev.body, FoldStatus(pre).status[id]);
      if Reaches(st, ev) {
        PutShows(pre + [ev], st, id, After(st.nodes[id], NodeChange(st, id, st.nodes[id], ev)));
      }
    }
  }

  function StatusBodyChange(n: Node, b: Body): Change
    requires b.NodeStatus? || b.NodeReport?
  {
    if b.NodeStatus? then StatusChange(n, b.nodeStatus) else ReportChange(n, b.report)
  }

  lemma StatusAgain(n: Node, b: Body, cur: Status)
    requires b.NodeStatus? || b.NodeReport?
    requires b.NodeStatus? ==> b.nodeStatus.Some?
    requires b.NodeReport? && !cur.IsTerminal() ==> StrictOutcome(b.report).Some?
    requires Agrees(StatusAfter(cur, b), n.status)
    ensures !StatusBodyChange(n, b).Refuse? && Agrees(StatusAfter(cur, b), After(n, StatusBodyChange(n, b)).status)
  {
    if b.NodeReport? { SkimIsFaithful(b.report); }
  }

  /** The store after the first `k` writes of a creation. */
  lemma CreationCut(over: seq<Event>, st: Store, ev: Event, k: nat)
    requires ev.body.NodeCreated? && PlanEvent(over, st, ev).Accepted?
    ensures ManifestStatus(Cut(over, st, ev, k)) == ManifestStatus(st)
    ensures Cut(over, st, ev, k).nodes ==
            if k == 0 || ev.nodeId.value in st.nodes then st.nodes
            else st.nodes[ev.nodeId.value := FreshNode(ev.body.spawn.value)]
  {
    CutShort(over, st, ev, k);
  }

  /** A node creation, cut anywhere. */
  lemma CreationShows(pre: seq<Event>, over: seq<Event>, st: Store, ev: Event, k: nat)
    requires Shows(pre, st) && Fit(pre, ev) && ev.runId == st.run && ev.body.NodeCreated?
    ensures PlanEvent(over, st, ev).Accepted?
    ensures Shows(if k == 0 then pre else pre + [ev], Cut(over, st, ev, k))
    ensures k > 0 ==> ev.nodeId.value in Cut(over, st, ev, k).nodes
  {
    FoldStatusSnoc(pre, ev);
    RunStatusStays(pre, ev);
    CreationAccepted(over, st, ev);
    CreationCut(over, st, ev, k);
    if k > 0 && ev.nodeId.value !in st.nodes {
      AgreePut(FoldStatus(pre), FoldStatus(pre + [ev]), st, ev.nodeId.value, Pending, FreshNode(ev.body.spawn.value));
    }
  }

  lemma CreationAccepted(over: seq<Event>, st: Store, ev: Event)
    requires ev.body.NodeCreated? && ev.runId == st.run && ev.nodeId.Some?
    requires (ev.nodeId.value !in st.nodes ==> ev.body.spawn.Some?)
    ensures PlanEvent(over, st, ev).Accepted?
  {}

  lemma CreationShowsAgain(pre: seq<Event>, over: seq<Event>, st: Store, ev: Event, k: nat)
    requires Shows(pre + [ev], st) && Fit(pre, ev) && ev.runId == st.run && ev.body.NodeCreated?
    ensures PlanEvent(over, st, ev) == Accepted([]) && Cut(over, st, ev, k) == st && ev.nodeId.value in st.nodes
  {
    FoldStatusSnoc(pre, ev);
    assert ev.nodeId.value in st.nodes;
    CutShort(over, st, ev, k);
  }

  /** A run status or creation, cut anywhere. */
  lemma RunShows(pre: seq<Event>, over: seq<Event>, st: Store, ev: Event, k: nat)
    requires Shows(pre, st) && Fit(pre, ev) && ev.runId == st.run && st.manifest.Some?
    requires (ev.body.RunStatus? || ev.body.RunCreated?) && SameBefore(pre, over, ev.seqNo)
    ensures PlanEvent(over, st, ev).Accepted?
    ensures Shows(if k == 0 then pre else pre + [ev], Cut(over, st, ev, k))
  {
    FoldStatusSnoc(pre, ev);
    LogRunStatusSnoc(pre, ev);
    VerdictDependsOnBefore(pre, over, ev.seqNo);
    CutShort(over, st, ev, k);
  }

  lemma {:induction false} RunShowsAgain(pre: seq<Event>, over: seq<Event>, st: Store, ev: Event, k: nat)
    requires Shows(pre + [ev], st) && Fit(pre, ev) && ev.runId == st.run && LogRunStatus(pre).Some?
    requires (ev.body.RunStatus? || ev.body.RunCreated?) && SameBefore(pre, over, ev.seqNo)
    ensures PlanEvent(over, st, ev) == Accepted([]) && Cut(over, st, ev, k) == st
  {
    LogRunStatusSnoc(pre, ev);
    VerdictDependsOnBefore(pre, over, ev.seqNo);
    CutShort(over, st, ev, k);
  }

  /** Folding the next event, cut anywhere: the store shows the log before it or with it. */
  lemma ShowsNext(pre: seq<Event>, over: seq<Event>, st: Store, ev: Event, k: nat)
    requires Shows(pre, st) && Fit(pre, ev) && ev.runId == st.run && st.manifest.Some?
    requires SameBefore(pre, over, ev.seqNo)
    ensures Shows(pre, Cut(over, st, ev, k)) || Shows(pre + [ev], Cut(over, st, ev, k))
    ensures k > 0 ==> Shows(pre + [ev], Cut(over, st, ev, k))
    ensures !Harmless(ev.body) ==> PlanEvent(over, st, ev).Accepted?
    ensures ev.body.NodeCreated? && k > 0 ==> ev.nodeId.Some? && ev.nodeId.value in Cut(over, st, ev, k).nodes
  {
    if Harmless(ev.body) {
      HarmlessShows(pre, over, st, ev, k);
      HarmlessFolds(pre, ev);
    } else if ev.body.NodeCreated? {
      CreationShows(pre, over, st, ev, k);
    } else if ev.body.RunStatus? || ev.body.RunCreated? {
      RunShows(pre, over, st, ev, k);
    } else {
      StatusShows(pre, over, st, ev, k);
    }
  }

  /** Folding the last event again, cut anywhere, over a store that shows it. */
  lemma {:induction false} ShowsAgain(pre: seq<Event>, over: seq<Event>, st: Store, ev: Event, k: nat)
    requires Shows(pre + [ev], st) && Fit(pre, ev) && ev.runId == st.run && LogRunStatus(pre).Some?
    requires SameBefore(pre, over, ev.seqNo)
    ensures Shows(pre + [ev], Cut(over, st, ev, k))
    ensures !Harmless(ev.body) ==> PlanEvent(over, st, ev).Accepted?
    ensures ev.body.NodeCreated? ==> ev.nodeId.Some? && ev.nodeId.value in st.nodes && Cut(over, st, ev, k) == st
  {
    if Harmless(ev.body) {
      HarmlessShows(pre + [ev], over, st, ev, k);
    } else if ev.body.NodeCreated? {
      CreationShowsAgain(pre, over, st, ev, k);
    } else if ev.body.RunStatus? || ev.body.RunCreated? {
      RunShowsAgain(pre, over, st, ev, k);
    } else {
      StatusShowsAgain(pre, over, st, ev, k);
    }
  }

  // ---- the invariant of every history ----

  /** Caught up in outcomes. */
  ghost predicate AtRest(log: seq<Event>, st: Store) {
    Shows(log, st) && CountOk(st) && InertTail(log, st, |log|)
  }

  /** The store is what some accepting store became by the first `k` writes of the event. */
  ghost predicate CutOf(pre: seq<Event>, st: Store, ev: Event, was: Store, k: nat) {
    CountOk(was) && was.manifest.Some? && PlanEvent(pre, was, ev).Accepted? && Same(st, Cut(pre, was, ev, k))
  }

  /** The last event is logged but not acknowledged; some of its writes may be on disk, once
      or more often. */
  ghost predicate InTheAir(log: seq<Event>, st: Store) {
    && |log| > 0 && Applied(st) < |log| && InertTail(log, st, |log| - 1)
    && var pre, ev := log[..|log| - 1], log[|log| - 1];
       && !ev.body.AwaitingInput? && LogRunStatus(pre).Some?
       && (CountOk(st) || (ev.body.NodeCreated? && ev.nodeId.Some? && ev.nodeId.value in st.nodes))
       && (Shows(pre, st) || Shows(log, st))
       && CutOfSome(pre, st, ev)
  }

  ghost predicate AnyDisk(log: seq<Event>, st: Store) {
    OnDisk(log, st) && Sound(log) && (AtRest(log, st) || InTheAir(log, st))
  }

  /** Refused on the second fold: inert from then on. */
  lemma RefusedInTheAir(log: seq<Event>, st: Store, was: Store, k: nat)
    requires OnDisk(log, st) && |log| > 0 && CountOk(st) && !log[|log| - 1].body.AwaitingInput?
    requires !log[|log| - 1].body.NodeCreated?
    requires CutOf(log[..|log| - 1], st, log[|log| - 1], was, k) && PlanEvent(log, st, log[|log| - 1]).Rejected?
    ensures Inert(st, log[|log| - 1])
  {
    var pre, ev := log[..|log| - 1], log[|log| - 1];
    var c := Cut(pre, was, ev, k);
    CutShort(pre, was, ev, k);
    CutShort(pre, was, ev, 2);
    PlanShape(pre, was, ev);
    CutKeepsApplied(pre, was, ev, k);
    CutEvolves(pre, was, ev, k);
    CutSame(log, st, c, ev, 0);
    PlanIsStable(st.run, log, was, |log| - 1);
    if c != was {
      CutIsCommit(pre, was, ev);
      RefoldLanded(pre, was, ev, log, c);
      RefusedIsInert(pre, was, ev, c);
      SameBack(st, c);
      InertSame(c, st, ev);
    }
  }

  /** A cut of the event in the air. */
  lemma AirCut(log: seq<Event>, st: Store, k: nat)
    requires OnDisk(log, st) && Sound(log) && InTheAir(log, st)
    ensures var c := Cut(log, st, log[|log| - 1], k); OnDisk(log, c) && InTheAir(log, c) && c.run == st.run
  {
    var pre, ev := log[..|log| - 1], log[|log| - 1];
    var c := Cut(log, st, ev, k);
    AirShows(log, st, k);
    CutEvolves(log, st, ev, k);
    CutKeepsApplied(log, st, ev, k);
    PlanIsStable(st.run, log, st, |log| - 1);
    forall j | Applied(st) <= j < |log| - 1 ensures Inert(c, log[j]) { InertStays(log, st, ev, log[j], k); }
    if c != st {
      SameSelf(c);
      assert CutOf(pre, c, ev, st, k);
    }
  }

  lemma SameSelf(a: Store)
    ensures Same(a, a)
  {}

  lemma AirShows(log: seq<Event>, st: Store, k: nat)
    requires OnDisk(log, st) && Sound(log) && InTheAir(log, st)
    ensures var pre, ev, c := log[..|log| - 1], log[|log| - 1], Cut(log, st, log[|log| - 1], k);
            && (Shows(pre, c) || Shows(log, c)) && (k > 0 ==> Shows(log, c))
            && (!Harmless(ev.body) ==> PlanEvent(log, st, ev).Accepted?)
            && (c != st ==> CountOk(st))
            && (ev.body.NodeCreated? && k > 0 ==> ev.nodeId.Some? && ev.nodeId.value in c.nodes)
  {
    var pre, ev := log[..|log| - 1], log[|log| - 1];
    assert log == pre + [ev];
    SoundInit(log);
    PlanIsStable(st.run, log, st, |log| - 1);
    if Shows(log, st) { ShowsAgain(pre, log, st, ev, k); } else { ShowsNext(pre, log, st, ev, k); }
    if !CountOk(st) { AirCountLags(log, st, k); }
  }

  /** A count that lags is that of a creation whose node is there already. */
  lemma AirCountLags(log: seq<Event>, st: Store, k: nat)
    requires OnDisk(log, st) && InTheAir(log, st) && !CountOk(st)
    ensures Cut(log, st, log[|log| - 1], k) == st
  {
    CutShort(log, st, log[|log| - 1], k);
  }

  /** Folding the event in the air comes to rest. */
  lemma AirLands(log: seq<Event>, st: Store)
    requires OnDisk(log, st) && Sound(log) && InTheAir(log, st)
    ensures var s := Step(log, st, log[|log| - 1]); OnDisk(log, s) && AtRest(log, s) && s.run == st.run
  {
    var ev := log[|log| - 1];
    AirShows(log, st, 2);
    StepEvolves(log, st, ev);
    if PlanEvent(log, st, ev).Accepted? {
      CutIsCommit(log, st, ev);
      CutKeepsApplied(log, st, ev, 2);
      AdvanceSame(Cut(log, st, ev, 2), ev.seqNo);
      SameShows(log, Step(log, st, ev), Cut(log, st, ev, 2));
    } else {
      var was, k :| CutOf(log[..|log| - 1], st, ev, was, k);
      RefusedInTheAir(log, st, was, k);
    }
  }

  /** A store that differs from one at rest only in open requests. */
  lemma RestNeutral(log: seq<Event>, st: Store, e: Store)
    requires OnDisk(log, e) && AtRest(log, st) && Same(e, st) && InertTail(log, e, |log|) && CountOk(e)
    ensures AtRest(log, e)
  {
    SameShows(log, e, st);
  }

  ghost predicate CutOfSome(pre: seq<Event>, st: Store, ev: Event) {
    exists was, k :: CutOf(pre, st, ev, was, k)
  }

  lemma CutOfSame(pre: seq<Event>, st: Store, ev: Event, e: Store)
    requires CutOfSome(pre, st, ev) && Same(e, st)
    ensures CutOfSome(pre, e, ev)
  {
    var was, k :| CutOf(pre, st, ev, was, k);
    SameTrans(e, st, Cut(pre, was, ev, k));
    assert CutOf(pre, e, ev, was, k);
  }

  lemma AirNeutral(log: seq<Event>, st: Store, e: Store)
    requires OnDisk(log, e) && InTheAir(log, st) && Same(e, st) && InertTail(log, e, |log| - 1)
    requires Applied(e) < |log| && (CountOk(st) ==> CountOk(e))
    ensures InTheAir(log, e)
  {
    if Shows(log, st) { SameShows(log, e, st); } else { SameShows(log[..|log| - 1], e, st); }
    CutOfSame(log[..|log| - 1], st, log[|log| - 1], e);
  }

  /** How far the tail above the watermark is known to be inert. */
  ghost function Calm(log: seq<Event>, st: Store): nat
    requires AnyDisk(log, st)
  {
    if AtRest(log, st) then |log| else |log| - 1
  }

  lemma NeutralAny(log: seq<Event>, st: Store, e: Store)
    requires AnyDisk(log, st) && e.run == st.run && OnDisk(log, e) && Same(e, st) && InertTail(log, e, Calm(log, st))
    requires (Applied(e) == Applied(st) || Applied(e) <= Calm(log, st)) && (CountOk(st) ==> CountOk(e))
    ensures AnyDisk(log, e) && (AtRest(log, st) ==> AtRest(log, e)) && (!AtRest(log, st) ==> InTheAir(log, e))
  {
    if AtRest(log, st) { RestNeutral(log, st, e); } else { AirNeutral(log, st, e); }
  }

  lemma {:induction false} ReplayAny(log: seq<Event>, st: Store, i: nat)
    requires AnyDisk(log, st) && i <= Calm(log, st)
    ensures var s := ReplayTo(log, Applied(st), st, i);
            && s.run == st.run && AnyDisk(log, s) && Same(s, st)
            && (AtRest(log, st) ==> AtRest(log, s)) && (!AtRest(log, st) ==> InTheAir(log, s))
  {
    InertReplay(log, st, Calm(log, st), i);
    NeutralAny(log, st, ReplayTo(log, Applied(st), st, i));
  }

  lemma CatchUpRests(log: seq<Event>, st: Store)
    requires AnyDisk(log, st)
    ensures var s := CatchUp(log, st); OnDisk(log, s) && AnyDisk(log, s) && AtRest(log, s) && s.run == st.run
  {
    ReplayAny(log, st, Calm(log, st));
    if !AtRest(log, st) { AirCatchesUp(log, st); }
  }

  lemma AirCatchesUp(log: seq<Event>, st: Store)
    requires OnDisk(log, st) && Sound(log) && |log| > 0 && Applied(st) < |log|
    requires var s := ReplayTo(log, Applied(st), st, |log| - 1); s.run == st.run && OnDisk(log, s) && InTheAir(log, s)
    ensures var s := CatchUp(log, st); OnDisk(log, s) && AtRest(log, s) && s.run == st.run
  {
    AirLands(log, ReplayTo(log, Applied(st), st, |log| - 1));
  }

  lemma CalmCut(log: seq<Event>, st: Store, i: nat, k: nat)
    requires AnyDisk(log, st) && Applied(st) <= i < Calm(log, st)
    ensures var c := Cut(log, st, log[i], k); AnyDisk(log, c) && c.run == st.run
  {
    assert Inert(st, log[i]);
    InertCutKeeps(log, st, log[i], k, Calm(log, st));
    NeutralAny(log, st, Cut(log, st, log[i], k));
  }

  lemma ReplayCutAny(d: Disk, e: Disk, i: nat, k: nat)
    requires AnyDisk(d.log, d.st) && ReplayCut(Nothing, d, e, i, k)
    ensures AnyDisk(e.log, e.st) && e.st.run == d.st.run
  {
    ReplayCutAnyAt(d.log, d.st, i, k);
  }

  lemma {:induction false} ReplayCutAnyAt(log: seq<Event>, st: Store, i: nat, k: nat)
    requires AnyDisk(log, st) && i < |log| && log[i].seqNo > Applied(st)
    ensures var c := Cut(log, ReplayTo(log, Applied(st), st, i), log[i], k); AnyDisk(log, c) && c.run == st.run
  {
    ReplayCutIndex(log, st, i);
    if i < Calm(log, st) { CalmReplayCut(log, st, i, k); } else { AirReplayCut(log, st, k); }
  }

  lemma {:induction false} CalmReplayCut(log: seq<Event>, st: Store, i: nat, k: nat)
    requires AnyDisk(log, st) && Applied(st) <= i < Calm(log, st)
    ensures var c := Cut(log, ReplayTo(log, Applied(st), st, i), log[i], k); AnyDisk(log, c) && c.run == st.run
  {
    ReplayAny(log, st, i);
    WalkedBelow(log, st, i);
    CalmCut(log, ReplayTo(log, Applied(st), st, i), i, k);
  }

  lemma AirReplayCut(log: seq<Event>, st: Store, k: nat)
    requires AnyDisk(log, st) && !AtRest(log, st) && |log| > 0
    ensures var c := Cut(log, ReplayTo(log, Applied(st), st, |log| - 1), log[|log| - 1], k);
            AnyDisk(log, c) && c.run == st.run
  {
    AirWalk(log, st);
    AirCutAny(log, ReplayTo(log, Applied(st), st, |log| - 1), k);
  }

  lemma AirWalk(log: seq<Event>, st: Store)
    requires AnyDisk(log, st) && !AtRest(log, st) && |log| > 0
    ensures var s := ReplayTo(log, Applied(st), st, |log| - 1); s.run == st.run && AnyDisk(log, s) && InTheAir(log, s)
  {
    ReplayAny(log, st, |log| - 1);
  }

  lemma AirCutAny(log: seq<Event>, s: Store, k: nat)
    requires AnyDisk(log, s) && InTheAir(log, s)
    ensures var c := Cut(log, s, log[|log| - 1], k); AnyDisk(log, c) && c.run == s.run
  {
    AirCut(log, s, k);
  }

  lemma {:induction false} WalkedBelow(log: seq<Event>, st: Store, i: nat)
    requires AnyDisk(log, st) && Applied(st) <= i <= Calm(log, st)
    ensures Applied(ReplayTo(log, Applied(st), st, i)) <= i
  {
    InertReplay(log, st, Calm(log, st), i);
  }

  lemma RefoldCutAny(d: Disk, e: Disk, k: nat)
    requires AnyDisk(d.log, d.st) && RefoldCut(Nothing, d, e, k)
    ensures AnyDisk(e.log, e.st) && e.st.run == d.st.run
  {
    LastCutAny(d.log, d.st, k);
  }

  lemma LastCutAny(log: seq<Event>, st: Store, k: nat)
    requires AnyDisk(log, st) && |log| > 0 && log[|log| - 1].seqNo > Applied(st)
    ensures var c := Cut(log, st, log[|log| - 1], k); AnyDisk(log, c) && c.run == st.run
  {
    ReplayCutIndex(log, st, |log| - 1);
    if AtRest(log, st) { CalmCut(log, st, |log| - 1, k); } else { AirCut(log, st, k); }
  }

  /** The event just logged, none of its writes done. */
  lemma AppendInTheAir(log: seq<Event>, s: Store, ev: Event)
    requires OnDisk(log, s) && AtRest(log, s) && Sound(log) && ev.seqNo == |log| + 1 && ev.runId == s.run
    requires PlanEvent(log, s, ev).Accepted? && !ev.body.AwaitingInput?
    ensures InTheAir(log + [ev], s) && OnDisk(log + [ev], s) && Sound(log + [ev])
  {
    var l := log + [ev];
    assert l[..|log|] == log && l[|log|] == ev;
    AcceptedIsFit(log, log, s, ev);
    SoundAppend(log, ev);
    forall j | Applied(s) <= j < |log| ensures Inert(s, l[j]) { assert l[j] == log[j]; }
    CutShort(log, s, ev, 0);
    SameSelf(s);
    assert CutOf(log, s, ev, s, 0);
  }

  lemma AppendAny(d: Disk, ev: Event, k: nat)
    requires AnyDisk(d.log, d.st) && Admits(d, ev)
    ensures var s := CatchUp(d.log, d.st);
            && AnyDisk(d.log + [ev], Cut(d.log, s, ev, k)) && Cut(d.log, s, ev, k).run == d.st.run
            && AnyDisk(d.log + [ev], Step(d.log, s, ev)) && AtRest(d.log + [ev], Step(d.log, s, ev))
            && Step(d.log, s, ev).run == d.st.run
  {
    CatchUpRests(d.log, d.st);
    var s, l := CatchUp(d.log, d.st), d.log + [ev];
    assert l[..|d.log|] == d.log && l[|d.log|] == ev;
    if ev.body.AwaitingInput? {
      AppendRequest(d.log, s, ev, k);
    } else {
      AppendInTheAir(d.log, s, ev);
      PlanIsStable(s.run, l, s, |d.log|);
      AirCut(l, s, k);
      AirLands(l, s);
    }
  }

  lemma AppendRequest(log: seq<Event>, s: Store, ev: Event, k: nat)
    requires OnDisk(log, s) && AtRest(log, s) && Sound(log) && ev.seqNo == |log| + 1 && ev.runId == s.run
    requires PlanEvent(log, s, ev).Accepted? && ev.body.AwaitingInput?
    ensures AnyDisk(log + [ev], Cut(log, s, ev, k)) && Cut(log, s, ev, k).run == s.run
    ensures AnyDisk(log + [ev], Step(log, s, ev)) && AtRest(log + [ev], Step(log, s, ev))
    ensures Step(log, s, ev).run == s.run
  {
    AcceptedIsFit(log, log, s, ev);
    SoundAppend(log, ev);
    InertCutKeeps(log, s, ev, k, |log|);
    InertStep(log, s, ev);
    forall j | Applied(s) <= j < |log| ensures Inert(Step(log, s, ev), log[j]) { InertStays(log, s, ev, log[j], k); }
    RequestRests(log, s, ev, Cut(log, s, ev, k));
    RequestRests(log, s, ev, Step(log, s, ev));
  }

  lemma RequestRests(log: seq<Event>, s: Store, ev: Event, c: Store)
    requires AtRest(log, s) && OnDisk(log, s) && ev.body.AwaitingInput? && ev.seqNo == |log| + 1 && ev.runId == s.run
    requires c.run == s.run && c.manifest.Some? && Same(c, s) && CountOk(c) && Applied(c) <= |log| + 1
    requires forall j :: Applied(s) <= j < |log| ==> Inert(c, log[j])
    requires Applied(s) <= Applied(c)
    ensures OnDisk(log + [ev], c) && AtRest(log + [ev], c)
  {
    var l := log + [ev];
    HarmlessFolds(log, ev);
    SameShows(log, c, s);
    forall j | Applied(c) <= j < |l| ensures Inert(c, l[j]) { if j < |log| { assert l[j] == log[j]; } }
  }

  /** Every lock hold, cut by a crash anywhere, keeps the invariant. */
  lemma HoldKeepsAny(d: Disk, e: Disk)
    requires AnyDisk(d.log, d.st) && Hold(Nothing, d, e)
    ensures AnyDisk(e.log, e.st) && e.st.run == d.st.run && d.log <= e.log
  {
    if i, k :| ReplayCut(Nothing, d, e, i, k) {
      ReplayCutAny(d, e, i, k);
    } else if k :| RefoldCut(Nothing, d, e, k) {
      RefoldCutAny(d, e, k);
    } else if ev, k :| AppendCut(Nothing, d, e, ev, k) {
      AppendAny(d, ev, k);
    } else if ev :| FullAppend(d, e, ev) {
      AppendAny(d, ev, 0);
    } else {
      CatchUpRests(d.log, d.st);
    }
  }

  /** Leaving crashes out only shrinks what a hold can do. */
  lemma HoldWidens(w: LeaveOut, d: Disk, e: Disk)
    requires Hold(w, d, e)
    ensures Hold(Nothing, d, e)
  {
    if i, k :| ReplayCut(w, d, e, i, k) {
      assert ReplayCut(Nothing, d, e, i, k);
    } else if k :| RefoldCut(w, d, e, k) {
      assert RefoldCut(Nothing, d, e, k);
    } else if ev, k :| AppendCut(w, d, e, ev, k) {
      assert AppendCut(Nothing, d, e, ev, k);
    }
  }

  // ---- the reference fold shows the log too ----

  lemma {:induction false} SoundFoldShows(run: RunId, log: seq<Event>)
    requires WellSeq(run, log) && Sound(log)
    ensures Shows(log, Fold(run, log))
  {
    if log != [] {
      var pre, ev := log[..|log| - 1], log[|log| - 1];
      assert log == pre + [ev] && log[..|log|] == log;
      SoundInit(log);
      SoundFoldShows(run, pre);
      NodesPersist(run, log, |pre|, |pre|);
      StepShows(pre, Fold(run, pre), ev);
    }
  }

  lemma StepShows(pre: seq<Event>, st: Store, ev: Event)
    requires Shows(pre, st) && Fit(pre, ev) && ev.runId == st.run
    ensures Shows(pre + [ev], Step(pre, st, ev))
  {
    if st.manifest.None? && (ev.body.RunStatus? || ev.body.RunCreated?) {
      FirstShows(pre, st, ev);
    } else {
      CutShows(pre, st, ev);
      if PlanEvent(pre, st, ev).Accepted? {
        CutIsCommit(pre, st, ev);
        AdvanceSame(Cut(pre, st, ev, 2), ev.seqNo);
        SameShows(pre + [ev], Step(pre, st, ev), Cut(pre, st, ev, 2));
      }
    }
  }

  lemma CutShows(pre: seq<Event>, st: Store, ev: Event)
    requires Shows(pre, st) && Fit(pre, ev) && ev.runId == st.run
    requires st.manifest.Some? || !(ev.body.RunStatus? || ev.body.RunCreated?)
    ensures Shows(pre + [ev], Cut(pre, st, ev, 2))
  {
    if Harmless(ev.body) {
      HarmlessShows(pre, pre, st, ev, 2);
      HarmlessFolds(pre, ev);
      RunStatusStays(pre, ev);
    } else if ev.body.NodeCreated? {
      CreationShows(pre, pre, st, ev, 2);
    } else if ev.body.RunStatus? || ev.body.RunCreated? {
      RunShows(pre, pre, st, ev, 2);
    } else {
      StatusShows(pre, pre, st, ev, 2);
    }
  }

  lemma FirstShows(pre: seq<Event>, st: Store, ev: Event)
    requires Shows(pre, st) && ev.runId == st.run && st.manifest.None? && (ev.body.RunStatus? || ev.body.RunCreated?)
    ensures Shows(pre + [ev], Step(pre, st, ev))
  {
    FoldStatusSnoc(pre, ev);
    LogRunStatusSnoc(pre, ev);
    FirstStep(pre, st, ev);
  }

  lemma FirstStep(pre: seq<Event>, st: Store, ev: Event)
    requires ev.runId == st.run && st.manifest.None? && (ev.body.RunStatus? || ev.body.RunCreated?)
    ensures Step(pre, st, ev).nodes == st.nodes
    ensures ManifestStatus(Step(pre, st, ev)) ==
            if ev.body.RunCreated? && ev.body.run.Some? then Some(Pending) else None
  {
    ManifestOnly(pre, st, ev);
    if PlanEvent(pre, st, ev).Accepted? {
      CutShort(pre, st, ev, 2);
      CutIsCommit(pre, st, ev);
    }
  }

  /** A log accepted event by event by the reference fold is sound. */
  lemma {:induction false} AdmissibleIsSound(run: RunId, log: seq<Event>)
    requires WellSeq(run, log) && Admissible(run, log)
    ensures Sound(log)
  {
    if log != [] {
      var n := |log| - 1;
      var pre, ev := log[..n], log[n];
      assert log == pre + [ev];
      AdmissiblePrefix(run, log, n);
      AdmissibleIsSound(run, pre);
      SoundFoldShows(run, pre);
      assert PlanEvent(log[..n], Fold(run, log[..n]), log[n]).Accepted? || ev.body.AwaitingInput?;
      if !ev.body.AwaitingInput? { AcceptedIsFit(pre, pre, Fold(run, pre), ev); }
      SoundAppend(pre, ev);
    }
  }

  /** A start in the sense of the full-equality theorem is one here. */
  lemma SettledIsAny(log: seq<Event>, st: Store)
    requires Settled(log, st) && Admissible(st.run, log)
    ensures AnyDisk(log, st) && AtRest(log, st)
  {
    AdmissibleIsSound(st.run, log);
    SoundFoldShows(st.run, log);
    SameShows(log, st, Fold(st.run, log));
  }

  // ---- whole histories ----

  lemma {:induction false} HistoryKeepsAny(h: seq<Disk>, i: nat)
    requires History(Nothing, h) && i < |h| && AnyDisk(h[0].log, h[0].st)
    ensures AnyDisk(h[i].log, h[i].st) && h[0].log <= h[i].log && h[i].st.run == h[0].st.run
  {
    if i > 0 {
      HistoryKeepsAny(h, i - 1);
      var j := i - 1;
      assert Hold(Nothing, h[j], h[j + 1]);
      HoldKeepsAny(h[j], h[j + 1]);
    }
  }

  /** Two stores with the same outcomes. */
  ghost predicate SameVerdicts(a: Store, b: Store) {
    && a.nodes.Keys == b.nodes.Keys && ManifestStatus(a) == ManifestStatus(b)
    && forall id :: id in a.nodes ==> Agrees(a.nodes[id].status, b.nodes[id].status)
  }

  /** Over every history of lock holds and crashes whatever, catch-up at any point gives a
      store that shows the log: node set, live/terminal split, exact terminal statuses and run
      status are those of the log-derived fold and of the pure reducer fold; the node count is
      right and the watermark never above the last sequence number. */
  lemma CrashAgreementHolds(h: seq<Disk>, i: nat)
    requires History(Nothing, h) && i < |h| && AnyDisk(h[0].log, h[0].st)
    ensures var d := h[i];
            var s := CatchUp(d.log, d.st);
            && h[0].log <= d.log && d.st.run == h[0].st.run && WellSeq(d.st.run, d.log)
            && Shows(d.log, s) && SameVerdicts(s, Fold(d.st.run, d.log))
            && s.manifest.Some? && s.manifest.value.nodeCount == NodeCount(s.nodes)
            && Applied(d.st) <= |d.log| && Applied(s) <= |d.log|
  {
    HistoryKeepsAny(h, i);
    CatchUpRests(h[i].log, h[i].st);
    SoundFoldShows(h[i].st.run, h[i].log);
    ShowersAgree(h[i].log, CatchUp(h[i].log, h[i].st), Fold(h[i].st.run, h[i].log));
  }

  lemma ShowersAgree(log: seq<Event>, a: Store, b: Store)
    requires Shows(log, a) && Shows(log, b)
    ensures SameVerdicts(a, b)
  {
    forall id | id in a.nodes ensures Agrees(a.nodes[id].status, b.nodes[id].status) {
      assert Agrees(FoldStatus(log).status[id], a.nodes[id].status) &&
          Agrees(FoldStatus(log).status[id], b.nodes[id].status);
    }
  }

  /** Failed-run recovery on disk, after every crash history whatever: an event admitted at any
      point takes the failed run to Done exactly when the nodes of the caught-up store deserve
      it, and both the caught-up store and the pure fold of the log come out alike. */
  lemma RecoveryAfterCrashes(h: seq<Disk>, i: nat, ev: Event)
    requires History(Nothing, h) && i < |h| && AnyDisk(h[0].log, h[0].st) && Admits(h[i], ev)
    requires ManifestStatus(CatchUp(h[i].log, h[i].st)) == Some(Failed)
    ensures var log, s := h[i].log, CatchUp(h[i].log, h[i].st);
            var next := Some(if Deserved(log, s, ev.body) then Done else Failed);
            ManifestStatus(Step(log, s, ev)) == next == ManifestStatus(Fold(s.run, log + [ev]))
  {
    HistoryKeepsAny(h, i);
    CatchUpRests(h[i].log, h[i].st);
    AdmittedOutcome(h[i], ev);
    RestRecovers(h[i].log, CatchUp(h[i].log, h[i].st), ev);
  }

  /** Once an admitted event is folded, disk and pure fold have the same run status. */
  lemma AdmittedOutcome(d: Disk, ev: Event)
    requires AnyDisk(d.log, d.st) && Admits(d, ev)
    ensures var s := CatchUp(d.log, d.st);
            s.run == d.st.run && ManifestStatus(Step(d.log, s, ev)) == ManifestStatus(Fold(s.run, d.log + [ev]))
  {
    CatchUpRests(d.log, d.st);
    AppendAny(d, ev, 0);
    SoundFoldShows(d.st.run, d.log + [ev]);
  }

  lemma RestRecovers(log: seq<Event>, s: Store, ev: Event)
    requires OnDisk(log, s) && AtRest(log, s) && ManifestStatus(s) == Some(Failed)
    requires ev.seqNo == |log| + 1 && ev.runId == s.run
    ensures ManifestStatus(Step(log, s, ev)) == Some(if Deserved(log, s, ev.body) then Done else Failed)
  {
    FailedRunRecovery(log, s, ev, log + [ev], s);
  }
}

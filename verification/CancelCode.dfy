/** The cancel ledger and the cancel code over a run directory. */
module CancelCode {
  import opened Prelude
  import opened Schema
  import opened NodeStatusFold
  import opened Reducer
  import opened ReducerLaws
  import opened Recovery
  import opened CrashSafety
  import opened Keyed
  import opened Cancel
  import opened CancelReady
  import opened CancelProtocol
  import opened EventFile
  import opened RunStore
  import opened StatusAccumulator

  // ---- the ledger ----

  type Priors = map<(Kind, string), Event>

  function Prior(m: Priors, kind: Kind, key: string): Option<Event> {
    if (kind, key) in m then Some(m[(kind, key)]) else None
  }

  /** The captured events are the first of each kind and key in the cancel namespace. */
  ghost predicate Captures(run: RunId, log: seq<Event>, m: Priors) {
    forall kind, key :: Prior(m, kind, key) == if KeyPrefix(run) <= key then FirstKeyed(log, kind, key) else None
  }

  function Capture(run: RunId, m: Priors, ev: Event): Priors {
    if ev.key.Some? && KeyPrefix(run) <= ev.key.value && (KindOf(ev.body), ev.key.value) !in m
    then m[(KindOf(ev.body), ev.key.value) := ev] else m
  }

  lemma CapturesNext(run: RunId, log: seq<Event>, ev: Event, m: Priors)
    requires Captures(run, log, m)
    ensures Captures(run, log + [ev], Capture(run, m, ev))
  {
    assert (log + [ev])[..|log|] == log;
    var m' := Capture(run, m, ev);
    forall kind, key
      ensures Prior(m', kind, key) == if KeyPrefix(run) <= key then FirstKeyed(log + [ev], kind, key) else None
    {
      assert Prior(m, kind, key) == if KeyPrefix(run) <= key then FirstKeyed(log, kind, key) else None;
      if Carries(ev, kind, key) {
        assert ev.key.value == key;
      }
    }
  }

  lemma {:induction false} CapturedKeys(run: RunId, log: seq<Event>, m: Priors, id: NodeId)
    requires Captures(run, log, m)
    ensures Prior(m, KNodeReport, NodeKey(run, id)) == FirstKeyed(log, KNodeReport, NodeKey(run, id))
    ensures Prior(m, KRunStatus, StatusKey(run)) == FirstKeyed(log, KRunStatus, StatusKey(run))
  {
    PrefixOfKeys(run, id);
  }

  /** One streaming pass: node facts and this run's cancel events. */
  method ReadCancelLedger(run: RunId, log: seq<Event>) returns (facts: seq<Fact>, prior: Priors)
    ensures facts == NodeStatusFacts(log, None) && Captures(run, log, prior)
  {
    var acc := new NodeStatusAcc();
    var prefix := KeyPrefix(run);
    prior := map[];
    for i := 0 to |log|
      invariant fresh(acc) && acc.Value() == FoldStatus(log[..i])
      invariant Captures(run, log[..i], prior)
    {
      var ev := log[i];
      assert log[..i + 1] == log[..i] + [ev] && log[..i + 1][..i] == log[..i];
      acc.ObserveLine(ev);
      CapturesNext(run, log[..i], ev, prior);
      if ev.key.Some? && prefix <= ev.key.value {
        var entry := (KindOf(ev.body), ev.key.value);
        if entry !in prior { prior := prior[entry := ev]; }
      }
    }
    assert log[..|log|] == log;
    FoldIsCoherent(log);
    facts := acc.FinishFacts();
  }

  // ---- the code ----

  datatype CancelOutcome =
    | NoManifest
    | AlreadyTerminal(status: Status)
    | NodeNotFound
    | LogCorrupt
    | Refused
    | RunCancelled(wasCancelled: bool, cancelled: seq<NodeId>, settled: seq<NodeId>)
    | NodeSettled(cancelledNow: bool, rolledUp: Option<Status>)

  ghost function DiskOf(r: Run): Disk
    reads r
  {
    Disk(r.Log(), r.State())
  }

  lemma RefoldApplied(log: seq<Event>, st: Store, ev: Event)
    ensures Applied(Cut(log, st, ev, 2)) <= Applied(st)
  {
    if st.manifest.Some? { CutKeepsApplied(log, st, ev, 2); }
    else if PlanEvent(log, st, ev).Accepted? { PlanShape(log, st, ev); CutShort(log, st, ev, 2); }
  }

  /** Fold a logged event again. */
  method RefoldLogged(r: Run, ev: Event) returns (ok: bool)
    requires r.Valid()
    modifies r`manifest, r`nodes
    ensures r.Valid() && DiskOf(r) == RefoldOn(old(DiskOf(r)), ev)
    ensures ok == PlanEvent(old(r.Log()), old(r.State()), ev).Accepted?
  {
    RefoldApplied(r.Log(), r.State(), ev);
    ok := r.ApplyEvent(ev);
  }

  /** Append one event of this run. */
  method Append(r: Run, clock: Clock, nodeId: Option<NodeId>, key: string, body: Body) returns (ok: bool)
    requires r.Valid()
    modifies r`bytes, r`manifest, r`nodes
    ensures var ev := Event(|old(r.Log())| + 1, clock(|old(r.Log())| + 1), r.id, nodeId, Some(key), body);
            r.Valid() && DiskOf(r) == AppendOn(old(DiskOf(r)), ev) && ok == AppendOk(old(DiskOf(r)), ev)
  {
    var seqNo, applied := r.AppendAndApply(clock, nodeId, Some(key), body);
    ok := seqNo.Some?;
  }

  method SettleNode(r: Run, prior: Option<Event>, status: Status, clock: Clock, id: NodeId, summary: string,
      reason: string)
    returns (ok: bool, cancelled: bool)
    requires r.Valid()
    modifies r`bytes, r`manifest, r`nodes
    ensures r.Valid()
    ensures Turn(ok, DiskOf(r), cancelled) == SettleOn(old(DiskOf(r)), prior, status, clock, id, summary, reason)
  {
    if prior.Some? {
      if id in r.nodes && r.nodes[id].status.IsTerminal() { return true, false; }
      ok := RefoldLogged(r, prior.value);
      return ok, true;
    }
    if status.IsTerminal() { return true, false; }
    ok := Append(r, clock, Some(id), NodeKey(r.id, id), NodeReport(CancelReport(summary, reason)));
    return ok, true;
  }

  method RecordStatus(r: Run, prior: Option<Event>, clock: Clock, s: Ending) returns (ok: bool)
    requires r.Valid()
    modifies r`bytes, r`manifest, r`nodes
    ensures r.Valid() && Turn(ok, DiskOf(r), false) == RecordOn(old(DiskOf(r)), prior, clock, s)
  {
    if prior.Some? {
      ok := RefoldLogged(r, prior.value);
    } else {
      ok := Append(r, clock, None, StatusKey(r.id), StatusBody(s));
    }
  }

  /** One turn of the loop; `d` is the disk the ledger was read from. */
  method NextTurn(r: Run, ghost d: Disk, facts: seq<Fact>, i: nat, prior: Priors, call: Call)
    returns (ok: bool, now: bool)
    requires r.Valid() && r.id == d.st.run && Captures(r.id, d.log, prior) && i < |facts|
    requires SettleAll(d, facts, i, call).ok && SettleAll(d, facts, i, call).d == DiskOf(r)
    modifies r`bytes, r`manifest, r`nodes
    ensures r.Valid()
    ensures SettleAll(d, facts, i + 1, call) ==
            AddTurn(SettleAll(d, facts, i, call), facts[i].id, Turn(ok, DiskOf(r), now))
  {
    var id := facts[i].id;
    CapturedKeys(r.id, d.log, prior, id);
    SettleAllNext(d, facts, i, call);
    ok, now := SettleNode(r, Prior(prior, KNodeReport, NodeKey(r.id, id)), facts[i].status, call.clock, id,
        RUN_SUMMARY, call.reason);
  }

  /** The loop over the ledger's nodes. */
  method SettleNodes(r: Run, facts: seq<Fact>, prior: Priors, call: Call) returns (t: Tally)
    requires r.Valid() && Captures(r.id, r.Log(), prior)
    modifies r`bytes, r`manifest, r`nodes
    ensures r.Valid() && t == SettleAll(old(DiskOf(r)), facts, |facts|, call) && DiskOf(r) == t.d
  {
    var ok, cancelled, settled, i := true, [], [], 0;
    ghost var d := DiskOf(r);
    while ok && i < |facts|
      invariant r.Valid() && i <= |facts| && SettleAll(d, facts, i, call) == Tally(ok, DiskOf(r), cancelled, settled)
    {
      var now;
      ok, now := NextTurn(r, d, facts, i, prior, call);
      if ok && now { cancelled := cancelled + [facts[i].id]; }
      if ok && !now { settled := settled + [facts[i].id]; }
      i := i + 1;
    }
    if !ok { SettleAllStops(d, facts, i, call); }
    t := ReadDisk(r, ok, cancelled, settled);
  }

  method ReadDisk(r: Run, ok: bool, cancelled: seq<NodeId>, settled: seq<NodeId>) returns (t: Tally)
    requires r.Valid()
    ensures t == Tally(ok, DiskOf(r), cancelled, settled)
  {
    var log := ForEachEvent(r.codec, r.bytes);
    return Tally(ok, Disk(log.value, r.State()), cancelled, settled);
  }

  lemma {:induction false} SettleAllStops(d: Disk, facts: seq<Fact>, i: nat, call: Call)
    requires i <= |facts| && !SettleAll(d, facts, i, call).ok
    ensures SettleAll(d, facts, |facts|, call) == SettleAll(d, facts, i, call)
    decreases |facts| - i
  {
    if i < |facts| { SettleAllStops(d, facts, i + 1, call); }
  }

  /** Cancel a run: refuse one that is done or failed, report every live node, then record one
      terminal run status. */
  method CancelRun(r: Run, clock: Clock, note: Option<string>) returns (o: CancelOutcome)
    requires r.Usable()
    modifies r`bytes, r`manifest, r`nodes
    ensures r.Usable() && (old(r.Valid()) ==> r.Valid())
    ensures match o
      case NoManifest => old(r.manifest).None? && r.bytes == old(r.bytes) && r.State() == old(r.State())
      case AlreadyTerminal(s) =>
        && old(r.manifest).Some? && s == old(r.manifest).value.status && s.IsTerminal() && s != Cancelled
        && r.bytes == old(r.bytes) && r.State() == old(r.State())
      case LogCorrupt =>
        ReadAll(r.codec, old(r.bytes)).None? && r.bytes == old(r.bytes) && r.State() == old(r.State())
      case Refused =>
        old(r.Valid()) && !Startable(old(DiskOf(r))) && DiskOf(r) == CancelOn(old(DiskOf(r)),
            Call(ReadsCancelled(old(r.State())), clock, CancelReason(note), CancelNote(note))).d
      case RunCancelled(was, cancelled, settled) =>
        && old(r.Valid()) && was == ReadsCancelled(old(r.State()))
        && CancelOn(old(DiskOf(r)), Call(was, clock, CancelReason(note), CancelNote(note))) ==
           Tally(true, DiskOf(r), cancelled, settled)
      case _ => false
  {
    if r.manifest.None? { return NoManifest; }
    var status := r.manifest.value.status;
    if status.IsTerminal() && status != Cancelled { return AlreadyTerminal(status); }
    var was := status == Cancelled;
    var call := Call(was, clock, CancelReason(note), CancelNote(note));
    ghost var d := DiskOf(r);
    var log := ForEachEvent(r.codec, r.bytes);
    if log.None? { return LogCorrupt; }
    var facts, prior := ReadCancelLedger(r.id, log.value);
    CapturedKeys(r.id, d.log, prior, DEFAULT_NODE);
    var t := SettleNodes(r, facts, prior, call);
    var ok := t.ok;
    if ok && !was { ok := RecordStatus(r, Prior(prior, KRunStatus, StatusKey(r.id)), clock, call.Ends()); }
    if !ok {
      RefusedNotStartable(d, call);
      return Refused;
    }
    return RunCancelled(was, t.cancelled, t.settled);
  }

  lemma RefusedNotStartable(d: Disk, call: Call)
    requires !CancelOn(d, call).ok && call.wasCancelled == ReadsCancelled(d.st)
    ensures !Startable(d)
  {
    if Startable(d) {
      CancelCompletes(d, call);
      assert false;
    }
  }

  /** Position of the target in the ledger. */
  method FindFact(facts: seq<Fact>, id: NodeId) returns (i: nat)
    ensures i <= |facts| && (i < |facts| ==> facts[i].id == id)
    ensures i == |facts| ==> forall j :: 0 <= j < |facts| ==> facts[j].id != id
  {
    i := 0;
    while i < |facts| && facts[i].id != id
      invariant i <= |facts| && forall j :: 0 <= j < i ==> facts[j].id != id
    {
      i := i + 1;
    }
  }

  /** The statuses with the target's replaced, one by one. */
  method EffectiveStatuses(facts: seq<Fact>, target: NodeId, status: Status) returns (ss: seq<Status>)
    ensures ss == Effective(facts, target, status)
  {
    ss := [];
    for i := 0 to |facts|
      invariant |ss| == i
      invariant forall j :: 0 <= j < i ==> ss[j] == if facts[j].id == target then status else facts[j].status
    {
      ss := ss + [if facts[i].id == target then status else facts[i].status];
    }
  }

  /** Roll the run up when the settlement left no live node. */
  method MaybeRollUpRun(r: Run, onEntry: Status, facts: seq<Fact>, target: NodeId, effective: Status,
      prior: Option<Event>, clock: Clock)
    returns (ok: bool, rolled: Option<Status>)
    requires r.Valid()
    modifies r`bytes, r`manifest, r`nodes
    ensures r.Valid()
    ensures var agg := if onEntry.IsTerminal() then None else Aggregate(Effective(facts, target, effective));
            && rolled == agg && (!onEntry.IsTerminal() ==> RollsTo(Effective(facts, target, effective), rolled))
            && (agg.None? ==> ok && DiskOf(r) == old(DiskOf(r)))
            && (agg.Some? ==>
                  Turn(ok, DiskOf(r), false) == RecordOn(old(DiskOf(r)), prior, clock, Ending(agg.value, None)))
  {
    if onEntry.IsTerminal() { return true, None; }
    var statuses := EffectiveStatuses(facts, target, effective);
    rolled := AggregateTerminalStatus(statuses);
    ok := true;
    if rolled.Some? { ok := RecordStatus(r, prior, clock, Ending(rolled.value, None)); }
  }

  lemma {:induction false} FactsListNodes(log: seq<Event>, id: NodeId)
    ensures var facts := NodeStatusFacts(log, None);
            id in FoldStatus(log).status <==> exists j :: 0 <= j < |facts| && facts[j].id == id
  {
    NodeIdsAreTheNodes(log);
    var ids := NodeIds(log);
    if id in FoldStatus(log).status {
      assert id in ids;
      var j :| 0 <= j < |ids| && ids[j] == id;
      FactAt(log, j);
    }
    if j :| 0 <= j < |NodeStatusFacts(log, None)| && NodeStatusFacts(log, None)[j].id == id { FactAt(log, j); }
  }

  /** Settle the target, then roll up. */
  method SettleAndRollUp(r: Run, onEntry: Status, facts: seq<Fact>, fact: Fact, prior: Priors, clock: Clock,
      reason: string)
    returns (ok: bool, now: bool, rolled: Option<Status>)
    requires r.Valid() && Captures(r.id, r.Log(), prior)
    modifies r`bytes, r`manifest, r`nodes
    ensures r.Valid()
    ensures var t := CancelNodeOn(old(DiskOf(r)), onEntry, facts, fact, clock, reason);
            ok == t.ok && DiskOf(r) == t.d && (ok ==> now == t.cancelled && rolled == t.rolled)
  {
    CapturedKeys(r.id, r.Log(), prior, fact.id);
    var report, status := Prior(prior, KNodeReport, NodeKey(r.id, fact.id)), Prior(prior, KRunStatus, StatusKey(r.id));
    ok, now := SettleNode(r, report, fact.status, clock, fact.id, NODE_SUMMARY, reason);
    rolled := None;
    if ok {
      var effective := if now then Cancelled else fact.status;
      ok, rolled := MaybeRollUpRun(r, onEntry, facts, fact.id, effective, status, clock);
    }
  }

  /** Cancel one node of a run and, if it was the last live one, the run with it. */
  method CancelNode(r: Run, clock: Clock, id: NodeId, note: Option<string>) returns (o: CancelOutcome)
    requires r.Usable()
    modifies r`bytes, r`manifest, r`nodes
    ensures r.Usable() && (old(r.Valid()) ==> r.Valid())
    ensures match o
      case NoManifest => old(r.manifest).None? && r.bytes == old(r.bytes) && r.State() == old(r.State())
      case AlreadyTerminal(s) =>
        && old(r.manifest).Some? && s == old(r.manifest).value.status && s.IsTerminal() && s != Cancelled
        && r.bytes == old(r.bytes) && r.State() == old(r.State())
      case NodeNotFound =>
        && old(r.Valid()) && id !in FoldStatus(old(r.Log())).status
        && r.bytes == old(r.bytes) && r.State() == old(r.State())
      case LogCorrupt =>
        ReadAll(r.codec, old(r.bytes)).None? && r.bytes == old(r.bytes) && r.State() == old(r.State())
      case Refused => old(r.Valid()) && !Startable(old(DiskOf(r)))
      case NodeSettled(now, rolled) =>
        && old(r.Valid()) && old(r.manifest).Some? && id in FoldStatus(old(r.Log())).status
        && exists fact: Fact :: && fact.id == id && fact.status == FoldStatus(old(r.Log())).status[id]
                          && CancelNodeOn(old(DiskOf(r)), old(r.manifest).value.status, AllFacts(old(DiskOf(r))),
                             fact, clock, CancelReason(note))
                             == NodeTurn(true, DiskOf(r), now, rolled)
      case _ => false
  {
    if r.manifest.None? { return NoManifest; }
    var onEntry := r.manifest.value.status;
    if onEntry.IsTerminal() && onEntry != Cancelled { return AlreadyTerminal(onEntry); }
    ghost var d := DiskOf(r);
    var log := ForEachEvent(r.codec, r.bytes);
    if log.None? { return LogCorrupt; }
    var facts, prior := ReadCancelLedger(r.id, log.value);
    var i := FindFact(facts, id);
    FactsListNodes(d.log, id);
    if i == |facts| { return NodeNotFound; }
    NodeIdsAreTheNodes(d.log);
    FactAt(d.log, i);
    var ok, now, rolled := SettleAndRollUp(r, onEntry, facts, facts[i], prior, clock, CancelReason(note));
    if !ok {
      NodeRefusedNotStartable(d, onEntry, facts[i], clock, CancelReason(note));
      return Refused;
    }
    return NodeSettled(now, rolled);
  }

  lemma NodeRefusedNotStartable(d: Disk, onEntry: Status, fact: Fact, clock: Clock, reason: string)
    requires fact.id in FoldStatus(d.log).status && fact.status == FoldStatus(d.log).status[fact.id]
    requires !CancelNodeOn(d, onEntry, AllFacts(d), fact, clock, reason).ok
    ensures !Startable(d)
  {
    if Startable(d) {
      CancelNodeCompletes(d, onEntry, fact, clock, reason);
      assert false;
    }
  }
}

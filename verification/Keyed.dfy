/** Idempotency keys: at most one logged event per kind and key. */
module Keyed {
  import opened Prelude
  import opened Schema
  import opened Reducer
  import opened Recovery
  import opened CrashSafety

  /** Event kinds; the wire gives each its own name. */
  datatype Kind =
    | KRunCreated | KRunStatus | KNodeCreated | KNodeStatus | KNodeReport | KNodeRetry
    | KPiBound | KPiTransition | KSettlementIntent | KWorkerExited | KDeathObserved
    | KAwaitingInput | KInputResolved | KResumed | KRoundReported | KRoundLanded
    | KMergeStarted | KMergeAborted | KAudit(name: string)

  function KindOf(b: Body): Kind {
    match b
    case RunCreated(_) => KRunCreated
    case RunStatus(_, _, _, _) => KRunStatus
    case NodeCreated(_) => KNodeCreated
    case NodeStatus(_) => KNodeStatus
    case NodeReport(_) => KNodeReport
    case NodeRetry(_, _) => KNodeRetry
    case PiBound(_) => KPiBound
    case PiTransition(_) => KPiTransition
    case SettlementIntent(_) => KSettlementIntent
    case WorkerExited(_) => KWorkerExited
    case DeathObserved => KDeathObserved
    case AwaitingInput(_) => KAwaitingInput
    case InputResolved(_) => KInputResolved
    case Resumed(_) => KResumed
    case RoundReported(_) => KRoundReported
    case RoundLanded(_) => KRoundLanded
    case MergeStarted(_) => KMergeStarted
    case MergeAborted(_) => KMergeAborted
    case Audit(name) => KAudit(name)
  }

  /** Events of different kinds never have the same kind name. */
  lemma KindsApart(a: Body, b: Body)
    requires KindOf(a) == KindOf(b)
    ensures a.RunCreated? == b.RunCreated? && a.RunStatus? == b.RunStatus? && a.NodeCreated? == b.NodeCreated?
    ensures a.NodeStatus? == b.NodeStatus? && a.NodeReport? == b.NodeReport? && a.NodeRetry? == b.NodeRetry?
    ensures a.PiBound? == b.PiBound? && a.PiTransition? == b.PiTransition? && a.SettlementIntent? == b.SettlementIntent?
    ensures a.WorkerExited? == b.WorkerExited? && a.DeathObserved? == b.DeathObserved?
    ensures a.AwaitingInput? == b.AwaitingInput? && a.InputResolved? == b.InputResolved? && a.Resumed? == b.Resumed?
    ensures a.RoundReported? == b.RoundReported? && a.RoundLanded? == b.RoundLanded?
    ensures a.MergeStarted? == b.MergeStarted? && a.MergeAborted? == b.MergeAborted?
    ensures a.Audit? == b.Audit? && (a.Audit? ==> a.kind == b.kind)
  {}

  predicate Carries(ev: Event, kind: Kind, key: string) {
    KindOf(ev.body) == kind && ev.key == Some(key)
  }

  function FirstKeyed(log: seq<Event>, kind: Kind, key: string): Option<Event> {
    if log == [] then None
    else
      var init := FirstKeyed(log[..|log| - 1], kind, key);
      if init.Some? then init
      else if Carries(log[|log| - 1], kind, key) then Some(log[|log| - 1]) else None
  }

  /** The scan finds a carrier exactly when there is one. */
  lemma {:induction false} FirstIsCarrier(log: seq<Event>, kind: Kind, key: string)
    ensures FirstKeyed(log, kind, key).None? <==> forall i :: 0 <= i < |log| ==> !Carries(log[i], kind, key)
    ensures FirstKeyed(log, kind, key).Some? ==>
              FirstKeyed(log, kind, key).value in log && Carries(FirstKeyed(log, kind, key).value, kind, key)
  {
    if log != [] { FirstIsCarrier(log[..|log| - 1], kind, key); }
  }

  lemma {:induction false} FirstStays(log: seq<Event>, i: nat, kind: Kind, key: string)
    requires i <= |log| && FirstKeyed(log[..i], kind, key).Some?
    ensures FirstKeyed(log, kind, key) == FirstKeyed(log[..i], kind, key)
    decreases |log| - i
  {
    if i == |log| {
      assert log[..i] == log;
    } else {
      assert log[..i + 1] == log[..i] + [log[i]];
      FirstSnoc(log[..i], log[i], kind, key);
      FirstStays(log, i + 1, kind, key);
    }
  }

  lemma {:induction false} FirstSnoc(log: seq<Event>, ev: Event, kind: Kind, key: string)
    ensures FirstKeyed(log + [ev], kind, key) ==
            if FirstKeyed(log, kind, key).Some? then FirstKeyed(log, kind, key)
            else if Carries(ev, kind, key) then Some(ev) else None
  {
    assert (log + [ev])[..|log|] == log;
  }

  /** No two logged events share a kind and a key. */
  ghost predicate UniqueKeyed(log: seq<Event>) {
    forall i, j :: 0 <= i < j < |log| && log[i].key.Some? ==> !Carries(log[j], KindOf(log[i].body), log[i].key.value)
  }

  predicate FreshKey(log: seq<Event>, ev: Event) {
    ev.key.Some? ==> FirstKeyed(log, KindOf(ev.body), ev.key.value).None?
  }

  /** What a scanning entry point answers, against the log and the caught-up store it saw. */
  ghost predicate KeyedReply(r: Outcome, log: seq<Event>, s: Store, log': seq<Event>, s': Store, ev: Event) {
    match r
    case Replay(prior) => Named(log, prior, ev) && log' == log && s' == s
    case Conflict(prior) => Named(log, prior, ev) && log' == log && s' == s
    case Unbuilt => false
    case Unreadable => false
    case Invalid => FreshKey(log, ev) && PlanEvent(log, s, ev).Rejected? && log' == log && s' == s
    case Appended(seqNo) =>
      && FreshKey(log, ev) && seqNo == ev.seqNo && PlanEvent(log, s, ev).Accepted?
      && log' == log + [ev] && s' == Step(log, s, ev)
  }

  /** `prior` is the logged event under the request's kind and key. */
  ghost predicate Named(log: seq<Event>, prior: Event, ev: Event) {
    ev.key.Some? && prior in log && Carries(prior, KindOf(ev.body), ev.key.value)
  }

  /** Outcome of a keyed append: the last three are errors, of the request, of its payload and of
      the log. */
  datatype Outcome =
    | Appended(seqNo: nat)
    | Replay(prior: Event)
    | Conflict(prior: Event)
    | Invalid
    | Unbuilt
    | Unreadable

  lemma AppendKeepsUnique(log: seq<Event>, ev: Event)
    requires UniqueKeyed(log) && FreshKey(log, ev)
    ensures UniqueKeyed(log + [ev])
  {
    if ev.key.Some? { FirstIsCarrier(log, KindOf(ev.body), ev.key.value); }
  }

  /** In a log without duplicates the event a reply names is the only one it could name. */
  lemma ReplyNamesTheOnlyOne(r: Outcome, log: seq<Event>, s: Store, log': seq<Event>, s': Store, ev: Event, x: Event)
    requires UniqueKeyed(log) && KeyedReply(r, log, s, log', s', ev) && (r.Replay? || r.Conflict?)
    requires x in log && ev.key.Some? && Carries(x, KindOf(ev.body), ev.key.value)
    ensures x == r.prior
  {
    var i :| 0 <= i < |log| && log[i] == x;
    var j :| 0 <= j < |log| && log[j] == r.prior;
    assert log[i].key == log[j].key && KindOf(log[i].body) == KindOf(log[j].body);
  }

  /** A lock hold, cut by a crash anywhere at all, in which a keyed event comes only through the
      scanning entry points. */
  ghost predicate KeyedHold(d: Disk, e: Disk) {
    && Hold(Nothing, d, e)
    && (|e.log| > |d.log| ==> FreshKey(d.log, e.log[|d.log|]))
  }

  ghost predicate KeyedHistory(h: seq<Disk>) {
    forall i :: 0 <= i < |h| - 1 ==> KeyedHold(h[i], h[i + 1])
  }

  /** Keyed appends happen at most once, over any interleaving of lock holds and crashes,
      and an entry once in the log keeps its place. */
  lemma {:induction false} KeyedAtMostOnce(h: seq<Disk>, i: nat)
    requires KeyedHistory(h) && i < |h| && UniqueKeyed(h[0].log)
    ensures UniqueKeyed(h[i].log) && h[0].log <= h[i].log
  {
    if i > 0 {
      KeyedAtMostOnce(h, i - 1);
      var j := i - 1;
      assert KeyedHold(h[j], h[j + 1]);
      HoldGrowth(Nothing, h[j], h[j + 1]);
      if h[i].log != h[j].log { AppendKeepsUnique(h[j].log, h[i].log[|h[j].log|]); }
    }
  }

  /** What a scanning entry point does is a lock hold of that kind. */
  lemma ReplyIsKeyedHold(r: Outcome, d: Disk, e: Disk, ev: Event)
    requires KeyedReply(r, d.log, CatchUp(d.log, d.st), e.log, e.st, ev) && ev.seqNo == |d.log| + 1
    requires ev.runId == d.st.run
    ensures KeyedHold(d, e)
  {
    if r.Appended? {
      assert FullAppend(d, e, ev);
      assert e.log[|d.log|] == ev;
    }
  }
}

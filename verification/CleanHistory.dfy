/** Histories whose crashes miss every window, each healed by the catch-up that follows it: the
    projections equal the fold of the log, open requests included. */
module CleanHistory {
  import opened Schema
  import opened Reducer
  import opened Recovery
  import opened CrashSafety
  import opened CrashAgreement
  import opened CrashWindows
  import opened LogReading

  /** The crash hits none of the four windows. */
  ghost predicate Missed(log: seq<Event>, st: Store, ev: Event, k: nat) {
    !LossyWindow(st, ev, k) && !DuplicatingWindow(st, ev, k) && !ReopeningWindow(log, st, ev, k)
  }

  /** Equal to the fold of the log in everything but the watermark. */
  ghost predicate Exact(d: Disk) { EqualButWatermark(d.st, Fold(d.st.run, d.log)) }

  /** A caught-up disk that any history may leave. */
  ghost predicate Rested(d: Disk) { AnyDisk(d.log, d.st) && CaughtUp(d.log, d.st) }

  /** The disk after the next complete catch-up. */
  function Healed(d: Disk): Disk { Disk(d.log, CatchUp(d.log, d.st)) }

  /** A lock hold cut anywhere but in the four windows: inside catch-up, inside a re-fold, after
      the log write, or not at all. */
  ghost predicate CleanCut(d: Disk, e: Disk) {
    || e == d
    || (exists i, k :: ReplayCut(Nothing, d, e, i, k))
    || (exists k :: RefoldCut(Nothing, d, e, k))
    || e == Healed(d)
    || (exists ev, k :: AppendCut(Nothing, d, e, ev, k) && Missed(d.log, CatchUp(d.log, d.st), ev, k))
    || (exists ev :: FullAppend(d, e, ev))
  }

  lemma CleanCutIsHold(d: Disk, e: Disk)
    requires CleanCut(d, e)
    ensures Hold(Nothing, d, e)
  {}

  // ---- one hold ----

  /** Nothing above the watermark of a caught-up store changes it. */
  lemma {:induction false} RestedReplays(d: Disk, i: nat)
    requires CaughtUp(d.log, d.st) && i <= |d.log|
    ensures ReplayTo(d.log, Applied(d.st), d.st, i) == d.st
    ensures Applied(d.st) <= i < |d.log| ==> PlanEvent(d.log, d.st, d.log[i]).Rejected?
  {
    LeftoversAreRefused(d.log, d.st, |d.log|);
    ReplayRefused(d.log, d.st, i);
  }

  lemma ReplayCutRests(d: Disk, e: Disk, i: nat, k: nat)
    requires CaughtUp(d.log, d.st) && ReplayCut(Nothing, d, e, i, k)
    ensures e == d
  {
    ReplayCutIndex(d.log, d.st, i);
    RestedReplays(d, i);
  }

  lemma RefoldCutRests(d: Disk, e: Disk, k: nat)
    requires CaughtUp(d.log, d.st) && RefoldCut(Nothing, d, e, k)
    ensures e == d
  {
    ReplayCutIndex(d.log, d.st, |d.log| - 1);
    RestedReplays(d, |d.log| - 1);
  }

  /** Folding the next event into a store equal to the fold gives the fold with the event. */
  lemma {:induction false} NextExact(log: seq<Event>, st: Store, ev: Event)
    requires OnDisk(log, st) && Exact(Disk(log, st)) && ev.seqNo == |log| + 1
    ensures EqualButWatermark(Step(log, st, ev), Fold(st.run, log + [ev]))
  {
    FoldBounds(st.run, log);
    StepIgnoresMark(log, st, Fold(st.run, log), ev);
    assert (log + [ev])[..|log|] == log;
  }

  /** A complete append leaves nothing to catch up. */
  lemma FullAppendExact(d: Disk, e: Disk, ev: Event)
    requires CaughtUp(d.log, d.st) && Exact(d) && FullAppend(d, e, ev)
    ensures Exact(Healed(e))
  {
    NextExact(d.log, d.st, ev);
    WalkBounds(d.log, d.st, ev);
    LogWithEvent(d.st.run, d.log, ev);
    AppendAcknowledged(d.log, d.st, ev);
    NothingToReplay(e.log, e.st, |e.log|);
  }

  lemma AppendAcknowledged(log: seq<Event>, st: Store, ev: Event)
    requires st.manifest.Some? && PlanEvent(log, st, ev).Accepted? && Applied(st) < ev.seqNo
    ensures Applied(Step(log, st, ev)) == ev.seqNo
  {
    CutIsCommit(log, st, ev);
    CutKeepsApplied(log, st, ev, 2);
  }

  /** One crash, exactly: from a caught-up disk equal to the fold, an append cut after `k` writes
      and then caught up is equal to the fold if and only if the crash missed the windows. */
  lemma CutExactly(d: Disk, e: Disk, ev: Event, k: nat)
    requires CaughtUp(d.log, d.st) && Exact(d) && AppendCut(Nothing, d, e, ev, k)
    ensures Exact(Healed(e)) <==> Missed(d.log, d.st, ev, k)
  {
    CrashLosesExactly(d.log, d.st, ev, k);
    NextExact(d.log, d.st, ev);
    CutKeepsRun(d.log, d.st, ev, k);
    CatchUpKeepsRun(e.log, e.st);
    EqualsAlike(CatchUp(e.log, e.st), Step(d.log, d.st, ev), Fold(d.st.run, e.log));
  }

  lemma EqualsAlike(a: Store, b: Store, c: Store)
    requires EqualButWatermark(b, c)
    ensures EqualButWatermark(a, b) <==> EqualButWatermark(a, c)
  {}

  lemma CleanHoldExact(d: Disk, e: Disk)
    requires Rested(d) && Exact(d) && CleanCut(d, e)
    ensures Rested(Healed(e)) && Exact(Healed(e)) && e.st.run == d.st.run && d.log <= e.log
  {
    CleanCutIsHold(d, e);
    HoldKeepsAny(d, e);
    CatchUpRests(e.log, e.st);
    CatchUpCatchesUp(e.log, e.st);
    if i, k :| ReplayCut(Nothing, d, e, i, k) {
      ReplayCutRests(d, e, i, k);
    } else if k :| RefoldCut(Nothing, d, e, k) {
      RefoldCutRests(d, e, k);
    } else if ev, k :| AppendCut(Nothing, d, e, ev, k) && Missed(d.log, CatchUp(d.log, d.st), ev, k) {
      CutExactly(d, e, ev, k);
    } else if ev :| FullAppend(d, e, ev) {
      FullAppendExact(d, e, ev);
    }
  }

  // ---- whole histories ----

  /** Each hold is cut outside the windows, or not at all, and then healed. */
  ghost predicate CleanStep(d: Disk, e: Disk) { exists cut :: CleanCut(d, cut) && e == Healed(cut) }

  lemma CleanStepExact(d: Disk, e: Disk)
    requires Rested(d) && Exact(d) && CleanStep(d, e)
    ensures Rested(e) && Exact(e) && e.st.run == d.st.run && d.log <= e.log
  {
    var cut :| CleanCut(d, cut) && e == Healed(cut);
    CleanHoldExact(d, cut);
    CatchUpKeepsRun(cut.log, cut.st);
  }

  ghost predicate CleanHistoryOf(h: seq<Disk>) {
    forall i :: 0 <= i < |h| - 1 ==> CleanStep(h[i], h[i + 1])
  }

  /** Over every such history the projections equal the fold of the log, open requests and node
      count included, the watermark aside. */
  lemma {:induction false} CleanHistoryIsExact(h: seq<Disk>, i: nat)
    requires CleanHistoryOf(h) && i < |h| && Rested(h[0]) && Exact(h[0])
    ensures Rested(h[i]) && h[i].st.run == h[0].st.run && h[0].log <= h[i].log
    ensures EqualButWatermark(h[i].st, Fold(h[i].st.run, h[i].log))
  {
    if i > 0 {
      var j := i - 1;
      CleanHistoryIsExact(h, j);
      assert CleanStep(h[j], h[j + 1]);
      CleanStepExact(h[j], h[j + 1]);
    }
  }

  /** And every fact on disk, of open requests too, is read off the log. */
  lemma {:induction false} CleanFactsAreRead(h: seq<Disk>, i: nat, id: NodeId, f: Fact)
    requires CleanHistoryOf(h) && i < |h| && Rested(h[0]) && Exact(h[0])
    ensures HasFact(h[i].st, id, f) <==> Stands(h[i].st.run, h[i].log, |h[i].log|, id, f)
  {
    CleanHistoryIsExact(h, i);
    ExactFacts(h[i], id, f);
  }

  /** As are the items of an open request. */
  lemma {:induction false} CleanItemsAreRead(h: seq<Disk>, i: nat, id: NodeId)
    requires CleanHistoryOf(h) && i < |h| && Rested(h[0]) && Exact(h[0])
    requires id in h[i].st.nodes && h[i].st.nodes[id].awaiting.Some?
    ensures var a := h[i].st.nodes[id].awaiting.value;
            1 <= a.eventSeq && a.items == ItemsFrom(h[i].st.run, h[i].log, id, a.eventSeq - 1, |h[i].log|)
  {
    CleanHistoryIsExact(h, i);
    ExactItems(h[i], id);
  }

  lemma {:induction false} ExactFacts(d: Disk, id: NodeId, f: Fact)
    requires Exact(d)
    ensures HasFact(d.st, id, f) <==> Stands(d.st.run, d.log, |d.log|, id, f)
  {
    FactsAreRead(d.st.run, d.log, id, f);
  }

  lemma {:induction false} ExactItems(d: Disk, id: NodeId)
    requires Exact(d) && WellSeq(d.st.run, d.log) && id in d.st.nodes && d.st.nodes[id].awaiting.Some?
    ensures var a := d.st.nodes[id].awaiting.value;
            1 <= a.eventSeq && a.items == ItemsFrom(d.st.run, d.log, id, a.eventSeq - 1, |d.log|)
  {
    assert d.log[..|d.log|] == d.log;
    RequestIsAll(d.st.run, d.log, |d.log|, id);
  }
}

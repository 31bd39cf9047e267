/** What losing the source branch costs a caller-owned run: it can never merge again. */
module LostSource {
  import opened Prelude
  import opened Schema
  import opened Reducer
  import opened ReducerLaws
  import opened Recovery
  import opened CrashSafety
  import opened CrashWindows

  /** A caller-owned run whose default node exists and whose source branch is unknown. */
  predicate Sourceless(st: Store) {
    && st.manifest.Some? && st.manifest.value.owner == Caller && st.manifest.value.sourceBranch.None?
    && DEFAULT_NODE in st.nodes
  }

  /** It refuses every merge that names a source branch. */
  lemma SourcelessRefuses(log: seq<Event>, st: Store, ev: Event)
    requires Sourceless(st) && ev.body.MergeStarted?
    ensures PlanEvent(log, st, ev).Accepted? ==> ev.body.txn.Some? && ev.body.txn.value.sourceBranch == ""
  {}

  /** The two facts: the source branch, and whether the default node exists. */
  ghost predicate SameSource(a: Store, b: Store) {
    && a.manifest.Some? && b.manifest.Some? && a.manifest.value.owner == b.manifest.value.owner
    && a.manifest.value.sourceBranch == b.manifest.value.sourceBranch
    && (DEFAULT_NODE in a.nodes <==> DEFAULT_NODE in b.nodes)
  }

  /** Nothing but the creation of the default node touches them. */
  lemma CutKeepsSource(log: seq<Event>, st: Store, ev: Event, k: nat)
    requires st.manifest.Some?
    requires !ev.body.NodeCreated? || ev.nodeId != Some(DEFAULT_NODE) || DEFAULT_NODE in st.nodes
    ensures SameSource(Cut(log, st, ev, k), st)
  {
    if PlanEvent(log, st, ev).Accepted? {
      PlanShape(log, st, ev);
      CutShort(log, st, ev, k);
    }
  }

  lemma StepKeepsSource(log: seq<Event>, st: Store, ev: Event)
    requires st.manifest.Some?
    requires !ev.body.NodeCreated? || ev.nodeId != Some(DEFAULT_NODE) || DEFAULT_NODE in st.nodes
    ensures SameSource(Step(log, st, ev), st)
  {
    CutKeepsSource(log, st, ev, 2);
    if PlanEvent(log, st, ev).Accepted? { CutIsCommit(log, st, ev); }
  }

  lemma {:induction false} ReplaySourceless(log: seq<Event>, base: nat, st: Store, i: nat)
    requires Sourceless(st) && i <= |log|
    ensures Sourceless(ReplayTo(log, base, st, i))
  {
    if i > 0 {
      ReplaySourceless(log, base, st, i - 1);
      StepKeepsSource(log, ReplayTo(log, base, st, i - 1), log[i - 1]);
    }
  }

  lemma HoldSourceless(d: Disk, e: Disk)
    requires Sourceless(d.st) && Hold(Nothing, d, e)
    ensures Sourceless(e.st)
  {
    ReplaySourceless(d.log, Applied(d.st), d.st, |d.log|);
    if i: nat, k: nat :| ReplayCut(Nothing, d, e, i, k) {
      ReplaySourceless(d.log, Applied(d.st), d.st, i);
      CutKeepsSource(d.log, ReplayTo(d.log, Applied(d.st), d.st, i), d.log[i], k);
    } else if k :| RefoldCut(Nothing, d, e, k) {
      CutKeepsSource(d.log, d.st, d.log[|d.log| - 1], k);
    } else if ev, k :| AppendCut(Nothing, d, e, ev, k) {
      CutKeepsSource(d.log, CatchUp(d.log, d.st), ev, k);
    } else if ev :| FullAppend(d, e, ev) {
      StepKeepsSource(d.log, CatchUp(d.log, d.st), ev);
    }
  }

  /** Once lost, lost for good: over every later history, whatever crashes, no merge naming a
      source branch is ever admitted. */
  lemma {:induction false} NeverMergesAgain(h: seq<Disk>, i: nat, ev: Event)
    requires History(Nothing, h) && i < |h| && Sourceless(h[0].st)
    ensures Sourceless(h[i].st)
    ensures ev.body.MergeStarted? && Admits(h[i], ev) ==> ev.body.txn.Some? && ev.body.txn.value.sourceBranch == ""
  {
    if i > 0 {
      NeverMergesAgain(h, i - 1, ev);
      var j := i - 1;
      assert Hold(Nothing, h[j], h[j + 1]);
      HoldSourceless(h[j], h[j + 1]);
    }
    ReplaySourceless(h[i].log, Applied(h[i].st), h[i].st, |h[i].log|);
    if ev.body.MergeStarted? { SourcelessRefuses(h[i].log, CatchUp(h[i].log, h[i].st), ev); }
  }

  lemma {:induction false} LeftOversKeepSource(log: seq<Event>, base: nat, st: Store, i: nat)
    requires st.manifest.Some? && i <= |log| && forall j :: 0 <= j < i && log[j].seqNo > base ==> NodeLevel(log[j].body)
    ensures SameSource(ReplayTo(log, base, st, i), st)
  {
    if i > 0 {
      LeftOversKeepSource(log, base, st, i - 1);
      if log[i - 1].seqNo > base { StepKeepsSource(log, ReplayTo(log, base, st, i - 1), log[i - 1]); }
    }
  }

  /** Exactly when a crash leaves a caller-owned run without its source branch: when the complete
      event would have, or when it hit the window between the two writes of the creation. */
  lemma SourceLostExactly(log: seq<Event>, st: Store, ev: Event, k: nat)
    requires CaughtUp(log, st) && Admits(Disk(log, st), ev) && st.manifest.value.owner == Caller
    ensures Sourceless(CatchUp(log + [ev], Cut(log, st, ev, k))) <==>
            Sourceless(Step(log, st, ev)) || (ev.body.NodeCreated? && LossyWindow(st, ev, k))
  {
    if ev.body.NodeCreated? {
      CrashLosesExactly(log, st, ev, k);
      if LossyWindow(st, ev, k) { CreationLoses(log, st, ev, k); }
    } else {
      OtherKeeps(log, st, ev, k);
    }
  }

  lemma CreationLoses(log: seq<Event>, st: Store, ev: Event, k: nat)
    requires OnDisk(log, st) && PlanEvent(log, st, ev).Accepted? && st.manifest.value.owner == Caller
    requires ev.body.NodeCreated?
    requires LossyWindow(st, ev, k)
    ensures Sourceless(CatchUp(log + [ev], Cut(log, st, ev, k)))
  {
    CutShort(log, st, ev, k);
    ReplaySourceless(log + [ev], Applied(st), Cut(log, st, ev, k), |log + [ev]|);
  }

  lemma OtherKeeps(log: seq<Event>, st: Store, ev: Event, k: nat)
    requires CaughtUp(log, st) && Admits(Disk(log, st), ev) && !ev.body.NodeCreated?
    ensures SameSource(CatchUp(log + [ev], Cut(log, st, ev, k)), st) && SameSource(Step(log, st, ev), st)
  {
    var l, c := log + [ev], Cut(log, st, ev, k);
    CutWalks(log, st, ev, k);
    CutKeepsSource(log, st, ev, k);
    forall j | 0 <= j < |log| && l[j].seqNo > Applied(st) ensures NodeLevel(l[j].body) {
      assert l[j] == log[j];
      CaughtUpLeavesRefused(log, st, j);
    }
    LeftOversKeepSource(l, Applied(st), c, |log|);
    StepKeepsSource(l, ReplayTo(l, Applied(st), c, |log|), ev);
    StepKeepsSource(log, st, ev);
  }
}

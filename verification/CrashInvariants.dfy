/** What every disk of every crash history keeps, lossy windows included: merge transactions, the
    settlement intent, open requests, Pi facts, terminal statuses, and the log behind each fact. */
module CrashInvariants {
  import opened Prelude
  import opened Schema
  import opened NodeStatusFold
  import opened Reducer
  import opened ReducerLaws
  import opened Refold
  import opened Recovery
  import opened CrashSafety
  import opened Provenance

  ghost predicate AllPi(st: Store) {
    forall id :: id in st.nodes ==> PiInv(st.nodes[id])
  }

  /** The invariants of the reducer hold of the store, and the log says every fact in it. */
  ghost predicate Sane(log: seq<Event>, st: Store) {
    StoreInv(st) && AllPi(st) && AllJustified(log, st)
  }

  // ---- what a stretch of history may change ----

  /** The log holds a confirmed merge of the node. */
  ghost predicate Merged(log: seq<Event>, id: NodeId) {
    exists k :: 0 <= k < |log| && MergeReportFor(id, log[k])
  }

  /** This event of the log takes a failed run to Done. */
  ghost predicate Recovers(log: seq<Event>, k: nat) {
    && k < |log| && log[k].body.RunStatus? && log[k].body.runStatus == Some(Done) && log[k].body.childrenSuccessful
    && log[k].body.recoverySeq.Some? && RecoveryVerdict(log[..k], log[k].seqNo, log[k].body.recoverySeq.value)
  }

  ghost predicate Recovered(log: seq<Event>) { exists k: nat :: Recovers(log, k) }

  ghost predicate NodeDescends(log: seq<Event>, id: NodeId, a: Node, b: Node) {
    && PiOnward(a, b)
    && (a.status.IsTerminal() && b.status != a.status ==> a.status == Failed && b.status == Done && Merged(log, id))
  }

  ghost predicate ManifestDescends(log: seq<Event>, a: Manifest, b: Manifest) {
    && b.owner == a.owner && b.resident == a.resident
    && (a.sourceBranch.Some? ==> b.sourceBranch == a.sourceBranch)
    && (a.intent.Some? ==> b.intent == a.intent)
    && (a.status.IsTerminal() && b.status != a.status ==> a.status == Failed && b.status == Done && Recovered(log))
  }

  /** What the later of two stores has kept of the earlier. */
  ghost predicate Descends(log: seq<Event>, a: Store, b: Store) {
    && b.run == a.run
    && (a.manifest.Some? ==> b.manifest.Some? && ManifestDescends(log, a.manifest.value, b.manifest.value))
    && forall id :: id in a.nodes ==> id in b.nodes && NodeDescends(log, id, a.nodes[id], b.nodes[id])
  }

  lemma NodeDescendsOn(log: seq<Event>, id: NodeId, a: Node, b: Node, c: Node)
    requires NodeDescends(log, id, a, b) && NodeDescends(log, id, b, c)
    ensures NodeDescends(log, id, a, c)
  {}

  lemma DescendsOn(log: seq<Event>, a: Store, b: Store, c: Store)
    requires Descends(log, a, b) && Descends(log, b, c)
    ensures Descends(log, a, c)
  {
    forall id | id in a.nodes ensures NodeDescends(log, id, a.nodes[id], c.nodes[id]) {
      NodeDescendsOn(log, id, a.nodes[id], b.nodes[id], c.nodes[id]);
    }
  }

  lemma DescendsSelf(log: seq<Event>, a: Store)
    ensures Descends(log, a, a)
  {}

  lemma RecoveredLater(log: seq<Event>, ev: Event)
    requires Recovered(log)
    ensures Recovered(log + [ev])
  {
    var k: nat :| Recovers(log, k);
    assert (log + [ev])[k] == log[k] && (log + [ev])[..k] == log[..k];
    assert Recovers(log + [ev], k);
  }

  lemma MergedLater(log: seq<Event>, ev: Event, id: NodeId)
    requires Merged(log, id)
    ensures Merged(log + [ev], id)
  {
    var k :| 0 <= k < |log| && MergeReportFor(id, log[k]);
    assert (log + [ev])[k] == log[k];
  }

  /** The same over a longer log. */
  lemma DescendsLater(log: seq<Event>, ev: Event, a: Store, b: Store)
    requires Descends(log, a, b)
    ensures Descends(log + [ev], a, b)
  {
    if Recovered(log) { RecoveredLater(log, ev); }
    forall id | id in a.nodes ensures NodeDescends(log + [ev], id, a.nodes[id], b.nodes[id]) {
      if Merged(log, id) { MergedLater(log, ev, id); }
    }
  }

  // ---- one event of the log ----

  /** The log of the plan says of the event what the log before it says. */
  ghost predicate PlansAlike(log: seq<Event>, over: seq<Event>, i: nat)
    requires i < |log|
  {
    SameBefore(log[..i], over, log[i].seqNo)
  }

  lemma NodeMoveDescends(log: seq<Event>, st: Store, i: nat, id: NodeId, n: Node)
    requires i < |log| && NodeMoved(st, id, log[i], n) && PiInv(st.nodes[id])
    ensures NodeDescends(log, id, st.nodes[id], n)
  {
    PiMove(st, id, log[i], n);
    NodeMoveIsFinal(st, id, log[i], n);
  }

  lemma RunMoveDescends(log: seq<Event>, over: seq<Event>, i: nat, m: Manifest, next: Status)
    requires i < |log| && PlansAlike(log, over, i) && RunMoved(over, m, log[i], next) && m.status.IsTerminal()
    ensures m.status == Failed && next == Done && Recovered(log)
  {
    VerdictDependsOnBefore(log[..i], over, log[i].seqNo);
    assert Recovers(log, i);
  }

  lemma EvolvesDescends(log: seq<Event>, over: seq<Event>, st: Store, i: nat, s: Store)
    requires i < |log| && PlansAlike(log, over, i) && AllPi(st) && Evolves(over, st, log[i], s)
    ensures Descends(log, st, s)
  {
    forall id | id in st.nodes ensures NodeDescends(log, id, st.nodes[id], s.nodes[id]) {
      if s.nodes[id] != st.nodes[id] { NodeMoveDescends(log, st, i, id, s.nodes[id]); }
    }
    if st.manifest.Some? && s.manifest.value.status != st.manifest.value.status &&
        st.manifest.value.status.IsTerminal() {
      RunMoveDescends(log, over, i, st.manifest.value, s.manifest.value.status);
    }
  }

  lemma EvolvesKeepsPi(over: seq<Event>, st: Store, ev: Event, s: Store)
    requires AllPi(st) && Evolves(over, st, ev, s)
    ensures AllPi(s)
  {
    forall id | id in s.nodes ensures PiInv(s.nodes[id]) {
      if id in st.nodes && s.nodes[id] != st.nodes[id] { PiMove(st, id, ev, s.nodes[id]); }
    }
  }

  /** Folding a logged event at any time, wholly or cut after any write. */
  lemma LoggedMove(log: seq<Event>, over: seq<Event>, st: Store, i: nat, s: Store)
    requires i < |log| && PlansAlike(log, over, i) && Sane(log, st) && Evolves(over, st, log[i], s)
    ensures Sane(log, s) && Descends(log, st, s)
  {
    EvolvesKeepsInv(over, st, log[i], s);
    EvolvesKeepsPi(over, st, log[i], s);
    EvolvesKeepsFacts(log, over, st, i, s);
    EvolvesDescends(log, over, st, i, s);
  }

  lemma StepMoves(log: seq<Event>, st: Store, i: nat)
    requires WellSeq(st.run, log) && i < |log| && Sane(log, st)
    ensures Sane(log, Step(log, st, log[i])) && Descends(log, st, Step(log, st, log[i]))
  {
    PlanIsStable(st.run, log, st, i);
    StepEvolves(log, st, log[i]);
    LoggedMove(log, log, st, i, Step(log, st, log[i]));
  }

  lemma CutMoves(log: seq<Event>, st: Store, i: nat, k: nat)
    requires WellSeq(st.run, log) && i < |log| && Sane(log, st)
    ensures Sane(log, Cut(log, st, log[i], k)) && Descends(log, st, Cut(log, st, log[i], k))
  {
    PlanIsStable(st.run, log, st, i);
    CutEvolves(log, st, log[i], k);
    LoggedMove(log, log, st, i, Cut(log, st, log[i], k));
  }

  // ---- one lock hold ----

  lemma {:induction false} ReplayMoves(log: seq<Event>, base: nat, st: Store, i: nat)
    requires WellSeq(st.run, log) && i <= |log| && Sane(log, st)
    ensures Sane(log, ReplayTo(log, base, st, i)) && Descends(log, st, ReplayTo(log, base, st, i))
  {
    if i == 0 {
      DescendsSelf(log, st);
    } else {
      ReplayMoves(log, base, st, i - 1);
      var s := ReplayTo(log, base, st, i - 1);
      if log[i - 1].seqNo > base {
        StepMoves(log, s, i - 1);
        DescendsOn(log, st, s, Step(log, s, log[i - 1]));
      }
    }
  }

  lemma CatchUpMoves(log: seq<Event>, st: Store)
    requires WellSeq(st.run, log) && Sane(log, st)
    ensures Sane(log, CatchUp(log, st)) && Descends(log, st, CatchUp(log, st))
  {
    ReplayMoves(log, Applied(st), st, |log|);
    DescendsSelf(log, st);
  }

  lemma {:induction false} ReplayCutMoves(d: Disk, i: nat, k: nat)
    requires WellSeq(d.st.run, d.log) && i < |d.log| && Sane(d.log, d.st)
    ensures var c := Cut(d.log, ReplayTo(d.log, Applied(d.st), d.st, i), d.log[i], k);
            Sane(d.log, c) && Descends(d.log, d.st, c)
  {
    ReplayMoves(d.log, Applied(d.st), d.st, i);
    var s := ReplayTo(d.log, Applied(d.st), d.st, i);
    CutMoves(d.log, s, i, k);
    DescendsOn(d.log, d.st, s, Cut(d.log, s, d.log[i], k));
  }

  lemma SaneLater(log: seq<Event>, ev: Event, st: Store)
    requires Sane(log, st)
    ensures Sane(log + [ev], st)
  {
    AllJustifiedLater(log, ev, st);
  }

  lemma NumberedLater(run: RunId, log: seq<Event>, ev: Event)
    requires WellSeq(run, log) && ev.seqNo == |log| + 1 && ev.runId == run
    ensures WellSeq(run, log + [ev]) && (log + [ev])[|log|] == ev && PlansAlike(log + [ev], log, |log|)
  {
    assert (log + [ev])[..|log|] == log;
  }

  /** The next event appended to a store and folded, wholly or cut. */
  lemma AppendMoves(log: seq<Event>, st: Store, ev: Event, s: Store)
    requires WellSeq(st.run, log) && Sane(log, st) && ev.seqNo == |log| + 1 && ev.runId == st.run
    requires Evolves(log, st, ev, s)
    ensures WellSeq(st.run, log + [ev]) && Sane(log + [ev], s) && Descends(log + [ev], st, s)
  {
    SaneLater(log, ev, st);
    NumberedLater(st.run, log, ev);
    LoggedMove(log + [ev], log, st, |log|, s);
  }

  lemma AdmittedMoves(d: Disk, ev: Event, s: Store)
    requires WellSeq(d.st.run, d.log) && Sane(d.log, d.st) && Admits(d, ev)
    requires Evolves(d.log, CatchUp(d.log, d.st), ev, s)
    ensures WellSeq(d.st.run, d.log + [ev]) && Sane(d.log + [ev], s) && Descends(d.log + [ev], d.st, s)
  {
    CatchUpMoves(d.log, d.st);
    var c := CatchUp(d.log, d.st);
    AppendMoves(d.log, c, ev, s);
    DescendsLater(d.log, ev, d.st, c);
    DescendsOn(d.log + [ev], d.st, c, s);
  }

  /** Every lock hold, cut by a crash anywhere, keeps the invariants, and what it leaves descends
      from what it found. */
  lemma HoldMoves(d: Disk, e: Disk)
    requires WellSeq(d.st.run, d.log) && Sane(d.log, d.st) && Hold(Nothing, d, e)
    ensures WellSeq(e.st.run, e.log) && Sane(e.log, e.st) && Descends(e.log, d.st, e.st)
  {
    DescendsSelf(d.log, d.st);
    CatchUpMoves(d.log, d.st);
    if i, k :| ReplayCut(Nothing, d, e, i, k) {
      ReplayCutMoves(d, i, k);
    } else if k :| RefoldCut(Nothing, d, e, k) {
      CutMoves(d.log, d.st, |d.log| - 1, k);
    } else if ev, k :| AppendCut(Nothing, d, e, ev, k) {
      CutEvolves(d.log, CatchUp(d.log, d.st), ev, k);
      AdmittedMoves(d, ev, e.st);
    } else if ev :| FullAppend(d, e, ev) {
      StepEvolves(d.log, CatchUp(d.log, d.st), ev);
      AdmittedMoves(d, ev, e.st);
    }
  }

  // ---- whole histories ----

  /** The same over the log of a hold. */
  lemma HoldDescendsLater(d: Disk, e: Disk, a: Store)
    requires Hold(Nothing, d, e) && Descends(d.log, a, d.st)
    ensures Descends(e.log, a, d.st)
  {
    HoldGrowth(Nothing, d, e);
    if e.log != d.log { DescendsLater(d.log, e.log[|d.log|], a, d.st); }
  }

  lemma {:induction false} HistorySane(h: seq<Disk>, j: nat)
    requires History(Nothing, h) && j < |h| && WellSeq(h[0].st.run, h[0].log) && Sane(h[0].log, h[0].st)
    ensures WellSeq(h[j].st.run, h[j].log) && Sane(h[j].log, h[j].st)
  {
    if j > 0 {
      var i := j - 1;
      HistorySane(h, i);
      assert Hold(Nothing, h[i], h[i + 1]);
      HoldMoves(h[i], h[i + 1]);
    }
  }

  lemma {:induction false} HistoryDescends(h: seq<Disk>, i: nat, j: nat)
    requires History(Nothing, h) && i <= j < |h| && WellSeq(h[0].st.run, h[0].log) && Sane(h[0].log, h[0].st)
    ensures Descends(h[j].log, h[i].st, h[j].st)
  {
    DescendsSelf(h[j].log, h[j].st);
    if i < j {
      var k := j - 1;
      HistoryDescends(h, i, k);
      HistorySane(h, k);
      assert Hold(Nothing, h[k], h[k + 1]);
      HoldCarriesOn(h[k], h[k + 1], h[i].st);
    }
  }

  lemma HoldCarriesOn(d: Disk, e: Disk, a: Store)
    requires WellSeq(d.st.run, d.log) && Sane(d.log, d.st) && Hold(Nothing, d, e) && Descends(d.log, a, d.st)
    ensures Descends(e.log, a, e.st)
  {
    HoldMoves(d, e);
    HoldDescendsLater(d, e, a);
    DescendsOn(e.log, a, d.st, e.st);
  }

  /** Safety over every crash history. Start from a store in order; let any lock holds run, each
      cut by a crash anywhere, lossy windows included. At every disk, before and after catch-up:
      merges are linked to the one settlement intent, at most one node of a caller-owned run
      holds one, open requests and Pi facts are in order, and a logged event addressed to the
      node says each of its facts. Between any two disks: owner, residency, source branch and
      intent are kept once known, session ids stay, generations never fall, absorbing Pi states
      and terminal statuses stay, but that a Failed node becomes Done by a logged confirmed
      merge of it, and a Failed run by a logged status whose recovery verdict holds. */
  lemma CrashInvariantsHold(h: seq<Disk>, i: nat, j: nat)
    requires History(Nothing, h) && i <= j < |h| && WellSeq(h[0].st.run, h[0].log) && Sane(h[0].log, h[0].st)
    ensures var log, st := h[j].log, h[j].st;
            var s := CatchUp(log, st);
            && Sane(log, st) && OnePending(st) && Descends(log, h[i].st, st)
            && Sane(log, s) && OnePending(s) && Descends(log, h[i].st, s)
  {
    HistorySane(h, j);
    HistoryDescends(h, i, j);
    var log, st := h[j].log, h[j].st;
    CatchUpMoves(log, st);
    OneCallerMerge(st);
    OneCallerMerge(CatchUp(log, st));
    DescendsOn(log, h[i].st, st, CatchUp(log, st));
  }

  /** The fold of any log is a store in order. */
  lemma {:induction false} FoldIsSane(run: RunId, log: seq<Event>)
    ensures Sane(log, Fold(run, log))
  {
    ReachableInvariants(run, log, Event(0, 0, run, None, None, Audit("")), 0);
    PiInvHolds(run, log);
    EveryFactIsLogged(run, log);
  }
}

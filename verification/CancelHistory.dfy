/** Cancel-keyed events over whole histories of the log. */
module CancelHistory {
  import opened Prelude
  import opened Schema
  import opened NodeStatusFold
  import opened CrashAgreement
  import opened Keyed
  import opened Cancel
  import opened CancelProtocol

  // ---- whole histories of the log ----

  lemma {:induction false} NodeCancelDisciplined(run: RunId, log: seq<Event>, onEntry: Status, id: NodeId,
      clock: Clock, reason: string,
                              rolled: Option<Status>, l: seq<Event>)
    requires Disciplined(run, log) && LogRunStatus(log).Some? && id in FoldStatus(log).status
    requires NodeCancelled(run, log, onEntry, id, clock, reason, rolled, l)
    ensures Disciplined(run, l) && log <= l
  {
    NodeReportedFold(run, log, id, clock, reason);
    var mid := NodeReported(run, log, id, clock, reason);
    LogRunStatusGrows(log, mid);
    RolledUpDisciplined(run, mid, onEntry, clock, rolled, l);
  }

  lemma {:induction false} RolledUpDisciplined(run: RunId, mid: seq<Event>, onEntry: Status, clock: Clock,
      rolled: Option<Status>,
      l: seq<Event>)
    requires Disciplined(run, mid) && LogRunStatus(mid).Some?
    requires RolledUp(run, mid, PriorStatus(run, mid), onEntry, clock, rolled, l)
    ensures Disciplined(run, l) && mid <= l
  {
    RollUpMeansSettled(mid);
    if rolled.Some? && PriorStatus(run, mid).None? {
      StatusPlaced(run, mid, |mid| + 1, clock(|mid| + 1), Ending(rolled.value, None));
      DisciplinedAppend(run, mid, StatusEvent(run, |mid| + 1, clock(|mid| + 1), Ending(rolled.value, None)));
    }
  }

  /** How the log grows: by an event outside the cancel keys, or by any part of a
      `cancel_run` or a `cancel_node`, complete or cut by a crash. */
  ghost predicate Grows(run: RunId, log: seq<Event>, l: seq<Event>) {
    || (exists ev: Event :: (ev.key.None? || !(KeyPrefix(run) <= ev.key.value)) && l == log + [ev])
    || (exists call: Call, j :: |log| <= j <= |CancelledLog(run, log, call)| && l == CancelledLog(run, log, call)[..j])
    || (exists onEntry: Status, id: NodeId, clock: Clock, reason, rolled, full ::
          && id in FoldStatus(log).status && NodeCancelled(run, log, onEntry, id, clock, reason, rolled, full)
          && log <= l <= full)
  }

  lemma {:induction false} RunGrowthKeeps(run: RunId, log: seq<Event>, call: Call, j: nat)
    requires Disciplined(run, log) && LogRunStatus(log).Some? && |log| <= j <= |CancelledLog(run, log, call)|
    ensures Disciplined(run, CancelledLog(run, log, call)[..j]) && log <= CancelledLog(run, log, call)[..j]
  {
    CancelSettles(run, log, call);
    DisciplinedPrefix(run, CancelledLog(run, log, call), j);
  }

  lemma {:induction false} NodeGrowthKeeps(run: RunId, log: seq<Event>, onEntry: Status, id: NodeId, clock: Clock,
      reason: string,
                        rolled: Option<Status>, full: seq<Event>, l: seq<Event>)
    requires Disciplined(run, log) && LogRunStatus(log).Some? && id in FoldStatus(log).status
    requires NodeCancelled(run, log, onEntry, id, clock, reason, rolled, full) && log <= l <= full
    ensures Disciplined(run, l)
  {
    NodeCancelDisciplined(run, log, onEntry, id, clock, reason, rolled, full);
    DisciplinedPrefix(run, full, |l|);
    assert full[..|l|] == l;
  }

  lemma {:induction false} GrowthKeeps(run: RunId, log: seq<Event>, l: seq<Event>)
    requires Disciplined(run, log) && LogRunStatus(log).Some? && Grows(run, log, l)
    ensures Disciplined(run, l) && log <= l
  {
    if ev: Event :| (ev.key.None? || !(KeyPrefix(run) <= ev.key.value)) && l == log + [ev] {
      ForeignPlaced(run, log, ev);
      DisciplinedAppend(run, log, ev);
    } else if call: Call, j :| |log| <= j <= |CancelledLog(run, log, call)| && l == CancelledLog(run, log, call)[..j] {
      RunGrowthKeeps(run, log, call, j);
    } else {
      var onEntry: Status, id: NodeId, clock: Clock, reason, rolled, full :|
        && id in FoldStatus(log).status && NodeCancelled(run, log, onEntry, id, clock, reason, rolled, full)
        && log <= l <= full;
      NodeGrowthKeeps(run, log, onEntry, id, clock, reason, rolled, full, l);
    }
  }

  lemma {:induction false} HistoryDisciplined(run: RunId, h: seq<seq<Event>>, i: nat)
    requires i < |h| && Disciplined(run, h[0]) && LogRunStatus(h[0]).Some?
    requires forall j :: 0 <= j < |h| - 1 ==> Grows(run, h[j], h[j + 1])
    ensures Disciplined(run, h[i]) && LogRunStatus(h[i]).Some?
  {
    if i > 0 {
      HistoryDisciplined(run, h, i - 1);
      var j := i - 1;
      assert Grows(run, h[j], h[j + 1]);
      GrowthKeeps(run, h[j], h[j + 1]);
      LogRunStatusGrows(h[j], h[j + 1]);
    }
  }

  lemma {:induction false} TerminalStays(log: seq<Event>, i: nat, j: nat, id: NodeId)
    requires i <= j <= |log| && id in FoldStatus(log[..i]).status && FoldStatus(log[..i]).status[id].IsTerminal()
    ensures id in FoldStatus(log[..j]).status && FoldStatus(log[..j]).status[id].IsTerminal()
  {
    if i < j {
      TerminalStays(log, i, j - 1, id);
      assert log[..j][..j - 1] == log[..j - 1];
    }
  }

  /** No early terminalisation, at any point of any such history: if the run status of a
      cancel or roll-up is in the log, it is there once, and every node created before it was
      terminal in the log fold when it was appended and still is. */
  lemma NoEarlyTerminalisation(run: RunId, h: seq<seq<Event>>, i: nat, p: nat)
    requires i < |h| && Disciplined(run, h[0]) && LogRunStatus(h[0]).Some?
    requires forall j :: 0 <= j < |h| - 1 ==> Grows(run, h[j], h[j + 1])
    requires p < |h[i]| && RunCancel(run, h[i][p])
    ensures AllSettled(h[i][..p])
    ensures forall id :: id in FoldStatus(h[i][..p]).status ==>
              id in FoldStatus(h[i]).status && FoldStatus(h[i]).status[id].IsTerminal()
    ensures forall q :: 0 <= q < |h[i]| && RunCancel(run, h[i][q]) ==> q == p
  {
    HistoryDisciplined(run, h, i);
    var log := h[i];
    assert log[..|log|] == log;
    assert Placed(run, log[..p], log[p]);
    forall id | id in FoldStatus(log[..p]).status
      ensures id in FoldStatus(log).status && FoldStatus(log).status[id].IsTerminal()
    {
      TerminalStays(log, p, |log|, id);
    }
    forall q | 0 <= q < |log| && RunCancel(run, log[q]) ensures q == p {
      OneCarrier(run, log, if p < q then p else q, if p < q then q else p);
    }
  }

  lemma OneCarrier(run: RunId, log: seq<Event>, a: nat, b: nat)
    requires Disciplined(run, log) && a <= b < |log| && RunCancel(run, log[a]) && RunCancel(run, log[b])
    ensures a == b
  {
    assert Placed(run, log[..b], log[b]);
    FirstIsCarrier(log[..b], KRunStatus, StatusKey(run));
  }
}

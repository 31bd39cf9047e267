/** The streaming accumulator behind the cancel ledger and the supervisor's roll-up. */
module StatusAccumulator {
  import opened Prelude
  import opened Json
  import opened Schema
  import opened Report
  import opened NodeStatusFold

  class NodeStatusAcc {
    var order: seq<NodeId>
    var status: map<NodeId, Status>
    var merged: map<NodeId, nat>

    ghost function Value(): Acc
      reads this
    {
      Acc(order, status, merged)
    }

    constructor ()
      ensures Value() == EMPTY_ACC
    {
      order, status, merged := [], map[], map[];
    }

    /** Fold one skimmed line. */
    method ObserveLine(ev: Event)
      modifies this
      ensures Value() == Observe(old(Value()), ev)
    {
      if ev.nodeId.None? { return; }
      var id := ev.nodeId.value;
      if ev.body.NodeCreated? {
        if id !in status {
          order := order + [id];
          status := status[id := Pending];
        }
        return;
      }
      if id !in status { return; }
      var cur := status[id];
      match ev.body {
        case NodeStatus(next) =>
          if !cur.IsTerminal() && next.Some? { status := status[id := next.value]; }
        case NodeReport(full) =>
          var report := Skim(full);
          if cur.IsTerminal() {
            if PermitsTerminalMergeRecovery(cur, report) {
              status := status[id := Done];
              merged := merged[id := ev.seqNo];
            }
          } else {
            var outcome := LenientOutcome(AsBool(Get(report, "success")), AsBool(Get(report, "cancelled")));
            if outcome.Some? {
              status := status[id := outcome.value];
              if outcome.value == Done && ConfirmedMerge(report) { merged := merged[id := ev.seqNo]; }
            } else {
              UnclearIsNoMerge(full);
            }
          }
        case _ =>
      }
      assert status == old(status)[id := StatusAfter(cur, ev.body)];
    }

    /** The facts in numeric node order. */
    method FinishFacts() returns (facts: seq<Fact>)
      requires Coherent(Value())
      ensures facts == FactsOfSorted(Value())
    {
      SortedKeepsMembers(order);
      var ids := Sorted(order);
      facts := [];
      for i := 0 to |ids|
        invariant |facts| == i
        invariant forall j :: 0 <= j < i ==> facts[j] == Fact(ids[j], status[ids[j]], Lookup(merged, ids[j]))
      {
        assert ids[i] in ids;
        facts := facts + [Fact(ids[i], status[ids[i]], Lookup(merged, ids[i]))];
      }
      assert facts == FactsOf(Value(), ids);
    }
  }

  /** A report without a clear outcome is no confirmed merge. */
  lemma UnclearIsNoMerge(full: Fields)
    requires LenientOutcome(AsBool(Get(Skim(full), "success")), AsBool(Get(Skim(full), "cancelled"))).None?
    ensures !ConfirmedMerge(Skim(full))
  {}

  function FactsOfSorted(a: Acc): seq<Fact>
    requires Coherent(a)
  {
    SortedKeepsMembers(a.order);
    FactsOf(a, Sorted(a.order))
  }

  /** Replay node facts from the log, optionally only below a sequence number. */
  method ReadNodeStatusFacts(log: seq<Event>, bound: Option<nat>) returns (facts: seq<Fact>)
    ensures facts == NodeStatusFacts(log, bound)
  {
    var acc := new NodeStatusAcc();
    ghost var seen: seq<Event> := [];
    for i := 0 to |log|
      invariant fresh(acc)
      invariant seen == if bound.Some? then Before(log[..i], bound.value) else log[..i]
      invariant acc.Value() == FoldStatus(seen)
    {
      assert log[..i + 1][..i] == log[..i];
      if bound.None? || log[i].seqNo < bound.value {
        acc.ObserveLine(log[i]);
        ghost var next := seen + [log[i]];
        assert next[..|seen|] == seen;
        seen := next;
      }
    }
    assert log[..|log|] == log;
    FoldIsCoherent(seen);
    facts := acc.FinishFacts();
  }
}

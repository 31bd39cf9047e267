/** Per-node status derived from the event log alone, independently of the reducer. */
module NodeStatusFold {
  import opened Prelude
  import opened Json
  import opened Schema
  import opened Report

  datatype Acc = Acc(order: seq<NodeId>, status: map<NodeId, Status>, merged: map<NodeId, nat>)

  const EMPTY_ACC := Acc([], map[], map[])

  /** The status a known node has after one event. Kinds other than status and report are
      ignored. */
  function StatusAfter(cur: Status, b: Body): Status {
    match b
    case NodeStatus(ns) => if !cur.IsTerminal() && ns.Some? then ns.value else cur
    case NodeReport(full) =>
      var report := Skim(full);
      if cur.IsTerminal() then (if PermitsTerminalMergeRecovery(cur, report) then Done else cur)
      else (match LenientOutcome(AsBool(Get(report, "success")), AsBool(Get(report, "cancelled")))
            case None => cur
            case Some(ns) => ns)
    case _ => cur
  }

  /** Whether the event is a merge report the node adopts. */
  predicate Adopts(cur: Status, b: Body) {
    && b.NodeReport?
    && var report := Skim(b.report);
       if cur.IsTerminal() then PermitsTerminalMergeRecovery(cur, report)
       else StatusAfter(cur, b) == Done && ConfirmedMerge(report)
  }

  /** Fold one skimmed log line. */
  function Observe(a: Acc, ev: Event): Acc {
    if ev.nodeId.None? then a else
    var id := ev.nodeId.value;
    if ev.body.NodeCreated? then
      if id in a.status then a else a.(order := a.order + [id], status := a.status[id := Pending])
    else if id !in a.status then a
    else
      a.(status := a.status[id := StatusAfter(a.status[id], ev.body)],
         merged := if Adopts(a.status[id], ev.body) then a.merged[id := ev.seqNo] else a.merged)
  }

  function FoldStatus(log: seq<Event>): Acc {
    if log == [] then EMPTY_ACC else Observe(FoldStatus(log[..|log| - 1]), log[|log| - 1])
  }

  /** The events strictly below a sequence bound. */
  function Before(log: seq<Event>, bound: nat): seq<Event> {
    if log == [] then []
    else
      var init := Before(log[..|log| - 1], bound);
      if log[|log| - 1].seqNo < bound then init + [log[|log| - 1]] else init
  }

  datatype Fact = Fact(id: NodeId, status: Status, merged: Option<nat>)

  function Insert(ids: seq<NodeId>, id: NodeId): (r: seq<NodeId>)
    ensures multiset(r) == multiset(ids) + multiset{id}
  {
    if ids == [] || Suffix(ids[|ids| - 1].digits) <= Suffix(id.digits) then ids + [id]
    else
      assert ids == ids[..|ids| - 1] + [ids[|ids| - 1]];
      Insert(ids[..|ids| - 1], id) + [ids[|ids| - 1]]
  }

  /** The stable sort by numeric suffix. */
  function Sorted(ids: seq<NodeId>): (r: seq<NodeId>)
    ensures multiset(r) == multiset(ids)
  {
    if ids == [] then []
    else
      assert ids == ids[..|ids| - 1] + [ids[|ids| - 1]];
      Insert(Sorted(ids[..|ids| - 1]), ids[|ids| - 1])
  }

  /** A number written in decimal. */
  function Decimal(n: nat): string {
    if n < 10 then ["0123456789"[n]] else Decimal(n / 10) + ["0123456789"[n % 10]]
  }

  /** The suffix a listing is sorted by is the number the digits write. */
  lemma {:induction false} SuffixIsTheNumber(n: nat)
    ensures Suffix(Decimal(n)) == n && Decimal(n) != []
  {
    if n >= 10 {
      SuffixIsTheNumber(n / 10);
      assert (Decimal(n / 10) + ["0123456789"[n % 10]])[..|Decimal(n / 10)|] == Decimal(n / 10);
    } else {
      assert ["0123456789"[n]][..0] == [];
    }
  }

  ghost predicate Ascending(ids: seq<NodeId>) {
    forall i, j :: 0 <= i < j < |ids| ==> Suffix(ids[i].digits) <= Suffix(ids[j].digits)
  }

  /** The ids with one numeric suffix, in order. */
  ghost function WithSuffix(ids: seq<NodeId>, v: nat): seq<NodeId> {
    if ids == [] then []
    else WithSuffix(ids[..|ids| - 1], v) + (if Suffix(ids[|ids| - 1].digits) == v then [ids[|ids| - 1]] else [])
  }

  lemma {:induction false} WithSuffixSnoc(ids: seq<NodeId>, id: NodeId, v: nat)
    ensures WithSuffix(ids + [id], v) == WithSuffix(ids, v) + (if Suffix(id.digits) == v then [id] else [])
  {
    assert (ids + [id])[..|ids|] == ids;
  }

  lemma {:induction false} InsertMembers(ids: seq<NodeId>, id: NodeId)
    ensures forall x :: x in Insert(ids, id) ==> x == id || x in ids
  {
    forall x | x in Insert(ids, id) ensures x == id || x in ids {
      assert x in multiset(ids) + multiset{id};
    }
  }

  lemma {:induction false} InsertAscends(ids: seq<NodeId>, id: NodeId)
    requires Ascending(ids)
    ensures Ascending(Insert(ids, id))
  {
    if ids != [] && Suffix(ids[|ids| - 1].digits) > Suffix(id.digits) {
      var init := ids[..|ids| - 1];
      InsertAscends(init, id);
      InsertMembers(init, id);
      var r := Insert(init, id);
      forall i | 0 <= i < |r| ensures Suffix(r[i].digits) <= Suffix(ids[|ids| - 1].digits) {
        assert r[i] in r;
      }
    }
  }

  lemma {:induction false} InsertIsStable(ids: seq<NodeId>, id: NodeId, v: nat)
    ensures WithSuffix(Insert(ids, id), v) == WithSuffix(ids, v) + (if Suffix(id.digits) == v then [id] else [])
  {
    if ids == [] || Suffix(ids[|ids| - 1].digits) <= Suffix(id.digits) {
      WithSuffixSnoc(ids, id, v);
    } else {
      var init, last := ids[..|ids| - 1], ids[|ids| - 1];
      InsertIsStable(init, id, v);
      WithSuffixSnoc(Insert(init, id), last, v);
      assert Insert(ids, id) == Insert(init, id) + [last];
      assert WithSuffix(ids, v) == WithSuffix(init, v) + (if Suffix(last.digits) == v then [last] else []);
    }
  }

  /** The listing is sorted by numeric suffix, and ids with equal suffix keep their order. */
  lemma {:induction false} SortIsStable(ids: seq<NodeId>, v: nat)
    ensures Ascending(Sorted(ids)) && WithSuffix(Sorted(ids), v) == WithSuffix(ids, v)
  {
    if ids != [] {
      var init, last := ids[..|ids| - 1], ids[|ids| - 1];
      SortIsStable(init, v);
      InsertAscends(Sorted(init), last);
      InsertIsStable(Sorted(init), last, v);
      WithSuffixSnoc(Sorted(init), last, v);
    }
  }

  /** Every node is listed once, and exactly the listed nodes have a status. */
  ghost predicate Coherent(a: Acc) {
    && (forall i, j :: 0 <= i < j < |a.order| ==> a.order[i] != a.order[j])
    && (forall id :: id in a.order <==> id in a.status)
    && a.merged.Keys <= a.status.Keys
  }

  lemma {:induction false} FoldIsCoherent(log: seq<Event>)
    ensures Coherent(FoldStatus(log))
  {
    if log != [] {
      FoldIsCoherent(log[..|log| - 1]);
    }
  }

  lemma {:induction false} SortedKeepsMembers(ids: seq<NodeId>)
    ensures forall id :: id in Sorted(ids) <==> id in ids
  {
    forall id ensures id in Sorted(ids) <==> id in ids {
      assert id in Sorted(ids) <==> id in multiset(Sorted(ids));
      assert id in ids <==> id in multiset(ids);
    }
  }

  /** The sorted node list of the log. */
  function NodeIds(log: seq<Event>): seq<NodeId> {
    Sorted(FoldStatus(log).order)
  }

  lemma {:induction false} NodeIdsAreTheNodes(log: seq<Event>)
    ensures forall id :: id in NodeIds(log) <==> id in FoldStatus(log).status
  {
    FoldIsCoherent(log);
    SortedKeepsMembers(FoldStatus(log).order);
  }

  function FactsOf(a: Acc, ids: seq<NodeId>): (r: seq<Fact>)
    requires forall id :: id in ids ==> id in a.status
    ensures |r| == |ids|
    ensures forall i :: 0 <= i < |ids| ==> r[i] == Fact(ids[i], a.status[ids[i]], Lookup(a.merged, ids[i]))
  {
    seq(|ids|, i requires 0 <= i < |ids| => Fact(ids[i], a.status[ids[i]], Lookup(a.merged, ids[i])))
  }

  function Lookup(m: map<NodeId, nat>, id: NodeId): Option<nat> {
    if id in m then Some(m[id]) else None
  }

  /** Facts over the events strictly below `bound`, all of them when there is no bound. */
  function NodeStatusFacts(log: seq<Event>, bound: Option<nat>): seq<Fact> {
    var l := if bound.Some? then Before(log, bound.value) else log;
    NodeIdsAreTheNodes(l);
    FactsOf(FoldStatus(l), NodeIds(l))
  }

  function Statuses(facts: seq<Fact>): (r: seq<Status>)
    ensures |r| == |facts| && forall i :: 0 <= i < |r| ==> r[i] == facts[i].status
  {
    seq(|facts|, i requires 0 <= i < |facts| => facts[i].status)
  }

  /** Whether a run-status event at sequence `at` naming report `wanted` may recover a failed run. */
  predicate RecoveryVerdict(log: seq<Event>, at: nat, wanted: nat) {
    var facts := NodeStatusFacts(log, Some(at));
    && Aggregate(Statuses(facts)) == Some(Done)
    && exists i :: 0 <= i < |facts| && facts[i].merged == Some(wanted)
  }
}

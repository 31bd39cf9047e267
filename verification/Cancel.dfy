/** Cancellation as the events it appends, and what those events keep at every crash point. */
module Cancel {
  import opened Prelude
  import opened Json
  import opened Schema
  import opened Report
  import opened NodeStatusFold
  import opened CrashAgreement
  import opened Keyed

  function KeyPrefix(run: RunId): string { "run-cancel:" + run + ":" }

  function NodeKey(run: RunId, id: NodeId): string { KeyPrefix(run) + "node:n-" + id.digits }

  function StatusKey(run: RunId): string { KeyPrefix(run) + "run-status" }

  lemma NodeKeyInjective(run: RunId, a: NodeId, b: NodeId)
    requires NodeKey(run, a) == NodeKey(run, b)
    ensures a == b
  {
    var p := KeyPrefix(run) + "node:n-";
    assert a.digits == NodeKey(run, a)[|p|..] && b.digits == NodeKey(run, b)[|p|..];
  }

  /** Trim white space off both ends. */
  function Trim(s: string): string {
    if s != [] && IsWhite(s[0]) then Trim(s[1..])
    else if s != [] && IsWhite(s[|s| - 1]) then Trim(s[..|s| - 1])
    else s
  }

  /** The note a run status carries: trimmed, and only if it is not blank. */
  function CancelNote(note: Option<string>): Option<string> {
    if note.Some? && Trim(note.value) != "" then Some(Trim(note.value)) else None
  }

  /** A blank note falls back to the default reason; any other is trimmed. */
  function CancelReason(note: Option<string>): (r: string)
    ensures !Blank(r)
    ensures note.Some? && !Blank(note.value) ==> Trimmed(note.value, r)
    ensures note.None? || Blank(note.value) ==> r == "cancelled by user"
  {
    NoteSays(note);
    if note.Some? && Trim(note.value) != "" then
      NonBlankTrim(note.value);
      Trim(note.value)
    else
      assert !IsWhite("cancelled by user"[0]);
      "cancelled by user"
  }

  /** `t` is `s` without the white space at both ends. */
  ghost predicate Trimmed(s: string, t: string) {
    exists i, j :: 0 <= i <= j <= |s| && t == s[i..j] && Outer(s, i, j)
  }

  /** Everything outside the two positions is white, and what is inside neither starts nor ends
      with white space. */
  predicate Outer(s: string, i: nat, j: nat)
    requires i <= j <= |s|
  {
    Blank(s[..i]) && Blank(s[j..]) && (i < j ==> !IsWhite(s[i]) && !IsWhite(s[j - 1]))
  }

  lemma {:induction false} TrimSays(s: string)
    ensures Trimmed(s, Trim(s)) && (Trim(s) == "" <==> Blank(s))
    decreases |s|
  {
    if s != [] && IsWhite(s[0]) {
      TrimSays(s[1..]);
      TrimFront(s, Trim(s[1..]));
    } else if s != [] && IsWhite(s[|s| - 1]) {
      TrimSays(s[..|s| - 1]);
      TrimBack(s, Trim(s[..|s| - 1]));
    } else {
      assert s == s[0..|s|] && Outer(s, 0, |s|);
    }
  }

  lemma TrimFront(s: string, t: string)
    requires s != [] && IsWhite(s[0]) && Trimmed(s[1..], t)
    ensures Trimmed(s, t) && (Blank(s[1..]) <==> Blank(s))
  {
    var i, j :| 0 <= i <= j <= |s| - 1 && t == s[1..][i..j] && Outer(s[1..], i, j);
    assert s[i + 1..j + 1] == t && s[j + 1..] == s[1..][j..];
    assert forall k :: 0 < k < |s| ==> s[k] == s[1..][k - 1];
    assert Blank(s[..i + 1]) by { assert forall k :: 0 < k < i + 1 ==> s[k] == s[1..][..i][k - 1]; }
    assert Outer(s, i + 1, j + 1);
  }

  lemma TrimBack(s: string, t: string)
    requires s != [] && IsWhite(s[|s| - 1]) && Trimmed(s[..|s| - 1], t)
    ensures Trimmed(s, t) && (Blank(s[..|s| - 1]) <==> Blank(s))
  {
    var n := |s| - 1;
    var i, j :| 0 <= i <= j <= n && t == s[..n][i..j] && Outer(s[..n], i, j);
    assert s[i..j] == t && s[..i] == s[..n][..i];
    assert s[j..] == s[..n][j..] + [s[n]] && s == s[..n] + [s[n]];
    BlankSnoc(s[..n][j..], s[n]);
    BlankSnoc(s[..n], s[n]);
    assert Outer(s, i, j);
  }

  lemma BlankSnoc(s: string, c: char)
    requires IsWhite(c)
    ensures Blank(s + [c]) <==> Blank(s)
  {
    assert forall k :: 0 <= k < |s| ==> (s + [c])[k] == s[k];
  }

  /** A run status carries the trimmed note, and none for a blank one. */
  lemma {:induction false} NoteSays(note: Option<string>)
    ensures note.Some? && !Blank(note.value) ==>
              && CancelNote(note).Some? && CancelNote(note).value == Trim(note.value)
              && Trimmed(note.value, CancelNote(note).value)
    ensures note.None? || Blank(note.value) ==> CancelNote(note).None?
  {
    if note.Some? { TrimSays(note.value); }
  }

  lemma {:induction false} NonBlankTrim(s: string)
    ensures Trim(s) == "" || !Blank(Trim(s))
  {
    var t := Trim(s);
    TrimEnds(s);
    if t != "" { assert !IsWhite(t[0]); }
  }

  lemma {:induction false} TrimEnds(s: string)
    ensures Trim(s) == "" || !IsWhite(Trim(s)[0])
    decreases |s|
  {
    if s != [] && IsWhite(s[0]) { TrimEnds(s[1..]); }
    else if s != [] && IsWhite(s[|s| - 1]) { TrimEnds(s[..|s| - 1]); }
  }

  function CancelReport(summary: string, reason: string): Fields {
    map["success" := Bool(false), "cancelled" := Bool(true), "reason" := Str(reason), "summary" := Str(summary),
        "discussion_items" := Arr([]), "spinoff_proposals" := Arr([]), "wrap_up_recommendations" := Arr([])]
  }

  lemma CancelReportCancels(summary: string, reason: string)
    ensures var r := CancelReport(summary, reason);
            && StrictOutcome(r) == Some(Cancelled) && !ConfirmedMerge(r) && !ConfirmedMerge(Skim(r))
            && LenientOutcome(AsBool(Get(Skim(r), "success")), AsBool(Get(Skim(r), "cancelled"))) == Some(Cancelled)
            && AsStr(Get(r, "reason")) == Some(reason) && AsStr(Get(r, "summary")) == Some(summary)
  {
    var r := CancelReport(summary, reason);
    assert r["success"] == Bool(false) && r["cancelled"] == Bool(true);
    SkimIsFaithful(r);
  }

  // ---- the discipline of cancel keys ----

  /** The event is under this run's cancel keys. */
  predicate NodeCancel(run: RunId, ev: Event, id: NodeId) {
    Carries(ev, KNodeReport, NodeKey(run, id))
  }

  predicate RunCancel(run: RunId, ev: Event) {
    Carries(ev, KRunStatus, StatusKey(run))
  }

  /** Every node of the log is terminal in its own fold. */
  ghost predicate AllSettled(log: seq<Event>) {
    forall id :: id in FoldStatus(log).status ==> FoldStatus(log).status[id].IsTerminal()
  }

  /** What a cancel's node report promises about the log it is appended to. */
  ghost predicate NodeCancelPlaced(run: RunId, pre: seq<Event>, ev: Event, id: NodeId) {
    && FreshKey(pre, ev) && ev.nodeId == Some(id)
    && (exists summary, reason :: ev.body == NodeReport(CancelReport(summary, reason)))
    && id in FoldStatus(pre).status && !FoldStatus(pre).status[id].IsTerminal()
  }

  /** A plain run status, without any recovery claim. */
  predicate EndsRun(b: Body, s: Status) {
    b.RunStatus? && b.runStatus == Some(s) && b.recoverySeq.None? && !b.childrenSuccessful
  }

  /** What a cancel's or a roll-up's run status promises: it is the only one, it is terminal,
      and every node created before it is already terminal in the log fold. */
  ghost predicate RunCancelPlaced(run: RunId, pre: seq<Event>, ev: Event) {
    && FreshKey(pre, ev) && AllSettled(pre) && LogRunStatus(pre).Some?
    && exists s: Status :: s.IsTerminal() && EndsRun(ev.body, s)
  }

  ghost predicate Placed(run: RunId, pre: seq<Event>, ev: Event) {
    && (forall id :: NodeCancel(run, ev, id) ==> NodeCancelPlaced(run, pre, ev, id))
    && (RunCancel(run, ev) ==> RunCancelPlaced(run, pre, ev))
  }

  /** Cancel keys are used by cancel alone, once each, and never early. */
  ghost predicate Disciplined(run: RunId, log: seq<Event>) {
    forall i {:trigger Placed(run, log[..i], log[i])} :: 0 <= i < |log| ==> Placed(run, log[..i], log[i])
  }

  lemma DisciplinedAppend(run: RunId, log: seq<Event>, ev: Event)
    requires Disciplined(run, log) && Placed(run, log, ev)
    ensures Disciplined(run, log + [ev])
  {
    var log' := log + [ev];
    forall i | 0 <= i < |log'| ensures Placed(run, log'[..i], log'[i]) {
      if i < |log| { assert log'[..i] == log[..i] && log'[i] == log[i]; } else { assert log'[..i] == log; }
    }
  }

  /** The discipline holds of every prefix, hence at every crash point of whatever wrote the
      log. */
  lemma DisciplinedPrefix(run: RunId, log: seq<Event>, j: nat)
    requires Disciplined(run, log) && j <= |log|
    ensures Disciplined(run, log[..j])
  {
    forall i | 0 <= i < j ensures Placed(run, log[..j][..i], log[..j][i]) {
      assert log[..j][..i] == log[..i] && log[..j][i] == log[i];
    }
  }

  // ---- the events of one call ----

  function ReportEvent(run: RunId, seqNo: nat, ts: nat, id: NodeId, summary: string, reason: string): Event {
    Event(seqNo, ts, run, Some(id), Some(NodeKey(run, id)), NodeReport(CancelReport(summary, reason)))
  }

  /** How a run ends: its status, and the operator's note if there is one. */
  datatype Ending = Ending(status: Status, note: Option<string>)

  function StatusBody(e: Ending): Body { RunStatus(Some(e.status), None, false, e.note) }

  function StatusEvent(run: RunId, seqNo: nat, ts: nat, e: Ending): Event {
    Event(seqNo, ts, run, None, Some(StatusKey(run)), StatusBody(e))
  }

  /** The log says the node is live and this run's cancel has not reported it. */
  predicate Straggler(run: RunId, log: seq<Event>, id: NodeId) {
    && FirstKeyed(log, KNodeReport, NodeKey(run, id)).None?
    && id in FoldStatus(log).status && !FoldStatus(log).status[id].IsTerminal()
  }

  function Stragglers(run: RunId, log: seq<Event>, ids: seq<NodeId>): seq<NodeId> {
    if ids == [] then []
    else
      var init, id := Stragglers(run, log, ids[..|ids| - 1]), ids[|ids| - 1];
      if Straggler(run, log, id) then init + [id] else init
  }

  const RUN_SUMMARY := "Run cancelled before agent reported."
  const NODE_SUMMARY := "Node cancelled before agent reported."

  /** One call: whether the manifest already read Cancelled, the clock, the reason, the note. */
  datatype Call = Call(wasCancelled: bool, clock: Clock, reason: string, note: Option<string>) {
    function Ends(): Ending { Ending(Cancelled, note) }
  }

  function WithReports(run: RunId, log: seq<Event>, ids: seq<NodeId>, call: Call): seq<Event> {
    if ids == [] then log
    else
      var init := WithReports(run, log, ids[..|ids| - 1], call);
      init + [ReportEvent(run, |init| + 1, call.clock(|init| + 1), ids[|ids| - 1], RUN_SUMMARY, call.reason)]
  }

  function Reported(run: RunId, log: seq<Event>, call: Call): seq<Event> {
    WithReports(run, log, Stragglers(run, log, NodeIds(log)), call)
  }

  /** The log a complete `cancel_run` leaves. */
  function CancelledLog(run: RunId, log: seq<Event>, call: Call): seq<Event> {
    WithStatus(run, log, Reported(run, log, call), call)
  }

  // ---- what one cancel event does ----

  lemma {:induction false} ReportObserved(run: RunId, log: seq<Event>, seqNo: nat, ts: nat, id: NodeId,
      summary: string, reason: string)
    requires id in FoldStatus(log).status && !FoldStatus(log).status[id].IsTerminal()
    ensures var a, b := FoldStatus(log), FoldStatus(log + [ReportEvent(run, seqNo, ts, id, summary, reason)]);
            b.order == a.order && b.status == a.status[id := Cancelled]
  {
    var ev := ReportEvent(run, seqNo, ts, id, summary, reason);
    assert (log + [ev])[..|log|] == log;
    CancelReportCancels(summary, reason);
  }

  lemma {:induction false} StatusObserved(run: RunId, log: seq<Event>, seqNo: nat, ts: nat, s: Ending)
    ensures FoldStatus(log + [StatusEvent(run, seqNo, ts, s)]) == FoldStatus(log)
  {
    assert (log + [StatusEvent(run, seqNo, ts, s)])[..|log|] == log;
  }

  /** A cancel report, once logged, leaves its node Cancelled in the log fold for good. */
  lemma {:induction false} CancelledForGood(run: RunId, log: seq<Event>, id: NodeId)
    requires Disciplined(run, log) && FirstKeyed(log, KNodeReport, NodeKey(run, id)).Some?
    ensures id in FoldStatus(log).status && FoldStatus(log).status[id] == Cancelled
  {
    var n := |log| - 1;
    var pre, ev := log[..n], log[n];
    DisciplinedPrefix(run, log, n);
    assert Placed(run, pre, ev);
    if FirstKeyed(pre, KNodeReport, NodeKey(run, id)).Some? {
      CancelledForGood(run, pre, id);
    } else {
      assert NodeCancel(run, ev, id);
      assert NodeCancelPlaced(run, pre, ev, id);
      var summary, reason :| ev.body == NodeReport(CancelReport(summary, reason));
      CancelReportCancels(summary, reason);
    }
  }

  /** A node is a straggler exactly when the log says it is live. */
  lemma {:induction false} StragglersAreLive(run: RunId, log: seq<Event>, id: NodeId)
    requires Disciplined(run, log)
    ensures Straggler(run, log, id) <==> id in FoldStatus(log).status && !FoldStatus(log).status[id].IsTerminal()
  {
    if FirstKeyed(log, KNodeReport, NodeKey(run, id)).Some? { CancelledForGood(run, log, id); }
  }

  lemma {:induction false} KeysApart(run: RunId, log: seq<Event>, ev: Event, id: NodeId, other: NodeId)
    requires ev.body.NodeReport? && ev.key == Some(NodeKey(run, id)) && other != id
    ensures FirstKeyed(log + [ev], KNodeReport, NodeKey(run, other)) ==
            FirstKeyed(log, KNodeReport, NodeKey(run, other))
    ensures FirstKeyed(log + [ev], KRunStatus, StatusKey(run)) == FirstKeyed(log, KRunStatus, StatusKey(run))
  {
    assert (log + [ev])[..|log|] == log;
    if NodeKey(run, other) == NodeKey(run, id) { NodeKeyInjective(run, other, id); }
  }

  lemma ReportPlaced(run: RunId, log: seq<Event>, seqNo: nat, ts: nat, id: NodeId, summary: string, reason: string)
    requires Straggler(run, log, id)
    ensures Placed(run, log, ReportEvent(run, seqNo, ts, id, summary, reason))
  {
    var ev := ReportEvent(run, seqNo, ts, id, summary, reason);
    forall other | NodeCancel(run, ev, other) ensures NodeCancelPlaced(run, log, ev, other) {
      NodeKeyInjective(run, id, other);
    }
  }

  lemma {:induction false} StatusPlaced(run: RunId, log: seq<Event>, seqNo: nat, ts: nat, s: Ending)
    requires FirstKeyed(log, KRunStatus, StatusKey(run)).None? && AllSettled(log) && LogRunStatus(log).Some?
    requires s.status.IsTerminal()
    ensures Placed(run, log, StatusEvent(run, seqNo, ts, s))
  {
  }

  lemma PrefixOfKeys(run: RunId, id: NodeId)
    ensures KeyPrefix(run) <= NodeKey(run, id) && KeyPrefix(run) <= StatusKey(run)
  {}

  /** An event outside the cancel keys is always well placed. */
  lemma ForeignPlaced(run: RunId, log: seq<Event>, ev: Event)
    requires ev.key.None? || !(KeyPrefix(run) <= ev.key.value)
    ensures Placed(run, log, ev)
  {
    forall id ensures !NodeCancel(run, ev, id) { PrefixOfKeys(run, id); }
    PrefixOfKeys(run, DEFAULT_NODE);
  }

  ghost predicate Distinct(ids: seq<NodeId>) {
    forall i, j :: 0 <= i < j < |ids| ==> ids[i] != ids[j]
  }

  lemma {:induction false} StragglersOf(run: RunId, log: seq<Event>, ids: seq<NodeId>)
    ensures forall id :: id in Stragglers(run, log, ids) <==> id in ids && Straggler(run, log, id)
    ensures Distinct(ids) ==> Distinct(Stragglers(run, log, ids))
  {
    if ids != [] {
      StragglersOf(run, log, ids[..|ids| - 1]);
      assert ids == ids[..|ids| - 1] + [ids[|ids| - 1]];
    }
  }

  lemma NodeIdsDistinct(log: seq<Event>)
    ensures Distinct(NodeIds(log))
  {
    FoldIsCoherent(log);
    var ids, order := NodeIds(log), FoldStatus(log).order;
    assert multiset(ids) == multiset(order);
    MultiplicityOne(order);
    forall i, j | 0 <= i < j < |ids| ensures ids[i] != ids[j] {
      if ids[i] == ids[j] { TwiceCounts(ids, i, j); }
    }
  }

  lemma {:induction false} MultiplicityOne(ids: seq<NodeId>)
    requires Distinct(ids)
    ensures forall id :: multiset(ids)[id] <= 1
  {
    if ids != [] {
      var init, last := ids[..|ids| - 1], ids[|ids| - 1];
      assert ids == init + [last];
      MultiplicityOne(init);
      assert last !in multiset(init);
    }
  }

  lemma TwiceCounts(ids: seq<NodeId>, i: nat, j: nat)
    requires i < j < |ids| && ids[i] == ids[j]
    ensures multiset(ids)[ids[i]] >= 2
  {
    assert ids == ids[..j] + ids[j..];
    assert ids[i] in multiset(ids[..j]) && ids[j] in multiset(ids[j..]) by {
      assert ids[..j][i] == ids[i] && ids[j..][0] == ids[j];
    }
  }

  /** In the log fold, `l` differs from `log` by having cancelled exactly `ids`. */
  ghost predicate FoldCancels(log: seq<Event>, l: seq<Event>, ids: seq<NodeId>) {
    && FoldStatus(l).order == FoldStatus(log).order && FoldStatus(l).status.Keys == FoldStatus(log).status.Keys
    && forall id :: id in FoldStatus(log).status ==>
         FoldStatus(l).status[id] == if id in ids then Cancelled else FoldStatus(log).status[id]
  }

  /** In keys, `l` differs from `log` at most by the report keys of `ids`. */
  ghost predicate KeysKept(run: RunId, log: seq<Event>, l: seq<Event>, ids: seq<NodeId>) {
    && FirstKeyed(l, KRunStatus, StatusKey(run)) == FirstKeyed(log, KRunStatus, StatusKey(run))
    && forall id :: id !in ids ==>
         FirstKeyed(l, KNodeReport, NodeKey(run, id)) == FirstKeyed(log, KNodeReport, NodeKey(run, id))
  }

  lemma {:induction false} FoldCancelsNext(run: RunId, log: seq<Event>, l: seq<Event>, ids: seq<NodeId>, id: NodeId,
      n: nat, call: Call)
    requires FoldCancels(log, l, ids) && id !in ids && id in FoldStatus(log).status
    requires !FoldStatus(log).status[id].IsTerminal()
    ensures FoldCancels(log, l + [ReportEvent(run, n, call.clock(n), id, RUN_SUMMARY, call.reason)], ids + [id])
    ensures id in FoldStatus(l).status && !FoldStatus(l).status[id].IsTerminal()
  {
    assert id in FoldStatus(l).status;
    ReportObserved(run, l, n, call.clock(n), id, RUN_SUMMARY, call.reason);
  }

  lemma {:induction false} KeysKeptNext(run: RunId, log: seq<Event>, l: seq<Event>, ids: seq<NodeId>, id: NodeId,
      n: nat, call: Call)
    requires KeysKept(run, log, l, ids) && id !in ids
    ensures KeysKept(run, log, l + [ReportEvent(run, n, call.clock(n), id, RUN_SUMMARY, call.reason)], ids + [id])
    ensures FirstKeyed(l, KNodeReport, NodeKey(run, id)) == FirstKeyed(log, KNodeReport, NodeKey(run, id))
  {
    var ev := ReportEvent(run, n, call.clock(n), id, RUN_SUMMARY, call.reason);
    forall other | other !in ids + [id]
      ensures FirstKeyed(l + [ev], KNodeReport, NodeKey(run, other)) ==
              FirstKeyed(log, KNodeReport, NodeKey(run, other))
    {
      KeysApart(run, l, ev, id, other);
    }
    KeysApart(run, l, ev, id, NodeId(id.digits + "0"));
  }

  lemma {:induction false} WithReportsNext(run: RunId, log: seq<Event>, ids: seq<NodeId>, id: NodeId, call: Call)
    ensures var l := WithReports(run, log, ids, call);
            WithReports(run, log, ids + [id], call) ==
              l + [ReportEvent(run, |l| + 1, call.clock(|l| + 1), id, RUN_SUMMARY, call.reason)]
  {
    assert (ids + [id])[..|ids|] == ids;
  }

  ghost predicate AllStragglers(run: RunId, log: seq<Event>, ids: seq<NodeId>) {
    forall id :: id in ids ==> Straggler(run, log, id)
  }

  lemma SplitStragglers(run: RunId, log: seq<Event>, ids: seq<NodeId>)
    requires ids != [] && Distinct(ids) && AllStragglers(run, log, ids)
    ensures var init, id := ids[..|ids| - 1], ids[|ids| - 1];
            && ids == init + [id] && id !in init && Distinct(init) && AllStragglers(run, log, init)
            && Straggler(run, log, id)
  {
    forall x | x in ids[..|ids| - 1] ensures Straggler(run, log, x) { assert x in ids; }
    assert ids[|ids| - 1] in ids;
  }

  /** The reports of one call, in the log fold. */
  lemma {:induction false} ReportsFold(run: RunId, log: seq<Event>, ids: seq<NodeId>, call: Call)
    requires Distinct(ids) && AllStragglers(run, log, ids)
    ensures FoldCancels(log, WithReports(run, log, ids, call), ids)
  {
    if ids != [] {
      var init, id := ids[..|ids| - 1], ids[|ids| - 1];
      SplitStragglers(run, log, ids);
      ReportsFold(run, log, init, call);
      WithReportsNext(run, log, init, id, call);
      var l := WithReports(run, log, init, call);
      FoldCancelsNext(run, log, l, init, id, |l| + 1, call);
    }
  }

  /** The reports of one call, among the keys. */
  lemma {:induction false} ReportsKeys(run: RunId, log: seq<Event>, ids: seq<NodeId>, call: Call)
    requires Distinct(ids) && AllStragglers(run, log, ids)
    ensures KeysKept(run, log, WithReports(run, log, ids, call), ids) && log <= WithReports(run, log, ids, call)
  {
    if ids != [] {
      var init, id := ids[..|ids| - 1], ids[|ids| - 1];
      SplitStragglers(run, log, ids);
      ReportsKeys(run, log, init, call);
      WithReportsNext(run, log, init, id, call);
      var l := WithReports(run, log, init, call);
      KeysKeptNext(run, log, l, init, id, |l| + 1, call);
    }
  }

  /** A straggler not yet reported is still one. */
  lemma StillStraggler(run: RunId, log: seq<Event>, l: seq<Event>, ids: seq<NodeId>, id: NodeId)
    requires FoldCancels(log, l, ids) && KeysKept(run, log, l, ids) && id !in ids && Straggler(run, log, id)
    ensures Straggler(run, l, id)
  {
    assert id in FoldStatus(l).status;
  }

  /** The reports of one call keep the discipline. */
  lemma {:induction false} ReportsDisciplined(run: RunId, log: seq<Event>, ids: seq<NodeId>, call: Call)
    requires Disciplined(run, log) && Distinct(ids) && AllStragglers(run, log, ids)
    ensures Disciplined(run, WithReports(run, log, ids, call))
  {
    if ids != [] {
      var init, id := ids[..|ids| - 1], ids[|ids| - 1];
      SplitStragglers(run, log, ids);
      ReportsDisciplined(run, log, init, call);
      ReportsFold(run, log, init, call);
      ReportsKeys(run, log, init, call);
      WithReportsNext(run, log, init, id, call);
      ReportExtends(run, log, WithReports(run, log, init, call), init, id, call);
    }
  }

  lemma ReportExtends(run: RunId, log: seq<Event>, l: seq<Event>, init: seq<NodeId>, id: NodeId, call: Call)
    requires Disciplined(run, l) && FoldCancels(log, l, init) && KeysKept(run, log, l, init) && id !in init
    requires Straggler(run, log, id)
    ensures Disciplined(run, l + [ReportEvent(run, |l| + 1, call.clock(|l| + 1), id, RUN_SUMMARY, call.reason)])
  {
    StillStraggler(run, log, l, init, id);
    ReportPlaced(run, l, |l| + 1, call.clock(|l| + 1), id, RUN_SUMMARY, call.reason);
    DisciplinedAppend(run, l, ReportEvent(run, |l| + 1, call.clock(|l| + 1), id, RUN_SUMMARY, call.reason));
  }

  function CancelledUnlessTerminal(s: Status): Status { if s.IsTerminal() then s else Cancelled }

  /** What one call did to the statuses: live nodes became Cancelled, settled ones stayed. */
  ghost predicate LiveOnesCancelled(log: seq<Event>, l: seq<Event>) {
    && FoldStatus(l).status.Keys == FoldStatus(log).status.Keys
    && forall id :: id in FoldStatus(log).status ==>
         FoldStatus(l).status[id] == CancelledUnlessTerminal(FoldStatus(log).status[id])
  }

  /** A call's effect on the log: every node terminal in the log fold, live ones now Cancelled
      and settled ones as they were, cancel keys still unique and well placed. */
  ghost predicate Settles(run: RunId, log: seq<Event>, l: seq<Event>) {
    log <= l && Disciplined(run, l) && AllSettled(l) && LiveOnesCancelled(log, l) && NodeIds(l) == NodeIds(log)
  }

  lemma {:induction false} FoldSettles(run: RunId, log: seq<Event>, l: seq<Event>, ids: seq<NodeId>)
    requires Disciplined(run, log) && FoldCancels(log, l, ids)
    requires forall id :: id in ids <==> id in FoldStatus(log).status && Straggler(run, log, id)
    ensures AllSettled(l) && LiveOnesCancelled(log, l)
  {
    forall id | id in FoldStatus(log).status
      ensures FoldStatus(l).status[id] == CancelledUnlessTerminal(FoldStatus(log).status[id])
    {
      StragglersAreLive(run, log, id);
    }
  }

  lemma {:induction false} ReportsSettle(run: RunId, log: seq<Event>, call: Call)
    requires Disciplined(run, log)
    ensures Settles(run, log, Reported(run, log, call))
    ensures FirstKeyed(Reported(run, log, call), KRunStatus, StatusKey(run)) ==
            FirstKeyed(log, KRunStatus, StatusKey(run))
  {
    var ids := Stragglers(run, log, NodeIds(log));
    NodeIdsDistinct(log);
    NodeIdsAreTheNodes(log);
    StragglersOf(run, log, NodeIds(log));
    ReportsFold(run, log, ids, call);
    ReportsKeys(run, log, ids, call);
    ReportsDisciplined(run, log, ids, call);
    FoldSettles(run, log, Reported(run, log, call), ids);
  }

  /** What any complete `cancel_run` leaves, from any disciplined log. A run status is logged
      unless the run was already cancelled. */
  lemma {:induction false} CancelSettles(run: RunId, log: seq<Event>, call: Call)
    requires Disciplined(run, log) && LogRunStatus(log).Some?
    ensures Settles(run, log, CancelledLog(run, log, call))
    ensures call.wasCancelled || FirstKeyed(CancelledLog(run, log, call), KRunStatus, StatusKey(run)).Some?
  {
    ReportsSettle(run, log, call);
    SettlesWithStatus(run, log, Reported(run, log, call), call);
  }

  /** The log with the run status appended unless one is there or none is needed. */
  function WithStatus(run: RunId, log: seq<Event>, l: seq<Event>, call: Call): seq<Event> {
    if call.wasCancelled || FirstKeyed(log, KRunStatus, StatusKey(run)).Some? then l
    else l + [StatusEvent(run, |l| + 1, call.clock(|l| + 1), call.Ends())]
  }

  lemma {:induction false} SettlesWithStatus(run: RunId, log: seq<Event>, l: seq<Event>, call: Call)
    requires Settles(run, log, l) && LogRunStatus(log).Some?
    requires FirstKeyed(l, KRunStatus, StatusKey(run)) == FirstKeyed(log, KRunStatus, StatusKey(run))
    ensures Settles(run, log, WithStatus(run, log, l, call))
    ensures call.wasCancelled || FirstKeyed(WithStatus(run, log, l, call), KRunStatus, StatusKey(run)).Some?
  {
    if !call.wasCancelled && FirstKeyed(log, KRunStatus, StatusKey(run)).None? { FreshSettles(run, log, l, call); }
  }

  lemma FreshSettles(run: RunId, log: seq<Event>, l: seq<Event>, call: Call)
    requires Settles(run, log, l) && LogRunStatus(log).Some? && FirstKeyed(l, KRunStatus, StatusKey(run)).None?
    ensures var l' := l + [StatusEvent(run, |l| + 1, call.clock(|l| + 1), call.Ends())];
            Settles(run, log, l') && FirstKeyed(l', KRunStatus, StatusKey(run)).Some?
  {
    LogRunStatusGrows(log, l);
    StatusSettles(run, log, l, call);
  }

  /** Appending the run status to the reported log. */
  lemma StatusSettles(run: RunId, log: seq<Event>, l: seq<Event>, call: Call)
    requires Settles(run, log, l) && LogRunStatus(l).Some? && FirstKeyed(l, KRunStatus, StatusKey(run)).None?
    ensures var l' := l + [StatusEvent(run, |l| + 1, call.clock(|l| + 1), call.Ends())];
            Settles(run, log, l') && FirstKeyed(l', KRunStatus, StatusKey(run)).Some?
  {
    StatusPlaced(run, l, |l| + 1, call.clock(|l| + 1), call.Ends());
    StatusObserved(run, l, |l| + 1, call.clock(|l| + 1), call.Ends());
    var ev := StatusEvent(run, |l| + 1, call.clock(|l| + 1), call.Ends());
    DisciplinedAppend(run, l, ev);
    assert (l + [ev])[..|l|] == l;
  }

  /** The call's report of the node is somewhere after `from`. */
  ghost predicate ReportLogged(run: RunId, l: seq<Event>, from: nat, call: Call, id: NodeId) {
    exists k :: from <= k < |l| && l[k] == ReportEvent(run, k + 1, call.clock(k + 1), id, RUN_SUMMARY, call.reason)
  }

  /** What a complete call adds to the log: one report with the call's reason for each node the log
      says is live, and one run status with its note unless the run was cancelled or has one. */
  lemma {:induction false} CallIsLogged(run: RunId, log: seq<Event>, call: Call, id: NodeId)
    requires Disciplined(run, log)
    ensures id in FoldStatus(log).status && !FoldStatus(log).status[id].IsTerminal() ==>
              ReportLogged(run, CancelledLog(run, log, call), |log|, call, id)
    ensures var l := CancelledLog(run, log, call);
            !call.wasCancelled && FirstKeyed(log, KRunStatus, StatusKey(run)).None? ==>
              |l| > |log| && l[|l| - 1] == StatusEvent(run, |l|, call.clock(|l|), Ending(Cancelled, call.note))
  {
    if id in FoldStatus(log).status && !FoldStatus(log).status[id].IsTerminal() {
      LiveIsReported(run, log, call, id);
      ReportStays(run, Reported(run, log, call), CancelledLog(run, log, call), |log|, call, id);
    }
    ReportTail(run, log, Stragglers(run, log, NodeIds(log)), call);
  }

  lemma {:induction false} LiveIsReported(run: RunId, log: seq<Event>, call: Call, id: NodeId)
    requires Disciplined(run, log) && id in FoldStatus(log).status && !FoldStatus(log).status[id].IsTerminal()
    ensures ReportLogged(run, Reported(run, log, call), |log|, call, id)
  {
    StragglersAreLive(run, log, id);
    NodeIdsAreTheNodes(log);
    StragglersOf(run, log, NodeIds(log));
    ReportIsLogged(run, log, Stragglers(run, log, NodeIds(log)), call, id);
  }

  lemma ReportStays(run: RunId, a: seq<Event>, b: seq<Event>, from: nat, call: Call, id: NodeId)
    requires a <= b && ReportLogged(run, a, from, call, id)
    ensures ReportLogged(run, b, from, call, id)
  {
    var k :| from <= k < |a| && a[k] == ReportEvent(run, k + 1, call.clock(k + 1), id, RUN_SUMMARY, call.reason);
    assert b[k] == a[k];
  }

  lemma {:induction false} ReportIsLogged(run: RunId, log: seq<Event>, ids: seq<NodeId>, call: Call, id: NodeId)
    requires id in ids
    ensures ReportLogged(run, WithReports(run, log, ids, call), |log|, call, id)
  {
    var init, l := WithReports(run, log, ids[..|ids| - 1], call), WithReports(run, log, ids, call);
    ReportTail(run, log, ids[..|ids| - 1], call);
    if ids[|ids| - 1] == id {
      assert l[|init|] == ReportEvent(run, |init| + 1, call.clock(|init| + 1), id, RUN_SUMMARY, call.reason);
    } else {
      ReportIsLogged(run, log, ids[..|ids| - 1], call, id);
      ReportStays(run, init, l, |log|, call, id);
    }
  }

  lemma {:induction false} NoStragglers(run: RunId, log: seq<Event>, ids: seq<NodeId>)
    requires AllSettled(log)
    ensures Stragglers(run, log, ids) == []
  {
    if ids != [] { NoStragglers(run, log, ids[..|ids| - 1]); }
  }

  /** Cancel converges across crashes. Cut one `cancel_run` after any of its appends; from the
      log it leaves, however the manifest then reads, a complete call settles every node the
      log knew at the start and keeps one event per cancel key, and any further call appends
      nothing. (Cancelled is final, so a manifest that read Cancelled still does.) */
  lemma {:induction false} CancelConverges(run: RunId, log: seq<Event>, first: Call, j: nat, second: Call, third: Call)
    requires Disciplined(run, log) && LogRunStatus(log).Some?
    requires |log| <= j <= |CancelledLog(run, log, first)|
    requires second.wasCancelled ==> third.wasCancelled
    ensures var cut := CancelledLog(run, log, first)[..j];
            var l := CancelledLog(run, cut, second);
            && cut <= l && Disciplined(run, cut) && Disciplined(run, l) && AllSettled(l) && NodeIds(l) == NodeIds(log)
            && CancelledLog(run, l, third) == l
  {
    CancelSettles(run, log, first);
    var full := CancelledLog(run, log, first);
    var cut := full[..j];
    DisciplinedPrefix(run, full, j);
    LogRunStatusGrows(log, cut);
    CancelSettles(run, cut, second);
    CutKeepsNodes(run, log, first, j);
    NoStragglers(run, CancelledLog(run, cut, second), NodeIds(CancelledLog(run, cut, second)));
  }

  /** Without a node creation the node list stays. */
  lemma {:induction false} OnlyReports(log: seq<Event>, l: seq<Event>)
    requires log <= l && forall i :: |log| <= i < |l| ==> !l[i].body.NodeCreated?
    ensures FoldStatus(l).order == FoldStatus(log).order
  {
    if |l| == |log| {
      assert l == log;
    } else {
      OnlyReports(log, l[..|l| - 1]);
    }
  }

  lemma {:induction false} ReportTail(run: RunId, log: seq<Event>, ids: seq<NodeId>, call: Call)
    ensures var l := WithReports(run, log, ids, call);
            log <= l && forall i :: |log| <= i < |l| ==> !l[i].body.NodeCreated?
  {
    if ids != [] { ReportTail(run, log, ids[..|ids| - 1], call); }
  }

  lemma CutKeepsNodes(run: RunId, log: seq<Event>, call: Call, j: nat)
    requires |log| <= j <= |CancelledLog(run, log, call)|
    ensures NodeIds(CancelledLog(run, log, call)[..j]) == NodeIds(log)
  {
    ReportTail(run, log, Stragglers(run, log, NodeIds(log)), call);
    OnlyReports(log, CancelledLog(run, log, call)[..j]);
  }
}

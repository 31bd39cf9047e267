/** What the reducer asks of a report, beside what the report validator asks. */
module ReportGate {
  import opened Prelude
  import opened Json
  import opened Schema
  import opened Report
  import opened Reducer
  import opened ReportSchema
  import opened Cancel

  /** On a live node a report is accepted exactly when it expresses one outcome. */
  lemma LiveReportAccepted(log: seq<Event>, st: Store, ev: Event, id: NodeId)
    requires ev.runId == st.run && ev.nodeId == Some(id) && id in st.nodes && !st.nodes[id].status.IsTerminal()
    requires ev.body.NodeReport?
    ensures PlanEvent(log, st, ev).Accepted? <==> StrictOutcome(ev.body.report).Some?
  {}

  /** The outcome does not look at the reason. */
  lemma ReasonIsIgnored(report: Fields, reason: Value)
    ensures StrictOutcome(report["reason" := reason]) == StrictOutcome(report)
    ensures StrictOutcome(report - {"reason"}) == StrictOutcome(report)
  {
    assert "reason" != "success" && "reason" != "cancelled" by {
      assert "reason"[0] == 'r' && "success"[0] == 's' && "cancelled"[0] == 'c';
    }
  }

  /** A reason that is present is a string, and a cancellation has one that is not blank. */
  predicate ReasonInOrder(o: Fields) {
    && (Present(Get(o, "reason")) ==> o["reason"].Str?)
    && (Get(o, "cancelled") == Some(Bool(true)) ==> NonBlankStr(Get(o, "reason")))
  }

  /** The validator's required fields are exactly the reducer's outcome, a boolean `success` and
      a reason in order. */
  lemma ValidatorIsStricter(o: Fields)
    ensures RequiredError(o).None? <==>
            StrictOutcome(o).Some? && "success" in o && o["success"].Bool? && ReasonInOrder(o)
  {}

  /** The report a cancel synthesizes passes the strict validator, whatever the note was. */
  lemma {:induction false} CancelReportIsValid(summary: string, note: Option<string>)
    ensures StrictError(Obj(CancelReport(summary, CancelReason(note)))).None?
  {
    var o := CancelReport(summary, CancelReason(note));
    assert o["success"] == Bool(false) && o["cancelled"] == Bool(true) && o["reason"] == Str(CancelReason(note));
    assert o["summary"] == Str(summary) && o["discussion_items"] == Arr([]) && o["spinoff_proposals"] == Arr([]);
    assert o["wrap_up_recommendations"] == Arr([]);
  }

  /** A cancellation whose reason is empty, as a blank note would have written it. */
  const REASONLESS: Fields := map["success" := Bool(false), "cancelled" := Bool(true), "reason" := Str("")]

  /** The reducer cancels a live node by it; the validator refuses it. */
  lemma ReasonlessCancelAccepted(log: seq<Event>, st: Store, ev: Event, id: NodeId)
    requires ev.runId == st.run && ev.nodeId == Some(id) && id in st.nodes && !st.nodes[id].status.IsTerminal()
    requires ev.body == NodeReport(REASONLESS)
    ensures PlanEvent(log, st, ev).Accepted? && StrictOutcome(REASONLESS) == Some(Cancelled)
    ensures RequiredError(REASONLESS) == Some(CancelledRequiresReason)
  {
    assert REASONLESS["success"] == Bool(false) && REASONLESS["cancelled"] == Bool(true) &&
        REASONLESS["reason"] == Str("");
    LiveReportAccepted(log, st, ev, id);
  }
}

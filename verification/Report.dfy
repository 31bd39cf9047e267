/** Merge authority of a terminal `node.report` payload. */
module Report {
  import opened Prelude
  import opened Json
  import opened Schema

  const ORIGIN_KEY := "origin"
  const VIA_EXPLICIT_MERGE := "explicit-merge"

  /** Who authored a report. */
  datatype ReportOrigin =
    | Agent
    | Supervisor
    | RunMerge(opId: Option<string>, workerOid: Option<string>, integratedOid: Option<string>)

  /** An optional string field: absent or null reads as `None`; `None` of the outer
      option means the field is present with another type. */
  function OptionalStr(o: Fields, key: string): Option<Option<string>> {
    if key !in o || o[key].Null? then Some(None)
    else if o[key].Str? then Some(Some(o[key].s))
    else None
  }

  /** Decode the tagged origin object. */
  function ParseOrigin(v: Value): Option<ReportOrigin> {
    if !v.Obj? then None else
    match AsStr(Get(v.fields, "kind"))
    case None => None
    case Some(tag) =>
      if tag == "agent" then Some(Agent)
      else if tag == "supervisor" then Some(Supervisor)
      else if tag == "run-merge" then
        match (OptionalStr(v.fields, "op_id"), OptionalStr(v.fields, "worker_oid"),
            OptionalStr(v.fields, "integrated_oid"))
        case (Some(a), Some(b), Some(c)) => Some(RunMerge(a, b, c))
        case _ => None
      else None
  }

  function Field(key: string, v: Option<string>): Fields {
    if v.Some? then map[key := Str(v.value)] else map[]
  }

  /** Encode an origin; absent options are skipped. */
  function RenderOrigin(o: ReportOrigin): Value {
    match o
    case Agent => Obj(map["kind" := Str("agent")])
    case Supervisor => Obj(map["kind" := Str("supervisor")])
    case RunMerge(a, b, c) =>
      Obj(map["kind" := Str("run-merge")] + Field("op_id", a) + Field("worker_oid", b) + Field("integrated_oid", c))
  }

  /** The typed origin of a report: `None` both when absent and when malformed. */
  function OriginOf(report: Fields): Option<ReportOrigin> {
    match Get(report, ORIGIN_KEY)
    case None => None
    case Some(v) => ParseOrigin(v)
  }

  predicate Succeeded(report: Fields) {
    Get(report, "success") == Some(Bool(true))
  }

  predicate NotCancelled(report: Fields) {
    Get(report, "cancelled") in {None, Some(Null), Some(Bool(false))}
  }

  /** A confirmed, successful `run merge`. The legacy `via` marker counts only when
      the report has no origin field at all. */
  predicate ConfirmedMerge(report: Fields) {
    && Succeeded(report)
    && NotCancelled(report)
    && ( || (OriginOf(report).Some? && OriginOf(report).value.RunMerge?)
         || (ORIGIN_KEY !in report && AsStr(Get(report, "via")) == Some(VIA_EXPLICIT_MERGE)))
  }

  /** A confirmed merge may repair a failed node or refresh a done one; it never
      overrides cancellation. */
  predicate PermitsTerminalMergeRecovery(status: Status, report: Fields) {
    (status == Failed || status == Done) && ConfirmedMerge(report)
  }

  /** Overwrite the origin of a report. */
  function Stamp(o: ReportOrigin, report: Fields): Fields {
    report[ORIGIN_KEY := RenderOrigin(o)]
  }

  lemma OriginRoundTrip(o: ReportOrigin)
    ensures ParseOrigin(RenderOrigin(o)) == Some(o)
  {
    if o.RunMerge? {
      var f := RenderOrigin(o).fields;
      assert f["kind"] == Str("run-merge");
      assert OptionalStr(f, "op_id") == Some(o.opId);
      assert OptionalStr(f, "worker_oid") == Some(o.workerOid);
      assert OptionalStr(f, "integrated_oid") == Some(o.integratedOid);
    }
  }

  /** Stamping sets the origin, whatever was there, and nothing else. */
  lemma StampSays(o: ReportOrigin, report: Fields, key: string)
    ensures OriginOf(Stamp(o, report)) == Some(o)
    ensures key != "origin" ==> Get(Stamp(o, report), key) == Get(report, key)
  {
    OriginRoundTrip(o);
  }

  /** A stamped report is a merge exactly when the stamping path is `run merge` and the
      payload is a plain success: neither a forged origin nor any `via` text in the
      payload can add or remove merge authority. */
  lemma StampDecidesMerge(o: ReportOrigin, report: Fields)
    ensures ConfirmedMerge(Stamp(o, report)) <==> o.RunMerge? && Succeeded(report) && NotCancelled(report)
  {
    OriginRoundTrip(o);
    var r := Stamp(o, report);
    assert Get(r, "success") == Get(report, "success");
    assert Get(r, "cancelled") == Get(report, "cancelled");
  }

  /** An optional boolean field; the outer `None` marks a wrongly typed value. */
  function OptionalBool(o: Fields, key: string): Option<Option<bool>> {
    if key !in o || o[key].Null? then Some(None)
    else if o[key].Bool? then Some(Some(o[key].b))
    else None
  }

  /** The terminal outcome a report asserts to the reducer: strict boolean typing, and
      success exclusive-or cancellation. `None` means the report is refused. */
  function StrictOutcome(report: Fields): Option<Status> {
    match (OptionalBool(report, "cancelled"), OptionalBool(report, "success"))
    case (Some(cancelled), Some(success)) =>
      if cancelled == Some(true) then
        (if success == Some(true) then None else Some(Cancelled))
      else if success == Some(true) then Some(Done)
      else if success == Some(false) then Some(Failed)
      else None
    case _ => None
  }

  /** The lenient reading used by the log-derived status fold. */
  function LenientOutcome(success: Option<bool>, cancelled: Option<bool>): Option<Status> {
    if cancelled == Some(true) then
      (if success == Some(true) then None else Some(Cancelled))
    else if success == Some(true) then Some(Done)
    else if success == Some(false) then Some(Failed)
    else None
  }

  /** A flag that reads as false: absent, null or false. */
  predicate Off(report: Fields, key: string) {
    key in report ==> report[key] == Null || report[key] == Bool(false)
  }

  predicate On(report: Fields, key: string) { key in report && report[key] == Bool(true) }

  /** What a report says, by its two flags alone: Done is success without cancellation, Failed an
      explicit false without cancellation, Cancelled is cancellation without success. */
  lemma OutcomeSays(report: Fields)
    ensures StrictOutcome(report) == Some(Done) <==> On(report, "success") && Off(report, "cancelled")
    ensures StrictOutcome(report) == Some(Failed) <==>
            "success" in report && report["success"] == Bool(false) && Off(report, "cancelled")
    ensures StrictOutcome(report) == Some(Cancelled) <==> On(report, "cancelled") && Off(report, "success")
    ensures StrictOutcome(report).Some? ==> StrictOutcome(report).value.IsTerminal()
  {}

  /** Which origin an encoded value is: the tag decides, and a run merge is one only if each of its
      three ids is a string, null or absent. */
  lemma OriginReads(v: Value)
    ensures ParseOrigin(v) == Some(Agent) <==> Tagged(v, "agent")
    ensures ParseOrigin(v) == Some(Supervisor) <==> Tagged(v, "supervisor")
    ensures ParseOrigin(v).Some? && ParseOrigin(v).value.RunMerge? <==>
            && Tagged(v, "run-merge")
            && StringOrNone(v.fields, "op_id") && StringOrNone(v.fields, "worker_oid")
            && StringOrNone(v.fields, "integrated_oid")
  {
    assert "agent"[0] == 'a' && "supervisor"[0] == 's' && "run-merge"[0] == 'r';
  }

  predicate Tagged(v: Value, tag: string) { v.Obj? && "kind" in v.fields && v.fields["kind"] == Str(tag) }

  predicate StringOrNone(o: Fields, key: string) { key in o ==> o[key].Str? || o[key].Null? }

  /** Merge authority, by the report's own fields: a plain success whose origin is a run merge, or,
      only where it has no origin at all, whose `via` says so. */
  lemma MergeSays(report: Fields)
    ensures ConfirmedMerge(report) <==>
            && On(report, "success") && Off(report, "cancelled")
            && (if "origin" in report
                then ParseOrigin(report["origin"]).Some? && ParseOrigin(report["origin"]).value.RunMerge?
                else "via" in report && report["via"] == Str("explicit-merge"))
  {}

  /** The fields the status fold skims from a report. A null `success`, `cancelled` or
      `via` is indistinguishable from an absent one there; a null origin is not. */
  function Skim(report: Fields): Fields {
    map k | k in report && k in {"success", "cancelled", "via", ORIGIN_KEY} &&
        (k == ORIGIN_KEY || !report[k].Null?) :: report[k]
  }

  /** Skimming loses nothing the two readers decide on. */
  lemma SkimIsFaithful(report: Fields)
    ensures ConfirmedMerge(Skim(report)) == ConfirmedMerge(report)
    ensures LenientOutcome(AsBool(Get(Skim(report), "success")), AsBool(Get(Skim(report), "cancelled")))
         == LenientOutcome(AsBool(Get(report, "success")), AsBool(Get(report, "cancelled")))
    ensures StrictOutcome(report).Some? ==>
              LenientOutcome(AsBool(Get(Skim(report), "success")), AsBool(Get(Skim(report), "cancelled"))) ==
                  StrictOutcome(report)
    ensures ConfirmedMerge(report) ==> StrictOutcome(report) == Some(Done)
  {
    var s := Skim(report);
    assert Get(s, ORIGIN_KEY) == Get(report, ORIGIN_KEY);
    assert AsBool(Get(s, "success")) == AsBool(Get(report, "success"));
    assert AsBool(Get(s, "cancelled")) == AsBool(Get(report, "cancelled"));
    assert AsStr(Get(s, "via")) == AsStr(Get(report, "via"));
  }
}

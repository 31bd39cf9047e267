/** Strict validation of a terminal report, and the lenient sanitiser of its advisory parts. */
module ReportSchema {
  import opened Prelude
  import opened Json
  import opened Report

  datatype ReportError =
    | NotObject
    | MissingSuccess | SuccessNotBoolean | CancelledNotBoolean | ReasonNotString
    | CancelledRequiresSuccessFalse | CancelledRequiresReason
    | SummaryNotString
    | FieldNotArray(field: string)
    | ElementNotObject(field: string, index: nat)
    | TopicMissing(index: nat) | SeverityNotString(index: nat)
    | OptionsNotArray(index: nat) | OptionNotString(index: nat, at: nat)
    | TitleMissing(index: nat) | KindNotString(index: nat)
    | KindUnknown(index: nat, kind: string) | RationaleNotString(index: nat)
    | ElementNotString(field: string, index: nat)

  /** The run kinds a proposal may name. */
  const WIRE_NAMES := ["spinoff", "research", "technical-decision", "fan-out"]

  function Present(v: Option<Value>): bool { v.Some? && !v.value.Null? }

  // ---- the required fields ----

  function RequiredError(o: Fields): Option<ReportError> {
    var cancelled, reason := Get(o, "cancelled"), Get(o, "reason");
    if "success" !in o then Some(MissingSuccess)
    else if !o["success"].Bool? then Some(SuccessNotBoolean)
    else if Present(cancelled) && !cancelled.value.Bool? then Some(CancelledNotBoolean)
    else if Present(reason) && !reason.value.Str? then Some(ReasonNotString)
    else if cancelled == Some(Bool(true)) then
      if o["success"].b then Some(CancelledRequiresSuccessFalse)
      else if Present(reason) && !Blank(reason.value.s) then None else Some(CancelledRequiresReason)
    else None
  }

  /** Required fields in order mean exactly one outcome, with a reason if it is cancellation. */
  lemma RequiredMeansOutcome(o: Fields)
    ensures RequiredError(o).None? ==> StrictOutcome(o).Some?
    ensures RequiredError(o).None? && StrictOutcome(o).value.Cancelled? ==>
              AsStr(Get(o, "reason")).Some? && !Blank(AsStr(Get(o, "reason")).value)
  {}

  // ---- the advisory fields ----

  /** The three advisory arrays and their element rules. */
  datatype Rule = Items | Proposals | Strings

  function FieldOf(r: Rule): string {
    match r
    case Items => "discussion_items"
    case Proposals => "spinoff_proposals"
    case Strings => "wrap_up_recommendations"
  }

  /** The first option that is not a string. */
  function OptionsError(items: seq<Value>, index: nat): Option<ReportError> {
    if items == [] then None
    else
      var init := OptionsError(items[..|items| - 1], index);
      if init.Some? then init
      else if items[|items| - 1].Str? then None else Some(OptionNotString(index, |items| - 1))
  }

  predicate NonBlankStr(v: Option<Value>) {
    AsStr(v).Some? && !Blank(AsStr(v).value)
  }

  function ItemError(v: Value, i: nat): Option<ReportError> {
    if !v.Obj? then Some(ElementNotObject(FieldOf(Items), i)) else
    var o := v.fields;
    if !NonBlankStr(Get(o, "topic")) then Some(TopicMissing(i))
    else if "severity" in o && !o["severity"].Str? then Some(SeverityNotString(i))
    else if "options" !in o then None
    else if !o["options"].Arr? then Some(OptionsNotArray(i))
    else OptionsError(o["options"].items, i)
  }

  function ProposalError(v: Value, i: nat): Option<ReportError> {
    if !v.Obj? then Some(ElementNotObject(FieldOf(Proposals), i)) else
    var o := v.fields;
    if !NonBlankStr(Get(o, "proposed_title")) then Some(TitleMissing(i))
    else if AsStr(Get(o, "proposed_kind")).None? then Some(KindNotString(i))
    else if AsStr(Get(o, "proposed_kind")).value !in WIRE_NAMES
    then Some(KindUnknown(i, AsStr(Get(o, "proposed_kind")).value))
    else if Present(Get(o, "rationale")) && !o["rationale"].Str? then Some(RationaleNotString(i))
    else None
  }

  function ElementError(r: Rule, v: Value, i: nat): Option<ReportError> {
    match r
    case Items => ItemError(v, i)
    case Proposals => ProposalError(v, i)
    case Strings => if v.Str? then None else Some(ElementNotString(FieldOf(Strings), i))
  }

  predicate Valid(r: Rule, v: Value) { ElementError(r, v, 0).None? }

  lemma {:induction false} OptionsIgnoreIndex(items: seq<Value>, i: nat, j: nat)
    ensures OptionsError(items, i).None? == OptionsError(items, j).None?
  {
    if items != [] { OptionsIgnoreIndex(items[..|items| - 1], i, j); }
  }

  /** Whether an element is in order does not depend on where it stands. */
  lemma ErrorIgnoresIndex(r: Rule, v: Value, i: nat)
    ensures ElementError(r, v, i).None? <==> Valid(r, v)
  {
    if r.Items? && v.Obj? && "options" in v.fields && v.fields["options"].Arr? {
      OptionsIgnoreIndex(v.fields["options"].items, i, 0);
    }
  }

  function FirstError(r: Rule, items: seq<Value>): Option<ReportError> {
    if items == [] then None
    else
      var init := FirstError(r, items[..|items| - 1]);
      if init.Some? then init else ElementError(r, items[|items| - 1], |items| - 1)
  }

  function ArrayError(r: Rule, v: Option<Value>): Option<ReportError> {
    if v.None? then None
    else if !v.value.Arr? then Some(FieldNotArray(FieldOf(r)))
    else FirstError(r, v.value.items)
  }

  predicate BadSummary(o: Fields) {
    Present(Get(o, "summary")) && !o["summary"].Str?
  }

  /** The strict validator: the first violation, if any. */
  function StrictError(data: Value): Option<ReportError> {
    if !data.Obj? then Some(NotObject) else
    var o := data.fields;
    if RequiredError(o).Some? then RequiredError(o)
    else if BadSummary(o) then Some(SummaryNotString)
    else if ArrayError(Items, Get(o, FieldOf(Items))).Some? then ArrayError(Items, Get(o, FieldOf(Items)))
    else if ArrayError(Proposals, Get(o, FieldOf(Proposals))).Some?
    then ArrayError(Proposals, Get(o, FieldOf(Proposals)))
    else ArrayError(Strings, Get(o, FieldOf(Strings)))
  }

  // ---- what sanitising means ----

  datatype Warning = Warning(field: string, index: Option<nat>, reason: ReportError)

  function Kept(r: Rule, items: seq<Value>): seq<Value> {
    if items == [] then []
    else
      var init, v := Kept(r, items[..|items| - 1]), items[|items| - 1];
      if Valid(r, v) then init + [v] else init
  }

  function Drops(r: Rule, items: seq<Value>): seq<Warning> {
    if items == [] then []
    else
      var init, v := Drops(r, items[..|items| - 1]), items[|items| - 1];
      if Valid(r, v) then init else init + [DropOf(r, v, |items| - 1)]
  }

  /** The warning for a bad element, with its original position. */
  function DropOf(r: Rule, v: Value, i: nat): Warning
    requires !Valid(r, v)
  {
    ErrorIgnoresIndex(r, v, i);
    Warning(FieldOf(r), Some(i), ElementError(r, v, i).value)
  }

  function CleanField(r: Rule, o: Fields): Fields {
    if FieldOf(r) !in o then o
    else if !o[FieldOf(r)].Arr? then o - {FieldOf(r)}
    else o[FieldOf(r) := Arr(Kept(r, o[FieldOf(r)].items))]
  }

  function FieldDrops(r: Rule, o: Fields): seq<Warning> {
    if FieldOf(r) !in o then []
    else if !o[FieldOf(r)].Arr? then [Warning(FieldOf(r), None, FieldNotArray(FieldOf(r)))]
    else Drops(r, o[FieldOf(r)].items)
  }

  function CleanSummary(o: Fields): Fields { if BadSummary(o) then o - {"summary"} else o }

  function SummaryDrops(o: Fields): seq<Warning> {
    if BadSummary(o) then [Warning("summary", None, SummaryNotString)] else []
  }

  function Clean(o: Fields): Fields { CleanField(Strings, CleanField(Proposals, CleanField(Items, CleanSummary(o)))) }

  function AllDrops(o: Fields): seq<Warning> {
    SummaryDrops(o) + FieldDrops(Items, o) + FieldDrops(Proposals, o) + FieldDrops(Strings, o)
  }

  // ---- which elements are in order ----

  predicate StringAt(o: Fields, key: string) { key in o && o[key].Str? }

  predicate AllStrings(items: seq<Value>) { forall k :: 0 <= k < |items| ==> items[k].Str? }

  /** A discussion item: a topic that says something, and if they are there, a severity that is a
      string and options that are all strings. */
  predicate GoodItem(v: Value) {
    && v.Obj? && StringAt(v.fields, "topic") && !Blank(v.fields["topic"].s)
    && ("severity" in v.fields ==> v.fields["severity"].Str?)
    && ("options" in v.fields ==> v.fields["options"].Arr? && AllStrings(v.fields["options"].items))
  }

  /** A proposal: a title that says something, one of the four kinds of run, and a rationale that is
      a string, null or absent. */
  predicate GoodProposal(v: Value) {
    && v.Obj? && StringAt(v.fields, "proposed_title") && !Blank(v.fields["proposed_title"].s)
    && StringAt(v.fields, "proposed_kind")
    && v.fields["proposed_kind"].s in {"spinoff", "research", "technical-decision", "fan-out"}
    && ("rationale" in v.fields ==> v.fields["rationale"].Str? || v.fields["rationale"].Null?)
  }

  predicate Good(field: string, v: Value) {
    if field == "discussion_items" then GoodItem(v)
    else if field == "spinoff_proposals" then GoodProposal(v)
    else v.Str?
  }

  lemma {:induction false} OptionsAreStrings(items: seq<Value>, i: nat)
    ensures OptionsError(items, i).None? <==> AllStrings(items)
  {
    if items != [] { OptionsAreStrings(items[..|items| - 1], i); }
  }

  /** The element rules, apart from the errors they report. */
  lemma ValidMeansGood(r: Rule, v: Value)
    ensures Valid(r, v) <==> Good(FieldOf(r), v)
  {
    FieldsApart(Items, Proposals);
    FieldsApart(Items, Strings);
    FieldsApart(Proposals, Strings);
    if r.Items? && v.Obj? && "options" in v.fields && v.fields["options"].Arr? {
      OptionsAreStrings(v.fields["options"].items, 0);
    }
  }

  /** The position an element's error names. */
  function IndexOf(e: ReportError): Option<nat> {
    match e
    case ElementNotObject(_, i) => Some(i)
    case TopicMissing(i) => Some(i)
    case SeverityNotString(i) => Some(i)
    case OptionsNotArray(i) => Some(i)
    case OptionNotString(i, _) => Some(i)
    case TitleMissing(i) => Some(i)
    case KindNotString(i) => Some(i)
    case KindUnknown(i, _) => Some(i)
    case RationaleNotString(i) => Some(i)
    case ElementNotString(_, i) => Some(i)
    case _ => None
  }

  lemma {:induction false} OptionsNamePosition(items: seq<Value>, i: nat)
    ensures OptionsError(items, i).Some? ==>
              && OptionsError(items, i).value.OptionNotString? && OptionsError(items, i).value.index == i
              && OptionsError(items, i).value.at < |items| && !items[OptionsError(items, i).value.at].Str?
              && forall k :: 0 <= k < OptionsError(items, i).value.at ==> items[k].Str?
  {
    if items != [] {
      OptionsNamePosition(items[..|items| - 1], i);
      OptionsAreStrings(items[..|items| - 1], i);
    }
  }

  /** An element's error names its position, and an option's the first that is no string. */
  lemma ErrorNamesPosition(r: Rule, v: Value, i: nat)
    ensures ElementError(r, v, i).Some? ==> IndexOf(ElementError(r, v, i).value) == Some(i)
  {
    if r.Items? && v.Obj? && "options" in v.fields && v.fields["options"].Arr? {
      OptionsNamePosition(v.fields["options"].items, i);
    }
  }

  /** The positions of the good elements, in order. */
  ghost predicate GoodAt(field: string, items: seq<Value>, at: seq<nat>) {
    Rising(at, |items|) && forall k :: 0 <= k < |items| ==> (k in at <==> Good(field, items[k]))
  }

  /** `kept` is the good elements of `items`, in order. */
  ghost predicate KeepsGood(field: string, items: seq<Value>, kept: seq<Value>) {
    exists at: seq<nat> ::
      GoodAt(field, items, at) && |kept| == |at| && forall j :: 0 <= j < |at| ==> kept[j] == items[at[j]]
  }

  lemma {:induction false} KeptIsGood(r: Rule, items: seq<Value>)
    ensures GoodAt(FieldOf(r), items, KeptAt(r, items)) && KeepsGood(FieldOf(r), items, Kept(r, items))
  {
    KeptIsTheValidSubsequence(r, items);
    KeptAtExactly(r, items);
    forall k | 0 <= k < |items| ensures k in KeptAt(r, items) <==> Good(FieldOf(r), items[k]) {
      ValidMeansGood(r, items[k]);
    }
  }

  lemma {:induction false} KeptAtExactly(r: Rule, items: seq<Value>)
    ensures forall k :: k in KeptAt(r, items) <==> 0 <= k < |items| && Valid(r, items[k])
  {
    if items != [] {
      KeptAtExactly(r, items[..|items| - 1]);
      assert forall k :: 0 <= k < |items| - 1 ==> items[..|items| - 1][k] == items[k];
    }
  }

  /** One advisory array in the input and in the output: absent or no array means absent, else the
      good elements in order. */
  ghost predicate FieldCleaned(field: string, o: Fields, c: Fields) {
    if field in o && o[field].Arr? then field in c && c[field].Arr? && KeepsGood(field, o[field].items, c[field].items)
    else field !in c
  }

  /** What a cleaned report is, against the report it was. */
  ghost predicate Cleaned(o: Fields, c: Fields) {
    && FieldCleaned("discussion_items", o, c) && FieldCleaned("spinoff_proposals", o, c)
    && FieldCleaned("wrap_up_recommendations", o, c)
    && ("summary" in c <==> "summary" in o && (o["summary"].Str? || o["summary"].Null?))
    && ("summary" in c ==> c["summary"] == o["summary"])
    && forall key :: key !in {"summary", "discussion_items", "spinoff_proposals", "wrap_up_recommendations"} ==>
         Get(c, key) == Get(o, key)
  }

  lemma CleanIsCleaned(o: Fields)
    ensures Cleaned(o, Clean(o))
  {
    ArraysCleaned(o);
    SummaryCleaned(o);
    OthersKept(o);
  }

  lemma ArraysCleaned(o: Fields)
    ensures FieldCleaned("discussion_items", o, Clean(o)) && FieldCleaned("spinoff_proposals", o, Clean(o))
    ensures FieldCleaned("wrap_up_recommendations", o, Clean(o))
  {
    CleanFieldCleaned(Items, o);
    CleanFieldCleaned(Proposals, o);
    CleanFieldCleaned(Strings, o);
  }

  lemma SummaryCleaned(o: Fields)
    ensures "summary" in Clean(o) <==> "summary" in o && (o["summary"].Str? || o["summary"].Null?)
    ensures "summary" in Clean(o) ==> Clean(o)["summary"] == o["summary"]
  {
    CleanSummaryIs(o);
    assert Get(CleanSummary(o), "summary") == if BadSummary(o) then None else Get(o, "summary");
  }

  lemma OthersKept(o: Fields)
    ensures forall key :: key !in {"summary", "discussion_items", "spinoff_proposals", "wrap_up_recommendations"} ==>
              Get(Clean(o), key) == Get(o, key)
  {
    forall key | key !in {"summary", "discussion_items", "spinoff_proposals", "wrap_up_recommendations"}
      ensures Get(Clean(o), key) == Get(o, key)
    {
      CleanKeepsOthers(o, key);
    }
  }

  lemma CleanFieldCleaned(r: Rule, o: Fields)
    ensures FieldCleaned(FieldOf(r), o, Clean(o))
  {
    CleanFieldIs(o, r);
    if FieldOf(r) in o && o[FieldOf(r)].Arr? { KeptIsGood(r, o[FieldOf(r)].items); }
  }

  /** A reason that is a string, null or absent. */
  predicate ReasonReads(o: Fields) { "reason" in o ==> o["reason"].Str? || o["reason"].Null? }

  /** Which required field is at fault, in the order they are looked at. */
  lemma RequiredErrorSays(o: Fields)
    ensures RequiredError(o) == Some(MissingSuccess) <==> "success" !in o
    ensures RequiredError(o) == Some(SuccessNotBoolean) <==> "success" in o && !o["success"].Bool?
    ensures RequiredError(o) == Some(CancelledNotBoolean) <==>
            && "success" in o && o["success"].Bool?
            && "cancelled" in o && !o["cancelled"].Null? && !o["cancelled"].Bool?
    ensures RequiredError(o) == Some(CancelledRequiresSuccessFalse) ==> On(o, "cancelled") && On(o, "success")
    ensures On(o, "cancelled") && On(o, "success") ==> RequiredError(o).Some?
    ensures On(o, "cancelled") && RequiredError(o).None? ==> StringAt(o, "reason") && !Blank(o["reason"].s)
    ensures Off(o, "cancelled") && "success" in o && o["success"].Bool? && ReasonReads(o) ==> RequiredError(o).None?
  {}

  // ---- the sanitiser ----

  datatype Sanitised = Rejected(error: ReportError) | Accepted(report: Value, warnings: seq<Warning>)

  /** A report being cleaned in place. */
  class Draft {
    var fields: Fields
    var warnings: seq<Warning>

    constructor (o: Fields)
      ensures fields == o && warnings == []
    {
      fields, warnings := o, [];
    }

    method SanitiseSummary()
      modifies this
      ensures fields == CleanSummary(old(fields)) && warnings == old(warnings) + SummaryDrops(old(fields))
    {
      if BadSummary(fields) {
        warnings := warnings + [Warning("summary", None, SummaryNotString)];
        fields := fields - {"summary"};
      }
    }

    /** Drop a field that is no array; else drop each bad element, keep its siblings. */
    method SanitiseArray(r: Rule)
      modifies this
      ensures fields == CleanField(r, old(fields)) && warnings == old(warnings) + FieldDrops(r, old(fields))
    {
      var field := FieldOf(r);
      if field !in fields { return; }
      if !fields[field].Arr? {
        warnings := warnings + [Warning(field, None, FieldNotArray(field))];
        fields := fields - {field};
        return;
      }
      var kept := KeepValid(r, fields[field].items);
      fields := fields[field := Arr(kept)];
    }

    /** The element loop: keep the valid ones, warn about the others. */
    method KeepValid(r: Rule, items: seq<Value>) returns (kept: seq<Value>)
      modifies this`warnings
      ensures kept == Kept(r, items) && warnings == old(warnings) + Drops(r, items)
    {
      kept := [];
      for i := 0 to |items|
        invariant kept == Kept(r, items[..i]) && warnings == old(warnings) + Drops(r, items[..i])
      {
        assert items[..i + 1] == items[..i] + [items[i]];
        KeptSnoc(r, items[..i], items[i]);
        ErrorIgnoresIndex(r, items[i], i);
        var e := ElementError(r, items[i], i);
        if e.None? {
          kept := kept + [items[i]];
        } else {
          Regrouped(old(warnings), Drops(r, items[..i]), Warning(FieldOf(r), Some(i), e.value));
          warnings := warnings + [Warning(FieldOf(r), Some(i), e.value)];
        }
      }
      assert items[..|items|] == items;
    }
  }

  lemma Regrouped(a: seq<Warning>, b: seq<Warning>, w: Warning)
    ensures (a + b) + [w] == a + (b + [w])
  {}

  method SanitiseReportAdvisory(data: Value) returns (r: Sanitised)
    ensures !data.Obj? ==> r == Rejected(NotObject)
    ensures data.Obj? && RequiredError(data.fields).Some? ==> r == Rejected(RequiredError(data.fields).value)
    ensures data.Obj? && RequiredError(data.fields).None? ==>
            r == Accepted(Obj(Clean(data.fields)), AllDrops(data.fields))
    ensures r.Accepted? ==> data.Obj? && r.report.Obj? && Cleaned(data.fields, r.report.fields)
  {
    if !data.Obj? { return Rejected(NotObject); }
    var e := RequiredError(data.fields);
    if e.Some? { return Rejected(e.value); }
    var o, warnings := CleanAdvisory(data.fields);
    CleanIsCleaned(data.fields);
    return Accepted(Obj(o), warnings);
  }

  /** The advisory fields in the order they are cleaned. */
  method CleanAdvisory(o: Fields) returns (c: Fields, warnings: seq<Warning>)
    ensures c == Clean(o) && warnings == AllDrops(o)
  {
    var d := new Draft(o);
    d.SanitiseSummary();
    d.SanitiseArray(Items);
    d.SanitiseArray(Proposals);
    d.SanitiseArray(Strings);
    DropsAreIndependent(o);
    return d.fields, d.warnings;
  }

  // ---- laws ----

  lemma FieldsApart(a: Rule, b: Rule)
    ensures FieldOf(a) == FieldOf(b) <==> a == b
    ensures FieldOf(a) != "summary"
    ensures FieldOf(a) !in {"success", "cancelled", "reason", "via", ORIGIN_KEY}
  {
    assert FieldOf(Items)[0] == 'd' && FieldOf(Proposals)[1] == 'p' && FieldOf(Strings)[0] == 'w';
    assert "summary"[1] == 'u' && "success"[1] == 'u' && "cancelled"[0] == 'c' && "reason"[0] == 'r' &&
        "via"[0] == 'v' && ORIGIN_KEY[0] == 'o';
    assert FieldOf(Proposals)[0] == 's';
  }

  /** Cleaning one field touches no other. */
  lemma OthersUntouched(r: Rule, o: Fields, key: string)
    ensures key != FieldOf(r) ==> Get(CleanField(r, o), key) == Get(o, key)
    ensures key != "summary" ==> Get(CleanSummary(o), key) == Get(o, key)
  {}

  lemma DropsAreIndependent(o: Fields)
    ensures var s := CleanSummary(o);
            var i := CleanField(Items, s);
            var p := CleanField(Proposals, i);
            AllDrops(o) == SummaryDrops(o) + FieldDrops(Items, s) + FieldDrops(Proposals, i) + FieldDrops(Strings, p)
  {
    var s := CleanSummary(o);
    var i := CleanField(Items, s);
    var p := CleanField(Proposals, i);
    FieldsApart(Items, Proposals);
    FieldsApart(Items, Strings);
    FieldsApart(Proposals, Strings);
    SameDrops(Items, o, s);
    OthersUntouched(Items, o, FieldOf(Items));
    OthersUntouched(Items, o, FieldOf(Proposals));
    OthersUntouched(Items, o, FieldOf(Strings));
    OthersUntouched(Items, s, FieldOf(Proposals));
    OthersUntouched(Items, s, FieldOf(Strings));
    OthersUntouched(Proposals, i, FieldOf(Strings));
    SameDrops(Proposals, o, i);
    SameDrops(Strings, o, p);
  }

  lemma SameDrops(r: Rule, a: Fields, b: Fields)
    ensures Get(a, FieldOf(r)) == Get(b, FieldOf(r)) ==> FieldDrops(r, a) == FieldDrops(r, b)
  {}

  lemma {:induction false} FirstErrorSnoc(r: Rule, items: seq<Value>, v: Value)
    ensures FirstError(r, items + [v]).None? <==> FirstError(r, items).None? && Valid(r, v)
  {
    assert (items + [v])[..|items|] == items;
    ErrorIgnoresIndex(r, v, |items|);
  }

  lemma {:induction false} KeptSnoc(r: Rule, items: seq<Value>, v: Value)
    ensures Kept(r, items + [v]) == if Valid(r, v) then Kept(r, items) + [v] else Kept(r, items)
    ensures Drops(r, items + [v]) == if Valid(r, v) then Drops(r, items) else Drops(r, items) + [DropOf(r, v, |items|)]
    ensures KeptAt(r, items + [v]) == if Valid(r, v) then KeptAt(r, items) + [|items|] else KeptAt(r, items)
  {
    assert (items + [v])[..|items|] == items;
  }

  lemma {:induction false} KeptIsValid(r: Rule, items: seq<Value>)
    ensures FirstError(r, Kept(r, items)).None?
    ensures Kept(r, Kept(r, items)) == Kept(r, items) && Drops(r, Kept(r, items)) == []
    ensures FirstError(r, items).None? <==> Drops(r, items) == []
    ensures Drops(r, items) == [] ==> Kept(r, items) == items
  {
    if items != [] {
      var init, v := items[..|items| - 1], items[|items| - 1];
      assert items == init + [v];
      KeptIsValid(r, init);
      KeptSnoc(r, init, v);
      FirstErrorSnoc(r, init, v);
      if Valid(r, v) {
        KeptSnoc(r, Kept(r, init), v);
        FirstErrorSnoc(r, Kept(r, init), v);
      }
    }
  }

  /** The original positions of the kept elements. */
  function KeptAt(r: Rule, items: seq<Value>): seq<nat> {
    if items == [] then []
    else
      var init := KeptAt(r, items[..|items| - 1]);
      if Valid(r, items[|items| - 1]) then init + [|items| - 1] else init
  }

  /** Increasing positions below `n`. */
  ghost predicate Rising(at: seq<nat>, n: nat) {
    (forall j :: 0 <= j < |at| ==> at[j] < n) && (forall j, k :: 0 <= j < k < |at| ==> at[j] < at[k])
  }

  ghost predicate Picks(r: Rule, items: seq<Value>, at: seq<nat>, kept: seq<Value>) {
    |kept| == |at| && Rising(at, |items|) && forall j :: 0 <= j < |at| ==> kept[j] == items[at[j]] && Valid(r, kept[j])
  }

  ghost predicate Names(r: Rule, items: seq<Value>, drops: seq<Warning>) {
    && (forall j :: 0 <= j < |drops| ==>
          && drops[j].field == FieldOf(r) && drops[j].index.Some? && drops[j].index.value < |items|
          && !Valid(r, items[drops[j].index.value]) && IndexOf(drops[j].reason) == drops[j].index)
    && forall j, k :: 0 <= j < k < |drops| ==> drops[j].index.value < drops[k].index.value
  }

  /** Kept elements are the valid ones, in order; warnings name the positions of the others,
      in order; between them they account for every element. */
  lemma {:induction false} KeptIsTheValidSubsequence(r: Rule, items: seq<Value>)
    ensures Picks(r, items, KeptAt(r, items), Kept(r, items)) && Names(r, items, Drops(r, items))
    ensures |Kept(r, items)| + |Drops(r, items)| == |items|
  {
    if items != [] {
      var init, v := items[..|items| - 1], items[|items| - 1];
      assert items == init + [v];
      KeptIsTheValidSubsequence(r, init);
      KeptSnoc(r, init, v);
      PicksSnoc(r, init, v, KeptAt(r, init), Kept(r, init));
      NamesSnoc(r, init, v, Drops(r, init));
    }
  }

  lemma PicksSnoc(r: Rule, items: seq<Value>, v: Value, at: seq<nat>, kept: seq<Value>)
    requires Picks(r, items, at, kept)
    ensures if Valid(r, v) then Picks(r, items + [v], at + [|items|], kept + [v]) else Picks(r, items + [v], at, kept)
  {}

  lemma NamesSnoc(r: Rule, items: seq<Value>, v: Value, drops: seq<Warning>)
    requires Names(r, items, drops)
    ensures if Valid(r, v) then Names(r, items + [v], drops) else Names(r, items + [v], drops + [DropOf(r, v, |items|)])
  {
    ErrorIgnoresIndex(r, v, |items|);
    ErrorNamesPosition(r, v, |items|);
  }

  /** One advisory field, cleaned. */
  lemma FieldIsClean(r: Rule, o: Fields)
    ensures ArrayError(r, Get(CleanField(r, o), FieldOf(r))).None?
    ensures FieldDrops(r, CleanField(r, o)) == [] && CleanField(r, CleanField(r, o)) == CleanField(r, o)
    ensures ArrayError(r, Get(o, FieldOf(r))).None? <==> FieldDrops(r, o) == []
    ensures FieldDrops(r, o) == [] ==> CleanField(r, o) == o
  {
    if FieldOf(r) in o && o[FieldOf(r)].Arr? {
      KeptIsValid(r, o[FieldOf(r)].items);
    }
  }

  lemma CleanKeepsOthers(o: Fields, key: string)
    requires key != "summary" && key != FieldOf(Items) && key != FieldOf(Proposals) && key != FieldOf(Strings)
    ensures Get(Clean(o), key) == Get(o, key)
  {}

  /** What a field becomes depends on that field alone. */
  lemma FieldIsLocal(r: Rule, a: Fields, b: Fields)
    requires Get(a, FieldOf(r)) == Get(b, FieldOf(r))
    ensures Get(CleanField(r, a), FieldOf(r)) == Get(CleanField(r, b), FieldOf(r))
  {}

  lemma CleanFieldIs(o: Fields, r: Rule)
    ensures Get(Clean(o), FieldOf(r)) == Get(CleanField(r, o), FieldOf(r))
  {
    var s := CleanSummary(o);
    var i := CleanField(Items, s);
    var p := CleanField(Proposals, i);
    FieldsApart(r, Items);
    FieldsApart(r, Proposals);
    FieldsApart(r, Strings);
    OthersUntouched(r, o, FieldOf(r));
    OthersUntouched(Items, s, FieldOf(r));
    OthersUntouched(Proposals, i, FieldOf(r));
    OthersUntouched(Strings, p, FieldOf(r));
    FieldIsLocal(r, o, if r.Items? then s else if r.Proposals? then i else p);
  }

  lemma CleanSummaryIs(o: Fields)
    ensures Get(Clean(o), "summary") == Get(CleanSummary(o), "summary")
  {
    var s := CleanSummary(o);
    var i := CleanField(Items, s);
    FieldsApart(Items, Items);
    FieldsApart(Proposals, Proposals);
    FieldsApart(Strings, Strings);
    OthersUntouched(Items, s, "summary");
    OthersUntouched(Proposals, i, "summary");
    OthersUntouched(Strings, CleanField(Proposals, i), "summary");
  }

  lemma NoErrorsNoDrops(o: Fields)
    requires RequiredError(o).None?
    ensures StrictError(Obj(o)).None? <==> AllDrops(o) == []
    ensures AllDrops(o) == [] ==> Clean(o) == o
  {
    FieldIsClean(Items, o);
    FieldIsClean(Proposals, o);
    FieldIsClean(Strings, o);
  }

  /** Nothing that decides the outcome or the merge authority is touched. */
  lemma OutcomeIsKept(o: Fields)
    ensures RequiredError(Clean(o)) == RequiredError(o) && StrictOutcome(Clean(o)) == StrictOutcome(o)
    ensures ConfirmedMerge(Clean(o)) == ConfirmedMerge(o)
  {
    FieldsApart(Items, Items);
    FieldsApart(Proposals, Proposals);
    FieldsApart(Strings, Strings);
    assert "summary"[2] == 'm' && "success"[2] == 'c' && "cancelled"[0] == 'c' && "reason"[0] == 'r' &&
        "via"[0] == 'v' && ORIGIN_KEY[0] == 'o';
    CleanKeepsOthers(o, "success");
    CleanKeepsOthers(o, "cancelled");
    CleanKeepsOthers(o, "reason");
    CleanKeepsOthers(o, "via");
    CleanKeepsOthers(o, ORIGIN_KEY);
    OutcomeReadsFive(o, Clean(o));
  }

  lemma OutcomeReadsFive(a: Fields, b: Fields)
    requires Get(a, "success") == Get(b, "success") && Get(a, "cancelled") == Get(b, "cancelled")
    requires Get(a, "reason") == Get(b, "reason")
    requires Get(a, "via") == Get(b, "via") && Get(a, ORIGIN_KEY) == Get(b, ORIGIN_KEY)
    ensures RequiredError(a) == RequiredError(b) && StrictOutcome(a) == StrictOutcome(b)
    ensures ConfirmedMerge(a) == ConfirmedMerge(b)
  {}

  /** Lenient sanitising refines strict validation: where the required fields are in order its
      output passes the strict validator and is a fixed point without warnings, the input was
      strictly valid exactly when there are no warnings and is then returned unchanged, and
      outcome and merge authority are those of the input. */
  lemma SanitisingRefinesValidation(o: Fields)
    requires RequiredError(o).None?
    ensures StrictError(Obj(Clean(o))).None?
    ensures Clean(Clean(o)) == Clean(o) && AllDrops(Clean(o)) == []
    ensures StrictError(Obj(o)).None? <==> AllDrops(o) == []
    ensures AllDrops(o) == [] ==> Clean(o) == o
    ensures StrictOutcome(Clean(o)) == StrictOutcome(o) && ConfirmedMerge(Clean(o)) == ConfirmedMerge(o)
  {
    NoErrorsNoDrops(o);
    OutcomeIsKept(o);
    CleanFieldIs(o, Items);
    CleanFieldIs(o, Proposals);
    CleanFieldIs(o, Strings);
    CleanSummaryIs(o);
    FieldIsClean(Items, o);
    FieldIsClean(Proposals, o);
    FieldIsClean(Strings, o);
    assert !BadSummary(Clean(o));
    assert StrictError(Obj(Clean(o))).None?;
    NoErrorsNoDrops(Clean(o));
  }
}

/** One run directory: the event log file, the manifest file and the node files, with the
    append-then-apply protocol as the code carries it out. */
module RunStore {
  import opened Prelude
  import opened Schema
  import opened Reducer
  import opened ReducerLaws
  import opened Recovery
  import opened CrashSafety
  import opened EventFile
  import opened Keyed
  import opened KeyScan
  import opened Quarantine

  /** A lawful record syntax for this store's events. */
  ghost predicate EventCodec(c: Codec<Event>) {
    Lawful(c) && forall e :: c.seqOf(e) == e.seqNo
  }

  /** The bytes of a log the protocol wrote: readable, numbered from one, of one run. */
  ghost predicate GoodLog(c: Codec<Event>, run: RunId, f: Bytes) {
    ReadAll(c, f).Some? && WellSeq(run, ReadAll(c, f).value)
  }

  lemma {:induction false} LastSeqIsLength(c: Codec<Event>, run: RunId, f: Bytes)
    requires EventCodec(c) && GoodLog(c, run, f)
    ensures LastSeqBack(c, SplitLines(f).lines) == Some(|ReadAll(c, f).value|)
  {
    BackwardRefinesForward(c, SplitLines(f).lines);
  }

  lemma StepApplied(log: seq<Event>, st: Store, ev: Event)
    ensures Step(log, st, ev).run == st.run
    ensures Applied(Step(log, st, ev)) <= (if Applied(st) <= ev.seqNo then ev.seqNo else Applied(st))
  {
    StepEvolves(log, st, ev);
    if PlanEvent(log, st, ev).Accepted? {
      CutIsCommit(log, st, ev);
      CutShort(log, st, ev, 2);
      PlanShape(log, st, ev);
    }
  }

  lemma {:induction false} ReplayApplied(log: seq<Event>, base: nat, st: Store, i: nat)
    requires i <= |log| && WellSeq(st.run, log) && Applied(st) <= |log|
    ensures ReplayTo(log, base, st, i).run == st.run && Applied(ReplayTo(log, base, st, i)) <= |log|
  {
    if i > 0 {
      ReplayApplied(log, base, st, i - 1);
      StepApplied(log, ReplayTo(log, base, st, i - 1), log[i - 1]);
    }
  }

  /** A whole record appended to a clean file. */
  lemma {:induction false} LineAppends(c: Codec<Event>, run: RunId, f: Bytes, ev: Event)
    requires EventCodec(c) && GoodLog(c, run, f) && SplitLines(f).tail == []
    requires ev.seqNo == |ReadAll(c, f).value| + 1 && ev.runId == run
    ensures var g := f + (c.render(ev) + [NL]);
            ReadAll(c, g) == Some(ReadAll(c, f).value + [ev]) && GoodLog(c, run, g) && SplitLines(g).tail == []
  {
    LineReads(c, f, ev);
  }

  lemma {:induction false} LineReads(c: Codec<Event>, f: Bytes, ev: Event)
    requires EventCodec(c) && ReadAll(c, f).Some? && SplitLines(f).tail == []
    ensures var g := f + (c.render(ev) + [NL]);
            ReadAll(c, g) == Some(ReadAll(c, f).value + [ev]) && SplitLines(g).tail == []
  {
    RenderedContent(c, ev);
    SplitLine(f, c.render(ev));
    ReadersSnoc(c, SplitLines(f).lines, c.render(ev));
  }

  // ---- catch-up and append over any file whatever ----

  /** The events above `base` folded in file order; `over` is the strict reading, which alone the
      recovery verdict consults. */
  function ReplayEvents(over: seq<Event>, es: seq<Event>, base: nat, st: Store, i: nat): Store
    requires i <= |es|
  {
    if i == 0 then st
    else
      var s := ReplayEvents(over, es, base, st, i - 1);
      if es[i - 1].seqNo <= base then s else Step(over, s, es[i - 1])
  }

  lemma {:induction false} ReplayEventsIsReplay(log: seq<Event>, base: nat, st: Store, i: nat)
    requires i <= |log|
    ensures ReplayEvents(log, log, base, st, i) == ReplayTo(log, base, st, i)
  {
    if i > 0 { ReplayEventsIsReplay(log, base, st, i - 1); }
  }

  /** Catch-up over any file: corrupt complete lines are passed over; `None` when the last line
      that is not blank has no valid envelope. */
  function RawCatchUp(c: Codec<Event>, f: Bytes, st: Store): Option<Store> {
    if st.manifest.None? then Some(st)
    else match LastSeqBack(c, SplitLines(f).lines)
      case None => None
      case Some(last) =>
        if Applied(st) >= last then Some(st)
        else Some(ReplayEvents(Readable(c, f), ReadTolerant(c, f), Applied(st), st, |ReadTolerant(c, f)|))
  }

  /** On a log the protocol wrote this is the catch-up of the reference model. */
  lemma RawCatchUpIsCatchUp(c: Codec<Event>, f: Bytes, st: Store)
    requires EventCodec(c) && GoodLog(c, st.run, f) && Applied(st) <= |ReadAll(c, f).value|
    ensures RawCatchUp(c, f, st) == Some(CatchUp(ReadAll(c, f).value, st))
    ensures Applied(CatchUp(ReadAll(c, f).value, st)) <= |ReadAll(c, f).value|
    ensures CatchUp(ReadAll(c, f).value, st).run == st.run
  {
    var log := ReadAll(c, f).value;
    LastSeqIsLength(c, st.run, f);
    StrictIsTolerant(c, SplitLines(f).lines);
    ReplayEventsIsReplay(log, Applied(st), st, |log|);
    ReplayApplied(log, Applied(st), st, |log|);
    if Applied(st) >= |log| { NothingToReplay(log, st, |log|); }
  }

  function Numbered(draft: Event, seqNo: nat, clock: Clock): Event { draft.(seqNo := seqNo, ts := clock(seqNo)) }

  /** What an append leaves and answers. */
  datatype Appending = Appending(r: Option<nat>, applied: bool, bytes: Bytes, st: Store)

  /** Number after the backward scan, plan against the strict reading, and only then write and
      fold. */
  function AppendNext(c: Codec<Event>, g: Bytes, s: Store, draft: Event, clock: Clock): Appending {
    match LastSeqBack(c, SplitLines(g).lines)
    case None => Appending(None, false, g, s)
    case Some(last) =>
      var ev := Numbered(draft, last + 1, clock);
      match PlanEvent(Readable(c, g), s, ev)
      case Rejected => Appending(None, false, g, s)
      case Accepted(ops) =>
        Appending(Some(last + 1), ops != [], g + (c.render(ev) + [NL]), Step(Readable(c, g), s, ev))
  }

  /** Append over any file: cut the tail, catch up, then append. */
  function RawAppend(c: Codec<Event>, f: Bytes, st: Store, draft: Event, clock: Clock): Appending {
    var g := Truncated(f);
    match RawCatchUp(c, g, st)
    case None => Appending(None, false, g, st)
    case Some(s) => AppendNext(c, g, s, draft, clock)
  }

  /** Whatever the file holds, no record that could be read is lost, and exactly an accepted
      event is added. */
  lemma RawAppendKeepsRecords(c: Codec<Event>, f: Bytes, st: Store, draft: Event, clock: Clock)
    requires Lawful(c)
    ensures var a := RawAppend(c, f, st, draft, clock);
            ReadTolerant(c, a.bytes) ==
              if a.r.Some? then ReadTolerant(c, f) + [Numbered(draft, a.r.value, clock)] else ReadTolerant(c, f)
    ensures SplitLines(RawAppend(c, f, st, draft, clock).bytes).tail == []
  {
    TruncationKeepsLines(f);
    var a := RawAppend(c, f, st, draft, clock);
    if a.r.Some? {
      var ev := Numbered(draft, a.r.value, clock);
      RenderedContent(c, ev);
      SplitLine(Truncated(f), c.render(ev));
      ReadersSnoc(c, SplitLines(f).lines, c.render(ev));
    }
  }

  /** On a log the protocol wrote this is the append of the reference model. */
  lemma RawAppendIsAppend(c: Codec<Event>, f: Bytes, st: Store, draft: Event, clock: Clock)
    requires EventCodec(c) && GoodLog(c, st.run, f) && Applied(st) <= |ReadAll(c, f).value| && draft.runId == st.run
    ensures var a, log := RawAppend(c, f, st, draft, clock), ReadAll(c, f).value;
            && GoodLog(c, st.run, a.bytes) && a.st.run == st.run && Applied(a.st) <= |ReadAll(c, a.bytes).value|
            && Appends(log, CatchUp(log, st), Numbered(draft, |log| + 1, clock), a.r, a.applied,
               ReadAll(c, a.bytes).value, a.st)
  {
    var g, log := Truncated(f), ReadAll(c, f).value;
    TruncationKeepsLines(f);
    RawCatchUpIsCatchUp(c, g, st);
    AppendNextIsAppend(c, g, CatchUp(log, st), draft, clock);
  }

  lemma {:induction false} AppendNextIsAppend(c: Codec<Event>, g: Bytes, s: Store, draft: Event, clock: Clock)
    requires EventCodec(c) && GoodLog(c, s.run, g) && SplitLines(g).tail == [] && Applied(s) <= |ReadAll(c, g).value|
    requires draft.runId == s.run
    ensures var a, log := AppendNext(c, g, s, draft, clock), ReadAll(c, g).value;
            && GoodLog(c, s.run, a.bytes) && a.st.run == s.run && Applied(a.st) <= |ReadAll(c, a.bytes).value|
            && Appends(log, s, Numbered(draft, |log| + 1, clock), a.r, a.applied, ReadAll(c, a.bytes).value, a.st)
  {
    LastSeqIsLength(c, s.run, g);
    var log := ReadAll(c, g).value;
    var ev := Numbered(draft, |log| + 1, clock);
    if PlanEvent(log, s, ev).Accepted? { AcceptedLine(c, g, s, log, ev); }
  }

  /** The file and the store once an accepted event is written and folded. */
  lemma {:induction false} AcceptedLine(c: Codec<Event>, g: Bytes, s: Store, log: seq<Event>, ev: Event)
    requires EventCodec(c) && GoodLog(c, s.run, g) && SplitLines(g).tail == [] && log == ReadAll(c, g).value
    requires Applied(s) <= |log| && ev.seqNo == |log| + 1 && ev.runId == s.run
    ensures var h := g + (c.render(ev) + [NL]);
            GoodLog(c, s.run, h) && ReadAll(c, h) == Some(log + [ev])
    ensures Step(log, s, ev).run == s.run && Applied(Step(log, s, ev)) <= |log| + 1
  {
    LineAppends(c, s.run, g, ev);
    StepApplied(log, s, ev);
  }

  // ---- the reference append ----

  /** What one append does to a log and its caught-up store: a refused event leaves both
      alone; an accepted one is the log's next event and is folded in. */
  ghost predicate Appends(log: seq<Event>, s: Store, ev: Event, r: Option<nat>, applied: bool, log': seq<Event>,
      s': Store) {
    match PlanEvent(log, s, ev)
    case Rejected => r.None? && !applied && log' == log && s' == s
    case Accepted(ops) =>
      r == Some(ev.seqNo) && applied == (ops != []) && log' == log + [ev] && s' == Step(log, s, ev)
  }

  lemma AppendReply(log: seq<Event>, s: Store, ev: Event, r: Option<nat>, applied: bool, log': seq<Event>, s': Store)
    requires Appends(log, s, ev, r, applied, log', s') && FreshKey(log, ev)
    ensures KeyedReply(if r.Some? then Appended(r.value) else Invalid, log, s, log', s', ev)
  {}

  lemma {:induction false} PriorReply(log: seq<Event>, s: Store, ev: Event, prior: Event)
    requires ev.key.Some? && FirstKeyed(log, KindOf(ev.body), ev.key.value) == Some(prior)
    ensures KeyedReply(Replay(prior), log, s, log, s, ev) && KeyedReply(Conflict(prior), log, s, log, s, ev)
  {
    FirstIsCarrier(log, KindOf(ev.body), ev.key.value);
  }

  // ---- keyed appends over any file whatever ----

  /** What a keyed append answers and leaves. */
  datatype KeyedCall = KeyedCall(r: Outcome, bytes: Bytes, st: Store)

  function Answered(a: Appending): KeyedCall {
    KeyedCall(if a.r.Some? then Appended(a.r.value) else Invalid, a.bytes, a.st)
  }

  function FindKeyed(k: KeyReader, g: Bytes, kind: Kind, key: Option<string>): Lookup {
    if key.None? then Absent else LookUp(k, SplitLines(g).lines, kind, key.value)
  }

  /** Over a file without tail: append the event unless its key is logged. A corrupt line before
      any match is an error, and nothing is written. */
  function AppendUnlessKeyed(c: Codec<Event>, k: KeyReader, g: Bytes, s: Store, draft: Event, clock: Clock): KeyedCall {
    match FindKeyed(k, g, KindOf(draft.body), draft.key)
    case CorruptLog => KeyedCall(Unreadable, g, s)
    case Found(ev) =>
      KeyedCall(if ev.nodeId == draft.nodeId && ev.body == draft.body then Replay(ev) else Conflict(ev), g, s)
    case Absent => Answered(RawAppend(c, g, s, draft, clock))
  }

  /** A caller that does not tell a retry from a reused key. */
  function Unquestioned(r: Outcome): Outcome { if r.Conflict? then Replay(r.prior) else r }

  /** The entry point with an optional key. */
  function RawKeyedAppend(c: Codec<Event>, k: KeyReader, f: Bytes, st: Store, draft: Event, clock: Clock): KeyedCall {
    var g := Truncated(f);
    match RawCatchUp(c, g, st)
    case None => KeyedCall(Unreadable, g, st)
    case Some(s) =>
      var a := AppendUnlessKeyed(c, k, g, s, draft, clock);
      a.(r := Unquestioned(a.r))
  }

  /** The entry point with a mandatory key, whose payload, and with it the kind, is built from the
      number the event would get. */
  function RawIdempotent(c: Codec<Event>, k: KeyReader, f: Bytes, st: Store, to: Option<NodeId>, key: string,
      build: nat -> Option<Body>, clock: Clock): KeyedCall
  {
    if key == "" then KeyedCall(Invalid, f, st) else
    var g := Truncated(f);
    match RawCatchUp(c, g, st)
    case None => KeyedCall(Unreadable, g, st)
    case Some(s) => BuildAndAppend(c, k, g, s, to, key, build, clock)
  }

  function Draft(run: RunId, to: Option<NodeId>, key: Option<string>, body: Body): Event {
    Event(0, 0, run, to, key, body)
  }

  function BuildAndAppend(c: Codec<Event>, k: KeyReader, g: Bytes, s: Store, to: Option<NodeId>, key: string,
      build: nat -> Option<Body>, clock: Clock): KeyedCall
  {
    match LastSeqBack(c, SplitLines(g).lines)
    case None => KeyedCall(Unreadable, g, s)
    case Some(last) =>
      if build(last + 1).None? then KeyedCall(Unbuilt, g, s)
      else AppendUnlessKeyed(c, k, g, s, Draft(s.run, to, Some(key), build(last + 1).value), clock)
  }

  /** Over any file: a keyed append is refused for the log's sake exactly when a corrupt line comes
      before any match, and appends only where no line is corrupt or matches. */
  lemma {:induction false} KeyedReadsTheLog(c: Codec<Event>, k: KeyReader, g: Bytes, s: Store, draft: Event,
      clock: Clock)
    requires draft.key.Some?
    ensures var lines, kind, key := SplitLines(g).lines, KindOf(draft.body), draft.key.value;
            var r := AppendUnlessKeyed(c, k, g, s, draft, clock).r;
            && (r.Unreadable? <==> ScanStops(k, lines, kind, key, CorruptLog))
            && (r.Appended? ==> AllPassed(k, lines, kind, key))
  {
    var lines, kind, key := SplitLines(g).lines, KindOf(draft.body), draft.key.value;
    KeyedAnswers(c, k, g, s, draft, clock);
    CorruptExactly(k, lines, kind, key);
    LookUpExactly(k, lines, kind, key);
    assert FindKeyed(k, g, kind, draft.key) == LookUp(k, lines, kind, key);
  }

  /** The answer by what the scan found. */
  lemma {:induction false} KeyedAnswers(c: Codec<Event>, k: KeyReader, g: Bytes, s: Store, draft: Event, clock: Clock)
    ensures var r := AppendUnlessKeyed(c, k, g, s, draft, clock).r;
            var found := FindKeyed(k, g, KindOf(draft.body), draft.key);
            (r.Unreadable? <==> found.CorruptLog?) && (r.Appended? ==> found.Absent?)
  {
    var a := RawAppend(c, g, s, draft, clock);
    assert Answered(a).r.Appended? || Answered(a).r.Invalid?;
  }

  lemma {:induction false} CorruptExactly(k: KeyReader, lines: seq<Bytes>, kind: Kind, key: string)
    ensures LookUp(k, lines, kind, key).CorruptLog? <==> ScanStops(k, lines, kind, key, CorruptLog)
  {
    LookUpExactly(k, lines, kind, key);
    var found := LookUp(k, lines, kind, key);
    if i: nat :| StopsAt(k, lines, i, kind, key, CorruptLog) {
      if !found.Absent? {
        var j: nat :| StopsAt(k, lines, j, kind, key, found);
        OneStop(k, lines, i, j, kind, key, CorruptLog, found);
      }
    }
  }

  /** Catch-up over any file fails exactly when the last line that is not blank has no envelope. */
  lemma {:induction false} CatchUpFailsExactly(c: Codec<Event>, f: Bytes, st: Store)
    ensures var lines := SplitLines(f).lines;
            RawCatchUp(c, f, st).None? <==>
              st.manifest.Some? && exists i: nat :: LastSolid(lines, i) && c.parseSeq(lines[i]).None?
  {
    var lines := SplitLines(f).lines;
    SolidOrNot(lines);
    if i: nat :| LastSolid(lines, i) { BackReadsLastSolid(c, lines, i); } else { BackReadsLastSolid(c, lines, 0); }
  }

  lemma {:induction false} SolidOrNot(lines: seq<Bytes>)
    ensures (exists i: nat :: LastSolid(lines, i)) || forall j :: 0 <= j < |lines| ==> AllWhite(lines[j])
  {
    if lines != [] {
      if AllWhite(lines[|lines| - 1]) {
        var init := lines[..|lines| - 1];
        SolidOrNot(init);
        if i: nat :| LastSolid(init, i) { assert LastSolid(lines, i); }
      } else {
        assert LastSolid(lines, |lines| - 1);
      }
    }
  }

  /** Whatever the file holds, a keyed append loses no readable record, and adds exactly the event
      it says it appended. */
  lemma {:induction false} KeyedKeepsRecords(c: Codec<Event>, k: KeyReader, g: Bytes, s: Store, draft: Event,
      clock: Clock)
    requires Lawful(c) && SplitLines(g).tail == []
    ensures var a := AppendUnlessKeyed(c, k, g, s, draft, clock);
            ReadTolerant(c, a.bytes) ==
              if a.r.Appended? then ReadTolerant(c, g) + [Numbered(draft, a.r.seqNo, clock)] else ReadTolerant(c, g)
  {
    RawAppendKeepsRecords(c, g, s, draft, clock);
  }

  /** The file and the caught-up store a keyed append works on, in a log the protocol wrote. */
  ghost predicate Prepared(c: Codec<Event>, k: KeyReader, g: Bytes, s: Store) {
    && EventCodec(c) && Skims(c, k) && GoodLog(c, s.run, g) && Applied(s) <= |ReadAll(c, g).value|
    && CatchUp(ReadAll(c, g).value, s) == s
  }

  lemma KeyedIsReply(c: Codec<Event>, k: KeyReader, g: Bytes, s: Store, draft: Event, clock: Clock)
    requires Prepared(c, k, g, s) && draft.runId == s.run
    ensures var a, log := AppendUnlessKeyed(c, k, g, s, draft, clock), ReadAll(c, g).value;
            && GoodLog(c, s.run, a.bytes) && a.st.run == s.run && Applied(a.st) <= |ReadAll(c, a.bytes).value|
            && KeyedReply(a.r, log, s, ReadAll(c, a.bytes).value, a.st, Numbered(draft, |log| + 1, clock))
  {
    var log, ev := ReadAll(c, g).value, Numbered(draft, |ReadAll(c, g).value| + 1, clock);
    if draft.key.Some? { LookUpIsFirst(c, k, SplitLines(g).lines, KindOf(draft.body), draft.key.value); }
    if FreshKey(log, ev) {
      AbsentIsReply(c, k, g, s, draft, clock);
    } else {
      PriorReply(log, s, ev, FirstKeyed(log, KindOf(draft.body), draft.key.value).value);
    }
  }

  lemma AbsentIsReply(c: Codec<Event>, k: KeyReader, g: Bytes, s: Store, draft: Event, clock: Clock)
    requires Prepared(c, k, g, s) && draft.runId == s.run
    requires FreshKey(ReadAll(c, g).value, Numbered(draft, |ReadAll(c, g).value| + 1, clock))
    ensures var a, log := Answered(RawAppend(c, g, s, draft, clock)), ReadAll(c, g).value;
            && GoodLog(c, s.run, a.bytes) && a.st.run == s.run && Applied(a.st) <= |ReadAll(c, a.bytes).value|
            && KeyedReply(a.r, log, s, ReadAll(c, a.bytes).value, a.st, Numbered(draft, |log| + 1, clock))
  {
    RawAppendIsAppend(c, g, s, draft, clock);
    var a, log := RawAppend(c, g, s, draft, clock), ReadAll(c, g).value;
    AppendReply(log, s, Numbered(draft, |log| + 1, clock), a.r, a.applied, ReadAll(c, a.bytes).value, a.st);
  }

  /** A directory the protocol wrote. */
  ghost predicate Written(c: Codec<Event>, k: KeyReader, f: Bytes, st: Store) {
    EventCodec(c) && Skims(c, k) && GoodLog(c, st.run, f) && Applied(st) <= |ReadAll(c, f).value|
  }

  /** An append keeps it one, and is the append of the reference model. */
  lemma {:induction false} WrittenAppend(c: Codec<Event>, k: KeyReader, f: Bytes, st: Store, draft: Event,
      clock: Clock)
    requires Written(c, k, f, st) && draft.runId == st.run
    ensures var a, log := RawAppend(c, f, st, draft, clock), ReadAll(c, f).value;
            && Written(c, k, a.bytes, a.st)
            && Appends(log, CatchUp(log, st), Numbered(draft, |log| + 1, clock), a.r, a.applied,
               ReadAll(c, a.bytes).value, a.st)
  {
    RawAppendIsAppend(c, f, st, draft, clock);
  }

  /** Truncation and catch-up prepare it. */
  lemma {:induction false} CatchUpPrepares(c: Codec<Event>, k: KeyReader, f: Bytes, st: Store)
    requires Written(c, k, f, st)
    ensures var g, log := Truncated(f), ReadAll(c, f).value;
            && ReadAll(c, g) == Some(log) && RawCatchUp(c, g, st) == Some(CatchUp(log, st))
            && CatchUp(log, st).run == st.run && Prepared(c, k, g, CatchUp(log, st))
            && LastSeqBack(c, SplitLines(g).lines) == Some(|log|)
  {
    TruncationKeepsLines(f);
    RawCatchUpIsCatchUp(c, Truncated(f), st);
    LastSeqIsLength(c, st.run, Truncated(f));
    CatchUpIsIdempotent(ReadAll(c, f).value, st);
  }

  lemma Unquestioning(r: Outcome, log: seq<Event>, s: Store, log': seq<Event>, s': Store, ev: Event)
    requires KeyedReply(r, log, s, log', s', ev)
    ensures KeyedReply(Unquestioned(r), log, s, log', s', ev) && !Unquestioned(r).Conflict?
  {}

  lemma RawKeyedIsReply(c: Codec<Event>, k: KeyReader, f: Bytes, st: Store, draft: Event, clock: Clock)
    requires Written(c, k, f, st) && draft.runId == st.run
    ensures var a, log := RawKeyedAppend(c, k, f, st, draft, clock), ReadAll(c, f).value;
            && Written(c, k, a.bytes, a.st) && a.st.run == st.run && !a.r.Conflict?
            && KeyedReply(a.r, log, CatchUp(log, st), ReadAll(c, a.bytes).value, a.st,
               Numbered(draft, |log| + 1, clock))
  {
    var g, log := Truncated(f), ReadAll(c, f).value;
    CatchUpPrepares(c, k, f, st);
    var s := CatchUp(log, st);
    KeyedIsReply(c, k, g, s, draft, clock);
    var a := AppendUnlessKeyed(c, k, g, s, draft, clock);
    Unquestioning(a.r, log, s, ReadAll(c, a.bytes).value, a.st, Numbered(draft, |log| + 1, clock));
  }

  /** A reply tells a true retry from a reused key. */
  ghost predicate ToldApart(r: Outcome, to: Option<NodeId>, body: Body) {
    && (r.Replay? ==> r.prior.nodeId == to && r.prior.body == body)
    && (r.Conflict? ==> r.prior.nodeId != to || r.prior.body != body)
  }

  lemma RawIdempotentIsReply(c: Codec<Event>, k: KeyReader, f: Bytes, st: Store, to: Option<NodeId>, key: string,
      build: nat -> Option<Body>, clock: Clock)
    requires Written(c, k, f, st) && key != ""
    ensures var a, log := RawIdempotent(c, k, f, st, to, key, build, clock), ReadAll(c, f).value;
            var s, body := CatchUp(log, st), build(|log| + 1);
            && Written(c, k, a.bytes, a.st) && a.st.run == st.run
            && (if body.None? then a.r == Unbuilt && ReadAll(c, a.bytes).value == log && a.st == s
                else
                  && ToldApart(a.r, to, body.value)
                  && KeyedReply(a.r, log, s, ReadAll(c, a.bytes).value, a.st,
                     Numbered(Draft(st.run, to, Some(key), body.value), |log| + 1, clock)))
  {
    CatchUpPrepares(c, k, f, st);
    BuiltIsReply(c, k, Truncated(f), CatchUp(ReadAll(c, f).value, st), to, key, build, clock);
  }

  lemma {:induction false} BuiltIsReply(c: Codec<Event>, k: KeyReader, g: Bytes, s: Store, to: Option<NodeId>,
      key: string,
      build: nat -> Option<Body>, clock: Clock)
    requires Prepared(c, k, g, s) && LastSeqBack(c, SplitLines(g).lines) == Some(|ReadAll(c, g).value|)
    ensures var a, log := BuildAndAppend(c, k, g, s, to, key, build, clock), ReadAll(c, g).value;
            var body := build(|log| + 1);
            && Written(c, k, a.bytes, a.st) && a.st.run == s.run
            && (if body.None? then a.r == Unbuilt && ReadAll(c, a.bytes).value == log && a.st == s
                else
                  && ToldApart(a.r, to, body.value)
                  && KeyedReply(a.r, log, s, ReadAll(c, a.bytes).value, a.st,
                     Numbered(Draft(s.run, to, Some(key), body.value), |log| + 1, clock)))
  {
    var body := build(|ReadAll(c, g).value| + 1);
    if body.Some? { DraftIsReply(c, k, g, s, Draft(s.run, to, Some(key), body.value), clock); }
  }

  lemma DraftIsReply(c: Codec<Event>, k: KeyReader, g: Bytes, s: Store, draft: Event, clock: Clock)
    requires Prepared(c, k, g, s) && draft.runId == s.run
    ensures var a, log := AppendUnlessKeyed(c, k, g, s, draft, clock), ReadAll(c, g).value;
            && Written(c, k, a.bytes, a.st) && a.st.run == s.run && ToldApart(a.r, draft.nodeId, draft.body)
            && KeyedReply(a.r, log, s, ReadAll(c, a.bytes).value, a.st, Numbered(draft, |log| + 1, clock))
  {
    KeyedIsReply(c, k, g, s, draft, clock);
    RetryIsTold(c, k, g, s, draft, clock);
  }

  lemma RetryIsTold(c: Codec<Event>, k: KeyReader, g: Bytes, s: Store, draft: Event, clock: Clock)
    ensures ToldApart(AppendUnlessKeyed(c, k, g, s, draft, clock).r, draft.nodeId, draft.body)
  {}

  class Run {
    const id: RunId
    const codec: Codec<Event>
    const keys: KeyReader
    const chunk: nat
    var bytes: Bytes
    var manifest: Option<Manifest>
    var nodes: map<NodeId, Node>
    var backups: seq<Bytes>

    /** A directory the protocol wrote. */
    ghost predicate Valid()
      reads this
    {
      chunk > 0 && Written(codec, keys, bytes, State())
    }

    /** One whose log may have been damaged since: a strict reader either fails or reads a log the
        protocol wrote. */
    ghost predicate Usable()
      reads this
    {
      EventCodec(codec) && Skims(codec, keys) && chunk > 0 && (ReadAll(codec, bytes).Some? ==> Valid())
    }

    /** The readable log. */
    ghost function Log(): seq<Event>
      reads this
    {
      Readable(codec, bytes)
    }

    function State(): Store
      reads this
    {
      Store(id, manifest, nodes)
    }

    /** A run directory before its first event. */
    constructor (run: RunId, c: Codec<Event>, k: KeyReader, scanChunk: nat)
      requires EventCodec(c) && Skims(c, k) && scanChunk > 0
      ensures Valid() && Log() == [] && State() == EmptyStore(run) && bytes == [] && backups == []
      ensures id == run && codec == c && keys == k && chunk == scanChunk
    {
      id, codec, keys, chunk := run, c, k, scanChunk;
      bytes, manifest, nodes, backups := [], None, map[], [];
    }

    /** Cut a newline-less final line off the log file. */
    method TruncateTornTail()
      requires chunk > 0
      modifies this`bytes
      ensures bytes == Truncated(old(bytes))
      ensures SplitLines(bytes).lines == SplitLines(old(bytes)).lines && SplitLines(bytes).tail == []
    {
      TruncationKeepsLines(bytes);
      var keep := KeepLength(bytes, chunk);
      if keep < |bytes| { bytes := bytes[..keep]; } else { assert bytes[..keep] == bytes; }
    }

    /** Excise the corrupt lines of any log file whatever, keeping the original aside. */
    method QuarantineCorruptLines() returns (removed: Option<seq<nat>>)
      modifies this`bytes, this`backups
      ensures removed.None? <==> ReadAll(codec, old(bytes)).Some?
      ensures removed.None? ==> bytes == old(bytes) && backups == old(backups)
      ensures removed.Some? ==>
                && bytes == Recovered(codec, old(bytes)) && backups == old(backups) + [old(bytes)]
                && removed.value == Offsets(Removed(codec, old(bytes)))
      ensures ReadAll(codec, bytes) == Some(ReadTolerant(codec, old(bytes)))
    {
      QuarantineIsCorrect(codec, bytes);
      StrictIsTolerant(codec, SplitLines(bytes).lines);
      var recovered, offsets := ExciseCorruptLines(codec, bytes);
      if offsets == [] { return None; }
      backups := backups + [bytes];
      bytes := recovered;
      return Some(offsets);
    }

    /** Carry out planned writes in order. */
    method CommitOps(ops: seq<Op>)
      modifies this`manifest, this`nodes
      ensures State() == Commit(old(State()), ops)
    {
      for i := 0 to |ops|
        invariant State() == Commit(old(State()), ops[..i])
      {
        assert ops[..i + 1][..i] == ops[..i];
        match ops[i] {
          case PutManifest(m) => manifest := Some(m);
          case PutNode(k, n) => nodes := nodes[k := n];
        }
      }
      assert ops[..|ops|] == ops;
    }

    /** Count node files with a saturating 32-bit counter. */
    method CountNodeFiles() returns (count: nat)
      ensures count == if |nodes| <= 0xFFFF_FFFF then |nodes| else 0xFFFF_FFFF
      ensures count == NodeCount(nodes)
    {
      count := 0;
      var rest := nodes.Keys;
      while rest != {}
        invariant rest <= nodes.Keys
        invariant count == if |nodes.Keys| - |rest| <= U32_MAX then |nodes.Keys| - |rest| else U32_MAX
        decreases |rest|
      {
        var k :| k in rest;
        rest := rest - {k};
        if count < U32_MAX { count := count + 1; }
      }
    }

    /** Move the watermark and the derived counter in one manifest write. */
    method AdvanceAppliedSeq(seqNo: nat)
      modifies this`manifest
      ensures State() == Advance(old(State()), seqNo)
    {
      if manifest.Some? && manifest.value.appliedSeq < seqNo {
        var count := CountNodeFiles();
        manifest := Some(manifest.value.(nodeCount := count, appliedSeq := seqNo));
      }
    }

    /** The strict reading of the log file, empty where there is none. */
    method ReadLog() returns (log: seq<Event>)
      ensures log == Log()
    {
      var r := ForEachEvent(codec, bytes);
      return if r.Some? then r.value else [];
    }

    /** Fold one event without moving the watermark; `ok` is false when it is refused. */
    method ApplyEvent(ev: Event) returns (ok: bool)
      modifies this`manifest, this`nodes
      ensures State() == Cut(Log(), old(State()), ev, 2)
      ensures ok == PlanEvent(Log(), old(State()), ev).Accepted?
    {
      var log := ReadLog();
      var plan := PlanEvent(log, State(), ev);
      if plan.Rejected? { return false; }
      CutIsCommit(log, State(), ev);
      CommitOps(plan.ops);
      return true;
    }

    /** Fold one logged event and acknowledge it; a refused one is skipped. */
    method FoldLogged(over: seq<Event>, ev: Event)
      modifies this`manifest, this`nodes
      ensures State() == Step(over, old(State()), ev)
    {
      var plan := PlanEvent(over, State(), ev);
      if plan.Accepted? {
        CommitOps(plan.ops);
        AdvanceAppliedSeq(ev.seqNo);
      }
    }

    /** Walk the whole log, folding the events above the watermark read on entry. */
    method ReplayLog(over: seq<Event>, es: seq<Event>, applied: nat)
      modifies this`manifest, this`nodes
      ensures State() == ReplayEvents(over, es, applied, old(State()), |es|)
    {
      for i := 0 to |es|
        invariant State() == ReplayEvents(over, es, applied, old(State()), i)
      {
        if es[i].seqNo > applied { FoldLogged(over, es[i]); }
      }
    }

    /** Fold every logged event above the watermark, passing over corrupt lines. */
    method ReplayUnapplied() returns (ok: bool)
      requires chunk > 0
      modifies this`manifest, this`nodes
      ensures match RawCatchUp(codec, bytes, old(State()))
              case None => !ok && State() == old(State())
              case Some(s) => ok && State() == s
      ensures old(Valid()) ==> ok && Valid() && State() == CatchUp(Log(), old(State()))
    {
      if Valid() { RawCatchUpIsCatchUp(codec, bytes, State()); }
      if manifest.None? { return true; }
      var applied := manifest.value.appliedSeq;
      var last := RecoverLastSeq(codec, bytes, chunk);
      if last.None? { return false; }
      if applied >= last.value { return true; }
      var over := ReadLog();
      var es := ForEachTolerant(codec, bytes);
      ReplayLog(over, es, applied);
      return true;
    }

    /** Truncate, then catch up. */
    method ReplayUnappliedUnlocked() returns (ok: bool)
      requires chunk > 0
      modifies this`bytes, this`manifest, this`nodes
      ensures bytes == Truncated(old(bytes)) && SplitLines(bytes).tail == []
      ensures match RawCatchUp(codec, bytes, old(State()))
              case None => !ok && State() == old(State())
              case Some(s) => ok && State() == s
      ensures old(Valid()) ==> ok && Valid() && Log() == old(Log()) && State() == CatchUp(Log(), old(State()))
    {
      TruncateTornTail();
      ok := ReplayUnapplied();
    }

    /** Log an accepted event, then carry out its plan and acknowledge it. */
    method LogAndFold(over: seq<Event>, ev: Event, ops: seq<Op>)
      requires PlanEvent(over, State(), ev) == Accepted(ops)
      modifies this`bytes, this`manifest, this`nodes
      ensures bytes == old(bytes) + (codec.render(ev) + [NL]) && State() == Step(over, old(State()), ev)
    {
      bytes := bytes + (codec.render(ev) + [NL]);
      CommitOps(ops);
      AdvanceAppliedSeq(ev.seqNo);
    }

    /** Number, plan and append, once the store is caught up with a clean file. */
    method AppendCaughtUp(draft: Event, clock: Clock) returns (r: Option<nat>, applied: bool)
      requires chunk > 0
      modifies this`bytes, this`manifest, this`nodes
      ensures Appending(r, applied, bytes, State()) == AppendNext(codec, old(bytes), old(State()), draft, clock)
    {
      var last := RecoverLastSeq(codec, bytes, chunk);
      if last.None? { return None, false; }
      var ok;
      ok, applied := AppendNumbered(Numbered(draft, last.value + 1, clock));
      return if ok then Some(last.value + 1) else None, applied;
    }

    /** Plan a numbered event over the strict reading, and only then write and fold it. */
    method AppendNumbered(ev: Event) returns (ok: bool, applied: bool)
      modifies this`bytes, this`manifest, this`nodes
      ensures match PlanEvent(old(Log()), old(State()), ev)
              case Rejected => !ok && !applied && bytes == old(bytes) && State() == old(State())
              case Accepted(ops) =>
                && ok && applied == (ops != []) && bytes == old(bytes) + (codec.render(ev) + [NL])
                && State() == Step(old(Log()), old(State()), ev)
    {
      var log := ReadLog();
      var plan := PlanEvent(log, State(), ev);
      if plan.Rejected? { return false, false; }
      LogAndFold(log, ev, plan.ops);
      return true, plan.ops != [];
    }

    /** Append one event and fold it in. The event is planned before any byte is written; a
        refused event leaves no trace beyond the catch-up. */
    method AppendAndApply(clock: Clock, nodeId: Option<NodeId>, key: Option<string>, body: Body)
      returns (r: Option<nat>, applied: bool)
      requires chunk > 0
      modifies this`bytes, this`manifest, this`nodes
      ensures Appending(r, applied, bytes, State()) ==
              RawAppend(codec, old(bytes), old(State()), Draft(id, nodeId, key, body), clock)
      ensures old(Valid()) ==>
                && Valid()
                && Appends(old(Log()), CatchUp(old(Log()), old(State())),
                   Event(|old(Log())| + 1, clock(|old(Log())| + 1), id, nodeId, key, body),
                           r, applied, Log(), State())
    {
      var draft := Draft(id, nodeId, key, body);
      if Valid() { WrittenAppend(codec, keys, bytes, State(), draft, clock); }
      r, applied := AppendDraft(draft, clock);
    }

    /** Cut the tail and catch up, then append; an unreadable last line stops it. */
    method AppendDraft(draft: Event, clock: Clock) returns (r: Option<nat>, applied: bool)
      requires chunk > 0
      modifies this`bytes, this`manifest, this`nodes
      ensures Appending(r, applied, bytes, State()) == RawAppend(codec, old(bytes), old(State()), draft, clock)
    {
      var ok := ReplayUnappliedUnlocked();
      if !ok { return None, false; }
      r, applied := AppendCaughtUp(draft, clock);
    }

    /** First event of this kind under this key, unless a corrupt line comes first. */
    method FindPriorWithKey(kind: Kind, key: string) returns (r: Lookup)
      ensures r == LookUp(keys, SplitLines(bytes).lines, kind, key)
      ensures Valid() ==>
                r == if FirstKeyed(Log(), kind, key).Some? then Found(FirstKeyed(Log(), kind, key).value) else Absent
    {
      if Valid() { LookUpIsFirst(codec, keys, SplitLines(bytes).lines, kind, key); }
      r := ScanForKey(keys, bytes, kind, key);
    }

    /** Append unless the key is logged, once the store is caught up with a clean file. */
    method AppendIfFresh(draft: Event, clock: Clock) returns (r: Outcome)
      requires chunk > 0
      modifies this`bytes, this`manifest, this`nodes
      ensures KeyedCall(r, bytes, State()) == AppendUnlessKeyed(codec, keys, old(bytes), old(State()), draft, clock)
    {
      if draft.key.Some? {
        var prior := FindPriorWithKey(KindOf(draft.body), draft.key.value);
        match prior {
          case CorruptLog => return Unreadable;
          case Found(ev) =>
            return if ev.nodeId == draft.nodeId && ev.body == draft.body then Replay(ev) else Conflict(ev);
          case Absent =>
        }
      }
      var seqNo, applied := AppendDraft(draft, clock);
      return if seqNo.Some? then Appended(seqNo.value) else Invalid;
    }

    /** Append under an optional key; a key already in the log replays its event. */
    method AppendAndApplyEvent(clock: Clock, nodeId: Option<NodeId>, key: Option<string>, body: Body)
      returns (r: Outcome)
      requires chunk > 0
      modifies this`bytes, this`manifest, this`nodes
      ensures KeyedCall(r, bytes, State()) ==
              RawKeyedAppend(codec, keys, old(bytes), old(State()), Draft(id, nodeId, key, body), clock)
      ensures old(Valid()) ==>
                && Valid() && !r.Conflict?
                && KeyedReply(r, old(Log()), CatchUp(old(Log()), old(State())), Log(), State(),
                   Event(|old(Log())| + 1, clock(|old(Log())| + 1), id, nodeId, key, body))
    {
      var draft := Draft(id, nodeId, key, body);
      if Valid() { RawKeyedIsReply(codec, keys, bytes, State(), draft, clock); }
      var ok := ReplayUnappliedUnlocked();
      if !ok { return Unreadable; }
      r := AppendIfFresh(draft, clock);
      r := Unquestioned(r);
    }

    /** Number the event, build its payload, and append unless the key is logged. */
    method BuildIfFresh(nodeId: Option<NodeId>, key: string, build: nat -> Option<Body>, clock: Clock)
      returns (r: Outcome)
      requires chunk > 0
      modifies this`bytes, this`manifest, this`nodes
      ensures KeyedCall(r, bytes, State()) ==
              BuildAndAppend(codec, keys, old(bytes), old(State()), nodeId, key, build, clock)
    {
      var last := RecoverLastSeq(codec, bytes, chunk);
      if last.None? { return Unreadable; }
      var body: Option<Body> := build(last.value + 1);
      if body.None? { return Unbuilt; }
      r := AppendIfFresh(Draft(id, nodeId, Some(key), body.value), clock);
    }

    /** Append under a mandatory key, telling a true retry from a reused key. The payload is built
        from the number the event would get. */
    method AppendAndApplyIdempotent(clock: Clock, nodeId: Option<NodeId>, key: string, build: nat -> Option<Body>)
      returns (r: Outcome)
      requires chunk > 0
      modifies this`bytes, this`manifest, this`nodes
      ensures KeyedCall(r, bytes, State()) ==
              RawIdempotent(codec, keys, old(bytes), old(State()), nodeId, key, build, clock)
      ensures key == "" ==> r == Invalid && bytes == old(bytes) && State() == old(State())
      ensures old(Valid()) && key != "" ==>
                && Valid()
                && var s, body := CatchUp(old(Log()), old(State())), build(|old(Log())| + 1);
                   if body.None? then r == Unbuilt && Log() == old(Log()) && State() == s
                   else
                     && ToldApart(r, nodeId, body.value)
                     && KeyedReply(r, old(Log()), s, Log(), State(),
                        Event(|old(Log())| + 1, clock(|old(Log())| + 1), id, nodeId, Some(key), body.value))
    {
      if key == "" { return Invalid; }
      if Valid() { RawIdempotentIsReply(codec, keys, bytes, State(), nodeId, key, build, clock); }
      var ok := ReplayUnappliedUnlocked();
      if !ok { return Unreadable; }
      r := BuildIfFresh(nodeId, key, build, clock);
    }
  }
}

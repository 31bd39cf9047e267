/** The protocol down to the bytes: every cut of a lock hold, between any two bytes of the log
    write as well as between any two projection writes, refines the event-level protocol. */
module ByteDisk {
  import opened Prelude
  import opened Schema
  import opened Reducer
  import opened ReducerLaws
  import opened Recovery
  import opened CrashSafety
  import opened CrashAgreement
  import opened SourceErasure
  import opened CrashInvariants
  import opened CleanHistory
  import opened LogFold
  import opened EventFile
  import opened RunStore

  datatype Raw = Raw(bytes: Bytes, st: Store)

  function Abstract(c: Codec<Event>, r: Raw): Disk { Disk(Readable(c, r.bytes), r.st) }

  /** The number an appender gives its event: one more than the backward scan finds. */
  ghost predicate NumberedNext(c: Codec<Event>, f: Bytes, ev: Event) {
    LastSeqBack(c, SplitLines(f).lines) == Some(ev.seqNo - 1) && ev.seqNo > 0
  }

  /** The event passed the gate: numbered after the caught-up log, and planned. */
  ghost predicate Gated(c: Codec<Event>, r: Raw, ev: Event) {
    && NumberedNext(c, Truncated(r.bytes), ev) && ev.runId == r.st.run
    && PlanEvent(Readable(c, r.bytes), CatchUp(Readable(c, r.bytes), r.st), ev).Accepted?
  }

  function Line(c: Codec<Event>, ev: Event): Bytes { c.render(ev) + [NL] }

  /** Cut before or inside catch-up, with the tail already truncated or not. */
  ghost predicate EarlyCut(w: LeaveOut, c: Codec<Event>, r: Raw, q: Raw) {
    && (q.bytes == r.bytes || q.bytes == Truncated(r.bytes))
    && var e := Disk(Readable(c, r.bytes), q.st);
       || q.st == r.st
       || q.st == CatchUp(Readable(c, r.bytes), r.st)
       || (exists i, k :: ReplayCut(w, Abstract(c, r), e, i, k))
       || (exists k :: RefoldCut(w, Abstract(c, r), e, k))
  }

  /** Cut inside the log write: some bytes of the line, no projection write of the event. */
  ghost predicate TornWrite(c: Codec<Event>, r: Raw, q: Raw, ev: Event, n: nat) {
    && Gated(c, r, ev) && n < |Line(c, ev)|
    && q == Raw(Truncated(r.bytes) + Line(c, ev)[..n], CatchUp(Readable(c, r.bytes), r.st))
  }

  /** The line is durable; the projection writes were cut after `k`, or completed. */
  ghost predicate Logged(w: LeaveOut, c: Codec<Event>, r: Raw, q: Raw, ev: Event, k: nat) {
    && Gated(c, r, ev) && q.bytes == Truncated(r.bytes) + Line(c, ev)
    && var log, s := Readable(c, r.bytes), CatchUp(Readable(c, r.bytes), r.st);
       q.st == Step(log, s, ev) || (!LeftOut(w, s, ev, k) && q.st == Cut(log, s, ev, k))
  }

  /** A lock hold cut at any byte of the log write or after any projection write, but for the
      crashes left out. */
  ghost predicate RawHold(w: LeaveOut, c: Codec<Event>, r: Raw, q: Raw) {
    || EarlyCut(w, c, r, q)
    || (exists ev, n :: TornWrite(c, r, q, ev, n))
    || (exists ev, k :: Logged(w, c, r, q, ev, k))
  }

  lemma TruncatedReads(c: Codec<Event>, f: Bytes)
    ensures ReadAll(c, Truncated(f)) == ReadAll(c, f)
  {
    TruncationKeepsLines(f);
  }

  /** The scanned number is the readable log's length plus one. */
  lemma GatedAdmits(c: Codec<Event>, r: Raw, ev: Event)
    requires EventCodec(c) && GoodLog(c, r.st.run, r.bytes) && Gated(c, r, ev)
    ensures Admits(Abstract(c, r), ev)
  {
    TruncatedReads(c, r.bytes);
    LastSeqIsLength(c, r.st.run, Truncated(r.bytes));
  }

  /** Any prefix of the written line reads as the old events, or those and the new one. */
  lemma PrefixReads(c: Codec<Event>, f: Bytes, ev: Event, n: nat)
    requires EventCodec(c) && ReadAll(c, f).Some? && n <= |Line(c, ev)|
    ensures ReadAll(c, Truncated(f) + Line(c, ev)[..n]) ==
            Some(if n == |Line(c, ev)| then ReadAll(c, f).value + [ev] else ReadAll(c, f).value)
  {
    AppendIsAtomic(c, f, ev, n);
    assert ReadAll(c, f).value + [] == ReadAll(c, f).value;
  }

  lemma GoodAppend(c: Codec<Event>, run: RunId, f: Bytes, g: Bytes, ev: Event)
    requires GoodLog(c, run, f) && ReadAll(c, g) == Some(ReadAll(c, f).value + [ev])
    requires ev.seqNo == |ReadAll(c, f).value| + 1 && ev.runId == run
    ensures GoodLog(c, run, g)
  {}

  /** One byte-level lock hold is one event-level lock hold, and keeps the log readable and
      numbered 1 to n. */
  lemma RawRefines(w: LeaveOut, c: Codec<Event>, r: Raw, q: Raw)
    requires EventCodec(c) && GoodLog(c, r.st.run, r.bytes) && RawHold(w, c, r, q)
    ensures GoodLog(c, r.st.run, q.bytes) && Hold(w, Abstract(c, r), Abstract(c, q))
  {
    TruncatedReads(c, r.bytes);
    if ev, n :| TornWrite(c, r, q, ev, n) {
      PrefixReads(c, r.bytes, ev, n);
    } else if ev, k :| Logged(w, c, r, q, ev, k) {
      LoggedRefines(w, c, r, q, ev, k);
    }
  }

  lemma LoggedRefines(w: LeaveOut, c: Codec<Event>, r: Raw, q: Raw, ev: Event, k: nat)
    requires EventCodec(c) && GoodLog(c, r.st.run, r.bytes) && Logged(w, c, r, q, ev, k)
    ensures GoodLog(c, r.st.run, q.bytes) && Hold(w, Abstract(c, r), Abstract(c, q))
  {
    GatedAdmits(c, r, ev);
    var line := Line(c, ev);
    assert line[..|line|] == line;
    PrefixReads(c, r.bytes, ev, |line|);
    GoodAppend(c, r.st.run, r.bytes, q.bytes, ev);
    if q.st == Step(Readable(c, r.bytes), CatchUp(Readable(c, r.bytes), r.st), ev) {
      assert FullAppend(Abstract(c, r), Abstract(c, q), ev);
    } else {
      assert AppendCut(w, Abstract(c, r), Abstract(c, q), ev, k);
    }
  }

  ghost predicate RawHistory(w: LeaveOut, c: Codec<Event>, h: seq<Raw>) {
    forall i :: 0 <= i < |h| - 1 ==> RawHold(w, c, h[i], h[i + 1])
  }

  /** What the bytes say, disk by disk. */
  ghost function Disks(c: Codec<Event>, h: seq<Raw>): (ds: seq<Disk>)
    ensures |ds| == |h| && forall i :: 0 <= i < |h| ==> ds[i] == Abstract(c, h[i])
  {
    seq(|h|, i requires 0 <= i < |h| => Abstract(c, h[i]))
  }

  lemma {:induction false} RawHistoryKeeps(w: LeaveOut, c: Codec<Event>, h: seq<Raw>, i: nat)
    requires EventCodec(c) && RawHistory(w, c, h) && i < |h| && GoodLog(c, h[0].st.run, h[0].bytes)
    ensures GoodLog(c, h[0].st.run, h[i].bytes) && h[i].st.run == h[0].st.run
  {
    if i > 0 {
      RawHistoryKeeps(w, c, h, i - 1);
      var j := i - 1;
      assert RawHold(w, c, h[j], h[j + 1]);
      RawRefines(w, c, h[j], h[j + 1]);
      HoldKeepsRun(w, Abstract(c, h[j]), Abstract(c, h[j + 1]));
    }
  }

  /** A whole byte-level history is an event-level history of what the bytes say. */
  lemma RawHistoryRefines(w: LeaveOut, c: Codec<Event>, h: seq<Raw>)
    requires EventCodec(c) && RawHistory(w, c, h) && |h| > 0 && GoodLog(c, h[0].st.run, h[0].bytes)
    ensures History(w, Disks(c, h))
  {
    var ds := Disks(c, h);
    forall i | 0 <= i < |ds| - 1 ensures Hold(w, ds[i], ds[i + 1]) {
      RawHistoryKeeps(w, c, h, i);
      assert RawHold(w, c, h[i], h[i + 1]);
      RawRefines(w, c, h[i], h[i + 1]);
    }
  }

  /** Whatever the gate lets through, the reference fold accepts too. */
  lemma AdmissibleKeeps(d: Disk, e: Disk)
    requires DiskInv(d.log, d.st) && Hold(AllWindows, d, e) && Admissible(d.st.run, d.log)
    ensures Admissible(d.st.run, e.log)
  {
    HoldGrowth(AllWindows, d, e);
    if e.log != d.log {
      var ev := e.log[|d.log|];
      CatchUpSettles(d.log, d.st);
      FoldBounds(d.st.run, d.log);
      if !ev.body.AwaitingInput? { CutSame(d.log, CatchUp(d.log, d.st), Fold(d.st.run, d.log), ev, 0); }
      forall i | 0 <= i < |e.log|
        ensures e.log[i].body.AwaitingInput? || PlanEvent(e.log[..i], Fold(d.st.run, e.log[..i]), e.log[i]).Accepted?
      {
        if i < |d.log| {
          assert e.log[i] == d.log[i] && e.log[..i] == d.log[..i];
        } else {
          assert e.log[..i] == d.log;
        }
      }
    }
  }

  /** A freshly created run is a caught-up start. */
  lemma {:induction false} CreationStarts(run: RunId, ev: Event)
    requires ev.seqNo == 1 && ev.runId == run && ev.body.RunCreated? && ev.body.run.Some?
    ensures Settled([ev], Fold(run, [ev])) && Admissible(run, [ev]) && AnyDisk([ev], Fold(run, [ev]))
    ensures Sane([ev], Fold(run, [ev]))
    ensures Rested(Disk([ev], Fold(run, [ev]))) && Exact(Disk([ev], Fold(run, [ev])))
  {
    var log, empty := [ev], EmptyStore(run);
    assert log[..0] == [] && log[..1] == log;
    FoldUnfolds(run, log, 1);
    CommitOne(empty, PlanEvent([], empty, ev).ops[0]);
    FoldBounds(run, log);
    assert Applied(Fold(run, log)) == 1;
    forall i | 0 <= i < |log| ensures PlanEvent(log[..i], Fold(run, log[..i]), log[i]).Accepted? {
      assert log[..i] == [];
    }
    SettledIsAny(log, Fold(run, log));
    FoldIsSane(run, log);
    NothingToReplay(log, Fold(run, log), 1);
  }

  /** The joined theorem, for every crash. Start caught up; let any number of lock holds run,
      each cut at any byte of its log write or after any projection write whatever. Then the
      file reads strictly, its events are numbered exactly 1 to n, nothing once readable is
      lost, and catch-up gives a store whose node set, live/terminal split, terminal statuses
      and run status are those of the log and of its pure fold, with the node count right and
      the watermark never above the last sequence number. */
  lemma ByteCrashAgreement(c: Codec<Event>, h: seq<Raw>, i: nat)
    requires EventCodec(c) && RawHistory(Nothing, c, h) && i < |h| && GoodLog(c, h[0].st.run, h[0].bytes)
    requires AnyDisk(Readable(c, h[0].bytes), h[0].st)
    ensures ReadAll(c, h[i].bytes).Some?
    ensures var run, log := h[0].st.run, ReadAll(c, h[i].bytes).value;
            var s := CatchUp(log, h[i].st);
            && WellSeq(run, log) && Readable(c, h[0].bytes) <= log
            && Shows(log, s) && SameVerdicts(s, Fold(run, log)) && Applied(s) <= |log|
            && s.manifest.Some? && s.manifest.value.nodeCount == NodeCount(s.nodes)
  {
    RawHistoryKeeps(Nothing, c, h, i);
    RawHistoryRefines(Nothing, c, h);
    CrashAgreementHolds(Disks(c, h), i);
  }

  /** The joined theorem, in full: where no crash falls in a lossy window, catch-up makes the
      projections equal the pure fold of the readable log, open requests aside. */
  lemma ByteCrashRecovery(c: Codec<Event>, h: seq<Raw>, i: nat)
    requires EventCodec(c) && RawHistory(AllWindows, c, h) && i < |h| && GoodLog(c, h[0].st.run, h[0].bytes)
    requires Settled(Readable(c, h[0].bytes), h[0].st)
    ensures ReadAll(c, h[i].bytes).Some?
    ensures var run, log := h[0].st.run, ReadAll(c, h[i].bytes).value;
            var s := CatchUp(log, h[i].st);
            && WellSeq(run, log) && Readable(c, h[0].bytes) <= log
            && Same(s, Fold(run, log)) && Applied(s) <= |log|
            && s.manifest.Some? && s.manifest.value.nodeCount == NodeCount(s.nodes)
  {
    RawHistoryKeeps(AllWindows, c, h, i);
    RawHistoryRefines(AllWindows, c, h);
    CrashRecoveryRefinement(Disks(c, h), i);
  }

  /** And for a Taskfleet-owned run, the source branch aside, wherever no crash falls in the
      window of a retry without attempt. */
  lemma ByteTaskfleetRecovery(c: Codec<Event>, h: seq<Raw>, i: nat)
    requires EventCodec(c) && RawHistory(RetryWindow, c, h) && i < |h| && GoodLog(c, h[0].st.run, h[0].bytes)
    requires Settled(Readable(c, h[0].bytes), h[0].st) && Owned(h[0].st)
    ensures ReadAll(c, h[i].bytes).Some?
    ensures var run, log := h[0].st.run, ReadAll(c, h[i].bytes).value;
            var s := CatchUp(log, h[i].st);
            && WellSeq(run, log) && Readable(c, h[0].bytes) <= log
            && SameButSource(s, Fold(run, log)) && Applied(s) <= |log|
            && s.manifest.Some? && s.manifest.value.nodeCount == NodeCount(s.nodes)
  {
    RawHistoryKeeps(RetryWindow, c, h, i);
    RawHistoryRefines(RetryWindow, c, h);
    TaskfleetRecovery(Disks(c, h), i);
  }

  /** The safety invariants, for every crash at any byte or write: at every disk and after its
      catch-up the store is in order and the readable log says every fact in it, and any later
      store descends from any earlier one. */
  lemma ByteCrashInvariants(c: Codec<Event>, h: seq<Raw>, i: nat, j: nat)
    requires EventCodec(c) && RawHistory(Nothing, c, h) && i <= j < |h| && GoodLog(c, h[0].st.run, h[0].bytes)
    requires Sane(Readable(c, h[0].bytes), h[0].st)
    ensures ReadAll(c, h[j].bytes).Some?
    ensures var log, st := ReadAll(c, h[j].bytes).value, h[j].st;
            var s := CatchUp(log, st);
            && Sane(log, st) && OnePending(st) && Descends(log, h[i].st, st)
            && Sane(log, s) && OnePending(s) && Descends(log, h[i].st, s)
  {
    RawHistoryKeeps(Nothing, c, h, j);
    RawHistoryRefines(Nothing, c, h);
    CrashInvariantsHold(Disks(c, h), i, j);
  }
}

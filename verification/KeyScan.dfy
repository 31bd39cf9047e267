/** The scan for an idempotency key, over any file whatever. */
module KeyScan {
  import opened Prelude
  import opened Schema
  import opened EventFile
  import opened Keyed

  /** The two readings the scan makes of a line: the kind and key alone, and, once they match, the
      logged event. Both ask less of a line than the record syntax does. */
  datatype KeyReader = KeyReader(probe: Bytes -> Option<(Kind, Option<string>)>, full: Bytes -> Option<Event>)

  /** On a valid record they read what the record says. */
  ghost predicate Skims(c: Codec<Event>, k: KeyReader) {
    forall b :: c.parse(b).Some? ==>
      && k.probe(b) == Some((KindOf(c.parse(b).value.body), c.parse(b).value.key))
      && k.full(b) == c.parse(b)
  }

  datatype Lookup = Found(ev: Event) | Absent | CorruptLog

  /** One complete line: an empty one is skipped, one without kind and key is corrupt, one that
      matches must be an event. */
  function LookUpLine(k: KeyReader, line: Bytes, kind: Kind, key: string): Lookup {
    if Content(line) == [] then Absent
    else match k.probe(Content(line))
      case None => CorruptLog
      case Some(seen) =>
        if seen != (kind, Some(key)) then Absent
        else match k.full(Content(line))
          case None => CorruptLog
          case Some(ev) => Found(ev)
  }

  /** Line by line: stop at the first match, or at the first corrupt line before it. */
  function LookUp(k: KeyReader, lines: seq<Bytes>, kind: Kind, key: string): Lookup {
    if lines == [] then Absent
    else
      var init := LookUp(k, lines[..|lines| - 1], kind, key);
      if !init.Absent? then init else LookUpLine(k, lines[|lines| - 1], kind, key)
  }

  lemma {:induction false} LookUpSnoc(k: KeyReader, lines: seq<Bytes>, line: Bytes, kind: Kind, key: string)
    ensures LookUp(k, lines + [line], kind, key) ==
            var init := LookUp(k, lines, kind, key);
            if !init.Absent? then init else LookUpLine(k, line, kind, key)
  {
    assert (lines + [line])[..|lines|] == lines;
  }

  /** A line in order is found exactly when its event carries the kind and key. */
  lemma LineFound(c: Codec<Event>, k: KeyReader, line: Bytes, kind: Kind, key: string)
    requires Skims(c, k) && !CorruptLine(c, line)
    ensures LookUpLine(k, line, kind, key) ==
            if Content(line) != [] && Carries(c.parse(Content(line)).value, kind, key)
            then Found(c.parse(Content(line)).value) else Absent
  {}

  /** On a readable log the scan finds the first carrier, or tells that there is none. */
  lemma {:induction false} LookUpIsFirst(c: Codec<Event>, k: KeyReader, lines: seq<Bytes>, kind: Kind, key: string)
    requires Skims(c, k) && Strict(c, lines).Some?
    ensures var first := FirstKeyed(Strict(c, lines).value, kind, key);
            LookUp(k, lines, kind, key) == if first.Some? then Found(first.value) else Absent
  {
    if lines != [] {
      var init, line := lines[..|lines| - 1], lines[|lines| - 1];
      assert lines == init + [line];
      ReadersSnoc(c, init, line);
      LookUpIsFirst(c, k, init, kind, key);
      LineFound(c, k, line, kind, key);
      if Content(line) != [] { FirstSnoc(Strict(c, init).value, c.parse(Content(line)).value, kind, key); }
    }
  }

  /** The line ends the scan with this answer: it is corrupt, or it matches and reads as an event. */
  predicate Stops(k: KeyReader, line: Bytes, kind: Kind, key: string, r: Lookup) {
    && Content(line) != []
    && match r
       case CorruptLog =>
         || k.probe(Content(line)).None?
         || (k.probe(Content(line)) == Some((kind, Some(key))) && k.full(Content(line)).None?)
       case Found(ev) => k.probe(Content(line)) == Some((kind, Some(key))) && k.full(Content(line)) == Some(ev)
       case Absent => false
  }

  /** The line is passed over: it is empty, or its kind and key are others. */
  predicate Passed(k: KeyReader, line: Bytes, kind: Kind, key: string) {
    Content(line) == [] || (k.probe(Content(line)).Some? && k.probe(Content(line)) != Some((kind, Some(key))))
  }

  /** Line `i` is the first that ends the scan. */
  ghost predicate StopsAt(k: KeyReader, lines: seq<Bytes>, i: nat, kind: Kind, key: string, r: Lookup) {
    && i < |lines| && Stops(k, lines[i], kind, key, r)
    && forall j :: 0 <= j < i ==> Passed(k, lines[j], kind, key)
  }

  /** The scan ends with this answer. */
  ghost predicate ScanStops(k: KeyReader, lines: seq<Bytes>, kind: Kind, key: string, r: Lookup) {
    exists i: nat :: StopsAt(k, lines, i, kind, key, r)
  }

  ghost predicate AllPassed(k: KeyReader, lines: seq<Bytes>, kind: Kind, key: string) {
    forall j :: 0 <= j < |lines| ==> Passed(k, lines[j], kind, key)
  }

  /** Over any lines whatever: the answer is that of the first line that is corrupt or matches, and
      absence if there is none. */
  lemma {:induction false} LookUpExactly(k: KeyReader, lines: seq<Bytes>, kind: Kind, key: string)
    ensures var r := LookUp(k, lines, kind, key);
            if r.Absent? then AllPassed(k, lines, kind, key) else ScanStops(k, lines, kind, key, r)
  {
    if lines != [] {
      var init, line := lines[..|lines| - 1], lines[|lines| - 1];
      var r := LookUp(k, init, kind, key);
      LookUpExactly(k, init, kind, key);
      assert lines == init + [line];
      if r.Absent? {
        LineStops(k, line, kind, key);
        StopsNext(k, init, line, kind, key, LookUpLine(k, line, kind, key));
      } else {
        var i: nat :| StopsAt(k, init, i, kind, key, r);
        StopsStill(k, init, line, i, kind, key, r);
      }
    }
  }

  lemma StopsStill(k: KeyReader, init: seq<Bytes>, line: Bytes, i: nat, kind: Kind, key: string, r: Lookup)
    requires StopsAt(k, init, i, kind, key, r)
    ensures StopsAt(k, init + [line], i, kind, key, r)
  {}

  lemma StopsNext(k: KeyReader, init: seq<Bytes>, line: Bytes, kind: Kind, key: string, r: Lookup)
    requires AllPassed(k, init, kind, key)
    ensures Passed(k, line, kind, key) ==> AllPassed(k, init + [line], kind, key)
    ensures Stops(k, line, kind, key, r) ==> StopsAt(k, init + [line], |init|, kind, key, r)
  {}

  lemma LineStops(k: KeyReader, line: Bytes, kind: Kind, key: string)
    ensures var r := LookUpLine(k, line, kind, key);
            if r.Absent? then Passed(k, line, kind, key) else Stops(k, line, kind, key, r)
  {}

  /** The first line that ends the scan ends it with one answer. */
  lemma OneStop(k: KeyReader, lines: seq<Bytes>, i: nat, j: nat, kind: Kind, key: string, r: Lookup, q: Lookup)
    requires StopsAt(k, lines, i, kind, key, r) && StopsAt(k, lines, j, kind, key, q)
    ensures i == j && r == q
  {
  }

  /** What the scan says of a prefix of the lines, unless it is absence, it says of all. */
  lemma {:induction false} LookUpStays(k: KeyReader, lines: seq<Bytes>, i: nat, kind: Kind, key: string)
    requires i <= |lines| && !LookUp(k, lines[..i], kind, key).Absent?
    ensures LookUp(k, lines, kind, key) == LookUp(k, lines[..i], kind, key)
    decreases |lines| - i
  {
    if i == |lines| {
      assert lines[..i] == lines;
    } else {
      assert lines[..i + 1] == lines[..i] + [lines[i]];
      LookUpSnoc(k, lines[..i], lines[i], kind, key);
      LookUpStays(k, lines, i + 1, kind, key);
    }
  }

  lemma {:induction false} LookUpOn(k: KeyReader, f: Bytes, i: nat, kind: Kind, key: string)
    requires i <= |f| && !LookUp(k, SplitLines(f[..i]).lines, kind, key).Absent?
    ensures LookUp(k, SplitLines(f).lines, kind, key) == LookUp(k, SplitLines(f[..i]).lines, kind, key)
  {
    LinesGrow(f, i);
    var a, b := SplitLines(f[..i]).lines, SplitLines(f).lines;
    assert b[..|a|] == a;
    LookUpStays(k, b, |a|, kind, key);
  }

  /** The scan so far: nothing found in the lines up to `i`. */
  ghost predicate ScannedFor(k: KeyReader, f: Bytes, i: nat, kind: Kind, key: string) {
    i <= |f| && SplitLines(f[..i]).tail == [] && LookUp(k, SplitLines(f[..i]).lines, kind, key).Absent?
  }

  lemma {:induction false} ScanNextLine(k: KeyReader, f: Bytes, i: nat, j: nat, kind: Kind, key: string)
    requires i <= j < |f| && ScannedFor(k, f, i, kind, key) && Clear(f, i, j) && f[j] == NL
    ensures var r := LookUpLine(k, f[i..j], kind, key);
            if r.Absent? then ScannedFor(k, f, j + 1, kind, key) else LookUp(k, SplitLines(f).lines, kind, key) == r
  {
    SplitNextLine(f, i, j);
    LookUpSnoc(k, SplitLines(f[..i]).lines, f[i..j], kind, key);
    if !LookUpLine(k, f[i..j], kind, key).Absent? { LookUpOn(k, f, j + 1, kind, key); }
  }

  /** Nothing but a torn tail is left. */
  lemma {:induction false} ScanEnds(k: KeyReader, f: Bytes, i: nat, kind: Kind, key: string)
    requires ScannedFor(k, f, i, kind, key) && Clear(f, i, |f|)
    ensures LookUp(k, SplitLines(f).lines, kind, key) == Absent
  {
    TornLines(f, i);
  }

  /** The streaming scan. */
  method ScanForKey(k: KeyReader, f: Bytes, kind: Kind, key: string) returns (r: Lookup)
    ensures r == LookUp(k, SplitLines(f).lines, kind, key)
  {
    var i := 0;
    while i < |f|
      invariant ScannedFor(k, f, i, kind, key)
      decreases |f| - i
    {
      var j := FindNewline(f, i);
      if j == |f| {
        ScanEnds(k, f, i, kind, key);
        return Absent;
      }
      ScanNextLine(k, f, i, j, kind, key);
      r := LookUpLine(k, f[i..j], kind, key);
      if !r.Absent? { return; }
      i := j + 1;
    }
    ScanEnds(k, f, i, kind, key);
    return Absent;
  }
}

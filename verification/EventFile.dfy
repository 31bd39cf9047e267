/** The event log as bytes: newline-terminated records, a possibly torn final line. */
module EventFile {
  import opened Prelude

  newtype byte = x: int | 0 <= x < 256

  type Bytes = seq<byte>

  const NL: byte := 10
  const CR: byte := 13

  predicate White(b: byte) { b in {9, 10, 12, 13, 32} }

  predicate AllWhite(s: Bytes) { forall i :: 0 <= i < |s| ==> White(s[i]) }

  /** Record syntax, left uninterpreted. `parseSeq` is the cheaper envelope parse used when
      only the sequence number is wanted. */
  datatype Codec<!E> = Codec(
    parse: Bytes -> Option<E>, render: E -> Bytes, seqOf: E -> nat, parseSeq: Bytes -> Option<nat>)

  /** What the record syntax promises: rendering is one line that parses back, white space is
      no record, and the envelope parse agrees wherever the full one succeeds, with or without
      a trailing carriage return. */
  ghost predicate Lawful<E(!new)>(c: Codec<E>) {
    && (forall e :: c.parse(c.render(e)) == Some(e))
    && (forall e :: OneLine(c.render(e)) && (c.render(e) != [] ==> c.render(e)[|c.render(e)| - 1] != CR))
    && (forall l :: AllWhite(l) ==> c.parse(l).None?)
    && (forall l :: c.parse(l).Some? ==> c.parseSeq(l) == Some(c.seqOf(c.parse(l).value)))
    && (forall l :: c.parse(l).Some? ==> c.parseSeq(l + [CR]) == Some(c.seqOf(c.parse(l).value)))
  }

  // ---- lines ----

  /** Complete lines without their newline, and the torn rest. */
  datatype Split = Split(lines: seq<Bytes>, tail: Bytes)

  function SplitLines(f: Bytes): Split {
    if f == [] then Split([], [])
    else
      var s := SplitLines(f[..|f| - 1]);
      if f[|f| - 1] == NL then Split(s.lines + [s.tail], []) else Split(s.lines, s.tail + [f[|f| - 1]])
  }

  function Join(lines: seq<Bytes>): Bytes {
    if lines == [] then [] else Join(lines[..|lines| - 1]) + lines[|lines| - 1] + [NL]
  }

  /** No newline between two offsets. */
  predicate Clear(f: Bytes, i: nat, j: nat)
    requires i <= j <= |f|
  {
    forall k :: i <= k < j ==> f[k] != NL
  }

  /** A stretch of bytes without a newline. */
  predicate OneLine(s: Bytes) { Clear(s, 0, |s|) }

  lemma {:induction false} JoinSnoc(lines: seq<Bytes>, line: Bytes)
    ensures Join(lines + [line]) == Join(lines) + (line + [NL])
  {
    assert (lines + [line])[..|lines|] == lines;
    assert Join(lines) + line + [NL] == Join(lines) + (line + [NL]);
  }

  lemma {:induction false} SplitSnoc(f: Bytes, b: byte)
    ensures var s := SplitLines(f);
            SplitLines(f + [b]) == if b == NL then Split(s.lines + [s.tail], []) else Split(s.lines, s.tail + [b])
  {
    assert (f + [b])[..|f|] == f;
  }

  /** Lines and tail are the file again, and hold no newline. */
  lemma {:induction false} SplitJoins(f: Bytes)
    ensures Join(SplitLines(f).lines) + SplitLines(f).tail == f
    ensures OneLines(SplitLines(f))
  {
    if f != [] {
      SplitJoins(f[..|f| - 1]);
      SplitJoinsNext(f, SplitLines(f[..|f| - 1]));
    }
  }

  lemma {:induction false} SplitJoinsNext(f: Bytes, s: Split)
    requires f != [] && s == SplitLines(f[..|f| - 1])
    requires Join(s.lines) + s.tail == f[..|f| - 1] && OneLines(s)
    ensures Join(SplitLines(f).lines) + SplitLines(f).tail == f && OneLines(SplitLines(f))
  {
    var b := f[|f| - 1];
    LastByte(f);
    JoinedSnoc(s.lines, s.tail, b);
    OneMore(s, b);
  }

  lemma LastByte(f: Bytes)
    requires f != []
    ensures f[..|f| - 1] + [f[|f| - 1]] == f
  {}

  /** Neither a line nor the tail holds a newline. */
  ghost predicate OneLines(s: Split) {
    OneLine(s.tail) && forall x :: x in s.lines ==> OneLine(x)
  }

  lemma OneMore(s: Split, b: byte)
    requires OneLines(s)
    ensures OneLines(if b == NL then Split(s.lines + [s.tail], []) else Split(s.lines, s.tail + [b]))
  {}

  /** One byte more, on the joined side. */
  lemma {:induction false} JoinedSnoc(lines: seq<Bytes>, tail: Bytes, b: byte)
    ensures (Join(lines) + tail) + [b] == if b == NL then Join(lines + [tail]) + [] else Join(lines) + (tail + [b])
  {
    Regroup(Join(lines), tail, [b]);
    if b == NL {
      JoinSnoc(lines, tail);
      Unit(Join(lines + [tail]));
    }
  }

  lemma Regroup(a: Bytes, b: Bytes, rest: Bytes)
    ensures (a + b) + rest == a + (b + rest)
  {}

  lemma Unit(a: Bytes)
    ensures a + [] == a && [] + a == a
  {}

  /** Slices that a scan puts together again. */
  lemma Slices(f: Bytes, i: nat, j: nat)
    requires i <= j <= |f|
    ensures f[..i] + f[i..j] == f[..j] && f[..i] + f[i..] == f && f[..|f|] == f && f[i..|f|] == f[i..]
    ensures j < |f| ==> f[i..j] + [f[j]] == f[i..j + 1] && f[..j] + [f[j]] == f[..j + 1]
    ensures j < |f| ==> f[..i] + (f[i..j] + [f[j]]) == f[..j + 1]
  {}

  /** A stretch without newlines only grows the tail. */
  lemma {:induction false} SplitTail(g: Bytes, run: Bytes)
    requires OneLine(run)
    ensures SplitLines(g + run) == Split(SplitLines(g).lines, SplitLines(g).tail + run)
  {
    if run == [] {
      Unit(g);
      Unit(SplitLines(g).tail);
    } else {
      var init, b := run[..|run| - 1], run[|run| - 1];
      assert run == init + [b];
      SplitTail(g, init);
      Regroup(g, init, [b]);
      SplitSnoc(g + init, b);
      Regroup(SplitLines(g).tail, init, [b]);
    }
  }

  /** One more line after a line start. */
  lemma {:induction false} SplitLine(g: Bytes, line: Bytes)
    requires SplitLines(g).tail == [] && OneLine(line)
    ensures SplitLines(g + (line + [NL])) == Split(SplitLines(g).lines + [line], [])
  {
    SplitTail(g, line);
    Unit(line);
    Regroup(g, line, [NL]);
    SplitSnoc(g + line, NL);
  }

  /** The same two facts by offsets into one file. */
  lemma SplitRun(f: Bytes, i: nat, j: nat)
    requires i <= j <= |f| && Clear(f, i, j)
    ensures SplitLines(f[..j]) == Split(SplitLines(f[..i]).lines, SplitLines(f[..i]).tail + f[i..j])
  {
    SplitTail(f[..i], f[i..j]);
    Slices(f, i, j);
  }

  lemma SplitNextLine(f: Bytes, i: nat, j: nat)
    requires i <= j < |f| && Clear(f, i, j) && f[j] == NL && SplitLines(f[..i]).tail == []
    ensures SplitLines(f[..j + 1]) == Split(SplitLines(f[..i]).lines + [f[i..j]], [])
  {
    SplitLine(f[..i], f[i..j]);
    Slices(f, i, j);
  }

  lemma SplitAtStart(f: Bytes, i: nat)
    requires i <= |f| && (i == 0 || f[i - 1] == NL)
    ensures SplitLines(f[..i]).tail == []
  {
    if i > 0 {
      Slices(f, 0, i - 1);
      SplitSnoc(f[..i - 1], NL);
    }
  }

  // ---- readers ----

  /** A line without the carriage return that may precede its newline. */
  function Content(line: Bytes): Bytes {
    if line != [] && line[|line| - 1] == CR then line[..|line| - 1] else line
  }

  /** A line's content is the line without one trailing carriage return. */
  lemma ContentSays(line: Bytes)
    ensures Content(line + [CR]) == line
    ensures (line == [] || line[|line| - 1] != CR) ==> Content(line) == line
  {
    assert (line + [CR])[..|line|] == line;
  }

  predicate CorruptLine<E>(c: Codec<E>, line: Bytes) {
    Content(line) != [] && c.parse(Content(line)).None?
  }

  /** The strict reader: `None` on any complete line that is neither blank nor a record. */
  function Strict<E>(c: Codec<E>, lines: seq<Bytes>): Option<seq<E>> {
    if lines == [] then Some([])
    else
      var init, line := Strict(c, lines[..|lines| - 1]), lines[|lines| - 1];
      if init.None? || CorruptLine(c, line) then None
      else if Content(line) == [] then init
      else Some(init.value + [c.parse(Content(line)).value])
  }

  /** The tolerant reader used by catch-up: corrupt lines are skipped. */
  function Tolerant<E>(c: Codec<E>, lines: seq<Bytes>): seq<E> {
    if lines == [] then []
    else
      var init, line := Tolerant(c, lines[..|lines| - 1]), lines[|lines| - 1];
      if Content(line) == [] || CorruptLine(c, line) then init
      else init + [c.parse(Content(line)).value]
  }

  lemma {:induction false} ReadersSnoc<E>(c: Codec<E>, lines: seq<Bytes>, line: Bytes)
    ensures Strict(c, lines + [line]) ==
            if Strict(c, lines).None? || CorruptLine(c, line) then None
            else if Content(line) == [] then Strict(c, lines)
            else Some(Strict(c, lines).value + [c.parse(Content(line)).value])
    ensures Tolerant(c, lines + [line]) ==
            if Content(line) == [] || CorruptLine(c, line) then Tolerant(c, lines)
            else Tolerant(c, lines) + [c.parse(Content(line)).value]
  {
    assert (lines + [line])[..|lines|] == lines;
  }

  function ReadAll<E>(c: Codec<E>, f: Bytes): Option<seq<E>> { Strict(c, SplitLines(f).lines) }

  function ReadTolerant<E>(c: Codec<E>, f: Bytes): seq<E> { Tolerant(c, SplitLines(f).lines) }

  /** The strict reading where there is one. */
  function Readable<E>(c: Codec<E>, f: Bytes): seq<E> {
    if ReadAll(c, f).Some? then ReadAll(c, f).value else []
  }

  lemma {:induction false} StrictIsTolerant<E>(c: Codec<E>, lines: seq<Bytes>)
    ensures Strict(c, lines).Some? ==> Strict(c, lines).value == Tolerant(c, lines)
    ensures Strict(c, lines).Some? <==> forall i :: 0 <= i < |lines| ==> !CorruptLine(c, lines[i])
  {
    if lines != [] {
      StrictIsTolerant(c, lines[..|lines| - 1]);
      assert lines == lines[..|lines| - 1] + [lines[|lines| - 1]];
    }
  }

  /** The backward scan over complete lines, newest first; `None` is a corrupt last record. */
  function LastSeqBack<E>(c: Codec<E>, lines: seq<Bytes>): Option<nat> {
    if lines == [] then Some(0)
    else if AllWhite(lines[|lines| - 1]) then LastSeqBack(c, lines[..|lines| - 1])
    else c.parseSeq(lines[|lines| - 1])
  }

  /** Line `i` is the last that is not blank. */
  ghost predicate LastSolid(lines: seq<Bytes>, i: nat) {
    i < |lines| && !AllWhite(lines[i]) && forall j :: i < j < |lines| ==> AllWhite(lines[j])
  }

  /** The scan answers with the envelope of the last line that is not blank, and with zero if every
      line is. */
  lemma {:induction false} BackReadsLastSolid<E>(c: Codec<E>, lines: seq<Bytes>, i: nat)
    ensures LastSolid(lines, i) ==> LastSeqBack(c, lines) == c.parseSeq(lines[i])
    ensures (forall j :: 0 <= j < |lines| ==> AllWhite(lines[j])) ==> LastSeqBack(c, lines) == Some(0)
  {
    if lines != [] && AllWhite(lines[|lines| - 1]) {
      var init := lines[..|lines| - 1];
      BackReadsLastSolid(c, init, i);
      assert forall j :: 0 <= j < |init| ==> init[j] == lines[j];
    }
  }

  /** Wherever the strict forward reader accepts, the backward scan finds the sequence number
      of its last event, or zero. */
  lemma {:induction false} BackwardRefinesForward<E(!new)>(c: Codec<E>, lines: seq<Bytes>)
    requires Lawful(c) && Strict(c, lines).Some?
    ensures var es := Strict(c, lines).value;
            LastSeqBack(c, lines) == Some(if es == [] then 0 else c.seqOf(es[|es| - 1]))
  {
    if lines != [] {
      var init, line := lines[..|lines| - 1], lines[|lines| - 1];
      assert lines == init + [line];
      ReadersSnoc(c, init, line);
      BackSnoc(c, init, line);
      BackwardRefinesForward(c, init);
      if Content(line) == [] { assert AllWhite(line); } else { RecordLine(c, line); }
    }
  }

  lemma {:induction false} BackSnoc<E>(c: Codec<E>, lines: seq<Bytes>, line: Bytes)
    ensures LastSeqBack(c, lines + [line]) == if AllWhite(line) then LastSeqBack(c, lines) else c.parseSeq(line)
  {
    assert (lines + [line])[..|lines|] == lines;
  }

  /** A line that holds a record is not white, and its envelope gives the record's number. */
  lemma RecordLine<E(!new)>(c: Codec<E>, line: Bytes)
    requires Lawful(c) && c.parse(Content(line)).Some?
    ensures !AllWhite(line) && c.parseSeq(line) == Some(c.seqOf(c.parse(Content(line)).value))
  {
    var content := Content(line);
    assert line == content || line == content + [CR];
    assert AllWhite(line) ==> AllWhite(content);
  }

  /** One line of a single space. */
  const SPACE_LINE: Bytes := [32, NL]

  lemma SpaceLineSplits()
    ensures SplitLines(SPACE_LINE).lines == [[32]]
  {
    var g: Bytes := [32];
    assert SPACE_LINE[..1] == g && SPACE_LINE[1] == NL && g[..0] == [];
    var none: Bytes := [];
    assert SplitLines(none) == Split([], []);
    assert none + g == g;
    assert SplitLines(g) == Split([], g);
  }

  /** The converse fails: a line of spaces stops the strict reader and not the scan. */
  lemma {:induction false} BackwardAcceptsMore<E(!new)>(c: Codec<E>)
    requires Lawful(c)
    ensures LastSeqBack(c, SplitLines(SPACE_LINE).lines) == Some(0) && ReadAll(c, SPACE_LINE).None?
  {
    SpaceLineSplits();
    var line: Bytes := [32];
    assert AllWhite(line);
    var lines := [line];
    assert lines[..0] == [];
    assert CorruptLine(c, line);
  }

  // ---- exactly where the two readers part ----

  /** What a reader does with one complete line. */
  datatype Treatment = Skip | Refuse | Record(seqNo: nat)

  function ScanTreats<E>(c: Codec<E>, line: Bytes): Treatment {
    if AllWhite(line) then Skip
    else match c.parseSeq(line)
      case None => Refuse
      case Some(n) => Record(n)
  }

  function ReaderTreats<E>(c: Codec<E>, line: Bytes): Treatment {
    if Content(line) == [] then Skip
    else match c.parse(Content(line))
      case None => Refuse
      case Some(e) => Record(c.seqOf(e))
  }

  /** Blank lines are empty, and the envelope is valid exactly when the whole record is. */
  predicate Alike<E>(c: Codec<E>, line: Bytes) {
    && (Content(line) == [] || !AllWhite(line))
    && (Content(line) != [] ==> (c.parseSeq(line).Some? <==> c.parse(Content(line)).Some?))
  }

  /** The backward scan and the strict reader treat a line alike exactly under that condition. */
  lemma TreatedAlike<E(!new)>(c: Codec<E>, line: Bytes)
    requires Lawful(c)
    ensures ScanTreats(c, line) == ReaderTreats(c, line) <==> Alike(c, line)
  {
    if Content(line) == [] { assert AllWhite(line); }
    else if c.parse(Content(line)).Some? { RecordLine(c, line); }
  }

  /** The number of the last event read, zero if none. */
  function LastNumber<E>(c: Codec<E>, es: seq<E>): nat {
    if es == [] then 0 else c.seqOf(es[|es| - 1])
  }

  /** The last line of a file whose other lines the strict reader takes: the scan accepts it with
      the strict reader's last number, or refuses it with the strict reader, exactly under that
      condition. */
  lemma {:induction false} LastLineAlike<E(!new)>(c: Codec<E>, init: seq<Bytes>, line: Bytes)
    requires Lawful(c) && Strict(c, init).Some?
    ensures var read := Strict(c, init + [line]);
            LastSeqBack(c, init + [line]) == (if read.Some? then Some(LastNumber(c, read.value)) else None) <==>
                Alike(c, line)
  {
    BackSnoc(c, init, line);
    ReadersSnoc(c, init, line);
    BackwardRefinesForward(c, init);
    TreatedAlike(c, line);
  }

  /** A record syntax: `n + 1` strokes are record `n`; the envelope parse ignores a field after
      a semicolon that the full parse holds to its type. */
  function Strokes(n: nat): Bytes { seq(n + 1, _ => 49) }

  function ParseStrokes(l: Bytes): Option<nat> {
    if l != [] && forall i :: 0 <= i < |l| ==> l[i] == 49 then Some(|l| - 1) else None
  }

  function ParseEnvelope(l: Bytes): Option<nat> {
    if ParseStrokes(l).Some? then ParseStrokes(l)
    else if l != [] && l[|l| - 1] == CR then ParseStrokes(l[..|l| - 1])
    else if |l| > 2 && l[|l| - 2..] == [59, 53] then ParseStrokes(l[..|l| - 2])
    else None
  }

  function Itself(n: nat): nat { n }

  const STROKES: Codec<nat> := Codec(ParseStrokes, Strokes, Itself, ParseEnvelope)

  /** A stroke with an ill-typed field after it. */
  const ILL_TYPED_LINE: Bytes := [49, 59, 53]

  lemma StrokesParse(n: nat)
    ensures ParseStrokes(Strokes(n)) == Some(n) && OneLine(Strokes(n)) && Strokes(n)[|Strokes(n)| - 1] != CR
  {}

  lemma WhiteIsNoStroke(l: Bytes)
    requires AllWhite(l)
    ensures ParseStrokes(l).None?
  {
    if l != [] { assert White(l[0]); }
  }

  lemma StrokesThenReturn(l: Bytes)
    requires ParseStrokes(l).Some?
    ensures ParseEnvelope(l) == ParseStrokes(l) && ParseEnvelope(l + [CR]) == ParseStrokes(l)
  {
    var m := l + [CR];
    assert m[|l|] != 49 && m[..|l|] == l;
  }

  lemma StrokesAreLawful()
    ensures Lawful(STROKES)
  {
    forall e: nat
      ensures ParseStrokes(Strokes(e)) == Some(e) && OneLine(Strokes(e)) && Strokes(e)[|Strokes(e)| - 1] != CR
    {
      StrokesParse(e);
    }
    forall l | AllWhite(l) ensures ParseStrokes(l).None? { WhiteIsNoStroke(l); }
    forall l | ParseStrokes(l).Some?
      ensures ParseEnvelope(l) == ParseStrokes(l) && ParseEnvelope(l + [CR]) == ParseStrokes(l)
    {
      StrokesThenReturn(l);
    }
  }

  /** Neither half of the condition follows from lawfulness: a line of spaces breaks the first
      for every record syntax, an ill-typed field beside a valid envelope the second. */
  lemma TheyPart<E(!new)>(c: Codec<E>)
    requires Lawful(c)
    ensures ScanTreats(c, [32]) == Skip && ReaderTreats(c, [32]) == Refuse
    ensures Lawful(STROKES) && ScanTreats(STROKES, ILL_TYPED_LINE) == Record(0)
    ensures ReaderTreats(STROKES, ILL_TYPED_LINE) == Refuse
  {
    StrokesAreLawful();
    SpacesPart(c);
    IllTypedParts();
  }

  lemma SpacesPart<E(!new)>(c: Codec<E>)
    requires Lawful(c)
    ensures ScanTreats(c, [32]) == Skip && ReaderTreats(c, [32]) == Refuse
  {
    var space: Bytes := [32];
    assert AllWhite(space) && Content(space) == space;
  }

  lemma IllTypedParts()
    ensures ScanTreats(STROKES, ILL_TYPED_LINE) == Record(0) && ReaderTreats(STROKES, ILL_TYPED_LINE) == Refuse
  {
    var l := ILL_TYPED_LINE;
    assert l[1] == 59 && !White(l[0]) && Content(l) == l;
    assert l[..1] == [49] && l[1..] == [59, 53];
  }

  // ---- torn tails and appends ----

  function Truncated(f: Bytes): Bytes {
    SplitJoins(f);
    f[..|f| - |SplitLines(f).tail|]
  }

  lemma {:induction false} TruncationKeepsLines(f: Bytes)
    ensures SplitLines(Truncated(f)) == Split(SplitLines(f).lines, [])
    ensures Truncated(Truncated(f)) == Truncated(f)
  {
    SplitJoins(f);
    var t, s := Truncated(f), SplitLines(f);
    assert f == t + s.tail;
    SplitTail(t, s.tail);
    NoTail(SplitLines(t).tail, s.tail);
    Slices(t, 0, |t|);
  }

  lemma NoTail(a: Bytes, b: Bytes)
    requires a + b == b
    ensures a == []
  {
    assert |a + b| == |b|;
  }

  /** Truncation cuts just past the last newline. */
  lemma TruncatedAt(f: Bytes, keep: nat)
    requires keep <= |f| && Clear(f, keep, |f|) && (keep == 0 || f[keep - 1] == NL)
    ensures Truncated(f) == f[..keep]
  {
    SplitAtStart(f, keep);
    SplitRun(f, keep, |f|);
    Slices(f, keep, |f|);
    Unit(f[keep..]);
  }

  lemma RenderedContent<E(!new)>(c: Codec<E>, e: E)
    requires Lawful(c)
    ensures OneLine(c.render(e)) && Content(c.render(e)) == c.render(e) && c.render(e) != []
    ensures !CorruptLine(c, c.render(e)) && c.parse(c.render(e)) == Some(e)
  {
    var none: Bytes := [];
    assert AllWhite(none) && c.parse(none).None?;
  }

  /** Byte-level append atomicity: cut the torn tail, then write any prefix of the record and
      its newline. The lines read back are the old ones, or the old ones and the new record. */
  lemma {:induction false} AppendIsAtomic<E(!new)>(c: Codec<E>, f: Bytes, e: E, k: nat)
    requires Lawful(c) && k <= |c.render(e)| + 1
    ensures var g := Truncated(f) + (c.render(e) + [NL])[..k];
            && SplitLines(g).lines == SplitLines(f).lines + (if k == |c.render(e)| + 1 then [c.render(e)] else [])
            && ReadTolerant(c, g) == ReadTolerant(c, f) + (if k == |c.render(e)| + 1 then [e] else [])
            && (ReadAll(c, f).Some? ==>
                  ReadAll(c, g) == Some(ReadAll(c, f).value + (if k == |c.render(e)| + 1 then [e] else [])))
  {
    var r := c.render(e);
    TruncationKeepsLines(f);
    RenderedContent(c, e);
    if k == |r| + 1 {
      assert (r + [NL])[..k] == r + [NL];
      SplitLine(Truncated(f), r);
      ReadersSnoc(c, SplitLines(f).lines, r);
    } else {
      assert (r + [NL])[..k] == r[..k];
      assert OneLine(r[..k]);
      SplitTail(Truncated(f), r[..k]);
      assert SplitLines(f).lines + [] == SplitLines(f).lines;
      assert ReadTolerant(c, f) + [] == ReadTolerant(c, f);
      assert ReadAll(c, f).Some? ==> ReadAll(c, f).value + [] == ReadAll(c, f).value;
    }
  }

  // ---- the scanning code ----

  /** Offset of the last newline strictly before `before`, read in chunks from the back. */
  method FindPrevNewline(f: Bytes, before: nat, chunk: nat) returns (r: Option<nat>)
    requires before <= |f| && chunk > 0
    ensures r.None? ==> Clear(f, 0, before)
    ensures r.Some? ==> r.value < before && f[r.value] == NL && Clear(f, r.value + 1, before)
  {
    if before == 0 { return None; }
    var pos := before;
    while true
      invariant 0 < pos <= before && Clear(f, pos, before)
      decreases pos
    {
      var start := if pos <= chunk then 0 else pos - chunk;
      var i := pos;
      while i > start
        invariant start <= i <= pos && Clear(f, i, before)
      {
        i := i - 1;
        if f[i] == NL { return Some(i); }
      }
      if start == 0 { return None; }
      pos := start;
    }
  }

  /** How many bytes survive the truncation of a torn final line. */
  method KeepLength(f: Bytes, chunk: nat) returns (keep: nat)
    requires chunk > 0
    ensures keep <= |f| && f[..keep] == Truncated(f)
  {
    keep := |f|;
    if |f| > 0 && f[|f| - 1] != NL {
      var p := FindPrevNewline(f, |f|, chunk);
      keep := if p.Some? then p.value + 1 else 0;
    }
    TruncatedAt(f, keep);
  }

  /** What the scan decides at the line that ends at newline `end`. */
  lemma {:induction false} BackLine<E>(c: Codec<E>, f: Bytes, start: nat, end: nat)
    requires start <= end < |f| && Clear(f, start, end) && f[end] == NL && (start == 0 || f[start - 1] == NL)
    ensures LastSeqBack(c, SplitLines(f[..end + 1]).lines) ==
            if !AllWhite(f[start..end]) then c.parseSeq(f[start..end])
            else if start == 0 then Some(0) else LastSeqBack(c, SplitLines(f[..start]).lines)
  {
    SplitAtStart(f, start);
    SplitNextLine(f, start, end);
    BackSnoc(c, SplitLines(f[..start]).lines, f[start..end]);
    if start == 0 { assert f[..start] == []; }
  }

  /** The torn tail has no say. */
  lemma {:induction false} TornLines(f: Bytes, end: nat)
    requires end <= |f| && Clear(f, end, |f|)
    ensures SplitLines(f).lines == SplitLines(f[..end]).lines
  {
    SplitRun(f, end, |f|);
    Slices(f, end, |f|);
  }

  /** The answer is still the one for the lines up to newline `end`. */
  ghost predicate ScannedTo<E>(c: Codec<E>, f: Bytes, end: nat) {
    end < |f| && f[end] == NL && LastSeqBack(c, SplitLines(f).lines) == LastSeqBack(c, SplitLines(f[..end + 1]).lines)
  }

  /** The newline that ends the last complete line, if there is one. */
  method LastLineEnd<E>(c: Codec<E>, f: Bytes, chunk: nat) returns (r: Option<nat>)
    requires chunk > 0 && |f| > 0
    ensures r.None? ==> LastSeqBack(c, SplitLines(f).lines) == Some(0)
    ensures r.Some? ==> ScannedTo(c, f, r.value)
  {
    if f[|f| - 1] == NL {
      TornLines(f, |f|);
      return Some(|f| - 1);
    }
    r := FindPrevNewline(f, |f|, chunk);
    TornLines(f, if r.Some? then r.value + 1 else 0);
    if r.None? { assert f[..0] == []; }
  }

  /** The last sequence number, scanning lines backwards. */
  method RecoverLastSeq<E>(c: Codec<E>, f: Bytes, chunk: nat) returns (r: Option<nat>)
    requires chunk > 0
    ensures r == LastSeqBack(c, SplitLines(f).lines)
  {
    if |f| == 0 { return Some(0); }
    var last := LastLineEnd(c, f, chunk);
    if last.None? { return Some(0); }
    var end: nat := last.value;
    while true
      invariant ScannedTo(c, f, end)
      decreases end
    {
      var p := FindPrevNewline(f, end, chunk);
      var lineStart := if p.Some? then p.value + 1 else 0;
      BackLine(c, f, lineStart, end);
      var line := f[lineStart..end];
      if !AllWhite(line) { return c.parseSeq(line); }
      if lineStart == 0 { return Some(0); }
      end := lineStart - 1;
    }
  }

  /** First newline at or after `i`, or the end of the file. */
  method FindNewline(f: Bytes, i: nat) returns (j: nat)
    requires i <= |f|
    ensures i <= j <= |f| && Clear(f, i, j) && (j < |f| ==> f[j] == NL)
  {
    j := i;
    while j < |f| && f[j] != NL
      invariant i <= j <= |f| && Clear(f, i, j)
    {
      j := j + 1;
    }
  }

  /** A longer prefix only adds lines. */
  lemma {:induction false} LinesGrow(f: Bytes, i: nat)
    requires i <= |f|
    ensures SplitLines(f[..i]).lines <= SplitLines(f).lines
    decreases |f| - i
  {
    if i == |f| {
      Slices(f, 0, |f|);
    } else {
      Slices(f, 0, i);
      SplitSnoc(f[..i], f[i]);
      LinesGrow(f, i + 1);
    }
  }

  /** The streaming strict reader, one physical line at a time. */
  method ForEachEvent<E>(c: Codec<E>, f: Bytes) returns (r: Option<seq<E>>)
    ensures r == ReadAll(c, f)
  {
    var i, out := 0, [];
    while i < |f|
      invariant i <= |f| && ReadTo(c, f, i, Some(out))
      decreases |f| - i
    {
      var j := FindNewline(f, i);
      if j == |f| {
        ReadEnds(c, f, i, out);
        return Some(out);
      }
      ReadNextLine(c, f, i, j, out);
      var content := Content(f[i..j]);
      if content != [] {
        var p := c.parse(content);
        if p.None? { return None; }
        out := out + [p.value];
      }
      i := j + 1;
    }
    ReadEnds(c, f, i, out);
    return Some(out);
  }

  /** The prefix up to line start `i` reads as `out`. */
  ghost predicate ReadTo<E>(c: Codec<E>, f: Bytes, i: nat, out: Option<seq<E>>) {
    i <= |f| && SplitLines(f[..i]).tail == [] && Strict(c, SplitLines(f[..i]).lines) == out
  }

  lemma ReadEnds<E>(c: Codec<E>, f: Bytes, i: nat, out: seq<E>)
    requires ReadTo(c, f, i, Some(out)) && Clear(f, i, |f|)
    ensures ReadAll(c, f) == Some(out)
  {
    TornLines(f, i);
  }

  lemma ReadNextLine<E>(c: Codec<E>, f: Bytes, i: nat, j: nat, out: seq<E>)
    requires i <= j < |f| && ReadTo(c, f, i, Some(out)) && Clear(f, i, j) && f[j] == NL
    ensures var line := Content(f[i..j]);
            if line == [] then ReadTo(c, f, j + 1, Some(out))
            else if c.parse(line).None? then ReadAll(c, f) == None
            else ReadTo(c, f, j + 1, Some(out + [c.parse(line).value]))
  {
    SplitNextLine(f, i, j);
    ReadersSnoc(c, SplitLines(f[..i]).lines, f[i..j]);
    if Content(f[i..j]) != [] && c.parse(Content(f[i..j])).None? { StrictFails(c, f, j + 1); }
  }

  /** The reader of catch-up: corrupt complete lines are passed over. */
  method ForEachTolerant<E>(c: Codec<E>, f: Bytes) returns (out: seq<E>)
    ensures out == ReadTolerant(c, f)
  {
    var i := 0;
    out := [];
    while i < |f|
      invariant TolerantTo(c, f, i, out)
      decreases |f| - i
    {
      var j := FindNewline(f, i);
      if j == |f| {
        TolerantEnds(c, f, i, out);
        return;
      }
      TolerantNextLine(c, f, i, j, out);
      var content := Content(f[i..j]);
      if content != [] {
        var p := c.parse(content);
        if p.Some? { out := out + [p.value]; }
      }
      i := j + 1;
    }
    TolerantEnds(c, f, i, out);
  }

  ghost predicate TolerantTo<E>(c: Codec<E>, f: Bytes, i: nat, out: seq<E>) {
    i <= |f| && SplitLines(f[..i]).tail == [] && Tolerant(c, SplitLines(f[..i]).lines) == out
  }

  lemma TolerantEnds<E>(c: Codec<E>, f: Bytes, i: nat, out: seq<E>)
    requires TolerantTo(c, f, i, out) && Clear(f, i, |f|)
    ensures ReadTolerant(c, f) == out
  {
    TornLines(f, i);
  }

  lemma TolerantNextLine<E>(c: Codec<E>, f: Bytes, i: nat, j: nat, out: seq<E>)
    requires i <= j < |f| && TolerantTo(c, f, i, out) && Clear(f, i, j) && f[j] == NL
    ensures var line := Content(f[i..j]);
            if line == [] || c.parse(line).None? then TolerantTo(c, f, j + 1, out)
            else TolerantTo(c, f, j + 1, out + [c.parse(line).value])
  {
    SplitNextLine(f, i, j);
    ReadersSnoc(c, SplitLines(f[..i]).lines, f[i..j]);
  }

  /** A corrupt line anywhere before makes the whole strict reading fail. */
  lemma {:induction false} StrictFails<E>(c: Codec<E>, f: Bytes, i: nat)
    requires i <= |f| && Strict(c, SplitLines(f[..i]).lines).None?
    ensures ReadAll(c, f).None?
    decreases |f| - i
  {
    if i == |f| {
      assert f[..i] == f;
    } else {
      Slices(f, 0, i);
      SplitSnoc(f[..i], f[i]);
      ReadersSnoc(c, SplitLines(f[..i]).lines, SplitLines(f[..i]).tail);
      StrictFails(c, f, i + 1);
    }
  }
}

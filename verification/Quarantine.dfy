/** Healing a poisoned log: excise the corrupt lines, keep everything else byte for byte. */
module Quarantine {
  import opened Prelude
  import opened EventFile

  function Healthy<E>(c: Codec<E>, lines: seq<Bytes>): seq<Bytes> {
    if lines == [] then []
    else
      var init, line := Healthy(c, lines[..|lines| - 1]), lines[|lines| - 1];
      if CorruptLine(c, line) then init else init + [line]
  }

  /** The excised lines, terminator included, each with its offset in the original. */
  datatype Excised = Excised(offset: nat, raw: Bytes)

  function Corrupt<E>(c: Codec<E>, lines: seq<Bytes>): seq<Excised> {
    if lines == [] then []
    else
      var init, line := Corrupt(c, lines[..|lines| - 1]), lines[|lines| - 1];
      if CorruptLine(c, line) then init + [Excised(|Join(lines[..|lines| - 1])|, line + [NL])] else init
  }

  function Recovered<E>(c: Codec<E>, f: Bytes): Bytes {
    Join(Healthy(c, SplitLines(f).lines)) + SplitLines(f).tail
  }

  function Removed<E>(c: Codec<E>, f: Bytes): seq<Excised> { Corrupt(c, SplitLines(f).lines) }

  /** Put excised lines back, in order, each at its original offset. */
  function Reinsert(f: Bytes, removed: seq<Excised>): Bytes {
    if removed == [] then f
    else
      var s, x := Reinsert(f, removed[..|removed| - 1]), removed[|removed| - 1];
      if x.offset <= |s| then s[..x.offset] + x.raw + s[x.offset..] else s
  }

  /** Joining is the inverse of splitting. */
  lemma {:induction false} JoinSplits(lines: seq<Bytes>, tail: Bytes)
    requires OneLine(tail) && forall x :: x in lines ==> OneLine(x)
    ensures SplitLines(Join(lines) + tail) == Split(lines, tail)
  {
    if lines != [] {
      var init, line := lines[..|lines| - 1], lines[|lines| - 1];
      assert lines == init + [line];
      JoinSplits(init, []);
      Unit(Join(init));
      JoinSnoc(init, line);
      SplitLine(Join(init), line);
    }
    SplitTail(Join(lines), tail);
    Unit(tail);
  }

  lemma {:induction false} HealthyLines<E>(c: Codec<E>, lines: seq<Bytes>)
    ensures forall x :: x in Healthy(c, lines) <==> x in lines && !CorruptLine(c, x)
    ensures Strict(c, Healthy(c, lines)) == Some(Tolerant(c, lines))
    ensures Corrupt(c, Healthy(c, lines)) == []
  {
    if lines != [] {
      var init, line := lines[..|lines| - 1], lines[|lines| - 1];
      HealthyLines(c, init);
      assert lines == init + [line];
      var h := Healthy(c, init);
      assert (h + [line])[..|h|] == h;
    }
  }

  lemma {:induction false} ReinsertSnoc(f: Bytes, xs: seq<Excised>, x: Excised)
    requires x.offset <= |Reinsert(f, xs)|
    ensures var s := Reinsert(f, xs); Reinsert(f, xs + [x]) == s[..x.offset] + x.raw + s[x.offset..]
  {
    assert (xs + [x])[..|xs|] == xs;
  }

  /** Kept and excised lines interleave at the reported offsets to the original. */
  lemma {:induction false} ReinsertLines<E>(c: Codec<E>, lines: seq<Bytes>, rest: Bytes)
    ensures Reinsert(Join(Healthy(c, lines)) + rest, Corrupt(c, lines)) == Join(lines) + rest
  {
    if lines != [] {
      var init, line := lines[..|lines| - 1], lines[|lines| - 1];
      assert lines == init + [line];
      JoinSnoc(init, line);
      if CorruptLine(c, line) {
        ReinsertLines(c, init, rest);
        ReinsertSnoc(Join(Healthy(c, init)) + rest, Corrupt(c, init), Excised(|Join(init)|, line + [NL]));
        PutBack(Join(init), line + [NL], rest);
      } else {
        ReinsertLines(c, init, line + [NL] + rest);
        JoinSnoc(Healthy(c, init), line);
        Regroup(Join(Healthy(c, init)), line + [NL], rest);
        Regroup(Join(init), line + [NL], rest);
      }
    }
  }

  lemma PutBack(a: Bytes, b: Bytes, rest: Bytes)
    ensures var s := a + rest; s[..|a|] + b + s[|a|..] == (a + b) + rest
  {}

  ghost predicate Increasing(removed: seq<Excised>, bound: nat) {
    && (forall i, j :: 0 <= i < j < |removed| ==> removed[i].offset < removed[j].offset)
    && forall i :: 0 <= i < |removed| ==> removed[i].offset < bound
  }

  /** The line stands in the file at its offset. */
  predicate Found(f: Bytes, x: Excised) {
    x.offset + |x.raw| <= |f| && f[x.offset..x.offset + |x.raw|] == x.raw
  }

  lemma FoundExtends(f: Bytes, rest: Bytes, x: Excised)
    requires Found(f, x)
    ensures Found(f + rest, x)
  {
    assert (f + rest)[x.offset..x.offset + |x.raw|] == f[x.offset..x.offset + |x.raw|];
  }

  lemma {:induction false} CorruptIncreasing<E>(c: Codec<E>, lines: seq<Bytes>)
    ensures Increasing(Corrupt(c, lines), |Join(lines)|)
    ensures forall x :: x in Corrupt(c, lines) ==> Found(Join(lines), x)
    ensures Corrupt(c, lines) == [] <==> Strict(c, lines).Some?
  {
    if lines != [] {
      var init, line := lines[..|lines| - 1], lines[|lines| - 1];
      CorruptIncreasing(c, init);
      assert lines == init + [line];
      JoinSnoc(init, line);
      forall x | x in Corrupt(c, init) ensures Found(Join(lines), x) { FoundExtends(Join(init), line + [NL], x); }
    }
  }

  /** Quarantine correctness. The recovered bytes pass the strict reader and yield exactly
      the parsable events in order; the excised lines, each found in the original at its
      reported offset, go back to give the original bytes; the offsets increase; nothing is
      excised exactly when the original already passes, and nothing is left to excise. */
  lemma {:induction false} QuarantineIsCorrect<E>(c: Codec<E>, f: Bytes)
    ensures ReadAll(c, Recovered(c, f)) == Some(ReadTolerant(c, f))
    ensures SplitLines(Recovered(c, f)).tail == SplitLines(f).tail
    ensures Reinsert(Recovered(c, f), Removed(c, f)) == f
    ensures Increasing(Removed(c, f), |f|) && forall x :: x in Removed(c, f) ==> Found(f, x)
    ensures Removed(c, f) == [] <==> ReadAll(c, f).Some?
    ensures Removed(c, Recovered(c, f)) == []
  {
    SplitJoins(f);
    var lines, tail := SplitLines(f).lines, SplitLines(f).tail;
    HealthyLines(c, lines);
    forall x | x in Healthy(c, lines) ensures OneLine(x) { assert x in lines; }
    JoinSplits(Healthy(c, lines), tail);
    ReinsertLines(c, lines, tail);
    CorruptIncreasing(c, lines);
    forall x | x in Removed(c, f) ensures Found(f, x) { FoundExtends(Join(lines), tail, x); }
  }

  function Offsets(xs: seq<Excised>): (r: seq<nat>)
    ensures |r| == |xs| && forall i :: 0 <= i < |xs| ==> r[i] == xs[i].offset
  {
    seq(|xs|, i requires 0 <= i < |xs| => xs[i].offset)
  }

  lemma {:induction false} HealthySnoc<E>(c: Codec<E>, lines: seq<Bytes>, line: Bytes)
    ensures Healthy(c, lines + [line]) == if CorruptLine(c, line) then Healthy(c, lines) else Healthy(c, lines) + [line]
    ensures Corrupt(c, lines + [line]) ==
            if CorruptLine(c, line) then Corrupt(c, lines) + [Excised(|Join(lines)|, line + [NL])]
            else Corrupt(c, lines)
  {
    assert (lines + [line])[..|lines|] == lines;
  }

  lemma OffsetsSnoc(xs: seq<Excised>, x: Excised)
    ensures Offsets(xs + [x]) == Offsets(xs) + [x.offset]
  {}

  /** What one more physical line adds to the kept bytes and to the excised offsets. */
  lemma {:induction false} NextLine<E>(c: Codec<E>, g: Bytes, line: Bytes)
    requires SplitLines(g).tail == [] && OneLine(line)
    ensures var f, bad := g + (line + [NL]), CorruptLine(c, line);
            && SplitLines(f).tail == []
            && Recovered(c, f) == (if bad then Recovered(c, g) else Recovered(c, g) + (line + [NL]))
            && Offsets(Removed(c, f)) == (if bad then Offsets(Removed(c, g)) + [|g|] else Offsets(Removed(c, g)))
  {
    SplitLine(g, line);
    SplitJoins(g);
    var lines := SplitLines(g).lines;
    Unit(Join(lines));
    HealthySnoc(c, lines, line);
    Unit(Join(Healthy(c, lines)));
    if CorruptLine(c, line) {
      OffsetsSnoc(Corrupt(c, lines), Excised(|g|, line + [NL]));
    } else {
      JoinSnoc(Healthy(c, lines), line);
      Unit(Join(Healthy(c, lines) + [line]));
    }
  }

  lemma {:induction false} TornEnd<E>(c: Codec<E>, g: Bytes, tail: Bytes)
    requires OneLine(tail) && SplitLines(g).tail == []
    ensures Recovered(c, g + tail) == Recovered(c, g) + tail && Removed(c, g + tail) == Removed(c, g)
  {
    SplitTail(g, tail);
    Unit(tail);
    Unit(Join(Healthy(c, SplitLines(g).lines)));
  }

  /** Progress of the excision over the first `i` bytes. */
  ghost predicate Excising<E>(c: Codec<E>, f: Bytes, i: nat, recovered: Bytes, removed: seq<nat>) {
    && i <= |f| && recovered == Recovered(c, f[..i]) && removed == Offsets(Removed(c, f[..i]))
    && (i < |f| ==> SplitLines(f[..i]).tail == [])
  }

  lemma ExciseLine<E>(c: Codec<E>, f: Bytes, i: nat, j: nat, recovered: Bytes, removed: seq<nat>)
    requires i < |f| && Excising(c, f, i, recovered, removed) && i <= j < |f| && Clear(f, i, j) && f[j] == NL
    ensures if CorruptLine(c, f[i..j]) then Excising(c, f, j + 1, recovered, removed + [i])
            else Excising(c, f, j + 1, recovered + f[i..j + 1], removed)
  {
    NextLine(c, f[..i], f[i..j]);
    Slices(f, i, j);
  }

  lemma ExciseTail<E>(c: Codec<E>, f: Bytes, i: nat, recovered: Bytes, removed: seq<nat>)
    requires i < |f| && Excising(c, f, i, recovered, removed) && Clear(f, i, |f|)
    ensures Excising(c, f, |f|, recovered + f[i..], removed)
  {
    TornEnd(c, f[..i], f[i..]);
    Slices(f, i, |f|);
  }

  /** The excision loop over physical lines. */
  method ExciseCorruptLines<E>(c: Codec<E>, f: Bytes) returns (recovered: Bytes, removed: seq<nat>)
    ensures recovered == Recovered(c, f)
    ensures removed == Offsets(Removed(c, f))
  {
    recovered, removed := [], [];
    var offset, i := 0, 0;
    while i < |f|
      invariant offset == i && Excising(c, f, i, recovered, removed)
      decreases |f| - i
    {
      var j := FindNewline(f, i);
      if j < |f| {
        ExciseLine(c, f, i, j, recovered, removed);
        if CorruptLine(c, f[i..j]) {
          removed := removed + [offset];
        } else {
          recovered := recovered + f[i..j + 1];
        }
        offset := offset + (j + 1 - i);
        i := j + 1;
      } else {
        ExciseTail(c, f, i, recovered, removed);
        recovered := recovered + f[i..];
        offset := |f|;
        i := |f|;
      }
    }
    assert f[..|f|] == f;
  }
}

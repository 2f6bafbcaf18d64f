/** The split loses nothing, cuts only after complete expressions and fences, and leaves no opener in the tail. */
module StreamingSafety {
  import opened Wrappers
  import opened StreamingMath
  import opened StreamingScan
  import opened StreamingFences
  import opened StreamingAppendOnly
  import opened Strings

  // ----- lines of the text -----

  predicate IsLineStart(text: string, i: nat) {
    i <= |text| && (i == 0 || text[i - 1] == '\n')
  }

  function LineAt(text: string, i: nat): string
    requires i <= |text|
  {
    Slice(text, i, LineEnd(text, i))
  }

  lemma {:induction false} RangesAreLines(text: string, i: nat)
    requires IsLineStart(text, i)
    ensures forall r :: r in Ranges(text, i) ==> IsLineStart(text, r.0) && r.1 == LineEnd(text, r.0)
    decreases |text| - i
  {
    var e := LineEnd(text, i);
    LineEndIs(text, i);
    if e < |text| {
      RangesAreLines(text, e + 1);
    }
  }

  lemma {:induction false} MarkedAreLines(text: string, ranges: seq<(nat, nat)>)
    requires forall r :: r in ranges ==> IsLineStart(text, r.0) && r.1 == LineEnd(text, r.0)
    ensures forall line :: line in Marked(text, ranges) ==>
              && IsLineStart(text, line.start) && line.end == LineEnd(text, line.start)
              && line.marker == FenceMarker(LineAt(text, line.start))
  {
    if ranges != [] {
      assert forall r :: r in ranges[1..] ==> r in ranges;
      MarkedAreLines(text, ranges[1..]);
    }
  }

  /** Every line start is the start of one of the lines. */
  lemma {:induction false} LineStartsAreRanges(text: string, i: nat, k: nat)
    requires i <= k && IsLineStart(text, k) && i <= |text|
    ensures exists r :: r in Ranges(text, i) && r.0 == k
    decreases |text| - i
  {
    var e := LineEnd(text, i);
    LineEndIs(text, i);
    if k == i {
      assert (i, e) in Ranges(text, i);
    } else {
      assert k > e;
      LineStartsAreRanges(text, e + 1, k);
      var r :| r in Ranges(text, e + 1) && r.0 == k;
      assert r in Ranges(text, i);
    }
  }

  lemma {:induction false} MarkedHasRange(text: string, ranges: seq<(nat, nat)>, r: (nat, nat))
    requires r in ranges
    ensures Line(r.0, r.1, FenceMarker(Slice(text, r.0, r.1))) in Marked(text, ranges)
  {
    if r != ranges[0] {
      MarkedHasRange(text, ranges[1..], r);
    }
  }

  // ----- prose and fences partition the text -----

  ghost predicate InSpan(spans: seq<(nat, nat)>, k: nat) {
    exists s :: s in spans && s.0 <= k < s.1
  }

  ghost predicate ClosedBy(r: FenceState, n: nat, k: nat, b: nat) {
    && b in r.bounds && k < b
    && (forall s :: s in FinishSpans(r, n) ==> s.1 <= k || s.0 >= b)
    && (r.open.Some? ==> r.open.value.start >= b)
  }

  /** Position `k` lies inside a fence: one still open, or one closed at a boundary with no prose in between. */
  ghost predicate Fenced(r: FenceState, n: nat, k: nat) {
    (r.open.Some? && r.open.value.start <= k) || exists b :: ClosedBy(r, n, k, b)
  }

  /** The boundary at which an open fence closes leaves no prose between its opening line and that boundary. */
  lemma {:induction false} ClosingLineCloses(st: FenceState, line: Line, rest: seq<Line>, n: nat, k: nat)
    requires FenceOk(line.start, st) && st.open.Some? && Chained(line.start, [line] + rest, n)
    requires line.marker.Some? && Closes(st.open.value.marker, line.marker.value)
    requires st.open.value.start <= k < line.end
    ensures ClosedBy(FencePass(st, [line] + rest), n, k, line.end)
  {
    var st', r := CloseFence(st, line.end), FencePass(st, [line] + rest);
    assert ([line] + rest)[1..] == rest;
    FenceStepKeepsOk(st, line);
    assert r == FencePass(st', rest);
    if rest == [] {
      assert FencePass(st', []) == st';
    } else {
      FencePassGrows(line.end + 1, st', rest, n);
      FirstFenceAfter(line.end + 1, rest, n);
      assert r.bounds[|st.bounds|] == line.end;
    }
    var more := if rest == [] then SpanIfAny(line.end, n) else CertainSpans(st', rest, n)[|st.spans|..];
    var certain, all := st.spans + more, FinishSpans(r, n);
    assert certain <= all;
    forall s | s in all ensures s.1 <= k || s.0 >= line.end {
      var j :| 0 <= j < |all| && all[j] == s;
      assert j < |st.spans| ==> s == st.spans[j];
      assert |st.spans| <= j < |certain| ==> s == certain[j];
    }
  }

  /** Once certain, a span stays. */
  lemma {:induction false} SpanStays(off: nat, st: FenceState, lines: seq<Line>, n: nat, s: (nat, nat))
    requires FenceOk(off, st) && Chained(off, lines, n) && s in st.spans
    ensures s in FinishSpans(FencePass(st, lines), n)
  {
    if lines != [] {
      FencePassGrows(off, st, lines, n);
      assert s in CertainSpans(st, lines, n);
    }
  }

  /** What lies between an opening line and the lines still to be read is fenced. */
  lemma {:induction false} OpenIsFenced(off: nat, st: FenceState, lines: seq<Line>, n: nat, k: nat)
    requires FenceOk(off, st) && Chained(off, lines, n) && st.open.Some? && st.open.value.start <= k < off
    ensures Fenced(FencePass(st, lines), n, k)
    decreases |lines|
  {
    if lines != [] {
      var line, rest := lines[0], lines[1..];
      assert lines == [line] + rest;
      if line.marker.Some? && Closes(st.open.value.marker, line.marker.value) {
        ClosingLineCloses(st, line, rest, n, k);
      } else {
        FenceStepKeepsOk(st, line);
        OpenIsFenced(line.end + 1, st, rest, n, k);
      }
    }
  }

  /** Every position is prose or fenced. */
  lemma {:induction false} ProseOrFenced(off: nat, st: FenceState, lines: seq<Line>, n: nat, k: nat)
    requires FenceOk(off, st) && Chained(off, lines, n)
    requires (if st.open.Some? then st.open.value.start else st.spanStart) <= k < n
    ensures InSpan(FinishSpans(FencePass(st, lines), n), k) || Fenced(FencePass(st, lines), n, k)
    decreases |lines|
  {
    if lines == [] {
      assert st.open.None? ==> (st.spanStart, n) in FinishSpans(st, n);
    } else {
      var line, rest := lines[0], lines[1..];
      var st' := FenceStep(st, line);
      assert lines == [line] + rest;
      FenceStepKeepsOk(st, line);
      if st.open.None? && line.marker.Some? && k < line.start {
        assert (st.spanStart, line.start) in st'.spans;
        SpanStays(line.end + 1, st', rest, n, (st.spanStart, line.start));
      } else if st.open.Some? && line.marker.Some? && Closes(st.open.value.marker, line.marker.value) && k < line.end {
        ClosingLineCloses(st, line, rest, n, k);
      } else {
        ProseOrFenced(line.end + 1, st', rest, n, k);
      }
    }
  }

  /** Every line that carries a fence marker is fenced. */
  lemma {:induction false} MarkerIsFenced(off: nat, st: FenceState, lines: seq<Line>, n: nat, marked: Line)
    requires FenceOk(off, st) && Chained(off, lines, n)
    requires marked in lines && marked.marker.Some?
    ensures Fenced(FencePass(st, lines), n, marked.start)
    decreases |lines|
  {
    var line, rest := lines[0], lines[1..];
    var st' := FenceStep(st, line);
    assert lines == [line] + rest;
    FenceStepKeepsOk(st, line);
    if marked != line {
      MarkerIsFenced(line.end + 1, st', rest, n, marked);
    } else if st.open.Some? && Closes(st.open.value.marker, line.marker.value) {
      ClosingLineCloses(st, line, rest, n, line.start);
    } else {
      OpenIsFenced(line.end + 1, st', rest, n, line.start);
    }
  }

  // ----- the tail -----

  /** Something fenced before the cutoff is closed by a settled boundary. */
  lemma {:induction false} FencedIsSettled(text: string, k: nat)
    requires Fenced(Fences(text), |text|, k) && k < Cutoff(text)
    ensures exists b :: b in SettledBounds(text) && k < b
  {
    CutoffIs(text);
    SettledBoundsAre(text);
    MathOk(text);
    var b :| ClosedBy(Fences(text), |text|, k, b);
    if Math(text).halt.Some? {
      var h := Math(text).halt.value;
      assert Covers(ProseSpans(text), h, h + 1);
      var j :| 0 <= j < |ProseSpans(text)| && ProseSpans(text)[j].0 <= h < h + 1 <= ProseSpans(text)[j].1;
      assert ProseSpans(text)[j] in ProseSpans(text);
    }
    FencesOk(text);
    assert b in Boundaries(text);
  }

  ghost predicate Past(k: nat, bounds: seq<nat>) {
    forall b :: b in bounds ==> b <= k
  }

  lemma {:induction false} SpanIsQuiet(text: string, a: nat, z: nat, k: nat)
    requires a <= k < z <= |text| && IsDollar(text, k)
    requires var r := ScanSpan(text, a, z); Past(k, r.bounds) && (r.halt.Some? ==> k < r.halt.value)
    ensures k + 1 >= |text| || IsSpace(text[k + 1])
  {
    var r := ScanSpan(text, a, z);
    ScanSpanIsQuiet(text, a, z);
    assert r.bounds != [] ==> Last(a, r.bounds) in r.bounds;
  }

  /** Prose past every boundary and before the halt holds no opener. */
  lemma {:induction false} ProseIsQuiet(text: string, spans: seq<(nat, nat)>, k: nat)
    requires SpansWithin(spans, |text|) && InSpan(spans, k) && IsDollar(text, k)
    requires forall i, j :: 0 <= i < j < |spans| ==> spans[i].1 <= spans[j].0
    requires var r := ScanSpans(text, spans); Past(k, r.bounds) && (r.halt.Some? ==> k < r.halt.value)
    ensures k + 1 >= |text| || IsSpace(text[k + 1])
  {
    var a, z, rest := spans[0].0, spans[0].1, spans[1..];
    var first, r := ScanSpan(text, a, z), ScanSpans(text, rest);
    ThenMembers(first, r);
    if a <= k < z {
      SpanIsQuiet(text, a, z, k);
    } else {
      InLaterSpan(spans, k);
      ScanSpanOk(text, a, z);
      ProseIsQuiet(text, rest, k);
    }
  }

  lemma {:induction false} InLaterSpan(spans: seq<(nat, nat)>, k: nat)
    requires InSpan(spans, k) && !(spans[0].0 <= k < spans[0].1)
    requires forall i, j :: 0 <= i < j < |spans| ==> spans[i].1 <= spans[j].0
    ensures InSpan(spans[1..], k) && spans[0].1 <= k
  {
    var s :| s in spans && s.0 <= k < s.1;
    assert spans == [spans[0]] + spans[1..];
    var j :| 0 <= j < |spans[1..]| && spans[1..][j] == s;
    assert spans[j + 1] == s;
  }

  lemma {:induction false} ThenMembers(a: MathScan, b: MathScan)
    ensures forall x :: x in a.bounds ==> x in Then(a, b).bounds
    ensures a.halt.None? ==> forall x :: x in b.bounds ==> x in Then(a, b).bounds
  {
  }

  /**
   * The tail holds no opener: from the last settled chunk to the cutoff, every unescaped dollar is followed by
   * whitespace or ends the text, and no line starts with a fence marker.
   */
  lemma {:induction false} TailHasNoOpener(text: string)
    ensures var prev := Last(0, SettledBounds(text));
            && Quiet(text, prev, Cutoff(text))
            && forall i :: prev <= i < Cutoff(text) && IsLineStart(text, i) ==> FenceMarker(LineAt(text, i)).None?
  {
    var bounds, prev := SettledBounds(text), Last(0, SettledBounds(text));
    SettledBoundsAre(text);
    CutoffIs(text);
    assert bounds != [] ==> prev in bounds;
    assert forall b :: b in bounds ==> b <= prev by { LastBounds(bounds); }
    LinesChained(text);
    FencesOk(text);
    forall k | prev <= k < Cutoff(text) && IsDollar(text, k) ensures k + 1 >= |text| || IsSpace(text[k + 1]) {
      ProseOrFenced(0, NO_FENCES, Lines(text), |text|, k);
      if Fenced(Fences(text), |text|, k) {
        FencedIsSettled(text, k);
        assert false;
      }
      ProseSpansOk(text);
      MathOk(text);
      MathIsSettled(text);
      ProseIsQuiet(text, ProseSpans(text), k);
    }
    forall i | prev <= i < Cutoff(text) && IsLineStart(text, i) ensures FenceMarker(LineAt(text, i)).None? {
      LineStartsAreRanges(text, 0, i);
      RangesAreLines(text, 0);
      var r :| r in Ranges(text, 0) && r.0 == i;
      MarkedHasRange(text, Ranges(text, 0), r);
      if FenceMarker(LineAt(text, i)).Some? {
        MarkerIsFenced(0, NO_FENCES, Lines(text), |text|, Line(r.0, r.1, FenceMarker(Slice(text, r.0, r.1))));
        FencedIsSettled(text, i);
        assert false;
      }
    }
  }

  lemma {:induction false} LastBounds(bounds: seq<nat>)
    requires StrictlyIncreasing(bounds)
    ensures forall b :: b in bounds ==> b <= Last(0, bounds)
  {
  }

  /** Every math boundary is settled: the pass looks no further than its own halt. */
  lemma {:induction false} MathIsSettled(text: string)
    ensures forall b :: b in Math(text).bounds ==> b in SettledBounds(text)
  {
    SettledBoundsAre(text);
    CutoffIs(text);
    MathOk(text);
    ProseSpansOk(text);
    forall b | b in Math(text).bounds ensures b <= Cutoff(text) {
      assert Covers(ProseSpans(text), b - 2, b);
    }
  }

  // ----- what each chunk ends with -----

  /** The fence that opens at the line start `open` closes with the line that ends at `b`. */
  ghost predicate CompleteFence(text: string, open: nat, b: nat) {
    && IsLineStart(text, open) && FenceMarker(LineAt(text, open)).Some?
    && exists c ::
         && open < c && IsLineStart(text, c) && LineEnd(text, c) == b && FenceMarker(LineAt(text, c)).Some?
         && var opener, closer := FenceMarker(LineAt(text, open)).value, FenceMarker(LineAt(text, c)).value;
            closer[0] == opener[0] && |closer| >= |opener|
  }

  /** No boundary lies strictly between `open` and `b`. */
  ghost predicate Isolated(bounds: seq<nat>, open: nat, b: nat) {
    forall x :: x in bounds ==> x <= open || b <= x
  }

  lemma {:induction false} ClosingLineIsolates(st: FenceState, line: Line, rest: seq<Line>, n: nat)
    requires FenceOk(line.start, st) && st.open.Some? && Chained(line.start, [line] + rest, n)
    requires line.marker.Some? && Closes(st.open.value.marker, line.marker.value)
    ensures Isolated(FencePass(st, [line] + rest).bounds, st.open.value.start, line.end)
  {
    assert ([line] + rest)[1..] == rest;
    var st', r := CloseFence(st, line.end), FencePass(st, [line] + rest);
    FenceStepKeepsOk(st, line);
    if rest != [] {
      FencePassGrows(line.end + 1, st', rest, n);
      assert r.bounds == st.bounds + [line.end] + r.bounds[|st.bounds| + 1..];
    }
  }

  lemma {:induction false} FenceBoundOpener(off: nat, st: FenceState, lines: seq<Line>, n: nat, opener: Line, b: nat)
    returns (open: Line, close: Line)
    requires FenceOk(off, st) && Chained(off, lines, n)
    requires b in FencePass(st, lines).bounds && b !in st.bounds
    requires st.open.Some? ==> opener.marker == Some(st.open.value.marker) && opener.start == st.open.value.start
    ensures open in lines || (st.open.Some? && open == opener)
    ensures close in lines && open.start < close.start && close.end == b
    ensures open.marker.Some? && close.marker.Some? && Closes(open.marker.value, close.marker.value)
    ensures var r := FencePass(st, lines); ClosedBy(r, n, open.start, b) && Isolated(r.bounds, open.start, b)
    decreases |lines|
  {
    var line, rest := lines[0], lines[1..];
    assert lines == [line] + rest;
    FenceStepKeepsOk(st, line);
    var st' := FenceStep(st, line);
    if b in st'.bounds {
      open, close := opener, line;
      ClosingLineCloses(st, line, rest, n, opener.start);
      ClosingLineIsolates(st, line, rest, n);
    } else {
      var opener' := if st.open.None? then line else opener;
      open, close := FenceBoundOpener(line.end + 1, st', rest, n, opener', b);
    }
  }

  lemma {:induction false} FenceBoundComplete(text: string, b: nat) returns (open: nat)
    requires b in Fences(text).bounds
    ensures open < b && CompleteFence(text, open, b) && Isolated(Boundaries(text), open, b)
  {
    LinesChained(text);
    var o, c := FenceBoundOpener(0, NO_FENCES, Lines(text), |text|, Line(0, 0, None), b);
    open := o.start;
    RangesAreLines(text, 0);
    MarkedAreLines(text, Ranges(text, 0));
    ProseSpansOk(text);
    MathOk(text);
    forall x | x in Math(text).bounds ensures x <= open || b <= x {
      assert Covers(ProseSpans(text), x - 2, x);
      var k :| 0 <= k < |ProseSpans(text)| && ProseSpans(text)[k].0 <= x - 2 < x <= ProseSpans(text)[k].1;
      assert ProseSpans(text)[k] in FinishSpans(Fences(text), |text|);
    }
  }

  lemma {:induction false} MathBoundInSpan(text: string, prev: nat, bounds: seq<nat>, b: nat) returns (open: nat)
    requires EachClosesMath(text, prev, bounds) && StrictlyIncreasing(bounds) && b in bounds
    ensures prev <= open || bounds[0] <= open
    ensures CompleteMath(text, open, b) && Isolated(bounds, open, b)
    decreases |bounds|
  {
    if b == bounds[0] {
      open :| prev <= open && CompleteMath(text, open, b);
    } else {
      TailMembers(bounds);
      open := MathBoundInSpan(text, bounds[0], bounds[1..], b);
    }
  }

  lemma {:induction false} MathBoundOpener(text: string, spans: seq<(nat, nat)>, b: nat) returns (open: nat)
    requires SpansWithin(spans, |text|) && b in ScanSpans(text, spans).bounds
    requires forall i, j :: 0 <= i < j < |spans| ==> spans[i].1 <= spans[j].0
    ensures CompleteMath(text, open, b) && Covers(spans, open, b)
    ensures Isolated(ScanSpans(text, spans).bounds, open, b)
  {
    var a, z, rest := spans[0].0, spans[0].1, spans[1..];
    var first, r := ScanSpan(text, a, z), ScanSpans(text, rest);
    ScanSpanOk(text, a, z);
    ScanSpansInside(text, rest);
    forall x | x in r.bounds ensures z < x {
      CoversTail(spans, x - 2, x);
    }
    if b in first.bounds {
      ScanSpanClosesMath(text, a, a, z);
      open := MathBoundInSpan(text, a, first.bounds, b);
      assert first.bounds[0] in first.bounds;
      assert spans[0].0 <= open < b <= spans[0].1;
    } else {
      open := MathBoundOpener(text, rest, b);
      CoversTail(spans, open, b);
    }
  }

  lemma {:induction false} MathBoundComplete(text: string, b: nat) returns (open: nat)
    requires b in Math(text).bounds
    ensures open < b && CompleteMath(text, open, b) && Isolated(Boundaries(text), open, b)
  {
    ProseSpansOk(text);
    open := MathBoundOpener(text, ProseSpans(text), b);
  }

  // ----- the promises, as a reader of the view sees them -----

  /** A chunk from `a` to `b` ends with a complete math expression or a complete fence that opens inside it. */
  ghost predicate EndsComplete(text: string, a: nat, b: nat) {
    exists open :: a <= open < b && (CompleteMath(text, open, b) || CompleteFence(text, open, b))
  }

  /** Chunk `k` is the text between boundaries `k - 1` and `k`. */
  lemma {:induction false} ChunkIs(text: string, prev: nat, bounds: seq<nat>, k: nat)
    requires k < |bounds|
    ensures Chunks(text, prev, bounds)[k] == Slice(text, if k == 0 then prev else bounds[k - 1], bounds[k])
    decreases k
  {
    if k > 0 {
      ChunkIs(text, bounds[0], bounds[1..], k - 1);
    }
  }

  lemma {:induction false} CutIsLossless(text: string, bounds: seq<nat>, cutoff: nat)
    requires StrictlyIncreasing(bounds) && cutoff <= |text| && forall b :: b in bounds ==> b <= cutoff
    ensures Concat(Chunks(text, 0, bounds)) + Slice(text, Last(0, bounds), cutoff) == text[..cutoff]
    ensures |Concat(Chunks(text, 0, bounds))| == Last(0, bounds)
  {
    ChunksConcat(text, 0, bounds);
    var last := Last(0, bounds);
    assert bounds != [] ==> last in bounds;
    assert text[..cutoff] == text[0..last] + text[last..cutoff];
  }

  /** Nothing is lost: the chunks and the tail are the text up to the cutoff, all of it when nothing is pending. */
  lemma {:induction false} Lossless(text: string)
    ensures var v := Split(text);
            && Cutoff(text) <= |text| && Concat(v.settled) + v.tail == text[..Cutoff(text)]
            && (v.pending.NoPending? ==> Concat(v.settled) + v.tail == text)
            && |Concat(v.settled)| == Last(0, SettledBounds(text))
  {
    SettledBoundsAre(text);
    CutoffIs(text);
    CutIsLossless(text, SettledBounds(text), Cutoff(text));
    assert text[..|text|] == text;
  }

  lemma {:induction false} BoundaryComplete(text: string, prev: nat, b: nat)
    requires b in Boundaries(text) && prev < b && (prev == 0 || prev in Boundaries(text))
    ensures EndsComplete(text, prev, b)
  {
    var open: nat;
    if b in Fences(text).bounds {
      open := FenceBoundComplete(text, b);
    } else {
      open := MathBoundComplete(text, b);
    }
    assert prev <= open < b;
  }

  /** Every chunk is non-empty and ends where a math expression or a fence that opened in that chunk is complete. */
  lemma {:induction false} ChunksAreComplete(text: string, k: nat)
    requires k < |Split(text).settled|
    ensures var settled := Split(text).settled;
            var a, b := |Concat(settled[..k])|, |Concat(settled[..k + 1])|;
            a < b <= |text| && settled[k] == text[a..b] && EndsComplete(text, a, b)
  {
    var bounds := SettledBounds(text);
    SettledBoundsAre(text);
    ChunkIs(text, 0, bounds, k);
    ChunkEndsAt(text, bounds, k);
    ChunkEndsAt(text, bounds, k + 1);
    SettledComplete(text, k);
  }

  lemma {:induction false} SettledComplete(text: string, k: nat)
    requires k < |SettledBounds(text)|
    ensures var prev, b := if k == 0 then 0 else SettledBounds(text)[k - 1], SettledBounds(text)[k];
            prev < b <= |text| && EndsComplete(text, prev, b)
  {
    SettledBoundsAre(text);
    var bounds := SettledBounds(text);
    var prev, b := if k == 0 then 0 else bounds[k - 1], bounds[k];
    assert b in bounds && (k > 0 ==> prev in bounds);
    BoundaryComplete(text, prev, b);
  }

  lemma {:induction false} ChunkEndsAt(text: string, bounds: seq<nat>, k: nat)
    requires k <= |bounds| && StrictlyIncreasing(bounds) && forall b :: b in bounds ==> 0 < b <= |text|
    ensures |Concat(Chunks(text, 0, bounds)[..k])| == if k == 0 then 0 else bounds[k - 1]
  {
    ChunksPrefix(text, 0, bounds, k);
    assert forall b :: b in bounds[..k] ==> b in bounds;
    ChunksConcat(text, 0, bounds[..k]);
  }
}
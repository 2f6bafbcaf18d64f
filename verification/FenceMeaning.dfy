/**
 * What the fence pass finds, said of the lines alone: which lines open a fence, which line ends it, and what is prose.
 */
module FenceMeaning {
  import opened Wrappers
  import opened StreamingMath
  import opened StreamingScan
  import opened StreamingSafety

  // ----- the lines of a text -----

  /**
   * The lines cover a text of length `n` from `off` on, each starts right after the one before, and a line with a
   * marker is not empty.
   */
  ghost predicate Rows(lines: seq<Line>, off: nat, n: nat) {
    && lines != [] && lines[0].start == off && lines[|lines| - 1].end == n
    && (forall i :: 0 <= i < |lines| ==> off <= lines[i].start <= lines[i].end <= n)
    && (forall i, j :: 0 <= i < j < |lines| ==> lines[i].end < lines[j].start)
    && (forall i, j :: 0 <= i && j == i + 1 && j < |lines| ==> lines[j].start == lines[i].end + 1)
    && (forall i :: 0 <= i < |lines| && lines[i].marker.Some? ==>
          |lines[i].marker.value| >= 3 && lines[i].start < lines[i].end)
  }

  lemma {:induction false} ChainedRows(off: nat, lines: seq<Line>, n: nat)
    requires Chained(off, lines, n) && off <= n
    ensures Rows(lines, off, n)
    decreases |lines|
  {
    var rest := lines[1..];
    if rest != [] {
      ChainedRows(lines[0].end + 1, rest, n);
      RowsPush(lines[0], rest, off, n);
      assert lines == [lines[0]] + rest;
    }
  }

  lemma {:induction false} RowsPush(line: Line, rest: seq<Line>, off: nat, n: nat)
    requires line.start == off <= line.end && Rows(rest, line.end + 1, n)
    requires line.marker.Some? ==> |line.marker.value| >= 3 && line.start < line.end
    ensures Rows([line] + rest, off, n)
  {
    var lines := [line] + rest;
    assert forall i :: 0 < i < |lines| ==> lines[i] == rest[i - 1];
    assert forall i :: 0 <= i < |rest| ==> line.end < rest[i].start;
  }

  /** The lines of a text: no newline inside, one after each but the last, and the marker that the pattern matches. */
  lemma {:induction false} LinesAre(text: string)
    ensures Rows(Lines(text), 0, |text|)
    ensures forall line :: line in Lines(text) ==>
              && line.start <= line.end <= |text| && '\n' !in text[line.start..line.end]
              && (line.end < |text| ==> text[line.end] == '\n')
              && line.marker == FenceMarker(text[line.start..line.end])
  {
    LinesChained(text);
    ChainedRows(0, Lines(text), |text|);
    RangesAreLines(text, 0);
    MarkedAreLines(text, Ranges(text, 0));
    forall line | line in Lines(text)
      ensures line.start <= line.end <= |text| && '\n' !in text[line.start..line.end]
      ensures line.end < |text| ==> text[line.end] == '\n'
      ensures line.marker == FenceMarker(text[line.start..line.end])
    {
      LineIs(text, line);
    }
  }

  lemma {:induction false} LineIs(text: string, line: Line)
    requires line.start <= |text| && line.end == LineEnd(text, line.start)
    requires line.marker == FenceMarker(LineAt(text, line.start))
    ensures line.start <= line.end <= |text| && '\n' !in text[line.start..line.end]
    ensures line.end < |text| ==> text[line.end] == '\n'
    ensures line.marker == FenceMarker(text[line.start..line.end])
  {
    LineEndIs(text, line.start);
  }

  // ----- which lines open and end a fence -----

  /** The later line `j` would end a fence opened on line `i`: the same character, at least as many of them. */
  ghost predicate Ends(lines: seq<Line>, i: nat, j: nat) {
    && i < j < |lines| && lines[i].marker.Some? && lines[j].marker.Some?
    && lines[i].marker.value != "" && lines[j].marker.value != ""
    && lines[j].marker.value[0] == lines[i].marker.value[0]
    && |lines[j].marker.value| >= |lines[i].marker.value|
  }

  /** Line `j` is the first that would. */
  ghost predicate FirstEnd(lines: seq<Line>, i: nat, j: nat) {
    Ends(lines, i, j) && forall d: nat :: d < j ==> !Ends(lines, i, d)
  }

  ghost predicate EndsBefore(lines: seq<Line>, i: nat, n: nat) {
    exists j: nat :: j < n && FirstEnd(lines, i, j)
  }

  /** A fence opens on line `i`: it carries a marker, and every fence that opened before it has ended before it. */
  ghost predicate Opens(lines: seq<Line>, i: nat)
    decreases i
  {
    i < |lines| && lines[i].marker.Some? && forall o: nat :: o < i && Opens(lines, o) ==> EndsBefore(lines, o, i)
  }

  /** `b` is the end of the line that ends a fence, one of the first `n`. */
  ghost predicate EndsAt(lines: seq<Line>, b: nat, n: nat) {
    exists i: nat, j: nat :: j < n && j < |lines| && Opens(lines, i) && FirstEnd(lines, i, j) && lines[j].end == b
  }

  /** A fence opens on line `i`, and none of the first `n` lines ends it. */
  ghost predicate StaysOpen(lines: seq<Line>, i: nat, n: nat) {
    i < n && Opens(lines, i) && forall j: nat :: j < n ==> !Ends(lines, i, j)
  }

  /** What the pass knows after the first `n` lines. */
  ghost predicate Knows(lines: seq<Line>, n: nat, st: FenceState, open: nat) {
    && (forall b :: b in st.bounds <==> EndsAt(lines, b, n))
    && (forall o: nat :: o < n && Opens(lines, o) ==> (st.open.Some? && o == open) || EndsBefore(lines, o, n))
    && (st.open.Some? ==>
      StaysOpen(lines, open, n) && st.open.value == Fence(lines[open].marker.value, lines[open].start))
  }

  lemma {:induction false} FirstEndIsOne(lines: seq<Line>, i: nat, j: nat, k: nat)
    requires FirstEnd(lines, i, j) && FirstEnd(lines, i, k)
    ensures j == k
  {
    assert j < k ==> !Ends(lines, i, j);
  }

  lemma {:induction false} EndsOnce(lines: seq<Line>, i: nat, n: nat)
    ensures EndsBefore(lines, i, n) ==> !FirstEnd(lines, i, n)
  {
    forall j: nat | j < n && FirstEnd(lines, i, j) ensures !FirstEnd(lines, i, n) {
      assert Ends(lines, i, j);
    }
  }

  lemma {:induction false} EndsBeforeGrows(lines: seq<Line>, i: nat, n: nat)
    ensures EndsBefore(lines, i, n + 1) <==> EndsBefore(lines, i, n) || FirstEnd(lines, i, n)
  {
  }

  /** Only the open fence can end on line `n`. */
  lemma {:induction false} EndsAtGrows(lines: seq<Line>, b: nat, n: nat, st: FenceState, open: nat)
    requires n < |lines| && Knows(lines, n, st, open)
    ensures EndsAt(lines, b, n + 1) <==>
            EndsAt(lines, b, n) || (st.open.Some? && FirstEnd(lines, open, n) && lines[n].end == b)
  {
    if EndsAt(lines, b, n + 1) {
      var i: nat, j: nat :| j < n + 1 && j < |lines| && Opens(lines, i) && FirstEnd(lines, i, j) && lines[j].end == b;
      EndsOnce(lines, i, n);
    }
    if EndsAt(lines, b, n) {
      var i: nat, j: nat :| j < n && j < |lines| && Opens(lines, i) && FirstEnd(lines, i, j) && lines[j].end == b;
    }
  }

  /** The fence pass goes on knowing. */
  lemma {:induction false} LineKnown(lines: seq<Line>, n: nat, st: FenceState, open: nat)
    requires n < |lines| && Knows(lines, n, st, open)
    requires forall i :: 0 <= i < |lines| && lines[i].marker.Some? ==> lines[i].marker.value != ""
    ensures Knows(lines, n + 1, FenceStep(st, lines[n]), if st.open.None? then n else open)
  {
    var next, open' := FenceStep(st, lines[n]), if st.open.None? then n else open;
    forall b ensures b in next.bounds <==> EndsAt(lines, b, n + 1) {
      EndsAtGrows(lines, b, n, st, open);
      OpenEndsHere(lines, n, st, open);
    }
    forall o: nat | o < n + 1 && Opens(lines, o)
      ensures (next.open.Some? && o == open') || EndsBefore(lines, o, n + 1)
    {
      EndsBeforeGrows(lines, o, n);
      OpenEndsHere(lines, n, st, open);
    }
    if next.open.Some? {
      OpenEndsHere(lines, n, st, open);
    }
  }

  /** Whether the open fence ends on line `n`, as the pass sees it and as it is; and whether a fence opens there. */
  lemma {:induction false} OpenEndsHere(lines: seq<Line>, n: nat, st: FenceState, open: nat)
    requires n < |lines| && Knows(lines, n, st, open)
    requires forall i :: 0 <= i < |lines| && lines[i].marker.Some? ==> lines[i].marker.value != ""
    ensures st.open.Some? ==>
              && (FirstEnd(lines, open, n) <==> Ends(lines, open, n)) && !Opens(lines, n)
              && (Ends(lines, open, n) <==> FenceStep(st, lines[n]).open.None?)
    ensures st.open.None? ==> (Opens(lines, n) <==> lines[n].marker.Some?)
  {
    if st.open.Some? {
      assert !EndsBefore(lines, open, n);
      assert lines[open].marker.Some?;
    }
  }

  // ----- what is prose -----

  /** The fence that opens on line `i` holds position `k`, from its first line to the end of its last. */
  ghost predicate Holds(lines: seq<Line>, i: nat, k: nat) {
    Opens(lines, i) && lines[i].start <= k && forall j: nat :: FirstEnd(lines, i, j) ==> k < lines[j].end
  }

  ghost predicate InFence(lines: seq<Line>, k: nat) {
    exists i: nat :: Holds(lines, i, k)
  }

  /** The positions from `a` to `z` are prose, and neither end could be moved outwards in a text of length `n`. */
  ghost predicate ProseRun(lines: seq<Line>, n: nat, a: nat, z: nat) {
    && a < z <= n && (forall k: nat :: a <= k < z ==> !InFence(lines, k))
    && (a > 0 ==> InFence(lines, a - 1)) && (z < n ==> InFence(lines, z))
  }

  /** The spans are the prose runs that end by `m`. */
  ghost predicate RunsUpTo(lines: seq<Line>, n: nat, spans: seq<(nat, nat)>, m: nat) {
    forall a: nat, z: nat :: (a, z) in spans <==> ProseRun(lines, n, a, z) && z <= m
  }

  /** Where line `n` starts, or would start. */
  function StartOf(lines: seq<Line>, n: nat): nat
    requires n <= |lines|
  {
    if n == 0 then 0 else lines[n - 1].end + 1
  }

  /** What the pass knows of the prose before line `n`. */
  ghost predicate KnowsProse(lines: seq<Line>, size: nat, n: nat, st: FenceState, open: nat)
    requires n <= |lines|
  {
    var edge := if st.open.None? then st.spanStart else st.open.value.start;
    && (st.spanStart > 0 ==> InFence(lines, st.spanStart - 1))
    && st.spanStart <= edge <= StartOf(lines, n) && (st.spanStart > 0 && st.open.None? ==> edge < StartOf(lines, n))
    && RunsUpTo(lines, size, st.spans, edge)
    && (forall k: nat :: edge <= k < StartOf(lines, n) ==> (InFence(lines, k) <==> st.open.Some?))
  }

  /** Everything that opened by position `k` has ended by it: prose. */
  lemma {:induction false} EndedIsProse(lines: seq<Line>, size: nat, n: nat, st: FenceState, open: nat, k: nat)
    requires Rows(lines, 0, size) && n <= |lines| && Knows(lines, n, st, open) && st.open.None?
    requires StartOf(lines, n) <= k && (n < |lines| ==> !Opens(lines, n) && k <= lines[n].end)
    ensures !InFence(lines, k)
  {
    forall i: nat | Opens(lines, i) && lines[i].start <= k ensures !Holds(lines, i, k) {
      if i < n {
        var j: nat :| j < n && FirstEnd(lines, i, j);
        assert lines[j].end <= lines[n - 1].end < k;
      }
    }
  }

  /** Positions of lines read while a fence is open are inside it. */
  lemma {:induction false} OpenHolds(lines: seq<Line>, size: nat, n: nat, open: nat, k: nat)
    requires Rows(lines, 0, size) && n < |lines| && open <= n && Opens(lines, open)
    requires forall j: nat :: j < n ==> !Ends(lines, open, j)
    requires lines[n].start <= k <= lines[n].end && (Ends(lines, open, n) ==> k < lines[n].end)
    ensures InFence(lines, k)
  {
    forall j: nat | FirstEnd(lines, open, j) ensures k < lines[j].end {
      assert j >= n;
    }
    assert Holds(lines, open, k);
  }

  /** The end of the line that ends a fence is prose again. */
  lemma {:induction false} EndIsProse(lines: seq<Line>, size: nat, n: nat, st: FenceState, open: nat)
    requires Rows(lines, 0, size) && n < |lines| && Knows(lines, n, st, open)
    requires st.open.Some? && FirstEnd(lines, open, n) && !Opens(lines, n)
    ensures !InFence(lines, lines[n].end)
  {
    var k := lines[n].end;
    forall i: nat | Opens(lines, i) && lines[i].start <= k ensures !Holds(lines, i, k) {
      if i < n && i != open {
        var j: nat :| j < n && FirstEnd(lines, i, j);
        assert lines[j].end < lines[n].start;
      }
    }
  }

  /** No run ends inside a fence. */
  lemma {:induction false} NoRunInside(lines: seq<Line>, size: nat, spans: seq<(nat, nat)>, a: nat, z: nat)
    requires RunsUpTo(lines, size, spans, a) && a <= z && forall k: nat :: a <= k < z ==> InFence(lines, k)
    ensures RunsUpTo(lines, size, spans, z)
  {
    forall x: nat, y: nat | a < y <= z ensures !ProseRun(lines, size, x, y) {
      assert InFence(lines, y - 1);
    }
  }

  lemma {:induction false} FencedLineKnown(lines: seq<Line>, size: nat, n: nat, st: FenceState, open: nat)
    requires Rows(lines, 0, size) && n < |lines| && Knows(lines, n, st, open) && KnowsProse(lines, size, n, st, open)
    requires st.open.Some?
    ensures KnowsProse(lines, size, n + 1, FenceStep(st, lines[n]), open)
  {
    var line, next := lines[n], FenceStep(st, lines[n]);
    OpenEndsHere(lines, n, st, open);
    forall k: nat | line.start <= k < line.end ensures InFence(lines, k) {
      OpenHolds(lines, size, n, open, k);
    }
    if next.open.Some? {
      OpenHolds(lines, size, n, open, line.end);
    } else {
      EndIsProse(lines, size, n, st, open);
      NoRunInside(lines, size, st.spans, st.open.value.start, line.end);
    }
  }

  lemma {:induction false} OpeningLineKnown(lines: seq<Line>, size: nat, n: nat, st: FenceState, open: nat)
    requires Rows(lines, 0, size) && n < |lines| && Knows(lines, n, st, open) && KnowsProse(lines, size, n, st, open)
    requires st.open.None? && lines[n].marker.Some?
    ensures KnowsProse(lines, size, n + 1, FenceStep(st, lines[n]), n)
  {
    var line := lines[n];
    OpenEndsHere(lines, n, st, open);
    forall k: nat | line.start <= k <= line.end ensures InFence(lines, k) {
      OpenHolds(lines, size, n, n, k);
    }
    RunEnds(lines, size, st.spans, st.spanStart, line.start);
  }

  lemma {:induction false} ProseKnown(lines: seq<Line>, size: nat, n: nat, st: FenceState, open: nat)
    requires Rows(lines, 0, size) && n < |lines| && Knows(lines, n, st, open) && KnowsProse(lines, size, n, st, open)
    ensures KnowsProse(lines, size, n + 1, FenceStep(st, lines[n]), if st.open.None? then n else open)
  {
    if st.open.Some? {
      FencedLineKnown(lines, size, n, st, open);
    } else if lines[n].marker.Some? {
      OpeningLineKnown(lines, size, n, st, open);
    } else {
      OpenEndsHere(lines, n, st, open);
      forall k: nat | lines[n].start <= k <= lines[n].end ensures !InFence(lines, k) {
        EndedIsProse(lines, size, n, st, open, k);
      }
    }
  }

  /** The prose from `a` on ends at `z`: at most one more run. */
  lemma {:induction false} RunEnds(lines: seq<Line>, size: nat, spans: seq<(nat, nat)>, a: nat, z: nat)
    requires RunsUpTo(lines, size, spans, a) && a <= z <= size && (z < size ==> InFence(lines, z))
    requires (a > 0 ==> InFence(lines, a - 1)) && forall k: nat :: a <= k < z ==> !InFence(lines, k)
    ensures RunsUpTo(lines, size, spans + SpanIfAny(a, z), z)
  {
  }

  // ----- the whole pass -----

  lemma {:induction false} PassKnows(lines: seq<Line>, size: nat, n: nat, st: FenceState, open: nat) returns (last: nat)
    requires Rows(lines, 0, size) && n <= |lines| && Knows(lines, n, st, open) && KnowsProse(lines, size, n, st, open)
    ensures var r := FencePass(st, lines[n..]);
            Knows(lines, |lines|, r, last) && KnowsProse(lines, size, |lines|, r, last)
    decreases |lines| - n
  {
    if n == |lines| {
      last := open;
    } else {
      assert lines[n..][1..] == lines[n + 1..];
      LineKnown(lines, n, st, open);
      ProseKnown(lines, size, n, st, open);
      last := PassKnows(lines, size, n + 1, FenceStep(st, lines[n]), if st.open.None? then n else open);
    }
  }

  /** A fence ends at `b`. */
  ghost predicate FenceEnd(lines: seq<Line>, b: nat) {
    exists i: nat, j: nat :: Opens(lines, i) && FirstEnd(lines, i, j) && lines[j].end == b
  }

  /** A fence opens on line `i`, and no line ends it. */
  ghost predicate NeverEnds(lines: seq<Line>, i: nat) {
    Opens(lines, i) && forall j: nat :: !Ends(lines, i, j)
  }

  /**
   * The pass over a text finds exactly the ends of its fences, the fence that never ends, if any, and the runs of prose
   * between fences.
   */
  lemma {:induction false} FencesMean(text: string)
    ensures forall b :: b in Fences(text).bounds <==> FenceEnd(Lines(text), b)
    ensures Fences(text).open.Some? <==> exists i: nat :: NeverEnds(Lines(text), i)
    ensures forall i: nat :: NeverEnds(Lines(text), i) ==>
              Fences(text).open == Some(Fence(Lines(text)[i].marker.value, Lines(text)[i].start))
    ensures forall a: nat, z: nat :: (a, z) in ProseSpans(text) <==> ProseRun(Lines(text), |text|, a, z)
  {
    var lines := Lines(text);
    LinesAre(text);
    assert lines[0..] == lines;
    StartKnown(lines, |text|);
    var last := PassKnows(lines, |text|, 0, NO_FENCES, 0);
    EndKnown(lines, |text|, Fences(text), last);
  }

  /** What the pass knows after the last line. */
  lemma {:induction false} EndKnown(lines: seq<Line>, size: nat, st: FenceState, last: nat)
    requires Rows(lines, 0, size) && Knows(lines, |lines|, st, last) && KnowsProse(lines, size, |lines|, st, last)
    ensures forall b :: b in st.bounds <==> FenceEnd(lines, b)
    ensures st.open.Some? <==> exists i: nat :: NeverEnds(lines, i)
    ensures forall i: nat :: NeverEnds(lines, i) ==> st.open == Some(Fence(lines[i].marker.value, lines[i].start))
    ensures RunsUpTo(lines, size, FinishSpans(st, size), size)
  {
    EndsKnown(lines, st, last);
    OpenKnown(lines, st, last);
    if st.open.Some? {
      NoRunInside(lines, size, st.spans, st.open.value.start, size);
    } else {
      RunEnds(lines, size, st.spans, st.spanStart, size);
    }
  }

  lemma {:induction false} EndsKnown(lines: seq<Line>, st: FenceState, last: nat)
    requires Knows(lines, |lines|, st, last)
    ensures forall b :: b in st.bounds <==> FenceEnd(lines, b)
  {
    forall b ensures b in st.bounds <==> FenceEnd(lines, b) {
      assert EndsAt(lines, b, |lines|) <==> FenceEnd(lines, b);
    }
  }

  lemma {:induction false} OpenKnown(lines: seq<Line>, st: FenceState, last: nat)
    requires Knows(lines, |lines|, st, last)
    ensures st.open.Some? <==> exists i: nat :: NeverEnds(lines, i)
    ensures forall i: nat :: NeverEnds(lines, i) ==> st.open == Some(Fence(lines[i].marker.value, lines[i].start))
  {
    if st.open.Some? {
      assert NeverEnds(lines, last);
    }
    forall i: nat | NeverEnds(lines, i) ensures st.open.Some? && i == last {
      assert !EndsBefore(lines, i, |lines|);
    }
  }

  lemma {:induction false} StartKnown(lines: seq<Line>, size: nat)
    ensures Knows(lines, 0, NO_FENCES, 0) && KnowsProse(lines, size, 0, NO_FENCES, 0)
  {
  }
}

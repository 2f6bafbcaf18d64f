/** Structure of the fence pass and of the boundaries both passes collect. */
module StreamingFences {
  import opened Wrappers
  import opened StreamingMath
  import opened StreamingScan
  import Sorting

  /** The state of the fence pass once the lines before `off` have been read. */
  ghost predicate FenceOk(off: nat, st: FenceState) {
    && (st.spanStart == 0 || st.spanStart < off)
    && (forall k :: 0 <= k < |st.bounds| ==> 0 < st.bounds[k] <= st.spanStart)
    && (forall k :: 0 <= k < |st.spans| ==> st.spans[k].0 < st.spans[k].1 < off)
    && match st.open
       case Some(f) =>
         && st.spanStart <= f.start < off
         && (forall k :: 0 <= k < |st.spans| ==> st.spans[k].1 <= f.start)
       case None => forall k :: 0 <= k < |st.spans| ==> st.spans[k].1 < st.spanStart
  }

  lemma {:induction false} FenceStepKeepsOk(st: FenceState, line: Line)
    requires FenceOk(line.start, st) && line.start <= line.end
    ensures FenceOk(line.end + 1, FenceStep(st, line))
  {
  }

  lemma {:induction false} FencePassOk(off: nat, st: FenceState, lines: seq<Line>, n: nat)
    requires FenceOk(off, st) && Chained(off, lines, n)
    ensures FenceOk(n + 1, FencePass(st, lines))
    decreases |lines|
  {
    if lines != [] {
      FenceStepKeepsOk(st, lines[0]);
      FencePassOk(lines[0].end + 1, FenceStep(st, lines[0]), lines[1..], n);
    }
  }

  lemma {:induction false} FencesOk(text: string)
    ensures FenceOk(|text| + 1, Fences(text))
  {
    LinesChained(text);
    FencePassOk(0, NO_FENCES, Lines(text), |text|);
  }

  /** Boundaries increase; spans are ordered, and none contains a boundary after its start. */
  ghost predicate Ordered(bounds: seq<nat>, spans: seq<(nat, nat)>) {
    && StrictlyIncreasing(bounds)
    && (forall i, j :: 0 <= i < j < |spans| ==> spans[i].1 <= spans[j].0)
    && (forall k, x :: 0 <= k < |spans| && 0 <= x < |bounds| ==> bounds[x] <= spans[k].0 || spans[k].1 < bounds[x])
  }

  lemma {:induction false} SpanKeepsOrder(st: FenceState, end: nat)
    requires FenceOk(end, st) && Ordered(st.bounds, st.spans) && st.open.None?
    ensures Ordered(st.bounds, st.spans + SpanIfAny(st.spanStart, end))
  {
  }

  lemma {:induction false} BoundKeepsOrder(st: FenceState, end: nat)
    requires FenceOk(end, st) && Ordered(st.bounds, st.spans) && st.open.Some?
    ensures Ordered(st.bounds + [end], st.spans)
  {
  }

  lemma {:induction false} FencePassOrdered(off: nat, st: FenceState, lines: seq<Line>, n: nat)
    requires FenceOk(off, st) && Chained(off, lines, n) && Ordered(st.bounds, st.spans)
    ensures var r := FencePass(st, lines); Ordered(r.bounds, r.spans)
    decreases |lines|
  {
    if lines != [] {
      var line := lines[0];
      FenceStepKeepsOk(st, line);
      if st.open.None? {
        SpanKeepsOrder(st, line.start);
      } else {
        EndIsLater(line.start, line.end, st);
        BoundKeepsOrder(st, line.end);
      }
      FencePassOrdered(line.end + 1, FenceStep(st, line), lines[1..], n);
    }
  }

  lemma {:induction false} EndIsLater(off: nat, end: nat, st: FenceState)
    requires FenceOk(off, st) && off <= end
    ensures FenceOk(end, st)
  {
  }

  lemma {:induction false} ProseSpansOk(text: string)
    ensures Ordered(Fences(text).bounds, ProseSpans(text))
    ensures forall k :: 0 <= k < |ProseSpans(text)| ==> ProseSpans(text)[k].0 < ProseSpans(text)[k].1 <= |text|
    ensures Fences(text).open.Some? ==>
              && Fences(text).open.value.start <= |text|
              && forall k :: 0 <= k < |ProseSpans(text)| ==> ProseSpans(text)[k].1 <= Fences(text).open.value.start
  {
    FencesOk(text);
    LinesChained(text);
    FencePassOrdered(0, NO_FENCES, Lines(text), |text|);
    var st := Fences(text);
    if st.open.None? {
      assert forall k :: 0 <= k < |st.spans| ==> st.spans[k].1 < st.spanStart;
    }
  }

  // ----- the math pass over all spans -----

  /** Some span contains `text[lo..hi]`. */
  ghost predicate Covers(spans: seq<(nat, nat)>, lo: int, hi: nat) {
    exists k :: 0 <= k < |spans| && spans[k].0 <= lo < hi <= spans[k].1
  }

  lemma {:induction false} CoversTail(spans: seq<(nat, nat)>, lo: int, hi: nat)
    requires spans != [] && Covers(spans[1..], lo, hi)
    ensures Covers(spans, lo, hi)
    ensures (forall k :: 0 < k < |spans| ==> spans[0].1 <= spans[k].0) ==> spans[0].1 <= lo
  {
    var j :| 0 <= j < |spans[1..]| && spans[1..][j].0 <= lo < hi <= spans[1..][j].1;
    assert spans[j + 1] == spans[1..][j];
  }

  /** Boundaries and halt of the math pass lie inside spans. */
  ghost predicate ScanInside(spans: seq<(nat, nat)>, r: MathScan) {
    && (forall b :: b in r.bounds ==> Covers(spans, b - 2, b))
    && (r.halt.Some? ==> Covers(spans, r.halt.value, r.halt.value + 1))
  }

  lemma {:induction false} ScanSpansInside(text: string, spans: seq<(nat, nat)>)
    requires SpansWithin(spans, |text|)
    ensures ScanInside(spans, ScanSpans(text, spans))
  {
    if spans != [] {
      var first := ScanSpan(text, spans[0].0, spans[0].1);
      ScanSpanOk(text, spans[0].0, spans[0].1);
      var rest := ScanSpans(text, spans[1..]);
      ScanSpansInside(text, spans[1..]);
      forall b | b in first.bounds ensures Covers(spans, b - 2, b) {
        assert spans[0].0 <= b - 2 < b <= spans[0].1;
      }
      forall b | b in rest.bounds ensures Covers(spans, b - 2, b) {
        CoversTail(spans, b - 2, b);
      }
      if first.halt.Some? {
        assert spans[0].0 <= first.halt.value < first.halt.value + 1 <= spans[0].1;
      } else if rest.halt.Some? {
        CoversTail(spans, rest.halt.value, rest.halt.value + 1);
      }
    }
  }

  ghost predicate UpToHalt(r: MathScan) {
    r.halt.Some? ==> forall k :: 0 <= k < |r.bounds| ==> r.bounds[k] <= r.halt.value
  }

  lemma {:induction false} IncreasingAppend(a: seq<nat>, b: seq<nat>, m: nat)
    requires StrictlyIncreasing(a) && StrictlyIncreasing(b)
    requires (forall x :: x in a ==> x <= m) && (forall x :: x in b ==> m < x)
    ensures StrictlyIncreasing(a + b)
  {
    forall i, j | 0 <= i < j < |a + b| ensures (a + b)[i] < (a + b)[j] {
      if i < |a| <= j {
        assert (a + b)[i] in a && (a + b)[j] in b;
      }
    }
  }

  lemma {:induction false} ScanSpansIncreasing(text: string, spans: seq<(nat, nat)>)
    requires SpansWithin(spans, |text|)
    requires forall i, j :: 0 <= i < j < |spans| ==> spans[i].1 <= spans[j].0
    ensures var r := ScanSpans(text, spans); StrictlyIncreasing(r.bounds) && UpToHalt(r)
  {
    if spans != [] {
      var first := ScanSpan(text, spans[0].0, spans[0].1);
      ScanSpanOk(text, spans[0].0, spans[0].1);
      var rest := ScanSpans(text, spans[1..]);
      ScanSpansIncreasing(text, spans[1..]);
      ScanSpansInside(text, spans[1..]);
      forall b | b in rest.bounds ensures spans[0].1 < b {
        CoversTail(spans, b - 2, b);
      }
      IncreasingAppend(first.bounds, rest.bounds, spans[0].1);
      if rest.halt.Some? {
        CoversTail(spans, rest.halt.value, rest.halt.value + 1);
      }
    }
  }

  lemma {:induction false} ScanSpansAppend(text: string, a: seq<(nat, nat)>, b: seq<(nat, nat)>)
    requires SpansWithin(a, |text|) && SpansWithin(b, |text|)
    ensures ScanSpans(text, a + b) == Then(ScanSpans(text, a), ScanSpans(text, b))
  {
    if a == [] {
      assert a + b == b;
    } else {
      assert (a + b)[1..] == a[1..] + b;
      ScanSpansAppend(text, a[1..], b);
      var first, ra, rb := ScanSpan(text, a[0].0, a[0].1), ScanSpans(text, a[1..]), ScanSpans(text, b);
      assert first.bounds + (ra.bounds + rb.bounds) == first.bounds + ra.bounds + rb.bounds;
    }
  }

  lemma {:induction false} ScanSpansSame(t: string, ts: string, spans: seq<(nat, nat)>)
    requires t <= ts && forall k :: 0 <= k < |spans| ==> spans[k].1 < |t|
    ensures ScanSpans(t, spans) == ScanSpans(ts, spans)
  {
    if spans != [] {
      ScanSpanSame(t, ts, spans[0].0, spans[0].1);
      ScanSpansSame(t, ts, spans[1..]);
    }
  }

  // ----- all boundaries -----

  lemma {:induction false} MathOk(text: string)
    ensures StrictlyIncreasing(Math(text).bounds) && UpToHalt(Math(text))
    ensures ScanInside(ProseSpans(text), Math(text))
    ensures forall b :: b in Math(text).bounds ==> 0 < b <= |text|
    ensures Math(text).halt.Some? ==> Math(text).halt.value < |text|
    ensures Math(text).halt.Some? && Fences(text).open.Some? ==> Math(text).halt.value < Fences(text).open.value.start
  {
    ProseSpansOk(text);
    ScanSpansIncreasing(text, ProseSpans(text));
    ScanSpansInside(text, ProseSpans(text));
  }

  /** The cutoff is the first unclosed opener, else the open fence, else the end of the text. */
  lemma {:induction false} CutoffIs(text: string)
    ensures Cutoff(text) == (if Math(text).halt.Some? then Math(text).halt.value
                             else if Fences(text).open.Some? then Fences(text).open.value.start
                             else |text|)
    ensures Cutoff(text) <= |text|
    ensures PendingOf(text).None? <==> Math(text).halt.None? && Fences(text).open.None?
  {
    MathOk(text);
    ProseSpansOk(text);
  }

  lemma {:induction false} BoundariesDistinct(text: string)
    ensures Sorting.NoDuplicates(Boundaries(text))
    ensures forall b :: b in Boundaries(text) ==> 0 < b <= |text|
  {
    FencesOk(text);
    ProseSpansOk(text);
    MathOk(text);
    var f, m := Fences(text).bounds, Math(text).bounds;
    forall i, j | 0 <= i < |f| && 0 <= j < |m| ensures f[i] != m[j] {
      assert m[j] in m && Covers(ProseSpans(text), m[j] - 2, m[j]);
    }
  }

  lemma {:induction false} UpToMembers(bounds: seq<nat>, cutoff: nat)
    requires StrictlyIncreasing(bounds)
    ensures forall b :: b in UpTo(bounds, cutoff) <==> b in bounds && b <= cutoff
  {
    if bounds != [] && bounds[0] <= cutoff {
      UpToMembers(bounds[1..], cutoff);
      assert bounds == [bounds[0]] + bounds[1..];
    }
  }

  lemma {:induction false} CutSorted(all: seq<nat>, cutoff: nat)
    requires Sorting.NoDuplicates(all)
    ensures var s := UpTo(Sorting.Sort(ASCENDING, all), cutoff);
            StrictlyIncreasing(s) && forall b :: b in s <==> b in all && b <= cutoff
  {
    var sorted := Sorting.Sort(ASCENDING, all);
    Sorting.SortIsSortedPermutation(ASCENDING, all);
    Sorting.PermutationKeepsNoDuplicates(all, sorted);
    forall i, j | 0 <= i < j < |sorted| ensures sorted[i] < sorted[j] {
      assert ASCENDING(sorted[i], sorted[j]);
    }
    UpToMembers(sorted, cutoff);
  }

  /** Chunks are cut, in order and once each, at exactly the boundaries at or below the cutoff. */
  lemma {:induction false} SettledBoundsAre(text: string)
    ensures StrictlyIncreasing(SettledBounds(text))
    ensures forall b :: b in SettledBounds(text) <==> b in Boundaries(text) && b <= Cutoff(text)
    ensures forall b :: b in SettledBounds(text) ==> 0 < b <= Cutoff(text) <= |text|
  {
    BoundariesDistinct(text);
    CutSorted(Boundaries(text), Cutoff(text));
    CutoffIs(text);
  }
}

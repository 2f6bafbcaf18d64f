/**
 * Settled chunks are append-only: splitting an extended text cuts every chunk the shorter text had, in place
 * and unchanged, exactly unless the extension lengthens a line that has just closed a fence.
 */
module StreamingAppendOnly {
  import opened Wrappers
  import opened StreamingMath
  import opened StreamingScan
  import opened StreamingFences
  import Sorting
  import opened Strings

  // ----- the lines of a text and of its extension -----

  /** The last line `a` of `t` and the line `b` of `ts` that starts at the same place. */
  ghost predicate LastLineGrows(t: string, ts: string, a: Line, b: Line) {
    && a.start == b.start <= a.end == |t| <= b.end
    && (|t| < |ts| ==> (b.end == |t| <==> ts[|t|] == '\n'))
    && (b.end == |t| ==> a == b)
    && MarkersGrow(a.marker, b.marker)
    && (a.marker.Some? ==> a.start < |t|)
    && (a.marker.None? && b.marker.Some? ==> '$' !in t[a.start..])
  }

  /** Both texts have the same lines before the last line of the shorter one. */
  ghost predicate LinesGrow(t: string, ts: string, a: seq<Line>, b: seq<Line>)
    decreases |a|
  {
    && a != [] && b != []
    && if |a| == 1 then a[0].start <= |t| && LastLineGrows(t, ts, a[0], b[0])
       else a[0] == b[0] && LinesGrow(t, ts, a[1..], b[1..])
  }

  ghost predicate RangesGrow(t: string, ts: string, a: seq<(nat, nat)>, b: seq<(nat, nat)>)
    decreases |a|
  {
    && a != [] && b != [] && a[0].0 == b[0].0 <= a[0].1
    && if |a| == 1
       then a[0].1 == |t| <= b[0].1 <= |ts| && (|t| < |ts| ==> (b[0].1 == |t| <==> ts[|t|] == '\n'))
       else a[0] == b[0] && a[0].1 <= |t| && RangesGrow(t, ts, a[1..], b[1..])
  }

  lemma {:induction false} LineEndGrows(t: string, ts: string, i: nat)
    requires t <= ts && i <= |t|
    ensures LineEnd(t, i) < |t| ==> LineEnd(ts, i) == LineEnd(t, i)
    ensures LineEnd(t, i) == |t| ==> LineEnd(ts, i) >= |t|
    ensures LineEnd(t, i) == |t| < |ts| ==> (LineEnd(ts, i) == |t| <==> ts[|t|] == '\n')
  {
    LineEndIs(t, i);
    LineEndIs(ts, i);
    assert forall k :: i <= k < |t| ==> t[k] == ts[k];
  }

  lemma {:induction false} RangesGrowCons(t: string, ts: string, x: (nat, nat), a: seq<(nat, nat)>, b: seq<(nat, nat)>)
    requires RangesGrow(t, ts, a, b) && x.0 <= x.1 <= |t|
    ensures RangesGrow(t, ts, [x] + a, [x] + b)
  {
    assert ([x] + a)[1..] == a && ([x] + b)[1..] == b;
  }

  lemma {:induction false} RangesGrowLast(t: string, ts: string, x: (nat, nat), b: seq<(nat, nat)>)
    requires b != [] && x.0 == b[0].0 <= x.1 == |t| <= b[0].1 <= |ts|
    requires |t| < |ts| ==> (b[0].1 == |t| <==> ts[|t|] == '\n')
    ensures RangesGrow(t, ts, [x], b)
  {
  }

  lemma {:induction false} RangesDoGrow(t: string, ts: string, i: nat)
    requires t <= ts && i <= |t|
    ensures RangesGrow(t, ts, Ranges(t, i), Ranges(ts, i))
    decreases |t| - i
  {
    var e := LineEnd(t, i);
    LineEndGrows(t, ts, i);
    if e == |t| {
      RangesGrowLast(t, ts, (i, e), Ranges(ts, i));
    } else {
      RangesDoGrow(t, ts, e + 1);
      RangesGrowCons(t, ts, (i, e), Ranges(t, e + 1), Ranges(ts, e + 1));
    }
  }

  lemma {:induction false} LastLineDoesGrow(t: string, ts: string, i: nat, e: nat)
    requires t <= ts && i <= |t| <= e <= |ts|
    requires |t| < |ts| ==> (e == |t| <==> ts[|t|] == '\n')
    ensures LastLineGrows(t, ts, Line(i, |t|, FenceMarker(Slice(t, i, |t|))), Line(i, e, FenceMarker(Slice(ts, i, e))))
  {
    var line, longer := Slice(t, i, |t|), Slice(ts, i, e);
    assert line == t[i..];
    assert line <= longer;
    assert e == |t| ==> line == longer;
    MarkersDoGrow(line, longer);
  }

  lemma {:induction false} LinesDoGrow(t: string, ts: string, a: seq<(nat, nat)>, b: seq<(nat, nat)>)
    requires t <= ts && RangesGrow(t, ts, a, b)
    ensures LinesGrow(t, ts, Marked(t, a), Marked(ts, b))
    decreases |a|
  {
    if |a| == 1 {
      LastLineDoesGrow(t, ts, a[0].0, b[0].1);
    } else {
      LinesDoGrow(t, ts, a[1..], b[1..]);
      assert Slice(t, a[0].0, a[0].1) == Slice(ts, a[0].0, a[0].1);
      assert Marked(t, a)[1..] == Marked(t, a[1..]);
      assert Marked(ts, b)[1..] == Marked(ts, b[1..]);
    }
  }

  // ----- how the rest of a fence pass grows -----

  /** Where the first of `lines` that carries a fence marker starts, else the end `n` of the text. */
  ghost function FirstFence(lines: seq<Line>, n: nat): nat {
    if lines == [] then n else if lines[0].marker.Some? then lines[0].start else FirstFence(lines[1..], n)
  }

  lemma {:induction false} FirstFenceAfter(off: nat, lines: seq<Line>, n: nat)
    requires Chained(off, lines, n)
    ensures FirstFence(lines, n) <= n && (lines != [] ==> off <= FirstFence(lines, n))
    decreases |lines|
  {
    if lines != [] {
      FirstFenceAfter(lines[0].end + 1, lines[1..], n);
    }
  }

  /** The spans that are certain, whatever follows `lines[0]`, once the pass is in state `st`. */
  ghost function CertainSpans(st: FenceState, lines: seq<Line>, n: nat): seq<(nat, nat)> {
    st.spans + if st.open.None? then SpanIfAny(st.spanStart, FirstFence(lines, n)) else []
  }

  /** Later boundaries, spans and open fences lie at or after `from`. */
  ghost predicate Grows(st: FenceState, certain: seq<(nat, nat)>, from: nat, openFrom: nat, r: FenceState, n: nat) {
    && st.bounds <= r.bounds
    && (forall k :: |st.bounds| <= k < |r.bounds| ==> r.bounds[k] >= from)
    && certain <= FinishSpans(r, n)
    && (forall k :: |certain| <= k < |FinishSpans(r, n)| ==> FinishSpans(r, n)[k].0 >= from)
    && (r.open.Some? ==> r.open.value.start >= openFrom)
  }

  /** Boundaries and spans added from `line` on lie at or after this position. */
  ghost function GrowFrom(st: FenceState, line: Line): nat {
    line.end + if st.open.None? then 1 else 0
  }

  ghost function OpenFrom(st: FenceState, lines: seq<Line>, n: nat): nat {
    if st.open.Some? then st.open.value.start else FirstFence(lines, n)
  }

  lemma {:induction false} GrowsWeaken(st: FenceState, st': FenceState, certain: seq<(nat, nat)>,
                                       certain': seq<(nat, nat)>,
                                        from: nat, from': nat, openFrom: nat, openFrom': nat, r: FenceState, n: nat)
    requires Grows(st', certain', from', openFrom', r, n)
    requires from <= from' && openFrom <= openFrom'
    requires st.bounds <= st'.bounds && forall k :: |st.bounds| <= k < |st'.bounds| ==> st'.bounds[k] >= from
    requires certain <= certain' && forall k :: |certain| <= k < |certain'| ==> certain'[k].0 >= from
    ensures Grows(st, certain, from, openFrom, r, n)
  {
  }

  lemma {:induction false} OneLineGrows(st: FenceState, line: Line, rest: seq<Line>, n: nat)
    requires line.start <= line.end <= n && (st.open.Some? ==> st.open.value.start <= line.start)
    requires FirstFence(rest, n) <= n && (rest != [] ==> line.end + 1 <= FirstFence(rest, n))
    requires rest == [] ==> line.end == n
    ensures var st', lines := FenceStep(st, line), [line] + rest;
            var certain, certain' := CertainSpans(st, lines, n), CertainSpans(st', rest, n);
            && st.bounds <= st'.bounds
            && (forall k :: |st.bounds| <= k < |st'.bounds| ==> st'.bounds[k] >= GrowFrom(st, line))
            && certain <= certain' && (forall k :: |certain| <= k < |certain'| ==> certain'[k].0 >= GrowFrom(st, line))
            && OpenFrom(st, lines, n) <= OpenFrom(st', rest, n)
  {
    assert ([line] + rest)[1..] == rest;
  }

  lemma {:induction false} FencePassGrows(off: nat, st: FenceState, lines: seq<Line>, n: nat)
    requires FenceOk(off, st) && Chained(off, lines, n) && lines != []
    ensures Grows(st, CertainSpans(st, lines, n), GrowFrom(st, lines[0]), OpenFrom(st, lines, n),
                  FencePass(st, lines), n)
    decreases |lines|
  {
    var line, rest := lines[0], lines[1..];
    assert lines == [line] + rest;
    var st' := FenceStep(st, line);
    FenceStepKeepsOk(st, line);
    FirstFenceAfter(line.end + 1, rest, n);
    OneLineGrows(st, line, rest, n);
    var certain', openFrom' := CertainSpans(st', rest, n), OpenFrom(st', rest, n);
    var from' := if rest == [] then n + 1 else GrowFrom(st', rest[0]);
    var r := FencePass(st', rest);
    if rest != [] {
      FencePassGrows(line.end + 1, st', rest, n);
    }
    assert Grows(st', certain', from', openFrom', r, n);
    assert GrowFrom(st, line) <= from';
    GrowsWeaken(st, st', CertainSpans(st, lines, n), certain', GrowFrom(st, line), from',
                OpenFrom(st, lines, n), openFrom', r, n);
  }

  /** The two passes are in the same state before the last line of `t`. */
  lemma {:induction false} CommonState(t: string, ts: string, off: nat, st: FenceState, a: seq<Line>, b: seq<Line>)
    returns (before: FenceState, last: Line, rest: seq<Line>)
    requires FenceOk(off, st) && LinesGrow(t, ts, a, b) && Chained(off, a, |t|) && Chained(off, b, |ts|)
    ensures rest != [] && FenceOk(last.start, before) && Chained(last.start, rest, |ts|)
    ensures last.start <= |t| && LastLineGrows(t, ts, last, rest[0])
    ensures FencePass(st, a) == FenceStep(before, last) && FencePass(st, b) == FencePass(before, rest)
    ensures last == a[|a| - 1]
    decreases |a|
  {
    if |a| == 1 {
      before, last, rest := st, a[0], b;
    } else {
      FenceStepKeepsOk(st, a[0]);
      before, last, rest := CommonState(t, ts, a[0].end + 1, FenceStep(st, a[0]), a[1..], b[1..]);
    }
  }

  // ----- from growing boundaries to growing chunks -----

  /** `b` continues `a` with boundaries beyond `c`. */
  ghost predicate BoundsGrow(a: seq<nat>, b: seq<nat>, c: nat) {
    a <= b && forall x :: x in b[|a|..] ==> x > c
  }

  lemma {:induction false} IncreasingPrefix(a: seq<nat>, b: seq<nat>, c: nat)
    requires StrictlyIncreasing(a) && StrictlyIncreasing(b)
    requires forall x :: x in a <==> x in b && x <= c
    ensures a <= b
    decreases |a|
  {
    if a != [] {
      assert a[0] in a;
      assert b[0] in b;
      assert a[0] == b[0];
      TailMembers(a);
      TailMembers(b);
      IncreasingPrefix(a[1..], b[1..], c);
    }
  }

  lemma {:induction false} TailMembers(a: seq<nat>)
    requires StrictlyIncreasing(a) && a != []
    ensures StrictlyIncreasing(a[1..]) && forall x :: x in a[1..] <==> x in a && x != a[0]
  {
    assert a == [a[0]] + a[1..];
  }

  /** `a` and `b` have the same boundaries at or below `c`. */
  ghost predicate SameUpTo(a: seq<nat>, b: seq<nat>, c: nat) {
    forall x :: x <= c ==> (x in a <==> x in b)
  }

  lemma {:induction false} GrownMembers(a: seq<nat>, b: seq<nat>, c: nat)
    requires BoundsGrow(a, b, c)
    ensures forall c': nat | c' <= c :: SameUpTo(a, b, c')
  {
    assert b == a + b[|a|..];
  }

  lemma {:induction false} SettledBoundsGrow(t: string, ts: string)
    requires SameUpTo(Fences(t).bounds, Fences(ts).bounds, Cutoff(t))
    requires SameUpTo(Math(t).bounds, Math(ts).bounds, Cutoff(t))
    requires forall b :: b in Boundaries(t) && b <= Cutoff(t) ==> b <= Cutoff(ts)
    ensures SettledBounds(t) <= SettledBounds(ts)
  {
    SettledBoundsAre(t);
    SettledBoundsAre(ts);
    var c := Cutoff(t);
    forall x ensures x in SettledBounds(t) <==> x in SettledBounds(ts) && x <= c {
      assert x <= c ==> (x in Boundaries(t) <==> x in Boundaries(ts));
    }
    IncreasingPrefix(SettledBounds(t), SettledBounds(ts), c);
  }

  lemma {:induction false} ChunksGrow(t: string, ts: string, prev: nat, a: seq<nat>, b: seq<nat>)
    requires t <= ts && a <= b && forall x :: x in a ==> x <= |t|
    ensures Chunks(t, prev, a) <= Chunks(ts, prev, b)
    decreases |a|
  {
    if a != [] {
      assert a[0] in a && a[0] == b[0];
      assert Slice(t, prev, a[0]) == Slice(ts, prev, a[0]);
      assert forall x :: x in a[1..] ==> x in a;
      ChunksGrow(t, ts, a[0], a[1..], b[1..]);
    }
  }

  lemma {:induction false} ScanSpanIfAny(text: string, a: nat, b: nat)
    requires a <= b <= |text|
    ensures ScanSpans(text, SpanIfAny(a, b)) == ScanSpan(text, a, b)
  {
    var s := SpanIfAny(a, b);
    if a < b {
      assert s[1..] == [];
      assert ScanSpans(text, s[1..]) == MathScan([], None);
    }
  }

  /** `t` ends inside an open fence that starts at `f`. */
  lemma {:induction false} GrowsFromOpenFence(t: string, ts: string, q: seq<(nat, nat)>, f: nat)
    requires t <= ts && Fences(t).open.Some? && Fences(t).open.value.start == f <= |t|
    requires forall k :: 0 <= k < |ProseSpans(t)| ==> ProseSpans(t)[k].1 < |t|
    requires ProseSpans(ts) == ProseSpans(t) + q && forall k :: 0 <= k < |q| ==> q[k].0 >= f
    requires BoundsGrow(Fences(t).bounds, Fences(ts).bounds, f)
    requires Fences(ts).open.Some? ==> Fences(ts).open.value.start >= f
    ensures SettledBounds(t) <= SettledBounds(ts)
  {
    var p := ProseSpans(t);
    ScanSpansSame(t, ts, p);
    assert SpansWithin(q, |ts|) by {
      forall k | 0 <= k < |q| ensures q[k].1 <= |ts| { assert q[k] == ProseSpans(ts)[|p| + k]; }
    }
    ScanSpansAppend(ts, p, q);
    ScanSpansInside(ts, q);
    CutoffIs(t);
    CutoffIs(ts);
    MathOk(t);
    MathOk(ts);
    var mq := ScanSpans(ts, q);
    forall b | b in mq.bounds ensures b > f {
      assert Covers(q, b - 2, b);
    }
    var a, b := Math(t).bounds, Math(ts).bounds;
    assert b[|a|..] == [] || b[|a|..] == mq.bounds;
    GrownMembers(Fences(t).bounds, Fences(ts).bounds, f);
    GrownMembers(a, b, Cutoff(t));
    SettledBoundsGrow(t, ts);
  }

  lemma {:induction false} ThenGrows(p: MathScan, r: MathScan, r': MathScan, q: MathScan, n: nat)
    requires BoundsGrow(r.bounds, r'.bounds, Decided(n, r)) && (r.halt.Some? ==> r.halt.value < n)
    requires forall b :: b in q.bounds ==> b > n
    ensures var m, m' := Then(p, r), Then(Then(p, r'), q); BoundsGrow(m.bounds, m'.bounds, Decided(n, m))
  {
    if p.halt.None? {
      var m, m' := p.bounds + r.bounds, p.bounds + r'.bounds;
      assert m'[|m|..] == r'.bounds[|r.bounds|..];
      assert (m' + q.bounds)[|m|..] == r'.bounds[|r.bounds|..] + q.bounds;
    }
  }

  /** The math passes of `t` and `ts` on the spans both have, on the span at the end of `t`, and on later spans. */
  ghost predicate TailSpans(t: string, ts: string, p: seq<(nat, nat)>, ss: nat, e: nat, q: seq<(nat, nat)>) {
    && t <= ts && ss <= |t| && ss <= e <= |ts|
    && (forall k :: e <= k < |t| ==> t[k] != '$')
    && (forall k :: 0 <= k < |p| ==> p[k].1 < |t|)
    && SpansWithin(q, |ts|) && (forall k :: 0 <= k < |q| ==> q[k].0 >= |t|)
  }

  lemma {:induction false} MathOutsideFence(t: string, ts: string, p: seq<(nat, nat)>, ss: nat, e: nat,
                                            q: seq<(nat, nat)>)
    requires TailSpans(t, ts, p, ss, e, q)
    ensures ScanSpans(t, p + SpanIfAny(ss, |t|)) == Then(ScanSpans(t, p), ScanSpan(t, ss, |t|))
    ensures ScanSpans(ts, p + SpanIfAny(ss, e) + q) ==
            Then(Then(ScanSpans(t, p), ScanSpan(ts, ss, e)), ScanSpans(ts, q))
  {
    ScanSpansSame(t, ts, p);
    ScanSpansAppend(t, p, SpanIfAny(ss, |t|));
    ScanSpanIfAny(t, ss, |t|);
    ScanSpansAppend(ts, p, SpanIfAny(ss, e));
    ScanSpanIfAny(ts, ss, e);
    ScanSpansAppend(ts, p + SpanIfAny(ss, e), q);
  }

  lemma {:induction false} MathGrowsOutsideFence(t: string, ts: string, p: seq<(nat, nat)>, ss: nat, e: nat,
                                                 q: seq<(nat, nat)>)
    requires TailSpans(t, ts, p, ss, e, q)
    ensures var m, m' := ScanSpans(t, p + SpanIfAny(ss, |t|)), ScanSpans(ts, p + SpanIfAny(ss, e) + q);
            BoundsGrow(m.bounds, m'.bounds, Decided(|t|, m))
  {
    MathOutsideFence(t, ts, p, ss, e, q);
    ScanSpanGrows(t, ts, ss, e);
    ScanSpanOk(t, ss, |t|);
    ScanSpansInside(ts, q);
    var mq := ScanSpans(ts, q);
    forall b | b in mq.bounds ensures b > |t| {
      assert Covers(q, b - 2, b);
    }
    ThenGrows(ScanSpans(t, p), ScanSpan(t, ss, |t|), ScanSpan(ts, ss, e), mq, |t|);
  }

  lemma {:induction false} EarlierThanCutoff(t: string, ts: string, ss: nat, e: nat, q: seq<(nat, nat)>, b: nat)
    requires Fences(t).open.None? && ss == Fences(t).spanStart
    requires TailSpans(t, ts, Fences(t).spans, ss, e, q)
    requires ScanSpans(t, Fences(t).spans).halt.None?
    requires b in Boundaries(t)
    ensures b <= |t| && b <= e && (ScanSpan(ts, ss, e).halt.Some? ==> b <= ScanSpan(ts, ss, e).halt.value)
  {
    var p := Fences(t).spans;
    FencesOk(t);
    BoundariesDistinct(t);
    MathOutsideFence(t, ts, p, ss, e, q);
    ScanSpansInside(t, p);
    ScanSpanGrows(t, ts, ss, e);
    ScanSpanOk(ts, ss, e);
    if b in Fences(t).bounds {
    } else if b in ScanSpans(t, p).bounds {
      assert Covers(p, b - 2, b);
    } else {
      assert b in ScanSpan(t, ss, |t|).bounds;
      assert b in ScanSpan(ts, ss, e).bounds;
    }
  }

  /** `t` ends outside fences: its last span starts at `ss`, and in `ts` that span ends at `e`. */
  lemma {:induction false} GrowsOutsideFence(t: string, ts: string, ss: nat, e: nat, q: seq<(nat, nat)>)
    requires Fences(t).open.None? && ss == Fences(t).spanStart
    requires TailSpans(t, ts, Fences(t).spans, ss, e, q)
    requires ProseSpans(ts) == Fences(t).spans + SpanIfAny(ss, e) + q
    requires BoundsGrow(Fences(t).bounds, Fences(ts).bounds, |t|)
    requires Fences(ts).open.Some? ==> Fences(ts).open.value.start >= e
    ensures SettledBounds(t) <= SettledBounds(ts)
  {
    var p := Fences(t).spans;
    CutoffIs(t);
    CutoffIs(ts);
    MathOutsideFence(t, ts, p, ss, e, q);
    MathGrowsOutsideFence(t, ts, p, ss, e, q);
    ScanSpansInside(ts, q);
    forall b | b in Boundaries(t) && b <= Cutoff(t) ensures b <= Cutoff(ts) {
      if ScanSpans(t, p).halt.None? {
        EarlierThanCutoff(t, ts, ss, e, q, b);
        var mq := ScanSpans(ts, q);
        if mq.halt.Some? {
          assert Covers(q, mq.halt.value, mq.halt.value + 1);
        }
      }
    }
    GrownMembers(Fences(t).bounds, Fences(ts).bounds, |t|);
    GrownMembers(Math(t).bounds, Math(ts).bounds, Cutoff(t));
    SettledBoundsGrow(t, ts);
  }

  // ----- the theorem -----

  /**
   * The extension `s` lengthens a line that has just closed a fence: the last line carries a marker, nothing is
   * pending.
   */
  predicate FenceLineLengthens(t: string, s: string) {
    FenceMarker(LastLine(t)).Some? && Split(t).pending.NoPending? && s != "" && s[0] != '\n'
  }

  function LastLine(text: string): string {
    var ranges := Ranges(text, 0);
    Slice(text, ranges[|ranges| - 1].0, |text|)
  }

  lemma {:induction false} LastOfMarked(text: string, ranges: seq<(nat, nat)>)
    requires ranges != []
    ensures var n := |ranges| - 1;
            Marked(text, ranges)[n] ==
              Line(ranges[n].0, ranges[n].1, FenceMarker(Slice(text, ranges[n].0, ranges[n].1)))
  {
    if |ranges| > 1 {
      LastOfMarked(text, ranges[1..]);
    }
  }

  /** The passes of a text and its extension, split before the last line of the text. */
  ghost predicate Common(t: string, ts: string, before: FenceState, last: Line, rest: seq<Line>) {
    && rest != [] && FenceOk(last.start, before) && Chained(last.start, rest, |ts|)
    && last.start <= |t| && LastLineGrows(t, ts, last, rest[0])
    && Fences(t) == FenceStep(before, last) && Fences(ts) == FencePass(before, rest)
    && last.marker == FenceMarker(LastLine(t))
  }

  lemma {:induction false} CommonPasses(t: string, ts: string) returns (before: FenceState, last: Line, rest: seq<Line>)
    requires t <= ts
    ensures Common(t, ts, before, last, rest)
  {
    var a, b := Ranges(t, 0), Ranges(ts, 0);
    RangesDoGrow(t, ts, 0);
    LinesDoGrow(t, ts, a, b);
    LinesChained(t);
    LinesChained(ts);
    before, last, rest := CommonState(t, ts, 0, NO_FENCES, Lines(t), Lines(ts));
    LastOfMarked(t, a);
  }

  /** Case: a fence is open at the end of `t`. */
  lemma {:induction false} AppendInFence(t: string, ts: string, before: FenceState, last: Line, rest: seq<Line>)
    requires t <= ts && Common(t, ts, before, last, rest) && Fences(t).open.Some?
    ensures SettledBounds(t) <= SettledBounds(ts)
  {
    var certain := CertainSpans(before, rest, |ts|);
    FencePassGrows(last.start, before, rest, |ts|);
    var all := FinishSpans(Fences(ts), |ts|);
    assert all == certain + all[|certain|..];
    assert certain == ProseSpans(t);
    GrowsFromOpenFence(t, ts, all[|certain|..], Fences(t).open.value.start);
  }

  /** Case: `t` ends in prose, on a line without a fence marker. */
  lemma {:induction false} AppendInProse(t: string, ts: string, before: FenceState, last: Line, rest: seq<Line>)
    requires t <= ts && Common(t, ts, before, last, rest) && last.marker.None? && before.open.None?
    ensures SettledBounds(t) <= SettledBounds(ts)
  {
    var certain := CertainSpans(before, rest, |ts|);
    FencePassGrows(last.start, before, rest, |ts|);
    var all := FinishSpans(Fences(ts), |ts|);
    assert all == certain + all[|certain|..];
    var e := FirstFence(rest, |ts|);
    FirstFenceAfter(last.start, rest, |ts|);
    FirstFenceAfter(rest[0].end + 1, rest[1..], |ts|);
    ProseSpansOk(ts);
    assert forall k :: e <= k < |t| ==> t[k] != '$' by {
      forall k | e <= k < |t| ensures t[k] != '$' {
        assert rest[0].marker.Some? && t[k] in t[last.start..];
      }
    }
    GrowsOutsideFence(t, ts, before.spanStart, e, all[|certain|..]);
  }

  /** When `ts` goes on with a newline, its fence pass is that of `t`, continued. */
  lemma {:induction false} NewlineContinues(t: string, ts: string, before: FenceState, last: Line, rest: seq<Line>)
    requires t < ts && ts[|t|] == '\n' && Common(t, ts, before, last, rest)
    requires last.marker.Some? && Fences(t).open.None?
    ensures Fences(t) == CloseFence(before, |t|) && FenceOk(|t| + 1, Fences(t))
    ensures rest[1..] != [] && Chained(|t| + 1, rest[1..], |ts|) && Fences(ts) == FencePass(Fences(t), rest[1..])
  {
    assert rest[0] == last;
    FenceStepKeepsOk(before, last);
    assert Chained(|t| + 1, rest[1..], |ts|);
  }

  /** Case: the last line of `t` closes a fence and `ts` goes on with a newline. */
  lemma {:induction false} AppendAfterFence(t: string, ts: string, before: FenceState, last: Line, rest: seq<Line>)
    requires t < ts && ts[|t|] == '\n' && Common(t, ts, before, last, rest)
    requires last.marker.Some? && Fences(t).open.None?
    ensures SettledBounds(t) <= SettledBounds(ts)
  {
    NewlineContinues(t, ts, before, last, rest);
    var st, more := Fences(t), rest[1..];
    FencePassGrows(|t| + 1, st, more, |ts|);
    var certain := CertainSpans(st, more, |ts|);
    var all := FinishSpans(Fences(ts), |ts|);
    assert all == certain + all[|certain|..];
    FirstFenceAfter(|t| + 1, more, |ts|);
    ProseSpansOk(ts);
    GrowsOutsideFence(t, ts, |t|, FirstFence(more, |ts|), all[|certain|..]);
  }

  lemma {:induction false} SameEarlyBounds(p: seq<nat>, a: seq<nat>, b: seq<nat>, n: nat, c: nat)
    requires p <= a && p <= b && c < n
    requires (forall k :: |p| <= k < |a| ==> a[k] >= n) && (forall k :: |p| <= k < |b| ==> b[k] >= n)
    ensures SameUpTo(a, b, c)
  {
    assert a == p + a[|p|..] && b == p + b[|p|..];
  }

  /** An unclosed opener stops the math pass of `t` and of `ts` alike. */
  lemma {:induction false} SameHalt(t: string, ts: string, p: seq<(nat, nat)>, q: seq<(nat, nat)>)
    requires t <= ts && (forall k :: 0 <= k < |p| ==> p[k].1 < |t|) && SpansWithin(q, |ts|)
    requires ScanSpans(t, p).halt.Some?
    ensures SpansWithin(p + q, |ts|) && ScanSpans(ts, p + q) == ScanSpans(t, p)
  {
    ScanSpansSame(t, ts, p);
    ScanSpansAppend(ts, p, q);
  }

  /** The prose before the last fence of `t` is all its prose, and comes first in `ts`. */
  lemma {:induction false} ProseBeforeFence(t: string, ts: string, before: FenceState, last: Line, rest: seq<Line>)
    requires t <= ts && Common(t, ts, before, last, rest)
    requires last.marker.Some? && Fences(t).open.None?
    ensures ProseSpans(t) == before.spans <= ProseSpans(ts)
    ensures forall k :: 0 <= k < |before.spans| ==> before.spans[k].1 < |t|
  {
    FencePassGrows(last.start, before, rest, |ts|);
  }

  /** An unclosed opener before the last fence of `t` ends both math passes at the same place. */
  lemma {:induction false} UnclosedMathStays(t: string, ts: string, before: FenceState, last: Line, rest: seq<Line>)
    requires t <= ts && Common(t, ts, before, last, rest)
    requires last.marker.Some? && Fences(t).open.None? && Math(t).halt.Some?
    ensures Math(ts) == Math(t)
  {
    var p, all := before.spans, ProseSpans(ts);
    ProseBeforeFence(t, ts, before, last, rest);
    assert all == p + all[|p|..];
    SameHalt(t, ts, p, all[|p|..]);
  }

  /** Fence boundaries below the length of `t` are the same for both. */
  lemma {:induction false} EarlyFencesStay(t: string, ts: string, before: FenceState, last: Line, rest: seq<Line>,
                                           c: nat)
    requires t <= ts && Common(t, ts, before, last, rest)
    requires last.marker.Some? && Fences(t).open.None? && c < |t|
    ensures SameUpTo(Fences(t).bounds, Fences(ts).bounds, c)
  {
    FencePassGrows(last.start, before, rest, |ts|);
    SameEarlyBounds(before.bounds, Fences(t).bounds, Fences(ts).bounds, |t|, c);
  }

  /** Case: the last line of `t` closes a fence, but an unclosed math opener before that fence is pending. */
  lemma {:induction false} AppendAfterUnclosedMath(t: string, ts: string, before: FenceState, last: Line,
                                                   rest: seq<Line>)
    requires t <= ts && Common(t, ts, before, last, rest)
    requires last.marker.Some? && Fences(t).open.None? && Math(t).halt.Some?
    ensures SettledBounds(t) <= SettledBounds(ts)
  {
    UnclosedMathStays(t, ts, before, last, rest);
    CutoffIs(t);
    CutoffIs(ts);
    MathOk(t);
    EarlyFencesStay(t, ts, before, last, rest, Cutoff(t));
    SettledBoundsGrow(t, ts);
  }

  lemma {:induction false} AppendOnlyHolds(t: string, s: string)
    requires !FenceLineLengthens(t, s)
    ensures SettledBounds(t) <= SettledBounds(t + s)
  {
    var ts := t + s;
    var before, last, rest := CommonPasses(t, ts);
    CutoffIs(t);
    if s == "" {
      assert ts == t;
    } else if Fences(t).open.Some? {
      AppendInFence(t, ts, before, last, rest);
    } else if last.marker.None? {
      AppendInProse(t, ts, before, last, rest);
    } else if Math(t).halt.Some? {
      AppendAfterUnclosedMath(t, ts, before, last, rest);
    } else {
      AppendAfterFence(t, ts, before, last, rest);
    }
  }

  /** Chunks put together again are the text they were cut from. */
  lemma {:induction false} ChunksConcat(text: string, prev: nat, bounds: seq<nat>)
    requires prev <= |text| && StrictlyIncreasing(bounds) && forall b :: b in bounds ==> prev <= b <= |text|
    ensures prev <= Last(prev, bounds) <= |text|
    ensures Concat(Chunks(text, prev, bounds)) == text[prev..Last(prev, bounds)]
    decreases |bounds|
  {
    if bounds != [] {
      var b, tail := bounds[0], bounds[1..];
      assert b in bounds;
      forall x | x in tail ensures b <= x <= |text| {
        assert x in bounds;
      }
      ChunksConcat(text, b, tail);
      assert Last(prev, bounds) == Last(b, tail);
      assert text[prev..b] + text[b..Last(b, tail)] == text[prev..Last(b, tail)];
    }
  }

  lemma {:induction false} ChunksPrefix(text: string, prev: nat, bounds: seq<nat>, n: nat)
    requires n <= |bounds|
    ensures Chunks(text, prev, bounds)[..n] == Chunks(text, prev, bounds[..n])
    decreases n
  {
    if n > 0 {
      ChunksPrefix(text, bounds[0], bounds[1..], n - 1);
      assert bounds[..n][1..] == bounds[1..][..n - 1];
    }
  }

  lemma {:induction false} FenceBoundaryMoves(t: string, ts: string, before: FenceState, last: Line, rest: seq<Line>)
    requires t < ts && ts[|t|] != '\n' && Common(t, ts, before, last, rest)
    requires last.marker.Some? && before.open.Some?
    ensures |t| !in Fences(ts).bounds
  {
    FencePassGrows(last.start, before, rest, |ts|);
    var b := Fences(ts).bounds;
    assert b == before.bounds + b[|before.bounds|..];
    assert |t| !in before.bounds;
  }

  lemma {:induction false} NoMathBoundaryThere(t: string, ts: string, before: FenceState, last: Line, rest: seq<Line>)
    requires t < ts && ts[|t|] != '\n' && Common(t, ts, before, last, rest)
    requires last.marker.Some? && before.open.Some?
    ensures !Covers(ProseSpans(ts), |t| - 2, |t|)
  {
    FencePassGrows(last.start, before, rest, |ts|);
    var spans := ProseSpans(ts);
    forall k | 0 <= k < |spans| ensures spans[k].1 < |t| || spans[k].0 > |t| {
      assert k < |before.spans| ==> spans[k] == before.spans[k];
    }
  }

  /** The end of a text whose last line has just closed a fence is no boundary of the lengthened line. */
  lemma {:induction false} BoundaryMoves(t: string, s: string)
    requires FenceLineLengthens(t, s)
    ensures |t| in SettledBounds(t) && |t| !in Boundaries(t + s)
  {
    var ts := t + s;
    var before, last, rest := CommonPasses(t, ts);
    CutoffIs(t);
    SettledBoundsAre(t);
    assert before.open.Some? && Fences(t) == CloseFence(before, |t|);
    assert |t| in [|t|];
    FenceBoundaryMoves(t, ts, before, last, rest);
    NoMathBoundaryThere(t, ts, before, last, rest);
    MathOk(ts);
  }

  lemma {:induction false} LastIsLargest(bounds: seq<nat>, b: nat)
    requires StrictlyIncreasing(bounds) && b in bounds && forall x :: x in bounds ==> x <= b
    ensures bounds[|bounds| - 1] == b
  {
    assert bounds[|bounds| - 1] in bounds;
  }

  /** A chunk list that ends at the end of `t` is no prefix of one that is never cut there. */
  lemma {:induction false} ChunksDiffer(t: string, ts: string, a: seq<nat>, b: seq<nat>)
    requires StrictlyIncreasing(a) && StrictlyIncreasing(b)
    requires (forall x :: x in a ==> x <= |t|) && (forall x :: x in b ==> x <= |ts|)
    requires |t| in a && |t| !in b
    ensures !(Chunks(t, 0, a) <= Chunks(ts, 0, b))
  {
    var n, chunks := |a|, Chunks(ts, 0, b);
    ChunksConcat(t, 0, a);
    LastIsLargest(a, |t|);
    assert |Concat(Chunks(t, 0, a))| == |t|;
    if n <= |b| {
      var c := b[..n];
      ChunksPrefix(ts, 0, b, n);
      assert forall x :: x in c ==> x in b;
      ChunksConcat(ts, 0, c);
      assert c[n - 1] in b;
      assert |Concat(chunks[..n])| == c[n - 1] != |t|;
      assert Chunks(t, 0, a) != chunks[..n];
    }
  }

  /**
   * Append-only, exactly: the settled chunks of `t` are a prefix of those of `t + s` unless `s` lengthens, by anything
   * but a newline, a line that has just closed a fence.
   */
  lemma {:induction false} AppendOnly(t: string, s: string)
    ensures Split(t).settled <= Split(t + s).settled <==> !FenceLineLengthens(t, s)
  {
    SettledBoundsAre(t);
    SettledBoundsAre(t + s);
    var a, b := SettledBounds(t), SettledBounds(t + s);
    if FenceLineLengthens(t, s) {
      BoundaryMoves(t, s);
      ChunksDiffer(t, t + s, a, b);
    } else {
      AppendOnlyHolds(t, s);
      ChunksGrow(t, t + s, 0, a, b);
    }
  }

  // ----- the promise fails -----

  /** A fence of backticks that opens and closes, and nothing else. */
  predicate FenceAlone(t: string) {
    |t| == 7 && t[3] == '\n' && forall k :: 0 <= k < 7 && k != 3 ==> t[k] == '`'
  }

  lemma {:induction false} FenceAloneRanges(t: string)
    requires FenceAlone(t)
    ensures Ranges(t, 0) == [(0, 3), (4, 7)]
  {
    LineEndIs(t, 0);
    LineEndIs(t, 4);
    assert LineEnd(t, 0) == 3 && LineEnd(t, 4) == 7;
    assert Ranges(t, 4) == [(4, 7)];
  }

  lemma {:induction false} BackticksMark(line: string)
    requires |line| == 3 && forall k :: 0 <= k < 3 ==> line[k] == '`'
    ensures FenceMarker(line) == Some(line)
  {
    assert line[0..3] == line;
    assert IsFenceMarker(line, 0, line);
    FenceMarkerIsMatch(line, line);
  }

  lemma {:induction false} FenceAloneLines(t: string)
    requires FenceAlone(t)
    ensures Lines(t) == [Line(0, 3, Some(t[0..3])), Line(4, 7, Some(t[4..7]))] && LastLine(t) == t[4..7]
  {
    FenceAloneRanges(t);
    BackticksMark(t[0..3]);
    BackticksMark(t[4..7]);
    var ranges, last := Ranges(t, 0), Ranges(t, 0)[1..];
    assert |last| == 1 && last[0] == (4, 7) && |last[1..]| == 0;
    assert Marked(t, last) == [Line(4, 7, Some(t[4..7]))];
  }

  lemma {:induction false} FenceAlonePasses(t: string)
    requires FenceAlone(t)
    ensures Fences(t) == FenceState(None, 7, [7], []) && PendingOf(t).None?
  {
    FenceAloneLines(t);
    var a, b := Line(0, 3, Some(t[0..3])), Line(4, 7, Some(t[4..7]));
    var open := FenceState(Some(Fence(t[0..3], 0)), 0, [], []);
    assert Lines(t)[1..] == [b] && [b][1..] == [];
    assert FenceStep(NO_FENCES, a) == open && FenceStep(open, b) == FenceState(None, 7, [7], []);
    assert Fences(t) == FencePass(open, [b]) == FencePass(FenceState(None, 7, [7], []), []);
    assert ProseSpans(t) == [];
  }

  /** A lone fence whose closing line gains a character takes its settled chunk with it. */
  lemma {:induction false} LoneFenceChanges(t: string, s: string)
    requires FenceAlone(t) && s != "" && s[0] != '\n'
    ensures !(Split(t).settled <= Split(t + s).settled)
  {
    FenceAloneLines(t);
    FenceAlonePasses(t);
    BackticksMark(t[4..7]);
    AppendOnly(t, s);
  }

  /** So the promise does fail. */
  lemma {:induction false} AppendOnlyCanFail()
    ensures !(Split("```\n```").settled <= Split("```\n```" + "y").settled)
  {
    var t, s := "```\n```", "y";
    assert FenceAlone(t);
    LoneFenceChanges(t, s);
  }
}

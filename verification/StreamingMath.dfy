/**
 * Splitting streaming text into settled chunks, a tail and a pending marker.
 *
 * The fence pass walks the lines of the text and the math pass walks the spans outside fences; both are
 * functions here, the loops that compute them are in StreamingSplitter, and what the split promises is
 * proved in StreamingAppendOnly and StreamingSafety.
 */
module StreamingMath {
  import opened Wrappers
  import Sorting

  datatype Pending = NoPending | MathPending | BlockPending

  datatype StreamView = StreamView(settled: seq<string>, tail: string, pending: Pending)

  // ----- characters -----

  /** The characters matched by `\s`. */
  predicate IsSpace(c: char) {
    c == ' ' || ('\t' <= c <= '\r') || c == '\U{A0}' || c == '\U{1680}' || '\U{2000}' <= c <= '\U{200A}'
    || c == '\U{2028}' || c == '\U{2029}' || c == '\U{202F}' || c == '\U{205F}' || c == '\U{3000}' || c == '\U{FEFF}'
  }

  /** How many backslashes stand directly before index `i`. */
  function Backslashes(text: string, i: nat): nat
    requires i <= |text|
  {
    if i == 0 || text[i - 1] != '\\' then 0 else 1 + Backslashes(text, i - 1)
  }

  predicate IsEscaped(text: string, i: nat)
    requires i <= |text|
  {
    Backslashes(text, i) % 2 == 1
  }

  /** An unescaped dollar sign. */
  predicate IsDollar(text: string, i: nat) {
    i < |text| && text[i] == '$' && !IsEscaped(text, i)
  }

  /** `text.slice(a, b)` for `a` and `b` at or above zero. */
  function Slice(text: string, a: nat, b: nat): string {
    var hi := if b <= |text| then b else |text|;
    if a <= hi then text[a..hi] else ""
  }

  // ----- fence lines -----

  function LeadingSpaces(line: string): (k: nat)
    ensures k <= |line|
  {
    if line == "" || line[0] != ' ' then 0 else 1 + LeadingSpaces(line[1..])
  }

  function Run(line: string, c: char): (k: nat)
    ensures k <= |line|
  {
    if line == "" || line[0] != c then 0 else 1 + Run(line[1..], c)
  }

  /** The run of three or more backticks or tildes that starts a fence line, after at most three spaces. */
  function FenceMarker(line: string): (marker: Option<string>)
    ensures marker.Some? ==> 3 <= |marker.value| <= |line|
  {
    var k := LeadingSpaces(line);
    if k > 3 || k == |line| || (line[k] != '`' && line[k] != '~') then None
    else
      var n := Run(line[k..], line[k]);
      if n < 3 then None else Some(line[k..k + n])
  }

  /** Does `marker` close a fence opened by `opener`? */
  predicate Closes(opener: string, marker: string) {
    |opener| > 0 && |marker| >= |opener| && marker[0] == opener[0]
  }

  function LineEnd(text: string, i: nat): (e: nat)
    requires i <= |text|
    ensures i <= e <= |text|
    decreases |text| - i
  {
    if i == |text| || text[i] == '\n' then i else LineEnd(text, i + 1)
  }

  /** Where each line from the line start `i` on starts, and where its newline or the end of the text is. */
  function Ranges(text: string, i: nat): (ranges: seq<(nat, nat)>)
    requires i <= |text|
    ensures |ranges| > 0
    decreases |text| - i
  {
    var e := LineEnd(text, i);
    [(i, e)] + if e == |text| then [] else Ranges(text, e + 1)
  }

  /** The pieces of the text that the ranges delimit: on all ranges of the text, this is `text.split('\n')`. */
  function Pieces(text: string, ranges: seq<(nat, nat)>): (pieces: seq<string>)
    ensures |pieces| == |ranges|
  {
    if ranges == [] then [] else [Slice(text, ranges[0].0, ranges[0].1)] + Pieces(text, ranges[1..])
  }

  /** A line of the text: where it starts and ends, and the fence marker it carries. */
  datatype Line = Line(start: nat, end: nat, marker: Option<string>)

  function Marked(text: string, ranges: seq<(nat, nat)>): (lines: seq<Line>)
    ensures |lines| == |ranges|
  {
    if ranges == [] then []
    else
      var (start, end) := ranges[0];
      [Line(start, end, FenceMarker(Slice(text, start, end)))] + Marked(text, ranges[1..])
  }

  function Lines(text: string): seq<Line> {
    Marked(text, Ranges(text, 0))
  }

  // ----- fence pass -----

  datatype Fence = Fence(marker: string, start: nat)

  datatype FenceState = FenceState(open: Option<Fence>, spanStart: nat, bounds: seq<nat>, spans: seq<(nat, nat)>)

  const NO_FENCES := FenceState(None, 0, [], [])

  function SpanIfAny(a: nat, b: nat): seq<(nat, nat)> {
    if a < b then [(a, b)] else []
  }

  predicate SpansWithin(spans: seq<(nat, nat)>, n: nat) {
    forall k :: 0 <= k < |spans| ==> spans[k].1 <= n
  }

  /** A fence opens on the line at `offset`: the prose span before it ends there. */
  function OpenFence(st: FenceState, marker: string, offset: nat): FenceState {
    st.(spans := st.spans + SpanIfAny(st.spanStart, offset), open := Some(Fence(marker, offset)))
  }

  /** The open fence closes on the line that ends at `boundary`. */
  function CloseFence(st: FenceState, boundary: nat): FenceState {
    FenceState(None, boundary, st.bounds + [boundary], st.spans)
  }

  /** One line of the fence pass. */
  function FenceStep(st: FenceState, line: Line): FenceState {
    match (st.open, line.marker)
    case (None, Some(m)) => OpenFence(st, m, line.start)
    case (Some(f), Some(m)) => if Closes(f.marker, m) then CloseFence(st, line.end) else st
    case _ => st
  }

  function FencePass(st: FenceState, lines: seq<Line>): FenceState
    decreases |lines|
  {
    if lines == [] then st else FencePass(FenceStep(st, lines[0]), lines[1..])
  }

  /** The prose spans once the last span, up to the end `n` of the text, has been added. */
  function FinishSpans(st: FenceState, n: nat): seq<(nat, nat)> {
    if st.open.None? then st.spans + SpanIfAny(st.spanStart, n) else st.spans
  }

  function Fences(text: string): FenceState {
    FencePass(NO_FENCES, Lines(text))
  }

  // ----- math pass -----

  predicate DisplayCloseAt(text: string, j: nat) {
    j + 1 < |text| && IsDollar(text, j) && text[j + 1] == '$'
  }

  /** First closing `$$` at or after `j`, inside the span that ends at `end`. */
  function DisplayClose(text: string, j: nat, end: nat): (c: Option<nat>)
    requires end <= |text|
    ensures c.Some? ==> j <= c.value && c.value + 2 <= end && DisplayCloseAt(text, c.value)
    decreases end - j
  {
    if j + 1 >= end then None
    else if DisplayCloseAt(text, j) then Some(j)
    else DisplayClose(text, j + 1, end)
  }

  predicate InlineCloseAt(text: string, open: nat, j: nat) {
    IsDollar(text, j) && j > open + 1 && !IsSpace(text[j - 1])
  }

  /** First closing `$` at or after `j` for the opener at `open`, inside the span that ends at `end`. */
  function InlineClose(text: string, open: nat, j: nat, end: nat): (c: Option<nat>)
    requires end <= |text|
    ensures c.Some? ==> j <= c.value < end && InlineCloseAt(text, open, c.value)
    decreases end - j
  {
    if j >= end then None
    else if InlineCloseAt(text, open, j) then Some(j)
    else InlineClose(text, open, j + 1, end)
  }

  /** Boundaries found, and the opener that was never closed, if any. */
  datatype MathScan = MathScan(bounds: seq<nat>, halt: Option<nat>)

  function Found(b: nat, rest: MathScan): MathScan {
    MathScan([b] + rest.bounds, rest.halt)
  }

  /** The math pass over one span, from `i` on. */
  function ScanSpan(text: string, i: nat, end: nat): MathScan
    requires end <= |text|
    decreases end - i
  {
    if i >= end then MathScan([], None)
    else if !IsDollar(text, i) then ScanSpan(text, i + 1, end)
    else if i + 1 < end && text[i + 1] == '$' then
      match DisplayClose(text, i + 2, end)
      case None => MathScan([], Some(i))
      case Some(c) => Found(c + 2, ScanSpan(text, c + 2, end))
    else if i + 1 >= |text| || IsSpace(text[i + 1]) then ScanSpan(text, i + 1, end)
    else
      match InlineClose(text, i, i + 1, end)
      case None => MathScan([], Some(i))
      case Some(c) => Found(c + 1, ScanSpan(text, c + 1, end))
  }

  /** Scan `b` after scan `a`, unless `a` halted. */
  function Then(a: MathScan, b: MathScan): MathScan {
    if a.halt.Some? then a else MathScan(a.bounds + b.bounds, b.halt)
  }

  /** Spans are scanned in order; an unclosed opener stops the pass. */
  function ScanSpans(text: string, spans: seq<(nat, nat)>): MathScan
    requires SpansWithin(spans, |text|)
  {
    if spans == [] then MathScan([], None)
    else Then(ScanSpan(text, spans[0].0, spans[0].1), ScanSpans(text, spans[1..]))
  }

  // ----- the view -----

  /** The pending kind and where it starts. An unclosed opener wins when it stands before the open fence. */
  function PendingAt(fence: Option<Fence>, halt: Option<nat>): Option<(Pending, nat)> {
    if halt.Some? && (fence.None? || halt.value < fence.value.start) then Some((MathPending, halt.value))
    else if fence.Some? then Some((BlockPending, fence.value.start))
    else None
  }

  /** The leading boundaries that do not exceed `cutoff`. */
  function UpTo(bounds: seq<nat>, cutoff: nat): (r: seq<nat>)
    ensures r <= bounds
    ensures forall k :: 0 <= k < |r| ==> r[k] <= cutoff
  {
    if bounds == [] || bounds[0] > cutoff then [] else [bounds[0]] + UpTo(bounds[1..], cutoff)
  }

  function Chunks(text: string, prev: nat, bounds: seq<nat>): (r: seq<string>)
    ensures |r| == |bounds|
    decreases |bounds|
  {
    if bounds == [] then [] else [Slice(text, prev, bounds[0])] + Chunks(text, bounds[0], bounds[1..])
  }

  function Last(prev: nat, bounds: seq<nat>): nat {
    if bounds == [] then prev else bounds[|bounds| - 1]
  }

  const ASCENDING := (a: nat, b: nat) => a <= b

  /** `lines` follow one another from `off` and end with the text of length `n`. */
  ghost predicate Chained(off: nat, lines: seq<Line>, n: nat)
    decreases |lines|
  {
    if lines == [] then off == n + 1
    else
      && lines[0].start == off <= lines[0].end <= n
      && (lines[0].marker.Some? ==> |lines[0].marker.value| >= 3 && lines[0].start < lines[0].end)
      && Chained(lines[0].end + 1, lines[1..], n)
  }

  ghost predicate RangesOk(off: nat, ranges: seq<(nat, nat)>, n: nat)
    decreases |ranges|
  {
    if ranges == [] then off == n + 1
    else ranges[0].0 == off <= ranges[0].1 <= n && RangesOk(ranges[0].1 + 1, ranges[1..], n)
  }

  lemma {:induction false} RangesAreOk(text: string, i: nat)
    requires i <= |text|
    ensures RangesOk(i, Ranges(text, i), |text|)
    decreases |text| - i
  {
    var e := LineEnd(text, i);
    if e < |text| {
      RangesAreOk(text, e + 1);
      assert Ranges(text, i)[1..] == Ranges(text, e + 1);
    }
  }

  lemma {:induction false} MarkedChained(text: string, off: nat, ranges: seq<(nat, nat)>)
    requires RangesOk(off, ranges, |text|)
    ensures Chained(off, Marked(text, ranges), |text|)
    decreases |ranges|
  {
    if ranges != [] {
      MarkedChained(text, ranges[0].1 + 1, ranges[1..]);
      assert Marked(text, ranges)[1..] == Marked(text, ranges[1..]);
    }
  }

  lemma {:induction false} LinesChained(text: string)
    ensures Chained(0, Lines(text), |text|)
  {
    RangesAreOk(text, 0);
    MarkedChained(text, 0, Ranges(text, 0));
  }

  lemma {:induction false} SpansInside(off: nat, st: FenceState, lines: seq<Line>, n: nat)
    requires SpansWithin(st.spans, n) && Chained(off, lines, n)
    ensures SpansWithin(FencePass(st, lines).spans, n)
    decreases |lines|
  {
    if lines != [] {
      SpansInside(lines[0].end + 1, FenceStep(st, lines[0]), lines[1..], n);
    }
  }

  function ProseSpans(text: string): (spans: seq<(nat, nat)>)
    ensures SpansWithin(spans, |text|)
  {
    LinesChained(text);
    SpansInside(0, NO_FENCES, Lines(text), |text|);
    FinishSpans(Fences(text), |text|)
  }

  function Math(text: string): MathScan {
    ScanSpans(text, ProseSpans(text))
  }

  function PendingOf(text: string): Option<(Pending, nat)> {
    PendingAt(Fences(text).open, Math(text).halt)
  }

  function Cutoff(text: string): nat {
    match PendingOf(text)
    case Some((_, start)) => start
    case None => |text|
  }

  /** Every boundary, fence boundaries first, as the two passes collect them. */
  function Boundaries(text: string): seq<nat> {
    Fences(text).bounds + Math(text).bounds
  }

  /** The boundaries chunks are cut at. */
  function SettledBounds(text: string): seq<nat> {
    UpTo(Sorting.Sort(ASCENDING, Boundaries(text)), Cutoff(text))
  }

  function Split(text: string): StreamView {
    var bounds := SettledBounds(text);
    StreamView(Chunks(text, 0, bounds),
               Slice(text, Last(0, bounds), Cutoff(text)),
               match PendingOf(text) case Some((kind, _)) => kind case None => NoPending)
  }
}

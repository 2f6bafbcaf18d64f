/** What the two passes of the splitter establish, and how a pass over a text relates to one over its extension. */
module StreamingScan {
  import opened Wrappers
  import opened StreamingMath

  ghost predicate StrictlyIncreasing(bounds: seq<nat>) {
    forall i, j :: 0 <= i < j < |bounds| ==> bounds[i] < bounds[j]
  }

  // ----- fence markers -----

  /** `marker` is a maximal run of three or more backticks or tildes after at most three spaces. */
  ghost predicate IsFenceMarker(line: string, k: nat, marker: string) {
    && k <= 3 && k + |marker| <= |line| && |marker| >= 3
    && (forall i :: 0 <= i < k ==> line[i] == ' ')
    && line[k..k + |marker|] == marker
    && (marker[0] == '`' || marker[0] == '~')
    && (forall i :: 0 <= i < |marker| ==> marker[i] == marker[0])
    && (k + |marker| < |line| ==> line[k + |marker|] != marker[0])
  }

  lemma {:induction false} LeadingSpacesAre(line: string)
    ensures var k := LeadingSpaces(line);
            (forall i :: 0 <= i < k ==> line[i] == ' ') && (k < |line| ==> line[k] != ' ')
  {
    if line != "" && line[0] == ' ' {
      LeadingSpacesAre(line[1..]);
      assert forall i :: 0 < i < LeadingSpaces(line) ==> line[i] == line[1..][i - 1];
    }
  }

  lemma {:induction false} RunIs(line: string, c: char)
    ensures var k := Run(line, c);
            (forall i :: 0 <= i < k ==> line[i] == c) && (k < |line| ==> line[k] != c)
  {
    if line != "" && line[0] == c {
      RunIs(line[1..], c);
      assert forall i :: 0 < i < Run(line, c) ==> line[i] == line[1..][i - 1];
    }
  }

  lemma {:induction false} LineEndIs(text: string, i: nat)
    requires i <= |text|
    ensures var e := LineEnd(text, i);
            (forall k :: i <= k < e ==> text[k] != '\n') && (e < |text| ==> text[e] == '\n')
    decreases |text| - i
  {
    if i < |text| && text[i] != '\n' {
      LineEndIs(text, i + 1);
    }
  }

  /** `FenceMarker` is the greedy match of the fence pattern. */
  lemma {:induction false} FenceMarkerIsMatch(line: string, marker: string)
    ensures FenceMarker(line) == Some(marker) <==> exists k: nat :: IsFenceMarker(line, k, marker)
  {
    var n := LeadingSpaces(line);
    LeadingSpacesAre(line);
    if n < |line| {
      RunIs(line[n..], line[n]);
    }
    if FenceMarker(line) == Some(marker) {
      assert IsFenceMarker(line, n, marker);
    }
    if k: nat :| IsFenceMarker(line, k, marker) {
      assert line[k] == marker[0];
      assert n == k;
      var r := Run(line[k..], line[k]);
      assert forall i :: 0 <= i < |marker| ==> line[k..][i] == marker[i];
      assert r == |marker|;
    }
  }

  lemma {:induction false} MarkerGrows(line: string, longer: string)
    requires line <= longer && FenceMarker(line).Some?
    ensures FenceMarker(longer).Some? && FenceMarker(line).value <= FenceMarker(longer).value
  {
    var k := LeadingSpaces(line);
    LeadingSpacesAre(line);
    LeadingSpacesAre(longer);
    assert longer[k] == line[k];
    assert LeadingSpaces(longer) == k;
    var n, n' := Run(line[k..], line[k]), Run(longer[k..], line[k]);
    RunIs(line[k..], line[k]);
    RunIs(longer[k..], line[k]);
    assert forall i :: 0 <= i < n ==> longer[k..][i] == line[k..][i];
    assert n <= n';
  }

  lemma {:induction false} MarkerBegunHasNoDollar(line: string, longer: string)
    requires line <= longer && FenceMarker(line).None? && FenceMarker(longer).Some?
    ensures '$' !in line
  {
    var k := LeadingSpaces(longer);
    LeadingSpacesAre(line);
    LeadingSpacesAre(longer);
    var n := Run(longer[k..], longer[k]);
    RunIs(longer[k..], longer[k]);
    if |line| > k {
      RunIs(line[k..], line[k]);
      assert LeadingSpaces(line) == k;
      var m := Run(line[k..], line[k]);
      assert forall i :: 0 <= i < |line| - k ==> line[k..][i] == longer[k..][i];
      assert m == |line| - k;
      assert forall i :: 0 <= i < m ==> line[k + i] == line[k..][i];
    }
  }

  /** How the marker of a line relates to the marker of a longer line. */
  ghost predicate MarkersGrow(marker: Option<string>, longer: Option<string>) {
    marker.Some? ==> longer.Some? && marker.value <= longer.value && |marker.value| >= 3
  }

  lemma {:induction false} MarkersDoGrow(line: string, longer: string)
    requires line <= longer
    ensures MarkersGrow(FenceMarker(line), FenceMarker(longer))
    ensures FenceMarker(line).None? && FenceMarker(longer).Some? ==> '$' !in line
  {
    if FenceMarker(line).Some? {
      MarkerGrows(line, longer);
    } else if FenceMarker(longer).Some? {
      MarkerBegunHasNoDollar(line, longer);
    }
  }

  // ----- the math pass over one span -----

  /**
   * The math expression that opens at `open` is complete and closes just before `b`, at its first closing delimiter.
   */
  ghost predicate CompleteMath(text: string, open: nat, b: nat) {
    && open + 3 <= b <= |text| && IsDollar(text, open)
    && if text[open + 1] == '$'
       then
         && open + 4 <= b && DisplayCloseAt(text, b - 2)
         && (forall j :: open + 2 <= j < b - 2 ==> !DisplayCloseAt(text, j))
       else
         && !IsSpace(text[open + 1]) && InlineCloseAt(text, open, b - 1)
         && (forall j :: open + 1 <= j < b - 1 ==> !InlineCloseAt(text, open, j))
  }

  /** No opener stands in `text[from..to]`: each unescaped dollar is followed by whitespace or ends the text. */
  ghost predicate Quiet(text: string, from: nat, to: nat) {
    forall k :: from <= k < to && IsDollar(text, k) ==> k + 1 >= |text| || IsSpace(text[k + 1])
  }

  lemma {:induction false} DisplayCloseIsFirst(text: string, j: nat, end: nat)
    requires end <= |text|
    ensures var c := DisplayClose(text, j, end);
            forall k :: j <= k < (if c.Some? then c.value else end) && k + 1 < end ==> !DisplayCloseAt(text, k)
    decreases end - j
  {
    if j + 1 < end && !DisplayCloseAt(text, j) {
      DisplayCloseIsFirst(text, j + 1, end);
    }
  }

  lemma {:induction false} InlineCloseIsFirst(text: string, open: nat, j: nat, end: nat)
    requires end <= |text|
    ensures var c := InlineClose(text, open, j, end);
            forall k :: j <= k < (if c.Some? then c.value else end) ==> !InlineCloseAt(text, open, k)
    decreases end - j
  {
    if j < end && !InlineCloseAt(text, open, j) {
      InlineCloseIsFirst(text, open, j + 1, end);
    }
  }

  ghost predicate ScanOk(text: string, i: nat, end: nat, r: MathScan)
  {
    && StrictlyIncreasing(r.bounds)
    && (forall k :: 0 <= k < |r.bounds| ==> i + 1 < r.bounds[k] <= end)
    && (r.halt.Some? ==> i <= r.halt.value < end && forall k :: 0 <= k < |r.bounds| ==> r.bounds[k] <= r.halt.value)
  }

  lemma {:induction false} ScanSpanOk(text: string, i: nat, end: nat)
    requires end <= |text|
    ensures ScanOk(text, i, end, ScanSpan(text, i, end))
    decreases end - i
  {
    if i >= end {
    } else if !IsDollar(text, i) {
      ScanSpanOk(text, i + 1, end);
    } else if i + 1 < end && text[i + 1] == '$' {
      var c := DisplayClose(text, i + 2, end);
      if c.Some? {
        ScanSpanOk(text, c.value + 2, end);
      }
    } else if i + 1 >= |text| || IsSpace(text[i + 1]) {
      ScanSpanOk(text, i + 1, end);
    } else {
      var c := InlineClose(text, i, i + 1, end);
      if c.Some? {
        ScanSpanOk(text, c.value + 1, end);
      }
    }
  }

  ghost predicate ClosesMathAfter(text: string, prev: nat, b: nat) {
    exists open :: prev <= open && CompleteMath(text, open, b)
  }

  /** Each boundary closes a complete expression that opened after the boundary before it. */
  ghost predicate EachClosesMath(text: string, prev: nat, bounds: seq<nat>)
    decreases |bounds|
  {
    bounds == [] || (ClosesMathAfter(text, prev, bounds[0]) && EachClosesMath(text, bounds[0], bounds[1..]))
  }

  lemma {:induction false} ScanSpanClosesMath(text: string, prev: nat, i: nat, end: nat)
    requires end <= |text| && prev <= i
    ensures EachClosesMath(text, prev, ScanSpan(text, i, end).bounds)
    decreases end - i
  {
    if i >= end {
    } else if !IsDollar(text, i) {
      ScanSpanClosesMath(text, prev, i + 1, end);
    } else if i + 1 < end && text[i + 1] == '$' {
      var c := DisplayClose(text, i + 2, end);
      if c.Some? {
        DisplayCloseIsFirst(text, i + 2, end);
        ScanSpanClosesMath(text, c.value + 2, c.value + 2, end);
        assert CompleteMath(text, i, c.value + 2);
      }
    } else if i + 1 >= |text| || IsSpace(text[i + 1]) {
      ScanSpanClosesMath(text, prev, i + 1, end);
    } else {
      var c := InlineClose(text, i, i + 1, end);
      if c.Some? {
        InlineCloseIsFirst(text, i, i + 1, end);
        ScanSpanClosesMath(text, c.value + 1, c.value + 1, end);
        assert CompleteMath(text, i, c.value + 1);
      }
    }
  }

  /** After its last boundary the scan saw no opener before the halt or the end of the span. */
  lemma {:induction false} ScanSpanIsQuiet(text: string, i: nat, end: nat)
    requires i <= end <= |text|
    ensures var r := ScanSpan(text, i, end);
            Quiet(text, Last(i, r.bounds), if r.halt.Some? then r.halt.value else end)
    decreases end - i
  {
    var r := ScanSpan(text, i, end);
    if i >= end {
    } else if !IsDollar(text, i) {
      ScanSpanIsQuiet(text, i + 1, end);
    } else if i + 1 < end && text[i + 1] == '$' {
      var c := DisplayClose(text, i + 2, end);
      if c.Some? {
        ScanSpanIsQuiet(text, c.value + 2, end);
        assert Last(i, r.bounds) == Last(c.value + 2, ScanSpan(text, c.value + 2, end).bounds);
      }
    } else if i + 1 >= |text| || IsSpace(text[i + 1]) {
      ScanSpanIsQuiet(text, i + 1, end);
    } else {
      var c := InlineClose(text, i, i + 1, end);
      if c.Some? {
        ScanSpanIsQuiet(text, c.value + 1, end);
        assert Last(i, r.bounds) == Last(c.value + 1, ScanSpan(text, c.value + 1, end).bounds);
      }
    }
  }

  // ----- the math pass over a text and its extension -----

  lemma {:induction false} BackslashesKept(t: string, ts: string, i: nat)
    requires t <= ts && i <= |t|
    ensures Backslashes(t, i) == Backslashes(ts, i)
  {
    if i > 0 && t[i - 1] == '\\' {
      BackslashesKept(t, ts, i - 1);
    }
  }

  lemma {:induction false} DollarsKept(t: string, ts: string)
    requires t <= ts
    ensures forall i :: 0 <= i < |t| ==> IsDollar(t, i) == IsDollar(ts, i)
  {
    forall i | 0 <= i < |t| ensures IsDollar(t, i) == IsDollar(ts, i) {
      BackslashesKept(t, ts, i);
    }
  }

  lemma {:induction false} DisplayCloseKept(t: string, ts: string, j: nat, e: nat)
    requires t <= ts && e <= |ts|
    requires forall k :: e <= k < |t| ==> t[k] != '$'
    ensures DisplayClose(t, j, |t|).Some? ==> DisplayClose(ts, j, e) == DisplayClose(t, j, |t|)
    decreases |t| - j
  {
    DollarsKept(t, ts);
    if j + 1 < |t| {
      DisplayCloseKept(t, ts, j + 1, e);
    }
  }

  lemma {:induction false} InlineCloseKept(t: string, ts: string, open: nat, j: nat, e: nat)
    requires t <= ts && e <= |ts|
    requires forall k :: e <= k < |t| ==> t[k] != '$'
    ensures InlineClose(t, open, j, |t|).Some? ==> InlineClose(ts, open, j, e) == InlineClose(t, open, j, |t|)
    decreases |t| - j
  {
    DollarsKept(t, ts);
    if j < |t| {
      InlineCloseKept(t, ts, open, j + 1, e);
    }
  }

  /** How far the scan of a text that may still grow has decided: up to its halt, else its whole length `n`. */
  function Decided(n: nat, r: MathScan): nat {
    if r.halt.Some? then r.halt.value else n
  }

  /**
   * The last span of `t` and the span of `ts` that starts at the same place: `ts` finds the boundaries of `t`
   * first, and every other boundary lies beyond what `t` decided.
   */
  lemma {:induction false} ScanSpanGrows(t: string, ts: string, i: nat, e: nat)
    requires t <= ts && i <= |t| && i <= e <= |ts|
    requires forall k :: e <= k < |t| ==> t[k] != '$'
    ensures var r, r' := ScanSpan(t, i, |t|), ScanSpan(ts, i, e);
            r.bounds <= r'.bounds && forall k :: |r.bounds| <= k < |r'.bounds| ==> r'.bounds[k] > Decided(|t|, r)
    decreases |t| - i
  {
    DollarsKept(t, ts);
    ScanSpanOk(ts, i, e);
    if i == |t| {
    } else if i == e {
      ScanNoDollar(t, i);
    } else if !IsDollar(t, i) {
      ScanSpanGrows(t, ts, i + 1, e);
    } else if i + 1 >= |t| {
    } else if t[i + 1] == '$' {
      var c := DisplayClose(t, i + 2, |t|);
      DisplayCloseKept(t, ts, i + 2, e);
      if c.Some? {
        ScanSpanGrows(t, ts, c.value + 2, e);
      }
    } else if IsSpace(t[i + 1]) {
      ScanSpanGrows(t, ts, i + 1, e);
    } else {
      var c := InlineClose(t, i, i + 1, |t|);
      InlineCloseKept(t, ts, i, i + 1, e);
      if c.Some? {
        ScanSpanGrows(t, ts, c.value + 1, e);
      }
    }
  }

  lemma {:induction false} ScanNoDollar(t: string, i: nat)
    requires i <= |t| && forall k :: i <= k < |t| ==> t[k] != '$'
    ensures ScanSpan(t, i, |t|) == MathScan([], None)
    decreases |t| - i
  {
    if i < |t| {
      ScanNoDollar(t, i + 1);
    }
  }

  lemma {:induction false} DisplayCloseSame(t: string, ts: string, j: nat, end: nat)
    requires t <= ts && end <= |t|
    ensures DisplayClose(t, j, end) == DisplayClose(ts, j, end)
    decreases end - j
  {
    DollarsKept(t, ts);
    if j + 1 < end {
      DisplayCloseSame(t, ts, j + 1, end);
    }
  }

  lemma {:induction false} InlineCloseSame(t: string, ts: string, open: nat, j: nat, end: nat)
    requires t <= ts && end <= |t|
    ensures InlineClose(t, open, j, end) == InlineClose(ts, open, j, end)
    decreases end - j
  {
    DollarsKept(t, ts);
    if j < end {
      InlineCloseSame(t, ts, open, j + 1, end);
    }
  }

  /** A span that ends before the text does is scanned alike in the text and in its extension. */
  lemma {:induction false} ScanSpanSame(t: string, ts: string, i: nat, end: nat)
    requires t <= ts && end < |t|
    ensures ScanSpan(t, i, end) == ScanSpan(ts, i, end)
    decreases end - i
  {
    DollarsKept(t, ts);
    if i >= end {
    } else if !IsDollar(t, i) {
      ScanSpanSame(t, ts, i + 1, end);
    } else if i + 1 < end && t[i + 1] == '$' {
      DisplayCloseSame(t, ts, i + 2, end);
      var c := DisplayClose(t, i + 2, end);
      if c.Some? {
        ScanSpanSame(t, ts, c.value + 2, end);
      }
    } else if IsSpace(t[i + 1]) {
      ScanSpanSame(t, ts, i + 1, end);
    } else {
      InlineCloseSame(t, ts, i, i + 1, end);
      var c := InlineClose(t, i, i + 1, end);
      if c.Some? {
        ScanSpanSame(t, ts, c.value + 1, end);
      }
    }
  }
}

/**
 * What the math pass and the whole split find, said of the text alone: where an expression opens, where it closes, and
 * which opener is left unclosed.
 */
module MathMeaning {
  import opened Wrappers
  import opened StreamingMath
  import opened StreamingScan
  import opened StreamingFences
  import opened StreamingSafety
  import opened Strings
  import opened FenceMeaning

  // ----- dollars -----

  /** Exactly `k` backslashes stand directly before index `i`. */
  ghost predicate BackslashRun(text: string, i: nat, k: nat) {
    && k <= i <= |text| && (forall j :: i - k <= j < i ==> text[j] == '\\')
    && (k < i ==> text[i - k - 1] != '\\')
  }

  /** An unescaped dollar: an even number of backslashes before it. */
  lemma {:induction false} DollarIs(text: string, i: nat)
    ensures IsDollar(text, i) <==>
            i < |text| && text[i] == '$' && exists k: nat :: BackslashRun(text, i, k) && k % 2 == 0
  {
    if i < |text| {
      BackslashesAre(text, i);
      forall k: nat | BackslashRun(text, i, k) ensures k == Backslashes(text, i) {
        RunsAreOne(text, i, k, Backslashes(text, i));
      }
    }
  }

  lemma {:induction false} BackslashesAre(text: string, i: nat)
    requires i <= |text|
    ensures BackslashRun(text, i, Backslashes(text, i))
  {
    if i > 0 && text[i - 1] == '\\' {
      BackslashesAre(text, i - 1);
    }
  }

  lemma {:induction false} RunsAreOne(text: string, i: nat, k: nat, m: nat)
    requires BackslashRun(text, i, k) && BackslashRun(text, i, m)
    ensures k == m
  {
    assert k < i ==> text[i - k - 1] != '\\';
    assert m < i ==> text[i - m - 1] != '\\';
  }

  /** Whitespace, by code points: the characters that ECMAScript calls white space and line terminators. */
  lemma {:induction false} SpacesAre(c: char)
    ensures IsSpace(c) <==>
            || 9 <= c as int <= 13 || c as int in {32, 160, 5760, 8232, 8233, 8239, 8287, 12288, 65279}
            || 8192 <= c as int <= 8202
  {
  }

  // ----- expressions in a stretch of prose -----

  /** `$$` opens display math at `i`, in prose that ends at `z`. */
  predicate DisplayOpener(text: string, z: nat, i: nat) {
    i + 1 < z <= |text| && IsDollar(text, i) && text[i + 1] == '$'
  }

  /** `$` opens inline math at `i`: it is not followed by whitespace or the end of the text. */
  predicate InlineOpener(text: string, z: nat, i: nat) {
    i < z && i + 1 < |text| && IsDollar(text, i) && !DisplayOpener(text, z, i) && !IsSpace(text[i + 1])
  }

  /** What opens at `i` could close just before `b`. */
  ghost predicate Closer(text: string, z: nat, i: nat, b: nat) {
    b <= z <= |text| &&
    if DisplayOpener(text, z, i) then i + 4 <= b && IsDollar(text, b - 2) && text[b - 1] == '$'
    else i + 3 <= b && IsDollar(text, b - 1) && !IsSpace(text[b - 2])
  }

  /** And not earlier. */
  ghost predicate FirstCloser(text: string, z: nat, i: nat, b: nat) {
    Closer(text, z, i, b) && forall c :: 0 <= c < b ==> !Closer(text, z, i, c)
  }

  /** An expression opens at `i` in the prose `text[a..z]`: every one that opened before has closed before. */
  ghost predicate MathOpens(text: string, a: nat, z: nat, i: nat)
    decreases i
  {
    && a <= i < z && (DisplayOpener(text, z, i) || InlineOpener(text, z, i))
    && forall o: nat :: a <= o < i && MathOpens(text, a, z, o) ==> exists b: nat :: b <= i && FirstCloser(text, z, o, b)
  }

  /** The expression that opens at `h` never closes. */
  ghost predicate Unclosed(text: string, a: nat, z: nat, h: nat) {
    MathOpens(text, a, z, h) && forall b: nat :: !Closer(text, z, h, b)
  }

  ghost predicate ClosesAt(text: string, a: nat, z: nat, i: nat, b: nat) {
    exists o: nat :: o >= i && MathOpens(text, a, z, o) && FirstCloser(text, z, o, b)
  }

  /** Every expression that opened before `i` has closed by `i`. */
  ghost predicate AllClosed(text: string, a: nat, z: nat, i: nat) {
    a <= i && forall o: nat :: a <= o < i && MathOpens(text, a, z, o) ==>
      exists b: nat :: b <= i && FirstCloser(text, z, o, b)
  }

  /** The scan from `i` on finds what opens from `i` on. */
  ghost predicate Finds(text: string, a: nat, z: nat, i: nat, r: MathScan) {
    && (forall b: nat :: b in r.bounds <==> ClosesAt(text, a, z, i, b))
    && (forall h: nat :: r.halt == Some(h) <==> h >= i && Unclosed(text, a, z, h))
  }

  lemma {:induction false} NoOpenerHere(text: string, a: nat, z: nat, i: nat, r: MathScan)
    requires AllClosed(text, a, z, i) && !DisplayOpener(text, z, i) && !InlineOpener(text, z, i)
    ensures AllClosed(text, a, z, i + 1)
    ensures Finds(text, a, z, i + 1, r) ==> Finds(text, a, z, i, r)
  {
  }

  lemma {:induction false} OpenerHere(text: string, a: nat, z: nat, i: nat)
    requires AllClosed(text, a, z, i) && i < z && (DisplayOpener(text, z, i) || InlineOpener(text, z, i))
    ensures MathOpens(text, a, z, i)
  {
  }

  /** Up to its closer nothing else opens. */
  lemma {:induction false} ClosedHere(text: string, a: nat, z: nat, i: nat, b: nat, r: MathScan)
    requires AllClosed(text, a, z, i) && MathOpens(text, a, z, i) && FirstCloser(text, z, i, b)
    ensures AllClosed(text, a, z, b)
    ensures Finds(text, a, z, b, r) ==> Finds(text, a, z, i, Found(b, r))
  {
  }

  lemma {:induction false} UnclosedHere(text: string, a: nat, z: nat, i: nat)
    requires AllClosed(text, a, z, i) && Unclosed(text, a, z, i)
    ensures Finds(text, a, z, i, MathScan([], Some(i)))
  {
  }

  lemma {:induction false} DisplayFirst(text: string, z: nat, i: nat)
    requires z <= |text| && DisplayOpener(text, z, i)
    ensures match DisplayClose(text, i + 2, z)
            case Some(c) => FirstCloser(text, z, i, c + 2)
            case None => forall b: nat :: !Closer(text, z, i, b)
  {
    DisplayCloseIsFirst(text, i + 2, z);
    forall b: nat | Closer(text, z, i, b) ensures DisplayCloseAt(text, b - 2) {
    }
  }

  lemma {:induction false} InlineFirst(text: string, z: nat, i: nat)
    requires z <= |text| && InlineOpener(text, z, i)
    ensures match InlineClose(text, i, i + 1, z)
            case Some(c) => FirstCloser(text, z, i, c + 1)
            case None => forall b: nat :: !Closer(text, z, i, b)
  {
    InlineCloseIsFirst(text, i, i + 1, z);
    forall b: nat | Closer(text, z, i, b) ensures InlineCloseAt(text, i, b - 1) {
    }
  }

  /** The scan of a stretch of prose finds exactly where its expressions close, and the one that never does. */
  lemma {:induction false} ScanMeans(text: string, a: nat, z: nat, i: nat)
    requires z <= |text| && AllClosed(text, a, z, i)
    ensures Finds(text, a, z, i, ScanSpan(text, i, z))
    decreases z - i
  {
    if i >= z {
    } else if !IsDollar(text, i) {
      NoOpenerHere(text, a, z, i, ScanSpan(text, i + 1, z));
      ScanMeans(text, a, z, i + 1);
    } else if i + 1 < z && text[i + 1] == '$' {
      OpenerHere(text, a, z, i);
      var c := DisplayClose(text, i + 2, z);
      DisplayFirst(text, z, i);
      if c.Some? {
        ClosedHere(text, a, z, i, c.value + 2, ScanSpan(text, c.value + 2, z));
        ScanMeans(text, a, z, c.value + 2);
      } else {
        UnclosedHere(text, a, z, i);
      }
    } else if i + 1 >= |text| || IsSpace(text[i + 1]) {
      NoOpenerHere(text, a, z, i, ScanSpan(text, i + 1, z));
      ScanMeans(text, a, z, i + 1);
    } else {
      OpenerHere(text, a, z, i);
      var c := InlineClose(text, i, i + 1, z);
      InlineFirst(text, z, i);
      if c.Some? {
        ClosedHere(text, a, z, i, c.value + 1, ScanSpan(text, c.value + 1, z));
        ScanMeans(text, a, z, c.value + 1);
      } else {
        UnclosedHere(text, a, z, i);
      }
    }
  }

  // ----- all the prose of a text -----

  /** The prose run `text[a..z]` has an opener that never closes. */
  ghost predicate Halts(text: string, a: nat, z: nat, h: nat) {
    ProseRun(Lines(text), |text|, a, z) && Unclosed(text, a, z, h)
  }

  /** No opener is left unclosed in the prose before `a`. */
  ghost predicate NoHaltBefore(text: string, a: nat) {
    forall x: nat, y: nat, h: nat :: y <= a ==> !Halts(text, x, y, h)
  }

  /** An expression closes at `b`, in prose that the pass reaches. */
  ghost predicate MathEnd(text: string, b: nat) {
    exists a: nat, z: nat ::
      ProseRun(Lines(text), |text|, a, z) && ClosesAt(text, a, z, a, b) && NoHaltBefore(text, a)
  }

  /** The first opener that is left unclosed. */
  ghost predicate MathHalt(text: string, h: nat) {
    exists a: nat, z: nat :: Halts(text, a, z, h) && NoHaltBefore(text, a)
  }

  /** What a scan of the spans from `k` on must find. */
  ghost predicate FindsAll(text: string, spans: seq<(nat, nat)>, k: nat, r: MathScan)
    requires k <= |spans|
  {
    && (forall b: nat :: b in r.bounds <==> exists i :: EndsIn(text, spans, k, i, b))
    && (forall h: nat :: r.halt == Some(h) <==> exists i :: HaltsIn(text, spans, k, i, h))
  }

  ghost predicate NoHaltFrom(text: string, spans: seq<(nat, nat)>, k: nat, i: int) {
    forall j, h: nat :: 0 <= k <= j < i && j < |spans| ==> !Unclosed(text, spans[j].0, spans[j].1, h)
  }

  ghost predicate EndsIn(text: string, spans: seq<(nat, nat)>, k: nat, i: int, b: nat) {
    k <= i < |spans| && ClosesAt(text, spans[i].0, spans[i].1, spans[i].0, b) && NoHaltFrom(text, spans, k, i)
  }

  ghost predicate HaltsIn(text: string, spans: seq<(nat, nat)>, k: nat, i: int, h: nat) {
    k <= i < |spans| && Unclosed(text, spans[i].0, spans[i].1, h) && NoHaltFrom(text, spans, k, i)
  }

  lemma {:induction false} ScanAllMeans(text: string, spans: seq<(nat, nat)>, k: nat)
    requires k <= |spans| && SpansWithin(spans, |text|)
    ensures FindsAll(text, spans, k, ScanSpans(text, spans[k..]))
    decreases |spans| - k
  {
    if k < |spans| {
      var (a, z) := spans[k];
      var first, rest := ScanSpan(text, a, z), ScanSpans(text, spans[k + 1..]);
      assert spans[k..][0] == spans[k] && spans[k..][1..] == spans[k + 1..];
      ScanMeans(text, a, z, a);
      ScanAllMeans(text, spans, k + 1);
      ThenFinds(text, spans, k, first, rest);
    }
  }

  lemma {:induction false} NoHaltGrows(text: string, spans: seq<(nat, nat)>, k: nat, i: int, first: MathScan)
    requires k < |spans| && k < i && Finds(text, spans[k].0, spans[k].1, spans[k].0, first)
    ensures NoHaltFrom(text, spans, k, i) <==> first.halt.None? && NoHaltFrom(text, spans, k + 1, i)
  {
    if first.halt.Some? {
      assert Unclosed(text, spans[k].0, spans[k].1, first.halt.value);
    }
  }

  lemma {:induction false} ThenFinds(text: string, spans: seq<(nat, nat)>, k: nat, first: MathScan, rest: MathScan)
    requires k < |spans| && Finds(text, spans[k].0, spans[k].1, spans[k].0, first) && FindsAll(text, spans, k + 1, rest)
    ensures FindsAll(text, spans, k, Then(first, rest))
  {
    forall b: nat ensures b in Then(first, rest).bounds <==> exists i :: EndsIn(text, spans, k, i, b) {
      EndsInGrows(text, spans, k, k + 1, b, first);
    }
    forall h: nat ensures Then(first, rest).halt == Some(h) <==> exists i :: HaltsIn(text, spans, k, i, h) {
      HaltsInGrows(text, spans, k, k + 1, h, first);
    }
  }

  lemma {:induction false} EndsInGrows(text: string, spans: seq<(nat, nat)>, k: nat, next: nat, b: nat, first: MathScan)
    requires k < |spans| && next == k + 1 && Finds(text, spans[k].0, spans[k].1, spans[k].0, first)
    ensures (exists i :: EndsIn(text, spans, k, i, b)) <==>
            b in first.bounds || (first.halt.None? && exists i :: EndsIn(text, spans, next, i, b))
  {
    assert b in first.bounds <==> EndsIn(text, spans, k, k, b);
    if i :| EndsIn(text, spans, k, i, b) && i > k {
      NoHaltGrows(text, spans, k, i, first);
      assert EndsIn(text, spans, next, i, b);
    }
    if i :| first.halt.None? && EndsIn(text, spans, next, i, b) {
      NoHaltGrows(text, spans, k, i, first);
      assert EndsIn(text, spans, k, i, b);
    }
  }

  lemma {:induction false} HaltsInGrows(text: string, spans: seq<(nat, nat)>, k: nat, next: nat, h: nat,
                                        first: MathScan)
    requires k < |spans| && next == k + 1 && Finds(text, spans[k].0, spans[k].1, spans[k].0, first)
    ensures (exists i :: HaltsIn(text, spans, k, i, h)) <==>
            first.halt == Some(h) || (first.halt.None? && exists i :: HaltsIn(text, spans, next, i, h))
  {
    assert first.halt == Some(h) <==> HaltsIn(text, spans, k, k, h);
    if i :| HaltsIn(text, spans, k, i, h) && i > k {
      NoHaltGrows(text, spans, k, i, first);
      assert HaltsIn(text, spans, next, i, h);
    }
    if i :| first.halt.None? && HaltsIn(text, spans, next, i, h) {
      NoHaltGrows(text, spans, k, i, first);
      assert HaltsIn(text, spans, k, i, h);
    }
  }

  /** The spans are the prose runs of the text, one after the other. */
  ghost predicate AreRuns(text: string, spans: seq<(nat, nat)>) {
    && (forall a: nat, z: nat :: (a, z) in spans <==> ProseRun(Lines(text), |text|, a, z))
    && (forall i, j :: 0 <= i < j < |spans| ==> spans[i].1 <= spans[j].0)
    && (forall i :: 0 <= i < |spans| ==> spans[i].0 < spans[i].1)
  }

  lemma {:induction false} ProseSpansAreRuns(text: string)
    ensures AreRuns(text, ProseSpans(text))
  {
    FencesMean(text);
    ProseSpansOk(text);
  }

  lemma {:induction false} SpanIsRun(text: string, spans: seq<(nat, nat)>, i: nat)
    requires AreRuns(text, spans) && i < |spans|
    ensures ProseRun(Lines(text), |text|, spans[i].0, spans[i].1)
  {
    assert spans[i] in spans && spans[i] == (spans[i].0, spans[i].1);
  }

  lemma {:induction false} RunIsSpan(text: string, spans: seq<(nat, nat)>, a: nat, z: nat) returns (i: nat)
    requires AreRuns(text, spans) && ProseRun(Lines(text), |text|, a, z)
    ensures i < |spans| && spans[i] == (a, z)
  {
    assert (a, z) in spans;
    i :| 0 <= i < |spans| && spans[i] == (a, z);
  }

  /** Before a run in the text is before it in the list. */
  lemma {:induction false} EarlierRuns(text: string, spans: seq<(nat, nat)>, i: nat)
    requires AreRuns(text, spans) && i < |spans|
    ensures NoHaltFrom(text, spans, 0, i) <==> NoHaltBefore(text, spans[i].0)
  {
    if NoHaltFrom(text, spans, 0, i) {
      forall x: nat, y: nat, h: nat | y <= spans[i].0 ensures !Halts(text, x, y, h) {
        if ProseRun(Lines(text), |text|, x, y) {
          var j := RunIsSpan(text, spans, x, y);
          assert j < i;
        }
      }
    }
    if NoHaltBefore(text, spans[i].0) {
      forall j, h: nat | 0 <= j < i ensures !Unclosed(text, spans[j].0, spans[j].1, h) {
        SpanIsRun(text, spans, j);
        assert !Halts(text, spans[j].0, spans[j].1, h);
      }
    }
  }

  lemma {:induction false} EndsMean(text: string, spans: seq<(nat, nat)>, b: nat)
    requires AreRuns(text, spans)
    ensures (exists i :: EndsIn(text, spans, 0, i, b)) <==> MathEnd(text, b)
  {
    if i :| EndsIn(text, spans, 0, i, b) {
      EarlierRuns(text, spans, i);
      SpanIsRun(text, spans, i);
    }
    if a: nat, z: nat :| ProseRun(Lines(text), |text|, a, z) && ClosesAt(text, a, z, a, b) && NoHaltBefore(text, a) {
      var i := RunIsSpan(text, spans, a, z);
      EarlierRuns(text, spans, i);
      assert EndsIn(text, spans, 0, i, b);
    }
  }

  lemma {:induction false} HaltMeans(text: string, spans: seq<(nat, nat)>, h: nat)
    requires AreRuns(text, spans)
    ensures (exists i :: HaltsIn(text, spans, 0, i, h)) <==> MathHalt(text, h)
  {
    if i :| HaltsIn(text, spans, 0, i, h) {
      EarlierRuns(text, spans, i);
      SpanIsRun(text, spans, i);
      assert Halts(text, spans[i].0, spans[i].1, h);
    }
    if a: nat, z: nat :| Halts(text, a, z, h) && NoHaltBefore(text, a) {
      var i := RunIsSpan(text, spans, a, z);
      EarlierRuns(text, spans, i);
      assert HaltsIn(text, spans, 0, i, h);
    }
  }

  /** The math pass finds exactly where expressions close in prose, up to the first opener that is left unclosed. */
  lemma {:induction false} MathMeans(text: string)
    ensures forall b: nat :: b in Math(text).bounds <==> MathEnd(text, b)
    ensures forall h: nat :: Math(text).halt == Some(h) <==> MathHalt(text, h)
  {
    var spans := ProseSpans(text);
    assert spans[0..] == spans;
    ScanAllMeans(text, spans, 0);
    ProseSpansAreRuns(text);
    forall b: nat ensures b in Math(text).bounds <==> MathEnd(text, b) {
      EndsMean(text, spans, b);
    }
    forall h: nat ensures Math(text).halt == Some(h) <==> MathHalt(text, h) {
      HaltMeans(text, spans, h);
    }
  }

  // ----- the view -----

  /** Where chunk `k` ends in the text. */
  function ChunkEnd(settled: seq<string>, k: nat): nat
    requires k < |settled|
  {
    |Concat(settled[..k + 1])|
  }

  /**
   * The view waits for math when an opener is left unclosed in prose, else for a fence that never ends, else for
   * nothing.
   */
  lemma {:induction false} PendingMeans(text: string)
    ensures var lines, v := Lines(text), Split(text);
            && (v.pending == MathPending <==> exists h: nat :: MathHalt(text, h))
            && (v.pending == BlockPending <==>
                  (forall h: nat :: !MathHalt(text, h)) && exists i: nat :: NeverEnds(lines, i))
            && (forall h: nat :: MathHalt(text, h) ==> Cutoff(text) == h)
            && ((forall h: nat :: !MathHalt(text, h)) ==> forall i: nat :: NeverEnds(lines, i) ==>
              Cutoff(text) == lines[i].start)
            && (v.pending == NoPending ==> Cutoff(text) == |text|)
  {
    FencesMean(text);
    MathMeans(text);
    CutoffIs(text);
    MathOk(text);
    if Math(text).halt.Some? {
      assert MathHalt(text, Math(text).halt.value);
    }
  }

  /** Chunks end exactly where a fence or an expression ends, up to what is pending. */
  lemma {:induction false} CutsMean(text: string, b: nat)
    ensures var v := Split(text);
            (exists k :: 0 <= k < |v.settled| && ChunkEnd(v.settled, k) == b) <==>
            (FenceEnd(Lines(text), b) || MathEnd(text, b)) && b <= Cutoff(text)
  {
    var bounds := SettledBounds(text);
    var v := Split(text);
    SettledBoundsAre(text);
    FencesMean(text);
    MathMeans(text);
    forall k | 0 <= k < |bounds| ensures ChunkEnd(v.settled, k) == bounds[k] {
      ChunkEndsAt(text, bounds, k + 1);
    }
    if b in bounds {
      var k :| 0 <= k < |bounds| && bounds[k] == b;
      assert ChunkEnd(v.settled, k) == b;
    }
  }
}

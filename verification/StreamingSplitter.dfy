/** The loops of the splitter, proved to compute the split that the other Streaming modules reason about. */
module StreamingSplitter {
  import opened Wrappers
  import opened StreamingMath
  import Sorting

  method CountsAsEscaped(text: string, i: nat) returns (escaped: bool)
    requires i <= |text|
    ensures escaped == IsEscaped(text, i)
  {
    var backslashes := 0;
    var j := i - 1;
    while j >= 0 && text[j] == '\\'
      invariant -1 <= j < i
      invariant backslashes + Backslashes(text, j + 1) == Backslashes(text, i)
    {
      backslashes := backslashes + 1;
      j := j - 1;
    }
    return backslashes % 2 == 1;
  }

  /** Line `li` starts at `offset`, and `ranges` are those of the lines from it on. */
  ghost predicate AtLine(text: string, lines: seq<string>, li: nat, offset: nat, ranges: seq<(nat, nat)>) {
    li <= |lines| && lines[li..] == Pieces(text, ranges) && RangesOk(offset, ranges, |text|)
  }

  lemma {:induction false} NextLine(text: string, lines: seq<string>, li: nat, offset: nat, ranges: seq<(nat, nat)>)
    requires AtLine(text, lines, li, offset, ranges) && li < |lines|
    ensures ranges != [] && ranges[0] == (offset, offset + |lines[li]|)
    ensures lines[li] == Slice(text, offset, offset + |lines[li]|)
    ensures AtLine(text, lines, li + 1, offset + |lines[li]| + 1, ranges[1..])
  {
    assert lines[li] == lines[li..][0] && lines[li + 1..] == lines[li..][1..];
    assert Pieces(text, ranges)[1..] == Pieces(text, ranges[1..]);
  }

  lemma {:induction false} NoMoreLines(text: string, lines: seq<string>, offset: nat, ranges: seq<(nat, nat)>)
    requires AtLine(text, lines, |lines|, offset, ranges)
    ensures ranges == []
  {
    assert |Pieces(text, ranges)| == 0;
  }

  /** Passing over the remaining lines from `st` completes the fence pass of the text. */
  ghost predicate Completes(st: FenceState, text: string, ranges: seq<(nat, nat)>) {
    FencePass(st, Marked(text, ranges)) == Fences(text)
  }

  lemma {:induction false} CompletesOn(st: FenceState, text: string, ranges: seq<(nat, nat)>)
    requires ranges != [] && Completes(st, text, ranges)
    ensures var (start, end) := ranges[0];
            Completes(FenceStep(st, Line(start, end, FenceMarker(Slice(text, start, end)))), text, ranges[1..])
  {
    var (start, end) := ranges[0];
    assert Marked(text, ranges)[0] == Line(start, end, FenceMarker(Slice(text, start, end)));
    assert Marked(text, ranges)[1..] == Marked(text, ranges[1..]);
  }

  ghost function StateOf(inFence: Option<string>, fenceStart: int, spanStart: nat, boundaries: seq<nat>,
                         spans: seq<(nat, nat)>): FenceState
    requires inFence.Some? ==> fenceStart >= 0
  {
    FenceState(if inFence.Some? then Some(Fence(inFence.value, fenceStart)) else None, spanStart, boundaries, spans)
  }

  /** One turn of the line loop: a fence may open or close on the line at `offset`. */
  method TakeLine(line: string, offset: nat, inFence: Option<string>, fenceStart: int, spanStart: nat,
                  boundaries: seq<nat>, nonFenceSpans: seq<(nat, nat)>)
    returns (open: Option<string>, openStart: int, nextStart: nat, bounds: seq<nat>, spans: seq<(nat, nat)>)
    requires inFence.Some? <==> fenceStart >= 0
    ensures open.Some? <==> openStart >= 0
    ensures StateOf(open, openStart, nextStart, bounds, spans) ==
            FenceStep(StateOf(inFence, fenceStart, spanStart, boundaries, nonFenceSpans),
                      Line(offset, offset + |line|, FenceMarker(line)))
  {
    open, openStart, nextStart, bounds, spans := inFence, fenceStart, spanStart, boundaries, nonFenceSpans;
    var lineEnd := offset + |line|;
    var marker := FenceMarker(line);
    if inFence.None? {
      if marker.Some? {
        assert nonFenceSpans + [] == nonFenceSpans;
        if offset > spanStart {
          spans := spans + [(spanStart, offset)];
        }
        open := marker;
        openStart := offset;
      }
    } else if marker.Some? && Closes(inFence.value, marker.value) {
      bounds := bounds + [lineEnd];
      open := None;
      openStart := -1;
      nextStart := lineEnd;
    }
  }

  /** Walk the lines: where fences close, which spans are prose, and what is open at the end. */
  method WalkFences(text: string)
    returns (boundaries: seq<nat>, nonFenceSpans: seq<(nat, nat)>, pending: Pending, pendingStart: int)
    ensures boundaries == Fences(text).bounds && nonFenceSpans == ProseSpans(text)
    ensures pending == (if Fences(text).open.Some? then BlockPending else NoPending)
    ensures pendingStart == (if Fences(text).open.Some? then Fences(text).open.value.start else -1)
  {
    var lines := Pieces(text, Ranges(text, 0));
    RangesAreOk(text, 0);
    boundaries, nonFenceSpans, pending, pendingStart := [], [], NoPending, -1;
    var offset: nat := 0;
    var inFence: Option<string> := None;
    var fenceStart: int := -1;
    var spanStart: nat := 0;
    ghost var ranges := Ranges(text, 0);
    var li := 0;
    while li < |lines|
      invariant 0 <= li <= |lines| && AtLine(text, lines, li, offset, ranges)
      invariant inFence.Some? <==> fenceStart >= 0
      invariant Completes(StateOf(inFence, fenceStart, spanStart, boundaries, nonFenceSpans), text, ranges)
    {
      NextLine(text, lines, li, offset, ranges);
      CompletesOn(StateOf(inFence, fenceStart, spanStart, boundaries, nonFenceSpans), text, ranges);
      var line := lines[li];
      inFence, fenceStart, spanStart, boundaries, nonFenceSpans :=
        TakeLine(line, offset, inFence, fenceStart, spanStart, boundaries, nonFenceSpans);
      ranges := ranges[1..];
      offset := offset + |line| + 1;
      li := li + 1;
    }
    NoMoreLines(text, lines, offset, ranges);
    if inFence.Some? {
      pending := BlockPending;
      pendingStart := fenceStart;
    } else if spanStart < |text| {
      nonFenceSpans := nonFenceSpans + [(spanStart, |text|)];
    }
  }

  method FindDisplayClose(text: string, from: nat, end: nat) returns (close: int)
    requires end <= |text|
    ensures close == (match DisplayClose(text, from, end) case Some(c) => c case None => -1)
  {
    var j := from;
    while j + 1 < end
      invariant DisplayClose(text, from, end) == DisplayClose(text, j, end)
    {
      if text[j] == '$' && text[j + 1] == '$' {
        var escaped := CountsAsEscaped(text, j);
        if !escaped {
          return j;
        }
      }
      j := j + 1;
    }
    return -1;
  }

  method FindInlineClose(text: string, open: nat, end: nat) returns (close: int)
    requires end <= |text|
    ensures close == (match InlineClose(text, open, open + 1, end) case Some(c) => c case None => -1)
  {
    var j := open + 1;
    while j < end
      invariant open + 1 <= j
      invariant InlineClose(text, open, open + 1, end) == InlineClose(text, open, j, end)
    {
      if text[j] == '$' {
        var escaped := CountsAsEscaped(text, j);
        if !escaped && j > open + 1 && !IsSpace(text[j - 1]) {
          return j;
        }
      }
      j := j + 1;
    }
    return -1;
  }

  lemma {:induction false} ThenFound(found: seq<nat>, b: nat, rest: MathScan)
    ensures Then(MathScan(found, None), Found(b, rest)) == Then(MathScan(found + [b], None), rest)
  {
    assert found + ([b] + rest.bounds) == (found + [b]) + rest.bounds;
  }

  /** Scan one prose span; `unclosed` is the opener that never closes, or -1. */
  method ScanProse(text: string, start: nat, end: nat) returns (found: seq<nat>, unclosed: int)
    requires end <= |text|
    ensures found == ScanSpan(text, start, end).bounds
    ensures unclosed == (match ScanSpan(text, start, end).halt case Some(h) => h case None => -1)
  {
    found, unclosed := [], -1;
    var i := start;
    while i < end
      invariant unclosed == -1 ==> Then(MathScan(found, None), ScanSpan(text, i, end)) == ScanSpan(text, start, end)
      invariant unclosed != -1 ==>
                i == end && unclosed >= 0 && MathScan(found, Some(unclosed)) == ScanSpan(text, start, end)
      decreases end - i
    {
      var escaped := CountsAsEscaped(text, i);
      if text[i] != '$' || escaped {
        i := i + 1;
        continue;
      }
      var isDisplay := i + 1 < |text| && text[i + 1] == '$' && i + 1 < end;
      var close;
      if isDisplay {
        close := FindDisplayClose(text, i + 2, end);
      } else {
        if i + 1 >= |text| || IsSpace(text[i + 1]) {
          i := i + 1;
          continue;
        }
        close := FindInlineClose(text, i, end);
      }
      if close == -1 {
        unclosed := i;
        i := end;
      } else {
        var boundary := close + if isDisplay then 2 else 1;
        ThenFound(found, boundary, ScanSpan(text, boundary, end));
        found := found + [boundary];
        i := boundary;
      }
    }
  }

  /** Scan the prose spans in order, up to the first opener that never closes, which is then pending. */
  method ScanMath(text: string, nonFenceSpans: seq<(nat, nat)>, blockPending: Pending, blockStart: int)
    returns (found: seq<nat>, pending: Pending, pendingStart: int)
    requires SpansWithin(nonFenceSpans, |text|)
    requires blockPending.NoPending? || blockStart >= 0
    ensures found == ScanSpans(text, nonFenceSpans).bounds
    ensures var halt := ScanSpans(text, nonFenceSpans).halt;
            if halt.Some? && (blockPending.NoPending? || halt.value < blockStart)
            then pending == MathPending && pendingStart == halt.value
            else pending == blockPending && pendingStart == blockStart
  {
    found, pending, pendingStart := [], blockPending, blockStart;
    var k := 0;
    while k < |nonFenceSpans|
      invariant 0 <= k <= |nonFenceSpans|
      invariant pending == blockPending && pendingStart == blockStart
      invariant Then(MathScan(found, None), ScanSpans(text, nonFenceSpans[k..])) == ScanSpans(text, nonFenceSpans)
    {
      var more, unclosed := ScanProse(text, nonFenceSpans[k].0, nonFenceSpans[k].1);
      ghost var rest := nonFenceSpans[k + 1..];
      assert nonFenceSpans[k..][1..] == rest;
      assert found + (more + ScanSpans(text, rest).bounds) == found + more + ScanSpans(text, rest).bounds;
      found := found + more;
      if unclosed != -1 {
        if pending.NoPending? || unclosed < pendingStart {
          pending, pendingStart := MathPending, unclosed;
        }
        return;
      }
      k := k + 1;
    }
  }

  /** Cut the text at the boundaries up to the cutoff. */
  method CutChunks(text: string, boundaries: seq<nat>, cutoff: nat) returns (settled: seq<string>, tail: string)
    ensures settled == Chunks(text, 0, UpTo(boundaries, cutoff))
    ensures tail == Slice(text, Last(0, UpTo(boundaries, cutoff)), cutoff)
  {
    settled := [];
    var prev: nat := 0;
    var k := 0;
    while k < |boundaries|
      invariant 0 <= k <= |boundaries|
      invariant settled + Chunks(text, prev, UpTo(boundaries[k..], cutoff)) == Chunks(text, 0, UpTo(boundaries, cutoff))
      invariant Last(prev, UpTo(boundaries[k..], cutoff)) == Last(0, UpTo(boundaries, cutoff))
    {
      var b := boundaries[k];
      if b > cutoff {
        break;
      }
      ghost var rest := UpTo(boundaries[k + 1..], cutoff);
      assert boundaries[k..][1..] == boundaries[k + 1..];
      assert UpTo(boundaries[k..], cutoff) == [b] + rest;
      assert Chunks(text, prev, [b] + rest) == [Slice(text, prev, b)] + Chunks(text, b, rest);
      settled := settled + [Slice(text, prev, b)];
      prev := b;
      k := k + 1;
    }
    tail := Slice(text, prev, cutoff);
  }

  /** Split streaming text into settled chunks, a safe tail, and a pending marker. */
  method SplitStreamingText(text: string) returns (view: StreamView)
    ensures view == Split(text)
  {
    var boundaries, nonFenceSpans, block, blockStart := WalkFences(text);
    var found, pending, pendingStart := ScanMath(text, nonFenceSpans, block, blockStart);
    boundaries := Sorting.Sort(ASCENDING, boundaries + found);
    var cutoff := if pending.NoPending? then |text| else pendingStart;
    var settled, tail := CutChunks(text, boundaries, cutoff);
    return StreamView(settled, tail, pending);
  }
}

/** What a chunk that ends inside a CRLF does to the events of a stream. */
module SseCuts {
  import opened Strings
  import opened Wrappers
  import opened SseStream

  // ----- up to the cut -----

  /** What the lines of a text so far come to: events, the data of the block under way, and a line without its end. */
  datatype Reading = Reading(events: seq<string>, data: seq<string>, line: string)

  function Feed(x: string, data: seq<string>): Reading
    decreases |x|
  {
    match FindBreak(x)
    case None => Reading([], data, x)
    case Some(0) =>
      var r := Feed(x[1..], []);
      r.(events := Emit(data) + r.events)
    case Some(k) => Feed(x[k + 1..], data + Payload(x[..k]))
  }

  /** The line under way ends here, and `y` follows. */
  function EndLine(data: seq<string>, line: string, y: string): seq<string> {
    if line == "" then Emit(data) + Dispatch(Payload, y, []) else Dispatch(Payload, y, data + Payload(line))
  }

  lemma {:induction false} LineEnds(line: string, y: string, data: seq<string>)
    requires '\n' !in line
    ensures Dispatch(Payload, line + "\n" + y, data) == EndLine(data, line, y)
  {
    if line == "" {
      assert line + "\n" + y == "\n" + y;
      EmptyLineEmits(Payload, y, data);
    } else {
      LineGoesFirst(Payload, line, y, data);
    }
  }

  lemma {:induction false} FeedThenBreak(x: string, y: string, data: seq<string>)
    ensures var r := Feed(x, data);
            '\n' !in r.line && Dispatch(Payload, x + "\n" + y, data) == r.events + EndLine(r.data, r.line, y)
    decreases |x|
  {
    match FindBreak(x)
    case None => LineEnds(x, y, data);
    case Some(k) =>
      var line, tail := x[..k], x[k + 1..];
      var next := if k == 0 then [] else data + Payload(line);
      FirstLineSplits(x, k, y);
      LineEnds(line, tail + "\n" + y, data);
      FeedThenBreak(tail, y, next);
      if k == 0 {
        var r := Feed(tail, []);
        Assoc(Emit(data), r.events, EndLine(r.data, r.line, y));
      }
  }

  lemma {:induction false} FeedCr(x: string, data: seq<string>)
    ensures var r := Feed(x, data); Feed(x + "\r", data) == r.(line := r.line + "\r")
    decreases |x|
  {
    match FindBreak(x)
    case None => NoBreakWithCr(x);
    case Some(k) =>
      BreakWithCr(x, k);
      FeedCr(x[k + 1..], if k == 0 then [] else data + Payload(x[..k]));
  }

  lemma {:induction false} NoBreakWithCr(x: string)
    requires FindBreak(x).None?
    ensures FindBreak(x + "\r").None?
  {
    assert '\n' !in x + "\r";
  }

  lemma {:induction false} BreakWithCr(x: string, k: nat)
    requires FindBreak(x) == Some(k)
    ensures FindBreak(x + "\r") == Some(k) && (x + "\r")[..k] == x[..k] && (x + "\r")[k + 1..] == x[k + 1..] + "\r"
  {
    assert (x + "\r")[..k] == x[..k];
    BreakIs(x + "\r", k);
  }

  // ----- after the cut -----

  /** The data of the lines before the first empty line, and what follows that line; none if there is no empty line. */
  function NextBlock(y: string): Option<(seq<string>, string)>
    decreases |y|
  {
    match FindBreak(y)
    case None => None
    case Some(0) => Some(([], y[1..]))
    case Some(k) =>
      match NextBlock(y[k + 1..])
      case Some((data, rest)) => Some((Payload(y[..k]) + data, rest))
      case None => None
  }

  lemma {:induction false} BlockIsNext(y: string, data: seq<string>)
    ensures Dispatch(Payload, y, data) ==
            match NextBlock(y)
            case Some((more, rest)) => Emit(data + more) + Dispatch(Payload, rest, [])
            case None => []
    decreases |y|
  {
    match FindBreak(y)
    case None =>
    case Some(0) => assert data + [] == data;
    case Some(k) =>
      BlockIsNext(y[k + 1..], data + Payload(y[..k]));
      if NextBlock(y[k + 1..]).Some? {
        Assoc(data, Payload(y[..k]), NextBlock(y[k + 1..]).value.0);
      }
  }

  // ----- the cut -----

  /**
   * The cut loses nothing: a blank line is lost that separated no data, or a line gains a carriage return that is no
   * data or belongs to no complete block.
   */
  predicate Harmless(r: Reading, y: string) {
    match NextBlock(y)
    case None => r.line != "" || r.data == []
    case Some((more, _)) => if r.line == "" then r.data == [] || more == [] else Payload(r.line) == []
  }

  lemma {:induction false} CrStaysInPayload(line: string)
    ensures if Payload(line) == [] then Payload(line + "\r") == []
            else Payload(line + "\r") == [Payload(line)[0] + "\r"]
  {
    var s := line + "\r";
    if "data:" <= line {
      assert s[..5] == line[..5] && s[5..] == line[5..] + "\r";
      assert |line| > 5 ==> s[6..] == line[6..] + "\r";
    } else if |line| < 5 {
      assert s[|line|] == '\r';
    } else {
      assert s[..5] == line[..5];
    }
  }

  lemma {:induction false} OneEventOrTwo(data: seq<string>, more: seq<string>, rest: seq<string>)
    ensures Emit(data) + (Emit(more) + rest) == Emit(data + more) + rest <==> data == [] || more == []
  {
    assert data == [] ==> data + more == more && Emit(data) + (Emit(more) + rest) == Emit(more) + rest;
    assert more == [] ==> data + more == data && Emit(more) + rest == rest;
    if data != [] && more != [] {
      assert |Emit(data) + (Emit(more) + rest)| == 2 + |rest|;
      assert |Emit(data + more) + rest| == 1 + |rest|;
    }
  }

  lemma {:induction false} HeavierLine(data: seq<string>, p: string, more: seq<string>, rest: seq<string>)
    ensures Emit(data + [p] + more) + rest != Emit(data + [p + "\r"] + more) + rest
  {
    var a, b := data + [p] + more, data + [p + "\r"] + more;
    WeightAppend(data + [p], more);
    WeightAppend(data, [p]);
    WeightAppend(data + [p + "\r"], more);
    WeightAppend(data, [p + "\r"]);
    EmitWeighs(a);
    EmitWeighs(b);
    WeightAppend(Emit(a), rest);
    WeightAppend(Emit(b), rest);
    assert [p][1..] == [] && [p + "\r"][1..] == [];
  }

  /** Whether the line ends, or gains a carriage return and then ends. */
  lemma {:induction false} CrMattersUnlessHarmless(r: Reading, y: string)
    ensures EndLine(r.data, r.line, y) == EndLine(r.data, r.line + "\r", y) <==> Harmless(r, y)
  {
    CrStaysInPayload(r.line);
    BlockIsNext(y, []);
    BlockIsNext(y, r.data + Payload(r.line));
    BlockIsNext(y, r.data + Payload(r.line + "\r"));
    if r.line == "" {
      assert r.data + Payload("" + "\r") == r.data;
      if NextBlock(y).Some? {
        var (more, rest) := NextBlock(y).value;
        assert [] + more == more;
        OneEventOrTwo(r.data, more, Dispatch(Payload, rest, []));
      } else {
        assert Emit(r.data) + [] == Emit(r.data);
      }
    } else if NextBlock(y).Some? && Payload(r.line) != [] {
      var (more, rest) := NextBlock(y).value;
      assert Payload(r.line) == [Payload(r.line)[0]];
      HeavierLine(r.data, Payload(r.line)[0], more, Dispatch(Payload, rest, []));
    }
  }

  /** All but the last character. */
  function Front(t: string): string
    requires t != ""
  {
    t[..|t| - 1]
  }

  lemma {:induction false} FrontAppend(head: string, t: string)
    requires t != ""
    ensures Front(head + t) == head + Front(t) && (head + t)[|head + t| - 1] == t[|t| - 1]
  {
  }

  /** Normalising the pieces of a split CRLF leaves its carriage return in. */
  lemma {:induction false} SplitLeavesCr(a: string, b: string)
    requires SplitsCrLf(a, b)
    ensures var n := Normalise(a);
            n != "" && n[|n| - 1] == '\r' && Normalise(a + b) == Front(n) + Normalise(b)
    decreases |a|
  {
    if |a| == 1 {
      CrLfNormalises(b);
      assert a == "\r" && Front("\r") == "" && "" + Normalise(b) == Normalise(b);
    } else {
      var n := if a[0] == '\r' && a[1] == '\n' then 2 else 1;
      var head := if n == 2 then "\n" else [a[0]];
      NormaliseStarts(a, b, n, head);
      SplitLeavesCr(a[n..], b);
      FrontAppend(head, Normalise(a[n..]));
      Assoc3(head, Front(Normalise(a[n..])), Normalise(b));
    }
  }

  lemma {:induction false} CrLfNormalises(b: string)
    requires b != "" && b[0] == '\n'
    ensures Normalise("\r") == "\r" && Normalise(b) == "\n" + Normalise(b[1..]) == Normalise("\r" + b)
  {
    assert ("\r" + b)[2..] == b[1..] && "\r"[1..] == "";
  }

  lemma {:induction false} NormaliseStarts(a: string, b: string, n: nat, head: string)
    requires |a| >= 2 && n == (if a[0] == '\r' && a[1] == '\n' then 2 else 1)
    requires head == if n == 2 then "\n" else [a[0]]
    ensures Normalise(a) == head + Normalise(a[n..]) && Normalise(a + b) == head + Normalise(a[n..] + b)
  {
    assert (a + b)[n..] == a[n..] + b;
  }

  lemma {:induction false} Assoc3(x: string, y: string, z: string)
    ensures x + (y + z) == (x + y) + z
  {
  }

  /** The text up to the cut, without the carriage return, and the text after it, without the line feed. */
  function BeforeCut(a: string, b: string): string
    requires SplitsCrLf(a, b)
  {
    SplitLeavesCr(a, b);
    Front(Normalise(a))
  }

  function AfterCut(b: string): string {
    if b == "" then "" else Normalise(b[1..])
  }

  lemma {:induction false} CutTexts(a: string, b: string)
    requires SplitsCrLf(a, b)
    ensures var x, y := BeforeCut(a, b), AfterCut(b);
            Normalise(a) + Normalise(b) == (x + "\r") + "\n" + y && Normalise(a + b) == x + "\n" + y
  {
    SplitLeavesCr(a, b);
    CrLfNormalises(b);
    FrontAndLast(Normalise(a));
    Assoc3(BeforeCut(a, b) + "\r", "\n", AfterCut(b));
    Assoc3(BeforeCut(a, b), "\n", AfterCut(b));
  }

  lemma {:induction false} FrontAndLast(t: string)
    requires t != ""
    ensures t == Front(t) + [t[|t| - 1]]
  {
  }

  /** A chunk that ends inside a CRLF leaves the events as they would be uncut exactly when the cut is harmless. */
  lemma {:induction false} SplitMattersUnlessHarmless(a: string, b: string)
    requires SplitsCrLf(a, b)
    ensures Stream("", [a, b]).0 == Stream("", [a + b]).0 <==> Harmless(Feed(BeforeCut(a, b), []), AfterCut(b))
  {
    var x, y := BeforeCut(a, b), AfterCut(b);
    var r := Feed(x, []);
    CutTexts(a, b);
    TwoChunks(a, b);
    DrainDispatches(x + "\n" + y);
    DrainDispatches((x + "\r") + "\n" + y);
    FeedThenBreak(x, y, []);
    FeedThenBreak(x + "\r", y, []);
    FeedCr(x, []);
    CrMattersUnlessHarmless(r, y);
    SameTails(r.events, EndLine(r.data, r.line, y), EndLine(r.data, r.line + "\r", y));
  }

  lemma {:induction false} TwoChunks(a: string, b: string)
    ensures Stream("", [a, b]) == Drain(Normalise(a) + Normalise(b)) && Stream("", [a + b]) == Drain(Normalise(a + b))
  {
    StreamIsDrain("", [a, b]);
    StreamIsDrain("", [a + b]);
    assert [a, b][1..] == [b] && [b][1..] == [] && [a + b][1..] == [];
    assert Normalised([a, b]) == [Normalise(a), Normalise(b)] && Normalised([a + b]) == [Normalise(a + b)];
    ConcatTwo(Normalise(a), Normalise(b));
    ConcatOne(Normalise(a + b));
  }

  lemma {:induction false} ConcatOne(x: string)
    ensures Concat([x]) == x && "" + x == x
  {
    assert [x][1..] == [] && x + "" == x;
  }

  lemma {:induction false} ConcatTwo(x: string, y: string)
    ensures Concat([x, y]) == x + y && "" + (x + y) == x + y
  {
    assert [x, y][1..] == [y];
    ConcatOne(y);
  }

  lemma {:induction false} SameTails(p: seq<string>, x: seq<string>, y: seq<string>)
    ensures p + x == p + y <==> x == y
  {
    assert (p + x)[|p|..] == x && (p + y)[|p|..] == y;
  }

  /** A line without a line feed, and a blank line. */
  lemma {:induction false} DataEvent(line: string)
    requires '\n' !in line
    ensures Drain(line + "\n" + "\n").0 == Emit(Payload(line))
  {
    WithoutLf(line);
    assert line + "\n\n" + "" == line + "\n" + "\n";
    AnyBlockDispatches(Payload, line, "");
    DrainDispatches(line + "\n" + "\n");
    assert Emit(Payload(line)) + [] == Emit(Payload(line));
  }

  lemma {:induction false} CutAfterLine(line: string)
    requires '\n' !in line
    ensures BeforeCut(line + "\r", "\n\r\n") == line && AfterCut("\n\r\n") == "\n"
  {
    WithoutLf(line + "\r");
    FrontAppend(line, "\r");
    assert line + Front("\r") == line;
    assert "\n\r\n"[1..] == "\r\n" && "\r\n"[2..] == "";
  }

  lemma {:induction false} CutBeforeBlank(line: string)
    requires '\n' !in line
    ensures Stream("", [line + "\r", "\n\r\n"]).0 == Emit(Payload(line + "\r"))
    ensures Stream("", [line + "\r" + "\n\r\n"]).0 == Emit(Payload(line))
  {
    TwoChunks(line + "\r", "\n\r\n");
    CutTexts(line + "\r", "\n\r\n");
    CutAfterLine(line);
    DataEvent(line);
    DataEvent(line + "\r");
  }

  /** Such a cut does change events: here the carriage return ends up in the payload. */
  lemma {:induction false} SplitCrLfChangesEvent(payload: string)
    requires '\n' !in payload
    ensures Stream("", ["data: " + payload + "\r", "\n\r\n"]).0 == [payload + "\r"]
    ensures Stream("", ["data: " + payload + "\r" + "\n\r\n"]).0 == [payload]
  {
    var line := "data: " + payload;
    CutBeforeBlank(line);
    CrStaysInPayload(line);
    assert line[..5] == "data:" && line[6..] == payload;
  }
}

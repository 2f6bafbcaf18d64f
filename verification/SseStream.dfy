/** Incremental framing of a server-sent event stream: a buffer that grows by chunks and is cut at blank lines. */
module SseStream {
  import opened Strings
  import opened Wrappers

  // ----- the code's own reading of a text -----

  /** `buffer.indexOf('\n\n')` */
  function FindBlank(t: string): (r: Option<nat>)
    ensures r.Some? ==> r.value + 2 <= |t| && t[r.value] == '\n' && t[r.value + 1] == '\n'
  {
    if |t| < 2 then None
    else if t[0] == '\n' && t[1] == '\n' then Some(0)
    else
      match FindBlank(t[1..])
      case Some(k) => Some(k + 1)
      case None => None
  }

  function FindBreak(t: string): (r: Option<nat>)
    ensures r.Some? ==> r.value < |t| && t[r.value] == '\n' && '\n' !in t[..r.value]
    ensures r.None? ==> '\n' !in t
  {
    if t == "" then None
    else if t[0] == '\n' then Some(0)
    else
      match FindBreak(t[1..])
      case Some(k) => Some(k + 1)
      case None => None
  }

  /** `.replace(/\r\n/g, '\n')` */
  function Normalise(t: string): string {
    if t == "" then ""
    else if |t| >= 2 && t[0] == '\r' && t[1] == '\n' then "\n" + Normalise(t[2..])
    else [t[0]] + Normalise(t[1..])
  }

  /** The payload of a `data:` line, with one leading space dropped; no payload for any other line. */
  function Payload(line: string): seq<string> {
    if "data:" <= line then [if |line| > 5 && line[5] == ' ' then line[6..] else line[5..]] else []
  }

  /** The data of a block, when `read` gives the data of a line. */
  function LinesData(read: string -> seq<string>, raw: string): seq<string>
    decreases |raw|
  {
    match FindBreak(raw)
    case Some(k) => read(raw[..k]) + LinesData(read, raw[k + 1..])
    case None => read(raw)
  }

  function DataLines(raw: string): seq<string> {
    LinesData(Payload, raw)
  }

  function Join(lines: seq<string>): string
    requires lines != []
    decreases |lines|
  {
    if |lines| == 1 then lines[0] else lines[0] + "\n" + Join(lines[1..])
  }

  /** One event, if there is any data. */
  function Emit(lines: seq<string>): seq<string> {
    if lines == [] then [] else [Join(lines)]
  }

  /** The inner loop: the events of the complete blocks, and what stays in the buffer. */
  function Drain(buffer: string): (seq<string>, string)
    decreases |buffer|
  {
    match FindBlank(buffer)
    case Some(k) =>
      var (events, rest) := Drain(buffer[k + 2..]);
      (Emit(DataLines(buffer[..k])) + events, rest)
    case None => ([], buffer)
  }

  /** The outer loop over decoded chunks. */
  function Stream(buffer: string, chunks: seq<string>): (seq<string>, string)
    decreases |chunks|
  {
    if chunks == [] then ([], buffer)
    else
      var (events, rest) := Drain(buffer + Normalise(chunks[0]));
      var (later, last) := Stream(rest, chunks[1..]);
      (events + later, last)
  }

  class AcpSseStream {
    var buffer: string

    constructor ()
      ensures buffer == ""
    {
      buffer := "";
    }

    /** One decoded chunk: append it, then cut off block after block. */
    method Receive(chunk: string) returns (events: seq<string>)
      modifies this
      ensures (events, buffer) == Drain(old(buffer) + Normalise(chunk))
    {
      buffer := buffer + Normalise(chunk);
      events := [];
      ghost var whole := Drain(buffer);
      var boundary := FindBlank(buffer);
      while boundary.Some?
        invariant boundary == FindBlank(buffer)
        invariant Leads(events, buffer, whole)
        decreases |buffer|
      {
        LeadsOn(events, buffer, whole);
        var rawEvent := buffer[..boundary.value];
        buffer := buffer[boundary.value + 2..];
        var dataLines := DataLines(rawEvent);
        if dataLines != [] {
          events := events + [Join(dataLines)];
        }
        boundary := FindBlank(buffer);
      }
      assert Drain(buffer) == ([], buffer) && events + [] == events;
    }

    /** Every chunk of a stream; what is left in the buffer at its end is dropped. */
    method Start(chunks: seq<string>) returns (events: seq<string>)
      modifies this
      ensures events == Stream(old(buffer), chunks).0
    {
      events := [];
      ghost var all := Stream(buffer, chunks).0;
      for i := 0 to |chunks|
        invariant events + Stream(buffer, chunks[i..]).0 == all
      {
        assert chunks[i..][0] == chunks[i] && chunks[i..][1..] == chunks[i + 1..];
        ghost var before := events;
        var more := Receive(chunks[i]);
        Assoc(before, more, Stream(buffer, chunks[i + 1..]).0);
        events := events + more;
      }
    }
  }

  /** `events`, and then what draining `buffer` gives, is `whole`. */
  ghost predicate Leads(events: seq<string>, buffer: string, whole: (seq<string>, string)) {
    events + Drain(buffer).0 == whole.0 && Drain(buffer).1 == whole.1
  }

  lemma {:induction false} LeadsOn(events: seq<string>, buffer: string, whole: (seq<string>, string))
    requires FindBlank(buffer).Some? && Leads(events, buffer, whole)
    ensures var k := FindBlank(buffer).value;
            && Leads(events + Emit(DataLines(buffer[..k])), buffer[k + 2..], whole)
            && (DataLines(buffer[..k]) == [] ==> Leads(events, buffer[k + 2..], whole))
  {
    var k := FindBlank(buffer).value;
    var first, rest := Emit(DataLines(buffer[..k])), Drain(buffer[k + 2..]).0;
    Assoc(events, first, rest);
    assert Drain(buffer) == (first + rest, Drain(buffer[k + 2..]).1);
    assert first == [] ==> events + first == events;
  }

  lemma {:induction false} Assoc(x: seq<string>, y: seq<string>, z: seq<string>)
    ensures x + (y + z) == (x + y) + z
  {
  }

  // ----- events do not depend on where the chunks end -----

  lemma {:induction false} BlankGrows(a: string, b: string)
    requires FindBlank(a).Some?
    ensures FindBlank(a + b) == FindBlank(a)
  {
    if !(a[0] == '\n' && a[1] == '\n') {
      assert (a + b)[1..] == a[1..] + b;
      BlankGrows(a[1..], b);
    }
  }

  lemma {:induction false} DrainCut(t: string, k: nat)
    requires FindBlank(t) == Some(k)
    ensures Drain(t) == (Emit(DataLines(t[..k])) + Drain(t[k + 2..]).0, Drain(t[k + 2..]).1)
  {
  }

  /** Draining early and going on with the rest is draining the whole. */
  lemma {:induction false} DrainGrows(a: string, b: string)
    ensures Leads(Drain(a).0, Drain(a).1 + b, Drain(a + b))
    decreases |a|
  {
    if FindBlank(a).None? {
      assert Drain(a) == ([], a);
    } else {
      var k := FindBlank(a).value;
      BlankGrows(a, b);
      assert (a + b)[..k] == a[..k] && (a + b)[k + 2..] == a[k + 2..] + b;
      DrainCut(a, k);
      DrainCut(a + b, k);
      DrainGrows(a[k + 2..], b);
      Assoc(Emit(DataLines(a[..k])), Drain(a[k + 2..]).0, Drain(Drain(a).1 + b).0);
    }
  }

  function Normalised(chunks: seq<string>): (r: seq<string>)
    decreases |chunks|
  {
    if chunks == [] then [] else [Normalise(chunks[0])] + Normalised(chunks[1..])
  }

  lemma {:induction false} StreamIsDrain(buffer: string, chunks: seq<string>)
    requires FindBlank(buffer).None?
    ensures Stream(buffer, chunks) == Drain(buffer + Concat(Normalised(chunks)))
    decreases |chunks|
  {
    if chunks == [] {
      assert buffer + "" == buffer;
    } else {
      var head, tail := Normalise(chunks[0]), Concat(Normalised(chunks[1..]));
      assert Normalised(chunks)[1..] == Normalised(chunks[1..]);
      assert buffer + (head + tail) == (buffer + head) + tail;
      DrainGrows(buffer + head, tail);
      DrainLeavesNoBlank(buffer + head);
      StreamIsDrain(Drain(buffer + head).1, chunks[1..]);
    }
  }

  lemma {:induction false} DrainLeavesNoBlank(t: string)
    ensures FindBlank(Drain(t).1).None?
    decreases |t|
  {
    match FindBlank(t)
    case Some(k) => DrainLeavesNoBlank(t[k + 2..]);
    case None =>
  }

  /** A boundary that stands between a carriage return and its line feed. */
  predicate SplitsCrLf(a: string, b: string) {
    a != "" && b != "" && a[|a| - 1] == '\r' && b[0] == '\n'
  }

  lemma {:induction false} Cancel(p: string, x: string, y: string, z: string)
    ensures p + x == (p + y) + z <==> x == y + z
  {
    assert (p + y) + z == p + (y + z);
    assert (p + x)[|p|..] == x && (p + (y + z))[|p|..] == y + z;
  }

  /** Line ends can be normalised piece by piece exactly when no CRLF is split. */
  lemma {:induction false} NormaliseDistributes(a: string, b: string)
    ensures Normalise(a + b) == Normalise(a) + Normalise(b) <==> !SplitsCrLf(a, b)
    decreases |a|
  {
    if a == "" {
      assert a + b == b;
    } else if |a| >= 2 && a[0] == '\r' && a[1] == '\n' {
      assert (a + b)[2..] == a[2..] + b;
      Cancel("\n", Normalise(a[2..] + b), Normalise(a[2..]), Normalise(b));
      NormaliseDistributes(a[2..], b);
    } else if SplitsCrLf(a, b) && |a| == 1 {
      NormaliseSplit(a, b);
    } else {
      assert (a + b)[1..] == a[1..] + b;
      Cancel([a[0]], Normalise(a[1..] + b), Normalise(a[1..]), Normalise(b));
      NormaliseDistributes(a[1..], b);
    }
  }

  lemma {:induction false} NormaliseSplit(a: string, b: string)
    requires a == "\r" && b != "" && b[0] == '\n'
    ensures Normalise(a + b) != Normalise(a) + Normalise(b)
  {
    assert (a + b)[2..] == b[1..];
    assert Normalise(b) == [b[0]] + Normalise(b[1..]);
    assert |Normalise(a + b)| == 1 + |Normalise(b[1..])|;
  }

  /** No chunk ends between a carriage return and its line feed. */
  predicate KeepsCrLf(chunks: seq<string>)
    decreases |chunks|
  {
    chunks == [] || (!SplitsCrLf(chunks[0], Concat(chunks[1..])) && KeepsCrLf(chunks[1..]))
  }

  lemma {:induction false} ConcatNormalises(chunks: seq<string>)
    requires KeepsCrLf(chunks)
    ensures Concat(Normalised(chunks)) == Normalise(Concat(chunks))
    decreases |chunks|
  {
    if chunks != [] {
      assert Normalised(chunks)[1..] == Normalised(chunks[1..]);
      ConcatNormalises(chunks[1..]);
      NormaliseDistributes(chunks[0], Concat(chunks[1..]));
    }
  }

  /** The events and the rest depend only on the concatenated text, as long as no chunk ends inside a CRLF. */
  lemma {:induction false} ChunksDoNotMatter(chunks: seq<string>)
    requires KeepsCrLf(chunks)
    ensures Stream("", chunks) == Drain(Normalise(Concat(chunks)))
  {
    StreamIsDrain("", chunks);
    ConcatNormalises(chunks);
    assert "" + Concat(Normalised(chunks)) == Concat(Normalised(chunks));
  }

  lemma {:induction false} WithoutCr(t: string)
    requires '\r' !in t
    ensures Normalise(t) == t
  {
    if t != "" {
      WithoutCr(t[1..]);
      assert t == [t[0]] + t[1..];
    }
  }

  /** A stream without carriage returns may be cut anywhere. */
  lemma {:induction false} ChunksDoNotMatterWithoutCr(chunks: seq<string>)
    requires '\r' !in Concat(chunks)
    ensures Stream("", chunks) == Drain(Concat(chunks))
  {
    NoCrKeeps(chunks);
    ChunksDoNotMatter(chunks);
    WithoutCr(Concat(chunks));
  }

  lemma {:induction false} NoCrKeeps(chunks: seq<string>)
    requires '\r' !in Concat(chunks)
    ensures KeepsCrLf(chunks)
    decreases |chunks|
  {
    if chunks != [] {
      assert forall c :: c in chunks[0] || c in Concat(chunks[1..]) ==> c in Concat(chunks);
      NoCrKeeps(chunks[1..]);
    }
  }

  // ----- only complete events -----

  /** The first blank line is found as soon as it is there. */
  lemma {:induction false} BlankAt(t: string, k: nat)
    requires FindBlank(t) == Some(k)
    ensures FindBlank(t[..k + 2]) == Some(k)
  {
    if k > 0 {
      assert t[1..][..k + 1] == t[..k + 2][1..];
      BlankAt(t[1..], k - 1);
    }
  }

  lemma {:induction false} DrainFirst(first: string, k: nat, rest: string)
    requires FindBlank(first) == Some(k) && |first| == k + 2
    ensures Drain(first + rest) == (Emit(DataLines(first[..k])) + Drain(rest).0, Drain(rest).1)
  {
    BlankGrows(first, rest);
    assert (first + rest)[..k] == first[..k] && (first + rest)[k + 2..] == rest;
    DrainCut(first + rest, k);
  }

  predicate EndsBlank(t: string) {
    t == "" || (|t| >= 2 && t[|t| - 2] == '\n' && t[|t| - 1] == '\n')
  }

  /** `t` is `done` and `rest`, and `done` ends with a blank line. */
  predicate IsSplit(t: string, done: string, rest: string) {
    t == done + rest && EndsBlank(done)
  }

  /** Draining `t` gives what draining `done` gives, and leaves `rest`. */
  predicate SameEvents(t: string, done: string, rest: string) {
    Drain(t) == (Drain(done).0, rest) && Drain(done).1 == ""
  }

  lemma {:induction false} SplitExtends(first: string, k: nat, tail: string, done: string, rest: string)
    requires FindBlank(first) == Some(k) && |first| == k + 2 && IsSplit(tail, done, rest)
    ensures IsSplit(first + tail, first + done, rest)
  {
    assert first + (done + rest) == (first + done) + rest;
  }

  lemma {:induction false} EventsExtend(first: string, k: nat, tail: string, done: string, rest: string)
    requires FindBlank(first) == Some(k) && |first| == k + 2 && SameEvents(tail, done, rest)
    ensures SameEvents(first + tail, first + done, rest)
  {
    DrainFirst(first, k, tail);
    DrainFirst(first, k, done);
  }

  lemma {:induction false} SplitAtBlank(t: string) returns (first: string, k: nat, tail: string)
    requires FindBlank(t).Some?
    ensures FindBlank(first) == Some(k) && |first| == k + 2 && t == first + tail
  {
    k := FindBlank(t).value;
    first, tail := t[..k + 2], t[k + 2..];
    BlankAt(t, k);
  }

  /** The rest of a drained text holds no complete block, and no event comes from it. */
  lemma {:induction false} OnlyCompleteEvents(t: string) returns (done: string, rest: string)
    ensures IsSplit(t, done, rest) && SameEvents(t, done, rest) && FindBlank(rest).None?
    decreases |t|
  {
    if FindBlank(t).Some? {
      var first, k, tail := SplitAtBlank(t);
      var more;
      more, rest := OnlyCompleteEvents(tail);
      SplitExtends(first, k, tail, more, rest);
      EventsExtend(first, k, tail, more, rest);
      done := first + more;
    } else {
      done, rest := "", t;
      assert FindBlank("").None? && t == "" + t;
    }
  }

  // ----- against the line machine of the standard -----

  /**
   * A line's data in section 9.2.6 of the WHATWG HTML standard: as `Payload`, and a line that is just the field name is
   * empty data.
   */
  function FieldData(line: string): seq<string> {
    if line == "data" then [""] else Payload(line)
  }

  /** A line machine, as in the standard: line by line, dispatching what `read` has given at each empty line. */
  function Dispatch(read: string -> seq<string>, t: string, data: seq<string>): seq<string>
    decreases |t|
  {
    match FindBreak(t)
    case None => []
    case Some(0) => Emit(data) + Dispatch(read, t[1..], [])
    case Some(k) => Dispatch(read, t[k + 1..], data + read(t[..k]))
  }

  lemma {:induction false} BreakIs(t: string, k: nat)
    requires k < |t| && t[k] == '\n' && '\n' !in t[..k]
    ensures FindBreak(t) == Some(k)
  {
    if k > 0 {
      assert t[..k][0] == t[0] && t[1..][..k - 1] == t[..k][1..];
      BreakIs(t[1..], k - 1);
    }
  }

  lemma {:induction false} FirstLineSplits(raw: string, k: nat, next: string)
    requires k < |raw| && raw[k] == '\n'
    ensures raw + "\n" + next == raw[..k] + "\n" + (raw[k + 1..] + "\n" + next)
  {
    assert raw == raw[..k] + "\n" + raw[k + 1..];
  }

  /** The machine takes a line that is not empty, and goes on. */
  lemma {:induction false} LineGoesFirst(read: string -> seq<string>, line: string, next: string, data: seq<string>)
    requires line != "" && '\n' !in line
    ensures Dispatch(read, line + "\n" + next, data) == Dispatch(read, next, data + read(line))
  {
    var t := line + "\n" + next;
    assert t[..|line|] == line && t[|line| + 1..] == next;
    BreakIs(t, |line|);
  }

  lemma {:induction false} OneMoreLine(read: string -> seq<string>, line: string, lines: string, next: string,
                                       data: seq<string>, more: seq<string>)
    requires line != "" && '\n' !in line
    requires Dispatch(read, lines, data + read(line)) == Dispatch(read, next, (data + read(line)) + more)
    ensures Dispatch(read, line + "\n" + lines, data) == Dispatch(read, next, data + (read(line) + more))
  {
    LineGoesFirst(read, line, lines, data);
    Assoc(data, read(line), more);
  }

  /** It takes the lines of one block, none of them empty, one after the other. */
  lemma {:induction false} LinesGoFirst(read: string -> seq<string>, raw: string, next: string, data: seq<string>)
    requires raw != "" && raw[0] != '\n' && raw[|raw| - 1] != '\n' && FindBlank(raw).None?
    ensures Dispatch(read, raw + "\n" + next, data) == Dispatch(read, next, data + LinesData(read, raw))
    decreases |raw|
  {
    match FindBreak(raw)
    case None => LineGoesFirst(read, raw, next, data);
    case Some(k) =>
      var line, tail := raw[..k], raw[k + 1..];
      NoBlankInside(raw, k);
      FirstLineSplits(raw, k, next);
      LinesGoFirst(read, tail, next, data + read(line));
      OneMoreLine(read, line, tail + "\n" + next, next, data, LinesData(read, tail));
  }

  /** The lines of one block, then its empty line: one dispatch. */
  lemma {:induction false} BlockDispatches(read: string -> seq<string>, raw: string, rest: string, data: seq<string>)
    requires raw != "" && raw[0] != '\n' && raw[|raw| - 1] != '\n' && FindBlank(raw).None?
    ensures Dispatch(read, raw + "\n\n" + rest, data) == Emit(data + LinesData(read, raw)) + Dispatch(read, rest, [])
  {
    assert raw + "\n" + ("\n" + rest) == raw + "\n\n" + rest;
    LinesGoFirst(read, raw, "\n" + rest, data);
    EmptyLineEmits(read, rest, data + LinesData(read, raw));
  }

  lemma {:induction false} EmptyLineEmits(read: string -> seq<string>, next: string, data: seq<string>)
    ensures Dispatch(read, "\n" + next, data) == Emit(data) + Dispatch(read, next, [])
  {
    assert ("\n" + next)[1..] == next;
    BreakIs("\n" + next, 0);
  }

  lemma {:induction false} NoBlankInside(raw: string, k: nat)
    requires FindBlank(raw).None? && k < |raw| && raw[k] == '\n' && raw[|raw| - 1] != '\n'
    ensures k + 1 < |raw| && raw[k + 1] != '\n' && FindBlank(raw[k + 1..]).None?
    decreases k
  {
    if k > 0 {
      assert raw[k + 1..] == raw[1..][k..];
      NoBlankInside(raw[1..], k - 1);
    }
  }

  /** A text without a blank line dispatches nothing, whatever data is pending. */
  lemma {:induction false} NoBlankNoDispatch(read: string -> seq<string>, t: string, data: seq<string>)
    requires FindBlank(t).None? && (t == "" || t[0] != '\n')
    ensures Dispatch(read, t, data) == []
    decreases |t|
  {
    match FindBreak(t)
    case None =>
    case Some(k) =>
      if k + 1 == |t| {
        assert t[k + 1..] == "";
      } else {
        BreakStartsLine(t, k);
      }
      NoBlankNoDispatch(read, t[k + 1..], data + read(t[..k]));
  }

  lemma {:induction false} BreakStartsLine(t: string, k: nat)
    requires FindBlank(t).None? && k + 1 < |t| && t[k] == '\n'
    ensures t[k + 1] != '\n' && FindBlank(t[k + 1..]).None?
    decreases k
  {
    if k > 0 {
      assert t[k + 1..] == t[1..][k..];
      BreakStartsLine(t[1..], k - 1);
    }
  }

  lemma {:induction false} BlankIsFirst(t: string, k: nat)
    requires FindBlank(t) == Some(k)
    ensures FindBlank(t[..k]).None? && (k > 0 ==> t[k - 1] != '\n')
  {
    if k > 0 {
      assert t[1..][..k - 1] == t[..k][1..];
      BlankIsFirst(t[1..], k - 1);
    }
  }

  /** The events of the complete blocks. */
  function Blocks(read: string -> seq<string>, t: string): seq<string>
    decreases |t|
  {
    match FindBlank(t)
    case Some(k) => Emit(LinesData(read, t[..k])) + Blocks(read, t[k + 2..])
    case None => []
  }

  /** One block that may begin with an empty line. */
  lemma {:induction false} AnyBlockDispatches(read: string -> seq<string>, raw: string, rest: string)
    requires read("") == [] && FindBlank(raw).None? && (raw != "" ==> raw[|raw| - 1] != '\n')
    ensures Dispatch(read, raw + "\n\n" + rest, []) == Emit(LinesData(read, raw)) + Dispatch(read, rest, [])
  {
    var t := raw + "\n\n" + rest;
    if raw == "" {
      var next := t[1..];
      assert next == "\n" + rest && next[1..] == rest;
      BreakIs(t, 0);
      BreakIs(next, 0);
    } else if raw[0] == '\n' {
      var tail := raw[1..];
      BreakIs(t, 0);
      BreakIs(raw, 0);
      NoBlankInside(raw, 0);
      assert t[1..] == tail + "\n\n" + rest && raw[..0] == "";
      BlockDispatches(read, tail, rest, []);
      assert [] + LinesData(read, tail) == LinesData(read, tail);
    } else {
      BlockDispatches(read, raw, rest, []);
      assert [] + LinesData(read, raw) == LinesData(read, raw);
    }
  }

  /** Line by line and block by block, a reading gives the same events. */
  lemma {:induction false} DispatchIsBlocks(read: string -> seq<string>, t: string)
    requires read("") == []
    ensures Dispatch(read, t, []) == Blocks(read, t)
    decreases |t|
  {
    match FindBlank(t)
    case Some(k) =>
      BlankIsFirst(t, k);
      assert t == t[..k] + "\n\n" + t[k + 2..];
      AnyBlockDispatches(read, t[..k], t[k + 2..]);
      DispatchIsBlocks(read, t[k + 2..]);
    case None =>
      if t != "" && t[0] == '\n' {
        BreakIs(t, 0);
        if |t| > 1 {
          BreakStartsLine(t, 0);
        }
        NoBlankNoDispatch(read, t[1..], []);
      } else {
        NoBlankNoDispatch(read, t, []);
      }
  }

  /** The code's events, line by line. */
  lemma {:induction false} DrainDispatches(t: string)
    ensures Drain(t).0 == Blocks(Payload, t) == Dispatch(Payload, t, [])
    decreases |t|
  {
    DispatchIsBlocks(Payload, t);
    match FindBlank(t)
    case Some(k) => DrainDispatches(t[k + 2..]);
    case None =>
  }

  // ----- where the code and the standard differ -----

  /** The lines of a block that are just the field name. */
  function Bare(raw: string): nat
    decreases |raw|
  {
    match FindBreak(raw)
    case Some(k) => (if raw[..k] == "data" then 1 else 0) + Bare(raw[k + 1..])
    case None => if raw == "data" then 1 else 0
  }

  function BareInBlocks(t: string): nat
    decreases |t|
  {
    match FindBlank(t)
    case Some(k) => Bare(t[..k]) + BareInBlocks(t[k + 2..])
    case None => 0
  }

  /** Characters, and one more for each item. */
  function Weight(items: seq<string>): nat
    decreases |items|
  {
    if items == [] then 0 else |items[0]| + 1 + Weight(items[1..])
  }

  lemma {:induction false} WeightAppend(a: seq<string>, b: seq<string>)
    ensures Weight(a + b) == Weight(a) + Weight(b)
    decreases |a|
  {
    if a == [] {
      assert a + b == b;
    } else {
      assert (a + b)[1..] == a[1..] + b;
      WeightAppend(a[1..], b);
    }
  }

  lemma {:induction false} EmitWeighs(lines: seq<string>)
    ensures Weight(Emit(lines)) == Weight(lines)
    decreases |lines|
  {
    if |lines| > 1 {
      EmitWeighs(lines[1..]);
      assert Emit(lines)[1..] == [] && Emit(lines[1..])[1..] == [];
    } else if |lines| == 1 {
      assert Emit(lines) == lines;
    }
  }

  /** `xs` is `ys`, or heavier by `extra`. */
  ghost predicate Heavier(xs: seq<string>, ys: seq<string>, extra: nat) {
    Weight(xs) == Weight(ys) + extra && (extra == 0 ==> xs == ys)
  }

  lemma {:induction false} HeavierAppend(xs: seq<string>, ys: seq<string>, m: nat, xs': seq<string>, ys': seq<string>,
                                         n: nat)
    requires Heavier(xs, ys, m) && Heavier(xs', ys', n)
    ensures Heavier(xs + xs', ys + ys', m + n)
  {
    WeightAppend(xs, xs');
    WeightAppend(ys, ys');
  }

  lemma {:induction false} HeavierEmit(xs: seq<string>, ys: seq<string>, extra: nat)
    requires Heavier(xs, ys, extra)
    ensures Heavier(Emit(xs), Emit(ys), extra)
  {
    EmitWeighs(xs);
    EmitWeighs(ys);
  }

  lemma {:induction false} LineWeighs(line: string)
    ensures Heavier(FieldData(line), Payload(line), if line == "data" then 1 else 0)
  {
    assert [""][1..] == [];
  }

  lemma {:induction false} BareLinesWeigh(raw: string)
    ensures Heavier(LinesData(FieldData, raw), DataLines(raw), Bare(raw))
    decreases |raw|
  {
    match FindBreak(raw)
    case Some(k) =>
      var line, rest := raw[..k], raw[k + 1..];
      BareLinesWeigh(rest);
      LineWeighs(line);
      HeavierAppend(FieldData(line), Payload(line), if line == "data" then 1 else 0,
                    LinesData(FieldData, rest), DataLines(rest), Bare(rest));
    case None =>
      LineWeighs(raw);
  }

  lemma {:induction false} BlocksWeigh(t: string)
    ensures Heavier(Blocks(FieldData, t), Drain(t).0, BareInBlocks(t))
    decreases |t|
  {
    match FindBlank(t)
    case Some(k) =>
      var raw, rest := t[..k], t[k + 2..];
      BlocksWeigh(rest);
      BareLinesWeigh(raw);
      HeavierEmit(LinesData(FieldData, raw), DataLines(raw), Bare(raw));
      HeavierAppend(Emit(LinesData(FieldData, raw)), Emit(DataLines(raw)), Bare(raw),
                    Blocks(FieldData, rest), Drain(rest).0, BareInBlocks(rest));
      DrainCut(t, k);
    case None =>
  }

  lemma {:induction false} DrainFollows(t: string)
    ensures Drain(t).0 == Dispatch(FieldData, t, []) <==> BareInBlocks(t) == 0
  {
    DispatchIsBlocks(FieldData, t);
    BlocksWeigh(t);
  }

  /** The line ends of the standard: a CRLF, a line feed or a carriage return, each as one line feed. */
  function Lf(t: string): string {
    if t == "" then ""
    else if t[0] != '\r' then [t[0]] + Lf(t[1..])
    else if |t| >= 2 && t[1] == '\n' then "\n" + Lf(t[2..])
    else "\n" + Lf(t[1..])
  }

  /** The events that the standard reads in a decoded stream. */
  function Standard(t: string): seq<string> {
    Dispatch(FieldData, Lf(t), [])
  }

  /** Every carriage return is followed by a line feed. */
  predicate NoLoneCr(t: string) {
    forall i :: 0 <= i < |t| && t[i] == '\r' ==> i + 1 < |t| && t[i + 1] == '\n'
  }

  /** The code finds the line ends of the standard exactly when no carriage return stands alone. */
  lemma {:induction false} NormaliseFindsLineEnds(t: string)
    ensures Normalise(t) == Lf(t) <==> NoLoneCr(t)
    decreases |t|
  {
    if |t| >= 2 && t[0] == '\r' && t[1] == '\n' {
      NormaliseFindsLineEnds(t[2..]);
      assert NoLoneCr(t) ==> NoLoneCr(t[2..]);
      assert NoLoneCr(t[2..]) ==> NoLoneCr(t) by {
        assert forall i :: 2 <= i < |t| ==> t[i] == t[2..][i - 2];
      }
      assert ("\n" + Normalise(t[2..]))[1..] == Normalise(t[2..]) && ("\n" + Lf(t[2..]))[1..] == Lf(t[2..]);
    } else if t != "" && t[0] == '\r' {
      assert Normalise(t)[0] != Lf(t)[0];
    } else if t != "" {
      NormaliseFindsLineEnds(t[1..]);
      assert NoLoneCr(t) ==> NoLoneCr(t[1..]);
      assert NoLoneCr(t[1..]) ==> NoLoneCr(t) by {
        assert forall i :: 1 <= i < |t| ==> t[i] == t[1..][i - 1];
      }
      assert ([t[0]] + Normalise(t[1..]))[1..] == Normalise(t[1..]) && ([t[0]] + Lf(t[1..]))[1..] == Lf(t[1..]);
    }
  }

  /**
   * A stream without lone carriage returns, in chunks that split no CRLF, gives the events of the standard exactly when
   * no complete block has a line that is just `data`.
   */
  lemma {:induction false} FollowsTheStandard(chunks: seq<string>)
    requires KeepsCrLf(chunks) && NoLoneCr(Concat(chunks))
    ensures Stream("", chunks).0 == Standard(Concat(chunks)) <==> BareInBlocks(Lf(Concat(chunks))) == 0
  {
    ChunksDoNotMatter(chunks);
    NormaliseFindsLineEnds(Concat(chunks));
    DrainFollows(Lf(Concat(chunks)));
  }

  lemma {:induction false} LfKeeps(plain: string, rest: string)
    requires '\r' !in plain
    ensures Lf(plain + rest) == plain + Lf(rest)
    decreases |plain|
  {
    if plain == "" {
      assert plain + rest == rest;
    } else {
      assert (plain + rest)[1..] == plain[1..] + rest && plain == [plain[0]] + plain[1..];
      LfKeeps(plain[1..], rest);
      assert [plain[0]] + (plain[1..] + Lf(rest)) == plain + Lf(rest);
    }
  }

  lemma {:induction false} WithoutLf(t: string)
    requires '\n' !in t
    ensures Normalise(t) == t && FindBlank(t).None?
  {
    if t != "" {
      WithoutLf(t[1..]);
      assert t == [t[0]] + t[1..];
    }
  }

  lemma {:induction false} DataLineIsRead(payload: string)
    requires '\n' !in payload
    ensures Emit(LinesData(FieldData, "data: " + payload)) == [payload]
  {
    var line := "data: " + payload;
    assert line[..5] == "data:" && line[5] == ' ' && line[6..] == payload;
    assert FindBreak(line).None?;
  }

  lemma {:induction false} LoneCrsEndAnEvent(payload: string)
    requires '\r' !in payload && '\n' !in payload
    ensures Standard("data: " + payload + "\r\r") == [payload]
  {
    var line := "data: " + payload;
    LfKeeps(line, "\r\r");
    assert Lf("\r\r") == "\n\n" && line + "\n\n" + "" == line + "\n\n";
    WithoutLf(line);
    AnyBlockDispatches(FieldData, line, "");
    DataLineIsRead(payload);
    assert [payload] + [] == [payload];
  }

  /** Lone carriage returns do matter: the standard reads the event that they end, and the code does not. */
  lemma {:induction false} LoneCrsHideAnEvent(payload: string)
    requires '\r' !in payload && '\n' !in payload
    ensures Standard("data: " + payload + "\r\r") == [payload]
    ensures Stream("", ["data: " + payload + "\r\r"]).0 == []
  {
    var t := "data: " + payload + "\r\r";
    LoneCrsEndAnEvent(payload);
    WithoutLf(t);
    assert [t][1..] == [] && "" + t == t;
  }
}

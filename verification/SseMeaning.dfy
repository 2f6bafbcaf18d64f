/** Event-stream framing by what it finds: the pieces of a text, and the events that a server wrote. */
module SseMeaning {
  import opened Strings
  import opened Wrappers
  import opened SseStream

  // ----- the pieces -----

  predicate BlankAtIndex(t: string, k: nat) {
    k + 2 <= |t| && t[k] == '\n' && t[k + 1] == '\n'
  }

  /** The first two adjacent line feeds. */
  lemma {:induction false} BlankIs(t: string, k: nat)
    ensures FindBlank(t) == Some(k) <==> BlankAtIndex(t, k) && forall j: nat :: j < k ==> !BlankAtIndex(t, j)
    ensures FindBlank(t) == None <==> forall j: nat :: !BlankAtIndex(t, j)
    decreases |t|
  {
    if |t| >= 2 && !BlankAtIndex(t, 0) {
      assert forall j: nat :: BlankAtIndex(t[1..], j) <==> BlankAtIndex(t, j + 1);
      assert forall j: nat {:trigger BlankAtIndex(t, j)} :: BlankAtIndex(t, j) ==> j > 0 && BlankAtIndex(t[1..], j - 1);
      BlankIs(t[1..], if k > 0 then k - 1 else 0);
    } else if |t| >= 2 {
      assert BlankAtIndex(t, 0);
    }
  }

  /** A data line gives what stands after the colon, less one space; any other line gives nothing. */
  lemma {:induction false} PayloadIs(line: string, rest: string)
    ensures Payload("data: " + rest) == [rest]
    ensures rest == "" || rest[0] != ' ' ==> Payload("data:" + rest) == [rest]
    ensures Payload(line) == [] <==> !(|line| >= 5 && line[..5] == "data:")
  {
    var spaced, tight := "data: " + rest, "data:" + rest;
    assert spaced[5] == ' ' && spaced[6..] == rest && spaced[..5] == "data:";
    assert tight[5..] == rest && tight[..5] == "data:";
  }

  /** The lines of an event with a line feed between each two; none at its end. */
  lemma {:induction false} JoinIs(line: string, a: seq<string>, b: seq<string>)
    requires a != [] && b != []
    ensures Join([line]) == line && Join(a + b) == Join(a) + "\n" + Join(b)
    ensures Emit([]) == [] && Emit(a) == [Join(a)]
    decreases |a|
  {
    if |a| == 1 {
      assert (a + b)[1..] == b;
    } else {
      assert (a + b)[1..] == a[1..] + b;
      JoinIs(line, a[1..], b);
      assert a[0] + "\n" + (Join(a[1..]) + "\n" + Join(b)) == a[0] + "\n" + Join(a[1..]) + "\n" + Join(b);
    }
  }

  /** A block is read line by line, in order. */
  lemma {:induction false} LinesAre(read: string -> seq<string>, line: string, raw: string)
    requires '\n' !in line
    ensures LinesData(read, line) == read(line)
    ensures LinesData(read, line + "\n" + raw) == read(line) + LinesData(read, raw)
  {
    var t := line + "\n" + raw;
    assert t[..|line|] == line && t[|line| + 1..] == raw;
    BreakIs(t, |line|);
  }

  // ----- what a server wrote -----

  /** An event as a server writes it, up to its blank line. */
  function Block(lines: seq<string>): string
    decreases |lines|
  {
    if lines == [] then ""
    else if |lines| == 1 then "data: " + lines[0]
    else "data: " + lines[0] + "\n" + Block(lines[1..])
  }

  /** Events, each with its blank line. */
  function Written(events: seq<seq<string>>): string
    decreases |events|
  {
    if events == [] then "" else Block(events[0]) + "\n\n" + Written(events[1..])
  }

  predicate Writable(lines: seq<string>) {
    lines != [] && forall line :: line in lines ==> '\n' !in line
  }

  lemma {:induction false} LineHasNoBlank(line: string, next: string)
    requires '\n' !in line
    ensures FindBlank(line).None?
    ensures FindBlank(next).None? && next != "" && next[0] != '\n' ==> FindBlank(line + "\n" + next).None?
  {
    var t := line + "\n" + next;
    BlankIs(line, 0);
    BlankIs(t, 0);
    BlankIs(next, 0);
    if FindBlank(next).None? && next != "" && next[0] != '\n' {
      forall j: nat ensures !BlankAtIndex(t, j) {
        if j > |line| {
          var i: nat := j - |line| - 1;
          assert BlankAtIndex(t, j) ==> BlankAtIndex(next, i);
        }
      }
    }
  }

  lemma {:induction false} BlockIsOne(lines: seq<string>)
    requires Writable(lines)
    ensures FindBlank(Block(lines)).None? && Block(lines) != ""
    ensures Block(lines)[0] == 'd' && Block(lines)[|Block(lines)| - 1] != '\n'
    ensures DataLines(Block(lines)) == lines
    decreases |lines|
  {
    var line, more := "data: " + lines[0], lines[1..];
    assert lines[0] in lines && lines == [lines[0]] + more;
    PayloadIs(line, lines[0]);
    if more == [] {
      LineHasNoBlank(line, "");
      LinesAre(Payload, line, "");
    } else {
      assert forall l :: l in more ==> l in lines;
      BlockIsOne(more);
      LineHasNoBlank(line, Block(more));
      LinesAre(Payload, line, Block(more));
    }
  }

  lemma {:induction false} BlankAfterBlock(raw: string, rest: string)
    requires FindBlank(raw).None? && raw != "" && raw[|raw| - 1] != '\n'
    ensures FindBlank(raw + "\n\n" + rest) == Some(|raw|)
  {
    var t := raw + "\n\n" + rest;
    BlankIs(raw, 0);
    forall j: nat | j < |raw| ensures !BlankAtIndex(t, j) {
      assert BlankAtIndex(t, j) ==> BlankAtIndex(raw, j);
    }
    assert BlankAtIndex(t, |raw|);
    BlankIs(t, |raw|);
  }

  /** The lines of each event, joined. */
  function Joined(events: seq<seq<string>>): seq<string>
    requires forall i :: 0 <= i < |events| ==> events[i] != []
    decreases |events|
  {
    if events == [] then [] else [Join(events[0])] + Joined(events[1..])
  }

  lemma {:induction false} FirstIsRead(lines: seq<string>, tail: string)
    requires Writable(lines)
    ensures Drain(Block(lines) + "\n\n" + tail) == ([Join(lines)] + Drain(tail).0, Drain(tail).1)
  {
    var raw := Block(lines);
    var t := raw + "\n\n" + tail;
    BlockIsOne(lines);
    BlankAfterBlock(raw, tail);
    assert t[..|raw|] == raw && t[|raw| + 2..] == tail;
    DrainCut(t, |raw|);
  }

  /** Each event has lines, and none of them a line feed. */
  predicate AllWritable(events: seq<seq<string>>) {
    forall i :: 0 <= i < |events| ==> Writable(events[i])
  }

  /** Every event that was written is read back, in order and as it was, and nothing stays behind. */
  lemma {:induction false} WrittenIsRead(events: seq<seq<string>>)
    requires AllWritable(events)
    ensures Drain(Written(events)) == (Joined(events), "")
    decreases |events|
  {
    if events != [] {
      FirstIsRead(events[0], Written(events[1..]));
      WrittenIsRead(events[1..]);
    }
  }

  /** In whatever chunks it arrives: what was written, line by line and event by event, is what is handed on. */
  lemma {:induction false} StreamReadsWritten(events: seq<seq<string>>, chunks: seq<string>)
    requires AllWritable(events) && Concat(chunks) == Written(events)
    requires '\r' !in Concat(chunks)
    ensures Stream("", chunks) == (Joined(events), "")
  {
    ChunksDoNotMatterWithoutCr(chunks);
    WrittenIsRead(events);
  }
}

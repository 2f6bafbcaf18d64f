/** What `invoke` and `cad_program` answer, which ops of a program are dispatched, and what is recorded of a bracket. */
module BracketMeaning {
  import opened Wrappers
  import opened Json
  import opened Gates
  import opened GateBrackets
  import opened GateMeaning

  // ----- the ops of a program -----

  /** All of the leaves, one after the other, whatever they answer. */
  function Leafwise(m: Memory, ops: seq<Event>, generic: string -> bool): Memory
    decreases |ops|
  {
    if ops == [] then m else Leafwise(PerformLeaf(m, ops[0], generic).0, ops[1..], generic)
  }

  predicate Failed(reply: Reply) {
    reply.Crashed? || reply.result.isError
  }

  /** The leaf adds one turn and one item, its call and its reply. */
  lemma {:induction false} LeafIs(m: Memory, e: Event, generic: string -> bool)
    ensures var (n, answer) := PerformLeaf(m, e, generic);
            && n.log == m.log + [Item(e.call, answer.reply)]
            && n.wanting == m.wanting + (if answer.wants then {n.session.turn} else {})
            && (n.session, answer.reply) == Step(m.session, e, generic) && n.session.turn == m.session.turn + 1
  {
  }

  /** The answer wants an intent when the intent gate gives it, or the cache gives again one that wanted it. */
  lemma {:induction false} LeafWants(m: Memory, e: Event, generic: string -> bool)
    ensures var answer := PerformLeaf(m, e, generic).1;
            && (answer.wants ==> answer.reply.Refused? && answer.reply.why in {NoIntent, FromCache})
            && (answer.reply.Refused? && answer.reply.why == NoIntent ==> answer.wants)
            && (answer.reply.Refused? && answer.reply.why == FromCache ==>
                  forall x :: HeldFirst(m.session.cache, KeyOf(e.call), x) ==> (answer.wants <==> x.turn in m.wanting))
  {
    forall x | HeldFirst(m.session.cache, KeyOf(e.call), x) ensures Find(m.session.cache, KeyOf(e.call)) == Some(x) {
      FindIs(m.session.cache, KeyOf(e.call), x);
    }
  }

  /**
   * The first `k` ops were dispatched, and logged behind `m.log`: all but the last of them succeeded, and where ops are
   * left over the last one failed.
   */
  ghost predicate StoppedAfter(m: Memory, ops: seq<Event>, k: nat, n: Memory) {
    && k <= |ops| && |n.log| == |m.log| + k && n.log[..|m.log|] == m.log
    && (forall j :: 0 <= j < k ==> n.log[|m.log| + j].call == ops[j].call)
    && (forall j :: |m.log| <= j < |n.log| - 1 ==> !Failed(n.log[j].reply))
    && (k < |ops| ==> k > 0 && Failed(n.log[|n.log| - 1].reply))
  }

  /** A program dispatches its ops in order, up to and including the first that fails, and no other. */
  lemma {:induction false} ProgramStopsAtFailure(m: Memory, ops: seq<Event>, generic: string -> bool)
    ensures var n := PerformOps(m, ops, generic);
            exists k: nat :: StoppedAfter(m, ops, k, n) && n == Leafwise(m, ops[..k], generic)
    decreases |ops|
  {
    var n := PerformOps(m, ops, generic);
    if ops == [] {
      assert StoppedAfter(m, ops, 0, n) && n == Leafwise(m, ops[..0], generic);
    } else {
      var (first, answer) := PerformLeaf(m, ops[0], generic);
      assert ops[..1][0] == ops[0] && ops[..1][1..] == [];
      if Failed(answer.reply) {
        assert StoppedAfter(m, ops, 1, n);
        assert n == Leafwise(first, [], generic) == Leafwise(m, ops[..1], generic);
      } else {
        ProgramStopsAtFailure(first, ops[1..], generic);
        var k: nat :| StoppedAfter(first, ops[1..], k, n) && n == Leafwise(first, ops[1..][..k], generic);
        OneMore(m, ops, first, answer, k, n);
        assert ops[..k + 1][0] == ops[0] && ops[..k + 1][1..] == ops[1..][..k];
      }
    }
  }

  lemma {:induction false} OneMore(m: Memory, ops: seq<Event>, first: Memory, answer: Answer, k: nat, n: Memory)
    requires ops != [] && first.log == m.log + [Item(ops[0].call, answer.reply)] && !Failed(answer.reply)
    requires StoppedAfter(first, ops[1..], k, n)
    ensures StoppedAfter(m, ops, k + 1, n)
  {
    var size := |m.log|;
    assert n.log[..size + 1][..size] == n.log[..size] && n.log[size] == n.log[..size + 1][size];
    forall j | 0 <= j < k + 1 ensures n.log[size + j].call == ops[j].call {
      if j > 0 {
        var i := j - 1;
        assert size + j == |first.log| + i && ops[j] == ops[1..][i];
      }
    }
  }

  // ----- brackets -----

  /** The gate refuses the bracket itself. */
  predicate Stopped(m: Memory, call: Call, generic: string -> bool) {
    Decide(Tick(m.session), call, NO_FACTS, generic).Refuse?
  }

  /** The bracket has taken its turn, and nothing is recorded of it yet. */
  function Opened(m: Memory, call: Call): Memory {
    Memory(Tick(m.session), m.wanting, m.log + [Item(call, Crashed)])
  }

  /** From `before` to `n` only the outcome of the bracket is recorded, under the turn it began with. */
  ghost predicate Recorded(before: Memory, turn: nat, call: Call, result: ToolResult, wants: bool, n: Memory) {
    && n.session.turn == before.session.turn
    && n.session.(turn := turn) == Record(before.session.(turn := turn), call, result)
    && n.wanting == before.wanting + (if wants then {turn} else {}) && n.log == before.log
  }

  /** A bracket that its gate refuses is answered by the gate, and nothing inside it is dispatched. */
  lemma {:induction false} RefusedBracketIsLeaf(m: Memory, args: Option<Json>, inner: Deed, ops: seq<Event>,
                                                report: ToolResult, generic: string -> bool)
    ensures var call := Call("invoke", args);
            Stopped(m, call, generic) ==>
              Perform(m, Invoke(args, inner), generic) == PerformLeaf(m, Event(call, Threw, NO_FACTS), generic)
    ensures var call := Call("cad_program", args);
            Stopped(m, call, generic) ==>
              Perform(m, Program(args, ops, report), generic) == PerformLeaf(m, Event(call, Threw, NO_FACTS), generic)
  {
  }

  lemma {:induction false} ClosedIs(m: Memory, turn: nat, call: Call, result: ToolResult, wants: bool)
    ensures Recorded(m, turn, call, result, wants, Close(m, turn, call, result, wants))
  {
  }

  lemma {:induction false} OpenedIs(m: Memory, call: Call)
    ensures Begin(m, call) == Opened(m, call)
  {
  }

  lemma {:induction false} InvokeCloses(m: Memory, args: Option<Json>, inner: Deed, generic: string -> bool,
                                        inside: Memory, told: Answer)
    requires !Stopped(m, Call("invoke", args), generic)
    requires (inside, told) == Perform(Begin(m, Call("invoke", args)), inner, generic)
    ensures var call := Call("invoke", args);
            Perform(m, Invoke(args, inner), generic) ==
            if told.reply.Crashed? then (inside, told)
            else
              (Close(inside, Tick(m.session).turn, call, told.reply.result, told.wants),
               Answer(Ran(told.reply.result), told.wants))
  {
  }

  /**
   * An `invoke` that is let through answers what the inner dispatch answers, and wants an intent if that did; what it
   * answers is recorded as its own outcome, unless the inner dispatch threw.
   */
  lemma {:induction false} InvokeAnswersInner(m: Memory, args: Option<Json>, inner: Deed, generic: string -> bool)
    requires !Stopped(m, Call("invoke", args), generic)
    ensures var call := Call("invoke", args);
            var (inside, told) := Perform(Opened(m, call), inner, generic);
            var (n, answer) := Perform(m, Invoke(args, inner), generic);
            if told.reply.Crashed? then n == inside && answer == told
            else
              && answer == Answer(Ran(told.reply.result), told.wants)
              && Recorded(inside, m.session.turn + 1, call, told.reply.result, told.wants, n)
  {
    var call := Call("invoke", args);
    OpenedIs(m, call);
    var (inside, told) := Perform(Opened(m, call), inner, generic);
    InvokeCloses(m, args, inner, generic, inside, told);
    if !told.reply.Crashed? {
      ClosedIs(inside, m.session.turn + 1, call, told.reply.result, told.wants);
    }
  }

  lemma {:induction false} ProgramCloses(m: Memory, args: Option<Json>, ops: seq<Event>, report: ToolResult,
                                         generic: string -> bool, inside: Memory)
    requires !Stopped(m, Call("cad_program", args), generic)
    requires inside == PerformOps(Begin(m, Call("cad_program", args)), ops, generic)
    ensures var call := Call("cad_program", args);
            Perform(m, Program(args, ops, report), generic) ==
            (Close(inside, Tick(m.session).turn, call, report, false), Answer(Ran(report), false))
  {
  }

  /** A program that is let through answers its report, which is recorded once its ops are through. */
  lemma {:induction false} ProgramAnswersReport(m: Memory, args: Option<Json>, ops: seq<Event>, report: ToolResult,
                                                generic: string -> bool)
    requires !Stopped(m, Call("cad_program", args), generic)
    ensures var call := Call("cad_program", args);
            var (n, answer) := Perform(m, Program(args, ops, report), generic);
            && answer == Answer(Ran(report), false)
            && Recorded(PerformOps(Opened(m, call), ops, generic), m.session.turn + 1, call, report, false, n)
  {
    var call := Call("cad_program", args);
    OpenedIs(m, call);
    var inside := PerformOps(Opened(m, call), ops, generic);
    ProgramCloses(m, args, ops, report, generic, inside);
    ClosedIs(inside, m.session.turn + 1, call, report, false);
  }
}

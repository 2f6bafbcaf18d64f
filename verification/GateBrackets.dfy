/**
 * The two tools whose handlers dispatch other tools: `invoke` and `cad_program`. Each is gated first, then the calls
 * inside it are dispatched in full, and only then is its own outcome recorded, under the turn it began with.
 */
module GateBrackets {
  import opened Wrappers
  import opened Json
  import CanonicalIdentity
  import opened Gates
  import opened GateHistory
  import opened PointBudget
  import opened PointLimits

  // ----- dispatches inside dispatches -----

  /**
   * A dispatch. `invoke` returns what the inner dispatch returns, and may invoke itself; an `invoke` of an unknown
   * tool, or with arguments its tool rejects, is a leaf. A program dispatches leaves until one fails, and then reports.
   */
  datatype Deed =
    | Leaf(e: Event)
    | Invoke(args: Option<Json>, inner: Deed)
    | Program(args: Option<Json>, ops: seq<Event>, report: ToolResult)

  /**
   * The session; the turns answered with a refusal for want of an intent, first hand, replayed or relayed; and the log
   * of the leaves. The log has one item per turn, so the turn of a bracket stands in it as an item that nothing came
   * of.
   */
  datatype Memory = Memory(session: Session, wanting: set<nat>, log: seq<Item>)

  datatype Answer = Answer(reply: Reply, wants: bool)

  /** Neither tool rests on a live fact. */
  const NO_FACTS := Live(false, SheetFine)

  predicate Wants(m: Memory, call: Call, reply: Reply) {
    && reply.Refused?
    && (reply.why == NoIntent ||
        (reply.why == FromCache &&
         match Find(m.session.cache, KeyOf(call))
         case Some(x) => x.turn in m.wanting
         case None => false))
  }

  function Note(wanting: set<nat>, turn: nat, wants: bool): set<nat> {
    if wants then wanting + {turn} else wanting
  }

  /** Record an outcome under the turn its dispatch began with. */
  function Close(m: Memory, turn: nat, call: Call, result: ToolResult, wants: bool): Memory {
    m.(session := Record(m.session.(turn := turn), call, result).(turn := m.session.turn),
       wanting := Note(m.wanting, turn, wants))
  }

  /** A bracket that its gate has let through. */
  function Begin(m: Memory, call: Call): Memory {
    m.(session := Tick(m.session), log := m.log + [Item(call, Crashed)])
  }

  function PerformLeaf(m: Memory, e: Event, generic: string -> bool): (Memory, Answer) {
    var (n, reply) := Step(m.session, e, generic);
    var wants := Wants(m, e.call, reply);
    (Memory(n, Note(m.wanting, n.turn, wants), m.log + [Item(e.call, reply)]), Answer(reply, wants))
  }

  /** The ops of a program, up to the first that throws or returns an error. */
  function PerformOps(m: Memory, ops: seq<Event>, generic: string -> bool): Memory
    decreases |ops|
  {
    if ops == [] then m
    else
      var (n, answer) := PerformLeaf(m, ops[0], generic);
      if answer.reply.Crashed? || answer.reply.result.isError then n else PerformOps(n, ops[1..], generic)
  }

  function Perform(m: Memory, d: Deed, generic: string -> bool): (Memory, Answer)
    decreases d
  {
    match d
    case Leaf(e) => PerformLeaf(m, e, generic)
    case Invoke(args, inner) =>
      var call, s := Call("invoke", args), Tick(m.session);
      if Decide(s, call, NO_FACTS, generic).Refuse? then PerformLeaf(m, Event(call, Threw, NO_FACTS), generic)
      else
        var (n, answer) := Perform(Begin(m, call), inner, generic);
        if answer.reply.Crashed? then (n, answer)
        else
          var result := answer.reply.result;
          (Close(n, s.turn, call, result, answer.wants), Answer(Ran(result), answer.wants))
    case Program(args, ops, report) =>
      var call, s := Call("cad_program", args), Tick(m.session);
      if Decide(s, call, NO_FACTS, generic).Refuse? then PerformLeaf(m, Event(call, Threw, NO_FACTS), generic)
      else
        (Close(PerformOps(Begin(m, call), ops, generic), s.turn, call, report, false), Answer(Ran(report), false))
  }

  function PerformAll(deeds: seq<Deed>, generic: string -> bool): Memory
    decreases |deeds|
  {
    if deeds == [] then Memory(FRESH, {}, [])
    else
      var n := |deeds| - 1;
      Perform(PerformAll(deeds[..n], generic), deeds[n], generic).0
  }

  // ----- what the cache holds -----

  /** While an intent is open, no entry goes back to a refusal for want of one. */
  ghost predicate Remembers(m: Memory) {
    && KeysDiffer(m.session.cache) && |m.session.cache| <= REFUSAL_CACHE_MAX
    && (forall x :: x in m.session.cache ==> Cacheable(x.result))
    && (forall x :: x in m.session.cache && m.session.intent.Some? ==> x.turn !in m.wanting)
  }

  /** From `m` to `n` turns were only added, and only later ones are marked. */
  ghost predicate Later(m: Memory, n: Memory) {
    && m.session.turn <= n.session.turn
    && forall t :: t in n.wanting && t !in m.wanting ==> m.session.turn < t <= n.session.turn
  }

  /** Every marked turn has begun. */
  ghost predicate Marked(m: Memory) {
    forall t :: t in m.wanting ==> t <= m.session.turn
  }

  /** A refusal for want of an intent is a refusal, and no intent has been opened since. */
  ghost predicate Excused(n: Memory, answer: Answer) {
    answer.wants ==> !answer.reply.Crashed? && TypedRefusal(answer.reply.result).Some? && n.session.intent.None?
  }

  lemma {:induction false} PushedKeysDiffer(cache: seq<Entry>, x: Entry)
    requires KeysDiffer(cache) && Find(cache, x.key).None?
    ensures KeysDiffer(cache + [x]) && (cache != [] ==> KeysDiffer(cache[1..] + [x]))
  {
  }

  lemma {:induction false} CloseRemembers(m: Memory, turn: nat, call: Call, result: ToolResult, wants: bool)
    requires Remembers(m) && turn !in m.wanting && (wants ==> m.session.intent.None? && TypedRefusal(result).Some?)
    ensures var n := Close(m, turn, call, result, wants);
            Remembers(n) && (TypedRefusal(result).Some? ==> n.session.intent == m.session.intent)
  {
    var s := m.session.(turn := turn);
    var n := Close(m, turn, call, result, wants);
    match TypedRefusal(result)
    case Some(gate) =>
      RecordRefusal(s, call, result);
      if Find(s.cache, KeyOf(call)).None? {
        PushedKeysDiffer(s.cache, Entry(KeyOf(call), call.tool, turn, result));
      }
    case None =>
      RecordDone(s, call, result);
      if ReadOnly(call.tool) {
        ReadersOpenNoIntent(s, call, result);
      }
  }

  lemma {:induction false} LeafRemembers(m: Memory, e: Event, generic: string -> bool)
    requires Remembers(m) && Marked(m)
    ensures var (n, answer) := PerformLeaf(m, e, generic);
            Remembers(n) && Marked(n) && Later(m, n) && Excused(n, answer)
  {
    var t := Tick(m.session);
    var (n, answer) := PerformLeaf(m, e, generic);
    RefusalsTyped(t, e.call, e.live, generic);
    IntentWanted(t, e.call, e.live, generic);
    if !answer.reply.Crashed? {
      if answer.wants && answer.reply.why == FromCache {
        assert Find(m.session.cache, KeyOf(e.call)).value in m.session.cache;
      }
      CloseRemembers(m.(session := t), t.turn, e.call, answer.reply.result, answer.wants);
    }
  }

  lemma {:induction false} OpsRemember(m: Memory, ops: seq<Event>, generic: string -> bool)
    requires Remembers(m) && Marked(m)
    ensures var n := PerformOps(m, ops, generic); Remembers(n) && Marked(n) && Later(m, n)
    decreases |ops|
  {
    if ops != [] {
      LeafRemembers(m, ops[0], generic);
      OpsRemember(PerformLeaf(m, ops[0], generic).0, ops[1..], generic);
    }
  }

  lemma {:induction false} DeedRemembers(m: Memory, d: Deed, generic: string -> bool)
    requires Remembers(m) && Marked(m)
    ensures var (n, answer) := Perform(m, d, generic);
            Remembers(n) && Marked(n) && Later(m, n) && Excused(n, answer)
    decreases d
  {
    match d
    case Leaf(e) => LeafRemembers(m, e, generic);
    case Invoke(args, inner) =>
      var call := Call("invoke", args);
      var begun := Begin(m, call);
      LeafRemembers(m, Event(call, Threw, NO_FACTS), generic);
      DeedRemembers(begun, inner, generic);
      var (n, answer) := Perform(begun, inner, generic);
      if !answer.reply.Crashed? {
        CloseRemembers(n, begun.session.turn, call, answer.reply.result, answer.wants);
      }
    case Program(args, ops, report) =>
      var call := Call("cad_program", args);
      var begun := Begin(m, call);
      LeafRemembers(m, Event(call, Threw, NO_FACTS), generic);
      OpsRemember(begun, ops, generic);
      CloseRemembers(PerformOps(begun, ops, generic), begun.session.turn, call, report, false);
  }

  /**
   * However calls nest: the cache holds at most 128 refusals of different calls, none of them from a gate on a live
   * fact, and while an intent is open none that goes back to the want of one, not even by way of an `invoke`.
   */
  lemma {:induction false} BracketsRemember(deeds: seq<Deed>, generic: string -> bool)
    ensures Remembers(PerformAll(deeds, generic)) && Marked(PerformAll(deeds, generic))
    decreases |deeds|
  {
    if deeds != [] {
      var n := |deeds| - 1;
      BracketsRemember(deeds[..n], generic);
      DeedRemembers(PerformAll(deeds[..n], generic), deeds[n], generic);
    }
  }

  /** While an intent is open, no gate, no cached refusal and no `invoke` answers that one is wanted. */
  lemma {:induction false} WantsOnlyWithoutIntent(deeds: seq<Deed>, d: Deed, generic: string -> bool)
    ensures var (n, answer) := Perform(PerformAll(deeds, generic), d, generic);
            answer.wants ==> !answer.reply.Crashed? && n.session.intent.None?
  {
    BracketsRemember(deeds, generic);
    DeedRemembers(PerformAll(deeds, generic), d, generic);
  }

  function Leaves(events: seq<Event>): (r: seq<Deed>)
    ensures |r| == |events| && forall i :: 0 <= i < |r| ==> r[i] == Leaf(events[i])
  {
    seq(|events|, i requires 0 <= i < |events| => Leaf(events[i]))
  }

  /** Without brackets the session is that of the plain run. */
  lemma {:induction false} LeavesRun(events: seq<Event>, generic: string -> bool)
    ensures var m := PerformAll(Leaves(events), generic); (m.session, m.log) == Run(events, generic)
    decreases |events|
  {
    if events != [] {
      var n := |events| - 1;
      assert Leaves(events)[..n] == Leaves(events[..n]);
      LeavesRun(events[..n], generic);
    }
  }

  // ----- the point counters -----

  /** No call that adds a single point would be answered with a success from the cache. */
  ghost predicate PointsHonest(cache: seq<Entry>) {
    forall x, call :: x in cache && WellFormedCall(call) && SinglePointKey(call).Some? && KeyOf(call) == x.key ==>
      x.result.isError
  }

  ghost predicate Limited(s: Session) {
    MapsOk(s) && CountersBounded(s) && PointsHonest(s.cache)
  }

  ghost predicate WellFormedArgs(args: Option<Json>) {
    CanonicalIdentity.WellFormed(CanonicalIdentity.ArgsOrEmpty(args))
  }

  ghost predicate HonestDeed(d: Deed)
    decreases d
  {
    match d
    case Leaf(e) => WellFormedCall(e.call) && AnswersAsPoint(e)
    case Invoke(args, inner) => WellFormedArgs(args) && HonestDeed(inner)
    case Program(args, ops, _) =>
      WellFormedArgs(args) && forall e :: e in ops ==> WellFormedCall(e.call) && AnswersAsPoint(e)
  }

  /** What a point call can leave in the cache is an error. */
  lemma {:induction false} RecordHonest(s: Session, call: Call, result: ToolResult)
    requires PointsHonest(s.cache) && WellFormedCall(call)
    requires SinglePointKey(call).Some? && TypedRefusal(result).Some? ==> result.isError
    ensures PointsHonest(Record(s, call, result).cache)
  {
    if TypedRefusal(result).Some? {
      RecordRefusal(s, call, result);
      forall c | WellFormedCall(c) && SinglePointKey(c).Some? && KeyOf(c) == KeyOf(call)
        ensures SinglePointKey(call).Some?
      {
        SameCallsSamePoint(c, call);
      }
    } else {
      RecordDone(s, call, result);
    }
  }

  lemma {:induction false} LeafLimited(s: Session, e: Event, generic: string -> bool)
    requires Limited(s) && WellFormedCall(e.call) && AnswersAsPoint(e)
    ensures Limited(Step(s, e, generic).0)
  {
    var t, reply := Tick(s), Step(s, e, generic).1;
    AnswersAreHonest(e);
    GateErrors(t, e.call, e.live, generic);
    StepBoundsCounters(s, e, generic);
    StepKeepsMaps(s, e, generic);
    if !reply.Crashed? {
      RecordHonest(t, e.call, reply.result);
    }
  }

  /** Recording a bracket ends every burst, and counts nothing. */
  lemma {:induction false} CloseLimited(m: Memory, turn: nat, call: Call, result: ToolResult, wants: bool)
    requires Limited(m.session) && WellFormedCall(call) && SinglePointKey(call).None?
    ensures var s := Close(m, turn, call, result, wants).session; Limited(s) && s.runs == map[]
  {
    var s := m.session.(turn := turn);
    RecordCounts(s, call, result);
    RecordHonest(s, call, result);
  }

  lemma {:induction false} OpsLimited(m: Memory, ops: seq<Event>, generic: string -> bool)
    requires Limited(m.session) && forall e :: e in ops ==> WellFormedCall(e.call) && AnswersAsPoint(e)
    ensures Limited(PerformOps(m, ops, generic).session)
    decreases |ops|
  {
    if ops != [] {
      LeafLimited(m.session, ops[0], generic);
      OpsLimited(PerformLeaf(m, ops[0], generic).0, ops[1..], generic);
    }
  }

  lemma {:induction false} DeedLimited(m: Memory, d: Deed, generic: string -> bool)
    requires Limited(m.session) && HonestDeed(d)
    ensures Limited(Perform(m, d, generic).0.session)
    decreases d
  {
    match d
    case Leaf(e) => LeafLimited(m.session, e, generic);
    case Invoke(args, inner) =>
      var call := Call("invoke", args);
      var begun := Begin(m, call);
      LeafLimited(m.session, Event(call, Threw, NO_FACTS), generic);
      DeedLimited(begun, inner, generic);
      var (n, answer) := Perform(begun, inner, generic);
      if !answer.reply.Crashed? {
        CloseLimited(n, begun.session.turn, call, answer.reply.result, answer.wants);
      }
    case Program(args, ops, report) =>
      var call := Call("cad_program", args);
      var begun := Begin(m, call);
      LeafLimited(m.session, Event(call, Threw, NO_FACTS), generic);
      OpsLimited(begun, ops, generic);
      CloseLimited(PerformOps(begun, ops, generic), begun.session.turn, call, report, false);
  }

  /** However calls nest, no counter ever stands above its limit. */
  lemma {:induction false} BracketsBoundCounters(deeds: seq<Deed>, generic: string -> bool)
    requires forall d :: d in deeds ==> HonestDeed(d)
    ensures CountersBounded(PerformAll(deeds, generic).session)
    ensures Limited(PerformAll(deeds, generic).session)
    decreases |deeds|
  {
    if deeds != [] {
      var n := |deeds| - 1;
      BracketsBoundCounters(deeds[..n], generic);
      DeedLimited(PerformAll(deeds[..n], generic), deeds[n], generic);
    }
  }
}

/** The intent, the unverified work and the point budget of nested dispatches, told from the log of their leaves. */
module BracketHistory {
  import opened Wrappers
  import opened Json
  import opened Gates
  import opened GateHistory
  import opened PointBudget
  import opened GateBrackets

  // ----- what a log of leaves must show -----

  /** A solid-mutating handler was reached only under an intent whose name says something. */
  predicate UnderIntent(past: seq<Item>, item: Item, generic: string -> bool) {
    item.reply.Ran? && MutatesSolids(item.call.tool) ==> OpenIntent(past).Some? && !generic(OpenIntent(past).value.name)
  }

  /** Work is outstanding under the open intent, and the caller does not waive it. */
  predicate Owes(past: seq<Item>, call: Call) {
    OpenIntent(past).Some? && Outstanding(past).count > 0 && Arg(call, "skip_verification") != Some(Bool(true))
  }

  /** A checkpoint with a real name, not answered from the cache, was refused exactly when work was owed. */
  predicate ClosesLookedAtWork(past: seq<Item>, item: Item, generic: string -> bool) {
    item.call.tool == "timeline_checkpoint" && !generic(CheckpointName(item.call)) &&
    !(item.reply.Refused? && item.reply.why == FromCache) ==>
      if Owes(past, item.call) then item.reply == Refused(GateRefusal("verification_scope"), VerificationScope)
      else !item.reply.Refused?
  }

  ghost predicate LogHolds(log: seq<Item>, generic: string -> bool) {
    forall k: nat :: k < |log| ==>
      UnderIntent(log[..k], log[k], generic) && ClosesLookedAtWork(log[..k], log[k], generic)
  }

  /** Intent and tally are what the log of the leaves says, and every dispatch in it met the gates on them. */
  ghost predicate Told(m: Memory, generic: string -> bool) {
    m.session.turn == |m.log| && WorkHolds(m.session, m.log, generic) && LogHolds(m.log, generic)
  }

  lemma {:induction false} LogGrows(log: seq<Item>, item: Item, generic: string -> bool)
    requires LogHolds(log, generic) && UnderIntent(log, item, generic) && ClosesLookedAtWork(log, item, generic)
    ensures LogHolds(log + [item], generic)
  {
    var after := log + [item];
    forall k: nat | k < |after|
      ensures UnderIntent(after[..k], after[k], generic) && ClosesLookedAtWork(after[..k], after[k], generic)
    {
      assert after[..k] == log[..k];
      assert k == |log| ==> log[..k] == log;
    }
  }

  // ----- every dispatch keeps it -----

  lemma {:induction false} LeafMeetsGates(s: Session, log: seq<Item>, e: Event, generic: string -> bool)
    requires WorkHolds(s, log, generic)
    ensures var item := Item(e.call, Step(s, e, generic).1);
            UnderIntent(log, item, generic) && ClosesLookedAtWork(log, item, generic)
  {
    var t := Tick(s);
    if Step(s, e, generic).1.Ran? && MutatesSolids(e.call.tool) {
      MutatorsHaveIntent(t, e.call, e.live, generic);
    }
    if e.call.tool == "timeline_checkpoint" {
      CheckpointsMeetGate(t, e.call, e.live, generic);
    }
  }

  lemma {:induction false} CheckpointsMeetGate(s: Session, call: Call, live: Live, generic: string -> bool)
    requires call.tool == "timeline_checkpoint"
    ensures Decide(s, call, live, generic) ==
            match Find(s.cache, KeyOf(call))
            case Some(x) => Refuse(Replay(x), FromCache)
            case None => CheckpointGate(s, call, generic)
  {
    assert SinglePointKey(call).None?;
  }

  lemma {:induction false} LeafTold(m: Memory, e: Event, generic: string -> bool)
    requires Remembers(m) && Told(m, generic)
    ensures Told(PerformLeaf(m, e, generic).0, generic)
  {
    LeafMeetsGates(m.session, m.log, e, generic);
    StepWork(m.session, m.log, e, generic);
    LogGrows(m.log, Item(e.call, Step(m.session, e, generic).1), generic);
  }

  predicate IsBracket(call: Call) {
    call.tool == "invoke" || call.tool == "cad_program"
  }

  lemma {:induction false} BracketsDoNoWork(s: Session, call: Call, result: ToolResult)
    requires IsBracket(call)
    ensures ReadOnly(call.tool) && !MutatesSolids(call.tool) && SinglePointKey(call).None?
    ensures var r := RecordWork(s, call, result); r.intent == s.intent && r.unverified == s.unverified
  {
  }

  lemma {:induction false} BeginTold(m: Memory, call: Call, generic: string -> bool)
    requires Told(m, generic) && IsBracket(call)
    ensures Told(Begin(m, call), generic)
  {
    var item := Item(call, Crashed);
    WorkKept(m.session, Tick(m.session), m.log, item, generic);
    LogGrows(m.log, item, generic);
  }

  /** Recording a bracket touches neither intent nor tally. */
  lemma {:induction false} CloseTold(m: Memory, turn: nat, call: Call, result: ToolResult, wants: bool,
                                     generic: string -> bool)
    requires Told(m, generic) && IsBracket(call)
    ensures Told(Close(m, turn, call, result, wants), generic)
  {
    var s := m.session.(turn := turn);
    BracketsDoNoWork(s, call, result);
    if TypedRefusal(result).Some? {
      RecordRefusal(s, call, result);
    } else {
      RecordDone(s, call, result);
    }
  }

  lemma {:induction false} OpsTold(m: Memory, ops: seq<Event>, generic: string -> bool)
    requires Remembers(m) && Marked(m) && Told(m, generic)
    ensures Told(PerformOps(m, ops, generic), generic)
    decreases |ops|
  {
    if ops != [] {
      LeafRemembers(m, ops[0], generic);
      LeafTold(m, ops[0], generic);
      OpsTold(PerformLeaf(m, ops[0], generic).0, ops[1..], generic);
    }
  }

  lemma {:induction false} BeginRemembers(m: Memory, call: Call)
    requires Remembers(m) && Marked(m)
    ensures Remembers(Begin(m, call)) && Marked(Begin(m, call))
  {
  }

  lemma {:induction false} DeedTold(m: Memory, d: Deed, generic: string -> bool)
    requires Remembers(m) && Marked(m) && Told(m, generic)
    ensures Told(Perform(m, d, generic).0, generic)
    decreases d
  {
    match d
    case Leaf(e) => LeafTold(m, e, generic);
    case Invoke(args, inner) =>
      var call := Call("invoke", args);
      var begun := Begin(m, call);
      LeafTold(m, Event(call, Threw, NO_FACTS), generic);
      BeginRemembers(m, call);
      BeginTold(m, call, generic);
      DeedTold(begun, inner, generic);
      var (n, answer) := Perform(begun, inner, generic);
      if !answer.reply.Crashed? {
        CloseTold(n, begun.session.turn, call, answer.reply.result, answer.wants, generic);
      }
    case Program(args, ops, report) =>
      var call := Call("cad_program", args);
      var begun := Begin(m, call);
      LeafTold(m, Event(call, Threw, NO_FACTS), generic);
      BeginRemembers(m, call);
      BeginTold(m, call, generic);
      OpsTold(begun, ops, generic);
      CloseTold(PerformOps(begun, ops, generic), begun.session.turn, call, report, false, generic);
  }

  /**
   * However calls nest: the open intent and the unverified work are what the log of the leaves says, no solid-mutating
   * handler was reached without a named intent, and a checkpoint was refused exactly when it would have closed work not
   * looked at.
   */
  lemma {:induction false} BracketsTold(deeds: seq<Deed>, generic: string -> bool)
    ensures Told(PerformAll(deeds, generic), generic)
    decreases |deeds|
  {
    if deeds != [] {
      var n := |deeds| - 1;
      BracketsTold(deeds[..n], generic);
      BracketsRemember(deeds[..n], generic);
      DeedTold(PerformAll(deeds[..n], generic), deeds[n], generic);
    }
  }

  // ----- the point budget -----

  /** As long as at most 64 sketches have been named, the totals cover what was added. */
  ghost predicate Budgeted(m: Memory, key: string) {
    && MapsOk(m.session)
    && (|KeysSeen(m.log)| <= POINT_KEYS_MAX ==> KeysKnown(m.session, m.log) && TotalCovers(m.session, m.log, key))
  }

  lemma {:induction false} LeafBudgeted(m: Memory, e: Event, key: string, generic: string -> bool)
    requires Budgeted(m, key)
    ensures Budgeted(PerformLeaf(m, e, generic).0, key)
  {
    var item := Item(e.call, Step(m.session, e, generic).1);
    StepKeepsMaps(m.session, e, generic);
    LogPush(m.log, item, key);
    if |KeysSeen(m.log + [item])| <= POINT_KEYS_MAX {
      StepCovers(m.session, m.log, e, generic, key);
    }
  }

  lemma {:induction false} BeginBudgeted(m: Memory, call: Call, key: string)
    requires Budgeted(m, key)
    ensures Budgeted(Begin(m, call), key)
  {
    var item := Item(call, Crashed);
    LogPush(m.log, item, key);
    if |KeysSeen(m.log + [item])| <= POINT_KEYS_MAX {
      OtherCovers(m.session, Tick(m.session), m.log, item, key);
    }
  }

  lemma {:induction false} CloseBudgeted(m: Memory, turn: nat, call: Call, result: ToolResult, wants: bool, key: string)
    requires Budgeted(m, key) && IsBracket(call)
    ensures Budgeted(Close(m, turn, call, result, wants), key)
  {
    BracketsDoNoWork(m.session, call, result);
    RecordCounts(m.session.(turn := turn), call, result);
  }

  lemma {:induction false} OpsBudgeted(m: Memory, ops: seq<Event>, key: string, generic: string -> bool)
    requires Budgeted(m, key)
    ensures Budgeted(PerformOps(m, ops, generic), key)
    decreases |ops|
  {
    if ops != [] {
      LeafBudgeted(m, ops[0], key, generic);
      OpsBudgeted(PerformLeaf(m, ops[0], generic).0, ops[1..], key, generic);
    }
  }

  lemma {:induction false} DeedBudgeted(m: Memory, d: Deed, key: string, generic: string -> bool)
    requires Budgeted(m, key)
    ensures Budgeted(Perform(m, d, generic).0, key)
    decreases d
  {
    match d
    case Leaf(e) => LeafBudgeted(m, e, key, generic);
    case Invoke(args, inner) =>
      var call := Call("invoke", args);
      var begun := Begin(m, call);
      LeafBudgeted(m, Event(call, Threw, NO_FACTS), key, generic);
      BeginBudgeted(m, call, key);
      DeedBudgeted(begun, inner, key, generic);
      var (n, answer) := Perform(begun, inner, generic);
      if !answer.reply.Crashed? {
        CloseBudgeted(n, begun.session.turn, call, answer.reply.result, answer.wants, key);
      }
    case Program(args, ops, report) =>
      var call := Call("cad_program", args);
      var begun := Begin(m, call);
      LeafBudgeted(m, Event(call, Threw, NO_FACTS), key, generic);
      BeginBudgeted(m, call, key);
      OpsBudgeted(begun, ops, key, generic);
      CloseBudgeted(PerformOps(begun, ops, generic), begun.session.turn, call, report, false, key);
  }

  lemma {:induction false} AllBudgeted(deeds: seq<Deed>, key: string, generic: string -> bool)
    ensures Budgeted(PerformAll(deeds, generic), key)
    decreases |deeds|
  {
    if deeds != [] {
      var n := |deeds| - 1;
      AllBudgeted(deeds[..n], key, generic);
      DeedBudgeted(PerformAll(deeds[..n], generic), deeds[n], key, generic);
    }
  }

  /** However calls nest, handlers add at most 32 single points to a sketch while at most 64 sketches are named. */
  lemma {:induction false} BracketsKeepBudget(deeds: seq<Deed>, key: string, generic: string -> bool)
    ensures var log := PerformAll(deeds, generic).log;
            |KeysSeen(log)| <= POINT_KEYS_MAX ==> Additions(log, key) <= SINGLE_POINT_CUMULATIVE_MAX
  {
    AllBudgeted(deeds, key, generic);
  }
}

/** What the burst limit comes to when single points are added through `invoke`. */
module InvokedPoints {
  import opened Wrappers
  import opened Json
  import opened Gates
  import opened GateHistory
  import opened PointBudget
  import opened GateBrackets

  // ----- no burst is ever refused -----

  /** A leaf that is invoked, directly or by an `invoke` that is itself invoked. */
  predicate Invoked(d: Deed)
    decreases d
  {
    d.Invoke? && (d.inner.Leaf? || Invoked(d.inner))
  }

  /** No dispatch of the log was refused for its burst. */
  predicate NeverABurst(log: seq<Item>) {
    forall i :: 0 <= i < |log| && log[i].reply.Refused? ==> log[i].reply.why != PointRun
  }

  lemma {:induction false} NoRunNoRefusal(s: Session, e: Event, generic: string -> bool)
    requires s.runs == map[]
    ensures var reply := Step(s, e, generic).1; reply.Refused? ==> reply.why != PointRun
  {
  }

  lemma {:induction false} CloseEndsBurst(m: Memory, turn: nat, call: Call, result: ToolResult, wants: bool)
    requires SinglePointKey(call).None?
    ensures var n := Close(m, turn, call, result, wants); n.session.runs == map[] && n.log == m.log
  {
    RecordCounts(m.session.(turn := turn), call, result);
  }

  /** A leaf that is no point begins no burst, and a point that throws neither. */
  lemma {:induction false} LeafOfNoBurst(m: Memory, e: Event, generic: string -> bool)
    requires m.session.runs == map[] && NeverABurst(m.log)
    ensures var (n, answer) := PerformLeaf(m, e, generic);
            && NeverABurst(n.log)
            && (SinglePointKey(e.call).None? || answer.reply.Crashed? ==> n.session.runs == map[])
  {
    NoRunNoRefusal(m.session, e, generic);
    var reply := Step(m.session, e, generic).1;
    if !reply.Crashed? {
      RecordCounts(Tick(m.session), e.call, reply.result);
    }
  }

  /** Recording the `invoke` ends the burst that its point would have begun. */
  lemma {:induction false} InvokedMakesNoBurst(m: Memory, d: Deed, generic: string -> bool)
    requires Invoked(d) && m.session.runs == map[] && NeverABurst(m.log)
    ensures var n := Perform(m, d, generic).0; n.session.runs == map[] && NeverABurst(n.log)
    decreases d
  {
    var call := Call("invoke", d.args);
    var begun := Begin(m, call);
    LeafOfNoBurst(m, Event(call, Threw, NO_FACTS), generic);
    if d.inner.Leaf? {
      LeafOfNoBurst(begun, d.inner.e, generic);
    } else {
      InvokedMakesNoBurst(begun, d.inner, generic);
    }
    var (n, answer) := Perform(begun, d.inner, generic);
    if !answer.reply.Crashed? {
      CloseEndsBurst(n, begun.session.turn, call, answer.reply.result, answer.wants);
    }
  }

  lemma {:induction false} PerformPush(deeds: seq<Deed>, d: Deed, generic: string -> bool)
    ensures PerformAll(deeds + [d], generic) == Perform(PerformAll(deeds, generic), d, generic).0
  {
    assert (deeds + [d])[..|deeds|] == deeds;
  }

  /** In a session of invoked leaves the burst limit never refuses anything: only the limit of 32 in all is left. */
  lemma {:induction false} InvokedPointsMakeNoBurst(deeds: seq<Deed>, generic: string -> bool)
    requires forall d :: d in deeds ==> Invoked(d)
    ensures var m := PerformAll(deeds, generic); m.session.runs == map[] && NeverABurst(m.log)
    decreases |deeds|
  {
    if deeds != [] {
      var n := |deeds| - 1;
      assert deeds == deeds[..n] + [deeds[n]];
      InvokedPointsMakeNoBurst(deeds[..n], generic);
      InvokedMakesNoBurst(PerformAll(deeds[..n], generic), deeds[n], generic);
      PerformPush(deeds[..n], deeds[n], generic);
    }
  }

  // ----- a session of 32 invoked points -----

  /** A session in which `n` points of one sketch have been counted in all, and nothing else is remembered. */
  predicate OnlyCounted(s: Session, key: string, n: nat) {
    && s.cache == [] && s.intent == None && s.unverified == NOTHING_UNVERIFIED && s.runs == map[]
    && s.totals == if n == 0 then [] else [Counter(key, n)]
  }

  /** A handler added the point. */
  predicate AddsPoint(e: Event, key: string) {
    && SinglePointKey(e.call) == Some(key) && e.outcome.Returned? && !e.outcome.result.isError
    && TypedRefusal(e.outcome.result).None?
  }

  lemma {:induction false} PointProceeds(s: Session, call: Call, live: Live, generic: string -> bool)
    requires s.cache == [] && SinglePointKey(call).Some? && PointGate(s, call).None?
    ensures Decide(s, call, live, generic).Proceed?
  {
  }

  lemma {:induction false} PointCounted(s: Session, call: Call, result: ToolResult, key: string, n: nat)
    requires OnlyCounted(s, key, n) && SinglePointKey(call) == Some(key) && !result.isError
    ensures var r := CountPoint(s, call, result); r == s.(runs := map[key := 1], totals := [Counter(key, n + 1)])
  {
    assert s.totals != [] ==> s.totals[1..] == [];
  }

  lemma {:induction false} PointLeafPasses(s: Session, e: Event, key: string, n: nat, generic: string -> bool)
    requires OnlyCounted(s, key, n) && n < SINGLE_POINT_CUMULATIVE_MAX && AddsPoint(e, key)
    ensures var (r, reply) := Step(s, e, generic);
            reply == Ran(e.outcome.result) && OnlyCounted(r.(runs := map[]), key, n + 1)
  {
    var t := Tick(s);
    PointProceeds(t, e.call, e.live, generic);
    PointRecorded(t, e.call, e.outcome.result, key, n);
  }

  lemma {:induction false} PointRecorded(s: Session, call: Call, result: ToolResult, key: string, n: nat)
    requires OnlyCounted(s, key, n) && SinglePointKey(call) == Some(key)
    requires !result.isError && TypedRefusal(result).None?
    ensures OnlyCounted(Record(s, call, result).(runs := map[]), key, n + 1)
  {
    PointCounted(s, call, result, key, n);
    RecordDone(s, call, result);
    RecordCounts(s, call, result);
  }

  lemma {:induction false} CloseOnlyCounted(m: Memory, turn: nat, args: Option<Json>, result: ToolResult, key: string,
                                            n: nat)
    requires OnlyCounted(m.session.(runs := map[]), key, n) && TypedRefusal(result).None?
    ensures OnlyCounted(Close(m, turn, Call("invoke", args), result, false).session, key, n)
  {
    var s, call := m.session.(turn := turn), Call("invoke", args);
    RecordDone(s, call, result);
    RecordCounts(s, call, result);
  }

  lemma {:induction false} InvokeProceeds(s: Session, args: Option<Json>, generic: string -> bool)
    requires s.cache == []
    ensures Decide(s, Call("invoke", args), NO_FACTS, generic).Proceed?
  {
  }

  lemma {:induction false} InvokedPointPasses(m: Memory, args: Option<Json>, e: Event, key: string, n: nat,
                                              generic: string -> bool)
    requires OnlyCounted(m.session, key, n) && n < SINGLE_POINT_CUMULATIVE_MAX && AddsPoint(e, key)
    ensures var (r, answer) := Perform(m, Invoke(args, Leaf(e)), generic);
            && OnlyCounted(r.session, key, n + 1) && answer.reply == Ran(e.outcome.result)
            && r.log == m.log + [Item(Call("invoke", args), Crashed)] + [Item(e.call, Ran(e.outcome.result))]
  {
    var begun := Begin(m, Call("invoke", args));
    InvokeProceeds(Tick(m.session), args, generic);
    PointLeafPasses(begun.session, e, key, n, generic);
    CloseOnlyCounted(PerformLeaf(begun, e, generic).0, begun.session.turn, args, e.outcome.result, key, n + 1);
  }

  lemma {:induction false} OnePointMore(log: seq<Item>, args: Option<Json>, e: Event, key: string)
    requires AddsPoint(e, key)
    ensures var after := log + [Item(Call("invoke", args), Crashed)] + [Item(e.call, Ran(e.outcome.result))];
            Additions(after, key) == Additions(log, key) + 1
  {
    var begun := Item(Call("invoke", args), Crashed);
    LogPush(log, begun, key);
    LogPush(log + [begun], Item(e.call, Ran(e.outcome.result)), key);
  }

  /** `n` points have been counted, and their handler has added as many. */
  ghost predicate Passed(m: Memory, key: string, n: nat) {
    OnlyCounted(m.session, key, n) && Additions(m.log, key) == n
  }

  /** An `invoke` that adds one point to the sketch of `key`. */
  predicate PointDeed(d: Deed, key: string) {
    d.Invoke? && d.inner.Leaf? && AddsPoint(d.inner.e, key)
  }

  lemma {:induction false} PassedOn(m: Memory, d: Deed, key: string, n: nat, generic: string -> bool)
    requires Passed(m, key, n) && n < SINGLE_POINT_CUMULATIVE_MAX && PointDeed(d, key)
    ensures Passed(Perform(m, d, generic).0, key, n + 1)
  {
    InvokedPointPasses(m, d.args, d.inner.e, key, n, generic);
    OnePointMore(m.log, d.args, d.inner.e, key);
  }

  lemma {:induction false} PassedPush(deeds: seq<Deed>, d: Deed, key: string, n: nat, generic: string -> bool)
    requires Passed(PerformAll(deeds, generic), key, n) && n < SINGLE_POINT_CUMULATIVE_MAX && PointDeed(d, key)
    ensures Passed(PerformAll(deeds + [d], generic), key, n + 1)
  {
    PassedOn(PerformAll(deeds, generic), d, key, n, generic);
    PerformPush(deeds, d, generic);
  }

  /** From a new session, up to 32 invoked points all reach their handler: four times the burst limit. */
  lemma {:induction false} InvokedPointsPass(deeds: seq<Deed>, key: string, generic: string -> bool)
    requires |deeds| <= SINGLE_POINT_CUMULATIVE_MAX && forall d :: d in deeds ==> PointDeed(d, key)
    ensures Passed(PerformAll(deeds, generic), key, |deeds|)
    decreases |deeds|
  {
    if deeds != [] {
      var n := |deeds| - 1;
      assert deeds == deeds[..n] + [deeds[n]];
      InvokedPointsPass(deeds[..n], key, generic);
      PassedPush(deeds[..n], deeds[n], key, n, generic);
    }
  }
}

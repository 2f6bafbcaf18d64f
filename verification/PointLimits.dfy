/** The limits of the two single-point counters, over whole runs. */
module PointLimits {
  import opened Wrappers
  import opened Json
  import CanonicalIdentity
  import opened Gates
  import opened GateHistory
  import opened PointBudget

  // ----- the counters over whole runs -----

  /** In every session that a run passes through, no counter stands above its limit. */
  ghost predicate AlwaysBounded(events: seq<Event>, generic: string -> bool) {
    forall k: nat :: k <= |events| ==> CountersBounded(Run(events[..k], generic).0)
  }

  /** Event `k` of a run is a replay that its sketch's counters have no room for. */
  predicate OvercountsAt(events: seq<Event>, generic: string -> bool, k: nat)
    requires k < |events|
  {
    OvercountsOnReplay(Run(events[..k], generic).0, events[k].call)
  }

  lemma {:induction false} BoundedNext(events: seq<Event>, generic: string -> bool, k: nat)
    requires k < |events| && CountersBounded(Run(events[..k], generic).0)
    ensures CountersBounded(Run(events[..k + 1], generic).0) <==> !OvercountsAt(events, generic, k)
  {
    var before := events[..k];
    assert events[..k + 1] == before + [events[k]];
    RunPush(before, events[k], generic);
    MapsBounded(before, generic);
    StepBoundsCounters(Run(before, generic).0, events[k], generic);
  }

  lemma {:induction false} RunPush(events: seq<Event>, e: Event, generic: string -> bool)
    ensures var (s, log) := Run(events, generic);
            Run(events + [e], generic) == (Step(s, e, generic).0, log + [Item(e.call, Step(s, e, generic).1)])
  {
    assert (events + [e])[..|events|] == events;
  }

  lemma {:induction false} BoundedUpTo(events: seq<Event>, generic: string -> bool, n: nat)
    requires n <= |events| && forall k: nat :: k < n ==> !OvercountsAt(events, generic, k)
    ensures CountersBounded(Run(events[..n], generic).0)
  {
    if n > 0 {
      BoundedUpTo(events, generic, n - 1);
      BoundedNext(events, generic, n - 1);
    } else {
      assert Run(events[..0], generic).0 == FRESH;
    }
  }

  /**
   * Both counters stay within 8 and 32 throughout a run exactly when no event of it replays a success-shaped refusal
   * into a full counter.
   */
  lemma {:induction false} RunBoundsCounters(events: seq<Event>, generic: string -> bool)
    ensures AlwaysBounded(events, generic) <==> forall k: nat :: k < |events| ==> !OvercountsAt(events, generic, k)
  {
    if AlwaysBounded(events, generic) {
      forall k: nat | k < |events| ensures !OvercountsAt(events, generic, k) {
        BoundedNext(events, generic, k);
      }
    } else if forall k: nat :: k < |events| ==> !OvercountsAt(events, generic, k) {
      forall n: nat | n <= |events| ensures CountersBounded(Run(events[..n], generic).0) {
        BoundedUpTo(events, generic, n);
      }
    }
  }

  // ----- what the point handlers answer -----

  /** Arguments as JavaScript can hold them. */
  ghost predicate WellFormedCall(call: Call) {
    CanonicalIdentity.WellFormed(CanonicalIdentity.ArgsOrEmpty(call.args))
  }

  /** A single-point handler that refuses marks its result as an error. */
  predicate HonestPoint(e: Event) {
    SinglePointKey(e.call).Some? && e.outcome.Returned? && TypedRefusal(e.outcome.result).Some? ==>
      e.outcome.result.isError
  }

  /** What both point handlers return: an error, or one object that states the new id or the number of points added. */
  predicate PointAnswer(result: ToolResult) {
    result.isError ||
    (result.body.Text? && result.body.parsed.Some? && result.body.parsed.value.Obj? &&
     forall m :: m in result.body.parsed.value.members ==> m.key == "id" || m.key == "added")
  }

  predicate AnswersAsPoint(e: Event) {
    SinglePointKey(e.call).Some? && e.outcome.Returned? ==> PointAnswer(e.outcome.result)
  }

  lemma {:induction false} AnswersAreHonest(e: Event)
    requires AnswersAsPoint(e)
    ensures HonestPoint(e)
  {
    if SinglePointKey(e.call).Some? && e.outcome.Returned? && !e.outcome.result.isError {
      var members := e.outcome.result.body.parsed.value.members;
      CanonicalIdentity.LookupFinds(members, "refused");
      assert "refused"[0] == 'r' && "id"[0] == 'i' && "added"[0] == 'a';
    }
  }

  /** Values that are equal up to member order have the same fields, up to member order. */
  lemma {:induction false} SameFields(a: Json, b: Json, key: string)
    requires CanonicalIdentity.Same(a, b)
    ensures match (Field(a, key), Field(b, key))
            case (Some(x), Some(y)) => CanonicalIdentity.Same(x, y)
            case (None, None) => true
            case _ => false
  {
    if a.Obj? {
      CanonicalIdentity.LookupFinds(a.members, key);
      CanonicalIdentity.LookupFinds(b.members, key);
    }
  }

  lemma {:induction false} SameArgs(a: Call, b: Call, key: string)
    requires CanonicalIdentity.Same(CanonicalIdentity.ArgsOrEmpty(a.args), CanonicalIdentity.ArgsOrEmpty(b.args))
    ensures StringArg(a, key) == StringArg(b, key)
    ensures Arg(a, key) == Some(Str("point")) <==> Arg(b, key) == Some(Str("point"))
    ensures match Arg(a, key)
            case Some(Arr(xs)) => Arg(b, key).Some? && Arg(b, key).value.Arr? && |Arg(b, key).value.items| == |xs|
            case _ => Arg(b, key).Some? ==> !Arg(b, key).value.Arr?
  {
    SameFields(CanonicalIdentity.ArgsOrEmpty(a.args), CanonicalIdentity.ArgsOrEmpty(b.args), key);
  }

  /** Calls that share a refusal key add to the same sketch, if to any. */
  lemma {:induction false} SameCallsSamePoint(a: Call, b: Call)
    requires WellFormedCall(a) && WellFormedCall(b) && KeyOf(a) == KeyOf(b)
    ensures SinglePointKey(a) == SinglePointKey(b)
  {
    CanonicalIdentity.KeyIdentifiesCall(a.tool, a.args, b.tool, b.args);
    SameArgs(a, b, "kind");
    SameArgs(a, b, "csketch_id");
    SameArgs(a, b, "points");
    SameArgs(a, b, "sketch_id");
  }

  // ----- the limits hold -----

  /** Item `k` of a log answers event `k` of its run, with the handler's own result if the handler ran. */
  lemma {:induction false} LogAnswers(events: seq<Event>, generic: string -> bool, k: nat)
    requires k < |events|
    ensures var item := Run(events, generic).1[k];
            item.call == events[k].call && (item.reply.Ran? ==> events[k].outcome == Returned(item.reply.result))
    decreases |events|
  {
    var n := |events| - 1;
    assert events == events[..n] + [events[n]];
    RunPush(events[..n], events[n], generic);
    if k < n {
      LogAnswers(events[..n], generic, k);
    }
  }

  /** A refusal that one of the gates gave is marked as an error. */
  lemma {:induction false} GateRefusalsAreErrors(events: seq<Event>, generic: string -> bool, k: nat)
    requires k < |events|
    ensures var reply := Run(events, generic).1[k].reply;
            reply.Refused? && reply.why != FromCache ==> reply.result.isError
    decreases |events|
  {
    var n := |events| - 1;
    assert events == events[..n] + [events[n]];
    RunPush(events[..n], events[n], generic);
    if k < n {
      GateRefusalsAreErrors(events[..n], generic, k);
    } else {
      GateErrors(Tick(Run(events[..n], generic).0), events[n].call, events[n].live, generic);
    }
  }

  lemma {:induction false} GateErrors(s: Session, call: Call, live: Live, generic: string -> bool)
    ensures var d := Decide(s, call, live, generic); d.Refuse? && d.why != FromCache ==> d.result.isError
  {
  }

  lemma {:induction false} EntryOfItem(x: Entry, s: Session, log: seq<Item>)
    requires FromItsTurn(x, s, log)
    ensures var item := log[x.turn - 1];
            && x.key == KeyOf(item.call) && !item.reply.Crashed? && x.result == item.reply.result
            && TypedRefusal(x.result).Some? && (item.reply.Refused? ==> item.reply.why != FromCache)
  {
  }

  /** A cached refusal came from an event with its key, either marked as an error or as its handler's own result. */
  lemma {:induction false} CachedFromEvent(events: seq<Event>, generic: string -> bool, x: Entry) returns (e: Event)
    requires x in Run(events, generic).0.cache
    ensures e in events && x.key == KeyOf(e.call) && TypedRefusal(x.result).Some?
    ensures x.result.isError || e.outcome == Returned(x.result)
  {
    NoStaleIntentRefusal(events, generic, x);
    EntryOfItem(x, Run(events, generic).0, Run(events, generic).1);
    e := events[x.turn - 1];
    LogAnswers(events, generic, x.turn - 1);
    GateRefusalsAreErrors(events, generic, x.turn - 1);
  }

  /** Every cached refusal of a single point is marked as an error. */
  lemma {:induction false} CachedPointsAreErrors(events: seq<Event>, generic: string -> bool, x: Entry, call: Call)
    requires forall e :: e in events ==> WellFormedCall(e.call) && HonestPoint(e)
    requires WellFormedCall(call) && SinglePointKey(call).Some?
    requires x in Run(events, generic).0.cache && x.key == KeyOf(call)
    ensures x.result.isError
  {
    var e := CachedFromEvent(events, generic, x);
    SameCallsSamePoint(e.call, call);
  }

  /**
   * In every run whose point handlers mark their refusals as errors, no counter ever stands above 8 within a burst or
   * 32 in all.
   */
  lemma {:induction false} HonestPointsStayBounded(events: seq<Event>, generic: string -> bool)
    requires forall e :: e in events ==> WellFormedCall(e.call) && HonestPoint(e)
    ensures AlwaysBounded(events, generic)
  {
    forall k: nat | k < |events| ensures !OvercountsAt(events, generic, k) {
      var before, call := events[..k], events[k].call;
      assert events[k] in events;
      var hit := Find(Run(before, generic).0.cache, KeyOf(call));
      if hit.Some? && SinglePointKey(call).Some? {
        CachedPointsAreErrors(before, generic, hit.value, call);
      }
    }
    RunBoundsCounters(events, generic);
  }

  /** So the limits hold in every session, for the two point handlers there are. */
  lemma {:induction false} CountersBoundedInEveryRun(events: seq<Event>, generic: string -> bool)
    requires forall e :: e in events ==> WellFormedCall(e.call) && AnswersAsPoint(e)
    ensures AlwaysBounded(events, generic)
  {
    forall e | e in events ensures HonestPoint(e) {
      AnswersAreHonest(e);
    }
    HonestPointsStayBounded(events, generic);
  }
}

/** The session's memory as functions of its whole history of dispatches. */
module GateHistory {
  import opened Wrappers
  import opened Json
  import CanonicalIdentity
  import opened Gates

  // ----- what a log says -----

  /** The handler ran and did not refuse. */
  predicate Done(item: Item) {
    item.reply.Ran? && TypedRefusal(item.reply.result).None?
  }

  predicate Succeeded(item: Item) {
    Done(item) && !item.reply.result.isError
  }

  /** After it nothing is left to look at: the work was looked at, wiped, or waived by a new intent. */
  predicate Clean(item: Item) {
    && Succeeded(item)
    && (item.call.tool in {"timeline_checkpoint", "clear_timeline", "clear_parts", "verify_part"} ||
        (item.call.tool == "verify_claim" && Measured(item.call, item.reply.result)))
  }

  /** It left solids behind that nobody has looked at: a success, or a halt after an applied prefix. */
  predicate Works(item: Item) {
    && MutatesSolids(item.call.tool) && !Clean(item)
    && (Succeeded(item) || (Done(item) && HaltResult(item.reply.result)))
  }

  /** The work since the last clean point. */
  function Outstanding(log: seq<Item>): Tally
    decreases |log|
  {
    if log == [] then NOTHING_UNVERIFIED
    else
      var item, past := log[|log| - 1], Outstanding(log[..|log| - 1]);
      if Clean(item) then NOTHING_UNVERIFIED
      else if Works(item) then Tally(past.tools + {item.call.tool}, past.count + 1)
      else past
  }

  /** The last checkpoint, unless the ledger has been wiped since. */
  function OpenIntent(log: seq<Item>): Option<Intent>
    decreases |log|
  {
    if log == [] then None
    else
      var item := log[|log| - 1];
      if Succeeded(item) && item.call.tool == "timeline_checkpoint" then Some(Intent(CheckpointName(item.call), |log|))
      else if Succeeded(item) && item.call.tool == "clear_timeline" then None
      else OpenIntent(log[..|log| - 1])
  }

  /** A refusal that does not rest on a live fact. */
  predicate Cacheable(result: ToolResult) {
    match TypedRefusal(result)
    case Some(Some(gate)) => !LiveFactGate(gate)
    case Some(None) => true
    case None => false
  }

  /** A refusal that is new and worth remembering. */
  predicate Mints(item: Item) {
    match item.reply
    case Refused(result, why) => why != FromCache && Cacheable(result)
    case Ran(result) => Cacheable(result)
    case Crashed => false
  }

  /** A non-refusal from a tool that may have changed the world. */
  predicate Forgets(item: Item) {
    Done(item) && !ReadOnly(item.call.tool)
  }

  function EntryFor(item: Item, turn: nat): Entry
    requires Mints(item)
  {
    Entry(KeyOf(item.call), item.call.tool, turn, item.reply.result)
  }

  /** The refusals minted since the world last changed. */
  function Minted(log: seq<Item>): seq<Entry>
    decreases |log|
  {
    if log == [] then []
    else
      var item, past := log[|log| - 1], log[..|log| - 1];
      if Forgets(item) then []
      else Minted(past) + (if Mints(item) then [EntryFor(item, |log|)] else [])
  }

  /** The newest 128. */
  function Recent(entries: seq<Entry>): seq<Entry> {
    if |entries| <= REFUSAL_CACHE_MAX then entries else entries[|entries| - REFUSAL_CACHE_MAX..]
  }

  // ----- the invariant -----

  ghost predicate KeysDiffer(cache: seq<Entry>) {
    forall i, j :: 0 <= i < j < |cache| ==> cache[i].key != cache[j].key
  }

  /** An entry was minted by the dispatch of its turn, and not for want of an intent if one is open. */
  ghost predicate FromItsTurn(e: Entry, s: Session, log: seq<Item>) {
    && 0 < e.turn <= |log| && Mints(log[e.turn - 1]) && e == EntryFor(log[e.turn - 1], e.turn)
    && (s.intent.Some? ==> !(log[e.turn - 1].reply.Refused? && log[e.turn - 1].reply.why == NoIntent))
  }

  ghost predicate CacheHolds(s: Session, log: seq<Item>) {
    && s.cache == Recent(Minted(log))
    && KeysDiffer(s.cache)
    && forall e :: e in s.cache ==> FromItsTurn(e, s, log)
  }

  ghost predicate WorkHolds(s: Session, log: seq<Item>, generic: string -> bool) {
    && s.intent == OpenIntent(log) && s.unverified == Outstanding(log)
    && (s.intent.Some? ==> !generic(s.intent.value.name))
  }

  // ----- replies -----

  lemma {:induction false} GateRefusalTyped(gate: string)
    ensures TypedRefusal(GateRefusal(gate)) == Some(Some(gate))
  {
    var members := [Member("refused", Bool(true)), Member("gate", Str(gate))];
    assert members[1..] == [Member("gate", Str(gate))];
    assert Lookup(members, "gate") == Lookup(members[1..], "gate");
  }

  /** Which gate speaks for which reason. */
  predicate GateOf(why: Why, gate: string) {
    match why
    case FromCache => false
    case PointRun => gate == "single_point_run"
    case PointTotal => gate == "single_point_cumulative"
    case GenericName => gate == "intent"
    case VerificationScope => gate == "verification_scope"
    case NoIntent => gate == "intent"
    case UnsoundBase => gate == "unsound_base"
    case SheetGate => gate == "sheet_unsound" || gate == "sheet_quality" || gate == "sheet_uncertified"
  }

  lemma {:induction false} GateSpoke(s: Session, call: Call, live: Live, generic: string -> bool) returns (gate: string)
    requires Decide(s, call, live, generic).Refuse? && Find(s.cache, KeyOf(call)).None?
    ensures var d := Decide(s, call, live, generic); d.result == GateRefusal(gate) && GateOf(d.why, gate)
  {
    match Decide(s, call, live, generic).why
    case PointRun => gate := "single_point_run";
    case PointTotal => gate := "single_point_cumulative";
    case VerificationScope => gate := "verification_scope";
    case UnsoundBase => gate := "unsound_base";
    case SheetGate =>
      gate := if live.sheet.SheetUnsound? then "sheet_unsound"
              else if live.sheet.SheetQuality? then "sheet_quality"
              else "sheet_uncertified";
    case _ => gate := "intent";
  }

  /** A refusal is either a cached one again, or a gate's own. */
  lemma {:induction false} RefusalsTyped(s: Session, call: Call, live: Live, generic: string -> bool)
    requires forall e :: e in s.cache ==> Cacheable(e.result)
    ensures var d := Decide(s, call, live, generic);
            d.Refuse? ==> TypedRefusal(d.result).Some? && (d.why == FromCache <==> Find(s.cache, KeyOf(call)).Some?)
  {
    if Decide(s, call, live, generic).Refuse? && Find(s.cache, KeyOf(call)).None? {
      var gate := GateSpoke(s, call, live, generic);
      GateRefusalTyped(gate);
    }
  }

  lemma {:induction false} CountPointOnlyCounts(s: Session, call: Call, result: ToolResult)
    ensures var r := CountPoint(s, call, result);
            r.cache == s.cache && r.intent == s.intent && r.unverified == s.unverified
  {
  }

  lemma {:induction false} RecordRefusal(s: Session, call: Call, result: ToolResult)
    requires TypedRefusal(result).Some?
    ensures var r := Record(s, call, result);
            && r.intent == s.intent && r.unverified == s.unverified
            && r.cache == CacheRefusal(s, call, result, TypedRefusal(result).value).cache
  {
    CountPointOnlyCounts(s, call, result);
  }

  lemma {:induction false} RecordDone(s: Session, call: Call, result: ToolResult)
    requires TypedRefusal(result).None?
    ensures var r := Record(s, call, result);
            && r.cache == (if ReadOnly(call.tool) then s.cache else [])
            && r.intent == RecordWork(s, call, result).intent
            && r.unverified == RecordWork(s, call, result).unverified
  {
    CountPointOnlyCounts(s, call, result);
  }

  // ----- the intent and the work under it -----

  /** A handler that changes solids only runs under an intent. */
  lemma {:induction false} MutatorsHaveIntent(s: Session, call: Call, live: Live, generic: string -> bool)
    requires MutatesSolids(call.tool) && Decide(s, call, live, generic).Proceed?
    ensures s.intent.Some?
  {
  }

  lemma {:induction false} WorkRecorded(s: Session, log: seq<Item>, call: Call, result: ToolResult,
                                        generic: string -> bool)
    requires WorkHolds(s, log, generic) && s.turn == |log| + 1 && TypedRefusal(result).None?
    requires MutatesSolids(call.tool) ==> s.intent.Some?
    requires call.tool == "timeline_checkpoint" ==> !generic(CheckpointName(call))
    ensures WorkHolds(RecordWork(s, call, result), log + [Item(call, Ran(result))], generic)
  {
    var item := Item(call, Ran(result));
    assert (log + [item])[..|log|] == log;
  }

  lemma {:induction false} WorkKept(s: Session, n: Session, log: seq<Item>, item: Item, generic: string -> bool)
    requires WorkHolds(s, log, generic) && n.intent == s.intent && n.unverified == s.unverified && !Done(item)
    ensures WorkHolds(n, log + [item], generic)
  {
    assert (log + [item])[..|log|] == log;
  }

  lemma {:induction false} StepWork(s: Session, log: seq<Item>, e: Event, generic: string -> bool)
    requires WorkHolds(s, log, generic) && s.turn == |log| && forall x :: x in s.cache ==> Cacheable(x.result)
    ensures var (n, reply) := Step(s, e, generic); WorkHolds(n, log + [Item(e.call, reply)], generic)
  {
    var t := Tick(s);
    var (n, reply) := Step(s, e, generic);
    RefusalsTyped(t, e.call, e.live, generic);
    match reply
    case Refused(result, _) =>
      RecordRefusal(t, e.call, result);
      WorkKept(s, n, log, Item(e.call, reply), generic);
    case Crashed =>
      WorkKept(s, n, log, Item(e.call, reply), generic);
    case Ran(result) =>
      if TypedRefusal(result).Some? {
        RecordRefusal(t, e.call, result);
        WorkKept(s, n, log, Item(e.call, reply), generic);
      } else {
        RecordDone(t, e.call, result);
        if MutatesSolids(e.call.tool) {
          MutatorsHaveIntent(t, e.call, e.live, generic);
        }
        CheckpointsNamed(t, e.call, e.live, generic);
        WorkRecorded(t, log, e.call, result, generic);
        assert n.intent == RecordWork(t, e.call, result).intent;
      }
  }

  lemma {:induction false} CheckpointsNamed(s: Session, call: Call, live: Live, generic: string -> bool)
    requires Decide(s, call, live, generic).Proceed?
    ensures call.tool == "timeline_checkpoint" ==> !generic(CheckpointName(call))
  {
  }

  // ----- the cache -----

  lemma {:induction false} RecentPush(entries: seq<Entry>, e: Entry)
    ensures var held := Recent(entries);
            Recent(entries + [e]) == (if |held| >= REFUSAL_CACHE_MAX then held[1..] else held) + [e]
  {
  }

  lemma {:induction false} CacheKept(s: Session, n: Session, log: seq<Item>, item: Item)
    requires CacheHolds(s, log) && n.cache == s.cache && (n.intent.Some? ==> s.intent.Some?)
    requires !Forgets(item) && !Mints(item)
    ensures CacheHolds(n, log + [item])
  {
    assert (log + [item])[..|log|] == log;
    assert Minted(log + [item]) == Minted(log);
  }

  lemma {:induction false} CacheForgotten(n: Session, log: seq<Item>, item: Item)
    requires n.cache == [] && Forgets(item)
    ensures CacheHolds(n, log + [item])
  {
  }

  lemma {:induction false} CacheMinted(s: Session, n: Session, log: seq<Item>, item: Item, gate: Option<string>)
    requires CacheHolds(s, log) && n.intent == s.intent && s.turn == |log| + 1
    requires Mints(item) && !Forgets(item) && TypedRefusal(item.reply.result) == Some(gate)
    requires Find(s.cache, KeyOf(item.call)).None?
    requires n.cache == CacheRefusal(s, item.call, item.reply.result, gate).cache
    requires item.reply.Refused? && item.reply.why == NoIntent ==> s.intent.None?
    ensures CacheHolds(n, log + [item])
  {
    assert (log + [item])[..|log|] == log;
    var e := EntryFor(item, |log| + 1);
    assert Minted(log + [item]) == Minted(log) + [e];
    RecentPush(Minted(log), e);
    assert n.cache == (if |s.cache| >= REFUSAL_CACHE_MAX then s.cache[1..] else s.cache) + [e];
    forall x | x in n.cache ensures FromItsTurn(x, n, log + [item]) {
      if x != e {
        assert x in s.cache && FromItsTurn(x, s, log);
      }
    }
  }

  lemma {:induction false} StepCache(s: Session, log: seq<Item>, e: Event, generic: string -> bool)
    requires CacheHolds(s, log) && s.turn == |log|
    ensures var (n, reply) := Step(s, e, generic); CacheHolds(n, log + [Item(e.call, reply)])
  {
    var t := Tick(s);
    var d := Decide(t, e.call, e.live, generic);
    var (n, reply) := Step(s, e, generic);
    var item := Item(e.call, reply);
    assert CacheHolds(t, log);
    EntriesCacheable(s, log);
    RefusalsTyped(t, e.call, e.live, generic);
    match reply
    case Crashed => CacheKept(t, n, log, item);
    case Refused(result, why) =>
      RecordRefusal(t, e.call, result);
      if Mints(item) {
        IntentWanted(t, e.call, e.live, generic);
        CacheMinted(t, n, log, item, TypedRefusal(result).value);
      } else {
        CacheKept(t, n, log, item);
      }
    case Ran(result) =>
      if TypedRefusal(result).Some? {
        RecordRefusal(t, e.call, result);
        if Mints(item) {
          CacheMinted(t, n, log, item, TypedRefusal(result).value);
        } else {
          CacheKept(t, n, log, item);
        }
      } else {
        RecordDone(t, e.call, result);
        if ReadOnly(e.call.tool) {
          ReadersOpenNoIntent(t, e.call, result);
          CacheKept(t, n, log, item);
        } else {
          CacheForgotten(n, log, item);
        }
      }
  }

  lemma {:induction false} EntriesCacheable(s: Session, log: seq<Item>)
    requires CacheHolds(s, log)
    ensures forall x :: x in s.cache ==> Cacheable(x.result)
  {
    forall x | x in s.cache ensures Cacheable(x.result) {
      assert FromItsTurn(x, s, log);
    }
  }

  lemma {:induction false} IntentWanted(s: Session, call: Call, live: Live, generic: string -> bool)
    ensures var d := Decide(s, call, live, generic); d.Refuse? && d.why == NoIntent ==> s.intent.None?
  {
  }

  lemma {:induction false} ReadersOpenNoIntent(s: Session, call: Call, result: ToolResult)
    requires ReadOnly(call.tool)
    ensures RecordWork(s, call, result).intent == s.intent
  {
    ReadersKeepTheLedger(call.tool);
  }

  /** The tools that open and close an intent are not among the read-only ones. */
  lemma {:induction false} ReadersKeepTheLedger(tool: string)
    requires ReadOnly(tool)
    ensures tool != "timeline_checkpoint" && tool != "clear_timeline"
  {
    assert |tool| == 19 ==> tool[0] != 't';
    assert |tool| == 14 ==> tool[0] != 'c';
    assert "timeline_checkpoint"[0] == 't' && "clear_timeline"[0] == 'c';
  }

  // ----- every run -----

  /** The cache, the intent and the tally of every reachable session are what its history says. */
  lemma {:induction false} RunRemembers(events: seq<Event>, generic: string -> bool)
    ensures var (s, log) := Run(events, generic); CacheHolds(s, log) && WorkHolds(s, log, generic)
    decreases |events|
  {
    if events != [] {
      var before := events[..|events| - 1];
      RunRemembers(before, generic);
      var (s, log) := Run(before, generic);
      EntriesCacheable(s, log);
      StepCache(s, log, events[|events| - 1], generic);
      StepWork(s, log, events[|events| - 1], generic);
    }
  }

  /** A handler that changes solids runs only while an intent stands whose name says something. */
  lemma {:induction false} MutationUnderIntent(events: seq<Event>, e: Event, generic: string -> bool)
    requires MutatesSolids(e.call.tool)
    ensures var (s, log) := Run(events, generic);
            Step(s, e, generic).1.Ran? ==> OpenIntent(log).Some? && !generic(OpenIntent(log).value.name)
  {
    RunRemembers(events, generic);
    var (s, log) := Run(events, generic);
    if Step(s, e, generic).1.Ran? {
      MutatorsHaveIntent(Tick(s), e.call, e.live, generic);
    }
  }

  /**
   * A checkpoint with a real name that is not answered from the cache is refused exactly when work is outstanding
   * under the open intent and the caller does not waive it; otherwise its handler is reached, with word of the waiver.
   */
  lemma {:induction false} CheckpointClosesLookedAtWork(events: seq<Event>, e: Event, generic: string -> bool)
    requires e.call.tool == "timeline_checkpoint" && !generic(CheckpointName(e.call))
    ensures var (s, log) := Run(events, generic);
            var owed := OpenIntent(log).Some? && Outstanding(log).count > 0;
            var d := Decide(Tick(s), e.call, e.live, generic);
            Find(s.cache, KeyOf(e.call)).None? ==>
              if owed && Arg(e.call, "skip_verification") != Some(Bool(true))
              then d == Refuse(GateRefusal("verification_scope"), VerificationScope)
              else d == Proceed(owed)
  {
    RunRemembers(events, generic);
    assert SinglePointKey(e.call).None?;
  }

  /** Every cached refusal is the one its turn minted, and none was for want of an intent while an intent is open. */
  lemma {:induction false} NoStaleIntentRefusal(events: seq<Event>, generic: string -> bool, x: Entry)
    ensures var (s, log) := Run(events, generic);
            s.intent == OpenIntent(log) && (x in s.cache ==> FromItsTurn(x, s, log))
  {
    RunRemembers(events, generic);
  }

  /** At most 128 refusals, of different calls, none of them from a gate on a live fact. */
  lemma {:induction false} CacheBounded(events: seq<Event>, generic: string -> bool)
    ensures var (s, log) := Run(events, generic);
            && |s.cache| <= REFUSAL_CACHE_MAX && KeysDiffer(s.cache)
            && forall x :: x in s.cache ==> Cacheable(x.result)
  {
    RunRemembers(events, generic);
    var (s, log) := Run(events, generic);
    EntriesCacheable(s, log);
  }

  // ----- how long an entry lasts -----

  function MintCount(log: seq<Item>): nat
    decreases |log|
  {
    if log == [] then 0 else MintCount(log[..|log| - 1]) + if Mints(log[|log| - 1]) then 1 else 0
  }

  /** Nothing after turn `k` made the session forget, and fewer than 128 refusals were minted after it. */
  ghost predicate Lasting(log: seq<Item>, k: nat) {
    k <= |log| && NothingForgotten(log, k) && MintCount(log[k..]) < REFUSAL_CACHE_MAX
  }

  /** Entry turns rise through the list. */
  ghost predicate TurnsRise(entries: seq<Entry>, from: nat, to: nat) {
    && (forall i :: 0 <= i < |entries| ==> from < entries[i].turn <= to)
    && (forall i, j :: 0 <= i < j < |entries| ==> entries[i].turn < entries[j].turn)
  }

  lemma {:induction false} MintedRise(log: seq<Item>)
    ensures TurnsRise(Minted(log), 0, |log|)
    decreases |log|
  {
    if log != [] {
      MintedRise(log[..|log| - 1]);
    }
  }

  ghost predicate NothingForgotten(log: seq<Item>, k: nat) {
    forall i :: k <= i < |log| ==> !Forgets(log[i])
  }

  /** With nothing forgotten since turn `k`, what was minted by then still leads the list. */
  lemma {:induction false} MintedExtends(log: seq<Item>, k: nat)
    requires k <= |log| && NothingForgotten(log, k)
    ensures Minted(log[..k]) <= Minted(log) && |Minted(log)| == |Minted(log[..k])| + MintCount(log[k..])
    decreases |log|
  {
    if k == |log| {
      assert log[..k] == log;
    } else {
      var n := |log| - 1;
      var past := log[..n];
      assert past[..k] == log[..k] && log[k..][..n - k] == past[k..] && log[k..][n - k] == log[n];
      MintedExtends(past, k);
    }
  }

  /** Once forgotten, what was minted by turn `k` is gone. */
  lemma {:induction false} MintedRestarts(log: seq<Item>, k: nat)
    requires k <= |log| && !NothingForgotten(log, k)
    ensures TurnsRise(Minted(log), k, |log|)
    decreases |log|
  {
    if !Forgets(log[|log| - 1]) {
      MintedRestarts(log[..|log| - 1], k);
    }
  }

  /**
   * A refusal minted at turn `k + 1` is still held after `log` exactly as long as no state-changing tool has done
   * its work since, and fewer than 128 further refusals were minted.
   */
  lemma {:induction false} HeldExactlyWhileLasting(log: seq<Item>, k: nat)
    requires k < |log| && Mints(log[k])
    ensures EntryFor(log[k], k + 1) in Recent(Minted(log)) <==> Lasting(log, k + 1)
  {
    var e, minted := EntryFor(log[k], k + 1), Minted(log);
    assert log[..k + 1][..k] == log[..k];
    if NothingForgotten(log, k + 1) {
      MintedExtends(log, k + 1);
      MintedRise(log);
      var upTo := Minted(log[..k + 1]);
      assert upTo == Minted(log[..k]) + [e];
      var p := |upTo| - 1;
      assert minted[p] == e;
      assert forall i :: 0 <= i < |minted| && i != p ==> minted[i].turn != e.turn;
      if |minted| > REFUSAL_CACHE_MAX {
        var cut := |minted| - REFUSAL_CACHE_MAX;
        assert p >= cut ==> Recent(minted)[p - cut] == e;
      }
    } else {
      MintedRestarts(log, k + 1);
    }
  }

  lemma {:induction false} FindUnique(cache: seq<Entry>, e: Entry)
    requires KeysDiffer(cache) && e in cache
    ensures Find(cache, e.key) == Some(e)
  {
    var found := Find(cache, e.key).value;
    var i, j :| 0 <= i < |cache| && 0 <= j < |cache| && cache[i] == e && cache[j] == found;
  }

  /**
   * Re-issuing a refused call, with its arguments' members in any order, is answered with that refusal, and the
   * handler is not reached, as long as the refusal lasts.
   */
  lemma {:induction false} ReissueAnswered(events: seq<Event>, generic: string -> bool, k: nat, e: Event)
    requires k < |events| && Mints(Run(events, generic).1[k]) && Lasting(Run(events, generic).1, k + 1)
    requires CanonicalIdentity.WellFormed(CanonicalIdentity.ArgsOrEmpty(e.call.args))
    requires var call := Run(events, generic).1[k].call;
             && CanonicalIdentity.WellFormed(CanonicalIdentity.ArgsOrEmpty(call.args)) && call.tool == e.call.tool
             && CanonicalIdentity.Same(CanonicalIdentity.ArgsOrEmpty(call.args),
                                       CanonicalIdentity.ArgsOrEmpty(e.call.args))
    ensures var (s, log) := Run(events, generic);
            Step(s, e, generic).1 == Refused(Replay(EntryFor(log[k], k + 1)), FromCache)
  {
    var (s, log) := Run(events, generic);
    RunRemembers(events, generic);
    HeldExactlyWhileLasting(log, k);
    FindUnique(s.cache, EntryFor(log[k], k + 1));
    CanonicalIdentity.KeyIdentifiesCall(log[k].call.tool, log[k].call.args, e.call.tool, e.call.args);
  }
}

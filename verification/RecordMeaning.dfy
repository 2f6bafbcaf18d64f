/** What a dispatch leaves behind: the refusals that gates mint, the cache after one, and the work to look at. */
module RecordMeaning {
  import opened Wrappers
  import opened Json
  import opened PlaceholderMeaning
  import opened Gates
  import opened GateHistory
  import opened GateMeaning

  // ----- what a gate mints -----

  /** An error that says it refuses and names its gate; it neither halts nor carries a note of the cache. */
  ghost predicate Minted(result: ToolResult, gate: string) {
    && result.isError && !result.halted && result.replays == []
    && exists v :: result.body == Text(Some(v), false) && SaysRefused(v) && NamesGate(v, Some(gate))
  }

  lemma {:induction false} GateRefusalIs(gate: string)
    ensures Minted(GateRefusal(gate), gate)
  {
    var members := [Member("refused", Bool(true)), Member("gate", Str(gate))];
    LookupIs(members, "refused", Bool(true));
    LookupIs(members, "gate", Str(gate));
    assert members[1..] == [Member("gate", Str(gate))];
    assert Lookup(members, "gate") == Lookup(members[1..], "gate") == Some(Str(gate));
    assert SaysRefused(Obj(members)) && NamesGate(Obj(members), Some(gate));
  }

  /** Whatever a gate refuses with, and not the cache, it has minted. */
  lemma {:induction false} GatesMint(s: Session, call: Call, live: Live, generic: string -> bool) returns (gate: string)
    requires Decide(s, call, live, generic).Refuse? && forall x :: x in s.cache ==> x.key != KeyOf(call)
    ensures var d := Decide(s, call, live, generic); GateOf(d.why, gate) && Minted(d.result, gate)
  {
    FindNone(s.cache, KeyOf(call));
    gate := GateSpoke(s, call, live, generic);
    GateRefusalIs(gate);
  }

  // ----- the work to look at -----

  /** The first `tools` and one more. */
  predicate OneMore(before: Tally, tool: string, after: Tally) {
    after.count == before.count + 1 && after.tools == before.tools + {tool}
  }

  predicate Nothing(tally: Tally) {
    tally.count == 0 && tally.tools == {}
  }

  /** The tools whose success says something about the work as a whole. */
  predicate Settles(tool: string) {
    || tool == "timeline_checkpoint" || tool == "clear_timeline" || tool == "clear_parts"
    || tool == "verify_part" || tool == "verify_claim"
  }

  /** A checkpoint opens its intent with nothing to look at; wiping the ledger closes it; wiping the parts does not. */
  lemma {:induction false} SettlingIs(s: Session, call: Call, result: ToolResult)
    requires TypedRefusal(result).None? && !result.isError && Settles(call.tool)
    ensures var n := Record(s, call, result);
            && (call.tool == "timeline_checkpoint" ==>
                  n.intent == Some(Intent(CheckpointName(call), s.turn)) && Nothing(n.unverified))
            && (call.tool == "clear_timeline" ==> n.intent == None && Nothing(n.unverified))
            && (call.tool == "clear_parts" || call.tool == "verify_part" ==>
                  n.intent == s.intent && Nothing(n.unverified))
  {
    RecordDone(s, call, result);
  }

  /**
   * Any other call that is no refusal counts one more thing to look at exactly when its tool reshapes solids, an
   * intent is open, and it succeeded or halted after a part of its work.
   */
  lemma {:induction false} WorkIs(s: Session, call: Call, result: ToolResult)
    requires TypedRefusal(result).None? && (result.isError || !Settles(call.tool))
    ensures var n := Record(s, call, result);
            && n.intent == s.intent
            && if MutatesSolids(call.tool) && s.intent.Some? && (!result.isError || result.halted)
               then OneMore(s.unverified, call.tool, n.unverified) else n.unverified == s.unverified
  {
    RecordDone(s, call, result);
  }

  // ----- the cache -----

  /** Of a full cache, all but the oldest. */
  function Room(cache: seq<Entry>): seq<Entry> {
    if |cache| < 128 then cache else cache[1..]
  }

  /**
   * A refusal changes neither the intent nor the work. It is held under its call and turn, unless it rests on a live
   * fact or one is held for that call.
   */
  lemma {:induction false} RefusalIsHeld(s: Session, call: Call, result: ToolResult, gate: Option<string>)
    requires TypedRefusal(result) == Some(gate)
    ensures var n := Record(s, call, result);
            && n.intent == s.intent && n.unverified == s.unverified
            && if (gate.Some? && LiveFactGate(gate.value)) || exists x :: x in s.cache && x.key == KeyOf(call)
               then n.cache == s.cache
               else n.cache == Room(s.cache) + [Entry(KeyOf(call), call.tool, s.turn, result)]
  {
    RecordRefusal(s, call, result);
    FindNone(s.cache, KeyOf(call));
  }

  lemma {:induction false} FindNone(cache: seq<Entry>, key: string)
    ensures Find(cache, key).None? <==> forall x :: x in cache ==> x.key != key
    decreases |cache|
  {
    if cache != [] {
      FindNone(cache[1..], key);
      assert cache == [cache[0]] + cache[1..];
    }
  }

  /** Anything but a refusal empties the cache, unless its tool only reads. */
  lemma {:induction false} SuccessForgets(s: Session, call: Call, result: ToolResult)
    requires TypedRefusal(result).None?
    ensures Record(s, call, result).cache == if ReadOnly(call.tool) then s.cache else []
  {
    RecordDone(s, call, result);
  }
}

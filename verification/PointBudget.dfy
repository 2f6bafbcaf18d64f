/** What the two single-point counters hold every sketch to, and what they let through. */
module PointBudget {
  import opened Wrappers
  import opened Json
  import opened Gates
  import opened GateHistory

  // ----- what a log says -----

  /** The handler ran and added a single point to the sketch of `key`. */
  predicate Adds(item: Item, key: string) {
    item.reply.Ran? && !item.reply.result.isError && SinglePointKey(item.call) == Some(key)
  }

  function Additions(log: seq<Item>, key: string): nat
    decreases |log|
  {
    if log == [] then 0 else Additions(log[..|log| - 1], key) + if Adds(log[|log| - 1], key) then 1 else 0
  }

  /** The additions since the last dispatch that was recorded and was no single-point addition. */
  function Burst(log: seq<Item>, key: string): nat
    decreases |log|
  {
    if log == [] then 0
    else
      var item, past := log[|log| - 1], log[..|log| - 1];
      if !item.reply.Crashed? && SinglePointKey(item.call).None? then 0
      else Burst(past, key) + if Adds(item, key) then 1 else 0
  }

  /** The counter keys that calls have named. */
  function KeysSeen(log: seq<Item>): set<string>
    decreases |log|
  {
    if log == [] then {} else KeysSeen(log[..|log| - 1]) + KeysOf(log[|log| - 1])
  }

  function KeysOf(item: Item): set<string> {
    match SinglePointKey(item.call)
    case Some(key) => {key}
    case None => {}
  }

  // ----- the totals as a map -----

  function Names(totals: seq<Counter>): (r: set<string>) {
    if totals == [] then {} else {totals[0].key} + Names(totals[1..])
  }

  lemma {:induction false} NamesCount(totals: seq<Counter>, key: string)
    ensures key in Names(totals) <==> Counts(totals, key)
    ensures |Names(totals)| <= |totals|
    decreases |totals|
  {
    if totals != [] {
      NamesCount(totals[1..], key);
    }
  }

  lemma {:induction false} Bumped(totals: seq<Counter>, key: string, other: string)
    ensures var r := Bump(totals, key);
            && Names(r) == Names(totals) + {key} && |r| == |totals| + (if Counts(totals, key) then 0 else 1)
            && CountIn(r, other) == CountIn(totals, other) + (if other == key then 1 else 0)
    decreases |totals|
  {
    if totals != [] && totals[0].key != key {
      Bumped(totals[1..], key, other);
    }
  }

  /** One entry per key, at most 64 of them. */
  ghost predicate MapsOk(s: Session) {
    |Names(s.totals)| == |s.totals| <= POINT_KEYS_MAX && |s.runs| <= POINT_KEYS_MAX
  }

  lemma {:induction false} CountPointKeepsMaps(s: Session, call: Call, result: ToolResult)
    requires MapsOk(s)
    ensures MapsOk(CountPoint(s, call, result))
  {
    if SinglePointKey(call).Some? && !result.isError {
      var key := SinglePointKey(call).value;
      NamesCount(s.totals, key);
      if !Counts(s.totals, key) && |s.totals| >= POINT_KEYS_MAX {
        var rest := s.totals[1..];
        NamesCount(rest, key);
        assert Names(s.totals) == {s.totals[0].key} + Names(rest);
        assert |Names(rest)| == |rest|;
        Bumped(rest, key, key);
      } else {
        Bumped(s.totals, key, key);
        assert Counts(s.totals, key) ==> Names(s.totals) + {key} == Names(s.totals);
      }
    }
  }

  lemma {:induction false} RecordCounts(s: Session, call: Call, result: ToolResult)
    ensures Record(s, call, result).runs == CountPoint(s, call, result).runs
    ensures Record(s, call, result).totals == CountPoint(s, call, result).totals
  {
  }

  lemma {:induction false} StepKeepsMaps(s: Session, e: Event, generic: string -> bool)
    requires MapsOk(s)
    ensures MapsOk(Step(s, e, generic).0)
  {
    var reply := Step(s, e, generic).1;
    if !reply.Crashed? {
      RecordCounts(Tick(s), e.call, reply.result);
      CountPointKeepsMaps(Tick(s), e.call, reply.result);
    }
  }

  /** Both maps hold at most 64 entries in every run. */
  lemma {:induction false} MapsBounded(events: seq<Event>, generic: string -> bool)
    ensures MapsOk(Run(events, generic).0)
    decreases |events|
  {
    if events != [] {
      MapsBounded(events[..|events| - 1], generic);
      StepKeepsMaps(Run(events[..|events| - 1], generic).0, events[|events| - 1], generic);
    }
  }

  // ----- the budget -----

  /** Counters only name sketches that calls have named. */
  ghost predicate KeysKnown(s: Session, log: seq<Item>) {
    Names(s.totals) <= KeysSeen(log) && s.runs.Keys <= KeysSeen(log)
  }

  /** The total of `key` covers what the handlers have added to its sketch. */
  ghost predicate TotalCovers(s: Session, log: seq<Item>, key: string) {
    Additions(log, key) <= CountIn(s.totals, key) && Additions(log, key) <= SINGLE_POINT_CUMULATIVE_MAX
  }

  /** Its run covers what they have added without another call in between. */
  ghost predicate BurstCovers(s: Session, log: seq<Item>, key: string) {
    |KeysSeen(log)| < POINT_KEYS_MAX ==>
      Burst(log, key) <= RunOf(s.runs, key) && Burst(log, key) <= SINGLE_POINT_RUN_MAX
  }

  lemma {:induction false} SubsetSmaller(a: set<string>, b: set<string>)
    requires a <= b
    ensures |a| <= |b|
  {
    if a != {} {
      var x :| x in a;
      SubsetSmaller(a - {x}, b - {x});
    }
  }

  lemma {:induction false} LogPush(log: seq<Item>, item: Item, key: string)
    ensures Additions(log + [item], key) == Additions(log, key) + if Adds(item, key) then 1 else 0
    ensures KeysSeen(log + [item]) == KeysSeen(log) + KeysOf(item) && |KeysSeen(log)| <= |KeysSeen(log + [item])|
    ensures Burst(log + [item], key) == if !item.reply.Crashed? && SinglePointKey(item.call).None? then 0
                                        else Burst(log, key) + if Adds(item, key) then 1 else 0
  {
    assert (log + [item])[..|log|] == log;
    SubsetSmaller(KeysSeen(log), KeysSeen(log + [item]));
  }

  /** No counter is dropped while at most 64 sketches have been named, and no run is while fewer have. */
  lemma {:induction false} NothingDropped(s: Session, log: seq<Item>, item: Item, point: string)
    requires MapsOk(s) && KeysKnown(s, log) && SinglePointKey(item.call) == Some(point)
    requires |KeysSeen(log + [item])| <= POINT_KEYS_MAX
    ensures Counts(s.totals, point) || |s.totals| < POINT_KEYS_MAX
    ensures |KeysSeen(log + [item])| < POINT_KEYS_MAX ==> |s.runs| < POINT_KEYS_MAX
  {
    LogPush(log, item, point);
    NamesCount(s.totals, point);
    SubsetSmaller(Names(s.totals) + {point}, KeysSeen(log + [item]));
    SubsetSmaller(s.runs.Keys, KeysSeen(log + [item]));
    assert |s.runs| == |s.runs.Keys|;
  }

  /** Recording a point, run or replayed, keeps the counters ahead of what was added. */
  lemma {:induction false} PointCovers(s: Session, log: seq<Item>, item: Item, point: string, key: string)
    requires MapsOk(s) && KeysKnown(s, log) && TotalCovers(s, log, key)
    requires SinglePointKey(item.call) == Some(point) && !item.reply.Crashed? && !item.reply.result.isError
    requires |KeysSeen(log + [item])| <= POINT_KEYS_MAX
    requires item.reply.Ran? ==>
               RunOf(s.runs, point) < SINGLE_POINT_RUN_MAX && CountIn(s.totals, point) < SINGLE_POINT_CUMULATIVE_MAX
    ensures var n := CountPoint(s, item.call, item.reply.result);
            && KeysKnown(n, log + [item]) && TotalCovers(n, log + [item], key)
            && (BurstCovers(s, log, key) ==> BurstCovers(n, log + [item], key))
  {
    LogPush(log, item, key);
    NothingDropped(s, log, item, point);
    Bumped(s.totals, point, key);
  }

  lemma {:induction false} OtherCovers(s: Session, n: Session, log: seq<Item>, item: Item, key: string)
    requires KeysKnown(s, log) && TotalCovers(s, log, key) && n.totals == s.totals && !Adds(item, key)
    requires n.runs == s.runs || (n.runs == map[] && !item.reply.Crashed? && SinglePointKey(item.call).None?)
    ensures KeysKnown(n, log + [item]) && TotalCovers(n, log + [item], key)
    ensures BurstCovers(s, log, key) ==> BurstCovers(n, log + [item], key)
  {
    LogPush(log, item, key);
  }

  lemma {:induction false} PointGatePassed(s: Session, call: Call, live: Live, generic: string -> bool, point: string)
    requires SinglePointKey(call) == Some(point) && Decide(s, call, live, generic).Proceed?
    ensures RunOf(s.runs, point) < SINGLE_POINT_RUN_MAX && CountIn(s.totals, point) < SINGLE_POINT_CUMULATIVE_MAX
  {
  }

  lemma {:induction false} StepCovers(s: Session, log: seq<Item>, e: Event, generic: string -> bool, key: string)
    requires MapsOk(s) && KeysKnown(s, log) && TotalCovers(s, log, key)
    requires |KeysSeen(log + [Item(e.call, Step(s, e, generic).1)])| <= POINT_KEYS_MAX
    ensures var (n, reply) := Step(s, e, generic);
            var after := log + [Item(e.call, reply)];
            && KeysKnown(n, after) && TotalCovers(n, after, key)
            && (BurstCovers(s, log, key) ==> BurstCovers(n, after, key))
  {
    var t := Tick(s);
    var (n, reply) := Step(s, e, generic);
    var item := Item(e.call, reply);
    if reply.Crashed? {
      OtherCovers(s, n, log, item, key);
    } else {
      RecordCounts(t, e.call, reply.result);
      if SinglePointKey(e.call).Some? && !reply.result.isError {
        var point := SinglePointKey(e.call).value;
        if reply.Ran? {
          PointGatePassed(t, e.call, e.live, generic, point);
        }
        PointCovers(t, log, item, point, key);
      } else {
        OtherCovers(s, n, log, item, key);
      }
    }
  }

  lemma {:induction false} RunCovers(events: seq<Event>, generic: string -> bool, key: string)
    requires |KeysSeen(Run(events, generic).1)| <= POINT_KEYS_MAX
    ensures var (s, log) := Run(events, generic);
            KeysKnown(s, log) && TotalCovers(s, log, key) && BurstCovers(s, log, key)
    decreases |events|
  {
    if events != [] {
      var e, before := events[|events| - 1], events[..|events| - 1];
      var (s, log) := Run(before, generic);
      LogPush(log, Item(e.call, Step(s, e, generic).1), key);
      RunCovers(before, generic, key);
      MapsBounded(before, generic);
      StepCovers(s, log, e, generic, key);
    }
  }

  /**
   * With at most 64 sketches named in a session, no sketch is ever given more than 32 points one at a time, whatever
   * is called in between; with fewer than 64, never more than 8 without another call in between.
   */
  lemma {:induction false} PointBudget(events: seq<Event>, generic: string -> bool, key: string)
    ensures var log := Run(events, generic).1;
            && (|KeysSeen(log)| <= POINT_KEYS_MAX ==> Additions(log, key) <= SINGLE_POINT_CUMULATIVE_MAX)
            && (|KeysSeen(log)| < POINT_KEYS_MAX ==> Burst(log, key) <= SINGLE_POINT_RUN_MAX)
  {
    if |KeysSeen(Run(events, generic).1)| <= POINT_KEYS_MAX {
      RunCovers(events, generic, key);
    }
  }

  // ----- the counters themselves -----

  ghost predicate CountersBounded(s: Session) {
    forall key :: RunOf(s.runs, key) <= SINGLE_POINT_RUN_MAX && CountIn(s.totals, key) <= SINGLE_POINT_CUMULATIVE_MAX
  }

  /** The call will be answered with a cached refusal shaped as a success, and a counter of its sketch is full. */
  predicate OvercountsOnReplay(s: Session, call: Call) {
    match (Find(s.cache, KeyOf(call)), SinglePointKey(call))
    case (Some(e), Some(key)) =>
      && !e.result.isError
      && ((|s.runs| < POINT_KEYS_MAX && RunOf(s.runs, key) == SINGLE_POINT_RUN_MAX) ||
          CountIn(s.totals, key) == SINGLE_POINT_CUMULATIVE_MAX)
    case _ => false
  }

  lemma {:induction false} NamesCountIn(totals: seq<Counter>, key: string)
    requires CountIn(totals, key) > 0
    ensures Counts(totals, key)
    decreases |totals|
  {
    if totals[0].key != key {
      NamesCountIn(totals[1..], key);
    }
  }

  lemma {:induction false} NewName(name: string, names: set<string>)
    requires {name} + names != names
    ensures name !in names
  {
    assert name in names ==> {name} + names == names;
  }

  /** Dropping the oldest counter leaves the others. */
  lemma {:induction false} DropOldest(totals: seq<Counter>, key: string)
    requires totals != [] && |Names(totals)| == |totals|
    ensures CountIn(totals[1..], key) <= CountIn(totals, key)
  {
    var rest := totals[1..];
    NamesCount(rest, key);
    assert Names(totals) == {totals[0].key} + Names(rest);
    NewName(totals[0].key, Names(rest));
    if CountIn(rest, key) > 0 {
      NamesCountIn(rest, key);
    }
  }

  lemma {:induction false} CountPointBounded(s: Session, call: Call, result: ToolResult, point: string)
    requires MapsOk(s) && CountersBounded(s) && SinglePointKey(call) == Some(point) && !result.isError
    ensures CountersBounded(CountPoint(s, call, result)) <==>
            !((|s.runs| < POINT_KEYS_MAX && RunOf(s.runs, point) == SINGLE_POINT_RUN_MAX) ||
              CountIn(s.totals, point) == SINGLE_POINT_CUMULATIVE_MAX)
  {
    var n := CountPoint(s, call, result);
    NamesCount(s.totals, point);
    if !Counts(s.totals, point) && |s.totals| >= POINT_KEYS_MAX {
      assert CountIn(s.totals, point) == 0 by {
        if CountIn(s.totals, point) > 0 {
          NamesCountIn(s.totals, point);
        }
      }
      forall key ensures CountIn(n.totals, key) <= CountIn(s.totals, key) + if key == point then 1 else 0 {
        DropOldest(s.totals, key);
        Bumped(s.totals[1..], point, key);
      }
    } else {
      forall key ensures CountIn(n.totals, key) == CountIn(s.totals, key) + if key == point then 1 else 0 {
        Bumped(s.totals, point, key);
      }
    }
    assert RunOf(n.runs, point) == (if |s.runs| >= POINT_KEYS_MAX then 0 else RunOf(s.runs, point)) + 1;
    assert forall key :: key != point ==> RunOf(n.runs, key) <= RunOf(s.runs, key);
  }

  /**
   * A dispatch keeps both counters within their limits exactly when it does not replay, from the cache, a refusal
   * that is shaped as a success while a counter of that sketch is full: the replay counts as one more point.
   */
  lemma {:induction false} StepBoundsCounters(s: Session, e: Event, generic: string -> bool)
    requires MapsOk(s) && CountersBounded(s)
    ensures CountersBounded(Step(s, e, generic).0) <==> !OvercountsOnReplay(s, e.call)
  {
    var t := Tick(s);
    var (n, reply) := Step(s, e, generic);
    if !reply.Crashed? {
      RecordCounts(t, e.call, reply.result);
      if SinglePointKey(e.call).Some? && !reply.result.isError {
        var point := SinglePointKey(e.call).value;
        if reply.Ran? {
          PointGatePassed(t, e.call, e.live, generic, point);
        } else {
          OnlyReplaysSucceed(t, e.call, e.live, generic);
        }
        CountPointBounded(t, e.call, reply.result, point);
        assert CountersBounded(n) <==> CountersBounded(CountPoint(t, e.call, reply.result));
      } else {
        assert CountersBounded(n);
      }
    }
  }

  lemma {:induction false} OnlyReplaysSucceed(s: Session, call: Call, live: Live, generic: string -> bool)
    ensures var d := Decide(s, call, live, generic);
            d.Refuse? ==>
              match Find(s.cache, KeyOf(call))
              case Some(e) => d.result.isError == e.result.isError
              case None => d.result.isError
  {
  }

  // ----- what the limits rest on -----

  /**
   * The gate by itself does not limit its counters. If a handler refused a point without calling that an error, it
   * would not be asked again, and every re-issue of the point would run both counters up, past any limit.
   */
  lemma {:induction false} ReplaysRunUp(events: seq<Event>, generic: string -> bool, call: Call, soft: ToolResult,
                                        key: string)
    requires SinglePointKey(call) == Some(key) && !soft.isError && Cacheable(soft) && events != []
    requires forall x :: x in events ==> x.call == call && x.outcome == Returned(soft)
    ensures var s := Run(events, generic).0;
            && s.cache == [Entry(KeyOf(call), call.tool, 1, soft)]
            && s.runs == map[key := |events|] && s.totals == [Counter(key, |events|)]
    decreases |events|
  {
    var before, e := events[..|events| - 1], events[|events| - 1];
    assert e in events;
    if before == [] {
      FirstSoftRefusal(e, generic, soft, key);
    } else {
      assert forall x :: x in before ==> x in events;
      ReplaysRunUp(before, generic, call, soft, key);
      NextSoftRefusal(Run(before, generic).0, e, generic, soft, key, |before|);
    }
  }

  lemma {:induction false} FirstSoftRefusal(e: Event, generic: string -> bool, soft: ToolResult, key: string)
    requires SinglePointKey(e.call) == Some(key) && !soft.isError && Cacheable(soft) && e.outcome == Returned(soft)
    ensures var s := Step(FRESH, e, generic).0;
            && s.cache == [Entry(KeyOf(e.call), e.call.tool, 1, soft)]
            && s.runs == map[key := 1] && s.totals == [Counter(key, 1)]
  {
    PointReachesHandler(e.call, e.live, generic);
    RecordRefusal(Tick(FRESH), e.call, soft);
    RecordCounts(Tick(FRESH), e.call, soft);
  }

  lemma {:induction false} NextSoftRefusal(s: Session, e: Event, generic: string -> bool, soft: ToolResult, key: string,
                                           n: nat)
    requires SinglePointKey(e.call) == Some(key) && !soft.isError && Cacheable(soft)
    requires s.cache == [Entry(KeyOf(e.call), e.call.tool, 1, soft)]
    requires s.runs == map[key := n] && s.totals == [Counter(key, n)]
    ensures var t := Step(s, e, generic).0;
            t.cache == s.cache && t.runs == map[key := n + 1] && t.totals == [Counter(key, n + 1)]
  {
    var again := Replay(s.cache[0]);
    assert Decide(Tick(s), e.call, e.live, generic) == Refuse(again, FromCache);
    RecordRefusal(Tick(s), e.call, again);
    RecordCounts(Tick(s), e.call, again);
  }

  lemma {:induction false} PointReachesHandler(call: Call, live: Live, generic: string -> bool)
    requires SinglePointKey(call).Some?
    ensures Decide(Tick(FRESH), call, live, generic).Proceed?
  {
  }

  /** A plane-local point `[u, v]`. */
  predicate IsPoint(v: Json) {
    v.Arr? && |v.items| == 2 && v.items[0].Num? && v.items[1].Num?
  }

  /** Arguments that the schema of `sketch_points` accepts, without the optional `shape_index`. */
  predicate SketchPointsArgs(args: Json) {
    && args.Obj? && Field(args, "sketch_id").Some? && Field(args, "sketch_id").value.Str?
    && Field(args, "points").Some? && Field(args, "points").value.Arr?
    && Field(args, "points").value.items != [] && Field(args, "shape_index").None?
    && forall p :: p in Field(args, "points").value.items ==> IsPoint(p)
  }

  /** Such a refusal can be stated for a call that the tool's schema accepts; no point handler gives one. */
  lemma {:induction false} SoftPointRefusalExists()
    ensures exists args: Json, soft: ToolResult, key: string ::
              && SketchPointsArgs(args) && SinglePointKey(Call("sketch_points", Some(args))) == Some(key)
              && !soft.isError && Cacheable(soft)
  {
    var point := Arr([Num("0"), Num("0")]);
    var points := Arr([point]);
    var members := [Member("sketch_id", Str("s")), Member("points", points)];
    assert Lookup(members[1..], "points") == Some(points);
    assert Lookup(members, "points") == Lookup(members[1..], "points");
    assert Lookup(members[2..], "shape_index") == None;
    assert Lookup(members, "shape_index") == Lookup(members[1..], "shape_index");
    assert Lookup(members[1..], "shape_index") == Lookup(members[1..][1..], "shape_index");
    var args := Obj(members);
    assert IsPoint(point) && SketchPointsArgs(args);
    var call := Call("sketch_points", Some(args));
    assert Arg(call, "points") == Some(points) && Arg(call, "sketch_id") == Some(Str("s"));
    var refused := [Member("refused", Bool(true))];
    assert Lookup(refused, "gate") == Lookup(refused[1..], "gate") == None;
    var soft := ToolResult(false, Text(Some(Obj(refused)), false), false, []);
    assert SinglePointKey(call) == Some("sketch_points:" + "s");
    assert Cacheable(soft);
  }
}

/** The session's constraint gates: what a dispatch may do, and what the session remembers of it. */
module Gates {
  import opened Wrappers
  import opened Json
  import CanonicalIdentity

  // ----- calls and results -----

  /** The arguments, or none when the caller passed none. */
  datatype Call = Call(tool: string, args: Option<Json>)

  /** The first text block of a result: what `JSON.parse` makes of it, and whether the word REFUSED stands in it. */
  datatype Body = NoText | Text(parsed: Option<Json>, marksRefused: bool)

  /** A tool result. `replays` holds the turns named by the notes that the refusal cache has appended. */
  datatype ToolResult = ToolResult(isError: bool, body: Body, halted: bool, replays: seq<nat>)

  /** What a handler does with a call that reaches it. */
  datatype Outcome = Threw | Returned(result: ToolResult)

  /** The live facts that the last two gates fetch. */
  datatype Live = Live(unsoundBase: bool, sheet: Sheet)

  datatype Sheet = SheetFine | SheetUnsound | SheetQuality | SheetUncertified

  function Arg(call: Call, key: string): Option<Json> {
    match call.args
    case Some(v) => Field(v, key)
    case None => None
  }

  function KeyOf(call: Call): string {
    CanonicalIdentity.KeyText(call.tool, call.args)
  }

  /** A refusal in any result: `Some(gate)` with the gate it names, if it names one. */
  function TypedRefusal(result: ToolResult): Option<Option<string>> {
    match result.body
    case NoText => None
    case Text(parsed, marks) =>
      if parsed.Some? && (parsed.value.Obj? || parsed.value.Arr?) then
        match Field(parsed.value, "refused") {
          case Some(Bool(true)) => Some(GateName(parsed.value))
          case Some(Obj(_)) => Some(GateName(parsed.value))
          case Some(Arr(_)) => Some(GateName(parsed.value))
          case _ => None
        }
      else if result.isError && marks then Some(None)
      else None
  }

  function GateName(v: Json): Option<string> {
    match Field(v, "gate")
    case Some(Str(gate)) => Some(gate)
    case _ => None
  }

  /** The refusal a gate mints. */
  function GateRefusal(gate: string): ToolResult {
    ToolResult(true, Text(Some(Obj([Member("refused", Bool(true)), Member("gate", Str(gate))])), false), false, [])
  }

  predicate HaltResult(result: ToolResult) {
    result.isError && result.halted
  }

  // ----- tool classes -----

  /** The tools that cannot change the kernel or the session. */
  predicate ReadOnly(name: string) {
    name in {
      "list_parts", "get_part", "render_part", "scene_view", "section_view", "verify_part", "mass_properties",
      "get_pointer", "select_face", "select_edge", "get_face", "get_revolve_profile", "plane_from_face", "point_query",
      "ray_query", "region_query", "occupancy_view", "part_coverage", "part_distance", "part_features", "dfm_check",
      "kb_lookup", "ground_truth", "measure_faces", "verify_claim", "timeline_history", "recipe_get",
      "timeline_branches", "timeline_conflicts", "timeline_checkpoints", "timeline_scrub", "rebuild_certificate",
      "label_list", "label_resolve", "blackboard_list", "assembly_list_instances", "assembly_view", "assembly_dof",
      "assembly_interference", "assembly_verify", "drawing_query", "drawing_read_semantics", "gdt_report",
      "export_part", "drawing_export_sheet", "find_tool", "describe_tool", "invoke", "workbench", "cad_program" }
  }

  /** The verbs that create, reshape or destroy a solid. */
  predicate MutatesSolids(name: string) {
    name in {
      "create_box", "create_cylinder", "create_sphere", "create_cone", "boolean", "boolean_many", "revolve",
      "nurbs_loft", "shell", "fillet_edges", "chamfer_edges", "drill_pattern", "transform", "sketch_extrude",
      "psketch_extrude", "psketch_revolve", "import_step", "timeline_mould", "delete_part", "clear_parts" }
  }

  /** The tools whose arguments name a solid to build on. */
  predicate TakesBase(name: string) {
    name in {
      "boolean", "boolean_many", "shell", "drill_pattern", "transform", "fillet_edges", "chamfer_edges", "make_drawing",
      "export_part" }
  }

  /** The gates whose fact is live state; their refusals are never cached. */
  predicate LiveFactGate(name: string) {
    name in {
      "unsound_base", "sheet_unsound", "sheet_quality", "sheet_uncertified", "single_point_run",
      "single_point_cumulative", "verification_scope" }
  }

  const REFUSAL_CACHE_MAX := 128
  const SINGLE_POINT_RUN_MAX := 8
  const SINGLE_POINT_CUMULATIVE_MAX := 32
  const POINT_KEYS_MAX := 64

  function StringArg(call: Call, key: string): Option<string> {
    match Arg(call, key)
    case Some(Str(text)) => Some(text)
    case _ => None
  }

  /** The counter key of a call that adds a single point to a sketch. */
  function SinglePointKey(call: Call): Option<string> {
    if call.tool == "psketch_add_entity" && Arg(call, "kind") == Some(Str("point")) then
      match StringArg(call, "csketch_id") {
        case Some(id) => Some("psketch_add_entity:" + id)
        case None => None
      }
    else if call.tool == "sketch_points" then
      match (Arg(call, "points"), StringArg(call, "sketch_id")) {
        case (Some(Arr(points)), Some(id)) => if |points| == 1 then Some("sketch_points:" + id) else None
        case _ => None
      }
    else None
  }

  predicate Constant(binding: Json) {
    match Field(binding, "measure")
    case Some(measure) => Field(measure, "kind") == Some(Str("constant"))
    case None => false
  }

  predicate AllConstant(bindings: seq<Json>) {
    bindings == [] || (Constant(bindings[0]) && AllConstant(bindings[1..]))
  }

  /** A `verify_claim` that looked at geometry and read a verdict. */
  predicate Measured(call: Call, result: ToolResult) {
    && Arg(call, "bindings").Some? && Arg(call, "bindings").value.Arr?
    && !AllConstant(Arg(call, "bindings").value.items)
    && result.body.Text? && result.body.parsed.Some?
    && Field(result.body.parsed.value, "refused") != Some(Bool(true))
  }

  // ----- session state -----

  datatype Entry = Entry(key: string, tool: string, turn: nat, result: ToolResult)

  datatype Intent = Intent(name: string, turn: nat)

  /** Solid-mutating work that nothing has looked at since. */
  datatype Tally = Tally(tools: set<string>, count: nat)

  /** A counter per sketch, oldest key first. */
  datatype Counter = Counter(key: string, count: nat)

  /** `cache` and `totals` are maps that keep insertion order. */
  datatype Session = Session(cache: seq<Entry>, intent: Option<Intent>, unverified: Tally, runs: map<string, nat>,
                             totals: seq<Counter>, turn: nat)

  const NOTHING_UNVERIFIED := Tally({}, 0)

  const FRESH := Session([], None, NOTHING_UNVERIFIED, map[], [], 0)

  function Find(cache: seq<Entry>, key: string): (r: Option<Entry>)
    ensures r.Some? ==> r.value in cache && r.value.key == key
    ensures r.None? ==> forall e :: e in cache ==> e.key != key
  {
    if cache == [] then None else if cache[0].key == key then Some(cache[0]) else Find(cache[1..], key)
  }

  function CountIn(totals: seq<Counter>, key: string): nat {
    if totals == [] then 0 else if totals[0].key == key then totals[0].count else CountIn(totals[1..], key)
  }

  predicate Counts(totals: seq<Counter>, key: string) {
    totals != [] && (totals[0].key == key || Counts(totals[1..], key))
  }

  /** Add one to a key that is present, in its place; append one that is not. */
  function Bump(totals: seq<Counter>, key: string): seq<Counter> {
    if totals == [] then [Counter(key, 1)]
    else if totals[0].key == key then [Counter(key, totals[0].count + 1)] + totals[1..]
    else [totals[0]] + Bump(totals[1..], key)
  }

  function RunOf(runs: map<string, nat>, key: string): nat {
    if key in runs then runs[key] else 0
  }

  // ----- before the handler -----

  /** Which gate refused. */
  datatype Why =
    | FromCache
    | PointRun
    | PointTotal
    | GenericName
    | VerificationScope
    | NoIntent
    | UnsoundBase
    | SheetGate

  /** A refusal, or leave to run the handler and whether gate 6 would have refused without its escape. */
  datatype Decision = Refuse(result: ToolResult, why: Why) | Proceed(gate6WouldHaveRefused: bool)

  /** `checkpoint`'s name, or the empty string. */
  function CheckpointName(call: Call): string {
    match StringArg(call, "name")
    case Some(name) => name
    case None => ""
  }

  function Replay(e: Entry): ToolResult {
    e.result.(replays := e.result.replays + [e.turn])
  }

  function PointGate(s: Session, call: Call): Option<Why> {
    match SinglePointKey(call)
    case None => None
    case Some(key) =>
      if RunOf(s.runs, key) >= SINGLE_POINT_RUN_MAX then Some(PointRun)
      else if CountIn(s.totals, key) >= SINGLE_POINT_CUMULATIVE_MAX then Some(PointTotal)
      else None
  }

  function CheckpointGate(s: Session, call: Call, generic: string -> bool): Decision {
    if generic(CheckpointName(call)) then Refuse(GateRefusal("intent"), GenericName)
    else
      var unlooked := s.intent.Some? && s.unverified.count > 0;
      if unlooked && Arg(call, "skip_verification") != Some(Bool(true)) then
        Refuse(GateRefusal("verification_scope"), VerificationScope)
      else Proceed(unlooked)
  }

  function LiveGate(call: Call, live: Live): Decision {
    if TakesBase(call.tool) && Arg(call, "acknowledge_unsound") != Some(Bool(true)) && live.unsoundBase then
      Refuse(GateRefusal("unsound_base"), UnsoundBase)
    else if call.tool == "drawing_export_sheet" then
      match live.sheet {
        case SheetFine => Proceed(false)
        case SheetUnsound => Refuse(GateRefusal("sheet_unsound"), SheetGate)
        case SheetQuality => Refuse(GateRefusal("sheet_quality"), SheetGate)
        case SheetUncertified => Refuse(GateRefusal("sheet_uncertified"), SheetGate)
      }
    else Proceed(false)
  }

  /** The gates in order: the cache, the point counters, the intent gates, then the gates on live facts. */
  function Decide(s: Session, call: Call, live: Live, generic: string -> bool): Decision {
    match Find(s.cache, KeyOf(call))
    case Some(e) => Refuse(Replay(e), FromCache)
    case None =>
      match PointGate(s, call)
      case Some(PointRun) => Refuse(GateRefusal("single_point_run"), PointRun)
      case Some(why) => Refuse(GateRefusal("single_point_cumulative"), why)
      case None =>
        if call.tool == "timeline_checkpoint" then CheckpointGate(s, call, generic)
        else if MutatesSolids(call.tool) && s.intent.None? then Refuse(GateRefusal("intent"), NoIntent)
        else LiveGate(call, live)
  }

  // ----- after it -----

  function CountPoint(s: Session, call: Call, result: ToolResult): (r: Session)
    ensures r.turn == s.turn
  {
    match SinglePointKey(call)
    case None => s.(runs := map[])
    case Some(key) =>
      if result.isError then s
      else
        var runs := if |s.runs| >= POINT_KEYS_MAX then map[] else s.runs;
        var totals := if !Counts(s.totals, key) && |s.totals| >= POINT_KEYS_MAX then s.totals[1..] else s.totals;
        s.(runs := runs[key := RunOf(runs, key) + 1], totals := Bump(totals, key))
  }

  function CacheRefusal(s: Session, call: Call, result: ToolResult, gate: Option<string>): (r: Session)
    ensures r.turn == s.turn
  {
    if gate.Some? && LiveFactGate(gate.value) then s
    else if Find(s.cache, KeyOf(call)).Some? then s
    else
      var kept := if |s.cache| >= REFUSAL_CACHE_MAX then s.cache[1..] else s.cache;
      s.(cache := kept + [Entry(KeyOf(call), call.tool, s.turn, result)])
  }

  function MoreUnlooked(unverified: Tally, tool: string): Tally {
    Tally(unverified.tools + {tool}, unverified.count + 1)
  }

  /** What a success, or a halt, does to the intent and to the work under it. */
  function Work(intent: Option<Intent>, unverified: Tally, turn: nat, call: Call, result: ToolResult)
    : (Option<Intent>, Tally)
  {
    if !result.isError then
      if call.tool == "timeline_checkpoint" then (Some(Intent(CheckpointName(call), turn)), NOTHING_UNVERIFIED)
      else if call.tool == "clear_timeline" then (None, NOTHING_UNVERIFIED)
      else if call.tool == "clear_parts" then (intent, NOTHING_UNVERIFIED)
      else if call.tool == "verify_part" || call.tool == "verify_claim" then
        (intent, if call.tool == "verify_part" || Measured(call, result) then NOTHING_UNVERIFIED else unverified)
      else if MutatesSolids(call.tool) && intent.Some? then (intent, MoreUnlooked(unverified, call.tool))
      else (intent, unverified)
    else if HaltResult(result) && MutatesSolids(call.tool) && intent.Some? then
      (intent, MoreUnlooked(unverified, call.tool))
    else (intent, unverified)
  }

  function RecordWork(s: Session, call: Call, result: ToolResult): (r: Session)
    ensures r.turn == s.turn
  {
    var (intent, unverified) := Work(s.intent, s.unverified, s.turn, call, result);
    s.(intent := intent, unverified := unverified)
  }

  function RecordRest(s: Session, call: Call, result: ToolResult): (r: Session)
    ensures r.turn == s.turn
  {
    match TypedRefusal(result)
    case Some(gate) => CacheRefusal(s, call, result, gate)
    case None => RecordWork(s.(cache := if ReadOnly(call.tool) then s.cache else []), call, result)
  }

  function Record(s: Session, call: Call, result: ToolResult): (r: Session)
    ensures r.turn == s.turn
  {
    RecordRest(CountPoint(s, call, result), call, result)
  }

  // ----- one dispatch -----

  /** What the caller got: a refusal from a gate, the handler's result, or its exception. */
  datatype Reply = Refused(result: ToolResult, why: Why) | Ran(result: ToolResult) | Crashed

  /** One call, and how the world answers it: what the handler would do, and the live facts. */
  datatype Event = Event(call: Call, outcome: Outcome, live: Live)

  /** Carry out what the gates decided, and record it. */
  function Settle(s: Session, call: Call, decision: Decision, outcome: Outcome): (r: (Session, Reply))
    ensures r.0.turn == s.turn
  {
    match decision
    case Refuse(result, why) => (Record(s, call, result), Refused(result, why))
    case Proceed(_) =>
      match outcome
      case Threw => (s, Crashed)
      case Returned(result) => (Record(s, call, result), Ran(result))
  }

  /** The turn counter ticks once per dispatch. */
  function Tick(s: Session): Session {
    s.(turn := s.turn + 1)
  }

  /** A leaf dispatch, taken as one step: tick, gate, run, record. */
  function Step(s: Session, e: Event, generic: string -> bool): (r: (Session, Reply))
    ensures r.0.turn == s.turn + 1
  {
    Settle(Tick(s), e.call, Decide(Tick(s), e.call, e.live, generic), e.outcome)
  }

  /** A call and its reply; entry `i` of a log is turn `i + 1`. */
  datatype Item = Item(call: Call, reply: Reply)

  function Run(events: seq<Event>, generic: string -> bool): (r: (Session, seq<Item>))
    ensures |r.1| == |events| && r.0.turn == |events|
    decreases |events|
  {
    if events == [] then (FRESH, [])
    else
      var (s, log) := Run(events[..|events| - 1], generic);
      var e := events[|events| - 1];
      var (s', reply) := Step(s, e, generic);
      (s', log + [Item(e.call, reply)])
  }

  // ----- the gates as they run -----

  /** The session as the process holds it. */
  class SessionGates {
    var refusalCache: seq<Entry>
    var openIntent: Option<Intent>
    var intentUnverified: Tally
    var pointRuns: map<string, nat>
    var pointCumulative: seq<Counter>
    var turn: nat

    function State(): Session
      reads this
    {
      Session(refusalCache, openIntent, intentUnverified, pointRuns, pointCumulative, turn)
    }

    constructor ()
      ensures State() == FRESH
    {
      refusalCache, openIntent, intentUnverified := [], None, NOTHING_UNVERIFIED;
      pointRuns, pointCumulative, turn := map[], [], 0;
    }

    method PreDispatchGate(call: Call, live: Live, generic: string -> bool) returns (d: Decision)
      ensures d == Decide(State(), call, live, generic)
    {
      var hit := Find(refusalCache, KeyOf(call));
      if hit.Some? {
        return Refuse(Replay(hit.value), FromCache);
      }
      var point := SinglePointKey(call);
      if point.Some? {
        if RunOf(pointRuns, point.value) >= SINGLE_POINT_RUN_MAX {
          return Refuse(GateRefusal("single_point_run"), PointRun);
        }
        if CountIn(pointCumulative, point.value) >= SINGLE_POINT_CUMULATIVE_MAX {
          return Refuse(GateRefusal("single_point_cumulative"), PointTotal);
        }
      }
      if call.tool == "timeline_checkpoint" {
        if generic(CheckpointName(call)) {
          return Refuse(GateRefusal("intent"), GenericName);
        }
        var wouldRefuse := openIntent.Some? && intentUnverified.count > 0;
        if openIntent.Some? && intentUnverified.count > 0 && Arg(call, "skip_verification") != Some(Bool(true)) {
          return Refuse(GateRefusal("verification_scope"), VerificationScope);
        }
        return Proceed(wouldRefuse);
      }
      if MutatesSolids(call.tool) && openIntent.None? {
        return Refuse(GateRefusal("intent"), NoIntent);
      }
      return LiveGate(call, live);
    }

    /** Forget the oldest refusal when the cache is full, then remember this one. */
    method CacheTypedRefusal(call: Call, result: ToolResult, gate: Option<string>)
      modifies `refusalCache
      ensures State() == CacheRefusal(old(State()), call, result, gate)
    {
      if gate.Some? && LiveFactGate(gate.value) {
        return;
      }
      if Find(refusalCache, KeyOf(call)).None? {
        if |refusalCache| >= REFUSAL_CACHE_MAX {
          refusalCache := refusalCache[1..];
        }
        refusalCache := refusalCache + [Entry(KeyOf(call), call.tool, turn, result)];
      }
    }

    method CountSinglePoint(call: Call, result: ToolResult)
      modifies `pointRuns, `pointCumulative
      ensures State() == CountPoint(old(State()), call, result)
    {
      var point := SinglePointKey(call);
      if point.None? {
        pointRuns := map[];
      } else if !result.isError {
        if |pointRuns| >= POINT_KEYS_MAX {
          pointRuns := map[];
        }
        pointRuns := pointRuns[point.value := RunOf(pointRuns, point.value) + 1];
        if !Counts(pointCumulative, point.value) && |pointCumulative| >= POINT_KEYS_MAX {
          pointCumulative := pointCumulative[1..];
        }
        pointCumulative := Bump(pointCumulative, point.value);
      }
    }

    method RecordDispatchOutcome(call: Call, result: ToolResult)
      modifies this
      ensures State() == Record(old(State()), call, result)
    {
      CountSinglePoint(call, result);
      var refusal := TypedRefusal(result);
      if refusal.Some? {
        CacheTypedRefusal(call, result, refusal.value);
        return;
      }
      if !ReadOnly(call.tool) {
        refusalCache := [];
      }
      if !result.isError {
        if call.tool == "timeline_checkpoint" {
          openIntent := Some(Intent(CheckpointName(call), turn));
          intentUnverified := NOTHING_UNVERIFIED;
        } else if call.tool == "clear_timeline" {
          openIntent := None;
          intentUnverified := NOTHING_UNVERIFIED;
        } else if call.tool == "clear_parts" {
          intentUnverified := NOTHING_UNVERIFIED;
        } else if call.tool == "verify_part" || call.tool == "verify_claim" {
          if call.tool == "verify_part" || Measured(call, result) {
            intentUnverified := NOTHING_UNVERIFIED;
          }
        } else if MutatesSolids(call.tool) && openIntent.Some? {
          intentUnverified := MoreUnlooked(intentUnverified, call.tool);
        }
      } else if HaltResult(result) && MutatesSolids(call.tool) && openIntent.Some? {
        intentUnverified := MoreUnlooked(intentUnverified, call.tool);
      }
    }

    /** The wrapper around every handler. */
    method Dispatch(e: Event, generic: string -> bool) returns (reply: Reply)
      modifies this
      ensures (State(), reply) == Step(old(State()), e, generic)
    {
      turn := turn + 1;
      assert State() == Tick(old(State()));
      var decision := PreDispatchGate(e.call, e.live, generic);
      if decision.Refuse? {
        RecordDispatchOutcome(e.call, decision.result);
        return Refused(decision.result, decision.why);
      }
      if e.outcome.Threw? {
        return Crashed;
      }
      RecordDispatchOutcome(e.call, e.outcome.result);
      return Ran(e.outcome.result);
    }
  }
}

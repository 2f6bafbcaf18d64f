/**
 * What the gates go by: kinds of tools, the shape of a refusal, a single point, and when a claim has looked at
 * geometry.
 */
module GateMeaning {
  import opened Wrappers
  import opened Json
  import opened PlaceholderMeaning
  import opened Gates
  import opened GateHistory
  import opened PointBudget

  // ----- kinds of tools -----

  predicate CreatesSolids(name: string) {
    || name == "create_box" || name == "create_cylinder" || name == "create_sphere" || name == "create_cone"
    || name == "revolve" || name == "nurbs_loft" || name == "sketch_extrude" || name == "psketch_extrude"
    || name == "psketch_revolve" || name == "import_step"
  }

  /** The verbs that reshape solids they name in their arguments. */
  predicate ReshapesNamed(name: string) {
    || name == "boolean" || name == "boolean_many" || name == "shell" || name == "fillet_edges"
    || name == "chamfer_edges" || name == "drill_pattern" || name == "transform"
  }

  predicate DestroysSolids(name: string) {
    name == "delete_part" || name == "clear_parts"
  }

  /** Reading parts, sketches, claims and knowledge. */
  predicate ReadsModel(name: string) {
    || name == "list_parts" || name == "get_part" || name == "render_part" || name == "scene_view"
    || name == "section_view" || name == "verify_part" || name == "mass_properties" || name == "get_pointer"
    || name == "select_face" || name == "select_edge" || name == "get_face" || name == "get_revolve_profile"
    || name == "plane_from_face" || name == "point_query" || name == "ray_query" || name == "region_query"
    || name == "occupancy_view" || name == "part_coverage" || name == "part_distance" || name == "part_features"
    || name == "dfm_check" || name == "kb_lookup" || name == "ground_truth" || name == "measure_faces"
    || name == "verify_claim"
  }

  /** Reading the timeline, labels, notes, assemblies and drawings. */
  predicate ReadsRecords(name: string) {
    || name == "timeline_history" || name == "recipe_get" || name == "timeline_branches"
    || name == "timeline_conflicts" || name == "timeline_checkpoints" || name == "timeline_scrub"
    || name == "rebuild_certificate" || name == "label_list" || name == "label_resolve" || name == "blackboard_list"
    || name == "assembly_list_instances" || name == "assembly_view" || name == "assembly_dof"
    || name == "assembly_interference" || name == "assembly_verify" || name == "drawing_query"
    || name == "drawing_read_semantics" || name == "gdt_report"
  }

  predicate Exports(name: string) {
    name == "export_part" || name == "drawing_export_sheet"
  }

  /** Finding tools, and running them: the inner calls pass the gates themselves. */
  predicate RunsTools(name: string) {
    name == "find_tool" || name == "describe_tool" || name == "invoke" || name == "workbench" || name == "cad_program"
  }

  lemma {:induction false} MutatorsAre(name: string)
    ensures MutatesSolids(name) <==>
            CreatesSolids(name) || ReshapesNamed(name) || name == "timeline_mould" || DestroysSolids(name)
  {
  }

  lemma {:induction false} ReadersAre(name: string)
    ensures ReadOnly(name) <==> ReadsModel(name) || ReadsRecords(name) || Exports(name) || RunsTools(name)
  {
  }

  /** A base is taken by what reshapes a named solid, and by what puts one on paper or on disk. */
  lemma {:induction false} BasesAre(name: string)
    ensures TakesBase(name) <==> ReshapesNamed(name) || name == "make_drawing" || name == "export_part"
  {
  }

  lemma {:induction false} LiveFactsAre(gate: string)
    ensures LiveFactGate(gate) <==>
            || gate == "unsound_base" || gate == "sheet_unsound" || gate == "sheet_quality"
            || gate == "sheet_uncertified" || gate == "single_point_run" || gate == "single_point_cumulative"
            || gate == "verification_scope"
  {
  }

  // ----- arguments -----

  /** The call has the argument `key` with the value `x`. */
  ghost predicate HasArg(call: Call, key: string, x: Json) {
    call.args.Some? && call.args.value.Obj? && HasField(call.args.value, key, x)
  }

  lemma {:induction false} ArgIs(call: Call, key: string, x: Json)
    ensures Arg(call, key) == Some(x) <==> HasArg(call, key, x)
  {
    if call.args.Some? && call.args.value.Obj? {
      LookupIs(call.args.value.members, key, x);
    }
  }

  lemma {:induction false} StringArgIs(call: Call, key: string, text: string)
    ensures StringArg(call, key) == Some(text) <==> HasArg(call, key, Str(text))
  {
    ArgIs(call, key, Str(text));
  }

  /** The name a checkpoint is given, or the empty string if it is none. */
  lemma {:induction false} CheckpointNameIs(call: Call)
    ensures forall name :: HasArg(call, "name", Str(name)) ==> CheckpointName(call) == name
    ensures (forall name :: !HasArg(call, "name", Str(name))) ==> CheckpointName(call) == ""
  {
    forall name ensures StringArg(call, "name") == Some(name) <==> HasArg(call, "name", Str(name)) {
      StringArgIs(call, "name", name);
    }
  }

  /** Exactly two calls add a single point: a point entity, and a list of one point; each counts for its sketch. */
  ghost predicate AddsOnePoint(call: Call, id: string) {
    || (call.tool == "psketch_add_entity" && HasArg(call, "kind", Str("point")) && HasArg(call, "csketch_id", Str(id)))
    || (call.tool == "sketch_points" && HasArg(call, "sketch_id", Str(id)) &&
      exists p :: HasArg(call, "points", Arr([p])))
  }

  lemma {:induction false} SinglePointKeyIs(call: Call, key: string)
    ensures SinglePointKey(call) == Some(key) <==> exists id :: AddsOnePoint(call, id) && key == call.tool + ":" + id
  {
    ArgIs(call, "kind", Str("point"));
    forall id ensures StringArg(call, "csketch_id") == Some(id) <==> HasArg(call, "csketch_id", Str(id)) {
      StringArgIs(call, "csketch_id", id);
    }
    forall id ensures StringArg(call, "sketch_id") == Some(id) <==> HasArg(call, "sketch_id", Str(id)) {
      StringArgIs(call, "sketch_id", id);
    }
    forall p ensures Arg(call, "points") == Some(Arr([p])) <==> HasArg(call, "points", Arr([p])) {
      ArgIs(call, "points", Arr([p]));
    }
    forall id ensures AddsOnePoint(call, id) <==> PointOf(call, id) {
      if PointOf(call, id) && call.tool == "sketch_points" {
        var items := Arg(call, "points").value.items;
        assert items == [items[0]];
      }
    }
    KeyIsOfPoint(call, key);
  }

  predicate PointOf(call: Call, id: string) {
    || (call.tool == "psketch_add_entity" && Arg(call, "kind") == Some(Str("point")) &&
      StringArg(call, "csketch_id") == Some(id))
    || (call.tool == "sketch_points" && StringArg(call, "sketch_id") == Some(id)
        && Arg(call, "points").Some? && Arg(call, "points").value.Arr? && |Arg(call, "points").value.items| == 1)
  }

  lemma {:induction false} KeyIsOfPoint(call: Call, key: string)
    ensures SinglePointKey(call) == Some(key) <==> exists id :: PointOf(call, id) && key == call.tool + ":" + id
  {
    assert "psketch_add_entity" + ":" == "psketch_add_entity:" && "sketch_points" + ":" == "sketch_points:";
    if SinglePointKey(call).Some? {
      if call.tool == "psketch_add_entity" {
        assert PointOf(call, StringArg(call, "csketch_id").value);
      } else {
        assert PointOf(call, StringArg(call, "sketch_id").value);
      }
    }
  }

  // ----- refusals -----

  /** The body says that it refuses: with `true`, or with a body of its own. */
  ghost predicate SaysRefused(v: Json) {
    v.Obj? && exists r :: HasField(v, "refused", r) && (r == Bool(true) || r.Obj? || r.Arr?)
  }

  /** The gate that a refusal names, if it names one. */
  ghost predicate NamesGate(v: Json, gate: Option<string>) {
    match gate
    case Some(g) => HasField(v, "gate", Str(g))
    case None => forall g :: !HasField(v, "gate", Str(g))
  }

  /**
   * A result is a refusal when its first text parses to an object that says so; text that parses to no object refuses
   * when it is an error marked REFUSED.
   */
  lemma {:induction false} RefusalIs(result: ToolResult, gate: Option<string>)
    ensures TypedRefusal(result) == Some(gate) <==>
            && result.body.Text?
            && match result.body.parsed
               case Some(Obj(members)) => SaysRefused(Obj(members)) && NamesGate(Obj(members), gate)
               case Some(Arr(_)) => false
               case _ => result.isError && result.body.marksRefused && gate == None
  {
    if result.body.Text? && result.body.parsed.Some? && result.body.parsed.value.Obj? {
      var v := result.body.parsed.value;
      forall r ensures Field(v, "refused") == Some(r) <==> HasField(v, "refused", r) {
        LookupIs(v.members, "refused", r);
      }
      forall g ensures Field(v, "gate") == Some(Str(g)) <==> HasField(v, "gate", Str(g)) {
        LookupIs(v.members, "gate", Str(g));
      }
    }
  }

  // ----- claims -----

  /** A binding that measures a constant the caller supplied. */
  ghost predicate SuppliesConstant(binding: Json) {
    binding.Obj? && exists m :: HasField(binding, "measure", m) && m.Obj? && HasField(m, "kind", Str("constant"))
  }

  /** Some binding of the claim measures something else. */
  ghost predicate BindsGeometry(call: Call) {
    exists items, i: nat :: HasArg(call, "bindings", Arr(items)) && i < |items| && !SuppliesConstant(items[i])
  }

  /** The first text of the answer parses, and does not say that the claim was refused. */
  ghost predicate GivesVerdict(result: ToolResult) {
    && result.body.Text? && result.body.parsed.Some?
    && !(result.body.parsed.value.Obj? && HasField(result.body.parsed.value, "refused", Bool(true)))
  }

  lemma {:induction false} ConstantIs(binding: Json)
    ensures Constant(binding) <==> SuppliesConstant(binding)
  {
    if binding.Obj? {
      forall m ensures Field(binding, "measure") == Some(m) <==> HasField(binding, "measure", m) {
        LookupIs(binding.members, "measure", m);
      }
      if Field(binding, "measure").Some? && Field(binding, "measure").value.Obj? {
        LookupIs(Field(binding, "measure").value.members, "kind", Str("constant"));
      }
    }
  }

  lemma {:induction false} AllConstantIs(items: seq<Json>)
    ensures AllConstant(items) <==> forall i: nat :: i < |items| ==> SuppliesConstant(items[i])
    decreases |items|
  {
    if items != [] {
      ConstantIs(items[0]);
      AllConstantIs(items[1..]);
      assert forall i: nat :: 0 < i < |items| ==> items[i] == items[1..][i - 1];
    }
  }

  lemma {:induction false} MeasuredIs(call: Call, result: ToolResult)
    ensures Measured(call, result) <==> BindsGeometry(call) && GivesVerdict(result)
  {
    forall items ensures Arg(call, "bindings") == Some(Arr(items)) <==> HasArg(call, "bindings", Arr(items)) {
      ArgIs(call, "bindings", Arr(items));
    }
    if Arg(call, "bindings").Some? && Arg(call, "bindings").value.Arr? {
      AllConstantIs(Arg(call, "bindings").value.items);
      assert HasArg(call, "bindings", Arr(Arg(call, "bindings").value.items));
    }
    if result.body.Text? && result.body.parsed.Some? && result.body.parsed.value.Obj? {
      LookupIs(result.body.parsed.value.members, "refused", Bool(true));
    }
  }

  /**
   * A claim that ran without refusing leaves no work to look at exactly when it measured geometry and gave a verdict.
   */
  lemma {:induction false} ClaimClears(events: seq<Event>, e: Event, generic: string -> bool)
    requires e.call.tool == "verify_claim"
    ensures var (s, log) := Run(events, generic);
            var (n, reply) := Step(s, e, generic);
            && n.intent == s.intent
            && n.unverified == (if reply.Ran? && !reply.result.isError && TypedRefusal(reply.result).None?
                                   && BindsGeometry(e.call) && GivesVerdict(reply.result)
                                then Tally({}, 0)
                                else s.unverified)
  {
    var (s, log) := Run(events, generic);
    RunRemembers(events, generic);
    EntriesCacheable(s, log);
    RefusalsTyped(Tick(s), e.call, e.live, generic);
    var reply := Step(s, e, generic).1;
    if !reply.Crashed? {
      ClaimRecorded(Tick(s), e.call, reply.result);
    }
  }

  lemma {:induction false} ClaimRecorded(s: Session, call: Call, result: ToolResult)
    requires call.tool == "verify_claim"
    ensures var r := Record(s, call, result);
            && r.intent == s.intent
            && r.unverified == (if !result.isError && TypedRefusal(result).None? && BindsGeometry(call) &&
              GivesVerdict(result)
                                then Tally({}, 0)
                                else s.unverified)
  {
    MeasuredIs(call, result);
    if TypedRefusal(result).Some? {
      RecordRefusal(s, call, result);
    } else {
      RecordDone(s, call, result);
    }
  }

  /** So in every run a claim of constants alone leaves the outstanding work as it was. */
  lemma {:induction false} ConstantsClearNothing(events: seq<Event>, e: Event, generic: string -> bool)
    requires e.call.tool == "verify_claim" && !BindsGeometry(e.call)
    ensures var (s, log) := Run(events, generic);
            var (n, reply) := Step(s, e, generic);
            n.unverified == s.unverified && Outstanding(log + [Item(e.call, reply)]) == Outstanding(log)
  {
    var (s, log) := Run(events, generic);
    ClaimClears(events, e, generic);
    RunRemembers(events, generic);
    EntriesCacheable(s, log);
    StepWork(s, log, e, generic);
  }

  // ----- before the handler -----

  /** The first entry of the cache with the key of the call. */
  ghost predicate HeldFirst(cache: seq<Entry>, key: string, x: Entry) {
    exists i: nat :: i < |cache| && cache[i] == x && x.key == key && forall j: nat :: j < i ==> cache[j].key != key
  }

  lemma {:induction false} FindIs(cache: seq<Entry>, key: string, x: Entry)
    ensures Find(cache, key) == Some(x) <==> HeldFirst(cache, key, x)
    decreases |cache|
  {
    if cache != [] {
      var rest := cache[1..];
      FindIs(rest, key, x);
      if cache[0].key != key && HeldFirst(rest, key, x) {
        var i: nat :| i < |rest| && rest[i] == x && x.key == key && forall j: nat :: j < i ==> rest[j].key != key;
        assert cache[i + 1] == x && forall j: nat :: 0 < j < i + 1 ==> cache[j] == rest[j - 1];
      }
      if HeldFirst(cache, key, x) {
        var i: nat :| i < |cache| && cache[i] == x && x.key == key && forall j: nat :: j < i ==> cache[j].key != key;
        if i > 0 {
          assert rest[i - 1] == x && forall j: nat :: j < i - 1 ==> rest[j] == cache[j + 1];
        }
      }
    }
  }

  /** What a cached refusal is answered with: itself, with the note of its turn. */
  ghost predicate IsReplay(result: ToolResult, x: Entry) {
    && result.isError == x.result.isError && result.body == x.result.body && result.halted == x.result.halted
    && result.replays == x.result.replays + [x.turn]
  }

  /** A cached refusal is answered again, before any other gate. */
  lemma {:induction false} CacheAnswersFirst(s: Session, call: Call, live: Live, generic: string -> bool)
    ensures var d := Decide(s, call, live, generic);
            && (d.Refuse? && d.why == FromCache <==> exists x :: HeldFirst(s.cache, KeyOf(call), x))
            && (d.Refuse? && d.why == FromCache ==>
              exists x :: HeldFirst(s.cache, KeyOf(call), x) && IsReplay(d.result, x))
  {
    forall x ensures Find(s.cache, KeyOf(call)) == Some(x) <==> HeldFirst(s.cache, KeyOf(call), x) {
      FindIs(s.cache, KeyOf(call), x);
    }
    var hit := Find(s.cache, KeyOf(call));
    if hit.Some? {
      assert HeldFirst(s.cache, KeyOf(call), hit.value) && IsReplay(Replay(hit.value), hit.value);
    }
  }

  /** The work under the open intent that nobody has looked at. */
  predicate Unlooked(s: Session) {
    s.intent.Some? && s.unverified.count > 0
  }

  /** A point of the sketch `key` is refused: eight in the burst first, then thirty-two in all. */
  ghost predicate RefusesPoint(s: Session, key: string, d: Decision) {
    if RunOf(s.runs, key) >= 8 then d == Refuse(GateRefusal("single_point_run"), PointRun)
    else CountIn(s.totals, key) >= 32 && d == Refuse(GateRefusal("single_point_cumulative"), PointTotal)
  }

  /** The gates behind the cache, in their order. */
  ghost predicate Decides(s: Session, call: Call, live: Live, generic: string -> bool, d: Decision) {
    if SinglePointKey(call).Some? && (RunOf(s.runs, SinglePointKey(call).value) >= 8 ||
                                      CountIn(s.totals, SinglePointKey(call).value) >= 32) then
      RefusesPoint(s, SinglePointKey(call).value, d)
    else if call.tool == "timeline_checkpoint" then
      if generic(CheckpointName(call)) then d == Refuse(GateRefusal("intent"), GenericName)
      else if Unlooked(s) && !HasArg(call, "skip_verification", Bool(true)) then
        d == Refuse(GateRefusal("verification_scope"), VerificationScope)
      else d == Proceed(Unlooked(s))
    else if MutatesSolids(call.tool) && s.intent.None? then d == Refuse(GateRefusal("intent"), NoIntent)
    else if TakesBase(call.tool) && !HasArg(call, "acknowledge_unsound", Bool(true)) && live.unsoundBase then
      d == Refuse(GateRefusal("unsound_base"), UnsoundBase)
    else if call.tool == "drawing_export_sheet" && live.sheet == SheetUnsound then
      d == Refuse(GateRefusal("sheet_unsound"), SheetGate)
    else if call.tool == "drawing_export_sheet" && live.sheet == SheetQuality then
      d == Refuse(GateRefusal("sheet_quality"), SheetGate)
    else if call.tool == "drawing_export_sheet" && live.sheet == SheetUncertified then
      d == Refuse(GateRefusal("sheet_uncertified"), SheetGate)
    else d == Proceed(false)
  }

  /** A call that is not cached meets exactly these gates. */
  lemma {:induction false} GatesInOrder(s: Session, call: Call, live: Live, generic: string -> bool)
    requires forall x :: x in s.cache ==> x.key != KeyOf(call)
    ensures Decides(s, call, live, generic, Decide(s, call, live, generic))
  {
    ArgIs(call, "skip_verification", Bool(true));
    ArgIs(call, "acknowledge_unsound", Bool(true));
  }

  // ----- counting points -----

  /** The counters after a point that was not an error: one more for its sketch, others as they were or dropped. */
  lemma {:induction false} PointIsCounted(s: Session, call: Call, result: ToolResult, key: string)
    requires MapsOk(s) && SinglePointKey(call) == Some(key) && !result.isError
    ensures var n := CountPoint(s, call, result);
            && n.runs == (if |s.runs| >= 64 then map[key := 1] else s.runs[key := RunOf(s.runs, key) + 1])
            && CountIn(n.totals, key) == CountIn(s.totals, key) + 1
            && (Counts(s.totals, key) || |s.totals| < 64 ==>
                  forall other :: other != key ==> CountIn(n.totals, other) == CountIn(s.totals, other))
            && (!Counts(s.totals, key) && |s.totals| >= 64 ==>
                  forall other :: other != key && other != s.totals[0].key ==>
                    CountIn(n.totals, other) == CountIn(s.totals, other))
  {
    var evicts := !Counts(s.totals, key) && |s.totals| >= 64;
    var kept := if evicts then s.totals[1..] else s.totals;
    NamesCount(s.totals, key);
    if evicts && CountIn(s.totals, key) > 0 {
      NamesCountIn(s.totals, key);
    }
    forall other
      ensures CountIn(CountPoint(s, call, result).totals, other) == CountIn(kept, other) + if other == key then 1 else 0
    {
      Bumped(kept, key, other);
    }
  }

  /** Anything but a single point ends every burst and counts nothing; a point that was an error changes nothing. */
  lemma {:induction false} NothingIsCounted(s: Session, call: Call, result: ToolResult)
    requires SinglePointKey(call).None? || result.isError
    ensures CountPoint(s, call, result) == if SinglePointKey(call).None? then s.(runs := map[]) else s
  {
  }
}

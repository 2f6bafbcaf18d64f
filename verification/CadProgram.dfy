/** The certified program runner: validate everything, run in order, stop at the first failure, report a ledger. */
module CadProgram {
  import opened Wrappers
  import opened Json
  import opened Placeholders

  // ----- programs, tools and results -----

  /** One op as the program states it; absent arguments stand for `{}`. */
  datatype ProgramOp = ProgramOp(tool: string, args: Option<Json>)

  datatype Program = Program(ops: seq<ProgramOp>, allowDestructive: bool)

  function RawArgs(op: ProgramOp): Json {
    match op.args case Some(v) => v case None => Obj([])
  }

  /** A content block of a tool result; `json` is what `JSON.parse` makes of the text, if anything. */
  datatype Block = Text(text: string, json: Option<Json>) | Image | Other

  datatype OpResult = OpResult(isError: bool, content: seq<Block>)

  datatype OpOutcome = Threw(message: string) | Returned(result: OpResult)

  /**
   * The tool table a program runs against: which tools exist, how each tool's schema parses its arguments, and what
   * each handler does to the state of the world.
   */
  datatype Host<!S> = Host(has: string -> bool,
                           schema: (string, Json) -> Result<Json, string>,
                           handle: (S, string, Json) -> (S, OpOutcome))

  const META_OPS: set<string> := {"find_tool", "describe_tool", "invoke", "workbench", "cad_program"}

  const DESTRUCTIVE_OPS: set<string> := {"clear_parts", "delete_part"}

  datatype Reason =
    | MetaTool
    | Destructive
    | UnknownTool
    | BadReference(placeholder: Placeholder)
    | InvalidArgs(message: string)
    | Unresolved(error: ChainError)

  datatype Issue = Issue(index: nat, tool: string, reason: Reason)

  /** `validateOp`: the tool must exist and its schema must accept the arguments. */
  function ValidateOp<S>(host: Host<S>, tool: string, args: Json): Result<Json, Reason> {
    if !host.has(tool) then Failure(UnknownTool)
    else
      match host.schema(tool, args)
      case Success(parsed) => Success(parsed)
      case Failure(message) => Failure(InvalidArgs(message))
  }

  // ----- phase 1: up-front validation -----

  /** An op that passed phase 1: validated arguments, or raw ones whose placeholders are resolved at execution. */
  datatype Planned = Ready(tool: string, parsed: Json) | Deferred(tool: string, raw: Json)

  predicate IsBad(p: Placeholder, index: nat) {
    match p.target case Prev => index == 0 case Op(n) => n >= index
  }

  function FirstBad(refs: seq<Placeholder>, index: nat): (bad: Option<Placeholder>)
    ensures bad.Some? ==> bad.value in refs && IsBad(bad.value, index)
    ensures bad.None? ==> forall p :: p in refs ==> !IsBad(p, index)
  {
    if refs == [] then None else if IsBad(refs[0], index) then Some(refs[0]) else FirstBad(refs[1..], index)
  }

  /** Phase 1 for one op. */
  function PlanOp<S>(host: Host<S>, allowDestructive: bool, index: nat, op: ProgramOp): Result<Planned, Reason> {
    if op.tool in META_OPS then Failure(MetaTool)
    else if op.tool in DESTRUCTIVE_OPS && !allowDestructive then Failure(Destructive)
    else
      var refs := Refs(RawArgs(op));
      if refs != [] then
        if !host.has(op.tool) then Failure(UnknownTool)
        else
          match FirstBad(refs, index)
          case Some(bad) => Failure(BadReference(bad))
          case None => Success(Deferred(op.tool, RawArgs(op)))
      else
        match Substitute(RawArgs(op), index, [])
        case Failure(e) => Failure(Unresolved(e))
        case Success(literal) =>
          match ValidateOp(host, op.tool, literal)
          case Failure(reason) => Failure(reason)
          case Success(parsed) => Success(Ready(op.tool, parsed))
  }

  /** The issues of the ops from `index` on. */
  function Issues<S>(host: Host<S>, program: Program, index: nat): seq<Issue>
    decreases |program.ops| - index
  {
    if index >= |program.ops| then []
    else
      var op := program.ops[index];
      var rest := Issues(host, program, index + 1);
      match PlanOp(host, program.allowDestructive, index, op)
      case Failure(reason) => [Issue(index, op.tool, reason)] + rest
      case Success(_) => rest
  }

  /** A program all of whose ops pass phase 1. */
  predicate Valid<S>(host: Host<S>, program: Program) {
    forall i :: 0 <= i < |program.ops| ==> PlanOp(host, program.allowDestructive, i, program.ops[i]).Success?
  }

  function Plan<S>(host: Host<S>, program: Program): (plan: seq<Planned>)
    requires Valid(host, program)
    ensures |plan| == |program.ops|
  {
    seq(|program.ops|, i requires 0 <= i < |program.ops| =>
          PlanOp(host, program.allowDestructive, i, program.ops[i]).value)
  }

  lemma {:induction false} NoIssuesIffValid<S>(host: Host<S>, program: Program, index: nat)
    requires index <= |program.ops|
    ensures Issues(host, program, index) == []
            <==> forall i :: index <= i < |program.ops| ==>
              PlanOp(host, program.allowDestructive, i, program.ops[i]).Success?
    decreases |program.ops| - index
  {
    if index < |program.ops| {
      NoIssuesIffValid(host, program, index + 1);
    }
  }

  // ----- phase 2: execution -----

  /** The certificate an op result carries, or what is said when it carries none. */
  datatype Evidence =
    | Certificate(perception: Json)
    | ReturnedKeys(keys: seq<string>, hasImage: bool)
    | ImageOnly
    | FirstText(text: string)
    | NoText

  datatype Failed =
    | ResolutionFailed(error: ChainError)
    | SchemaFailed(reason: Reason)
    | HandlerThrew(message: string)
    | HandlerError(text: string)

  datatype LedgerEntry =
    | Ok(index: nat, tool: string, evidence: Evidence)
    | Error(index: nat, tool: string, error: Failed)

  /** The parsed body of a text block that is an object (or array). */
  function ObjectOf(block: Block): Option<Json> {
    if block.Text? && block.json.Some? && (block.json.value.Obj? || block.json.value.Arr?) then block.json else None
  }

  /** `firstJsonOf`: the first text block that parses to an object, the source side of chaining. */
  function FirstJson(content: seq<Block>): Option<Json> {
    if content == [] then None
    else match ObjectOf(content[0]) case Some(v) => Some(v) case None => FirstJson(content[1..])
  }

  function FirstPerception(content: seq<Block>): Option<Json> {
    if content == [] then None
    else
      match ObjectOf(content[0])
      case Some(v) => (match Field(v, "perception") case Some(p) => Some(p) case None => FirstPerception(content[1..]))
      case None => FirstPerception(content[1..])
  }

  function FirstTextOf(content: seq<Block>): Option<string> {
    if content == [] then None else if content[0].Text? then Some(content[0].text) else FirstTextOf(content[1..])
  }

  function ExtractCertificate(content: seq<Block>): Evidence {
    var hasImage := Image in content;
    match FirstPerception(content)
    case Some(p) => Certificate(p)
    case None =>
      match FirstJson(content)
      case Some(v) => ReturnedKeys(OwnKeys(v), hasImage)
      case None =>
        if hasImage then ImageOnly
        else
          match FirstTextOf(content)
          case Some(t) => if t == "" then NoText else FirstText(if |t| <= 120 then t else t[..120])
          case None => NoText
  }

  function ErrorTextOf(content: seq<Block>): string {
    match FirstTextOf(content) case Some(t) => t case None => "op failed with no error message"
  }

  datatype HandlerCall = HandlerCall(tool: string, args: Json)

  /**
   * A run so far: the ledger, the chaining source of each completed op, the op the run stopped at, the state of the
   * world, and the handler calls made.
   */
  datatype Run<S> = Run(ledger: seq<LedgerEntry>, results: Results, stoppedAt: Option<nat>, state: S,
                        calls: seq<HandlerCall>)

  function StartIn<S>(state: S): Run<S> {
    Run([], [], None, state, [])
  }

  function Stop<S>(run: Run<S>, tool: string, error: Failed): Run<S> {
    var i := |run.results|;
    run.(ledger := run.ledger + [Error(i, tool, error)], stoppedAt := Some(i))
  }

  /** The arguments op `index` runs with: validated already, or substituted and validated now. */
  function ArgsOf<S>(host: Host<S>, planned: Planned, index: nat, results: Results): Result<Json, Failed> {
    match planned
    case Ready(_, parsed) => Success(parsed)
    case Deferred(tool, raw) =>
      match Substitute(raw, index, results)
      case Failure(e) => Failure(ResolutionFailed(e))
      case Success(v) =>
        match ValidateOp(host, tool, v)
        case Failure(reason) => Failure(SchemaFailed(reason))
        case Success(parsed) => Success(parsed)
  }

  /** Dispatch the next op and enter what came back in the ledger. */
  function Dispatch<S>(host: Host<S>, run: Run<S>, tool: string, args: Json): Run<S> {
    var (state, outcome) := host.handle(run.state, tool, args);
    var called := run.(state := state, calls := run.calls + [HandlerCall(tool, args)]);
    match outcome
    case Threw(message) => Stop(called, tool, HandlerThrew(message))
    case Returned(result) =>
      if result.isError then Stop(called, tool, HandlerError(ErrorTextOf(result.content)))
      else
        called.(ledger := run.ledger + [Ok(|run.results|, tool, ExtractCertificate(result.content))],
                results := run.results + [FirstJson(result.content)])
  }

  function Step<S>(host: Host<S>, planned: Planned, run: Run<S>): Run<S> {
    match ArgsOf(host, planned, |run.results|, run.results)
    case Failure(error) => Stop(run, planned.tool, error)
    case Success(args) => Dispatch(host, run, planned.tool, args)
  }

  function Execute<S>(host: Host<S>, plan: seq<Planned>, run: Run<S>): Run<S>
    decreases |plan| - |run.results|
  {
    if run.stoppedAt.Some? || |run.results| >= |plan| then run
    else
      var next := Step(host, plan[|run.results|], run);
      if next.stoppedAt.Some? then next else Execute(host, plan, next)
  }

  // ----- the runner -----

  /** What the caller gets: an up-front refusal, or the ledger of a run. */
  datatype Report =
    | Refused(total: nat, errors: seq<Issue>)
    | Ran(ok: bool, completed: nat, total: nat, stoppedAt: Option<nat>, ops: seq<LedgerEntry>)

  /** The collected placeholders of `args ?? {}`. */
  method CollectRefs(op: ProgramOp) returns (refs: seq<Placeholder>)
    ensures refs == Refs(RawArgs(op))
  {
    var list := new PlaceholderList();
    CollectPlaceholders(RawArgs(op), list);
    refs := list.items;
    assert [] + Refs(RawArgs(op)) == Refs(RawArgs(op));
  }

  /** Phase 1 for one op: the guards, then the references of a deferred op or the schema of a literal one. */
  method ValidateOne<S>(host: Host<S>, allowDestructive: bool, i: nat, op: ProgramOp)
    returns (planned: Result<Planned, Reason>)
    ensures planned == PlanOp(host, allowDestructive, i, op)
  {
    if op.tool in META_OPS {
      return Failure(MetaTool);
    }
    if op.tool in DESTRUCTIVE_OPS && !allowDestructive {
      return Failure(Destructive);
    }
    var refs := CollectRefs(op);
    if |refs| > 0 {
      if !host.has(op.tool) {
        return Failure(UnknownTool);
      }
      var bad := FirstBad(refs, i);
      return if bad.Some? then Failure(BadReference(bad.value)) else Success(Deferred(op.tool, RawArgs(op)));
    }
    var literal := Substitute(RawArgs(op), i, []);
    if literal.Failure? {
      return Failure(Unresolved(literal.error));
    }
    var parsed := ValidateOp(host, op.tool, literal.value);
    return if parsed.Success? then Success(Ready(op.tool, parsed.value)) else Failure(parsed.error);
  }

  /** Phase 1: check every op, collecting the issues of all of them. */
  method ValidateAll<S>(host: Host<S>, program: Program) returns (issues: seq<Issue>, parsedOps: seq<Planned>)
    ensures issues == Issues(host, program, 0)
    ensures issues == [] ==> Valid(host, program) && parsedOps == Plan(host, program)
  {
    issues, parsedOps := [], [];
    var i := 0;
    while i < |program.ops|
      invariant 0 <= i <= |program.ops|
      invariant issues + Issues(host, program, i) == Issues(host, program, 0)
      invariant issues == [] ==> |parsedOps| == i && forall k :: 0 <= k < i ==>
                  PlanOp(host, program.allowDestructive, k, program.ops[k]) == Success(parsedOps[k])
    {
      var planned := ValidateOne(host, program.allowDestructive, i, program.ops[i]);
      if planned.Failure? {
        issues := issues + [Issue(i, program.ops[i].tool, planned.error)];
      } else {
        parsedOps := parsedOps + [planned.value];
      }
      i := i + 1;
    }
    NoIssuesIffValid(host, program, 0);
  }

  /** Run a program: refuse it whole on any issue, else execute in order and stop at the first failure. */
  method RunProgram<S>(host: Host<S>, program: Program, world: S)
    returns (report: Report, state: S, calls: seq<HandlerCall>)
    ensures Issues(host, program, 0) != [] ==>
              report == Refused(|program.ops|, Issues(host, program, 0)) && state == world && calls == []
    ensures Issues(host, program, 0) == [] ==>
              && Valid(host, program)
              && var r := Execute(host, Plan(host, program), StartIn(world));
                 && report == Ran(r.stoppedAt.None?, |r.results|, |program.ops|, r.stoppedAt, r.ledger)
                 && state == r.state && calls == r.calls
  {
    var issues, parsedOps := ValidateAll(host, program);
    state, calls := world, [];
    if issues != [] {
      return Refused(|program.ops|, issues), state, calls;
    }
    var ledger: seq<LedgerEntry> := [];
    var chainResults: Results := [];
    var completed := 0;
    var stoppedAt: Option<nat> := None;
    var i := 0;
    while i < |parsedOps|
      invariant 0 <= i <= |parsedOps| && completed == i == |chainResults| && stoppedAt.None?
      invariant Execute(host, parsedOps, Run(ledger, chainResults, None, state, calls))
                == Execute(host, parsedOps, StartIn(world))
      decreases |parsedOps| - i
    {
      ghost var before := Run(ledger, chainResults, stoppedAt, state, calls);
      var tool := parsedOps[i].tool;
      var parsed: Json;
      if parsedOps[i].Deferred? {
        var substituted := Substitute(parsedOps[i].raw, i, chainResults);
        if substituted.Failure? {
          ledger := ledger + [Error(i, tool, ResolutionFailed(substituted.error))];
          stoppedAt := Some(i);
          break;
        }
        var validated := ValidateOp(host, tool, substituted.value);
        if validated.Failure? {
          ledger := ledger + [Error(i, tool, SchemaFailed(validated.error))];
          stoppedAt := Some(i);
          break;
        }
        parsed := validated.value;
      } else {
        parsed := parsedOps[i].parsed;
      }
      var (after, outcome) := host.handle(state, tool, parsed);
      state, calls := after, calls + [HandlerCall(tool, parsed)];
      if outcome.Threw? {
        ledger := ledger + [Error(i, tool, HandlerThrew(outcome.message))];
        stoppedAt := Some(i);
        break;
      }
      if outcome.result.isError {
        ledger := ledger + [Error(i, tool, HandlerError(ErrorTextOf(outcome.result.content)))];
        stoppedAt := Some(i);
        break;
      }
      ledger := ledger + [Ok(i, tool, ExtractCertificate(outcome.result.content))];
      chainResults := chainResults + [FirstJson(outcome.result.content)];
      assert Run(ledger, chainResults, None, state, calls) == Step(host, parsedOps[i], before);
      completed := completed + 1;
      i := i + 1;
    }
    report := Ran(stoppedAt.None?, completed, |program.ops|, stoppedAt, ledger);
  }
}

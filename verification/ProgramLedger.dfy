/** What a program run guarantees: a ledger that matches the state, and chaining that means inlining. */
module ProgramLedger {
  import opened Wrappers
  import opened Json
  import opened Placeholders
  import opened CadProgram

  /** The state of the world after the handler calls, in order. */
  ghost function StateAfter<S>(host: Host<S>, world: S, calls: seq<HandlerCall>): S {
    if calls == [] then world
    else
      var n := |calls| - 1;
      host.handle(StateAfter(host, world, calls[..n]), calls[n].tool, calls[n].args).0
  }

  /** What the handler answered to call `i`. */
  ghost function OutcomeOf<S>(host: Host<S>, world: S, calls: seq<HandlerCall>, i: nat): OpOutcome
    requires i < |calls|
  {
    host.handle(StateAfter(host, world, calls[..i]), calls[i].tool, calls[i].args).1
  }

  /** Op `i` completed: its handler ran on its own arguments and succeeded, and the ledger and the results say so. */
  ghost predicate CompletedOp<S>(host: Host<S>, plan: seq<Planned>, world: S, run: Run<S>, i: nat)
    requires i < |plan| && i < |run.results| && i < |run.calls| && i < |run.ledger|
  {
    && run.calls[i].tool == plan[i].tool
    && ArgsOf(host, plan[i], i, run.results[..i]) == Success(run.calls[i].args)
    && match OutcomeOf(host, world, run.calls, i)
       case Threw(_) => false
       case Returned(r) =>
         && !r.isError && run.results[i] == FirstJson(r.content)
         && run.ledger[i] == Ok(i, plan[i].tool, ExtractCertificate(r.content))
  }

  /** The op the run stopped at: why, and whether its handler ran. */
  ghost predicate StoppedOp<S>(host: Host<S>, plan: seq<Planned>, world: S, run: Run<S>, i: nat)
    requires i < |plan| && i == |run.results| && i < |run.ledger|
  {
    match ArgsOf(host, plan[i], i, run.results)
    case Failure(error) => |run.calls| == i && run.ledger[i] == Error(i, plan[i].tool, error)
    case Success(args) =>
      && |run.calls| == i + 1 && run.calls[i] == HandlerCall(plan[i].tool, args)
      && match OutcomeOf(host, world, run.calls, i)
         case Threw(message) => run.ledger[i] == Error(i, plan[i].tool, HandlerThrew(message))
         case Returned(r) => r.isError && run.ledger[i] == Error(i, plan[i].tool, HandlerError(ErrorTextOf(r.content)))
  }

  /** The ledger is true of the run. */
  ghost predicate Truthful<S>(host: Host<S>, plan: seq<Planned>, world: S, run: Run<S>) {
    var n := |run.results|;
    && n <= |plan| && n <= |run.calls| && n <= |run.ledger|
    && (forall i :: 0 <= i < n ==> CompletedOp(host, plan, world, run, i))
    && run.state == StateAfter(host, world, run.calls)
    && match run.stoppedAt
       case None => |run.ledger| == |run.calls| == n
       case Some(k) => k == n < |plan| && |run.ledger| == n + 1 && StoppedOp(host, plan, world, run, n)
  }

  /** A completed op stays so while the run goes on. */
  lemma {:induction false} CompletedStays<S>(host: Host<S>, plan: seq<Planned>, world: S, run: Run<S>, next: Run<S>,
                                             i: nat)
    requires i < |plan| && i < |run.results| && i < |run.calls| && i < |run.ledger|
    requires run.results <= next.results && run.calls <= next.calls && run.ledger <= next.ledger
    requires CompletedOp(host, plan, world, run, i)
    ensures CompletedOp(host, plan, world, next, i)
  {
    assert next.calls[..i] == run.calls[..i] && next.results[..i] == run.results[..i];
  }

  lemma {:induction false} StepIsTruthful<S>(host: Host<S>, plan: seq<Planned>, world: S, run: Run<S>)
    requires Truthful(host, plan, world, run) && run.stoppedAt.None? && |run.results| < |plan|
    ensures Truthful(host, plan, world, Step(host, plan[|run.results|], run))
  {
    var n := |run.results|;
    var next := Step(host, plan[n], run);
    var args := ArgsOf(host, plan[n], n, run.results);
    assert run.calls <= next.calls;
    if args.Success? {
      assert next.calls[..n] == run.calls;
      assert next.calls[n] == HandlerCall(plan[n].tool, args.value);
    }
    forall i | 0 <= i < n ensures CompletedOp(host, plan, world, next, i) {
      CompletedStays(host, plan, world, run, next, i);
    }
    assert run.results[..n] == run.results;
    assert next.results[..n] == run.results;
  }

  /**
   * The ledger matches the state: completed ops come first, in index order and all ok; at most one failing entry
   * follows and names the op the run stopped at; the state is what exactly the recorded handler calls did.
   */
  lemma {:induction false} LedgerMatchesState<S>(host: Host<S>, plan: seq<Planned>, world: S, run: Run<S>)
    requires Truthful(host, plan, world, run)
    ensures var r := Execute(host, plan, run);
            Truthful(host, plan, world, r) && (r.stoppedAt.None? ==> |r.results| == |plan|)
    decreases |plan| - |run.results|
  {
    if run.stoppedAt.None? && |run.results| < |plan| {
      StepIsTruthful(host, plan, world, run);
      var next := Step(host, plan[|run.results|], run);
      if next.stoppedAt.None? {
        LedgerMatchesState(host, plan, world, next);
      }
    }
  }

  /** Every placeholder of a dispatched op read the result of an op that had completed before it. */
  lemma {:induction false} PlaceholdersReadCompletedOps<S>(host: Host<S>, program: Program, world: S, i: nat,
                                                           p: Placeholder)
    requires Valid(host, program)
    requires var r := Execute(host, Plan(host, program), StartIn(world)); i < |r.calls|
    requires i < |program.ops| && p in Refs(RawArgs(program.ops[i]))
    ensures var r := Execute(host, Plan(host, program), StartIn(world));
            var target := TargetOf(p, i);
            && 0 <= target < i && target < |r.results| && r.results[target].Some?
            && target < |r.ledger| && r.ledger[target].Ok?
  {
    var plan := Plan(host, program);
    var r := Execute(host, plan, StartIn(world));
    LedgerMatchesState(host, plan, world, StartIn(world));
    var raw := RawArgs(program.ops[i]);
    assert PlanOp(host, program.allowDestructive, i, program.ops[i]) == Success(plan[i]);
    assert Refs(raw) != [];
    assert plan[i] == Deferred(program.ops[i].tool, raw);
    if i < |r.results| {
      assert CompletedOp(host, plan, world, r, i);
    } else {
      assert StoppedOp(host, plan, world, r, i) && r.results[..i] == r.results;
    }
    SubstituteSucceedsIff(raw, i, r.results[..i]);
    assert Resolves(p, i, r.results[..i]);
    var target := TargetOf(p, i);
    assert CompletedOp(host, plan, world, r, target);
  }

  /**
   * Every call of a run is to a tool of the program that is no composition tool, and destructive only by permission.
   */
  lemma {:induction false} GuardedToolsNeverRun<S>(host: Host<S>, program: Program, world: S, i: nat)
    requires Valid(host, program) && i < |Execute(host, Plan(host, program), StartIn(world)).calls|
    ensures var tool := Execute(host, Plan(host, program), StartIn(world)).calls[i].tool;
            && i < |program.ops| && tool == program.ops[i].tool && host.has(tool)
            && tool !in META_OPS && (tool in DESTRUCTIVE_OPS ==> program.allowDestructive)
  {
    var plan := Plan(host, program);
    var r := Execute(host, plan, StartIn(world));
    LedgerMatchesState(host, plan, world, StartIn(world));
    if i < |r.results| {
      assert CompletedOp(host, plan, world, r, i);
    } else {
      assert StoppedOp(host, plan, world, r, i);
    }
    assert PlanOp(host, program.allowDestructive, i, program.ops[i]) == Success(plan[i]);
  }

  /** Op `x.index` fails up-front validation for the reason that `x` gives. */
  predicate FailsAs<S>(host: Host<S>, program: Program, x: Issue) {
    && x.index < |program.ops| && x.tool == program.ops[x.index].tool
    && PlanOp(host, program.allowDestructive, x.index, program.ops[x.index]) == Failure(x.reason)
  }

  lemma {:induction false} IssueReportedIff<S>(host: Host<S>, program: Program, from: nat, x: Issue)
    ensures x in Issues(host, program, from) <==> from <= x.index && FailsAs(host, program, x)
    decreases |program.ops| - from
  {
    if from < |program.ops| {
      IssueReportedIff(host, program, from + 1, x);
    }
  }

  ghost predicate IndicesRise(issues: seq<Issue>, from: nat) {
    && (forall k :: 0 <= k < |issues| ==> from <= issues[k].index)
    && (forall j, k :: 0 <= j < k < |issues| ==> issues[j].index < issues[k].index)
  }

  lemma {:induction false} IssuesRise<S>(host: Host<S>, program: Program, from: nat)
    ensures IndicesRise(Issues(host, program, from), from)
    decreases |program.ops| - from
  {
    if from < |program.ops| {
      IssuesRise(host, program, from + 1);
    }
  }

  /** Up-front validation reports exactly the ops that fail it, in index order. */
  lemma {:induction false} IssuesAreTheFailures<S>(host: Host<S>, program: Program)
    ensures forall x :: x in Issues(host, program, 0) <==> FailsAs(host, program, x)
    ensures IndicesRise(Issues(host, program, 0), 0)
  {
    IssuesRise(host, program, 0);
    forall x ensures x in Issues(host, program, 0) <==> FailsAs(host, program, x) {
      IssueReportedIff(host, program, 0, x);
    }
  }

  // ----- chaining means inlining -----

  /** The arguments op `i` really had: its placeholders replaced, its `$$` prefixes dropped. */
  ghost function Resolved(op: ProgramOp, i: nat, results: Results): Json {
    match Substitute(RawArgs(op), i, results) case Success(v) => v case Failure(_) => Null
  }

  /** The first `n` ops with their resolved arguments written out. */
  ghost function Inline(program: Program, results: Results, n: nat): Program
    requires n <= |program.ops| && n <= |results| + 1
  {
    program.(ops := seq(n, i requires 0 <= i < n =>
      ProgramOp(program.ops[i].tool, Some(Escape(Resolved(program.ops[i], i, results[..i]))))))
  }

  /**
   * An op that was dispatched passes up-front validation once its arguments are written out, with the same arguments.
   */
  lemma {:induction false} InlinedOpIsReady<S>(host: Host<S>, allow: bool, i: nat, op: ProgramOp, planned: Planned,
                                              results: Results, args: Json)
    requires PlanOp(host, allow, i, op) == Success(planned)
    requires ArgsOf(host, planned, i, results) == Success(args)
    ensures PlanOp(host, allow, i, ProgramOp(op.tool, Some(Escape(Resolved(op, i, results))))) ==
            Success(Ready(op.tool, args))
  {
    var raw := RawArgs(op);
    if Refs(raw) == [] {
      SubstituteReadsOnlyRefs(raw, i, [], results);
    }
    EscapeIsLiteral(Resolved(op, i, results), i, []);
  }

  /** Two planned ops at position `i` dispatch the same tool on the same arguments. */
  ghost predicate SameDispatch<S>(host: Host<S>, a: Planned, b: Planned, i: nat, results: Results) {
    && i <= |results| && a.tool == b.tool
    && ArgsOf(host, a, i, results[..i]).Success? && ArgsOf(host, b, i, results[..i]) == ArgsOf(host, a, i, results[..i])
  }

  /** Two plans whose next ops run on the same arguments take the same steps. */
  lemma {:induction false} SamePlansSameRuns<S>(host: Host<S>, plan: seq<Planned>, inlined: seq<Planned>, run: Run<S>,
                                                end: Run<S>)
    requires end == Execute(host, plan, run) && run.stoppedAt.None? && |run.results| <= |inlined| <= |plan|
    requires |run.calls| == |run.ledger| == |run.results|
    requires forall i :: 0 <= i < |inlined| ==> SameDispatch(host, plan[i], inlined[i], i, end.results)
    requires |inlined| == |end.calls|
    ensures var r := Execute(host, inlined, run);
            && r.calls == end.calls && r.state == end.state && r.results == end.results
            && |inlined| <= |end.ledger| && r.ledger == end.ledger[..|inlined|]
            && (|end.ledger| == |inlined| ==> r.stoppedAt == end.stoppedAt)
    decreases |plan| - |run.results|
  {
    ExecuteExtends(host, plan, run);
    var n := |run.results|;
    if n < |inlined| {
      assert end.results[..n] == run.results;
      assert SameDispatch(host, plan[n], inlined[n], n, end.results);
      var next := Step(host, plan[n], run);
      assert next == Step(host, inlined[n], run);
      if next.stoppedAt.None? {
        SamePlansSameRuns(host, plan, inlined, next, end);
      }
    } else if n < |plan| {
      StopsWithoutCall(host, plan, run);
    }
  }

  lemma {:induction false} ExecuteExtends<S>(host: Host<S>, plan: seq<Planned>, run: Run<S>)
    ensures var r := Execute(host, plan, run);
            run.results <= r.results && run.ledger <= r.ledger && run.calls <= r.calls
    decreases |plan| - |run.results|
  {
    if run.stoppedAt.None? && |run.results| < |plan| {
      var next := Step(host, plan[|run.results|], run);
      if next.stoppedAt.None? {
        ExecuteExtends(host, plan, next);
      }
    }
  }

  /** A run that makes no further call changes nothing but the ledger entry it stops with. */
  lemma {:induction false} StopsWithoutCall<S>(host: Host<S>, plan: seq<Planned>, run: Run<S>)
    requires run.stoppedAt.None? && |run.results| < |plan| && Execute(host, plan, run).calls == run.calls
    ensures var r := Execute(host, plan, run);
            && r.state == run.state && r.results == run.results && |r.ledger| == |run.ledger| + 1
  {
    var next := Step(host, plan[|run.results|], run);
    if next.stoppedAt.None? {
      ExecuteExtends(host, plan, next);
    }
  }

  /** Every dispatched op, written out, has no placeholder and is ready with the arguments it had. */
  lemma {:induction false} DispatchedOpInlines<S>(host: Host<S>, program: Program, world: S, i: nat)
    requires Valid(host, program) && i < |Execute(host, Plan(host, program), StartIn(world)).calls|
    ensures var plan := Plan(host, program);
            var r := Execute(host, plan, StartIn(world));
            && i < |program.ops| && i <= |r.results|
            && ArgsOf(host, plan[i], i, r.results[..i]) == Success(r.calls[i].args)
            && var op := ProgramOp(program.ops[i].tool, Some(Escape(Resolved(program.ops[i], i, r.results[..i]))));
               && PlanOp(host, program.allowDestructive, i, op) == Success(Ready(plan[i].tool, r.calls[i].args))
               && Refs(RawArgs(op)) == []
  {
    var plan := Plan(host, program);
    var r := Execute(host, plan, StartIn(world));
    LedgerMatchesState(host, plan, world, StartIn(world));
    if i < |r.results| {
      assert CompletedOp(host, plan, world, r, i);
    } else {
      assert StoppedOp(host, plan, world, r, i) && r.results[..i] == r.results;
    }
    assert PlanOp(host, program.allowDestructive, i, program.ops[i]) == Success(plan[i]);
    InlinedOpIsReady(host, program.allowDestructive, i, program.ops[i], plan[i], r.results[..i], r.calls[i].args);
    EscapeIsLiteral(Resolved(program.ops[i], i, r.results[..i]), i, []);
  }

  /**
   * Chaining means inlining. Write out, escaped, the arguments every dispatched op of a run really had: the resulting
   * program has no placeholders, passes up-front validation, and makes the same handler calls with the same ledger,
   * results and final state. For a run that completes, or that stops because a handler failed, this is the whole run.
   */
  lemma {:induction false} ChainingIsInlining<S>(host: Host<S>, program: Program, world: S)
    requires Valid(host, program)
    ensures var r := Execute(host, Plan(host, program), StartIn(world));
            var n := |r.calls|;
            && n <= |program.ops| && n <= |r.results| + 1
            && var inlined := Inline(program, r.results, n);
               && (forall op :: op in inlined.ops ==> Refs(RawArgs(op)) == [])
               && Issues(host, inlined, 0) == [] && Valid(host, inlined)
               && var r' := Execute(host, Plan(host, inlined), StartIn(world));
                  && r'.calls == r.calls && r'.state == r.state && r'.results == r.results
                  && n <= |r.ledger| && r'.ledger == r.ledger[..n]
                  && (r.stoppedAt.None? ==> n == |program.ops| && r' == r)
                  && (|r.ledger| == n ==> r' == r)
  {
    var plan := Plan(host, program);
    var r := Execute(host, plan, StartIn(world));
    LedgerMatchesState(host, plan, world, StartIn(world));
    var n := |r.calls|;
    var inlined := Inline(program, r.results, n);
    forall i | 0 <= i < n
      ensures i <= |r.results| && ArgsOf(host, plan[i], i, r.results[..i]) == Success(r.calls[i].args)
      ensures PlanOp(host, program.allowDestructive, i, inlined.ops[i]) == Success(Ready(plan[i].tool, r.calls[i].args))
      ensures Refs(RawArgs(inlined.ops[i])) == []
    {
      DispatchedOpInlines(host, program, world, i);
    }
    NoIssuesIffValid(host, inlined, 0);
    var again := Plan(host, inlined);
    forall i | 0 <= i < n ensures SameDispatch(host, plan[i], again[i], i, r.results) {
      assert PlanOp(host, program.allowDestructive, i, inlined.ops[i]) == Success(again[i]);
    }
    SamePlansSameRuns(host, plan, again, StartIn(world), r);
  }
}

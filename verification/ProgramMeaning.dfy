/** When an op of a program passes, what arguments it runs with, and what the ledger quotes of its result. */
module ProgramMeaning {
  import opened Wrappers
  import opened Json
  import opened Placeholders
  import opened CadProgram
  import opened PlaceholderMeaning

  // ----- up-front validation -----

  predicate Composes(tool: string) {
    tool == "find_tool" || tool == "describe_tool" || tool == "invoke" || tool == "workbench" || tool == "cad_program"
  }

  predicate Destroys(tool: string) {
    tool == "clear_parts" || tool == "delete_part"
  }

  /** The tool may stand in a program at all. */
  predicate Guarded(tool: string, allowDestructive: bool) {
    !Composes(tool) && (Destroys(tool) ==> allowDestructive)
  }

  /** The placeholder reads an op before op `index`. */
  predicate ReadsEarlier(p: Placeholder, index: nat) {
    match p.target
    case Prev => index > 0
    case Op(n) => n < index
  }

  /** `p` is the first placeholder in reading order that does not. */
  ghost predicate FirstLate(refs: seq<Placeholder>, index: nat, p: Placeholder) {
    exists i: nat :: i < |refs| && refs[i] == p && !ReadsEarlier(p, index) &&
                     forall j: nat :: j < i ==> ReadsEarlier(refs[j], index)
  }

  lemma {:induction false} FirstBadIs(refs: seq<Placeholder>, index: nat, p: Placeholder)
    ensures FirstBad(refs, index) == Some(p) <==> FirstLate(refs, index, p)
    decreases |refs|
  {
    if refs != [] {
      var rest := refs[1..];
      FirstBadIs(rest, index, p);
      if ReadsEarlier(refs[0], index) && FirstLate(rest, index, p) {
        var i: nat :| i < |rest| && rest[i] == p && forall j: nat :: j < i ==> ReadsEarlier(rest[j], index);
        assert refs[i + 1] == p && forall j: nat :: 0 < j < i + 1 ==> refs[j] == rest[j - 1];
      }
      if FirstLate(refs, index, p) {
        var i: nat :| i < |refs| && refs[i] == p && !ReadsEarlier(p, index) &&
                      forall j: nat :: j < i ==> ReadsEarlier(refs[j], index);
        if i > 0 {
          assert rest[i - 1] == p && forall j: nat :: j < i - 1 ==> rest[j] == refs[j + 1];
        }
      }
    }
  }

  /** The schema of an existing tool accepts `v` as `parsed`. */
  predicate Accepts<S>(host: Host<S>, tool: string, v: Json, parsed: Json) {
    host.has(tool) && host.schema(tool, v) == Success(parsed)
  }

  lemma {:induction false} GuardsAre(tool: string)
    ensures tool in META_OPS <==> Composes(tool)
    ensures tool in DESTRUCTIVE_OPS <==> Destroys(tool)
  {
  }

  /** An op without arguments is the op with an empty object; other arguments stand for themselves. */
  lemma {:induction false} AbsentArgsAreEmpty<S>(host: Host<S>, allow: bool, index: nat, tool: string, args: Json)
    ensures PlanOp(host, allow, index, ProgramOp(tool, None)) ==
            PlanOp(host, allow, index, ProgramOp(tool, Some(Obj([]))))
    ensures RawArgs(ProgramOp(tool, None)) == Obj([]) && RawArgs(ProgramOp(tool, Some(args))) == args
  {
    GuardsAre(tool);
  }

  /** An op with placeholders passes exactly when it is guarded, its tool exists and all of them read earlier ops. */
  lemma {:induction false} DeferredWhen<S>(host: Host<S>, allow: bool, index: nat, op: ProgramOp, planned: Planned)
    requires Refs(RawArgs(op)) != []
    ensures PlanOp(host, allow, index, op) == Success(planned) <==>
            && Guarded(op.tool, allow) && host.has(op.tool) && planned == Deferred(op.tool, RawArgs(op))
            && forall p :: p in Refs(RawArgs(op)) ==> ReadsEarlier(p, index)
  {
    GuardsAre(op.tool);
  }

  /** An op without them passes exactly when it is guarded and the schema accepts its arguments, unescaped. */
  lemma {:induction false} ReadyWhen<S>(host: Host<S>, allow: bool, index: nat, op: ProgramOp, planned: Planned)
    requires Refs(RawArgs(op)) == []
    ensures PlanOp(host, allow, index, op) == Success(planned) <==>
            && Guarded(op.tool, allow)
            && exists w, parsed :: Replaces(RawArgs(op), w, index, []) && Accepts(host, op.tool, w, parsed) &&
                                   planned == Ready(op.tool, parsed)
  {
    GuardsAre(op.tool);
    var r := Substitute(RawArgs(op), index, []);
    if r.Success? {
      SubstituteMeans(RawArgs(op), r.value, index, []);
    }
    forall w | Replaces(RawArgs(op), w, index, []) ensures r == Success(w) {
      SubstituteMeans(RawArgs(op), w, index, []);
    }
  }

  /** Why an op fails: the guards first, then its tool and references or its arguments. */
  lemma {:induction false} FailsWhen<S>(host: Host<S>, allow: bool, index: nat, op: ProgramOp)
    ensures var r, refs := PlanOp(host, allow, index, op), Refs(RawArgs(op));
            && (r == Failure(MetaTool) <==> Composes(op.tool))
            && (r == Failure(Destructive) <==> Destroys(op.tool) && !allow)
            && (r == Failure(UnknownTool) <==> Guarded(op.tool, allow) && !host.has(op.tool))
            && (forall p :: r == Failure(BadReference(p)) <==>
                  Guarded(op.tool, allow) && host.has(op.tool) && FirstLate(refs, index, p))
            && (forall m :: r == Failure(InvalidArgs(m)) ==> refs == [] && RejectsLiteral(host, op, index, m))
            && !(r.Failure? && r.error.Unresolved?)
  {
    var refs := Refs(RawArgs(op));
    GuardsAre(op.tool);
    forall p ensures FirstBad(refs, index) == Some(p) <==> FirstLate(refs, index, p) {
      FirstBadIs(refs, index, p);
    }
    if refs == [] {
      SubstituteSucceedsIff(RawArgs(op), index, []);
      SubstituteMeans(RawArgs(op), Substitute(RawArgs(op), index, []).value, index, []);
    }
  }

  /** The schema rejects the unescaped arguments. */
  ghost predicate RejectsLiteral<S>(host: Host<S>, op: ProgramOp, index: nat, message: string) {
    exists w :: Replaces(RawArgs(op), w, index, []) && host.schema(op.tool, w) == Failure(message)
  }

  // ----- execution -----

  /** A deferred op runs with what the schema makes of its arguments once every placeholder is replaced. */
  lemma {:induction false} DeferredArgs<S>(host: Host<S>, tool: string, raw: Json, index: nat, results: Results,
                                           args: Json)
    ensures ArgsOf(host, Deferred(tool, raw), index, results) == Success(args) <==>
            exists w :: Replaces(raw, w, index, results) && Accepts(host, tool, w, args)
  {
    var r := Substitute(raw, index, results);
    if r.Success? {
      SubstituteMeans(raw, r.value, index, results);
    }
    forall w | Replaces(raw, w, index, results) ensures r == Success(w) {
      SubstituteMeans(raw, w, index, results);
    }
  }

  /** And fails to run, before its handler, when a placeholder names nothing or the schema rejects the rest. */
  lemma {:induction false} DeferredFails<S>(host: Host<S>, tool: string, raw: Json, index: nat, results: Results)
    ensures var r := ArgsOf(host, Deferred(tool, raw), index, results);
            r.Failure? ==>
              match r.error
              case ResolutionFailed(e) => FirstFailure(Refs(raw), index, results, e)
              case SchemaFailed(InvalidArgs(m)) =>
                host.has(tool) && exists w :: Replaces(raw, w, index, results) && host.schema(tool, w) == Failure(m)
              case SchemaFailed(UnknownTool) => !host.has(tool)
              case _ => false
  {
    SubstituteFails(raw, index, results);
    var r := Substitute(raw, index, results);
    if r.Success? {
      SubstituteMeans(raw, r.value, index, results);
    }
  }

  // ----- what the ledger quotes -----

  /** Block `i` is text that parses to the object or array `v`. */
  predicate Holds(content: seq<Block>, i: nat, v: Json) {
    i < |content| && content[i].Text? && content[i].json == Some(v) && (v.Obj? || v.Arr?)
  }

  predicate HoldsSome(content: seq<Block>, i: nat) {
    i < |content| && content[i].Text? && content[i].json.Some? && Holds(content, i, content[i].json.value)
  }

  /** The first block that holds an object or array holds `v`. */
  ghost predicate FirstHeld(content: seq<Block>, v: Json) {
    exists i: nat :: Holds(content, i, v) && forall j: nat :: j < i ==> !HoldsSome(content, j)
  }

  /** What later ops read of a result: the first text block that parses to an object or array. */
  lemma {:induction false} FirstJsonIs(content: seq<Block>, v: Json)
    ensures FirstJson(content) == Some(v) <==> FirstHeld(content, v)
    decreases |content|
  {
    if content != [] {
      var rest := content[1..];
      FirstJsonIs(rest, v);
      if !HoldsSome(content, 0) && FirstHeld(rest, v) {
        var i: nat :| Holds(rest, i, v) && forall j: nat :: j < i ==> !HoldsSome(rest, j);
        forall j: nat | j < i + 1 ensures !HoldsSome(content, j) {
          assert j > 0 ==> !HoldsSome(rest, j - 1);
        }
        assert Holds(content, i + 1, v);
      }
      if FirstHeld(content, v) {
        var i: nat :| Holds(content, i, v) && forall j: nat :: j < i ==> !HoldsSome(content, j);
        if i > 0 {
          assert !HoldsSome(content, 0) && Holds(rest, i - 1, v);
          forall j: nat | j < i - 1 ensures !HoldsSome(rest, j) {
            assert !HoldsSome(content, j + 1);
          }
        }
      }
    }
  }

  /** Block `i` holds an object with the perception `p`. */
  ghost predicate Perceives(content: seq<Block>, i: nat, p: Json) {
    HoldsSome(content, i) && content[i].json.value.Obj? && HasField(content[i].json.value, "perception", p)
  }

  ghost predicate FirstPerceived(content: seq<Block>, p: Json) {
    exists i: nat :: Perceives(content, i, p) && forall j: nat, q :: j < i ==> !Perceives(content, j, q)
  }

  lemma {:induction false} PerceivesFirst(content: seq<Block>, p: Json)
    requires content != []
    ensures Perceives(content, 0, p) <==>
            ObjectOf(content[0]).Some? && Field(ObjectOf(content[0]).value, "perception") == Some(p)
  {
    if HoldsSome(content, 0) && content[0].json.value.Obj? {
      LookupIs(content[0].json.value.members, "perception", p);
    }
  }

  lemma {:induction false} FirstPerceptionIs(content: seq<Block>, p: Json)
    ensures FirstPerception(content) == Some(p) <==> FirstPerceived(content, p)
    decreases |content|
  {
    if content != [] {
      var rest := content[1..];
      FirstPerceptionIs(rest, p);
      forall q ensures Perceives(content, 0, q) <==>
                       ObjectOf(content[0]).Some? && Field(ObjectOf(content[0]).value, "perception") == Some(q)
      {
        PerceivesFirst(content, q);
      }
      if FirstPerceived(rest, p) && forall q :: !Perceives(content, 0, q) {
        var i: nat :| Perceives(rest, i, p) && forall j: nat, q :: j < i ==> !Perceives(rest, j, q);
        forall j: nat, q | j < i + 1 ensures !Perceives(content, j, q) {
          assert j > 0 ==> !Perceives(rest, j - 1, q);
        }
        assert Perceives(content, i + 1, p);
      }
      if FirstPerceived(content, p) {
        var i: nat :| Perceives(content, i, p) && forall j: nat, q :: j < i ==> !Perceives(content, j, q);
        if i > 0 {
          assert forall q :: !Perceives(content, 0, q);
          assert Perceives(rest, i - 1, p);
          forall j: nat, q | j < i - 1 ensures !Perceives(rest, j, q) {
            assert !Perceives(content, j + 1, q);
          }
        }
      }
    }
  }

  /** The text of the first text block. */
  ghost predicate FirstTextIs(content: seq<Block>, text: string) {
    exists i: nat :: i < |content| && content[i].Text? && content[i].text == text &&
                     forall j: nat :: j < i ==> !content[j].Text?
  }

  lemma {:induction false} FirstTextOfIs(content: seq<Block>, text: string)
    ensures FirstTextOf(content) == Some(text) <==> FirstTextIs(content, text)
    decreases |content|
  {
    if content != [] {
      var rest := content[1..];
      FirstTextOfIs(rest, text);
      if !content[0].Text? && FirstTextIs(rest, text) {
        var i: nat :| i < |rest| && rest[i].Text? && rest[i].text == text && forall j: nat :: j < i ==> !rest[j].Text?;
        assert content[i + 1].Text? && forall j: nat :: 0 < j < i + 1 ==> content[j] == rest[j - 1];
      }
      if FirstTextIs(content, text) {
        var i: nat :| i < |content| && content[i].Text? && content[i].text == text &&
                      forall j: nat :: j < i ==> !content[j].Text?;
        if i > 0 {
          assert rest[i - 1].Text? && forall j: nat :: j < i - 1 ==> rest[j] == content[j + 1];
        }
      }
    }
  }

  /**
   * The ledger quotes the first perception; without one it names keys, an image or text, in that order, and no verdict.
   */
  lemma {:induction false} CertificateIs(content: seq<Block>)
    ensures var e := ExtractCertificate(content);
            && (forall p :: e == Certificate(p) <==> FirstPerceived(content, p))
            && (e.ReturnedKeys? ==>
                  && (exists v :: FirstHeld(content, v) && Lists(v, e.keys))
                  && (e.hasImage <==> exists i :: 0 <= i < |content| && content[i] == Image))
            && (e.ReturnedKeys? || e.Certificate? <==> exists v :: FirstHeld(content, v))
            && (e == ImageOnly ==> exists i :: 0 <= i < |content| && content[i] == Image)
            && (e.FirstText? ==> exists t :: FirstTextIs(content, t) && t != "" && e.text <= t &&
                                             |e.text| == if |t| < 120 then |t| else 120)
            && (e.FirstText? || e == NoText ==> Image !in content)
            && (e == NoText ==> forall t :: FirstTextIs(content, t) ==> t == "")
  {
    forall p ensures FirstPerception(content) == Some(p) <==> FirstPerceived(content, p) {
      FirstPerceptionIs(content, p);
    }
    forall v ensures FirstJson(content) == Some(v) <==> FirstHeld(content, v) {
      FirstJsonIs(content, v);
    }
    forall t ensures FirstTextOf(content) == Some(t) <==> FirstTextIs(content, t) {
      FirstTextOfIs(content, t);
    }
    if FirstJson(content).Some? {
      OwnKeysList(FirstJson(content).value);
    }
    PerceptionIsHeld(content);
  }

  lemma {:induction false} PerceptionIsHeld(content: seq<Block>)
    ensures FirstPerception(content).Some? ==> FirstJson(content).Some?
    decreases |content|
  {
    if content != [] {
      PerceptionIsHeld(content[1..]);
    }
  }

  /** A failed op quotes the first text of its result. */
  lemma {:induction false} ErrorTextIs(content: seq<Block>)
    ensures forall t :: FirstTextIs(content, t) ==> ErrorTextOf(content) == t
    ensures (forall i :: 0 <= i < |content| ==> !content[i].Text?) ==>
            ErrorTextOf(content) == "op failed with no error message"
  {
    forall t ensures FirstTextOf(content) == Some(t) <==> FirstTextIs(content, t) {
      FirstTextOfIs(content, t);
    }
    if FirstTextOf(content).Some? {
      assert FirstTextIs(content, FirstTextOf(content).value);
    }
  }
}

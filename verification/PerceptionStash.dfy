/**
 * The stash that carries a mutating response's perception block to the next `perceive`, and with it the reports of
 * lost operations, each of which the backend states once.
 */
module PerceptionStash {
  import opened Wrappers
  import opened Json

  // ----- reading a response -----

  /** `a ?? b`, where `None` is `undefined`. */
  function Coalesce(a: Option<Json>, b: Option<Json>): Option<Json> {
    if a == None || a == Some(Null) then b else a
  }

  predicate Nullish(v: Option<Json>) {
    v == None || v == Some(Null)
  }

  /** `r.perception?.key` */
  function Nested(r: Json, key: string): Option<Json> {
    match Field(r, "perception")
    case Some(p) => Field(p, key)
    case None => None
  }

  /** `r.key ?? r.perception?.key` */
  function Either(r: Json, key: string): Option<Json> {
    Coalesce(Field(r, key), Nested(r, key))
  }

  /** The report fields of a perception block, the part its response named, and whether its certificate rode with it. */
  datatype Stash = Stash(id: Option<Json>, certified: bool, failures: Option<Json>, unlisted: Option<Json>)

  predicate HasBlock(r: Json) {
    || !Nullish(Either(r, "cert")) || Either(r, "sound") != None || Either(r, "certificate") != None
    || Coalesce(Field(r, "brep_valid"), Coalesce(Nested(r, "brep_valid"), Either(r, "valid"))) != None
  }

  predicate Certified(r: Json) {
    && (match Either(r, "cert") case Some(Obj(_)) => true case Some(Arr(_)) => true case _ => false)
    && Either(r, "certificate") != Some(Str("not_run"))
  }

  function Defined(v: Option<Json>): Option<Json> {
    if Nullish(v) then None else v
  }

  /** `perceptionFromBody`, with the id the stash keeps beside it. */
  function PerceptionFromBody(r: Json): Option<Stash> {
    if !HasBlock(r) then None
    else Some(Stash(Defined(Coalesce(Field(r, "solid_id"), Field(r, "id"))), Certified(r),
                    Defined(Either(r, "recording_failures")), Defined(Either(r, "recording_failures_unlisted"))))
  }

  function Items(v: Option<Json>): seq<Json> {
    match v
    case Some(Arr(items)) => items
    case _ => []
  }

  /** A sum of numbers, printed again. `num` reads a printed number and `show` prints one. */
  datatype Numbers = Numbers(num: string -> int, show: int -> string)

  function Amount(v: Option<Json>, n: Numbers): int {
    match v
    case Some(Num(digits)) => n.num(digits)
    case _ => 0
  }

  // ----- the stash -----

  /** What an unconsumed block leaves on its replacement. */
  function Carry(prev: Option<Stash>, next: Stash, n: Numbers): Stash {
    if prev.None? then next
    else
      var p := prev.value;
      var both := Some(Arr(Items(p.failures) + Items(next.failures)));
      var listed := if Items(p.failures) != [] then next.(failures := both) else next;
      if p.unlisted.Some? && p.unlisted.value.Num? then
        listed.(unlisted := Some(Num(n.show(Amount(p.unlisted, n) + Amount(next.unlisted, n)))))
      else listed
  }

  /** A successful response, parsed; only one to a call other than GET can touch the stash. */
  function AfterResponse(stash: Option<Stash>, get: bool, body: Json, n: Numbers): Option<Stash> {
    if get then stash
    else
      match PerceptionFromBody(body)
      case Some(block) => Some(Carry(stash, block, n))
      case None => stash
  }

  predicate Matches(stash: Option<Stash>, part: string) {
    stash.Some? && (stash.value.id == None || stash.value.id == Some(Num(part)))
  }

  /** The reports a perception hands to the agent. */
  datatype Reports = Reports(failures: Option<Json>, unlisted: Option<Json>)

  /**
   * `perceive`: the stash left behind, and what it returns. `fetched` is whether the fallback GET succeeds, if it is
   * made.
   */
  function Perceive(stash: Option<Stash>, part: Option<string>, enabled: bool, fetched: bool)
    : (Option<Stash>, Option<Reports>)
  {
    if part == None || !enabled then (stash, None)
    else if Matches(stash, part.value) then
      var held := Reports(stash.value.failures, stash.value.unlisted);
      (None, if stash.value.certified || fetched then Some(held) else None)
    else (stash, if fetched then Some(Reports(None, None)) else None)
  }

  /** The module's variable, and the stretches that use it. */
  class Core {
    var lastEmbeddedPerception: Option<Stash>

    method ApiResponse(get: bool, body: Json, n: Numbers)
      modifies this
      ensures lastEmbeddedPerception == AfterResponse(old(lastEmbeddedPerception), get, body, n)
    {
      if get {
        return;
      }
      var embedded := PerceptionFromBody(body);
      if embedded == None {
        return;
      }
      var block := embedded.value;
      if lastEmbeddedPerception.Some? {
        var prev := lastEmbeddedPerception.value;
        if Items(prev.failures) != [] {
          block := block.(failures := Some(Arr(Items(prev.failures) + Items(block.failures))));
        }
        if prev.unlisted.Some? && prev.unlisted.value.Num? {
          block := block.(unlisted := Some(Num(n.show(Amount(prev.unlisted, n) + Amount(block.unlisted, n)))));
        }
      }
      lastEmbeddedPerception := Some(block);
    }

    method PerceivePart(part: Option<string>, enabled: bool, fetched: bool) returns (reports: Option<Reports>)
      modifies this
      ensures (lastEmbeddedPerception, reports) == Perceive(old(lastEmbeddedPerception), part, enabled, fetched)
    {
      if part == None || !enabled {
        return None;
      }
      var stashed: Option<Stash> := None;
      if Matches(lastEmbeddedPerception, part.value) {
        stashed := lastEmbeddedPerception;
        lastEmbeddedPerception := None;
      }
      if stashed.Some? && stashed.value.certified {
        return Some(Reports(stashed.value.failures, stashed.value.unlisted));
      }
      if !fetched {
        return None;
      }
      return if stashed.Some? then Some(Reports(stashed.value.failures, stashed.value.unlisted))
        else Some(Reports(None, None));
    }
  }

  // ----- conservation -----

  /** The stash, with everything that has arrived in responses and everything handed to the agent. */
  datatype System = System(stash: Option<Stash>, arrived: seq<Json>, arrivedUnlisted: int,
                           delivered: seq<Json>, deliveredUnlisted: int)

  datatype Event =
    | Response(get: bool, body: Json)
    | Perceived(part: Option<string>, enabled: bool, fetched: bool)

  /** The reports a response states, wherever it states them. */
  function Stated(e: Event): Reports {
    if e.Response? && !e.get then
      Reports(Defined(Either(e.body, "recording_failures")), Defined(Either(e.body, "recording_failures_unlisted")))
    else Reports(None, None)
  }

  function Step(s: System, e: Event, n: Numbers): System {
    match e
    case Response(get, body) =>
      System(AfterResponse(s.stash, get, body, n),
             s.arrived + Items(Stated(e).failures), s.arrivedUnlisted + Amount(Stated(e).unlisted, n),
             s.delivered, s.deliveredUnlisted)
    case Perceived(part, enabled, fetched) =>
      var (stash, reports) := Perceive(s.stash, part, enabled, fetched);
      var got := if reports.Some? then reports.value else Reports(None, None);
      s.(stash := stash, delivered := s.delivered + Items(got.failures),
         deliveredUnlisted := s.deliveredUnlisted + Amount(got.unlisted, n))
  }

  function Run(s: System, events: seq<Event>, n: Numbers): System
    decreases |events|
  {
    if events == [] then s else Run(Step(s, events[0], n), events[1..], n)
  }

  function Held(stash: Option<Stash>): seq<Json> {
    if stash.Some? then Items(stash.value.failures) else []
  }

  function HeldUnlisted(stash: Option<Stash>, n: Numbers): int {
    if stash.Some? then Amount(stash.value.unlisted, n) else 0
  }

  /** Delivered reports followed by the stashed ones are all that arrived, in order, and the unlisted counts add up. */
  ghost predicate Conserved(s: System, n: Numbers) {
    && s.delivered + Held(s.stash) == s.arrived
    && s.deliveredUnlisted + HeldUnlisted(s.stash, n) == s.arrivedUnlisted
  }

  /** Printing a number and reading it again gives the number. */
  ghost predicate PrintsNumbers(n: Numbers) {
    forall x :: n.num(n.show(x)) == x
  }

  predicate Empty(r: Reports, n: Numbers) {
    Items(r.failures) == [] && Amount(r.unlisted, n) == 0
  }

  /**
   * The fallback GET fails after the call has consumed an uncertified block that carries reports, or a response
   * states reports but no perception block.
   */
  predicate Loses(s: System, e: Event, n: Numbers) {
    match e
    case Response(get, body) => !get && !HasBlock(body) && !Empty(Stated(e), n)
    case Perceived(part, enabled, fetched) =>
      && part.Some? && enabled && Matches(s.stash, part.value) && !s.stash.value.certified && !fetched
      && !Empty(Reports(s.stash.value.failures, s.stash.value.unlisted), n)
  }

  /** Replacing a stash keeps what it held in front of what is new. */
  lemma {:induction false} CarryKeeps(prev: Option<Stash>, next: Stash, n: Numbers)
    requires PrintsNumbers(n)
    ensures Held(Some(Carry(prev, next, n))) == Held(prev) + Items(next.failures)
    ensures HeldUnlisted(Some(Carry(prev, next, n)), n) == HeldUnlisted(prev, n) + Amount(next.unlisted, n)
  {
  }

  lemma {:induction false} AppendSame(a: seq<Json>, h: seq<Json>, x: seq<Json>)
    ensures a + (h + x) == (a + h) + x
    ensures a + h + x == a + h <==> x == []
    ensures a == a + h <==> h == []
  {
    assert |a + h + x| == |a| + |h| + |x|;
  }

  lemma {:induction false} ResponseConserves(s: System, get: bool, body: Json, n: Numbers)
    requires PrintsNumbers(n) && Conserved(s, n)
    ensures Conserved(Step(s, Response(get, body), n), n) <==> !Loses(s, Response(get, body), n)
  {
    var e := Response(get, body);
    AppendSame(s.delivered, Held(s.stash), Items(Stated(e).failures));
    if !get && HasBlock(body) {
      CarryKeeps(s.stash, PerceptionFromBody(body).value, n);
    }
  }

  lemma {:induction false} PerceivedConserves(s: System, part: Option<string>, enabled: bool, fetched: bool, n: Numbers)
    requires Conserved(s, n)
    ensures Conserved(Step(s, Perceived(part, enabled, fetched), n), n) <==>
            !Loses(s, Perceived(part, enabled, fetched), n)
  {
    AppendSame(s.delivered, Held(s.stash), []);
  }

  /** A step conserves the reports exactly when it does not lose any. */
  lemma {:induction false} StepConserves(s: System, e: Event, n: Numbers)
    requires PrintsNumbers(n) && Conserved(s, n)
    ensures Conserved(Step(s, e, n), n) <==> !Loses(s, e, n)
  {
    match e
    case Response(get, body) => ResponseConserves(s, get, body, n);
    case Perceived(part, enabled, fetched) => PerceivedConserves(s, part, enabled, fetched, n);
  }

  ghost predicate NothingLost(s: System, events: seq<Event>, n: Numbers)
    decreases |events|
  {
    events == [] || (!Loses(s, events[0], n) && NothingLost(Step(s, events[0], n), events[1..], n))
  }

  lemma {:induction false} RunConserves(s: System, events: seq<Event>, n: Numbers)
    requires PrintsNumbers(n) && Conserved(s, n) && NothingLost(s, events, n)
    ensures Conserved(Run(s, events, n), n)
    decreases |events|
  {
    if events != [] {
      StepConserves(s, events[0], n);
      RunConserves(Step(s, events[0], n), events[1..], n);
    }
  }

  const START := System(None, [], 0, [], 0)

  /**
   * Over every run of responses and perceptions that loses none, each report is delivered once, in order, or still
   * held.
   */
  lemma {:induction false} ReportsConserved(events: seq<Event>, n: Numbers)
    requires PrintsNumbers(n) && NothingLost(START, events, n)
    ensures var s := Run(START, events, n);
            && s.delivered + Held(s.stash) == s.arrived
            && s.deliveredUnlisted + HeldUnlisted(s.stash, n) == s.arrivedUnlisted
  {
    RunConserves(START, events, n);
  }
}

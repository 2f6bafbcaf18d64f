/** What is read off a response, what the stash then holds, and for which part its reports are handed over. */
module PerceptionMeaning {
  import opened Wrappers
  import opened Json
  import opened PerceptionStash

  // ----- reading a response -----

  /** Neither missing nor null. */
  predicate Real(v: Option<Json>) {
    v.Some? && v.value != Null
  }

  /** The member `key` of the member `perception`. */
  function Inner(r: Json, key: string): Option<Json> {
    if r.Obj? && Lookup(r.members, "perception").Some? then Field(Lookup(r.members, "perception").value, key) else None
  }

  /** A value stated at the top counts before one stated inside; null counts as not stated at the top. */
  lemma {:induction false} EitherIs(r: Json, key: string)
    ensures Real(Field(r, key)) ==> Either(r, key) == Field(r, key)
    ensures !Real(Field(r, key)) ==> Either(r, key) == Inner(r, key)
  {
  }

  predicate StatesCert(r: Json) {
    Real(Field(r, "cert")) || Real(Inner(r, "cert"))
  }

  predicate StatesVerdict(r: Json) {
    || Real(Field(r, "sound")) || Inner(r, "sound").Some?
    || Real(Field(r, "certificate")) || Inner(r, "certificate").Some?
    || Real(Field(r, "brep_valid")) || Real(Inner(r, "brep_valid"))
    || Real(Field(r, "valid")) || Inner(r, "valid").Some?
  }

  /** The certificate, and the mark that it was not run. */
  function CertOf(r: Json): Option<Json> {
    if Real(Field(r, "cert")) then Field(r, "cert") else Inner(r, "cert")
  }

  function MarkOf(r: Json): Option<Json> {
    if Real(Field(r, "certificate")) then Field(r, "certificate") else Inner(r, "certificate")
  }

  /** The part a response names. */
  function NameOf(r: Json): Option<Json> {
    if Real(Field(r, "solid_id")) then Field(r, "solid_id")
    else if Real(Field(r, "id")) then Field(r, "id")
    else None
  }

  function StatedAs(r: Json, key: string): Option<Json> {
    if Real(Field(r, key)) then Field(r, key) else if Real(Inner(r, key)) then Inner(r, key) else None
  }

  /**
   * A response carries a block exactly when it states a certificate or a verdict. The block is certified exactly when
   * the certificate is an object (or an array) that is not marked as not run, and it keeps the name and the reports.
   */
  lemma {:induction false} BlockIs(r: Json)
    ensures var block := PerceptionFromBody(r);
            if StatesCert(r) || StatesVerdict(r) then
              && block.Some? && block.value.id == NameOf(r)
              && (block.value.certified <==>
                    && CertOf(r).Some? && (CertOf(r).value.Obj? || CertOf(r).value.Arr?)
                    && MarkOf(r) != Some(Str("not_run")))
              && block.value.failures == StatedAs(r, "recording_failures")
              && block.value.unlisted == StatedAs(r, "recording_failures_unlisted")
            else block == None
  {
    EitherIs(r, "cert");
    EitherIs(r, "sound");
    EitherIs(r, "certificate");
    EitherIs(r, "valid");
    EitherIs(r, "recording_failures");
    EitherIs(r, "recording_failures_unlisted");
    assert Nested(r, "brep_valid") == Inner(r, "brep_valid");
  }

  // ----- the stash -----

  /** A list is as many reports as it has items, and anything else is none; a count that is no number adds nothing. */
  lemma {:induction false} ReportsAre(v: Option<Json>, n: Numbers)
    ensures (exists xs :: v == Some(Arr(xs)) && Items(v) == xs) || ((forall xs :: v != Some(Arr(xs))) && Items(v) == [])
    ensures if v.Some? && v.value.Num? then Amount(v, n) == n.num(v.value.digits) else Amount(v, n) == 0
  {
    if v.Some? && v.value.Arr? {
      assert v == Some(Arr(v.value.items));
    }
  }

  /** The reports of a block behind those of the block it replaces; without any there, they stay as they were stated. */
  lemma {:induction false} CarriedIs(prev: Stash, next: Stash, n: Numbers)
    ensures var r := Carry(Some(prev), next, n);
            && r.id == next.id && r.certified == next.certified
            && r.failures == (if prev.failures.Some? && prev.failures.value.Arr? && prev.failures.value.items != []
                              then Some(Arr(prev.failures.value.items + Items(next.failures))) else next.failures)
            && r.unlisted == (if prev.unlisted.Some? && prev.unlisted.value.Num?
                              then Some(Num(n.show(n.num(prev.unlisted.value.digits) + Amount(next.unlisted, n))))
                              else next.unlisted)
    ensures Carry(None, next, n) == next
  {
  }

  /** Only a response that carries a block to a call other than GET touches the stash, and it always replaces it. */
  lemma {:induction false} ResponseIs(stash: Option<Stash>, get: bool, r: Json, n: Numbers)
    ensures var after := AfterResponse(stash, get, r, n);
            if !get && (StatesCert(r) || StatesVerdict(r)) then
              after.Some? && PerceptionFromBody(r).Some? && after.value == Carry(stash, PerceptionFromBody(r).value, n)
            else after == stash
  {
    BlockIs(r);
  }

  /** A block speaks for a part when its response named that part, or none. */
  predicate SpeaksFor(id: Option<Json>, part: string) {
    id.None? || (id.value.Num? && id.value.digits == part)
  }

  /**
   * A perception takes the block that speaks for its part, and no other. It hands over what the block reports when the
   * block is certified, and otherwise when its own fetch succeeds.
   */
  lemma {:induction false} PerceiveIs(stash: Option<Stash>, part: string, fetched: bool)
    ensures var (after, reports) := Perceive(stash, Some(part), true, fetched);
            if stash.Some? && SpeaksFor(stash.value.id, part) then
              && after == None
              && reports == (if stash.value.certified || fetched
                             then Some(Reports(stash.value.failures, stash.value.unlisted)) else None)
            else
              after == stash && reports == (if fetched then Some(Reports(None, None)) else None)
    ensures Perceive(stash, None, true, fetched) == (stash, None)
    ensures Perceive(stash, Some(part), false, fetched) == Perceive(stash, None, false, fetched) == (stash, None)
  {
  }

  // ----- whole runs -----

  predicate BringsBlock(e: Event) {
    e.Response? && !e.get && (StatesCert(e.body) || StatesVerdict(e.body))
  }

  /** The last response of the run that brought a block. */
  function LastBlock(events: seq<Event>): Option<Json>
    decreases |events|
  {
    if events == [] then None
    else
      var k := |events| - 1;
      if BringsBlock(events[k]) then Some(events[k].body) else LastBlock(events[..k])
  }

  /** Without blocks from before, or with the last of them named `id`. */
  predicate Names(stash: Option<Stash>, last: Option<Json>) {
    stash.Some? ==> last.Some? && stash.value.id == NameOf(last.value)
  }

  lemma {:induction false} StepNames(s: System, e: Event, n: Numbers, last: Option<Json>)
    requires Names(s.stash, last)
    ensures Names(Step(s, e, n).stash, if BringsBlock(e) then Some(e.body) else last)
  {
    match e
    case Response(get, body) =>
      ResponseIs(s.stash, get, body, n);
      BlockIs(body);
      if s.stash.Some? && BringsBlock(e) {
        CarriedIs(s.stash.value, PerceptionFromBody(body).value, n);
      }
    case Perceived(_, _, _) =>
  }

  lemma {:induction false} RunSnoc(s: System, events: seq<Event>, e: Event, n: Numbers)
    ensures Run(s, events + [e], n) == Step(Run(s, events, n), e, n)
    decreases |events|
  {
    if events == [] {
      assert [] + [e] == [e] && [e][1..] == [];
      assert Run(s, [e], n) == Run(Step(s, e, n), [], n);
    } else {
      assert (events + [e])[1..] == events[1..] + [e];
      RunSnoc(Step(s, events[0], n), events[1..], e, n);
    }
  }

  lemma {:induction false} StashIsLastBlock(events: seq<Event>, n: Numbers)
    ensures Names(Run(START, events, n).stash, LastBlock(events))
    decreases |events|
  {
    if events != [] {
      var k := |events| - 1;
      StashIsLastBlock(events[..k], n);
      assert events == events[..k] + [events[k]];
      RunSnoc(START, events[..k], events[k], n);
      StepNames(Run(START, events[..k], n), events[k], n, LastBlock(events[..k]));
    }
  }

  /** Reports are handed over, or the stash is taken. */
  predicate Takes(s: System, after: System) {
    after.delivered != s.delivered || after.deliveredUnlisted != s.deliveredUnlisted || after.stash != s.stash
  }

  /**
   * In every run, a perception hands over reports only when the last response that brought a block named its part, or
   * no part at all.
   */
  lemma {:induction false} ReportsReachTheirPart(events: seq<Event>, part: Option<string>, enabled: bool, fetched: bool,
                                                 n: Numbers)
    ensures var s := Run(START, events, n);
            var after := Step(s, Perceived(part, enabled, fetched), n);
            Takes(s, after) ==>
              && part.Some? && enabled && LastBlock(events).Some?
              && SpeaksFor(NameOf(LastBlock(events).value), part.value)
  {
    var s := Run(START, events, n);
    StashIsLastBlock(events, n);
    if part.Some? && enabled {
      PerceiveIs(s.stash, part.value, fetched);
      assert s.delivered + [] == s.delivered;
    }
  }
}

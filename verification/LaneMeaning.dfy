/** What one op makes of each lane, said of the op alone: its ticks, the id it goes on under, and how it ends. */
module LaneMeaning {
  import opened Wrappers
  import opened LineageLanes
  import opened LaneInvariants
  import opened LaneAccounting
  import Sorting

  // ----- references and operations -----

  /** Filtering keeps the solid references in their order. */
  lemma {:induction false} SolidsAre(a: seq<string>, ref: string, b: seq<string>)
    ensures Solids([]) == []
    ensures Solids([ref]) == if |ref| >= 6 && ref[..6] == "solid:" then [ref] else []
    ensures Solids(a + b) == Solids(a) + Solids(b)
    decreases |a|
  {
    assert [ref][1..] == [];
    if a == [] {
      assert a + b == b;
    } else {
      assert (a + b)[1..] == a[1..] + b;
      SolidsAre(a[1..], ref, b);
    }
  }

  predicate MentionsSolid(node: Node, ref: string) {
    (ref in node.inputs || ref in node.outputs || ref in node.deleted) && "solid:" <= ref
  }

  /** An op is on lanes exactly when it is linked and some reference of it names a solid. */
  lemma {:induction false} AttachedIs(node: Node)
    ensures Attached(node) <==> node.linked && exists ref :: MentionsSolid(node, ref)
  {
    if Ins(node) != [] {
      assert Ins(node)[0] in Ins(node) && MentionsSolid(node, Ins(node)[0]);
    }
    if Outs(node) != [] {
      assert Outs(node)[0] in Outs(node) && MentionsSolid(node, Outs(node)[0]);
    }
    if Dels(node) != [] {
      assert Dels(node)[0] in Dels(node) && MentionsSolid(node, Dels(node)[0]);
    }
  }

  predicate StandsAt(text: string, i: nat, part: string) {
    i + |part| <= |text| && text[i..i + |part|] == part
  }

  /** `part` stands somewhere in `text`. */
  ghost predicate Contains(text: string, part: string) {
    exists i: nat :: StandsAt(text, i, part)
  }

  lemma {:induction false} IncludesDeleteIs(text: string)
    ensures IncludesDelete(text) <==> Contains(text, "delete")
  {
    assert "delete" <= text <==> StandsAt(text, 0, "delete");
    if text != "" {
      IncludesDeleteIs(text[1..]);
      if i: nat :| StandsAt(text[1..], i, "delete") {
        assert StandsAt(text, i + 1, "delete");
      }
      if i: nat :| StandsAt(text, i, "delete") && i > 0 {
        assert StandsAt(text[1..], i - 1, "delete");
      }
    }
  }

  // ----- the lanes an op finds -----

  /** A lane that enters from before the window, at this op. */
  function Entering(k: nat, ref: string, node: Node): LaneRecord {
    LaneRecord(k, ref, ref, [], node.sequence, Live, [], true)
  }

  /** The lanes with one more for each input that nothing carries, in the order in which they are first named. */
  ghost predicate Enters(m: Lanes, ins: seq<string>, node: Node, f: Lanes)
    decreases |ins|
  {
    if ins == [] then f == m
    else if ins[0] in m.carrier then Enters(m, ins[1..], node, f)
    else
      var k := |m.lanes|;
      Enters(m.(lanes := m.lanes + [Entering(k, ins[0], node)], carrier := m.carrier[ins[0] := k]), ins[1..], node, f)
  }

  /** Each input names the lane that carries it, an entering one if nothing did. */
  lemma {:induction false} ResolveMeans(m: Lanes, ins: seq<string>, node: Node)
    requires Sane(m)
    ensures var (f, touched) := Resolve(m, ins, node); Enters(m, ins, node, f) && Resolved(f, ins, touched)
    ensures var (f, _) := Resolve(m, ins, node); |m.lanes| <= |f.lanes| && f.lanes[..|m.lanes|] == m.lanes
    decreases |ins|
  {
    ResolveCarries(m, ins, node);
    if ins != [] {
      ResolveMeans(if ins[0] in m.carrier then m else Open(m, ins[0], node, true), ins[1..], node);
    }
  }

  // ----- one lane through the phases -----

  function CountOf<T(==)>(xs: seq<T>, x: T): nat {
    if xs == [] then 0 else (if xs[0] == x then 1 else 0) + CountOf(xs[1..], x)
  }

  function Repeat(tick: Tick, k: nat): seq<Tick> {
    if k == 0 then [] else [tick] + Repeat(tick, k - 1)
  }

  lemma {:induction false} TouchedAsNamed(m: Lanes, ins: seq<string>, touched: seq<nat>, e: string)
    requires CarriersLive(m) && Resolved(m, ins, touched) && e in m.carrier
    ensures CountOf(touched, m.carrier[e]) == CountOf(ins, e)
    decreases |ins|
  {
    if ins != [] {
      assert ins[0] in m.carrier && m.carrier[ins[0]] == touched[0];
      assert m.lanes[m.carrier[ins[0]]].current == ins[0] && m.lanes[m.carrier[e]].current == e;
      assert Resolved(m, ins[1..], touched[1..]) by {
        assert forall k :: 0 <= k < |ins| - 1 ==> ins[1..][k] == ins[k + 1] && touched[1..][k] == touched[k + 1];
      }
      TouchedAsNamed(m, ins[1..], touched[1..], e);
    }
  }

  lemma {:induction false} CountsIn<T>(xs: seq<T>, x: T)
    ensures CountOf(xs, x) > 0 <==> x in xs
    decreases |xs|
  {
    if xs != [] {
      CountsIn(xs[1..], x);
      assert xs == [xs[0]] + xs[1..];
    }
  }

  /** Consuming ticks a lane once per mention, and merges it into the survivor unless it is the survivor. */
  lemma {:induction false} ConsumeLane(m: Lanes, touched: seq<nat>, s: nat, node: Node, i: nat)
    requires Sane(m) && Within(touched, m) && s < |m.lanes| && i < |m.lanes|
    ensures var r, lane, c := ConsumeAll(m, touched, s, node).lanes[i], m.lanes[i], CountOf(touched, i);
            r == lane.(ticks := lane.ticks + Repeat(Tick(node, lane.current, false), c), absorbed := r.absorbed,
                       end := if c > 0 && i != s then Merged(s, node.sequence) else lane.end)
    decreases |touched|
  {
    if touched == [] {
      assert m.lanes[i].ticks + [] == m.lanes[i].ticks;
    } else {
      var n, lane := Consume(m, touched[0], s, node), m.lanes[i];
      var c := CountOf(touched[1..], i);
      ConsumeLane(n, touched[1..], s, node, i);
      assert lane.ticks + [Tick(node, lane.current, false)] + Repeat(Tick(node, lane.current, false), c) ==
             lane.ticks + Repeat(Tick(node, lane.current, false), c + 1);
    }
  }

  /** Nothing but `e` is carried by lane `i`. */
  ghost predicate Under(m: Lanes, i: nat, e: string) {
    forall x :: x in m.carrier && m.carrier[x] == i ==> x == e
  }

  predicate Carries(m: Lanes, i: nat, e: string) {
    e in m.carrier && m.carrier[e] == i
  }

  /** A lane that still stands is ticked once and ended by a delete of its entity. */
  lemma {:induction false} DeleteLane(m: Lanes, refs: seq<string>, node: Node, i: nat, e: string)
    requires Sane(m) && i < |m.lanes| && Under(m, i, e)
    ensures var r, lane := DeleteAll(m, refs, node), m.lanes[i];
            && r.lanes[i] == (if Carries(m, i, e) && e in refs
                              then lane.(ticks := lane.ticks + [Tick(node, e, false)], end := Deleted(node.sequence))
                              else lane)
            && Under(r, i, e) && (Carries(r, i, e) <==> Carries(m, i, e) && e !in refs)
    decreases |refs|
  {
    if refs != [] {
      assert refs == [refs[0]] + refs[1..];
      DeleteLane(Delete(m, refs[0], node), refs[1..], node, i, e);
    }
  }

  /** A lane other than the survivor is broken off when its entity is produced. */
  lemma {:induction false} ProduceLane(m: Lanes, outs: seq<string>, s: Option<nat>, node: Node, i: nat, e: string)
    requires Sane(m) && (s.Some? ==> s.value < |m.lanes|) && s != Some(i) && i < |m.lanes| && Under(m, i, e)
    ensures var r, lane := ProduceAll(m, outs, s, node).lanes[i], m.lanes[i];
            r == if Carries(m, i, e) && e in outs then lane.(end := Shadowed(node.sequence)) else lane
    decreases |outs|
  {
    if outs != [] {
      assert outs == [outs[0]] + outs[1..];
      ProduceLane(Rebirth(Shadow(m, outs[0], s, node), outs[0], s, node), outs[1..], s, node, i, e);
    }
  }

  /** The ticks that hand a lane the produced ids. */
  function Rebirths(node: Node, outs: seq<string>): seq<Tick> {
    if outs == [] then [] else [Tick(node, outs[0], true)] + Rebirths(node, outs[1..])
  }

  /** The survivor is handed every produced id, and is known by the last. */
  lemma {:induction false} ProduceSurvivor(m: Lanes, outs: seq<string>, s: nat, node: Node)
    requires Sane(m) && s < |m.lanes|
    ensures var r, lane := ProduceAll(m, outs, Some(s), node).lanes[s], m.lanes[s];
            r == lane.(ticks := lane.ticks + Rebirths(node, outs),
                       current := if outs == [] then lane.current else outs[|outs| - 1])
    decreases |outs|
  {
    if outs == [] {
      assert m.lanes[s].ticks + [] == m.lanes[s].ticks;
    } else {
      var n := Rebirth(Shadow(m, outs[0], Some(s), node), outs[0], Some(s), node);
      assert n.lanes[s].ticks == m.lanes[s].ticks + [Tick(node, outs[0], true)];
      ProduceSurvivor(n, outs[1..], s, node);
      assert m.lanes[s].ticks + [Tick(node, outs[0], true)] + Rebirths(node, outs[1..]) ==
             m.lanes[s].ticks + Rebirths(node, outs);
    }
  }

  // ----- one op -----

  predicate First(node: Node, e: string) {
    Ins(node) != [] && Ins(node)[0] == e
  }

  /** How a lane that carries `e` ends with the op; `into` is the lane of the op's first input. */
  ghost predicate EndsAs(node: Node, e: string, into: nat, before: LaneEnd, after: LaneEnd) {
    if First(node, e) && Outs(node) == [] then
      after == if Contains(node.operation, "delete") then Deleted(node.sequence) else Dangling(node.sequence)
    else if First(node, e) then after == before
    else if e in Ins(node) then after == Merged(into, node.sequence)
    else if e in Dels(node) then after == Deleted(node.sequence)
    else if e in Outs(node) then after == Shadowed(node.sequence)
    else after == before
  }

  /** The ticks the op adds to a lane that carries `e`. */
  function TicksDue(node: Node, e: string): seq<Tick> {
    if e in Ins(node) then
      Repeat(Tick(node, e, false), CountOf(Ins(node), e)) + if First(node, e) then Rebirths(node, Outs(node)) else []
    else if e in Dels(node) then [Tick(node, e, false)]
    else []
  }

  /** Lane `i` after the op: what it was born as stays; ticks, id and end are as the op says. */
  ghost predicate LaneMeans(node: Node, e: string, into: nat, lane: LaneRecord, after: LaneRecord) {
    && after.index == lane.index && after.bornAs == lane.bornAs && after.bornAt == lane.bornAt
    && after.enteredFromBeforeWindow == lane.enteredFromBeforeWindow
    && after.ticks == lane.ticks + TicksDue(node, e)
    && after.current == (if First(node, e) && Outs(node) != [] then Outs(node)[|Outs(node)| - 1] else e)
    && EndsAs(node, e, into, lane.end, after.end)
  }

  /** The inputs taken: ticks, merges, and the survivor left aside. */
  lemma {:induction false} InputsMean(m: Lanes, node: Node, e: string)
    requires Inv(m)
    ensures Sane(m)
    ensures var (f, touched) := Resolve(m, Ins(node), node);
            var (taken, s) := TakeInputs(m, node);
            e in f.carrier ==>
              var i := f.carrier[e];
              && i < |f.lanes| && i < |taken.lanes| && f.lanes[i].current == e && f.lanes[i].end.Live? &&
                Under(taken, i, e)
              && (Carries(taken, i, e) <==> e !in Ins(node)) && (s == Some(i) <==> First(node, e))
              && (Ins(node) != [] ==> s.Some? && Carries(f, s.value, Ins(node)[0]))
              && var lane, after := f.lanes[i], taken.lanes[i];
                 after == lane.(ticks := lane.ticks + Repeat(Tick(node, e, false), CountOf(Ins(node), e)),
                                absorbed := after.absorbed,
                                end := if e in Ins(node) &&
                                  !First(node, e) then Merged(s.value, node.sequence) else Live)
  {
    var ins := Ins(node);
    var (f, touched) := Resolve(m, ins, node);
    ResolveKeeps(m, ins, node);
    ResolveCarries(m, ins, node);
    if e in f.carrier {
      var i := f.carrier[e];
      CountsIn(ins, e);
      if ins != [] {
        ConsumeResolvedKeeps(f, ins, touched, node);
        ConsumeLane(f, touched, touched[0], node, i);
        TouchedAsNamed(f, ins, touched, e);
        FirstIsSurvivor(f, ins, touched, e);
      } else {
        assert f.lanes[i].ticks + [] == f.lanes[i].ticks;
      }
    }
  }

  lemma {:induction false} FirstIsSurvivor(f: Lanes, ins: seq<string>, touched: seq<nat>, e: string)
    requires CarriersLive(f) && Resolved(f, ins, touched) && ins != [] && e in f.carrier
    ensures touched[0] == f.carrier[e] <==> ins[0] == e
  {
    assert ins[0] in f.carrier && f.carrier[ins[0]] == touched[0];
    assert f.lanes[f.carrier[ins[0]]].current == ins[0] && f.lanes[f.carrier[e]].current == e;
  }

  lemma {:induction false} DeletesMean(m: Lanes, node: Node, e: string)
    requires Inv(m)
    ensures Sane(m)
    ensures var f := Resolve(m, Ins(node), node).0;
            var (taken, s) := TakeInputs(m, node);
            var (ready, _) := BeforeOutputs(m, node);
            e in f.carrier ==>
              var i := f.carrier[e];
              && i < |f.lanes| && i < |taken.lanes| && i < |ready.lanes| && Under(ready, i, e)
              && (Carries(ready, i, e) <==> e !in Ins(node) && e !in Dels(node))
              && var lane, after := taken.lanes[i], ready.lanes[i];
                 after == if First(node, e) && Outs(node) == []
                          then lane.(end := if Contains(node.operation, "delete") then Deleted(node.sequence)
                                            else Dangling(node.sequence))
                          else if e !in Ins(node) && e in Dels(node)
                          then lane.(ticks := lane.ticks + [Tick(node, e, false)], end := Deleted(node.sequence))
                          else lane
  {
    var f := Resolve(m, Ins(node), node).0;
    InputsMean(m, node, e);
    IncludesDeleteIs(node.operation);
    if e in f.carrier {
      DeleteLane(TakeInputs(m, node).0, Dels(node), node, f.carrier[e], e);
    }
  }

  /** The lane of the first input, into which the others merge. */
  function Into(f: Lanes, node: Node): nat {
    if Ins(node) != [] && Ins(node)[0] in f.carrier then f.carrier[Ins(node)[0]] else 0
  }

  /** What an op makes of every lane it finds: the lanes so far, and those that enter with its inputs. */
  lemma {:induction false} OpMeans(m: Lanes, node: Node, e: string)
    requires Inv(m) && Attached(node)
    ensures Sane(m)
    ensures var f := Resolve(m, Ins(node), node).0;
            e in f.carrier ==>
              var i, n := f.carrier[e], Step(m, node);
              && i < |f.lanes| && i < |n.lanes| && f.lanes[i].current == e
              && (Ins(node) != [] ==> Ins(node)[0] in f.carrier)
              && LaneMeans(node, e, Into(f, node), f.lanes[i], n.lanes[i])
  {
    MergesKept(m, Counted(m));
    CountedResolves(m, Ins(node), node);
    InputsMean(Counted(m), node, e);
    var f := Resolve(Counted(m), Ins(node), node).0;
    if e in f.carrier {
      if First(node, e) {
        SurvivorMeans(Counted(m), node, e);
      } else {
        OtherMeans(Counted(m), node, e);
      }
    }
  }

  /** The op after it has been counted. */
  function Rest(m: Lanes, node: Node): Lanes
    requires Sane(m)
  {
    var (ready, s) := BeforeOutputs(m, node);
    ProduceAll(ready, Outs(node), s, node)
  }

  lemma {:induction false} SurvivorMeans(m: Lanes, node: Node, e: string)
    requires Inv(m) && First(node, e)
    ensures Sane(m)
    ensures var f, n := Resolve(m, Ins(node), node).0, Rest(m, node);
            e in f.carrier ==>
              var i := f.carrier[e];
              i < |f.lanes| && i < |n.lanes| && LaneMeans(node, e, i, f.lanes[i], n.lanes[i])
  {
    InputsMean(m, node, e);
    DeletesMean(m, node, e);
    CountsIn(Ins(node), e);
    var f := Resolve(m, Ins(node), node).0;
    if e in f.carrier {
      var i := f.carrier[e];
      ProduceSurvivor(BeforeOutputs(m, node).0, Outs(node), i, node);
      TicksJoin(f.lanes[i].ticks, Repeat(Tick(node, e, false), CountOf(Ins(node), e)), Rebirths(node, Outs(node)));
    }
  }

  lemma {:induction false} OtherMeans(m: Lanes, node: Node, e: string)
    requires Inv(m) && !First(node, e)
    ensures Sane(m)
    ensures var f, n := Resolve(m, Ins(node), node).0, Rest(m, node);
            var s := TakeInputs(m, node).1;
            e in f.carrier ==>
              var i := f.carrier[e];
              i < |f.lanes| && i < |n.lanes| &&
              LaneMeans(node, e, if s.Some? then s.value else 0, f.lanes[i], n.lanes[i])
  {
    InputsMean(m, node, e);
    DeletesMean(m, node, e);
    CountsIn(Ins(node), e);
    var f := Resolve(m, Ins(node), node).0;
    var (ready, s) := BeforeOutputs(m, node);
    if e in f.carrier {
      var i := f.carrier[e];
      ProduceLane(ready, Outs(node), s, node, i, e);
      TicksJoin(f.lanes[i].ticks, Repeat(Tick(node, e, false), CountOf(Ins(node), e)), []);
    }
  }

  lemma {:induction false} TicksJoin(a: seq<Tick>, b: seq<Tick>, c: seq<Tick>)
    ensures (a + b) + c == a + (b + c) && b + [] == b && a + [] == a
  {
  }

  /** Counting the op first changes nothing about the lanes it finds. */
  lemma {:induction false} CountedResolves(m: Lanes, ins: seq<string>, node: Node)
    requires Sane(m)
    ensures Sane(Counted(m))
    ensures var (f, t) := Resolve(m, ins, node); Resolve(Counted(m), ins, node) == (Counted(f), t)
    decreases |ins|
  {
    if ins != [] {
      if ins[0] in m.carrier {
        CountedResolves(m, ins[1..], node);
      } else {
        CountedResolves(Open(m, ins[0], node, true), ins[1..], node);
      }
    }
  }

  // ----- births -----

  /** A lane as it is born by the op. */
  function Born(k: nat, ref: string, node: Node): LaneRecord {
    LaneRecord(k, ref, ref, [Tick(node, ref, true)], node.sequence, Live, [], false)
  }

  /** The lane that the op bore for its output number `k`, when it had found `size` lanes. */
  predicate BirthIs(r: Lanes, size: nat, outs: seq<string>, k: nat, node: Node)
    requires k < |outs|
  {
    && size + k < |r.lanes|
    && var born := Born(size + k, outs[k], node);
       r.lanes[size + k] == if outs[k] in outs[k + 1..] then born.(end := Shadowed(node.sequence)) else born
  }

  lemma {:induction false} BirthShifts(r: Lanes, size: nat, outs: seq<string>, k: nat, node: Node)
    requires 0 < k < |outs| && BirthIs(r, size + 1, outs[1..], k - 1, node)
    ensures BirthIs(r, size, outs, k, node)
  {
    assert outs[k] == outs[1..][k - 1] && outs[k + 1..] == outs[1..][k - 1 + 1..];
  }

  /** What producing `ref` makes of the lanes, when nothing succeeds. */
  function Bear(m: Lanes, ref: string, node: Node): Lanes
    requires Sane(m)
  {
    Rebirth(Shadow(m, ref, None, node), ref, None, node)
  }

  lemma {:induction false} BearOne(m: Lanes, ref: string, node: Node)
    requires Inv(m)
    ensures Sane(m)
    ensures var n, size := Bear(m, ref, node), |m.lanes|;
            Inv(n) && |n.lanes| == size + 1 && n.lanes[size] == Born(size, ref, node) && Under(n, size, ref) &&
            Carries(n, size, ref)
  {
    ShadowKeeps(m, ref, None, node);
    RebirthKeeps(Shadow(m, ref, None, node), ref, None, node);
  }

  lemma {:induction false} FirstBirth(m: Lanes, outs: seq<string>, node: Node)
    requires Inv(m) && outs != []
    ensures Sane(m) && (|m.lanes| < |ProduceAll(m, outs, None, node).lanes| ==>
                          BirthIs(ProduceAll(m, outs, None, node), |m.lanes|, outs, 0, node))
  {
    BearOne(m, outs[0], node);
    ProduceLane(Bear(m, outs[0], node), outs[1..], None, node, |m.lanes|, outs[0]);
  }

  lemma {:induction false} BirthsMean(m: Lanes, outs: seq<string>, node: Node)
    requires Inv(m)
    ensures Sane(m)
    ensures var r := ProduceAll(m, outs, None, node);
            |r.lanes| == |m.lanes| + |outs| && forall k: nat :: k < |outs| ==> BirthIs(r, |m.lanes|, outs, k, node)
    decreases |outs|
  {
    if outs != [] {
      var r, size := ProduceAll(m, outs, None, node), |m.lanes|;
      BearOne(m, outs[0], node);
      BirthsMean(Bear(m, outs[0], node), outs[1..], node);
      FirstBirth(m, outs, node);
      forall k: nat | 0 < k < |outs| ensures BirthIs(r, size, outs, k, node) {
        assert BirthIs(r, size + 1, outs[1..], k - 1, node);
        BirthShifts(r, size, outs, k, node);
      }
    }
  }

  /**
   * An op without inputs bears one lane for each id it produces, in order; an op with inputs bears none. A lane whose
   * id the same op produces again is broken off at once.
   */
  lemma {:induction false} OpBears(m: Lanes, node: Node)
    requires Inv(m) && Attached(node)
    ensures Sane(m)
    ensures var f, n, outs := Resolve(m, Ins(node), node).0, Step(m, node), Outs(node);
            if Ins(node) != [] then |n.lanes| == |f.lanes|
            else
              && |n.lanes| == |m.lanes| + |outs|
              && forall k: nat :: k < |outs| ==> BirthIs(n, |m.lanes|, outs, k, node)
  {
    MergesKept(m, Counted(m));
    ReadyIs(Counted(m), node);
    ReadyKeeps(m, node);
    CountedResolves(m, Ins(node), node);
    var (ready, s) := BeforeOutputs(Counted(m), node);
    if s.Some? {
      SuccessorBearsNone(ready, Outs(node), s.value, node);
    } else {
      BirthsMean(ready, Outs(node), node);
    }
  }

  lemma {:induction false} ReadyIs(m: Lanes, node: Node)
    requires Inv(m)
    ensures Sane(m)
    ensures var (ready, s) := BeforeOutputs(m, node);
            && |ready.lanes| == |Resolve(m, Ins(node), node).0.lanes| && (s.Some? <==> Ins(node) != [])
            && (s.Some? ==> s.value < |ready.lanes|)
  {
  }

  lemma {:induction false} SuccessorBearsNone(m: Lanes, outs: seq<string>, s: nat, node: Node)
    requires Sane(m) && s < |m.lanes|
    ensures |ProduceAll(m, outs, Some(s), node).lanes| == |m.lanes|
    decreases |outs|
  {
    if outs != [] {
      SuccessorBearsNone(Rebirth(Shadow(m, outs[0], Some(s), node), outs[0], Some(s), node), outs[1..], s, node);
    }
  }

  // ----- in a whole document -----

  lemma {:induction false} WalkSplits(m: Lanes, a: seq<Node>, b: seq<Node>)
    requires Sane(m)
    ensures Walk(m, a + b) == Walk(Walk(m, a), b)
    decreases |a|
  {
    if a == [] {
      assert a + b == b;
    } else {
      assert (a + b)[1..] == a[1..] + b;
      WalkSplits(Step(m, a[0]), a[1..], b);
    }
  }

  /**
   * In a built document, whatever came before: each op makes of each lane it finds what the op alone says, and a lane
   * that it ended still stands so at the end.
   */
  lemma {:induction false} BuildMeans(nodes: seq<Node>, past: seq<Node>, node: Node, rest: seq<Node>, e: string)
    requires Sorting.Sort(IN_SEQUENCE, nodes) == past + [node] + rest && AllSingle(past + [node] + rest) &&
             Attached(node)
    ensures var m := Walk(NO_LANES, past);
            var f := Resolve(m, Ins(node), node).0;
            e in f.carrier ==>
              var i, n := f.carrier[e], Step(m, node);
              && i < |f.lanes| && i < |n.lanes| && i < |Build(nodes).lanes|
              && LaneMeans(node, e, Into(f, node), f.lanes[i], n.lanes[i])
              && (!n.lanes[i].end.Live? ==> Build(nodes).lanes[i] == n.lanes[i])
  {
    var m := Walk(NO_LANES, past);
    assert forall x :: x in past || x == node || x in rest ==> x in past + [node] + rest;
    WalkKeeps(NO_LANES, past);
    OpMeans(m, node, e);
    StepKeeps(m, node);
    WalkSplits(NO_LANES, past + [node], rest);
    WalkAppend(NO_LANES, past, node);
    ResolveMeans(m, Ins(node), node);
    var f := Resolve(m, Ins(node), node).0;
    if e in f.carrier {
      LanesStay(Step(m, node), rest);
      if !Step(m, node).lanes[f.carrier[e]].end.Live? {
        EndedStays(Step(m, node), rest, f.carrier[e]);
      }
    }
  }

  lemma {:induction false} LanesStay(m: Lanes, nodes: seq<Node>)
    requires Sane(m)
    ensures |Walk(m, nodes).lanes| >= |m.lanes|
    decreases |nodes|
  {
    if nodes != [] {
      LanesStay(Step(m, nodes[0]), nodes[1..]);
    }
  }
}

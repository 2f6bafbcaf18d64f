/** The walk as it runs: lanes are objects, changed in place, and shared between the list of lanes and the carriers. */
module LaneBuilder {
  import opened Wrappers
  import opened LineageLanes
  import Sorting

  class Lane {
    const index: nat
    const bornAs: string
    const bornAt: int
    const enteredFromBeforeWindow: bool
    var current: string
    var ticks: seq<Tick>
    var end: LaneEnd
    var absorbed: seq<nat>

    constructor (index: nat, entity: string, node: Node, fromBeforeWindow: bool)
      ensures Record() == LaneRecord(index, entity, entity, [], node.sequence, Live, [], fromBeforeWindow)
      ensures this.index == index
    {
      this.index, bornAs, current, bornAt := index, entity, entity, node.sequence;
      ticks, end, absorbed, enteredFromBeforeWindow := [], Live, [], fromBeforeWindow;
    }

    ghost function Record(): LaneRecord
      reads this
    {
      LaneRecord(index, bornAs, current, ticks, bornAt, end, absorbed, enteredFromBeforeWindow)
    }
  }

  class Builder {
    var lanes: seq<Lane>
    var carrier: map<string, Lane>
    var unattached: seq<Node>
    var onLanes: nat
    /** What the objects spell out. */
    ghost var view: Lanes

    /** `view` reads off the objects. A lane sits at its own index, so no two entries of `lanes` are one object. */
    ghost predicate Valid()
      reads this, lanes
    {
      && Sane(view) && view.unattached == unattached && view.onLanes == onLanes
      && |view.lanes| == |lanes|
      && (forall i :: 0 <= i < |lanes| ==> lanes[i].index == i && lanes[i].Record() == view.lanes[i])
      && view.carrier.Keys == carrier.Keys
      && (forall e :: e in carrier ==> Owns(carrier[e], view.carrier[e]))
    }

    ghost predicate Owns(lane: Lane, k: nat)
      reads this
    {
      k < |lanes| && lanes[k] == lane
    }

    ghost predicate OwnsAll(touched: seq<Lane>, indices: seq<nat>)
      reads this
    {
      |touched| == |indices| && forall k :: 0 <= k < |touched| ==> Owns(touched[k], indices[k])
    }

    ghost predicate OwnsSome(lane: Option<Lane>, k: Option<nat>)
      reads this
    {
      match lane
      case Some(l) => k.Some? && Owns(l, k.value)
      case None => k.None?
    }

    /** Lanes have only been added, and the added ones are new objects. */
    twostate predicate Extends()
      reads this
    {
      && old(|lanes|) <= |lanes|
      && (forall k :: 0 <= k < old(|lanes|) ==> lanes[k] == old(lanes[k]))
      && (forall k :: old(|lanes|) <= k < |lanes| ==> fresh(lanes[k]))
    }

    constructor ()
      ensures Valid() && view == NO_LANES && lanes == []
    {
      lanes, carrier, unattached, onLanes := [], map[], [], 0;
      view := NO_LANES;
    }

    method OpenLane(entity: string, node: Node, fromBeforeWindow: bool) returns (lane: Lane)
      requires Valid()
      modifies this
      ensures Valid() && Extends() && |lanes| == old(|lanes|) + 1 && lane == lanes[old(|lanes|)]
      ensures view == Open(old(view), entity, node, fromBeforeWindow)
    {
      lane := new Lane(|lanes|, entity, node, fromBeforeWindow);
      lanes := lanes + [lane];
      carrier := carrier[entity := lane];
      view := Open(view, entity, node, fromBeforeWindow);
    }

    /** The lane that carries an input; one that nothing carries enters from before the window. */
    method TouchOne(ref: string, node: Node) returns (lane: Lane)
      requires Valid()
      modifies this
      ensures Valid() && Extends()
      ensures view == Touching(old(view), ref, node) && Owns(lane, TouchedIndex(old(view), ref))
    {
      if ref in carrier {
        lane := carrier[ref];
      } else {
        lane := OpenLane(ref, node, true);
      }
    }

    /** One more touched lane. */
    method TouchNext(touched: seq<Lane>, ref: string, node: Node, ghost indices: seq<nat>)
      returns (more: seq<Lane>, ghost moreIndices: seq<nat>)
      requires Valid() && OwnsAll(touched, indices)
      modifies this
      ensures Valid() && Extends() && OwnsAll(more, moreIndices)
      ensures view == Touching(old(view), ref, node) && moreIndices == indices + [TouchedIndex(old(view), ref)]
    {
      ghost var k := TouchedIndex(view, ref);
      var lane := TouchOne(ref, node);
      more, moreIndices := touched + [lane], indices + [k];
    }

    /** The lanes that the inputs name, in order. */
    method Touch(ins: seq<string>, node: Node) returns (touched: seq<Lane>)
      requires Valid()
      modifies this
      ensures Valid() && Extends()
      ensures var (v, indices) := Resolve(old(view), ins, node); view == v && OwnsAll(touched, indices)
    {
      touched := [];
      ghost var all, indices: seq<nat> := Resolve(view, ins, node), [];
      RemainingStart(view, ins, node, all);
      for i := 0 to |ins|
        invariant Valid() && Extends() && OwnsAll(touched, indices)
        invariant Remaining(view, ins, i, node, indices, all)
      {
        RemainingStep(view, ins, i, node, indices, all);
        touched, indices := TouchNext(touched, ins[i], node, indices);
      }
      RemainingEnd(view, ins, node, indices, all);
    }

    method ConsumeOne(lane: Lane, survivor: Lane, node: Node, ghost k: nat, ghost s: nat)
      requires Valid() && Owns(lane, k) && Owns(survivor, s)
      modifies this, lane, survivor
      ensures Valid() && lanes == old(lanes) && view == Consume(old(view), k, s, node)
    {
      lane.ticks := lane.ticks + [Tick(node, lane.current, false)];
      carrier := carrier - {lane.current};
      if lane != survivor {
        lane.end := Merged(survivor.index, node.sequence);
        survivor.absorbed := survivor.absorbed + [lane.index];
      }
      view := Consume(view, k, s, node);
    }

    /** Every touched lane ticks; all but the first operand's merge into it. */
    method ConsumeTouched(touched: seq<Lane>, node: Node, ghost indices: seq<nat>)
      requires Valid() && touched != [] && OwnsAll(touched, indices)
      modifies this, lanes
      ensures Valid() && lanes == old(lanes) && Within(indices, old(view)) && indices[0] < |old(view).lanes|
      ensures view == ConsumeAll(old(view), indices, indices[0], node)
    {
      for i := 0 to |touched|
        invariant Valid() && lanes == old(lanes)
        invariant Within(indices[i..], view) && indices[0] < |view.lanes|
        invariant ConsumeAll(old(view), indices, indices[0], node) == ConsumeAll(view, indices[i..], indices[0], node)
      {
        assert indices[i..][0] == indices[i] && indices[i..][1..] == indices[i + 1..];
        ConsumeOne(touched[i], touched[0], node, indices[i], indices[0]);
      }
    }

    method DeleteOne(ref: string, node: Node)
      requires Valid()
      modifies this, lanes
      ensures Valid() && lanes == old(lanes) && view == Delete(old(view), ref, node)
    {
      if ref in carrier {
        var lane := carrier[ref];
        lane.ticks := lane.ticks + [Tick(node, ref, false)];
        lane.end := Deleted(node.sequence);
        carrier := carrier - {ref};
      }
      view := Delete(view, ref, node);
    }

    method DeleteRefs(dels: seq<string>, node: Node)
      requires Valid()
      modifies this, lanes
      ensures Valid() && lanes == old(lanes) && view == DeleteAll(old(view), dels, node)
    {
      for i := 0 to |dels|
        invariant Valid() && lanes == old(lanes)
        invariant DeleteAll(old(view), dels, node) == DeleteAll(view, dels[i..], node)
      {
        assert dels[i..][0] == dels[i] && dels[i..][1..] == dels[i + 1..];
        DeleteOne(dels[i], node);
      }
    }

    method EndOf(survivor: Lane, node: Node, ghost s: nat)
      requires Valid() && Owns(survivor, s)
      modifies `view, survivor
      ensures Valid() && lanes == old(lanes) && view == EndSurvivor(old(view), s, node)
    {
      survivor.end := if IncludesDelete(node.operation) then Deleted(node.sequence) else Dangling(node.sequence);
      view := EndSurvivor(view, s, node);
    }

    method BreakOff(ref: string, displaced: Lane, node: Node, ghost k: nat)
      requires Valid() && ref in carrier && carrier[ref] == displaced && view.carrier[ref] == k
      modifies this, displaced
      ensures Valid() && lanes == old(lanes) && k < |old(view).lanes|
      ensures view == old(view).(lanes := old(view).lanes[k := old(view).lanes[k].(end := Shadowed(node.sequence))],
                                 carrier := old(view).carrier - {ref})
    {
      assert Owns(displaced, k);
      displaced.end := Shadowed(node.sequence);
      carrier := carrier - {ref};
      view := view.(lanes := view.lanes[k := view.lanes[k].(end := Shadowed(node.sequence))],
                    carrier := view.carrier - {ref});
    }

    method ShadowOther(ref: string, survivor: Option<Lane>, node: Node, ghost s: Option<nat>)
      requires Valid() && OwnsSome(survivor, s)
      modifies this, lanes
      ensures Valid() && lanes == old(lanes) && view == Shadow(old(view), ref, s, node)
    {
      if ref in carrier {
        var displaced := carrier[ref];
        ghost var k := view.carrier[ref];
        assert Owns(displaced, k);
        assert Some(displaced) == survivor <==> Some(k) == s;
        if Some(displaced) != survivor {
          BreakOff(ref, displaced, node, k);
        }
      }
    }

    method TakeOn(ref: string, survivor: Option<Lane>, node: Node, ghost s: Option<nat>)
      requires Valid() && OwnsSome(survivor, s)
      modifies this, lanes
      ensures Valid() && Extends()
      ensures (s.Some? ==> s.value < |old(view).lanes|) && view == Rebirth(old(view), ref, s, node)
    {
      ghost var before := view;
      match survivor {
        case Some(lane) =>
          lane.current := ref;
          lane.ticks := lane.ticks + [Tick(node, ref, true)];
          carrier := carrier[ref := lane];
        case None =>
          var born := OpenLane(ref, node, false);
          born.ticks := born.ticks + [Tick(node, ref, true)];
      }
      view := Rebirth(before, ref, s, node);
    }

    /** Each produced id breaks off any other lane that carries it, and goes to the survivor or to a new lane. */
    method Produce(outs: seq<string>, survivor: Option<Lane>, node: Node, ghost s: Option<nat>)
      requires Valid() && OwnsSome(survivor, s)
      modifies this, lanes
      ensures Valid() && Extends()
      ensures (s.Some? ==> s.value < |old(view).lanes|) && view == ProduceAll(old(view), outs, s, node)
    {
      for i := 0 to |outs|
        invariant Valid() && Extends() && OwnsSome(survivor, s)
        invariant ProduceAll(old(view), outs, s, node) == ProduceAll(view, outs[i..], s, node)
      {
        assert outs[i..][0] == outs[i] && outs[i..][1..] == outs[i + 1..];
        assert forall l :: l in lanes ==> l in old(lanes) || fresh(l);
        ShadowOther(outs[i], survivor, node, s);
        TakeOn(outs[i], survivor, node, s);
      }
    }

    /** Touch and consume the inputs; the first operand's lane is the one that continues. */
    method Take(ins: seq<string>, node: Node) returns (survivor: Option<Lane>, ghost s: Option<nat>)
      requires Valid() && ins == Ins(node)
      modifies this, lanes
      ensures Valid() && Extends() && OwnsSome(survivor, s)
      ensures (view, s) == TakeInputs(old(view), node)
    {
      ghost var indices := Resolve(view, ins, node).1;
      var touched := Touch(ins, node);
      survivor, s := None, None;
      if touched != [] {
        survivor, s := Some(touched[0]), Some(indices[0]);
        ConsumeTouched(touched, node, indices);
      }
    }

    /** Everything an op does before it produces. */
    method Prepare(ins: seq<string>, outs: seq<string>, dels: seq<string>, node: Node)
      returns (survivor: Option<Lane>, ghost s: Option<nat>)
      requires Valid() && ins == Ins(node) && outs == Outs(node) && dels == Dels(node)
      modifies this, lanes
      ensures Valid() && Extends() && OwnsSome(survivor, s)
      ensures (view, s) == BeforeOutputs(old(view), node)
    {
      survivor, s := Take(ins, node);
      DeleteRefs(dels, node);
      if outs == [] && survivor.Some? && ins != [] {
        EndOf(survivor.value, node, s.value);
      }
    }

    /** One op of the walk. */
    method Apply(node: Node)
      requires Valid()
      modifies this, lanes
      ensures Valid() && Extends() && view == Step(old(view), node)
    {
      var ins, outs, dels := Ins(node), Outs(node), Dels(node);
      if !node.linked || (ins == [] && outs == [] && dels == []) {
        unattached := unattached + [node];
        view := view.(unattached := unattached);
      } else {
        onLanes := onLanes + 1;
        view := Counted(view);
        var survivor, s := Prepare(ins, outs, dels, node);
        Produce(outs, survivor, node, s);
      }
    }
  }

  /** The lanes once an input has been looked up, and the lane it names. */
  ghost function Touching(m: Lanes, ref: string, node: Node): (r: Lanes)
    requires Sane(m)
    ensures Sane(r)
  {
    if ref in m.carrier then m else Open(m, ref, node, true)
  }

  ghost function TouchedIndex(m: Lanes, ref: string): nat {
    if ref in m.carrier then m.carrier[ref] else |m.lanes|
  }

  /** Resolving the inputs from `i` on in `m`, after `done`, completes `all`. */
  ghost predicate Remaining(m: Lanes, ins: seq<string>, i: nat, node: Node, done: seq<nat>, all: (Lanes, seq<nat>)) {
    && Sane(m) && i <= |ins|
    && Resolve(m, ins[i..], node).0 == all.0 && done + Resolve(m, ins[i..], node).1 == all.1
  }

  lemma {:induction false} RemainingStart(m: Lanes, ins: seq<string>, node: Node, all: (Lanes, seq<nat>))
    requires Sane(m) && all == Resolve(m, ins, node)
    ensures Remaining(m, ins, 0, node, [], all)
  {
    assert ins[0..] == ins && [] + all.1 == all.1;
  }

  lemma {:induction false} RemainingEnd(m: Lanes, ins: seq<string>, node: Node, done: seq<nat>, all: (Lanes, seq<nat>))
    requires Remaining(m, ins, |ins|, node, done, all)
    ensures (m, done) == all
  {
    assert ins[|ins|..] == [] && done + [] == done;
  }

  lemma {:induction false} RemainingStep(m: Lanes, ins: seq<string>, i: nat, node: Node, done: seq<nat>,
                                         all: (Lanes, seq<nat>))
    requires i < |ins| && Remaining(m, ins, i, node, done, all)
    ensures Remaining(Touching(m, ins[i], node), ins, i + 1, node, done + [TouchedIndex(m, ins[i])], all)
  {
    assert ins[i..][0] == ins[i] && ins[i..][1..] == ins[i + 1..];
    var next, k := Touching(m, ins[i], node), TouchedIndex(m, ins[i]);
    var rest := Resolve(next, ins[i + 1..], node).1;
    assert done + ([k] + rest) == (done + [k]) + rest;
  }

  /** Lanes of a served history: sort it, then apply op after op. */
  method BuildLanes(nodes: seq<Node>) returns (b: Builder)
    ensures fresh(b) && b.Valid() && b.view == Build(nodes)
  {
    var ordered := Sorting.Sort(IN_SEQUENCE, nodes);
    b := new Builder();
    for i := 0 to |ordered|
      invariant fresh(b) && b.Valid() && forall k :: 0 <= k < |b.lanes| ==> fresh(b.lanes[k])
      invariant Walk(b.view, ordered[i..]) == Build(nodes)
    {
      assert ordered[i..][0] == ordered[i] && ordered[i..][1..] == ordered[i + 1..];
      b.Apply(ordered[i]);
    }
  }
}

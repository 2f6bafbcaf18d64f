/**
 * A document's history as the lives of its solids.
 *
 * This module is the walk over the operations as functions on values; LaneBuilder runs it on mutable lanes, and
 * LaneInvariants, LaneAccounting and LaneConservation prove what the walk guarantees.
 */
module LineageLanes {
  import opened Wrappers
  import Sorting

  /** One operation of the served history. */
  datatype Node = Node(id: string, sequence: int, operation: string,
                       inputs: seq<string>, outputs: seq<string>, deleted: seq<string>, linked: bool)

  /** Why a lane stopped. */
  datatype LaneEnd =
    | Live
    | Merged(intoLane: nat, at: int)
    | Deleted(at: int)
    | Dangling(at: int)
    | Shadowed(at: int)

  datatype Tick = Tick(node: Node, entity: string, rebirth: bool)

  /** One solid's life. */
  datatype LaneRecord = LaneRecord(index: nat, bornAs: string, current: string, ticks: seq<Tick>, bornAt: int,
                                   end: LaneEnd, absorbed: seq<nat>, enteredFromBeforeWindow: bool)

  /** The lanes so far, which lane carries each live entity, and the ops that touched no lane. */
  datatype Lanes = Lanes(lanes: seq<LaneRecord>, carrier: map<string, nat>, unattached: seq<Node>, onLanes: nat)

  predicate IsSolid(ref: string) {
    "solid:" <= ref
  }

  function Solids(refs: seq<string>): (r: seq<string>)
    ensures |r| <= |refs|
    ensures forall x :: x in r <==> x in refs && IsSolid(x)
  {
    if refs == [] then [] else (if IsSolid(refs[0]) then [refs[0]] else []) + Solids(refs[1..])
  }

  function Ins(node: Node): seq<string> { Solids(node.inputs) }

  function Outs(node: Node): seq<string> { Solids(node.outputs) }

  function Dels(node: Node): seq<string> { Solids(node.deleted) }

  /** The op records solid refs; any other op touches no lane. */
  predicate Attached(node: Node) {
    node.linked && (Ins(node) != [] || Outs(node) != [] || Dels(node) != [])
  }

  /** `text.includes("delete")` */
  predicate IncludesDelete(text: string) {
    "delete" <= text || (text != "" && IncludesDelete(text[1..]))
  }

  /** Carriers name lanes that exist. */
  predicate Sane(m: Lanes) {
    forall e :: e in m.carrier ==> m.carrier[e] < |m.lanes|
  }

  // ----- the phases of one op -----

  function Open(m: Lanes, entity: string, node: Node, fromBeforeWindow: bool): (r: Lanes)
    requires Sane(m)
    ensures Sane(r) && |r.lanes| == |m.lanes| + 1
  {
    var n := |m.lanes|;
    m.(lanes := m.lanes + [LaneRecord(n, entity, entity, [], node.sequence, Live, [], fromBeforeWindow)],
       carrier := m.carrier[entity := n])
  }

  predicate Within(touched: seq<nat>, m: Lanes) {
    forall k :: 0 <= k < |touched| ==> touched[k] < |m.lanes|
  }

  /** The lanes the inputs name; an input nothing carries opens a lane that enters from before the window. */
  function Resolve(m: Lanes, ins: seq<string>, node: Node): (r: (Lanes, seq<nat>))
    requires Sane(m)
    ensures Sane(r.0) && Within(r.1, r.0) && |r.1| == |ins| && |m.lanes| <= |r.0.lanes|
    ensures r.0.unattached == m.unattached && r.0.onLanes == m.onLanes
    decreases |ins|
  {
    if ins == [] then (m, [])
    else if ins[0] in m.carrier then
      var (m', touched) := Resolve(m, ins[1..], node);
      (m', [m.carrier[ins[0]]] + touched)
    else
      var (m', touched) := Resolve(Open(m, ins[0], node, true), ins[1..], node);
      (m', [|m.lanes|] + touched)
  }

  /** A touched lane ticks and lets go of its entity; unless it is the survivor, it merges into it. */
  function Consume(m: Lanes, lane: nat, survivor: nat, node: Node): (r: Lanes)
    requires Sane(m) && lane < |m.lanes| && survivor < |m.lanes|
    ensures Sane(r) && |r.lanes| == |m.lanes|
  {
    var rec := m.lanes[lane];
    var ticked := rec.(ticks := rec.ticks + [Tick(node, rec.current, false)]);
    var carrier := m.carrier - {rec.current};
    if lane == survivor then m.(lanes := m.lanes[lane := ticked], carrier := carrier)
    else
      var merged := m.lanes[lane := ticked.(end := Merged(survivor, node.sequence))];
      var s := merged[survivor];
      m.(lanes := merged[survivor := s.(absorbed := s.absorbed + [lane])], carrier := carrier)
  }

  function ConsumeAll(m: Lanes, touched: seq<nat>, survivor: nat, node: Node): (r: Lanes)
    requires Sane(m) && Within(touched, m) && survivor < |m.lanes|
    ensures Sane(r) && |r.lanes| == |m.lanes|
    ensures r.unattached == m.unattached && r.onLanes == m.onLanes
    decreases |touched|
  {
    if touched == [] then m else ConsumeAll(Consume(m, touched[0], survivor, node), touched[1..], survivor, node)
  }

  /** A deleted entity that some lane carries ends that lane. */
  function Delete(m: Lanes, ref: string, node: Node): (r: Lanes)
    requires Sane(m)
    ensures Sane(r) && |r.lanes| == |m.lanes|
  {
    if ref !in m.carrier then m
    else
      var k := m.carrier[ref];
      var lane := m.lanes[k];
      m.(lanes := m.lanes[k := lane.(ticks := lane.ticks + [Tick(node, ref, false)], end := Deleted(node.sequence))],
         carrier := m.carrier - {ref})
  }

  function DeleteAll(m: Lanes, refs: seq<string>, node: Node): (r: Lanes)
    requires Sane(m)
    ensures Sane(r) && |r.lanes| == |m.lanes|
    ensures r.unattached == m.unattached && r.onLanes == m.onLanes
    decreases |refs|
  {
    if refs == [] then m else DeleteAll(Delete(m, refs[0], node), refs[1..], node)
  }

  /** A survivor whose op produced nothing ends. */
  function EndSurvivor(m: Lanes, survivor: nat, node: Node): (r: Lanes)
    requires Sane(m) && survivor < |m.lanes|
    ensures Sane(r) && |r.lanes| == |m.lanes|
  {
    var end := if IncludesDelete(node.operation) then Deleted(node.sequence) else Dangling(node.sequence);
    m.(lanes := m.lanes[survivor := m.lanes[survivor].(end := end)])
  }

  /** Any other lane that still carries a produced id is broken off. */
  function Shadow(m: Lanes, ref: string, survivor: Option<nat>, node: Node): (r: Lanes)
    requires Sane(m)
    ensures Sane(r) && |r.lanes| == |m.lanes|
  {
    if ref !in m.carrier || Some(m.carrier[ref]) == survivor then m
    else
      var k := m.carrier[ref];
      m.(lanes := m.lanes[k := m.lanes[k].(end := Shadowed(node.sequence))], carrier := m.carrier - {ref})
  }

  /** The survivor takes the produced id on; without one, a lane is born. */
  function Rebirth(m: Lanes, ref: string, survivor: Option<nat>, node: Node): (r: Lanes)
    requires Sane(m) && (survivor.Some? ==> survivor.value < |m.lanes|)
    ensures Sane(r) && |r.lanes| == |m.lanes| + if survivor.Some? then 0 else 1
  {
    match survivor
    case Some(k) =>
      var lane := m.lanes[k];
      m.(lanes := m.lanes[k := lane.(current := ref, ticks := lane.ticks + [Tick(node, ref, true)])],
         carrier := m.carrier[ref := k])
    case None =>
      var born := Open(m, ref, node, false);
      var k := |m.lanes|;
      born.(lanes := born.lanes[k := born.lanes[k].(ticks := [Tick(node, ref, true)])])
  }

  function ProduceAll(m: Lanes, outs: seq<string>, survivor: Option<nat>, node: Node): (r: Lanes)
    requires Sane(m) && (survivor.Some? ==> survivor.value < |m.lanes|)
    ensures Sane(r) && |r.lanes| >= |m.lanes|
    ensures r.unattached == m.unattached && r.onLanes == m.onLanes
    decreases |outs|
  {
    if outs == [] then m
    else ProduceAll(Rebirth(Shadow(m, outs[0], survivor, node), outs[0], survivor, node), outs[1..], survivor, node)
  }

  /** Resolve and consume the inputs: the lanes after it, and the survivor. */
  function TakeInputs(m: Lanes, node: Node): (r: (Lanes, Option<nat>))
    requires Sane(m)
    ensures Sane(r.0) && |r.0.lanes| >= |m.lanes| && (r.1.Some? ==> r.1.value < |r.0.lanes|)
    ensures r.1.Some? <==> Ins(node) != []
    ensures r.0.unattached == m.unattached && r.0.onLanes == m.onLanes
  {
    var (resolved, touched) := Resolve(m, Ins(node), node);
    if touched == [] then (resolved, None)
    else (ConsumeAll(resolved, touched, touched[0], node), Some(touched[0]))
  }

  /** Consume the inputs, apply the deletes, and end a survivor that has no successor: the lanes, and the survivor. */
  function BeforeOutputs(m: Lanes, node: Node): (r: (Lanes, Option<nat>))
    requires Sane(m)
    ensures Sane(r.0) && |r.0.lanes| >= |m.lanes| && (r.1.Some? ==> r.1.value < |r.0.lanes|)
    ensures r.1.Some? <==> Ins(node) != []
    ensures r.0.unattached == m.unattached && r.0.onLanes == m.onLanes
  {
    var (taken, survivor) := TakeInputs(m, node);
    var deleted := DeleteAll(taken, Dels(node), node);
    (if Outs(node) == [] && survivor.Some? then EndSurvivor(deleted, survivor.value, node) else deleted, survivor)
  }

  /** `onLanes++` */
  function Counted(m: Lanes): Lanes {
    m.(onLanes := m.onLanes + 1)
  }

  /** One op of the walk. */
  function Step(m: Lanes, node: Node): (r: Lanes)
    requires Sane(m)
    ensures Sane(r)
  {
    if !Attached(node) then m.(unattached := m.unattached + [node])
    else
      var (ready, survivor) := BeforeOutputs(Counted(m), node);
      ProduceAll(ready, Outs(node), survivor, node)
  }

  const NO_LANES := Lanes([], map[], [], 0)

  function Walk(m: Lanes, nodes: seq<Node>): (r: Lanes)
    requires Sane(m)
    ensures Sane(r)
    decreases |nodes|
  {
    if nodes == [] then m else Walk(Step(m, nodes[0]), nodes[1..])
  }

  const IN_SEQUENCE := (a: Node, b: Node) => a.sequence <= b.sequence

  function Build(nodes: seq<Node>): Lanes {
    Walk(NO_LANES, Sorting.Sort(IN_SEQUENCE, nodes))
  }
}

/**
 * What a finished walk says about its history: where an id comes from, which lanes an op can change, and in what order.
 */
module LaneAccounting {
  import opened Wrappers
  import opened LineageLanes
  import opened LaneInvariants
  import Sorting

  // ----- an op changes only the lanes its references name -----

  ghost predicate Named(m: Lanes, refs: seq<string>, i: nat) {
    exists e :: e in refs && e in m.carrier && m.carrier[e] == i
  }

  /** Every entity lane `i` carries in `n` it carried in `m`. */
  ghost predicate CarriesLess(n: Lanes, m: Lanes, i: nat) {
    forall e :: e in n.carrier && n.carrier[e] == i ==> e in m.carrier && m.carrier[e] == i
  }

  lemma {:induction false} ResolveSpares(m: Lanes, ins: seq<string>, node: Node, i: nat)
    requires Sane(m) && i < |m.lanes| && !Named(m, ins, i)
    ensures var (r, touched) := Resolve(m, ins, node);
            r.lanes[i] == m.lanes[i] && i !in touched && CarriesLess(r, m, i)
    decreases |ins|
  {
    if ins != [] {
      assert ins == [ins[0]] + ins[1..];
      ResolveSpares(if ins[0] in m.carrier then m else Open(m, ins[0], node, true), ins[1..], node, i);
    }
  }

  lemma {:induction false} ConsumeAllSpares(m: Lanes, touched: seq<nat>, s: nat, node: Node, i: nat)
    requires Sane(m) && Within(touched, m) && s < |m.lanes| && i < |m.lanes| && i !in touched && i != s
    ensures var r := ConsumeAll(m, touched, s, node); r.lanes[i] == m.lanes[i] && CarriesLess(r, m, i)
    decreases |touched|
  {
    if touched != [] {
      ConsumeAllSpares(Consume(m, touched[0], s, node), touched[1..], s, node, i);
    }
  }

  lemma {:induction false} DeleteAllSpares(m: Lanes, refs: seq<string>, node: Node, i: nat)
    requires Sane(m) && i < |m.lanes| && !Named(m, refs, i)
    ensures var r := DeleteAll(m, refs, node); r.lanes[i] == m.lanes[i] && CarriesLess(r, m, i)
    decreases |refs|
  {
    if refs != [] {
      assert refs[0] in refs;
      DeleteAllSpares(Delete(m, refs[0], node), refs[1..], node, i);
    }
  }

  lemma {:induction false} ProduceAllSpares(m: Lanes, outs: seq<string>, s: Option<nat>, node: Node, i: nat)
    requires Sane(m) && (s.Some? ==> s.value < |m.lanes|)
    requires i < |m.lanes| && s != Some(i) && !Named(m, outs, i)
    ensures ProduceAll(m, outs, s, node).lanes[i] == m.lanes[i]
    ensures forall e :: e !in outs && e in m.carrier ==>
              e in ProduceAll(m, outs, s, node).carrier && ProduceAll(m, outs, s, node).carrier[e] == m.carrier[e]
    decreases |outs|
  {
    if outs != [] {
      assert outs[0] in outs;
      ProduceAllSpares(Rebirth(Shadow(m, outs[0], s, node), outs[0], s, node), outs[1..], s, node, i);
    }
  }

  lemma {:induction false} TakeInputsSpares(m: Lanes, node: Node, i: nat)
    requires Sane(m) && i < |m.lanes| && !Named(m, Ins(node), i)
    ensures var (r, s) := TakeInputs(m, node); r.lanes[i] == m.lanes[i] && s != Some(i) && CarriesLess(r, m, i)
  {
    ResolveSpares(m, Ins(node), node, i);
    var (resolved, touched) := Resolve(m, Ins(node), node);
    if touched != [] {
      ConsumeAllSpares(resolved, touched, touched[0], node, i);
    }
  }

  lemma {:induction false} BeforeOutputsSpares(m: Lanes, node: Node, i: nat)
    requires Sane(m) && i < |m.lanes| && !Named(m, Ins(node), i) && !Named(m, Dels(node), i)
    ensures var (r, s) := BeforeOutputs(m, node); r.lanes[i] == m.lanes[i] && s != Some(i) && CarriesLess(r, m, i)
  {
    TakeInputsSpares(m, node, i);
    DeleteAllSpares(TakeInputs(m, node).0, Dels(node), node, i);
  }

  /** An op leaves every lane alone that carries none of its references. */
  lemma {:induction false} StepSpares(m: Lanes, node: Node, i: nat)
    requires Sane(m) && i < |m.lanes|
    requires !Named(m, Ins(node), i) && !Named(m, Dels(node), i) && !Named(m, Outs(node), i)
    ensures Step(m, node).lanes[i] == m.lanes[i]
  {
    if Attached(node) {
      var start := Counted(m);
      BeforeOutputsSpares(start, node, i);
      var (ready, s) := BeforeOutputs(start, node);
      ProduceAllSpares(ready, Outs(node), s, node, i);
    }
  }

  /** A lane that has ended never changes again: no tick, no new end. */
  lemma {:induction false} EndedStays(m: Lanes, nodes: seq<Node>, i: nat)
    requires Inv(m) && AllSingle(nodes) && i < |m.lanes| && !m.lanes[i].end.Live?
    ensures Sane(m) && i < |Walk(m, nodes).lanes| && Walk(m, nodes).lanes[i] == m.lanes[i]
    decreases |nodes|
  {
    if nodes != [] {
      StepKeeps(m, nodes[0]);
      StepSpares(m, nodes[0], i);
      EndedStays(Step(m, nodes[0]), nodes[1..], i);
    }
  }

  // ----- ticks are only ever appended, by the op at hand -----

  function TicksOf(m: Lanes, i: nat): seq<Tick> {
    if i < |m.lanes| then m.lanes[i].ticks else []
  }

  ghost predicate Grew(before: seq<Tick>, after: seq<Tick>, node: Node) {
    before <= after && forall k :: |before| <= k < |after| ==> after[k].node == node
  }

  lemma {:induction false} ResolveGrows(m: Lanes, ins: seq<string>, node: Node, i: nat)
    requires Sane(m)
    ensures TicksOf(Resolve(m, ins, node).0, i) == TicksOf(m, i)
    decreases |ins|
  {
    if ins != [] {
      ResolveGrows(if ins[0] in m.carrier then m else Open(m, ins[0], node, true), ins[1..], node, i);
    }
  }

  lemma {:induction false} ConsumeAllGrows(m: Lanes, touched: seq<nat>, s: nat, node: Node, i: nat)
    requires Sane(m) && Within(touched, m) && s < |m.lanes|
    ensures Grew(TicksOf(m, i), TicksOf(ConsumeAll(m, touched, s, node), i), node)
    decreases |touched|
  {
    if touched != [] {
      assert Grew(TicksOf(m, i), TicksOf(Consume(m, touched[0], s, node), i), node);
      ConsumeAllGrows(Consume(m, touched[0], s, node), touched[1..], s, node, i);
    }
  }

  lemma {:induction false} DeleteAllGrows(m: Lanes, refs: seq<string>, node: Node, i: nat)
    requires Sane(m)
    ensures Grew(TicksOf(m, i), TicksOf(DeleteAll(m, refs, node), i), node)
    decreases |refs|
  {
    if refs != [] {
      assert Grew(TicksOf(m, i), TicksOf(Delete(m, refs[0], node), i), node);
      DeleteAllGrows(Delete(m, refs[0], node), refs[1..], node, i);
    }
  }

  lemma {:induction false} ProduceAllGrows(m: Lanes, outs: seq<string>, s: Option<nat>, node: Node, i: nat)
    requires Sane(m) && (s.Some? ==> s.value < |m.lanes|)
    ensures Grew(TicksOf(m, i), TicksOf(ProduceAll(m, outs, s, node), i), node)
    decreases |outs|
  {
    if outs != [] {
      var n := Rebirth(Shadow(m, outs[0], s, node), outs[0], s, node);
      assert Grew(TicksOf(m, i), TicksOf(n, i), node);
      ProduceAllGrows(n, outs[1..], s, node, i);
    }
  }

  lemma {:induction false} BeforeOutputsGrows(m: Lanes, node: Node, i: nat)
    requires Sane(m)
    ensures Grew(TicksOf(m, i), TicksOf(BeforeOutputs(m, node).0, i), node)
  {
    ResolveGrows(m, Ins(node), node, i);
    var (resolved, touched) := Resolve(m, Ins(node), node);
    if touched != [] {
      ConsumeAllGrows(resolved, touched, touched[0], node, i);
    }
    var (taken, s) := TakeInputs(m, node);
    assert Grew(TicksOf(m, i), TicksOf(taken, i), node);
    var deleted := DeleteAll(taken, Dels(node), node);
    DeleteAllGrows(taken, Dels(node), node, i);
    assert TicksOf(BeforeOutputs(m, node).0, i) == TicksOf(deleted, i);
  }

  /** An op only appends ticks, and only its own. */
  lemma {:induction false} StepGrows(m: Lanes, node: Node, i: nat)
    requires Sane(m)
    ensures Grew(TicksOf(m, i), TicksOf(Step(m, node), i), node)
  {
    if Attached(node) {
      var start := Counted(m);
      BeforeOutputsGrows(start, node, i);
      var (ready, s) := BeforeOutputs(start, node);
      ProduceAllGrows(ready, Outs(node), s, node, i);
    }
  }

  ghost predicate TicksInOrder(ticks: seq<Tick>) {
    forall j, k :: 0 <= j < k < |ticks| ==> ticks[j].node.sequence <= ticks[k].node.sequence
  }

  ghost predicate TicksUpTo(ticks: seq<Tick>, limit: int) {
    forall k :: 0 <= k < |ticks| ==> ticks[k].node.sequence <= limit
  }

  lemma {:induction false} WalkInOrder(m: Lanes, nodes: seq<Node>, i: nat)
    requires Sane(m) && Sorting.SortedBy(IN_SEQUENCE, nodes) && TicksInOrder(TicksOf(m, i))
    requires nodes != [] ==> TicksUpTo(TicksOf(m, i), nodes[0].sequence)
    ensures TicksInOrder(TicksOf(Walk(m, nodes), i))
    decreases |nodes|
  {
    if nodes != [] {
      StepGrows(m, nodes[0], i);
      var next := Step(m, nodes[0]);
      assert TicksInOrder(TicksOf(next, i)) && TicksUpTo(TicksOf(next, i), nodes[0].sequence);
      if |nodes| > 1 {
        assert IN_SEQUENCE(nodes[0], nodes[1]);
      }
      WalkInOrder(next, nodes[1..], i);
    }
  }

  /** In every lane of a built document, ticks stand in sequence order. */
  lemma {:induction false} BuildInOrder(nodes: seq<Node>, i: nat)
    ensures TicksInOrder(TicksOf(Build(nodes), i))
  {
    Sorting.SortIsSortedPermutation(IN_SEQUENCE, nodes);
    WalkInOrder(NO_LANES, Sorting.Sort(IN_SEQUENCE, nodes), i);
  }

  // ----- an id resolves to its most recent production -----

  /**
   * The op whose production of `e` still stands after `past`: produced there, and neither used up nor deleted since.
   */
  function Producer(past: seq<Node>, e: string): Option<Node>
    decreases |past|
  {
    if past == [] then None
    else
      var node := past[|past| - 1];
      if Attached(node) && e in Outs(node) then Some(node)
      else if Attached(node) && (e in Ins(node) || e in Dels(node)) then None
      else Producer(past[..|past| - 1], e)
  }

  /** `e` is carried, by a lane whose last tick is the production of `e` by `node`. */
  ghost predicate ComesFrom(m: Lanes, e: string, node: Node) {
    && e in m.carrier && m.carrier[e] < |m.lanes|
    && var ticks := m.lanes[m.carrier[e]].ticks; ticks != [] && ticks[|ticks| - 1] == Tick(node, e, true)
  }

  lemma {:induction false} RebirthComesFrom(m: Lanes, e: string, s: Option<nat>, node: Node)
    requires Sane(m) && (s.Some? ==> s.value < |m.lanes|)
    ensures ComesFrom(Rebirth(m, e, s, node), e, node)
  {
  }

  lemma {:induction false} SuccessorComesFrom(m: Lanes, outs: seq<string>, s: nat, node: Node, e: string)
    requires Sane(m) && s < |m.lanes| && AllAre(outs, e)
    requires outs != [] || ComesFrom(m, e, node)
    ensures ComesFrom(ProduceAll(m, outs, Some(s), node), e, node)
    decreases |outs|
  {
    if outs != [] {
      RebirthComesFrom(Shadow(m, e, Some(s), node), e, Some(s), node);
      SuccessorComesFrom(Rebirth(Shadow(m, e, Some(s), node), e, Some(s), node), outs[1..], s, node, e);
    }
  }

  lemma {:induction false} BirthsComeFrom(m: Lanes, outs: seq<string>, node: Node, e: string)
    requires Inv(m) && (e in outs || ComesFrom(m, e, node))
    ensures Sane(m) && ComesFrom(ProduceAll(m, outs, None, node), e, node)
    decreases |outs|
  {
    if outs != [] {
      var ref := outs[0];
      var n := Rebirth(Shadow(m, ref, None, node), ref, None, node);
      ShadowKeeps(m, ref, None, node);
      RebirthKeeps(Shadow(m, ref, None, node), ref, None, node);
      RebirthComesFrom(Shadow(m, ref, None, node), ref, None, node);
      assert e in outs[1..] || ComesFrom(n, e, node);
      BirthsComeFrom(n, outs[1..], node, e);
    }
  }

  lemma {:induction false} ProduceComesFrom(m: Lanes, outs: seq<string>, s: Option<nat>, node: Node, e: string)
    requires InvBut(m, s) && e in outs && (s.Some? ==> AllAre(outs, outs[0]))
    ensures Sane(m) && (s.Some? ==> s.value < |m.lanes|) && ComesFrom(ProduceAll(m, outs, s, node), e, node)
  {
    if s.Some? {
      SuccessorComesFrom(m, outs, s.value, node, e);
    } else {
      BirthsComeFrom(m, outs, node, e);
    }
  }

  lemma {:induction false} StepComesFrom(m: Lanes, node: Node, e: string)
    requires Inv(m) && SingleSuccessor(node) && Attached(node) && e in Outs(node)
    ensures Sane(m) && ComesFrom(Step(m, node), e, node)
  {
    ReadyKeeps(m, node);
    var (ready, s) := BeforeOutputs(Counted(m), node);
    ProduceComesFrom(ready, Outs(node), s, node, e);
  }

  /** An op leaves the lane of an entity it does not mention, and its carrier entry. */
  lemma {:induction false} UnmentionedStays(m: Lanes, node: Node, e: string)
    requires Inv(m) && SingleSuccessor(node) && e in m.carrier
    requires Attached(node) ==> e !in Ins(node) && e !in Dels(node) && e !in Outs(node)
    ensures Sane(m) && e in Step(m, node).carrier && Step(m, node).carrier[e] == m.carrier[e]
    ensures m.carrier[e] < |Step(m, node).lanes| && Step(m, node).lanes[m.carrier[e]] == m.lanes[m.carrier[e]]
  {
    if Attached(node) {
      StepKeeps(m, node);
      StepSpares(m, node, m.carrier[e]);
    }
  }

  lemma {:induction false} WalkAppend(m: Lanes, nodes: seq<Node>, node: Node)
    requires Sane(m)
    ensures Walk(m, nodes + [node]) == Step(Walk(m, nodes), node)
    decreases |nodes|
  {
    if nodes != [] {
      assert (nodes + [node])[1..] == nodes[1..] + [node];
      WalkAppend(Step(m, nodes[0]), nodes[1..], node);
    } else {
      assert ([node] + [])[1..] == [];
    }
  }

  /**
   * However often an id is recycled, it is carried exactly when its last production still stands, and then by the
   * lane that production ticked last.
   */
  lemma {:induction false} CarriedIsLastProduced(nodes: seq<Node>, e: string)
    requires AllSingle(nodes)
    ensures var m := Walk(NO_LANES, nodes);
            match Producer(nodes, e)
            case Some(node) => ComesFrom(m, e, node)
            case None => e !in m.carrier
    decreases |nodes|
  {
    if nodes != [] {
      var past, node := nodes[..|nodes| - 1], nodes[|nodes| - 1];
      assert nodes == past + [node];
      CarriedIsLastProduced(past, e);
      WalkAppend(NO_LANES, past, node);
      WalkKeeps(NO_LANES, past);
      var m := Walk(NO_LANES, past);
      StepKeeps(m, node);
      if Attached(node) && e in Outs(node) {
        StepComesFrom(m, node, e);
      } else if Attached(node) && (e in Ins(node) || e in Dels(node)) {
      } else if e in m.carrier {
        UnmentionedStays(m, node, e);
      }
    }
  }
}

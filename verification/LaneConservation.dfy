/**
 * Conservation over whole histories: every op is accounted for, every tick is one reference, and every merge leads
 * somewhere.
 */
module LaneConservation {
  import opened Wrappers
  import opened LineageLanes
  import opened LaneInvariants
  import opened LaneAccounting
  import Sorting

  // ----- following `intoLane` always ends -----

  /** From lane `i`, at most `n` merges lead to a lane that did not merge. */
  ghost predicate Settles(m: Lanes, i: nat, n: nat)
    decreases n
  {
    i < |m.lanes| && (m.lanes[i].end.Merged? ==> n > 0 && Settles(m, m.lanes[i].end.intoLane, n - 1))
  }

  /** A lane that merged ranks below the lane it merged into. */
  ghost predicate Ranked(m: Lanes, rank: seq<nat>, top: nat) {
    && |rank| == |m.lanes|
    && (forall i :: 0 <= i < |rank| ==> rank[i] <= top)
    && (forall i :: 0 <= i < |m.lanes| && m.lanes[i].end.Merged? ==>
          m.lanes[i].end.intoLane < |m.lanes| && rank[i] < rank[m.lanes[i].end.intoLane])
  }

  lemma {:induction false} RankedSettles(m: Lanes, rank: seq<nat>, top: nat, i: nat, n: nat)
    requires Ranked(m, rank, top) && i < |m.lanes| && top - rank[i] <= n
    ensures Settles(m, i, n)
    decreases n
  {
    if m.lanes[i].end.Merged? {
      RankedSettles(m, rank, top, m.lanes[i].end.intoLane, n - 1);
    }
  }

  ghost predicate Rankable(m: Lanes, top: nat) {
    exists rank :: Ranked(m, rank, top)
  }

  lemma {:induction false} RankableSettles(m: Lanes, top: nat, i: nat)
    requires Rankable(m, top) && i < |m.lanes|
    ensures Settles(m, i, top)
  {
    var rank :| Ranked(m, rank, top);
    RankedSettles(m, rank, top, i, top);
  }

  /** Every merge in `n` is one of `m`. */
  ghost predicate NoNewMerges(m: Lanes, n: Lanes) {
    && |m.lanes| <= |n.lanes|
    && forall i :: 0 <= i < |n.lanes| && n.lanes[i].end.Merged? ==> i < |m.lanes| && n.lanes[i].end == m.lanes[i].end
  }

  lemma {:induction false} NoNewMergesRankable(m: Lanes, n: Lanes, top: nat)
    requires Rankable(m, top) && NoNewMerges(m, n)
    ensures Rankable(n, top)
  {
    var rank :| Ranked(m, rank, top);
    assert Ranked(n, rank + seq(|n.lanes| - |rank|, _ => 0), top);
  }

  lemma {:induction false} ResolveMergesNone(m: Lanes, ins: seq<string>, node: Node)
    requires Sane(m)
    ensures NoNewMerges(m, Resolve(m, ins, node).0)
    decreases |ins|
  {
    if ins != [] {
      ResolveMergesNone(if ins[0] in m.carrier then m else Open(m, ins[0], node, true), ins[1..], node);
    }
  }

  lemma {:induction false} DeleteAllMergesNone(m: Lanes, refs: seq<string>, node: Node)
    requires Sane(m)
    ensures NoNewMerges(m, DeleteAll(m, refs, node))
    decreases |refs|
  {
    if refs != [] {
      DeleteAllMergesNone(Delete(m, refs[0], node), refs[1..], node);
    }
  }

  lemma {:induction false} ProduceAllMergesNone(m: Lanes, outs: seq<string>, s: Option<nat>, node: Node)
    requires Sane(m) && (s.Some? ==> s.value < |m.lanes|)
    ensures NoNewMerges(m, ProduceAll(m, outs, s, node))
    decreases |outs|
  {
    if outs != [] {
      ProduceAllMergesNone(Rebirth(Shadow(m, outs[0], s, node), outs[0], s, node), outs[1..], s, node);
    }
  }

  /** Consuming merges lanes only into the survivor. */
  lemma {:induction false} ConsumeAllRanked(m: Lanes, touched: seq<nat>, s: nat, node: Node, rank: seq<nat>, top: nat)
    requires Sane(m) && Within(touched, m) && s < |m.lanes|
    requires Ranked(m, rank, top) && forall i :: 0 <= i < |rank| && i != s ==> rank[i] < rank[s]
    ensures Ranked(ConsumeAll(m, touched, s, node), rank, top)
    decreases |touched|
  {
    if touched != [] {
      assert Ranked(Consume(m, touched[0], s, node), rank, top);
      ConsumeAllRanked(Consume(m, touched[0], s, node), touched[1..], s, node, rank, top);
    }
  }

  /** The survivor is live, so it can be ranked above every lane that merges into it. */
  lemma {:induction false} TakeInputsRankable(m: Lanes, node: Node, top: nat)
    requires Inv(m) && Rankable(m, top)
    ensures Sane(m) && Rankable(TakeInputs(m, node).0, top + 1)
  {
    var ins := Ins(node);
    ResolveKeeps(m, ins, node);
    ResolveCarries(m, ins, node);
    ResolveMergesNone(m, ins, node);
    var (n, touched) := Resolve(m, ins, node);
    NoNewMergesRankable(m, n, top);
    var rank :| Ranked(n, rank, top);
    assert Ranked(n, rank, top + 1);
    if touched != [] {
      var s := touched[0];
      assert ins[0] in n.carrier && n.lanes[s].end.Live?;
      ConsumeAllRanked(n, touched, s, node, rank[s := top + 1], top + 1);
    }
  }

  lemma {:induction false} StepRankable(m: Lanes, node: Node, top: nat)
    requires Inv(m) && Rankable(m, top)
    ensures Sane(m) && Rankable(Step(m, node), top + 1)
  {
    if Attached(node) {
      var start := Counted(m);
      MergesKept(m, start);
      NoNewMergesRankable(m, start, top);
      TakeInputsRankable(start, node, top);
      var (taken, s) := TakeInputs(start, node);
      DeleteAllMergesNone(taken, Dels(node), node);
      var (ready, _) := BeforeOutputs(start, node);
      assert NoNewMerges(taken, ready);
      ProduceAllMergesNone(ready, Outs(node), s, node);
      NoNewMergesRankable(taken, ready, top + 1);
      NoNewMergesRankable(ready, Step(m, node), top + 1);
    } else {
      var rank :| Ranked(m, rank, top);
      assert Ranked(Step(m, node), rank, top + 1);
    }
  }

  lemma {:induction false} WalkRankable(m: Lanes, nodes: seq<Node>, top: nat)
    requires Inv(m) && AllSingle(nodes) && Rankable(m, top)
    ensures Sane(m) && Rankable(Walk(m, nodes), top + |nodes|)
    decreases |nodes|
  {
    if nodes != [] {
      StepRankable(m, nodes[0], top);
      StepKeeps(m, nodes[0]);
      WalkRankable(Step(m, nodes[0]), nodes[1..], top + 1);
    }
  }

  lemma {:induction false} NoLanesRankable()
    ensures Rankable(NO_LANES, 0)
  {
    assert Ranked(NO_LANES, [], 0);
  }

  /** Following `intoLane`, from any lane, reaches one that did not merge within `n` links. */
  ghost predicate AllSettle(m: Lanes, n: nat) {
    forall i :: 0 <= i < |m.lanes| ==> Settles(m, i, n)
  }

  lemma {:induction false} MergesSettle(m: Lanes, nodes: seq<Node>, top: nat)
    requires Inv(m) && AllSingle(nodes) && Rankable(m, top)
    ensures Sane(m) && AllSettle(Walk(m, nodes), top + |nodes|)
  {
    WalkRankable(m, nodes, top);
    var r := Walk(m, nodes);
    var n := top + |nodes|;
    forall i | 0 <= i < |r.lanes| ensures Settles(r, i, n) {
      RankableSettles(r, n, i);
    }
  }

  // ----- every op is accounted for -----

  function Unattached(nodes: seq<Node>): seq<Node>
    decreases |nodes|
  {
    if nodes == [] then [] else (if Attached(nodes[0]) then [] else [nodes[0]]) + Unattached(nodes[1..])
  }

  lemma {:induction false} StepAccounts(m: Lanes, node: Node)
    requires Sane(m)
    ensures var r := Step(m, node);
            && r.unattached == m.unattached + (if Attached(node) then [] else [node])
            && r.onLanes == m.onLanes + (if Attached(node) then 1 else 0)
  {
  }

  lemma {:induction false} WalkAccounts(m: Lanes, nodes: seq<Node>)
    requires Sane(m)
    ensures Walk(m, nodes).unattached == m.unattached + Unattached(nodes)
    ensures Walk(m, nodes).onLanes + |Unattached(nodes)| == m.onLanes + |nodes|
    decreases |nodes|
  {
    if nodes == [] {
      assert m.unattached + [] == m.unattached;
    } else {
      var first := if Attached(nodes[0]) then [] else [nodes[0]];
      StepAccounts(m, nodes[0]);
      WalkAccounts(Step(m, nodes[0]), nodes[1..]);
      assert (m.unattached + first) + Unattached(nodes[1..]) == m.unattached + (first + Unattached(nodes[1..]));
    }
  }

  // ----- every tick is one reference -----

  function Total(lanes: seq<LaneRecord>): nat
    decreases |lanes|
  {
    if lanes == [] then 0 else |lanes[0].ticks| + Total(lanes[1..])
  }

  lemma {:induction false} TotalUpdate(lanes: seq<LaneRecord>, k: nat, lane: LaneRecord)
    requires k < |lanes|
    ensures Total(lanes[k := lane]) == Total(lanes) - |lanes[k].ticks| + |lane.ticks|
    decreases |lanes|
  {
    if k == 0 {
      assert lanes[0 := lane][1..] == lanes[1..];
    } else {
      assert lanes[k := lane][1..] == lanes[1..][k - 1 := lane];
      TotalUpdate(lanes[1..], k - 1, lane);
    }
  }

  lemma {:induction false} TotalPush(lanes: seq<LaneRecord>, lane: LaneRecord)
    ensures Total(lanes + [lane]) == Total(lanes) + |lane.ticks|
    decreases |lanes|
  {
    if lanes != [] {
      assert (lanes + [lane])[1..] == lanes[1..] + [lane];
      TotalPush(lanes[1..], lane);
    }
  }

  lemma {:induction false} ResolveTotal(m: Lanes, ins: seq<string>, node: Node)
    requires Sane(m)
    ensures Total(Resolve(m, ins, node).0.lanes) == Total(m.lanes)
    decreases |ins|
  {
    if ins != [] {
      TotalPush(m.lanes, Open(m, ins[0], node, true).lanes[|m.lanes|]);
      ResolveTotal(if ins[0] in m.carrier then m else Open(m, ins[0], node, true), ins[1..], node);
    }
  }

  lemma {:induction false} ConsumeTotal(m: Lanes, t: nat, s: nat, node: Node)
    requires Sane(m) && t < |m.lanes| && s < |m.lanes|
    ensures Total(Consume(m, t, s, node).lanes) == Total(m.lanes) + 1
  {
    var n := Consume(m, t, s, node);
    TotalUpdate(m.lanes, t, n.lanes[t]);
    var mid := m.lanes[t := n.lanes[t]];
    TotalUpdate(mid, s, n.lanes[s]);
    assert n.lanes == mid[s := n.lanes[s]];
  }

  lemma {:induction false} ConsumeAllTotal(m: Lanes, touched: seq<nat>, s: nat, node: Node)
    requires Sane(m) && Within(touched, m) && s < |m.lanes|
    ensures Total(ConsumeAll(m, touched, s, node).lanes) == Total(m.lanes) + |touched|
    decreases |touched|
  {
    if touched != [] {
      ConsumeTotal(m, touched[0], s, node);
      ConsumeAllTotal(Consume(m, touched[0], s, node), touched[1..], s, node);
    }
  }

  /** The entities of `refs` that some lane carries. */
  function Carried(carrier: map<string, nat>, refs: seq<string>): set<string> {
    set e | e in refs && e in carrier
  }

  lemma {:induction false} DeleteAllTotal(m: Lanes, refs: seq<string>, node: Node)
    requires Sane(m)
    ensures Total(DeleteAll(m, refs, node).lanes) == Total(m.lanes) + |Carried(m.carrier, refs)|
    decreases |refs|
  {
    if refs != [] {
      var n := Delete(m, refs[0], node);
      assert refs == [refs[0]] + refs[1..];
      if refs[0] in m.carrier {
        var k := m.carrier[refs[0]];
        TotalUpdate(m.lanes, k, n.lanes[k]);
        assert Carried(m.carrier, refs) == {refs[0]} + Carried(n.carrier, refs[1..]);
      } else {
        assert Carried(m.carrier, refs) == Carried(n.carrier, refs[1..]);
      }
      DeleteAllTotal(n, refs[1..], node);
    } else {
      assert Carried(m.carrier, refs) == {};
    }
  }

  lemma {:induction false} RebirthTotal(m: Lanes, ref: string, s: Option<nat>, node: Node)
    requires Sane(m) && (s.Some? ==> s.value < |m.lanes|)
    ensures Total(Rebirth(Shadow(m, ref, s, node), ref, s, node).lanes) == Total(m.lanes) + 1
  {
    var shadowed := Shadow(m, ref, s, node);
    if ref in m.carrier {
      var k := m.carrier[ref];
      TotalUpdate(m.lanes, k, shadowed.lanes[k]);
      assert shadowed.lanes == m.lanes[k := shadowed.lanes[k]];
    }
    var r := Rebirth(shadowed, ref, s, node);
    if s.Some? {
      TotalUpdate(shadowed.lanes, s.value, r.lanes[s.value]);
    } else {
      TotalPush(shadowed.lanes, r.lanes[|shadowed.lanes|]);
      assert r.lanes == shadowed.lanes + [r.lanes[|shadowed.lanes|]];
    }
  }

  lemma {:induction false} ProduceAllTotal(m: Lanes, outs: seq<string>, s: Option<nat>, node: Node)
    requires Sane(m) && (s.Some? ==> s.value < |m.lanes|)
    ensures Total(ProduceAll(m, outs, s, node).lanes) == Total(m.lanes) + |outs|
    decreases |outs|
  {
    if outs != [] {
      RebirthTotal(m, outs[0], s, node);
      ProduceAllTotal(Rebirth(Shadow(m, outs[0], s, node), outs[0], s, node), outs[1..], s, node);
    }
  }

  lemma {:induction false} TakeInputsTotal(m: Lanes, node: Node)
    requires Sane(m)
    ensures Total(TakeInputs(m, node).0.lanes) == Total(m.lanes) + |Ins(node)|
  {
    ResolveTotal(m, Ins(node), node);
    var (resolved, touched) := Resolve(m, Ins(node), node);
    if touched != [] {
      ConsumeAllTotal(resolved, touched, touched[0], node);
    }
  }

  lemma {:induction false} BeforeOutputsTotal(m: Lanes, node: Node)
    requires Inv(m)
    ensures Sane(m)
    ensures Total(BeforeOutputs(m, node).0.lanes) ==
            Total(m.lanes) + |Ins(node)| + |set e | e in Dels(node) && e in m.carrier && e !in Ins(node)|
  {
    TakeInputsKeeps(m, node);
    TakeInputsTotal(m, node);
    var (taken, s) := TakeInputs(m, node);
    DeleteAllTotal(taken, Dels(node), node);
    assert Carried(taken.carrier, Dels(node)) == set e | e in Dels(node) && e in m.carrier && e !in Ins(node);
    var deleted := DeleteAll(taken, Dels(node), node);
    if Outs(node) == [] && s.Some? {
      TotalUpdate(deleted.lanes, s.value, EndSurvivor(deleted, s.value, node).lanes[s.value]);
    }
  }

  lemma {:induction false} StepTotal(m: Lanes, node: Node)
    requires Inv(m) && Attached(node)
    ensures Sane(m)
    ensures Total(Step(m, node).lanes) ==
            Total(m.lanes) + |Ins(node)| + |Outs(node)| + |set e | e in Dels(node) && e in m.carrier && e !in Ins(node)|
  {
    MergesKept(m, Counted(m));
    BeforeOutputsTotal(Counted(m), node);
    var (ready, s) := BeforeOutputs(Counted(m), node);
    ProduceAllTotal(ready, Outs(node), s, node);
  }

  /**
   * The ticks a history calls for: one for each solid input and output, and one for each standing solid it only
   * deletes.
   */
  function References(nodes: seq<Node>): nat
    decreases |nodes|
  {
    if nodes == [] then 0
    else
      var past, node := nodes[..|nodes| - 1], nodes[|nodes| - 1];
      References(past) +
      if !Attached(node) then 0
      else |Ins(node)| + |Outs(node)| + |set e | e in Dels(node) && e !in Ins(node) && Producer(past, e).Some?|
  }

  /** The walk neither loses a tick nor adds one. */
  lemma {:induction false} TicksAreReferences(nodes: seq<Node>)
    requires AllSingle(nodes)
    ensures Total(Walk(NO_LANES, nodes).lanes) == References(nodes)
    decreases |nodes|
  {
    if nodes != [] {
      var past, node := nodes[..|nodes| - 1], nodes[|nodes| - 1];
      assert nodes == past + [node];
      TicksAreReferences(past);
      WalkAppend(NO_LANES, past, node);
      WalkKeeps(NO_LANES, past);
      var m := Walk(NO_LANES, past);
      if Attached(node) {
        StepTotal(m, node);
        forall e ensures e in m.carrier <==> Producer(past, e).Some? {
          CarriedIsLastProduced(past, e);
        }
        assert (set e | e in Dels(node) && e in m.carrier && e !in Ins(node))
            == (set e | e in Dels(node) && e !in Ins(node) && Producer(past, e).Some?);
      }
    }
  }

  // ----- the built document -----

  lemma {:induction false} SortKeepsSingle(nodes: seq<Node>)
    requires AllSingle(nodes)
    ensures var ordered := Sorting.Sort(IN_SEQUENCE, nodes); AllSingle(ordered) && |ordered| == |nodes|
  {
    Sorting.SortIsSortedPermutation(IN_SEQUENCE, nodes);
  }

  lemma {:induction false} WalkConserves(m: Lanes, nodes: seq<Node>)
    requires Inv(m) && Rankable(m, 0) && m.unattached == [] && m.onLanes == 0 && AllSingle(nodes)
    ensures Sane(m) && Inv(Walk(m, nodes)) && AllSettle(Walk(m, nodes), |nodes|)
    ensures Walk(m, nodes).onLanes + |Walk(m, nodes).unattached| == |nodes|
  {
    WalkKeeps(m, nodes);
    WalkAccounts(m, nodes);
    MergesSettle(m, nodes, 0);
  }

  /**
   * The invariant, the accounting and the conservation of ticks for a whole document, in whatever order it was served.
   */
  lemma {:induction false} BuildConserves(nodes: seq<Node>)
    requires AllSingle(nodes)
    ensures Inv(Build(nodes)) && AllSettle(Build(nodes), |nodes|)
    ensures Build(nodes).onLanes + |Build(nodes).unattached| == |nodes|
    ensures Total(Build(nodes).lanes) == References(Sorting.Sort(IN_SEQUENCE, nodes))
  {
    SortKeepsSingle(nodes);
    NoLanesRankable();
    WalkConserves(NO_LANES, Sorting.Sort(IN_SEQUENCE, nodes));
    TicksAreReferences(Sorting.Sort(IN_SEQUENCE, nodes));
  }
}

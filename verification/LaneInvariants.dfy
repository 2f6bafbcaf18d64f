/**
 * What every op of the walk keeps: live lanes and carriers match, merges are recorded on both sides, merging never
 * cycles.
 */
module LaneInvariants {
  import opened Wrappers
  import opened LineageLanes
  import Sorting

  // ----- the invariant -----

  /** A carrier entry names a live lane that carries just that entity. */
  ghost predicate CarriersLive(m: Lanes) {
    forall e :: e in m.carrier ==>
      m.carrier[e] < |m.lanes| && m.lanes[m.carrier[e]].current == e && m.lanes[m.carrier[e]].end.Live?
  }

  /** A live lane, other than one in limbo, is carried under its current entity; nothing carries the lane in limbo. */
  ghost predicate LiveCarried(m: Lanes, limbo: Option<nat>) {
    && (forall i :: 0 <= i < |m.lanes| && m.lanes[i].end.Live? && limbo != Some(i) ==>
          m.lanes[i].current in m.carrier && m.carrier[m.lanes[i].current] == i)
    && (limbo.Some? ==>
          && limbo.value < |m.lanes| && m.lanes[limbo.value].end.Live?
          && forall e :: e in m.carrier ==> m.carrier[e] != limbo.value)
  }

  ghost predicate MergedInto(m: Lanes, j: int, i: int) {
    0 <= j < |m.lanes| && m.lanes[j].end.Merged? && m.lanes[j].end.intoLane == i
  }

  /** `absorbed` and `merged into` are inverse relations. */
  ghost predicate MergesMatch(m: Lanes) {
    && (forall i, j :: 0 <= i < |m.lanes| ==> (j in m.lanes[i].absorbed <==> MergedInto(m, j, i)))
    && (forall i, j :: MergedInto(m, j, i) ==> i < |m.lanes|)
  }

  /** The invariant in the middle of an op, while its survivor may be between two ids. */
  ghost predicate InvBut(m: Lanes, limbo: Option<nat>) {
    CarriersLive(m) && LiveCarried(m, limbo) && MergesMatch(m)
  }

  /** The invariant between ops. */
  ghost predicate Inv(m: Lanes) {
    InvBut(m, None)
  }

  // ----- the phases keep it -----

  /** Lanes of `m` keep what they absorbed and whether they merged; new lanes have done neither. */
  ghost predicate MergesUntouched(m: Lanes, n: Lanes) {
    && |m.lanes| <= |n.lanes|
    && (forall i :: 0 <= i < |m.lanes| ==> n.lanes[i].absorbed == m.lanes[i].absorbed)
    && (forall i :: 0 <= i < |m.lanes| ==>
      n.lanes[i].end == m.lanes[i].end || !(n.lanes[i].end.Merged? || m.lanes[i].end.Merged?))
    && (forall i :: |m.lanes| <= i < |n.lanes| ==> n.lanes[i].absorbed == [] && !n.lanes[i].end.Merged?)
  }

  lemma {:induction false} MergesKept(m: Lanes, n: Lanes)
    requires MergesMatch(m) && MergesUntouched(m, n)
    ensures MergesMatch(n)
  {
    forall i, j ensures MergedInto(n, j, i) == MergedInto(m, j, i) {}
    forall i, j | 0 <= i < |n.lanes| ensures j in n.lanes[i].absorbed <==> MergedInto(n, j, i) {
      if i < |m.lanes| {
        assert j in m.lanes[i].absorbed <==> MergedInto(m, j, i);
      }
    }
  }

  /** Lane `t` merges into `s`, or has already. */
  lemma {:induction false} MergeKept(m: Lanes, n: Lanes, t: nat, s: nat)
    requires MergesMatch(m) && t < |m.lanes| && s < |m.lanes| && t != s && |n.lanes| == |m.lanes|
    requires !m.lanes[t].end.Merged? || MergedInto(m, t, s)
    requires MergedInto(n, t, s) && n.lanes[s].absorbed == m.lanes[s].absorbed + [t]
    requires forall i :: 0 <= i < |m.lanes| && i != t ==> n.lanes[i].end == m.lanes[i].end
    requires forall i :: 0 <= i < |m.lanes| && i != s ==> n.lanes[i].absorbed == m.lanes[i].absorbed
    ensures MergesMatch(n)
  {
    forall i, j ensures MergedInto(n, j, i) <==> MergedInto(m, j, i) || (j == t && i == s) {}
    forall i, j | 0 <= i < |n.lanes| ensures j in n.lanes[i].absorbed <==> MergedInto(n, j, i) {
      assert j in m.lanes[i].absorbed <==> MergedInto(m, j, i);
    }
  }

  lemma {:induction false} OpenKeeps(m: Lanes, entity: string, node: Node, before: bool)
    requires Inv(m) && entity !in m.carrier
    ensures Sane(m) && Inv(Open(m, entity, node, before))
  {
    MergesKept(m, Open(m, entity, node, before));
  }

  /** Each input is carried by the lane it resolved to. */
  ghost predicate Resolved(m: Lanes, ins: seq<string>, touched: seq<nat>) {
    |ins| == |touched| && forall k :: 0 <= k < |ins| ==> ins[k] in m.carrier && m.carrier[ins[k]] == touched[k]
  }

  ghost predicate CarrierGrows(a: map<string, nat>, b: map<string, nat>) {
    forall e :: e in a ==> e in b && b[e] == a[e]
  }

  lemma {:induction false} ResolveKeeps(m: Lanes, ins: seq<string>, node: Node)
    requires Inv(m)
    ensures Sane(m) && Inv(Resolve(m, ins, node).0)
    decreases |ins|
  {
    if ins != [] {
      if ins[0] in m.carrier {
        ResolveKeeps(m, ins[1..], node);
      } else {
        OpenKeeps(m, ins[0], node, true);
        ResolveKeeps(Open(m, ins[0], node, true), ins[1..], node);
      }
    }
  }

  lemma {:induction false} ResolveCarries(m: Lanes, ins: seq<string>, node: Node)
    requires Sane(m)
    ensures var (r, touched) := Resolve(m, ins, node);
            && Resolved(r, ins, touched) && CarrierGrows(m.carrier, r.carrier)
            && (forall e :: e in r.carrier ==> e in m.carrier || e in ins)
    decreases |ins|
  {
    if ins != [] {
      assert ins == [ins[0]] + ins[1..];
      ResolveCarries(if ins[0] in m.carrier then m else Open(m, ins[0], node, true), ins[1..], node);
    }
  }

  /** `n` is `m` without the entities in `refs`. */
  ghost predicate Without(n: map<string, nat>, m: map<string, nat>, refs: seq<string>) {
    forall e :: (e in n <==> e in m && e !in refs) && (e in n ==> n[e] == m[e])
  }

  lemma {:induction false} WithoutCons(n: map<string, nat>, m: map<string, nat>, refs: seq<string>)
    requires refs != [] && Without(n, m - {refs[0]}, refs[1..])
    ensures Without(n, m, refs)
  {
    assert refs == [refs[0]] + refs[1..];
  }

  /** A touched lane that is still to be consumed, or has been consumed already under the same reference. */
  ghost predicate Pending(m: Lanes, ref: string, lane: nat, s: nat) {
    && lane < |m.lanes| && m.lanes[lane].current == ref
    && if ref in m.carrier then m.carrier[ref] == lane
       else lane == s || (m.lanes[lane].end.Merged? && m.lanes[lane].end.intoLane == s)
  }

  lemma {:induction false} ConsumeFirstKeeps(m: Lanes, ref: string, s: nat, node: Node)
    requires Inv(m) && ref in m.carrier && m.carrier[ref] == s
    ensures Sane(m) && InvBut(Consume(m, s, s, node), Some(s))
    ensures Consume(m, s, s, node).carrier == m.carrier - {ref}
    ensures forall r, t :: Pending(m, r, t, s) ==> Pending(Consume(m, s, s, node), r, t, s)
  {
    var n := Consume(m, s, s, node);
    MergesKept(m, n);
    assert forall i :: 0 <= i < |m.lanes| ==>
      n.lanes[i].end == m.lanes[i].end && n.lanes[i].current == m.lanes[i].current;
  }

  lemma {:induction false} ConsumeKeeps(m: Lanes, ref: string, t: nat, s: nat, node: Node)
    requires InvBut(m, Some(s)) && Pending(m, ref, t, s)
    ensures Sane(m) && InvBut(Consume(m, t, s, node), Some(s))
    ensures Consume(m, t, s, node).carrier == m.carrier - {ref}
    ensures forall r, u :: Pending(m, r, u, s) ==> Pending(Consume(m, t, s, node), r, u, s)
  {
    var n := Consume(m, t, s, node);
    assert forall i :: 0 <= i < |m.lanes| ==> n.lanes[i].current == m.lanes[i].current;
    if t == s {
      MergesKept(m, n);
    } else {
      MergeKept(m, n, t, s);
    }
  }

  lemma {:induction false} ConsumeAllKeeps(m: Lanes, ins: seq<string>, touched: seq<nat>, s: nat, node: Node)
    requires InvBut(m, Some(s)) && |ins| == |touched|
    requires forall k :: 0 <= k < |ins| ==> Pending(m, ins[k], touched[k], s)
    ensures Sane(m) && Within(touched, m)
    ensures var r := ConsumeAll(m, touched, s, node);
            InvBut(r, Some(s)) && Without(r.carrier, m.carrier, ins)
    decreases |ins|
  {
    if ins != [] {
      ConsumeKeeps(m, ins[0], touched[0], s, node);
      ConsumeAllKeeps(Consume(m, touched[0], s, node), ins[1..], touched[1..], s, node);
      WithoutCons(ConsumeAll(m, touched, s, node).carrier, m.carrier, ins);
    }
  }

  lemma {:induction false} ConsumeResolvedKeeps(m: Lanes, ins: seq<string>, touched: seq<nat>, node: Node)
    requires Inv(m) && ins != [] && Resolved(m, ins, touched)
    ensures Sane(m) && Within(touched, m)
    ensures var r := ConsumeAll(m, touched, touched[0], node);
            InvBut(r, Some(touched[0])) && Without(r.carrier, m.carrier, ins)
  {
    var s := touched[0];
    assert ins[0] in m.carrier && m.carrier[ins[0]] == s;
    forall k | 0 <= k < |ins| ensures Pending(m, ins[k], touched[k], s) {}
    ConsumeFirstKeeps(m, ins[0], s, node);
    ConsumeAllKeeps(Consume(m, s, s, node), ins[1..], touched[1..], s, node);
    WithoutCons(ConsumeAll(m, touched, s, node).carrier, m.carrier, ins);
  }

  lemma {:induction false} TakeInputsKeeps(m: Lanes, node: Node)
    requires Inv(m)
    ensures Sane(m)
    ensures var (r, s) := TakeInputs(m, node);
            InvBut(r, s) && (forall e :: e in r.carrier <==> e in m.carrier && e !in Ins(node))
            && (forall e :: e in r.carrier ==> r.carrier[e] == m.carrier[e])
  {
    var ins := Ins(node);
    ResolveKeeps(m, ins, node);
    ResolveCarries(m, ins, node);
    var (n, touched) := Resolve(m, ins, node);
    if ins != [] {
      ConsumeResolvedKeeps(n, ins, touched, node);
    }
  }

  lemma {:induction false} DeleteKeeps(m: Lanes, ref: string, limbo: Option<nat>, node: Node)
    requires InvBut(m, limbo)
    ensures Sane(m) && InvBut(Delete(m, ref, node), limbo) && Delete(m, ref, node).carrier == m.carrier - {ref}
  {
    var n := Delete(m, ref, node);
    MergesKept(m, n);
    assert forall i :: 0 <= i < |m.lanes| ==> n.lanes[i].current == m.lanes[i].current;
    assert ref in m.carrier ==> forall i :: 0 <= i < |m.lanes| && i != m.carrier[ref] ==>
      n.lanes[i].end == m.lanes[i].end;
  }

  lemma {:induction false} DeleteAllKeeps(m: Lanes, refs: seq<string>, limbo: Option<nat>, node: Node)
    requires InvBut(m, limbo)
    ensures Sane(m) && InvBut(DeleteAll(m, refs, node), limbo)
    ensures Without(DeleteAll(m, refs, node).carrier, m.carrier, refs)
    decreases |refs|
  {
    if refs != [] {
      DeleteKeeps(m, refs[0], limbo, node);
      DeleteAllKeeps(Delete(m, refs[0], node), refs[1..], limbo, node);
      WithoutCons(DeleteAll(m, refs, node).carrier, m.carrier, refs);
    }
  }

  lemma {:induction false} EndSurvivorKeeps(m: Lanes, s: nat, node: Node)
    requires InvBut(m, Some(s))
    ensures Sane(m) && Inv(EndSurvivor(m, s, node)) && EndSurvivor(m, s, node).carrier == m.carrier
  {
    var n := EndSurvivor(m, s, node);
    MergesKept(m, n);
    assert forall i :: 0 <= i < |m.lanes| ==> n.lanes[i].current == m.lanes[i].current;
    assert forall i :: 0 <= i < |m.lanes| && i != s ==> n.lanes[i].end == m.lanes[i].end;
  }

  lemma {:induction false} ShadowKeeps(m: Lanes, ref: string, limbo: Option<nat>, node: Node)
    requires InvBut(m, limbo)
    ensures Sane(m) && InvBut(Shadow(m, ref, limbo, node), limbo)
    ensures Shadow(m, ref, limbo, node).carrier == m.carrier - {ref}
  {
    var n := Shadow(m, ref, limbo, node);
    MergesKept(m, n);
    assert forall i :: 0 <= i < |m.lanes| ==> n.lanes[i].current == m.lanes[i].current;
    assert ref in m.carrier ==> forall i :: 0 <= i < |m.lanes| && i != m.carrier[ref] ==>
      n.lanes[i].end == m.lanes[i].end;
  }

  lemma {:induction false} RebirthKeeps(m: Lanes, ref: string, limbo: Option<nat>, node: Node)
    requires InvBut(m, limbo) && ref !in m.carrier
    ensures Sane(m) && Inv(Rebirth(m, ref, limbo, node))
  {
    if limbo.None? {
      OpenKeeps(m, ref, node, false);
      var born := Open(m, ref, node, false);
      var n := Rebirth(m, ref, limbo, node);
      MergesKept(born, n);
      assert forall i :: 0 <= i < |n.lanes| ==>
        n.lanes[i].current == born.lanes[i].current && n.lanes[i].end == born.lanes[i].end;
    } else {
      var n := Rebirth(m, ref, limbo, node);
      MergesKept(m, n);
      assert forall i :: 0 <= i < |m.lanes| ==> n.lanes[i].end == m.lanes[i].end;
      assert forall i :: 0 <= i < |m.lanes| && i != limbo.value ==> n.lanes[i].current == m.lanes[i].current;
    }
  }

  // ----- producing -----

  predicate AllAre(refs: seq<string>, ref: string) {
    forall k :: 0 <= k < |refs| ==> refs[k] == ref
  }

  /** Producing again an id the survivor already carries only adds a tick. */
  lemma {:induction false} RepeatKeeps(m: Lanes, outs: seq<string>, ref: string, s: nat, node: Node)
    requires Inv(m) && ref in m.carrier && m.carrier[ref] == s && AllAre(outs, ref)
    ensures Sane(m) && s < |m.lanes| && Inv(ProduceAll(m, outs, Some(s), node))
    ensures ProduceAll(m, outs, Some(s), node).carrier == m.carrier
    decreases |outs|
  {
    if outs != [] {
      var n := Rebirth(m, ref, Some(s), node);
      MergesKept(m, n);
      assert forall i :: 0 <= i < |m.lanes| ==>
        n.lanes[i].end == m.lanes[i].end && n.lanes[i].current == m.lanes[i].current;
      RepeatKeeps(n, outs[1..], ref, s, node);
    }
  }

  lemma {:induction false} BirthsKeep(m: Lanes, outs: seq<string>, node: Node)
    requires Inv(m)
    ensures Sane(m) && Inv(ProduceAll(m, outs, None, node))
    ensures forall e :: e in ProduceAll(m, outs, None, node).carrier <==> e in m.carrier || e in outs
    decreases |outs|
  {
    if outs != [] {
      var ref := outs[0];
      ShadowKeeps(m, ref, None, node);
      RebirthKeeps(Shadow(m, ref, None, node), ref, None, node);
      BirthsKeep(Rebirth(Shadow(m, ref, None, node), ref, None, node), outs[1..], node);
    }
  }

  lemma {:induction false} SuccessorKeeps(m: Lanes, outs: seq<string>, s: nat, node: Node)
    requires InvBut(m, Some(s)) && outs != [] && AllAre(outs, outs[0])
    ensures Sane(m) && Inv(ProduceAll(m, outs, Some(s), node))
    ensures forall e :: e in ProduceAll(m, outs, Some(s), node).carrier <==> e in m.carrier || e == outs[0]
  {
    var ref := outs[0];
    ShadowKeeps(m, ref, Some(s), node);
    RebirthKeeps(Shadow(m, ref, Some(s), node), ref, Some(s), node);
    RepeatKeeps(Rebirth(Shadow(m, ref, Some(s), node), ref, Some(s), node), outs[1..], ref, s, node);
  }

  /** A survivor keeps carrying every id it was given, and is known by the last one. */
  lemma {:induction false} SurvivorCarriesAll(m: Lanes, outs: seq<string>, s: nat, node: Node)
    requires Sane(m) && s < |m.lanes|
    ensures var r := ProduceAll(m, outs, Some(s), node);
            && s < |r.lanes| && (outs != [] ==> r.lanes[s].current == outs[|outs| - 1])
            && (forall e :: e in outs || (e in m.carrier && m.carrier[e] == s) ==> e in r.carrier && r.carrier[e] == s)
    decreases |outs|
  {
    if outs != [] {
      SurvivorCarriesAll(Rebirth(Shadow(m, outs[0], Some(s), node), outs[0], Some(s), node), outs[1..], s, node);
      assert outs == [outs[0]] + outs[1..];
    }
  }

  // ----- one op -----

  /** An op with solid inputs produces at most one solid id. */
  predicate SingleSuccessor(node: Node) {
    Attached(node) && Ins(node) != [] && Outs(node) != [] ==> AllAre(Outs(node), Outs(node)[0])
  }

  /** What an op does to the carriers before it produces; its survivor is in limbo if it will go on. */
  lemma {:induction false} BeforeOutputsKeeps(m: Lanes, node: Node)
    requires Inv(m)
    ensures Sane(m)
    ensures var (r, s) := BeforeOutputs(m, node);
            && InvBut(r, if Outs(node) == [] then None else s)
            && (forall e :: e in r.carrier <==> e in m.carrier && e !in Ins(node) && e !in Dels(node))
  {
    TakeInputsKeeps(m, node);
    var (taken, s) := TakeInputs(m, node);
    DeleteAllKeeps(taken, Dels(node), s, node);
    if Outs(node) == [] && s.Some? {
      EndSurvivorKeeps(DeleteAll(taken, Dels(node), node), s.value, node);
    }
  }

  lemma {:induction false} ProduceKeeps(m: Lanes, outs: seq<string>, s: Option<nat>, node: Node)
    requires InvBut(m, if outs == [] then None else s) && (s.Some? ==> s.value < |m.lanes|)
    requires s.Some? && outs != [] ==> AllAre(outs, outs[0])
    ensures Sane(m) && Inv(ProduceAll(m, outs, s, node))
    ensures forall e :: e in ProduceAll(m, outs, s, node).carrier <==> e in outs || e in m.carrier
  {
    if outs != [] && s.Some? {
      SuccessorKeeps(m, outs, s.value, node);
      assert forall e :: e in outs <==> e == outs[0];
    } else if s.None? {
      BirthsKeep(m, outs, node);
    }
  }

  lemma {:induction false} ReadyKeeps(m: Lanes, node: Node)
    requires Inv(m)
    ensures Sane(m)
    ensures var (r, s) := BeforeOutputs(Counted(m), node);
            && InvBut(r, if Outs(node) == [] then None else s)
            && (forall e :: e in r.carrier <==> e in m.carrier && e !in Ins(node) && e !in Dels(node))
  {
    MergesKept(m, Counted(m));
    BeforeOutputsKeeps(Counted(m), node);
  }

  /**
   * The entities carried after an op: those carried before that it neither consumed nor deleted, and those it produced.
   */
  lemma {:induction false} StepKeeps(m: Lanes, node: Node)
    requires Inv(m) && SingleSuccessor(node)
    ensures Sane(m) && Inv(Step(m, node))
    ensures Attached(node) ==> forall e :: e in Step(m, node).carrier <==>
              e in Outs(node) || (e in m.carrier && e !in Ins(node) && e !in Dels(node))
  {
    if Attached(node) {
      ReadyKeeps(m, node);
      var (ready, s) := BeforeOutputs(Counted(m), node);
      ProduceKeeps(ready, Outs(node), s, node);
    } else {
      MergesKept(m, Step(m, node));
    }
  }

  /** Two ids carried by one lane. */
  lemma {:induction false} TwoCarriersBreak(m: Lanes, x: string, y: string)
    requires x != y && x in m.carrier && y in m.carrier && m.carrier[x] == m.carrier[y]
    ensures !Inv(m)
  {
  }

  lemma {:induction false} TwoSuccessorsBreak(m: Lanes, node: Node)
    requires Sane(m) && !SingleSuccessor(node)
    ensures !Inv(Step(m, node))
  {
    var (ready, s) := BeforeOutputs(Counted(m), node);
    var outs := Outs(node);
    SurvivorCarriesAll(ready, outs, s.value, node);
    var k :| 0 <= k < |outs| && outs[k] != outs[0];
    TwoCarriersBreak(Step(m, node), outs[0], outs[k]);
  }

  /**
   * One op keeps live lanes and carriers in one-to-one correspondence, and both sides of every merge in agreement,
   * exactly when it does not give its survivor two different ids.
   */
  lemma {:induction false} StepKeepsExactly(m: Lanes, node: Node)
    requires Inv(m)
    ensures Sane(m) && (Inv(Step(m, node)) <==> SingleSuccessor(node))
  {
    if SingleSuccessor(node) {
      StepKeeps(m, node);
    } else {
      TwoSuccessorsBreak(m, node);
    }
  }

  // ----- whole histories -----

  ghost predicate AllSingle(nodes: seq<Node>) {
    forall n :: n in nodes ==> SingleSuccessor(n)
  }

  lemma {:induction false} WalkKeeps(m: Lanes, nodes: seq<Node>)
    requires Inv(m) && AllSingle(nodes)
    ensures Sane(m) && Inv(Walk(m, nodes))
    decreases |nodes|
  {
    if nodes != [] {
      StepKeeps(m, nodes[0]);
      WalkKeeps(Step(m, nodes[0]), nodes[1..]);
    }
  }
}

/** What each stretch of a gizmo session does to its drags and its locks, and when it is busy. */
module GizmoMeaning {
  import opened Wrappers
  import opened GizmoCommit

  /** The lock of a part stands: the viewport still shows the mesh that was out of date. */
  predicate LockStands(s: System, part: string) {
    part in s.stale && s.stale[part] == Mesh(s, part)
  }

  /** What is left to do for a plan. */
  function Begins(plan: Plan): Phase {
    match plan
    case SendPlan => Requesting
    case Unchanged => Returning(NothingToDo)
    case RefusePlan => Returning(Refused)
  }

  function PhaseSet(s: System, d: nat, phase: Phase): seq<Drag>
    requires d < |s.drags|
  {
    s.drags[d := Drag(s.drags[d].part, s.drags[d].before, s.drags[d].changes, phase)]
  }

  /**
   * A dropped part is let through exactly when no drag is under way and its lock, if it has one, does not stand: a part
   * whose mesh has changed since it was locked is free again. A drag that is refused changes nothing.
   */
  lemma {:induction false} DropIs(s: System, part: string, plan: Plan, timing: Timing)
    ensures var n := Step(s, Drop(part, plan), timing);
            if s.busy || LockStands(s, part) then n == s
            else
              && n.busy && n.stale == s.stale - {part}
              && n.drags == s.drags + [Drag(part, Mesh(s, part), ChangesOf(s, part), Begins(plan))]
              && n.view == s.view && n.changes == s.changes && n.moved == s.moved
  {
    assert part !in s.stale ==> s.stale - {part} == s.stale;
  }

  /** What the caller of such a drag is told at once: refused, or that it is under way. */
  lemma {:induction false} AdmittedIs(s: System, part: string, plan: Plan)
    ensures Admit(s.busy, s.stale, part, Mesh(s, part), plan).2 ==
            if s.busy || LockStands(s, part) then Done(Refused) else Begins(plan)
  {
  }

  lemma {:induction false} AskIs(s: System, part: string, timing: Timing)
    ensures var n := Step(s, AskStale(part), timing);
            n == if LockStands(s, part) then s else s.(stale := s.stale - {part})
  {
    assert part !in s.stale ==> s.stale - {part} == s.stale;
  }

  /** A resync that resolves locks the part if its mesh has still not come; one that fails locks nothing. */
  lemma {:induction false} ResyncIs(s: System, d: nat, timing: Timing)
    requires d < |s.drags| && s.drags[d].phase == Resyncing
    ensures var n, drag := Step(s, ResyncResolves(d), timing), s.drags[d];
            n == s.(busy := false, drags := PhaseSet(s, d, Done(Committed)),
                    stale := if Mesh(s, drag.part) == drag.before then s.stale[drag.part := drag.before] else s.stale)
    ensures Step(s, ResyncRejects(d), timing) == s.(busy := false, drags := PhaseSet(s, d, Done(Threw)))
  {
  }

  /** Where a committed drag goes on, when it has looked for its mesh for `waited` milliseconds. */
  ghost predicate LooksOn(s: System, d: nat, waited: nat, timing: Timing, n: System)
    requires d < |s.drags|
  {
    && n.view == s.view && n.changes == s.changes && n.stale == s.stale && n.moved == s.moved
    && (Mesh(s, s.drags[d].part) != s.drags[d].before ==> n.drags == PhaseSet(s, d, Done(Committed)) && !n.busy)
    && (Mesh(s, s.drags[d].part) == s.drags[d].before && timing.settleTimeoutMs <= waited ==>
          n.drags == PhaseSet(s, d, Resyncing) && n.busy == s.busy)
    && (Mesh(s, s.drags[d].part) == s.drags[d].before && waited < timing.settleTimeoutMs ==>
          n.drags == PhaseSet(s, d, Waiting(waited)) && n.busy == s.busy)
  }

  /** The answer counts as a commit exactly when its status was fine and its body says success. */
  lemma {:induction false} BodyReadIs(s: System, d: nat, ok: bool, success: bool, timing: Timing)
    requires d < |s.drags| && s.drags[d].phase == Reading(ok)
    ensures var n := Step(s, BodyRead(d, success), timing);
            if ok && success then LooksOn(s.(moved := s.moved[s.drags[d].part := d]), d, 0, timing, n)
            else n == s.(busy := false, drags := PhaseSet(s, d, Done(Refused)))
  {
  }

  lemma {:induction false} WakesIs(s: System, d: nat, waited: nat, timing: Timing)
    requires d < |s.drags| && s.drags[d].phase == Waiting(waited)
    ensures LooksOn(s, d, waited + timing.pollMs, timing, Step(s, Wakes(d), timing))
  {
  }

  lemma {:induction false} FetchIs(s: System, d: nat, ok: bool, timing: Timing)
    requires d < |s.drags|
    ensures s.drags[d].phase == Requesting ==>
              && Step(s, FetchResolves(d, ok), timing) == s.(drags := PhaseSet(s, d, Reading(ok)))
              && Step(s, FetchRejects(d), timing) == s.(busy := false, drags := PhaseSet(s, d, Done(Refused)))
    ensures s.drags[d].phase.Returning? ==>
              Step(s, Returns(d), timing) ==
              s.(busy := false, drags := PhaseSet(s, d, Done(s.drags[d].phase.outcome)))
  {
  }

  /** A stretch that is not due does nothing. */
  lemma {:induction false} NotDue(s: System, d: nat, flag: bool, timing: Timing)
    ensures !(d < |s.drags| && s.drags[d].phase.Returning?) ==> Step(s, Returns(d), timing) == s
    ensures !(d < |s.drags| && s.drags[d].phase.Requesting?) ==>
              Step(s, FetchResolves(d, flag), timing) == s && Step(s, FetchRejects(d), timing) == s
    ensures !(d < |s.drags| && s.drags[d].phase.Reading?) ==> Step(s, BodyRead(d, flag), timing) == s
    ensures !(d < |s.drags| && s.drags[d].phase.Waiting?) ==> Step(s, Wakes(d), timing) == s
    ensures !(d < |s.drags| && s.drags[d].phase.Resyncing?) ==>
              Step(s, ResyncResolves(d), timing) == s && Step(s, ResyncRejects(d), timing) == s
  {
  }

  /** A server update touches the view only, and counts as a change exactly when it shows another buffer or none. */
  lemma {:induction false} UpdateIs(s: System, part: string, buffer: nat, timing: Timing)
    ensures var n := Step(s, Upsert(part, buffer), timing);
            n == if part in s.view && s.view[part] == buffer then s
                 else s.(view := s.view[part := buffer],
                         changes := s.changes[part := 1 + if part in s.changes then s.changes[part] else 0])
    ensures var n := Step(s, Remove(part), timing);
            n == if part !in s.view then s
                 else s.(view := s.view - {part},
                         changes := s.changes[part := 1 + if part in s.changes then s.changes[part] else 0])
  {
  }

  // ----- whole runs -----

  /** A drag is under way. */
  ghost predicate UnderWay(s: System) {
    exists d: nat :: Open(s, d)
  }

  ghost predicate BusyWhileUnderWay(s: System) {
    OneDrag(s) && (s.busy <==> UnderWay(s))
  }

  lemma {:induction false} StepKeepsOneDrag(s: System, e: Event, timing: Timing)
    requires OneDrag(s)
    ensures OneDrag(Step(s, e, timing))
  {
    var n := Step(s, e, timing);
    forall d: nat | Open(n, d)
      ensures n.busy && n.drags[d].part !in n.stale && forall d': nat :: Open(n, d') ==> d == d'
    {
      StaysOpen(s, e, timing, d);
      forall d': nat | Open(n, d') ensures d == d' {
        StaysOpen(s, e, timing, d');
      }
    }
  }

  /** A drag that is open was open before, or has just begun with none open. */
  lemma {:induction false} StaysOpen(s: System, e: Event, timing: Timing, d: nat)
    requires OneDrag(s) && Open(Step(s, e, timing), d)
    ensures var n := Step(s, e, timing);
            && n.busy && n.drags[d].part !in n.stale
            && if d < |s.drags| then Open(s, d) && |n.drags| == |s.drags|
               else d == |s.drags| && !s.busy && |n.drags| == d + 1
  {
    if d < |s.drags| {
      assert Open(s, d);
      assert forall d': nat :: Open(s, d') ==> d' == d;
    }
  }

  lemma {:induction false} StepStaysBusy(s: System, e: Event, timing: Timing)
    requires BusyWhileUnderWay(s)
    ensures BusyWhileUnderWay(Step(s, e, timing))
  {
    var n := Step(s, e, timing);
    StepKeepsOneDrag(s, e, timing);
    if n.busy && !s.busy {
      assert Open(n, |s.drags|);
    }
    if n.busy && s.busy {
      var d: nat :| Open(s, d);
      BusyStaysOpen(s, e, timing, d);
    }
  }

  lemma {:induction false} BusyStaysOpen(s: System, e: Event, timing: Timing, d: nat)
    requires OneDrag(s) && Open(s, d) && Step(s, e, timing).busy
    ensures Open(Step(s, e, timing), d)
  {
  }

  lemma {:induction false} RunStaysBusy(s: System, events: seq<Event>, timing: Timing)
    requires BusyWhileUnderWay(s)
    ensures BusyWhileUnderWay(Run(s, events, timing))
    decreases |events|
  {
    if events != [] {
      StepStaysBusy(s, events[0], timing);
      RunStaysBusy(Step(s, events[0], timing), events[1..], timing);
    }
  }

  /** In every run, the session is busy exactly while a drag is under way, and that is only one: it never stays shut. */
  lemma {:induction false} BusyIffUnderWay(view: map<string, nat>, events: seq<Event>, timing: Timing)
    ensures var s := Run(Created(view), events, timing);
            && (s.busy <==> UnderWay(s))
            && (forall d: nat, d': nat :: Open(s, d) && Open(s, d') ==> d == d')
  {
    RunStaysBusy(Created(view), events, timing);
  }

  // ----- how long a drag waits -----

  function Wakings(d: nat, k: nat): seq<Event> {
    if k == 0 then [] else [Wakes(d)] + Wakings(d, k - 1)
  }

  /**
   * A committed drag whose mesh does not come waits until the first look at which the timeout is up, and then asks for
   * a resync.
   */
  lemma {:induction false} WaitsForTimeout(s: System, d: nat, waited: nat, k: nat, timing: Timing)
    requires d < |s.drags| && s.drags[d].phase == Waiting(waited) && Mesh(s, s.drags[d].part) == s.drags[d].before
    requires k > 0 && waited + (k - 1) * timing.pollMs < timing.settleTimeoutMs
    ensures var waited := waited + k * timing.pollMs;
            Run(s, Wakings(d, k), timing) ==
            s.(drags := PhaseSet(s, d, if waited < timing.settleTimeoutMs then Waiting(waited) else Resyncing))
    decreases k
  {
    var n := Step(s, Wakes(d), timing);
    WakesIs(s, d, waited, timing);
    assert Wakings(d, k)[1..] == Wakings(d, k - 1);
    LessLater(waited, k, timing);
    if k == 1 {
      assert Run(n, [], timing) == n && Wakings(d, 0) == [];
    } else {
      WaitsForTimeout(n, d, waited + timing.pollMs, k - 1, timing);
      assert n.drags[d := n.drags[d]] == n.drags;
    }
  }

  lemma {:induction false} LessLater(waited: nat, k: nat, timing: Timing)
    requires k > 0
    ensures waited + k * timing.pollMs == waited + timing.pollMs + (k - 1) * timing.pollMs
    ensures k > 1 ==> (k - 1) * timing.pollMs == timing.pollMs + (k - 2) * timing.pollMs >= timing.pollMs
  {
  }
}

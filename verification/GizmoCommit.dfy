/**
 * The gizmo session: a dropped part is moved by the kernel, and is not moved again from a mesh that is out of date.
 *
 * A step is one stretch of code between two awaits, or a server update of the viewport.
 */
module GizmoCommit {
  import opened Wrappers

  /** What `planKernelTransform` makes of a drag. */
  datatype Plan = Unchanged | RefusePlan | SendPlan

  datatype Outcome = NothingToDo | Committed | Refused | Threw

  /** How far a drag has got; `Returning` has nothing to send, and only its outcome is still on the way. */
  datatype Phase =
    | Requesting
    | Returning(outcome: Outcome)
    | Reading(ok: bool)
    | Waiting(waited: nat)
    | Resyncing
    | Done(outcome: Outcome)

  /** A drag that was let through: its part, and the mesh and the number of mesh changes of that part at its release. */
  datatype Drag = Drag(part: string, before: Option<nat>, changes: nat, phase: Phase)

  /** How long to wait for the rebroadcast, and how often to look. */
  datatype Timing = Timing(settleTimeoutMs: nat, pollMs: nat)

  // ----- the session's own state -----

  /** Parts whose last move has not arrived, each with the mesh known to be out of date. */
  type Stale = map<string, Option<nat>>

  function Refreshed(stale: Stale, part: string, mesh: Option<nat>): Stale {
    if part in stale && mesh != stale[part] then stale - {part} else stale
  }

  /** One look at the viewport: settled, time to resync, or wait on. */
  function Look(timing: Timing, before: Option<nat>, mesh: Option<nat>, waited: nat): Phase {
    if mesh != before then Done(Committed)
    else if waited >= timing.settleTimeoutMs then Resyncing
    else Waiting(waited)
  }

  /**
   * A released drag, up to its first await: whether the session is busy after it, the locks, and how far the drag got.
   */
  function Admit(busy: bool, stale: Stale, part: string, mesh: Option<nat>, plan: Plan): (bool, Stale, Phase) {
    if busy then (true, stale, Done(Refused))
    else
      var stale := Refreshed(stale, part, mesh);
      if part in stale then (false, stale, Done(Refused))
      else
        match plan
        case Unchanged => (true, stale, Returning(NothingToDo))
        case RefusePlan => (true, stale, Returning(Refused))
        case SendPlan => (true, stale, Requesting)
  }

  /** After the resync, or its failure: a mesh that still has not come locks the part. */
  function Locked(stale: Stale, part: string, before: Option<nat>, mesh: Option<nat>, resolved: bool): Stale {
    if resolved && mesh == before then stale[part := before] else stale
  }

  class GizmoSession {
    var busy: bool
    var staleMesh: Stale

    constructor ()
      ensures !busy && staleMesh == map[]
    {
      busy, staleMesh := false, map[];
    }

    method IsStale(part: string, mesh: Option<nat>) returns (stale: bool)
      modifies `staleMesh
      ensures staleMesh == Refreshed(old(staleMesh), part, mesh)
      ensures stale <==> part in staleMesh
    {
      if part !in staleMesh {
        return false;
      }
      if mesh != staleMesh[part] {
        staleMesh := staleMesh - {part};
        return false;
      }
      return true;
    }

    method Release(part: string, mesh: Option<nat>, plan: Plan) returns (phase: Phase)
      modifies this
      ensures (busy, staleMesh, phase) == Admit(old(busy), old(staleMesh), part, mesh, plan)
    {
      if busy {
        return Done(Refused);
      }
      var stale := IsStale(part, mesh);
      if stale {
        return Done(Refused);
      }
      busy := true;
      match plan
      case SendPlan => phase := Requesting;
      case Unchanged => phase := Returning(NothingToDo);
      case RefusePlan => phase := Returning(Refused);
    }

    /** The outcome of a drag that did not commit has come back. */
    method Returned(outcome: Outcome) returns (phase: Phase)
      modifies `busy
      ensures !busy && phase == Done(outcome)
    {
      busy := false;
      return Done(outcome);
    }

    /** One turn of the settling loop. */
    method LookOnce(timing: Timing, before: Option<nat>, mesh: Option<nat>, waited: nat) returns (phase: Phase)
      modifies `busy
      ensures phase == Look(timing, before, mesh, waited)
      ensures busy == (old(busy) && !phase.Done?)
    {
      if mesh != before {
        busy := false;
        return Done(Committed);
      }
      if waited >= timing.settleTimeoutMs {
        return Resyncing;
      }
      return Waiting(waited);
    }

    method Resynced(part: string, before: Option<nat>, mesh: Option<nat>, resolved: bool) returns (phase: Phase)
      modifies this
      ensures !busy && staleMesh == Locked(old(staleMesh), part, before, mesh, resolved)
      ensures phase == Done(if resolved then Committed else Threw)
    {
      busy := false;
      if !resolved {
        return Done(Threw);
      }
      if mesh == before {
        staleMesh := staleMesh[part := before];
      }
      return Done(Committed);
    }
  }

  // ----- the interleaving -----

  /**
   * The session, the viewport's mesh buffers, how often each part's buffer has changed, every drag that was let
   * through, and for each part its last committed drag.
   */
  datatype System = System(busy: bool, stale: Stale, view: map<string, nat>, changes: map<string, nat>,
                           drags: seq<Drag>, moved: map<string, nat>)

  datatype Event =
    | Drop(part: string, plan: Plan)
    | Returns(d: nat)
    | FetchResolves(d: nat, ok: bool)
    | FetchRejects(d: nat)
    | BodyRead(d: nat, success: bool)
    | Wakes(d: nat)
    | ResyncResolves(d: nat)
    | ResyncRejects(d: nat)
    | AskStale(part: string)
    | Upsert(part: string, buffer: nat)
    | Remove(part: string)

  function Mesh(s: System, part: string): Option<nat> {
    if part in s.view then Some(s.view[part]) else None
  }

  function ChangesOf(s: System, part: string): nat {
    if part in s.changes then s.changes[part] else 0
  }

  /** The viewport installs another buffer for a part, or drops it. */
  function Install(s: System, part: string, mesh: Option<nat>): System {
    if mesh == Mesh(s, part) then s
    else
      s.(view := if mesh.Some? then s.view[part := mesh.value] else s.view - {part},
         changes := s.changes[part := ChangesOf(s, part) + 1])
  }

  predicate Open(s: System, d: nat) {
    d < |s.drags| && !s.drags[d].phase.Done?
  }

  function At(s: System, d: nat, phase: Phase): System
    requires d < |s.drags|
  {
    s.(drags := s.drags[d := s.drags[d].(phase := phase)], busy := s.busy && !phase.Done?)
  }

  function Release(s: System, part: string, plan: Plan): System {
    var (busy, stale, phase) := Admit(s.busy, s.stale, part, Mesh(s, part), plan);
    s.(busy := busy, stale := stale,
       drags := if phase.Done? then s.drags else s.drags + [Drag(part, Mesh(s, part), ChangesOf(s, part), phase)])
  }

  /** Look for the new mesh after `waited` milliseconds. */
  function Settle(s: System, d: nat, waited: nat, timing: Timing): System
    requires d < |s.drags|
  {
    At(s, d, Look(timing, s.drags[d].before, Mesh(s, s.drags[d].part), waited))
  }

  function Resync(s: System, d: nat, resolved: bool): System
    requires d < |s.drags|
  {
    var drag := s.drags[d];
    var stale := Locked(s.stale, drag.part, drag.before, Mesh(s, drag.part), resolved);
    At(s.(stale := stale), d, Done(if resolved then Committed else Threw))
  }

  /** One stretch; an event that is not due changes nothing. */
  function Step(s: System, e: Event, timing: Timing): System {
    match e
    case Drop(part, plan) => Release(s, part, plan)
    case Returns(d) =>
      if Open(s, d) && s.drags[d].phase.Returning? then At(s, d, Done(s.drags[d].phase.outcome)) else s
    case FetchResolves(d, ok) => if Open(s, d) && s.drags[d].phase.Requesting? then At(s, d, Reading(ok)) else s
    case FetchRejects(d) => if Open(s, d) && s.drags[d].phase.Requesting? then At(s, d, Done(Refused)) else s
    case BodyRead(d, success) =>
      if Open(s, d) && s.drags[d].phase.Reading? then
        if s.drags[d].phase.ok && success then Settle(s.(moved := s.moved[s.drags[d].part := d]), d, 0, timing)
        else At(s, d, Done(Refused))
      else s
    case Wakes(d) =>
      if Open(s, d) && s.drags[d].phase.Waiting? then Settle(s, d, s.drags[d].phase.waited + timing.pollMs, timing)
      else s
    case ResyncResolves(d) => if Open(s, d) && s.drags[d].phase.Resyncing? then Resync(s, d, true) else s
    case ResyncRejects(d) => if Open(s, d) && s.drags[d].phase.Resyncing? then Resync(s, d, false) else s
    case AskStale(part) => s.(stale := Refreshed(s.stale, part, Mesh(s, part)))
    case Upsert(part, buffer) => Install(s, part, Some(buffer))
    case Remove(part) => Install(s, part, None)
  }

  function Run(s: System, events: seq<Event>, timing: Timing): System
    decreases |events|
  {
    if events == [] then s else Run(Step(s, events[0], timing), events[1..], timing)
  }

  /** A part's mesh has changed since its last committed drag was released. */
  predicate Arrived(s: System, part: string) {
    part in s.moved && s.moved[part] < |s.drags| ==> ChangesOf(s, part) != s.drags[s.moved[part]].changes
  }

  /** The event sends a transform. */
  predicate Sends(s: System, e: Event, timing: Timing) {
    var drags := Step(s, e, timing).drags;
    e.Drop? && |drags| > |s.drags| && drags[|s.drags|].phase.Requesting?
  }

  /** It sends one composed on the mesh that the last committed drag of the part was composed on. */
  predicate SendsAgain(s: System, e: Event, timing: Timing) {
    Sends(s, e, timing) && !Arrived(s, e.part)
  }

  // ----- what every interleaving keeps -----

  /** At most one drag is under way, and the session is busy just then; its part is not locked. */
  ghost predicate OneDrag(s: System) {
    && (forall d: nat :: Open(s, d) ==> s.busy && s.drags[d].part !in s.stale)
    && (forall d: nat, d': nat :: Open(s, d) && Open(s, d') ==> d == d')
  }

  /** A part whose buffer has not changed since a release still shows the mesh of that release. */
  ghost predicate ChangesCounted(s: System) {
    forall d :: 0 <= d < |s.drags| ==>
      && s.drags[d].changes <= ChangesOf(s, s.drags[d].part)
      && (s.drags[d].changes == ChangesOf(s, s.drags[d].part) ==> s.drags[d].before == Mesh(s, s.drags[d].part))
  }

  /** The last committed move of a part has arrived, is being waited for, or has locked the part. */
  ghost predicate Guarded(s: System, part: string) {
    part in s.moved ==>
      && s.moved[part] < |s.drags|
      && var drag := s.drags[s.moved[part]];
         && drag.part == part
         && (drag.phase.Waiting? || drag.phase.Resyncing? || Arrived(s, part) ||
             (part in s.stale && s.stale[part] == drag.before))
  }

  /** A drag is waited for only after its commit, and is then its part's last. */
  ghost predicate WaitsForItsMove(s: System) {
    forall d :: 0 <= d < |s.drags| && (s.drags[d].phase.Waiting? || s.drags[d].phase.Resyncing?) ==>
      s.drags[d].part in s.moved && s.moved[s.drags[d].part] == d
  }

  /** The invariant, but for the last move of `part`. */
  ghost predicate InvBut(s: System, part: string) {
    OneDrag(s) && ChangesCounted(s) && WaitsForItsMove(s) && forall p :: p != part ==> Guarded(s, p)
  }

  ghost predicate Inv(s: System) {
    OneDrag(s) && ChangesCounted(s) && WaitsForItsMove(s) && forall p :: Guarded(s, p)
  }

  /** The resync of a committed drag fails, and the new mesh has not come. */
  predicate LosesMove(s: System, e: Event) {
    && e.ResyncRejects? && Open(s, e.d) && s.drags[e.d].phase.Resyncing?
    && s.drags[e.d].changes == ChangesOf(s, s.drags[e.d].part)
  }

  lemma {:induction false} InstallKeeps(s: System, part: string, mesh: Option<nat>)
    requires Inv(s)
    ensures Inv(Install(s, part, mesh))
  {
    var n := Install(s, part, mesh);
    assert forall d: nat :: Open(n, d) <==> Open(s, d);
    assert forall p :: ChangesOf(n, p) >= ChangesOf(s, p);
    assert forall p :: Arrived(s, p) && p in s.moved && s.moved[p] < |s.drags| && s.drags[s.moved[p]].part == p ==>
      Arrived(n, p);
    forall p ensures Guarded(n, p) {
      assert Guarded(s, p);
    }
  }

  lemma {:induction false} RefreshKeeps(s: System, part: string)
    requires Inv(s)
    ensures Inv(s.(stale := Refreshed(s.stale, part, Mesh(s, part))))
  {
    var n := s.(stale := Refreshed(s.stale, part, Mesh(s, part)));
    assert forall d: nat :: Open(n, d) <==> Open(s, d);
    assert forall p :: Mesh(n, p) == Mesh(s, p) && ChangesOf(n, p) == ChangesOf(s, p);
    assert forall p :: Arrived(n, p) == Arrived(s, p);
    forall p ensures Guarded(n, p) {
      assert Guarded(s, p);
    }
  }

  lemma {:induction false} AdmitKeeps(s: System, part: string, phase: Phase)
    requires Inv(s) && !s.busy && part !in s.stale && (phase.Requesting? || phase.Returning?)
    ensures Inv(s.(busy := true, drags := s.drags + [Drag(part, Mesh(s, part), ChangesOf(s, part), phase)]))
  {
    var n := s.(busy := true, drags := s.drags + [Drag(part, Mesh(s, part), ChangesOf(s, part), phase)]);
    assert forall d: nat :: Open(n, d) ==> d == |s.drags|;
    assert forall p :: Mesh(n, p) == Mesh(s, p) && ChangesOf(n, p) == ChangesOf(s, p);
    forall p ensures Guarded(n, p) {
      assert Guarded(s, p);
    }
  }

  /** A drag that has not committed moves on. */
  lemma {:induction false} EarlyKeeps(s: System, d: nat, phase: Phase)
    requires Inv(s) && Open(s, d)
    requires s.drags[d].phase.Requesting? || s.drags[d].phase.Returning? || s.drags[d].phase.Reading?
    requires phase.Reading? || phase.Done?
    ensures Inv(At(s, d, phase))
  {
    var n := At(s, d, phase);
    assert forall d': nat :: Open(n, d') ==> Open(s, d') && n.drags[d'].part == s.drags[d'].part;
    assert forall p :: Mesh(n, p) == Mesh(s, p) && ChangesOf(n, p) == ChangesOf(s, p);
    forall p ensures Guarded(n, p) {
      assert Guarded(s, p);
    }
  }

  /** A committed drag looks for its mesh. */
  lemma {:induction false} SettleKeeps(s: System, d: nat, waited: nat, timing: Timing)
    requires Open(s, d) && s.drags[d].part in s.moved && s.moved[s.drags[d].part] == d && InvBut(s, s.drags[d].part)
    ensures Inv(Settle(s, d, waited, timing))
  {
    var n := Settle(s, d, waited, timing);
    assert forall d': nat :: Open(n, d') ==> Open(s, d') && n.drags[d'].part == s.drags[d'].part;
    assert forall p :: Mesh(n, p) == Mesh(s, p) && ChangesOf(n, p) == ChangesOf(s, p);
    assert forall p :: Arrived(n, p) == Arrived(s, p);
    forall p ensures Guarded(n, p) {
      assert p != s.drags[d].part ==> Guarded(s, p);
    }
  }

  lemma {:induction false} CommitKeeps(s: System, d: nat)
    requires Inv(s) && Open(s, d) && s.drags[d].phase.Reading?
    ensures InvBut(s.(moved := s.moved[s.drags[d].part := d]), s.drags[d].part)
  {
    var n := s.(moved := s.moved[s.drags[d].part := d]);
    assert forall d': nat :: Open(n, d') <==> Open(s, d');
    assert forall p :: Mesh(n, p) == Mesh(s, p) && ChangesOf(n, p) == ChangesOf(s, p);
    forall d' | 0 <= d' < |s.drags| ensures !s.drags[d'].phase.Waiting? && !s.drags[d'].phase.Resyncing? {
      assert Open(s, d') ==> d' == d;
    }
    forall p | p != s.drags[d].part ensures Guarded(n, p) {
      assert Guarded(s, p);
    }
  }

  lemma {:induction false} ResyncKeeps(s: System, d: nat, resolved: bool)
    requires Inv(s) && Open(s, d) && s.drags[d].phase.Resyncing?
    ensures Inv(Resync(s, d, resolved)) <==> resolved || s.drags[d].changes != ChangesOf(s, s.drags[d].part)
  {
    var n := Resync(s, d, resolved);
    assert forall d': nat :: !Open(n, d') by {
      assert forall d': nat :: Open(n, d') ==> Open(s, d') && d' != d;
    }
    assert forall p :: Mesh(n, p) == Mesh(s, p) && ChangesOf(n, p) == ChangesOf(s, p);
    assert forall p :: Arrived(n, p) == Arrived(s, p);
    assert Guarded(s, s.drags[d].part);
    assert forall p :: p != s.drags[d].part && Guarded(s, p) ==> Guarded(n, p);
    assert Guarded(n, s.drags[d].part) <==> resolved || s.drags[d].changes != ChangesOf(s, s.drags[d].part);
  }

  /** A stretch keeps every committed move guarded exactly when it does not lose one. */
  lemma {:induction false} StepKeeps(s: System, e: Event, timing: Timing)
    requires Inv(s)
    ensures Inv(Step(s, e, timing)) <==> !LosesMove(s, e)
  {
    match e
    case Upsert(part, buffer) => InstallKeeps(s, part, Some(buffer));
    case Remove(part) => InstallKeeps(s, part, None);
    case AskStale(part) => RefreshKeeps(s, part);
    case Drop(part, plan) =>
      RefreshKeeps(s, part);
      var looked := s.(stale := Refreshed(s.stale, part, Mesh(s, part)));
      if !s.busy && part !in looked.stale {
        AdmitKeeps(looked, part, Admit(s.busy, s.stale, part, Mesh(s, part), plan).2);
      }
    case Returns(d) =>
      if Open(s, d) && s.drags[d].phase.Returning? {
        EarlyKeeps(s, d, Done(s.drags[d].phase.outcome));
      }
    case FetchResolves(d, ok) =>
      if Open(s, d) && s.drags[d].phase.Requesting? {
        EarlyKeeps(s, d, Reading(ok));
      }
    case FetchRejects(d) =>
      if Open(s, d) && s.drags[d].phase.Requesting? {
        EarlyKeeps(s, d, Done(Refused));
      }
    case BodyRead(d, success) =>
      if Open(s, d) && s.drags[d].phase.Reading? {
        EarlyKeeps(s, d, Done(Refused));
        CommitKeeps(s, d);
        SettleKeeps(s.(moved := s.moved[s.drags[d].part := d]), d, 0, timing);
      }
    case Wakes(d) =>
      if Open(s, d) && s.drags[d].phase.Waiting? {
        SettleKeeps(s, d, s.drags[d].phase.waited + timing.pollMs, timing);
      }
    case ResyncResolves(d) =>
      if Open(s, d) && s.drags[d].phase.Resyncing? {
        ResyncKeeps(s, d, true);
      }
    case ResyncRejects(d) =>
      if Open(s, d) && s.drags[d].phase.Resyncing? {
        ResyncKeeps(s, d, false);
      }
  }

  /** A drag is let through only when the part's last committed move has changed its mesh. */
  lemma {:induction false} NothingSentAgain(s: System, e: Event, timing: Timing)
    requires Inv(s)
    ensures !SendsAgain(s, e, timing)
  {
    if e.Drop? && |Step(s, e, timing).drags| > |s.drags| && e.part in s.moved {
      var d := s.moved[e.part];
      assert Guarded(s, e.part);
      assert !Open(s, d);
    }
  }

  /** No resync fails that a committed move depends on. */
  ghost predicate ResyncsHold(s: System, events: seq<Event>, timing: Timing)
    decreases |events|
  {
    events == [] || (!LosesMove(s, events[0]) && ResyncsHold(Step(s, events[0], timing), events[1..], timing))
  }

  ghost predicate NeverSendsAgain(s: System, events: seq<Event>, timing: Timing)
    decreases |events|
  {
    || events == []
    || (!SendsAgain(s, events[0], timing) && NeverSendsAgain(Step(s, events[0], timing), events[1..], timing))
  }

  lemma {:induction false} RunNeverSendsAgain(s: System, events: seq<Event>, timing: Timing)
    requires Inv(s) && ResyncsHold(s, events, timing)
    ensures NeverSendsAgain(s, events, timing)
    decreases |events|
  {
    if events != [] {
      NothingSentAgain(s, events[0], timing);
      StepKeeps(s, events[0], timing);
      RunNeverSendsAgain(Step(s, events[0], timing), events[1..], timing);
    }
  }

  /** A session that has just been created, over any viewport. */
  function Created(view: map<string, nat>): System {
    System(false, map[], view, map[], [], map[])
  }

  lemma {:induction false} CreatedHolds(view: map<string, nat>)
    ensures Inv(Created(view))
  {
  }

  /**
   * Whatever drags, timeouts and server updates interleave: between a committed transform of a part and the next
   * transform sent for it, the viewport's mesh of the part has changed.
   */
  lemma {:induction false} NoMoveIsSentTwice(view: map<string, nat>, events: seq<Event>, timing: Timing)
    requires ResyncsHold(Created(view), events, timing)
    ensures NeverSendsAgain(Created(view), events, timing)
  {
    CreatedHolds(view);
    RunNeverSendsAgain(Created(view), events, timing);
  }

  // ----- the move that is lost -----

  /** After a lost move the very next drag of the part goes through, on the same mesh. */
  lemma {:induction false} LostMoveIsSentAgain(s: System, e: Event, timing: Timing)
    requires Inv(s) && LosesMove(s, e)
    ensures SendsAgain(Step(s, e, timing), Drop(s.drags[e.d].part, SendPlan), timing)
  {
  }

  /** The looks at the viewport that are left after `waited` milliseconds. */
  function Looks(d: nat, waited: nat, timing: Timing): seq<Event>
    requires timing.pollMs > 0
    decreases if waited < timing.settleTimeoutMs then timing.settleTimeoutMs - waited else 0
  {
    if waited >= timing.settleTimeoutMs then [] else [Wakes(d)] + Looks(d, waited + timing.pollMs, timing)
  }

  /** If the mesh does not come, the drag ends up waiting for the resync. */
  lemma {:induction false} LooksRunOut(s: System, d: nat, waited: nat, timing: Timing)
    requires timing.pollMs > 0 && s.busy && Open(s, d) && s.drags[d].before == Mesh(s, s.drags[d].part)
    requires s.drags[d].phase == Look(timing, s.drags[d].before, s.drags[d].before, waited)
    ensures Run(s, Looks(d, waited, timing), timing) == At(s, d, Resyncing)
    decreases if waited < timing.settleTimeoutMs then timing.settleTimeoutMs - waited else 0
  {
    var looks := Looks(d, waited, timing);
    if waited >= timing.settleTimeoutMs {
      assert s.drags[d := s.drags[d]] == s.drags;
    } else {
      var next := Step(s, Wakes(d), timing);
      assert looks[1..] == Looks(d, waited + timing.pollMs, timing);
      LooksRunOut(next, d, waited + timing.pollMs, timing);
      assert next.drags[d := s.drags[d].(phase := Resyncing)] == s.drags[d := s.drags[d].(phase := Resyncing)];
    }
  }

  lemma {:induction false} RunAppend(s: System, a: seq<Event>, b: seq<Event>, timing: Timing)
    ensures Run(s, a + b, timing) == Run(Run(s, a, timing), b, timing)
    decreases |a|
  {
    if a == [] {
      assert a + b == b;
    } else {
      assert (a + b)[1..] == a[1..] + b;
      RunAppend(Step(s, a[0], timing), a[1..], b, timing);
    }
  }

  /** One drag is committed, and its mesh does not come while the session looks for it. */
  function LosingRun(part: string, timing: Timing): seq<Event>
    requires timing.pollMs > 0
  {
    [Drop(part, SendPlan), FetchResolves(0, true), BodyRead(0, true)] + Looks(0, 0, timing)
  }

  lemma {:induction false} CommitsAndWaits(view: map<string, nat>, part: string, timing: Timing)
    ensures var s := Run(Created(view), [Drop(part, SendPlan), FetchResolves(0, true), BodyRead(0, true)], timing);
            var mesh := Mesh(Created(view), part);
            && s == Created(view).(busy := true, moved := map[part := 0],
                                   drags := [Drag(part, mesh, 0, Look(timing, mesh, mesh, 0))])
  {
    var c, a, b := Drop(part, SendPlan), FetchResolves(0, true), BodyRead(0, true);
    assert [c, a, b][1..] == [a, b] && [a, b][1..] == [b] && [b][1..] == [];
    var s0 := Created(view);
    var s1 := Step(s0, c, timing);
    var s2 := Step(s1, a, timing);
    var s3 := Step(s2, b, timing);
    assert Run(s0, [c, a, b], timing) == Run(s1, [a, b], timing) == Run(s2, [b], timing) == Run(s3, [], timing);
  }

  /**
   * From a new session, with any timing, such a run does lose its move, and the next drag of the part goes out again.
   */
  lemma {:induction false} AMoveCanBeLost(view: map<string, nat>, part: string, timing: Timing)
    requires timing.pollMs > 0
    ensures var s := Run(Created(view), LosingRun(part, timing), timing);
            && Inv(s) && LosesMove(s, ResyncRejects(0))
            && SendsAgain(Step(s, ResyncRejects(0), timing), Drop(part, SendPlan), timing)
  {
    var begun := [Drop(part, SendPlan), FetchResolves(0, true), BodyRead(0, true)];
    var waiting := Run(Created(view), begun, timing);
    RunAppend(Created(view), begun, Looks(0, 0, timing), timing);
    CommitsAndWaits(view, part, timing);
    LooksRunOut(waiting, 0, 0, timing);
    LostMoveIsSentAgain(Run(Created(view), LosingRun(part, timing), timing), ResyncRejects(0), timing);
  }
}

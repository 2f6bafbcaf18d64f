/** What a logout is worth: whether the tokens it has dropped can come back without a login. */
module AuthLogout {
  import opened Wrappers
  import opened Auth

  predicate HoldsNothing(s: System) {
    s.store.access == "" && s.store.refresh == ""
  }

  predicate LogsIn(e: Event) {
    e.LoginRead? && Grants(e.ok, e.body)
  }

  /** A refresh reads a body that grants a pair. */
  predicate Renews(s: System, e: Event) {
    e.RefreshRead? && e.task < |s.tasks| && s.tasks[e.task].Parsing? && Grants(s.tasks[e.task].ok, e.body)
  }

  /** A refresh whose answer is still awaited, or was fine and is still to be read. */
  predicate Awaits(task: Task) {
    task.Fetching? || task == Parsing(true)
  }

  predicate MayRenew(s: System) {
    exists i :: 0 <= i < |s.tasks| && Awaits(s.tasks[i])
  }

  /** Throughout the run no token is held. */
  predicate StaysOut(s: System, events: seq<Event>)
    decreases |events|
  {
    HoldsNothing(s) && (events == [] || StaysOut(Step(s, events[0]), events[1..]))
  }

  predicate NoLogin(events: seq<Event>) {
    forall e :: e in events ==> !LogsIn(e)
  }

  /** No event of the run is a refresh that renews. */
  predicate NeverRenews(s: System, events: seq<Event>)
    decreases |events|
  {
    events == [] || (!Renews(s, events[0]) && NeverRenews(Step(s, events[0]), events[1..]))
  }

  /** Tokens come back exactly by a login or a renewal. */
  lemma {:induction false} StepStaysOut(s: System, e: Event)
    requires HoldsNothing(s)
    ensures HoldsNothing(Step(s, e)) <==> !LogsIn(e) && !Renews(s, e)
  {
  }

  /** With no token held, no refresh is begun that could renew. */
  lemma {:induction false} StepAwaitsNothing(s: System, e: Event)
    requires HoldsNothing(s) && !MayRenew(s)
    ensures !MayRenew(Step(s, e)) && !Renews(s, e)
  {
    var n := Step(s, e);
    forall i | 0 <= i < |n.tasks| ensures !Awaits(n.tasks[i]) {
      assert i < |s.tasks| ==> !Awaits(s.tasks[i]);
    }
    assert Renews(s, e) ==> Awaits(s.tasks[e.task]);
  }

  /** Between two logins, the tokens stay away exactly as long as no refresh renews. */
  lemma {:induction false} RunStaysOut(s: System, events: seq<Event>)
    requires HoldsNothing(s) && NoLogin(events)
    ensures StaysOut(s, events) <==> NeverRenews(s, events)
    decreases |events|
  {
    if events != [] {
      StepStaysOut(s, events[0]);
      assert !LogsIn(events[0]) && NoLogin(events[1..]);
      if HoldsNothing(Step(s, events[0])) {
        RunStaysOut(Step(s, events[0]), events[1..]);
      }
    }
  }

  lemma {:induction false} NothingAwaitedStaysOut(s: System, events: seq<Event>)
    requires HoldsNothing(s) && !MayRenew(s) && NoLogin(events)
    ensures StaysOut(s, events)
    decreases |events|
  {
    if events != [] {
      StepAwaitsNothing(s, events[0]);
      StepStaysOut(s, events[0]);
      assert !LogsIn(events[0]) && NoLogin(events[1..]);
      NothingAwaitedStaysOut(Step(s, events[0]), events[1..]);
    }
  }

  /** What undoes a logout: the refresh is answered, and its body grants a pair. */
  function Undoing(task: Task, i: nat, body: Body): seq<Event> {
    if task.Fetching? then [RefreshAnswers(i, true), RefreshRead(i, Some(body))] else [RefreshRead(i, Some(body))]
  }

  lemma {:induction false} RenewalEndsIt(s: System, i: nat, body: Body)
    requires HoldsNothing(s) && i < |s.tasks| && Awaits(s.tasks[i]) && Grants(true, Some(body))
    ensures !StaysOut(s, Undoing(s.tasks[i], i, body)) && NoLogin(Undoing(s.tasks[i], i, body))
    ensures Run(s, Undoing(s.tasks[i], i, body)).store.access == body.token
  {
    var read := RefreshRead(i, Some(body));
    if s.tasks[i].Fetching? {
      var answer := RefreshAnswers(i, true);
      var n := Step(s, answer);
      assert [answer, read][1..] == [read] && [read][1..] == [];
      assert Run(s, [answer, read]) == Run(n, [read]) == Run(Step(n, read), []);
      assert !StaysOut(Step(n, read), []) && !StaysOut(n, [read]);
    } else {
      assert [read][1..] == [] && Run(s, [read]) == Run(Step(s, read), []) && !StaysOut(Step(s, read), []);
    }
  }

  /**
   * After a logout the tokens stay away until the next login, whatever else happens, exactly when no refresh was on its
   * way at the logout that could still renew: a refresh on its way holds the pair it is granted without looking.
   */
  lemma {:induction false} LogoutHoldsIff(s: System)
    ensures (forall events :: NoLogin(events) ==> StaysOut(Step(s, Logout), events)) <==> !MayRenew(s)
  {
    var out := Step(s, Logout);
    if MayRenew(s) {
      var i :| 0 <= i < |s.tasks| && Awaits(s.tasks[i]);
      var body := Body(true, "t", "", false);
      RenewalEndsIt(out, i, body);
      assert !(NoLogin(Undoing(out.tasks[i], i, body)) ==> StaysOut(out, Undoing(out.tasks[i], i, body)));
    } else {
      forall events | NoLogin(events) ensures StaysOut(out, events) {
        NothingAwaitedStaysOut(out, events);
      }
    }
  }

  /** From any loaded page with a refresh token: a 401, a logout, and the answer to the refresh undo the logout. */
  lemma {:induction false} LogoutUndone(access: string, refresh: string, timer: Timer, body: Body)
    requires refresh != "" && Grants(true, Some(body))
    ensures var out := Run(Loaded(access, refresh, timer), [Send(true), Answer(0, true), Logout]);
            && HoldsNothing(out)
            && Run(out, [RefreshAnswers(0, true), RefreshRead(0, Some(body))]).store.access == body.token
  {
    RunThree(Loaded(access, refresh, timer), Send(true), Answer(0, true), Logout);
    var out := Run(Loaded(access, refresh, timer), [Send(true), Answer(0, true), Logout]);
    RenewalEndsIt(out, 0, body);
  }
}

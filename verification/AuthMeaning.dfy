/**
 * What a 401, a renewal, a login and a logout do, told by the tokens and the requests, and why a request was answered.
 */
module AuthMeaning {
  import opened Wrappers
  import opened Auth

  // ----- one stretch -----

  /** The first answer to a request: it is final unless it is a 401 that a refresh may still turn. */
  lemma {:induction false} FirstAnswerIs(s: System, r: nat, unauthorized: bool)
    requires r < |s.requests| && s.requests[r].phase == FirstTry
    ensures var n, q := Step(s, Answer(r, unauthorized)), s.requests[r];
            if !unauthorized || !q.renewable then
              n == s.(requests := s.requests[r := Request(q.renewable, Answered, q.sends)])
            else if s.store.inFlight.Some? then
              n == s.(requests := s.requests[r := Request(true, Waiting(s.store.inFlight.value), q.sends)])
            else
              n.requests == s.requests[r := Request(true, Waiting(|s.tasks|), q.sends)] && Begun(s, s.store.timer, n)
  {
  }

  /** A refresh began: it presents the held token, or ends the session where there is none. */
  ghost predicate Begun(s: System, timer: Timer, n: System) {
    var held := s.store;
    if held.refresh != "" then
      && n.store == Store(held.access, held.refresh, timer, held.authRequired, Some(|s.tasks|))
      && n.tasks == s.tasks + [Fetching] && n.presented == s.presented + [held.refresh]
    else
      && n.store == Store("", "", Off, true, Some(|s.tasks|))
      && n.tasks == s.tasks + [Settled(false)] && n.presented == s.presented
  }

  /** The timer fires once, and begins a refresh if none is in flight. */
  lemma {:induction false} TimerIs(s: System)
    ensures var n := Step(s, TimerFires);
            && n.requests == s.requests
            && (s.store.timer != Armed ==> n == s)
            && (s.store.timer == Armed && s.store.inFlight.Some? ==> n == s.(store := s.store.(timer := Fired)))
            && (s.store.timer == Armed && s.store.inFlight.None? ==> Begun(s, Fired, n))
  {
  }

  /** The answer to a retry is final; a second 401 asks for a login. */
  lemma {:induction false} RetryAnswerIs(s: System, r: nat, unauthorized: bool)
    requires r < |s.requests| && s.requests[r].phase == Retry
    ensures var n, held, q := Step(s, Answer(r, unauthorized)), s.store, s.requests[r];
            && n.requests == s.requests[r := Request(q.renewable, Answered, q.sends)]
            && n.store == Store(held.access, held.refresh, held.timer, held.authRequired || unauthorized, held.inFlight)
            && n.tasks == s.tasks && n.presented == s.presented
  {
  }

  /** A request that is waiting or was answered gets no answer and no failure. */
  lemma {:induction false} NothingDue(s: System, r: nat, unauthorized: bool)
    requires r < |s.requests| ==> s.requests[r].phase == Answered || s.requests[r].phase.Waiting?
    ensures Step(s, Answer(r, unauthorized)) == s && Step(s, RequestFails(r)) == s
  {
  }

  /** A waiting request goes on exactly when its refresh is over: to its second sending, or to a request for a login. */
  lemma {:induction false} ResumedIs(s: System, r: nat)
    ensures var n := Step(s, Resume(r));
            if r < |s.requests| && s.requests[r].phase.Waiting? && s.requests[r].phase.task < |s.tasks| then
              var q, held, task := s.requests[r], s.store, s.tasks[s.requests[r].phase.task];
              && n.tasks == s.tasks && n.presented == s.presented
              && (task == Over(true) ==>
                    n.store == held && n.requests == s.requests[r := Request(q.renewable, Retry, q.sends + 1)])
              && (task == Over(false) ==>
                    && n.store == Store(held.access, held.refresh, held.timer, true, held.inFlight)
                    && n.requests == s.requests[r := Request(q.renewable, Answered, q.sends)])
              && (!task.Over? ==> n == s)
            else n == s
  {
  }

  /** A body is read as a grant exactly when the status was fine, it says success, and it has a token. */
  lemma {:induction false} ReadIs(s: System, i: nat, ok: bool, b: Body)
    requires i < |s.tasks| && s.tasks[i] == Parsing(ok)
    ensures var n, held := Step(s, RefreshRead(i, Some(b))), s.store;
            && n.requests == s.requests && n.presented == s.presented
            && if ok && b.success && b.token != "" then
                 && n.tasks == s.tasks[i := Settled(true)]
                 && n.store == Store(b.token, if b.refreshToken != "" then b.refreshToken else held.refresh,
                                     if b.expires then Armed else Off, held.authRequired, held.inFlight)
               else
                 && n.tasks == s.tasks[i := Settled(false)] && n.store == Store("", "", Off, true, held.inFlight)
    ensures Step(s, RefreshRead(i, None)) ==
            System(Store("", "", Off, true, s.store.inFlight), s.tasks[i := Settled(false)], s.requests, s.presented)
  {
  }

  /** The other stretches of a refresh. */
  lemma {:induction false} RefreshIs(s: System, i: nat, ok: bool)
    requires i < |s.tasks|
    ensures s.tasks[i] == Fetching ==>
              && Step(s, RefreshAnswers(i, ok)) == s.(tasks := s.tasks[i := Parsing(ok)])
              && Step(s, RefreshFails(i)) == System(Store("", "", Off, true, s.store.inFlight),
                                                    s.tasks[i := Settled(false)], s.requests, s.presented)
    ensures s.tasks[i].Settled? ==>
              var held := s.store;
              Step(s, RefreshEnds(i)) ==
              System(Store(held.access, held.refresh, held.timer, held.authRequired, None),
                     s.tasks[i := Over(s.tasks[i].result)], s.requests, s.presented)
  {
  }

  /** A stretch of a refresh that is not due does nothing; a request starts with its first sending. */
  lemma {:induction false} RefreshNotDue(s: System, i: nat, ok: bool, body: Option<Body>, renewable: bool)
    ensures !(i < |s.tasks| && s.tasks[i] == Fetching) ==>
              Step(s, RefreshAnswers(i, ok)) == s && Step(s, RefreshFails(i)) == s
    ensures !(i < |s.tasks| && s.tasks[i].Parsing?) ==> Step(s, RefreshRead(i, body)) == s
    ensures !(i < |s.tasks| && s.tasks[i].Settled?) ==> Step(s, RefreshEnds(i)) == s
    ensures Step(s, Send(renewable)) == s.(requests := s.requests + [Request(renewable, FirstTry, 1)])
  {
  }

  lemma {:induction false} LoginIs(s: System, ok: bool, b: Body)
    ensures var n, held := Step(s, LoginRead(ok, Some(b))), s.store;
            if ok && b.success && b.token != "" then
              n == s.(store := Store(b.token, if b.refreshToken != "" then b.refreshToken else held.refresh,
                                     if b.expires then Armed else Off, false, held.inFlight))
            else n == s
    ensures Step(s, LoginRead(ok, None)) == s
    ensures Step(s, Logout) == s.(store := Store("", "", Off, s.store.authRequired, s.store.inFlight))
  {
  }

  // ----- in whole runs -----

  /** The state in which event number `k` of the run finds the page. */
  function Before(s: System, events: seq<Event>, k: nat): System
    requires k <= |events|
    decreases |events|
  {
    if k == 0 then s else Before(Step(s, events[0]), events[1..], k - 1)
  }

  lemma {:induction false} BeforeIsRun(s: System, events: seq<Event>, k: nat)
    requires k <= |events|
    ensures Before(s, events, k) == Run(s, events[..k])
    decreases |events|
  {
    if k > 0 {
      assert events[..k][0] == events[0] && events[..k][1..] == events[1..][..k - 1];
      BeforeIsRun(Step(s, events[0]), events[1..], k - 1);
    }
  }

  /** Event number `k` of the run, in the state it finds. */
  ghost predicate At(s: System, events: seq<Event>, k: nat, due: (System, Event) -> bool) {
    k < |events| && due(Before(s, events, k), events[k])
  }

  ghost predicate Sometime(s: System, events: seq<Event>, due: (System, Event) -> bool) {
    exists k: nat :: At(s, events, k, due)
  }

  lemma {:induction false} SometimeSplits(s: System, events: seq<Event>, due: (System, Event) -> bool)
    requires events != []
    ensures Sometime(s, events, due) <==> due(s, events[0]) || Sometime(Step(s, events[0]), events[1..], due)
  {
    if Sometime(s, events, due) {
      var k: nat :| At(s, events, k, due);
      assert k > 0 ==> At(Step(s, events[0]), events[1..], k - 1, due);
    }
    if due(s, events[0]) {
      assert At(s, events, 0, due);
    }
    if Sometime(Step(s, events[0]), events[1..], due) {
      var k: nat :| At(Step(s, events[0]), events[1..], k, due);
      assert At(s, events, k + 1, due);
    }
  }

  predicate InPhase(s: System, r: nat, phase: RequestPhase) {
    r < |s.requests| && s.requests[r].phase == phase
  }

  predicate WaitsOn(s: System, r: nat, task: Task) {
    && r < |s.requests| && s.requests[r].phase.Waiting? && s.requests[r].phase.task < |s.tasks|
    && s.tasks[s.requests[r].phase.task] == task
  }

  /** Request `r` is given its final answer without a second sending. */
  predicate SettledByFirst(r: nat, s: System, e: Event) {
    || (InPhase(s, r, FirstTry) && (e == Answer(r, false) || e == RequestFails(r) ||
                                    (e == Answer(r, true) && !s.requests[r].renewable)))
    || (WaitsOn(s, r, Over(false)) && e == Resume(r))
  }

  /** Request `r` is sent again, its refresh having been granted. */
  predicate SentAgain(r: nat, s: System, e: Event) {
    WaitsOn(s, r, Over(true)) && e == Resume(r)
  }

  lemma {:induction false} StepAnswersFirst(s: System, e: Event, r: nat)
    requires OneInFlight(s) && SentAtMostTwice(s)
    ensures var n := Step(s, e);
            (r < |n.requests| && n.requests[r].phase == Answered && n.requests[r].sends == 1) <==>
            (r < |s.requests| && s.requests[r].phase == Answered && s.requests[r].sends == 1) || SettledByFirst(r, s, e)
    ensures var n := Step(s, e);
            (r < |n.requests| && n.requests[r].sends == 2) <==>
            (r < |s.requests| && s.requests[r].sends == 2) || SentAgain(r, s, e)
  {
  }

  lemma {:induction false} RunAnswers(s: System, events: seq<Event>, r: nat)
    requires OneInFlight(s) && SentAtMostTwice(s)
    ensures var n := Run(s, events);
            (r < |n.requests| && n.requests[r].phase == Answered && n.requests[r].sends == 1) <==>
            (r < |s.requests| && s.requests[r].phase == Answered && s.requests[r].sends == 1) ||
            Sometime(s, events, (t, e) => SettledByFirst(r, t, e))
    ensures var n := Run(s, events);
            (r < |n.requests| && n.requests[r].sends == 2) <==>
            (r < |s.requests| && s.requests[r].sends == 2) || Sometime(s, events, (t, e) => SentAgain(r, t, e))
    decreases |events|
  {
    if events != [] {
      StepAnswersFirst(s, events[0], r);
      StepOneInFlight(s, events[0]);
      StepSendsAtMostTwice(s, events[0]);
      RunAnswers(Step(s, events[0]), events[1..], r);
      SometimeSplits(s, events, (t, e) => SettledByFirst(r, t, e));
      SometimeSplits(s, events, (t, e) => SentAgain(r, t, e));
    }
  }

  /**
   * In every run of a loaded page: a request was answered after one sending exactly when its first answer was no 401,
   * or it was not renewable, or the network failed it, or its refresh was refused; and it was sent twice exactly when
   * it was resumed on a refresh that was granted.
   */
  lemma {:induction false} WhyAnswered(access: string, refresh: string, timer: Timer, events: seq<Event>, r: nat)
    ensures var s := Loaded(access, refresh, timer);
            var n := Run(s, events);
            && ((r < |n.requests| && n.requests[r].phase == Answered && n.requests[r].sends == 1) <==>
                Sometime(s, events, (t, e) => SettledByFirst(r, t, e)))
            && ((r < |n.requests| && n.requests[r].sends == 2) <==> Sometime(s, events, (t, e) => SentAgain(r, t, e)))
  {
    RunAnswers(Loaded(access, refresh, timer), events, r);
  }

  lemma {:induction false} RunWellFormed(s: System, events: seq<Event>)
    requires OneInFlight(s) && SentAtMostTwice(s)
    ensures OneInFlight(Run(s, events)) && SentAtMostTwice(Run(s, events))
    decreases |events|
  {
    if events != [] {
      StepOneInFlight(s, events[0]);
      StepSendsAtMostTwice(s, events[0]);
      RunWellFormed(Step(s, events[0]), events[1..]);
    }
  }

  /**
   * In every run, a request that waits on a granted refresh is sent a second time when it goes on, with nothing else
   * changed, and one that waits on a refused refresh is answered, and a login is asked for.
   */
  lemma {:induction false} RefreshDecidesRetry(access: string, refresh: string, timer: Timer, events: seq<Event>,
                                               r: nat)
    ensures var s := Run(Loaded(access, refresh, timer), events);
            var n := Step(s, Resume(r));
            && (WaitsOn(s, r, Over(true)) ==> n == s.(requests := s.requests[r := Request(true, Retry, 2)]))
            && (WaitsOn(s, r, Over(false)) ==>
                  && n.requests == s.requests[r := Request(true, Answered, 1)] && n.store.authRequired
                  && n.tasks == s.tasks && n.presented == s.presented)
  {
    RunWellFormed(Loaded(access, refresh, timer), events);
    ResumedIs(Run(Loaded(access, refresh, timer), events), r);
  }

  // ----- why a refresh was granted -----

  /** Refresh `i` reads the body of an answer that was fine, and the body grants a token. */
  predicate ReadsGrant(i: nat, s: System, e: Event) {
    && i < |s.tasks| && s.tasks[i] == Parsing(true) && e.RefreshRead? && e.task == i
    && e.body.Some? && e.body.value.success && e.body.value.token != ""
  }

  predicate Succeeded(s: System, i: nat) {
    i < |s.tasks| && (s.tasks[i] == Settled(true) || s.tasks[i] == Over(true))
  }

  lemma {:induction false} StepSucceeds(s: System, e: Event, i: nat)
    ensures Succeeded(Step(s, e), i) <==> Succeeded(s, i) || ReadsGrant(i, s, e)
  {
  }

  lemma {:induction false} RunSucceeds(s: System, events: seq<Event>, i: nat)
    ensures Succeeded(Run(s, events), i) <==>
            Succeeded(s, i) || Sometime(s, events, (t, e) => ReadsGrant(i, t, e))
    decreases |events|
  {
    if events != [] {
      StepSucceeds(s, events[0], i);
      RunSucceeds(Step(s, events[0]), events[1..], i);
      SometimeSplits(s, events, (t, e) => ReadsGrant(i, t, e));
    }
  }

  /** In every run, a refresh that is over was granted exactly when it read a body that granted a token. */
  lemma {:induction false} WhyGranted(access: string, refresh: string, timer: Timer, events: seq<Event>, i: nat)
    ensures var s := Loaded(access, refresh, timer);
            var n := Run(s, events);
            i < |n.tasks| && n.tasks[i].Over? ==>
              (n.tasks[i].result <==> Sometime(s, events, (t, e) => ReadsGrant(i, t, e)))
  {
    RunSucceeds(Loaded(access, refresh, timer), events, i);
  }

  // ----- why a login is asked for -----

  predicate GivesUp(s: System, e: Event) {
    || (e.RefreshFails? && e.task < |s.tasks| && s.tasks[e.task] == Fetching)
    || (e.RefreshRead? && e.task < |s.tasks| && s.tasks[e.task].Parsing? && !ReadsGrant(e.task, s, e))
  }

  /** What a refusal leaves: no token, no timer, and the login dialog asked for. */
  lemma {:induction false} RefusalEndsSession(s: System, e: Event)
    requires GivesUp(s, e)
    ensures Step(s, e).store == Store("", "", Off, true, s.store.inFlight)
  {
  }

  /** A refresh begins: a renewable request was refused, or the timer fires, and none is in flight. */
  predicate StartsRefresh(s: System, e: Event) {
    s.store.inFlight.None? &&
    match e
    case Answer(r, true) => InPhase(s, r, FirstTry) && s.requests[r].renewable
    case TimerFires => s.store.timer == Armed
    case _ => false
  }

  /** A refresh is refused or has no token to present, a retry meets a 401, or a request goes on without a refresh. */
  predicate AsksForLogin(s: System, e: Event) {
    || GivesUp(s, e)
    || (StartsRefresh(s, e) && s.store.refresh == "")
    || (e.Answer? && e.unauthorized && InPhase(s, e.request, Retry))
    || (e.Resume? && WaitsOn(s, e.request, Over(false)))
  }

  /** The flag for the login dialog goes up exactly then, and only a login takes it down. */
  lemma {:induction false} StepAsks(s: System, e: Event)
    ensures AsksForLogin(s, e) ==> Step(s, e).store.authRequired
    ensures !AsksForLogin(s, e) && !e.LoginRead? ==> Step(s, e).store.authRequired == s.store.authRequired
    ensures e.LoginRead? ==> (Step(s, e).store.authRequired ==> s.store.authRequired)
  {
  }

  lemma {:induction false} RunAsks(s: System, events: seq<Event>)
    requires !s.store.authRequired && Run(s, events).store.authRequired
    ensures Sometime(s, events, (t, e) => AsksForLogin(t, e))
    decreases |events|
  {
    StepAsks(s, events[0]);
    SometimeSplits(s, events, (t, e) => AsksForLogin(t, e));
    if !Step(s, events[0]).store.authRequired {
      RunAsks(Step(s, events[0]), events[1..]);
    }
  }

  /**
   * A page that has just loaded asks for no login, and in every run of it one is asked for only on such an occasion.
   */
  lemma {:induction false} WhyLoginIsAsked(access: string, refresh: string, timer: Timer, events: seq<Event>)
    ensures var s := Loaded(access, refresh, timer);
            && !s.store.authRequired
            && (Run(s, events).store.authRequired ==> Sometime(s, events, (t, e) => AsksForLogin(t, e)))
  {
    if Run(Loaded(access, refresh, timer), events).store.authRequired {
      RunAsks(Loaded(access, refresh, timer), events);
    }
  }
}

/**
 * Token renewal: requests that meet a 401, timers, logins and logouts interleave, and share one refresh.
 *
 * A step is one stretch of code between two awaits. The empty string stands for a token that is not there.
 */
module Auth {
  import opened Wrappers

  // ----- the module's own state -----

  datatype Timer = Off | Armed | Fired

  /** The held tokens, the renewal timer, the flag for the login dialog, and which refresh is in flight. */
  datatype Store = Store(access: string, refresh: string, timer: Timer, authRequired: bool, inFlight: Option<nat>)

  /** A JSON body of the auth endpoints; `expires` is whether the token states its own expiry. */
  datatype Body = Body(success: bool, token: string, refreshToken: string, expires: bool)

  /** Where one run of `doRefresh` has got to; `Settled` has its result, `Over` has also left `inFlight`. */
  datatype Task = Fetching | Parsing(ok: bool) | Settled(result: bool) | Over(result: bool)

  /** The session ended and could not be renewed. */
  function AuthFailure(c: Store): Store {
    c.(timer := Off, access := "", refresh := "", authRequired := true)
  }

  predicate Grants(ok: bool, body: Option<Body>) {
    ok && body.Some? && body.value.success && body.value.token != ""
  }

  /** Hold a granted pair; without a replacement the old refresh token stays. */
  function Hold(c: Store, body: Body): Store {
    c.(access := body.token, refresh := if body.refreshToken != "" then body.refreshToken else c.refresh,
       timer := if body.expires then Armed else Off)
  }

  /** The first stretch of `doRefresh`, as refresh number `task`. */
  function Begin(c: Store, task: nat): (Store, Task) {
    var held := c.(inFlight := Some(task));
    if c.refresh == "" then (AuthFailure(held), Settled(false)) else (held, Fetching)
  }

  /** Its last stretch, once the body is read. */
  function Finish(c: Store, ok: bool, body: Option<Body>): (Store, Task) {
    if Grants(ok, body) then (Hold(c, body.value), Settled(true)) else (AuthFailure(c), Settled(false))
  }

  function LoggedIn(c: Store, ok: bool, body: Option<Body>): Store {
    if Grants(ok, body) then Hold(c.(authRequired := false), body.value) else c
  }

  function LoggedOut(c: Store): Store {
    c.(timer := Off, access := "", refresh := "")
  }

  /** The module as it runs. */
  class AuthModule {
    var memoryToken: string
    var refreshToken: string
    var refreshTimer: Timer
    var authRequired: bool
    var inFlightRefresh: Option<nat>

    function View(): Store
      reads this
    {
      Store(memoryToken, refreshToken, refreshTimer, authRequired, inFlightRefresh)
    }

    method HandleAuthFailure()
      modifies this
      ensures View() == AuthFailure(old(View()))
    {
      refreshTimer := Off;
      memoryToken := "";
      refreshToken := "";
      if !authRequired {
        authRequired := true;
      }
    }

    method ScheduleProactiveRefresh(body: Body)
      modifies `refreshTimer
      ensures refreshTimer == if body.expires then Armed else Off
    {
      refreshTimer := Off;
      if body.expires {
        refreshTimer := Armed;
      }
    }

    /** Join the refresh in flight, or start one under the number `next`. */
    method RefreshAccessToken(next: nat) returns (task: nat, started: Option<Task>)
      modifies this
      ensures match old(inFlightRefresh)
              case Some(running) => task == running && started == None && View() == old(View())
              case None =>
                task == next && started.Some? && (View(), started.value) == Begin(old(View()), next)
    {
      if inFlightRefresh.Some? {
        return inFlightRefresh.value, None;
      }
      inFlightRefresh := Some(next);
      if refreshToken == "" {
        HandleAuthFailure();
        return next, Some(Settled(false));
      }
      return next, Some(Fetching);
    }

    method FinishRefresh(ok: bool, body: Option<Body>) returns (task: Task)
      modifies this
      ensures (View(), task) == Finish(old(View()), ok, body)
    {
      if ok && body.Some? && body.value.success && body.value.token != "" {
        memoryToken := body.value.token;
        if body.value.refreshToken != "" {
          refreshToken := body.value.refreshToken;
        }
        ScheduleProactiveRefresh(body.value);
        return Settled(true);
      }
      HandleAuthFailure();
      return Settled(false);
    }

    method FinishLogin(ok: bool, body: Option<Body>)
      modifies this
      ensures View() == LoggedIn(old(View()), ok, body)
    {
      if ok && body.Some? && body.value.success && body.value.token != "" {
        authRequired := false;
        memoryToken := body.value.token;
        if body.value.refreshToken != "" {
          refreshToken := body.value.refreshToken;
        }
        ScheduleProactiveRefresh(body.value);
      }
    }

    method Logout()
      modifies this
      ensures View() == LoggedOut(old(View()))
    {
      refreshTimer := Off;
      memoryToken := "";
      refreshToken := "";
    }
  }

  // ----- the interleaving -----

  /** A logical request through the interceptor, and how often it has been sent. */
  datatype Request = Request(renewable: bool, phase: RequestPhase, sends: nat)

  datatype RequestPhase = FirstTry | Waiting(task: nat) | Retry | Answered

  /** The store, every run of `doRefresh` and every request so far, and each refresh token that was presented. */
  datatype System = System(store: Store, tasks: seq<Task>, requests: seq<Request>, presented: seq<string>)

  /** Who does the next stretch, and what the network hands it. */
  datatype Event =
    | Send(renewable: bool)
    | Answer(request: nat, unauthorized: bool)
    | RequestFails(request: nat)
    | Resume(request: nat)
    | TimerFires
    | RefreshAnswers(task: nat, ok: bool)
    | RefreshFails(task: nat)
    | RefreshRead(task: nat, body: Option<Body>)
    | RefreshEnds(task: nat)
    | LoginRead(ok: bool, body: Option<Body>)
    | Logout

  /** `refreshAccessToken()`: join the refresh in flight, or begin one, which presents the held token. */
  function Renew(s: System): (System, nat) {
    match s.store.inFlight
    case Some(task) => (s, task)
    case None =>
      var n := |s.tasks|;
      var (store, task) := Begin(s.store, n);
      (s.(store := store, tasks := s.tasks + [task],
          presented := if task.Fetching? then s.presented + [s.store.refresh] else s.presented), n)
  }

  function WithRequest(s: System, r: nat, request: Request): System
    requires r < |s.requests|
  {
    s.(requests := s.requests[r := request])
  }

  function WithTask(s: System, i: nat, store: Store, task: Task): System
    requires i < |s.tasks|
  {
    s.(store := store, tasks := s.tasks[i := task])
  }

  function MarkAuthRequired(s: System): System {
    s.(store := s.store.(authRequired := true))
  }

  /** The response to a request: a 401 on the first try of a renewable one asks for a refresh, and it waits for that. */
  function Respond(s: System, r: nat, unauthorized: bool): System
    requires r < |s.requests|
  {
    var q := s.requests[r];
    match q.phase
    case FirstTry =>
      if unauthorized && q.renewable then
        var (renewing, task) := Renew(s);
        WithRequest(renewing, r, q.(phase := Waiting(task)))
      else WithRequest(s, r, q.(phase := Answered))
    case Retry =>
      WithRequest(if unauthorized then MarkAuthRequired(s) else s, r, q.(phase := Answered))
    case _ => s
  }

  /** The refresh a request waited for is over: retry once, or give up. */
  function Continue(s: System, r: nat): System
    requires r < |s.requests|
  {
    var q := s.requests[r];
    if q.phase.Waiting? && q.phase.task < |s.tasks| && s.tasks[q.phase.task].Over? then
      if s.tasks[q.phase.task].result then WithRequest(s, r, q.(phase := Retry, sends := q.sends + 1))
      else WithRequest(MarkAuthRequired(s), r, q.(phase := Answered))
    else s
  }

  /** One stretch; an event that is not due changes nothing. */
  function Step(s: System, e: Event): System {
    match e
    case Send(renewable) => s.(requests := s.requests + [Request(renewable, FirstTry, 1)])
    case Answer(r, unauthorized) => if r < |s.requests| then Respond(s, r, unauthorized) else s
    case RequestFails(r) =>
      if r < |s.requests| && (s.requests[r].phase.FirstTry? || s.requests[r].phase.Retry?) then
        WithRequest(s, r, s.requests[r].(phase := Answered))
      else s
    case Resume(r) => if r < |s.requests| then Continue(s, r) else s
    case TimerFires => if s.store.timer.Armed? then Renew(s.(store := s.store.(timer := Fired))).0 else s
    case RefreshAnswers(i, ok) =>
      if i < |s.tasks| && s.tasks[i].Fetching? then WithTask(s, i, s.store, Parsing(ok)) else s
    case RefreshFails(i) =>
      if i < |s.tasks| && s.tasks[i].Fetching? then WithTask(s, i, AuthFailure(s.store), Settled(false)) else s
    case RefreshRead(i, body) =>
      if i < |s.tasks| && s.tasks[i].Parsing? then
        var (store, task) := Finish(s.store, s.tasks[i].ok, body);
        WithTask(s, i, store, task)
      else s
    case RefreshEnds(i) =>
      if i < |s.tasks| && s.tasks[i].Settled? then
        WithTask(s, i, s.store.(inFlight := None), Over(s.tasks[i].result))
      else s
    case LoginRead(ok, body) => s.(store := LoggedIn(s.store, ok, body))
    case Logout => s.(store := LoggedOut(s.store))
  }

  function Run(s: System, events: seq<Event>): System
    decreases |events|
  {
    if events == [] then s else Run(Step(s, events[0]), events[1..])
  }

  // ----- what every interleaving keeps -----

  /** A refresh that is not over is the one in flight, so there is at most one. */
  ghost predicate OneInFlight(s: System) {
    && (s.store.inFlight.Some? ==> s.store.inFlight.value < |s.tasks| && !s.tasks[s.store.inFlight.value].Over?)
    && forall i :: 0 <= i < |s.tasks| && !s.tasks[i].Over? ==> s.store.inFlight == Some(i)
  }

  predicate OnTheWire(s: System) {
    match s.store.inFlight
    case Some(i) => i < |s.tasks| && (s.tasks[i].Fetching? || s.tasks[i].Parsing?)
    case None => false
  }

  ghost predicate NoRepeats(tokens: seq<string>) {
    forall i, j :: 0 <= i < j < |tokens| ==> tokens[i] != tokens[j]
  }

  /**
   * No token was presented twice, and a token already presented is still held only while its refresh is on the wire.
   */
  ghost predicate SpentOnce(s: System) {
    && NoRepeats(s.presented)
    && (s.store.refresh != "" && s.store.refresh in s.presented ==> OnTheWire(s))
  }

  /** Sent once, and a second time only for a renewable request whose refresh succeeded. */
  ghost predicate SentAtMostTwice(s: System) {
    forall r :: 0 <= r < |s.requests| ==>
      var q := s.requests[r];
      && (q.phase.FirstTry? || q.phase.Waiting? ==> q.sends == 1)
      && (q.phase.Retry? ==> q.sends == 2) && 1 <= q.sends <= 2 && (q.sends == 2 ==> q.renewable)
      && (q.phase.Waiting? ==> q.renewable && q.phase.task < |s.tasks|)
  }

  ghost predicate Inv(s: System) {
    OneInFlight(s) && SpentOnce(s) && SentAtMostTwice(s)
  }

  /** A server hands out no refresh token that has been presented before. */
  predicate Fresh(s: System, e: Event) {
    match e
    case RefreshRead(_, Some(body)) => body.refreshToken == "" || body.refreshToken !in s.presented
    case LoginRead(_, Some(body)) => body.refreshToken == "" || body.refreshToken !in s.presented
    case _ => true
  }

  /** A refresh is granted without a replacement for the spent token, and that token is the one still held. */
  predicate LeavesSpent(s: System, e: Event) {
    && e.RefreshRead? && e.task < |s.tasks| && s.tasks[e.task].Parsing?
    && Grants(s.tasks[e.task].ok, e.body) && e.body.value.refreshToken == ""
    && s.store.refresh != "" && s.store.refresh in s.presented
  }

  lemma {:induction false} StepOneInFlight(s: System, e: Event)
    requires OneInFlight(s)
    ensures OneInFlight(Step(s, e))
  {
  }

  lemma {:induction false} StepSendsAtMostTwice(s: System, e: Event)
    requires OneInFlight(s) && SentAtMostTwice(s)
    ensures SentAtMostTwice(Step(s, e))
  {
  }

  /** A stretch keeps refresh tokens single-use exactly when it does not leave a spent one in store. */
  lemma {:induction false} StepSpendsOnce(s: System, e: Event)
    requires OneInFlight(s) && SpentOnce(s) && Fresh(s, e)
    ensures SpentOnce(Step(s, e)) <==> !LeavesSpent(s, e)
  {
  }

  lemma {:induction false} StepKeeps(s: System, e: Event)
    requires Inv(s) && Fresh(s, e)
    ensures Inv(Step(s, e)) <==> !LeavesSpent(s, e)
  {
    StepOneInFlight(s, e);
    StepSendsAtMostTwice(s, e);
    StepSpendsOnce(s, e);
  }

  // ----- whole runs -----

  /** A granted refresh comes with a replacement. */
  predicate Rotates(e: Event) {
    e.RefreshRead? && e.body.Some? && e.body.value.success ==> e.body.value.refreshToken != ""
  }

  /** Throughout the run the server replaces every refresh token it accepts, by one that was not presented before. */
  ghost predicate ServerRotates(s: System, events: seq<Event>)
    decreases |events|
  {
    events == [] || (Fresh(s, events[0]) && Rotates(events[0]) && ServerRotates(Step(s, events[0]), events[1..]))
  }

  /** A page that has just loaded, with whatever tokens it finds. */
  function Loaded(access: string, refresh: string, timer: Timer): System {
    System(Store(access, refresh, timer, false, None), [], [], [])
  }

  lemma {:induction false} RunKeeps(s: System, events: seq<Event>)
    requires Inv(s) && ServerRotates(s, events)
    ensures Inv(Run(s, events))
    decreases |events|
  {
    if events != [] {
      StepKeeps(s, events[0]);
      RunKeeps(Step(s, events[0]), events[1..]);
    }
  }

  /**
   * However 401s, timers, logins and logouts interleave: at most one refresh is in flight, no refresh token is
   * presented twice, and no request is sent more than twice.
   */
  lemma {:induction false} RefreshTokensAreSingleUse(access: string, refresh: string, timer: Timer, events: seq<Event>)
    requires ServerRotates(Loaded(access, refresh, timer), events)
    ensures var s := Run(Loaded(access, refresh, timer), events);
            && (forall i, j :: 0 <= i < |s.tasks| && 0 <= j < |s.tasks| && !s.tasks[i].Over? && !s.tasks[j].Over?
                  ==> i == j)
            && NoRepeats(s.presented)
            && (forall r :: 0 <= r < |s.requests| ==> s.requests[r].sends <= 2)
  {
    RunKeeps(Loaded(access, refresh, timer), events);
  }

  /** Without rotation the next renewal presents the spent token again. */
  lemma {:induction false} ReuseFollows(s: System, e: Event)
    requires Inv(s) && LeavesSpent(s, e)
    ensures !NoRepeats(Run(Step(s, e), [RefreshEnds(e.task), Send(true), Answer(|s.requests|, true)]).presented)
  {
    var n, spent := |s.requests|, s.store.refresh;
    var s1 := Step(s, e);
    var s2 := Step(s1, RefreshEnds(e.task));
    var s3 := Step(s2, Send(true));
    var s4 := Step(s3, Answer(n, true));
    RunThree(s1, RefreshEnds(e.task), Send(true), Answer(n, true));
    var k :| 0 <= k < |s.presented| && s.presented[k] == spent;
    assert s4.presented == s.presented + [spent];
    assert s4.presented[k] == s4.presented[|s.presented|];
  }

  /** A page with a refresh token, and a server that grants a refresh without replacing the token. */
  function UnrotatedRun(body: Body): seq<Event> {
    [Send(true), Answer(0, true), RefreshAnswers(0, true), RefreshRead(0, Some(body))]
  }

  /** From any loaded page that has a refresh token, such a server sees the token twice after one more 401. */
  lemma {:induction false} ReuseHappens(access: string, refresh: string, timer: Timer, body: Body)
    requires refresh != "" && Grants(true, Some(body)) && body.refreshToken == ""
    ensures !NoRepeats(Run(Loaded(access, refresh, timer),
                           UnrotatedRun(body) + [RefreshEnds(0), Send(true), Answer(1, true)]).presented)
  {
    var first := [Send(true), Answer(0, true), RefreshAnswers(0, true)];
    var last := [RefreshEnds(0), Send(true), Answer(1, true)];
    var read, s0 := RefreshRead(0, Some(body)), Loaded(access, refresh, timer);
    var s := Run(s0, first);
    FirstRenewal(access, refresh, timer);
    assert UnrotatedRun(body) + last == first + ([read] + last) && ([read] + last)[1..] == last;
    RunAppend(s0, first, [read] + last);
    ReuseFollows(s, read);
  }

  lemma {:induction false} FirstRenewal(access: string, refresh: string, timer: Timer)
    requires refresh != ""
    ensures var s0 := Loaded(access, refresh, timer);
            Run(s0, [Send(true), Answer(0, true), RefreshAnswers(0, true)]) ==
            System(s0.store.(inFlight := Some(0)), [Parsing(true)], [Request(true, Waiting(0), 1)], [refresh])
  {
    RunThree(Loaded(access, refresh, timer), Send(true), Answer(0, true), RefreshAnswers(0, true));
  }

  lemma {:induction false} RunAppend(s: System, a: seq<Event>, b: seq<Event>)
    ensures Run(s, a + b) == Run(Run(s, a), b)
    decreases |a|
  {
    if a == [] {
      assert a + b == b;
    } else {
      assert (a + b)[1..] == a[1..] + b;
      RunAppend(Step(s, a[0]), a[1..], b);
    }
  }

  lemma {:induction false} RunThree(s: System, a: Event, b: Event, c: Event)
    ensures Run(s, [a, b, c]) == Step(Step(Step(s, a), b), c)
  {
    assert [a, b, c][1..] == [b, c] && [b, c][1..] == [c] && [c][1..] == [];
    assert Run(s, [a, b, c]) == Run(Step(s, a), [b, c]) == Run(Step(Step(s, a), b), [c]);
    assert Run(Step(Step(Step(s, a), b), c), []) == Step(Step(Step(s, a), b), c);
  }
}

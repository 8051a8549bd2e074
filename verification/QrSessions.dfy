/** QR login sessions and the adapters they install
    (backend/app/api/v1/course.py:169-192, 363-402, 526-605, 631-652, 680-693).
    Handlers run on one event loop and are not interrupted by each other between
    awaits; worker threads interleave with them at every lock. */
module QrSessions {
  type User = string

  /** Sessions are numbered as they are registered. */
  type Sid = nat

  datatype Status = Pending | Success | Failure

  datatype Session = Session(user: User, status: Status, hasQr: bool)

  /** Which login an adapter came from. */
  datatype Source = FromQr(sid: Sid) | FromPassword

  /** What follows a cancellation in the same handler.  `bound` is the number of
      sessions registered when the password login began its last part. */
  datatype After = Register(user: User) | Install(user: User, bound: Sid) | Nothing

  /** The event loop between two lock-held blocks. */
  datatype LoopPc =
    | Free
    | Listing(user: User, after: After)
    | Popping(ids: set<Sid>, after: After)
    | Registering(user: User)
    | Spawning(sid: Sid)
    | Installing(user: User, bound: Sid)

  /** `running` are the sessions whose worker has not ended; `floor` is a
      history variable: the bound of each user's latest password login. */
  datatype State = State(sessions: map<Sid, Session>, adapters: map<User, Source>, loop: LoopPc,
                         running: set<Sid>, next: Sid, floor: map<User, Sid>)

  /** The last part of a handler, from its last await on. */
  datatype Handler =
    | QrStart(user: User)
    | Cancel(ids: set<Sid>)         // a QR code that never came, expired sessions, shutdown
    | Password(user: User)
    | Logout(user: User)
    | Expire(user: User)            // an adapter idle too long

  datatype Action =
    | Begin(handler: Handler)
    | Go(started: bool)                     // the handler's next block
    | Callback(sid: Sid)
    | Finish(sid: Sid, success: bool)       // also the worker's exception branch

  const Initial := State(map[], map[], Free, {}, 0, map[])

  function BeginHandler(s: State, h: Handler): State {
    match h
    case QrStart(user) => s.(loop := Listing(user, Register(user)))
    case Cancel(ids) => s.(loop := Popping(ids, Nothing))
    case Password(user) => s.(loop := Listing(user, Install(user, s.next)))
    case Logout(user) => s.(adapters := s.adapters - {user}, loop := Listing(user, Nothing))
    case Expire(user) => s.(adapters := s.adapters - {user})
  }

  function OfUser(sessions: map<Sid, Session>, user: User): set<Sid> {
    set i | i in sessions && sessions[i].user == user
  }

  function Continue(after: After): LoopPc {
    match after
    case Register(user) => Registering(user)
    case Install(user, bound) => Installing(user, bound)
    case Nothing => Free
  }

  function GoOn(s: State, started: bool): State {
    match s.loop
    case Free => s
    case Listing(user, after) => s.(loop := Popping(OfUser(s.sessions, user), after))
    case Popping(ids, after) => s.(sessions := s.sessions - ids, loop := Continue(after))
    case Registering(user) =>
      s.(sessions := s.sessions[s.next := Session(user, Pending, false)], next := s.next + 1, loop := Spawning(s.next))
    case Spawning(sid) =>
      if started then s.(running := s.running + {sid}, loop := Free) else s.(loop := Popping({sid}, Nothing))
    case Installing(user, bound) =>
      s.(adapters := s.adapters[user := FromPassword], floor := s.floor[user := bound], loop := Free)
  }

  function QrCallback(s: State, sid: Sid): State {
    if sid in s.sessions then s.(sessions := s.sessions[sid := s.sessions[sid].(hasQr := true)]) else s
  }

  function WorkerEnds(s: State, sid: Sid, success: bool): State {
    if sid !in s.sessions then s.(running := s.running - {sid})
    else
      var user := s.sessions[sid].user;
      s.(sessions := s.sessions[sid := s.sessions[sid].(status := if success then Success else Failure)],
         adapters := if success then s.adapters[user := FromQr(sid)] else s.adapters,
         running := s.running - {sid})
  }

  function Step(s: State, a: Action): State {
    match a
    case Begin(h) => if s.loop.Free? then BeginHandler(s, h) else s
    case Go(started) => GoOn(s, started)
    case Callback(sid) => if sid in s.running then QrCallback(s, sid) else s
    case Finish(sid, success) => if sid in s.running then WorkerEnds(s, sid, success) else s
  }

  function RunFrom(s: State, actions: seq<Action>): State {
    if actions == [] then s else Step(RunFrom(s, actions[..|actions| - 1]), actions[|actions| - 1])
  }

  // ---------------------------------------------------------- the invariant

  ghost predicate OnePerUser(sessions: map<Sid, Session>) {
    forall i, j :: i in sessions && j in sessions && sessions[i].user == sessions[j].user ==> i == j
  }

  ghost predicate CancelledFor(s: State, after: After, left: set<Sid>) {
    after.Nothing? || ((after.Install? ==> after.bound == s.next) && OfUser(s.sessions, after.user) <= left)
  }

  ghost predicate LoopOk(s: State) {
    match s.loop
    case Listing(user, after) => (after.Install? ==> after.bound == s.next) && (after.Nothing? || after.user == user)
    case Popping(ids, after) => CancelledFor(s, after, ids)
    case Registering(user) => OfUser(s.sessions, user) == {}
    case Spawning(sid) => sid < s.next && sid !in s.running && (sid in s.sessions ==> s.sessions[sid].status == Pending)
    case Installing(user, bound) => bound == s.next && OfUser(s.sessions, user) == {}
    case Free => true
  }

  /** Nothing older than a user's latest password login is left of that user. */
  ghost predicate FloorOk(s: State) {
    && (forall u :: u in s.floor ==> s.floor[u] <= s.next)
    && (forall i :: i in s.sessions && s.sessions[i].user in s.floor ==> i >= s.floor[s.sessions[i].user])
    && (forall u :: u in s.floor && u in s.adapters && s.adapters[u].FromQr? ==> s.adapters[u].sid >= s.floor[u])
  }

  /** A session is pending exactly while its worker may still run. */
  ghost predicate WorkersOk(s: State) {
    && (forall i :: i in s.sessions ==> i < s.next)
    && (forall i :: i in s.running ==> i < s.next)
    && (forall i :: i in s.sessions && i in s.running ==> s.sessions[i].status == Pending)
    && (forall i :: i in s.sessions && s.sessions[i].status == Pending && i !in s.running ==>
          s.loop in {Spawning(i), Popping({i}, Nothing)})
  }

  ghost predicate Inv(s: State) { OnePerUser(s.sessions) && LoopOk(s) && FloorOk(s) && WorkersOk(s) }

  lemma BeginKeeps(s: State, h: Handler)
    requires Inv(s) && s.loop == Free
    ensures Inv(BeginHandler(s, h))
  {
  }

  lemma NoneOf(sessions: map<Sid, Session>, user: User)
    requires OfUser(sessions, user) == {}
    ensures forall i :: i in sessions ==> sessions[i].user != user
  {
    assert forall i :: i in sessions && sessions[i].user == user ==> i in OfUser(sessions, user);
  }

  lemma PopKeeps(s: State, started: bool)
    requires Inv(s) && (s.loop.Popping? || s.loop.Listing?)
    ensures Inv(GoOn(s, started))
  {
  }

  lemma RegisterKeeps(s: State, started: bool)
    requires Inv(s) && s.loop.Registering?
    ensures Inv(GoOn(s, started))
  {
    NoneOf(s.sessions, s.loop.user);
  }

  lemma SpawnKeeps(s: State, started: bool)
    requires Inv(s) && s.loop.Spawning?
    ensures Inv(GoOn(s, started))
  {
  }

  lemma InstallKeeps(s: State, started: bool)
    requires Inv(s) && s.loop.Installing?
    ensures Inv(GoOn(s, started))
  {
    NoneOf(s.sessions, s.loop.user);
  }

  lemma GoKeeps(s: State, started: bool)
    requires Inv(s)
    ensures Inv(GoOn(s, started))
  {
    hide Inv;
    match s.loop
    case Listing(_, _) | Popping(_, _) => PopKeeps(s, started);
    case Registering(_) => RegisterKeeps(s, started);
    case Spawning(_) => SpawnKeeps(s, started);
    case Installing(_, _) => InstallKeeps(s, started);
    case Free =>
  }

  lemma CallbackKeeps(s: State, sid: Sid)
    requires Inv(s)
    ensures Inv(QrCallback(s, sid))
  {
  }

  lemma FinishKeeps(s: State, sid: Sid, success: bool)
    requires Inv(s) && sid in s.running
    ensures Inv(WorkerEnds(s, sid, success))
  {
    if sid in s.sessions {
      var e := WorkerEnds(s, sid, success);
      assert forall u :: OfUser(e.sessions, u) == OfUser(s.sessions, u);
    }
  }

  lemma StepKeeps(s: State, a: Action)
    requires Inv(s)
    ensures Inv(Step(s, a))
  {
    hide BeginHandler, GoOn, QrCallback, WorkerEnds, Inv;
    match a
    case Begin(h) => if s.loop.Free? { BeginKeeps(s, h); }
    case Go(started) => GoKeeps(s, started);
    case Callback(sid) => CallbackKeeps(s, sid);
    case Finish(sid, success) => if sid in s.running { FinishKeeps(s, sid, success); }
  }

  lemma {:induction false} Reachable(s: State, actions: seq<Action>)
    requires Inv(s)
    ensures Inv(RunFrom(s, actions))
  {
    if actions != [] {
      hide Step, Inv;
      Reachable(s, actions[..|actions| - 1]);
      StepKeeps(RunFrom(s, actions[..|actions| - 1]), actions[|actions| - 1]);
    }
  }

  // --------------------------------------------------------------- theorems

  /** In every interleaving, inside handlers too, a user has at most one registered session. */
  lemma OneSessionPerUser(actions: seq<Action>, i: Sid, j: Sid)
    ensures var s := RunFrom(Initial, actions);
            i in s.sessions && j in s.sessions && s.sessions[i].user == s.sessions[j].user ==> i == j
  {
    Reachable(Initial, actions);
  }

  lemma StepKeepsGone(s: State, a: Action, sid: Sid)
    requires sid < s.next && sid !in s.sessions
    ensures sid < Step(s, a).next && sid !in Step(s, a).sessions
  {
  }

  /** A session that was registered and popped never comes back, and no later
      step of its worker or its callback changes the sessions or the adapters. */
  lemma {:induction false} PoppedIsInert(actions: seq<Action>, more: seq<Action>, sid: Sid, a: Action)
    requires sid < RunFrom(Initial, actions).next && sid !in RunFrom(Initial, actions).sessions
    requires a.Callback? || a.Finish?
    requires a.sid == sid
    ensures var s := RunFrom(RunFrom(Initial, actions), more);
            && sid < s.next && sid !in s.sessions
            && Step(s, a).sessions == s.sessions && Step(s, a).adapters == s.adapters
  {
    if more != [] {
      var n := |more| - 1;
      PoppedIsInert(actions, more[..n], sid, a);
      StepKeepsGone(RunFrom(RunFrom(Initial, actions), more[..n]), more[n], sid);
    }
  }

  lemma {:induction false} FloorRises(s: State, more: seq<Action>, user: User)
    requires Inv(s) && user in s.floor
    ensures var e := RunFrom(s, more);
            Inv(e) && user in e.floor && s.floor[user] <= e.floor[user] && s.next <= e.next
  {
    if more != [] {
      var n := |more| - 1;
      FloorRises(s, more[..n], user);
      var e := RunFrom(s, more[..n]);
      StepKeeps(e, more[n]);
      StepKeepsFloor(e, more[n], user);
    }
  }

  lemma StepKeepsFloor(s: State, a: Action, user: User)
    requires Inv(s) && user in s.floor
    ensures user in Step(s, a).floor && s.floor[user] <= Step(s, a).floor[user] && s.next <= Step(s, a).next
  {
  }

  /** A password login's last part, whatever workers do in between: from its
      first block, with the loop free before, to the block that installs. */
  predicate PasswordLogin(s: State, user: User, middle: seq<Action>) {
    && s.loop == Free
    && RunFrom(Step(s, Begin(Password(user))), middle).loop == Installing(user, s.next)
  }

  /** No session registered before a password login began its last part can
      later take the place of the adapter that login installs. */
  lemma StaleNeverReplaces(before: seq<Action>, user: User, middle: seq<Action>, more: seq<Action>, sid: Sid)
    requires PasswordLogin(RunFrom(Initial, before), user, middle) && sid < RunFrom(Initial, before).next
    ensures var s := RunFrom(Initial, before);
            var installed := Step(RunFrom(Step(s, Begin(Password(user))), middle), Go(true));
            && installed.adapters[user] == FromPassword
            && var e := RunFrom(installed, more);
               user in e.adapters ==> e.adapters[user] != FromQr(sid)
  {
    var s := RunFrom(Initial, before);
    Reachable(Initial, before);
    StepKeeps(s, Begin(Password(user)));
    Reachable(Step(s, Begin(Password(user))), middle);
    var last := RunFrom(Step(s, Begin(Password(user))), middle);
    StepKeeps(last, Go(true));
    FloorRises(Step(last, Go(true)), more, user);
  }

  /** What logging out leaves once its handler has ended, whatever runs in between. */
  ghost predicate LogoutIsFinal(s: State, user: User) {
    forall middle: seq<Action> :: var e := RunFrom(Step(s, Begin(Logout(user))), middle);
                     (forall k :: 0 <= k < |middle| ==> !middle[k].Begin?) && e.loop == Free ==> user !in e.adapters
  }

  /** A logout of the user is under way and no worker can install for the user. */
  ghost predicate Quiet(s: State, user: User) {
    && user !in s.adapters
    && (s.loop == Free || s.loop == Listing(user, Nothing) || (s.loop.Popping? && s.loop.after == Nothing))
    && (forall i :: i in s.sessions && s.sessions[i].user == user ==> i !in s.running)
  }

  lemma StepKeepsQuiet(s: State, user: User, a: Action)
    requires Quiet(s, user) && !a.Begin?
    ensures Quiet(Step(s, a), user)
  {
  }

  /** While a user without a pending session logs out, nobody installs an adapter for the user. */
  lemma {:induction false} QuietLogout(s: State, user: User, middle: seq<Action>)
    requires Inv(s) && s.loop == Free && forall k :: 0 <= k < |middle| ==> !middle[k].Begin?
    requires forall i :: i in s.sessions && s.sessions[i].user == user ==> s.sessions[i].status != Pending
    ensures Quiet(RunFrom(Step(s, Begin(Logout(user))), middle), user)
  {
    if middle != [] {
      hide Step, Inv, Quiet;
      var n := |middle| - 1;
      QuietLogout(s, user, middle[..n]);
      StepKeepsQuiet(RunFrom(Step(s, Begin(Logout(user))), middle[..n]), user, middle[n]);
    }
  }

  /** Logout drops the adapter before it cancels the sessions, so a worker can
      install one in between: it is final exactly when the user has no session
      still waiting for its scan. */
  lemma LogoutIsFinalExactlyWhen(before: seq<Action>, user: User)
    requires RunFrom(Initial, before).loop == Free
    ensures var s := RunFrom(Initial, before);
            LogoutIsFinal(s, user) <==>
              forall i :: i in s.sessions && s.sessions[i].user == user ==> s.sessions[i].status != Pending
  {
    var s := RunFrom(Initial, before);
    Reachable(Initial, before);
    if sid :| sid in s.sessions && s.sessions[sid].user == user && s.sessions[sid].status == Pending {
      assert sid in s.running;
      var middle := [Finish(sid, true), Go(true), Go(true)];
      LogoutOvertaken(s, user, sid);
      assert forall k :: 0 <= k < |middle| ==> !middle[k].Begin?;
    } else {
      forall middle: seq<Action> | (forall k :: 0 <= k < |middle| ==> !middle[k].Begin?)
        ensures user !in RunFrom(Step(s, Begin(Logout(user))), middle).adapters
      {
        QuietLogout(s, user, middle);
      }
    }
  }

  /** The overtaking worker: it ends between the two halves of the logout. */
  lemma LogoutOvertaken(s: State, user: User, sid: Sid)
    requires s.loop == Free && sid in s.running && sid in s.sessions && s.sessions[sid].user == user
    ensures var e := RunFrom(Step(s, Begin(Logout(user))), [Finish(sid, true), Go(true), Go(true)]);
            e.loop == Free && user in e.adapters && e.adapters[user] == FromQr(sid) && sid !in e.sessions
  {
    var s1 := Step(s, Begin(Logout(user)));
    var (f, g) := (Finish(sid, true), Go(true));
    assert [f, g, g][..2] == [f, g] && [f, g][..1] == [f] && [f][..0] == [];
    assert RunFrom(s1, [f]) == Step(s1, f);
    assert RunFrom(s1, [f, g]) == Step(Step(s1, f), g);
    assert RunFrom(s1, [f, g, g]) == Step(Step(Step(s1, f), g), g);
  }

  lemma RunSnoc(s: State, actions: seq<Action>, last: Action)
    ensures RunFrom(s, actions + [last]) == Step(RunFrom(s, actions), last)
  {
    assert (actions + [last])[..|actions|] == actions;
  }

  /** A user starts a QR login, nothing else happens. */
  function WaitingRun(user: User): seq<Action> {
    [Begin(QrStart(user))] + [Go(true)] + [Go(true)] + [Go(true)] + [Go(true)]
  }

  /** From the start a state is reached where the user's session waits for its
      scan and the event loop is free. */
  lemma WaitingFromTheStart(user: User)
    ensures RunFrom(Initial, WaitingRun(user))
         == State(map[0 := Session(user, Pending, false)], map[], Free, {0}, 1, map[])
  {
    var a := [Begin(QrStart(user))];
    var b := a + [Go(true)];
    var c := b + [Go(true)];
    var d := c + [Go(true)];
    RunSnoc(Initial, [], Begin(QrStart(user)));
    assert [] + [Begin(QrStart(user))] == a;
    RunSnoc(Initial, a, Go(true));
    assert OfUser(Initial.sessions, user) == {};
    RunSnoc(Initial, b, Go(true));
    assert RunFrom(Initial, c) == Initial.(loop := Registering(user));
    RunSnoc(Initial, c, Go(true));
    RunSnoc(Initial, d, Go(true));
  }

  /** There the user logs out, the scan succeeds in between, and the user ends
      up with the adapter of that session. */
  lemma OvertakenFromTheStart(user: User)
    ensures var s := RunFrom(Initial, WaitingRun(user));
            var e := RunFrom(Step(s, Begin(Logout(user))), [Finish(0, true), Go(true), Go(true)]);
            e.loop == Free && user in e.adapters && e.adapters[user] == FromQr(0)
    ensures !LogoutIsFinal(RunFrom(Initial, WaitingRun(user)), user)
  {
    hide RunFrom, LogoutIsFinal, WaitingRun, Step;
    WaitingFromTheStart(user);
    LogoutOvertaken(RunFrom(Initial, WaitingRun(user)), user, 0);
    LogoutIsFinalExactlyWhen(WaitingRun(user), user);
  }

  // ------------------------------------------------- what each handler does

  /** The handler's next n blocks. */
  function GoTimes(s: State, started: bool, n: nat): State {
    if n == 0 then s else Step(GoTimes(s, started, n - 1), Go(started))
  }

  /** The last part of a handler with no worker in between. */
  function Handled(s: State, h: Handler, started: bool): State {
    GoTimes(Step(s, Begin(h)), started, match h
                                        case QrStart(_) => if started then 4 else 5
                                        case Cancel(_) => 1
                                        case Password(_) => 3
                                        case Logout(_) => 2
                                        case Expire(_) => 0)
  }

  /** What it is meant to do to the two dictionaries. */
  ghost predicate Effect(s: State, h: Handler, started: bool, e: State) {
    match h
    case QrStart(user) =>
      && e.sessions == s.sessions - OfUser(s.sessions, user)
                       + (if started then map[s.next := Session(user, Pending, false)] else map[])
      && e.adapters == s.adapters && e.next == s.next + 1
      && e.running == (if started then s.running + {s.next} else s.running)
    case Cancel(ids) => e.sessions == s.sessions - ids && e.adapters == s.adapters
    case Password(user) =>
      e.sessions == s.sessions - OfUser(s.sessions, user) && e.adapters == s.adapters[user := FromPassword]
    case Logout(user) => e.sessions == s.sessions - OfUser(s.sessions, user) && e.adapters == s.adapters - {user}
    case Expire(user) => e.sessions == s.sessions && e.adapters == s.adapters - {user}
  }

  /** That is a run. */
  lemma {:induction false} GoTimesRuns(s: State, started: bool, n: nat)
    ensures GoTimes(s, started, n) == RunFrom(s, seq(n, _ => Go(started)))
  {
    if n > 0 {
      hide Step;
      GoTimesRuns(s, started, n - 1);
      assert seq(n, _ => Go(started)) == seq(n - 1, _ => Go(started)) + [Go(started)];
      RunSnoc(s, seq(n - 1, _ => Go(started)), Go(started));
    }
  }

  /** The first three blocks of a QR start: the user's sessions go. */
  lemma StartClears(s: State, user: User, g: Action)
    requires s.loop == Free && g.Go?
    ensures Step(Step(Step(s, Begin(QrStart(user))), g), g)
         == s.(loop := Registering(user), sessions := s.sessions - OfUser(s.sessions, user))
  {
    hide OfUser;
  }

  /** The rest of it: the new session stays if its worker started. */
  lemma StartRegisters(s: State, user: User, started: bool)
    requires s.loop == Registering(user) && s.next !in s.sessions
    ensures var (g, session) := (Go(started), Session(user, Pending, false));
            var e := if started then Step(Step(s, g), g) else Step(Step(Step(s, g), g), g);
            && e.loop == Free && e.adapters == s.adapters && e.next == s.next + 1
            && e.sessions == (if started then s.sessions + map[s.next := session] else s.sessions)
            && e.running == (if started then s.running + {s.next} else s.running)
  {
    var session := Session(user, Pending, false);
    if started {
      assert s.sessions[s.next := session] == s.sessions + map[s.next := session];
    } else {
      assert s.sessions[s.next := session] - {s.next} == s.sessions;
    }
  }

  lemma StartEffect(s: State, user: User, started: bool)
    requires s.loop == Free && s.next !in s.sessions
    ensures var e := Handled(s, QrStart(user), started); e.loop == Free && Effect(s, QrStart(user), started, e)
  {
    hide OfUser, Step;
    var g := Go(started);
    var s1 := Step(s, Begin(QrStart(user)));
    assert GoTimes(s1, started, 0) == s1;
    assert GoTimes(s1, started, 1) == Step(s1, g);
    assert GoTimes(s1, started, 2) == Step(Step(s1, g), g);
    assert GoTimes(s1, started, 3) == Step(Step(Step(s1, g), g), g);
    assert GoTimes(s1, started, 4) == Step(Step(Step(Step(s1, g), g), g), g);
    assert GoTimes(s1, started, 5) == Step(GoTimes(s1, started, 4), g);
    StartClears(s, user, g);
    StartRegisters(Step(Step(Step(s, Begin(QrStart(user))), g), g), user, started);
  }

  lemma OtherEffects(s: State, h: Handler, started: bool)
    requires s.loop == Free && !h.QrStart?
    ensures var e := Handled(s, h, started); e.loop == Free && Effect(s, h, started, e)
  {
    hide OfUser;
    var s1 := Step(s, Begin(h));
    assert GoTimes(s1, started, 0) == s1;
    assert GoTimes(s1, started, 1) == Step(s1, Go(started));
    assert GoTimes(s1, started, 2) == Step(GoTimes(s1, started, 1), Go(started));
    assert GoTimes(s1, started, 3) == Step(GoTimes(s1, started, 2), Go(started));
  }

  /** From every reachable state with the loop free each handler, left alone, ends
      with exactly its effect. */
  lemma HandlerEffects(before: seq<Action>, h: Handler, started: bool)
    requires RunFrom(Initial, before).loop == Free
    ensures var s := RunFrom(Initial, before);
            Handled(s, h, started).loop == Free && Effect(s, h, started, Handled(s, h, started))
  {
    var s := RunFrom(Initial, before);
    Reachable(Initial, before);
    assert s.next !in s.sessions;
    hide RunFrom, Handled, Effect, Inv;
    if h.QrStart? { StartEffect(s, h.user, started); } else { OtherEffects(s, h, started); }
  }

  /** A callback shows the QR code of its own session, if that is still registered,
      and nothing else. */
  lemma CallbackShowsQr(s: State, sid: Sid)
    requires sid in s.running
    ensures var e := Step(s, Callback(sid));
            && e.adapters == s.adapters && e.running == s.running && e.sessions.Keys == s.sessions.Keys
            && (sid in s.sessions ==>
                  e.sessions[sid].hasQr && e.sessions[sid].(hasQr := s.sessions[sid].hasQr) == s.sessions[sid])
            && (forall i :: i in s.sessions && i != sid ==> e.sessions[i] == s.sessions[i])
  {
  }

  /** A worker's end: for a registered session its outcome and, on success, its
      user's adapter; for a popped one nothing. */
  lemma WorkerEffects(s: State, sid: Sid, success: bool)
    requires sid in s.running
    ensures var e := Step(s, Finish(sid, success));
            && e.running == s.running - {sid} && e.sessions.Keys == s.sessions.Keys
            && (forall i :: i in s.sessions && i != sid ==> e.sessions[i] == s.sessions[i])
            && (sid in s.sessions ==>
                  && e.sessions[sid].user == s.sessions[sid].user && e.sessions[sid].hasQr == s.sessions[sid].hasQr
                  && e.sessions[sid].status == if success then Success else Failure)
            && e.adapters == (if success && sid in s.sessions then s.adapters[s.sessions[sid].user := FromQr(sid)]
                              else s.adapters)
  {
  }

  /** Whoever holds an adapter from a session that is still registered is its user,
      and the session succeeded. */
  ghost predicate AdaptersOk(s: State) {
    forall u :: u in s.adapters && s.adapters[u].FromQr? ==>
      && s.adapters[u].sid < s.next && s.adapters[u].sid !in s.running && s.loop != Spawning(s.adapters[u].sid)
      && (s.adapters[u].sid in s.sessions ==>
            s.sessions[s.adapters[u].sid].user == u && s.sessions[s.adapters[u].sid].status == Success)
  }

  lemma GoKeepsAdapters(s: State, started: bool)
    requires Inv(s) && AdaptersOk(s)
    ensures AdaptersOk(GoOn(s, started))
  {
    hide OnePerUser, FloorOk, OfUser;
  }

  lemma FinishKeepsAdapters(s: State, sid: Sid, success: bool)
    requires Inv(s) && AdaptersOk(s) && sid in s.running
    ensures AdaptersOk(WorkerEnds(s, sid, success))
  {
    hide OnePerUser, FloorOk, OfUser;
  }

  lemma StepKeepsAdapters(s: State, a: Action)
    requires Inv(s) && AdaptersOk(s)
    ensures AdaptersOk(Step(s, a))
  {
    hide GoOn, WorkerEnds, Inv;
    match a
    case Begin(_) =>
    case Go(started) => GoKeepsAdapters(s, started);
    case Callback(_) =>
    case Finish(sid, success) => if sid in s.running { FinishKeepsAdapters(s, sid, success); }
  }

  lemma {:induction false} AdaptersComeFromSuccess(actions: seq<Action>)
    ensures AdaptersOk(RunFrom(Initial, actions))
  {
    if actions != [] {
      hide Step, Inv, AdaptersOk;
      Reachable(Initial, actions[..|actions| - 1]);
      AdaptersComeFromSuccess(actions[..|actions| - 1]);
      StepKeepsAdapters(RunFrom(Initial, actions[..|actions| - 1]), actions[|actions| - 1]);
    } else {
      assert AdaptersOk(Initial);
    }
  }

  // --------------------------------------------------- the running program

  /** The module dictionaries. */
  class Registries {
    var sessions: map<Sid, Session>
    var adapters: map<User, Source>
    var next: Sid

    constructor ()
      ensures sessions == map[] && adapters == map[] && next == 0
    {
      sessions, adapters, next := map[], map[], 0;
    }

    ghost predicate Valid()
      reads this
    {
      OnePerUser(sessions) && forall i :: i in sessions ==> i < next
    }

    /** Removes the given sessions one by one; ids without a session are skipped. */
    method CancelQrSessions(ids: set<Sid>)
      modifies this`sessions
      ensures sessions == old(sessions) - ids
    {
      var left := ids;
      while left != {}
        invariant left <= ids && sessions == old(sessions) - (ids - left)
        decreases |left|
      {
        var sid :| sid in left;
        left := left - {sid};
        sessions := sessions - {sid};
      }
    }

    method CancelQrSessionsForUser(user: User)
      modifies this`sessions
      ensures sessions == old(sessions) - OfUser(old(sessions), user)
      ensures OfUser(sessions, user) == {}
    {
      var ids := OfUser(sessions, user);
      CancelQrSessions(ids);
    }

    /** The handler up to its await: afterwards the user has exactly the new
        session, or none if its worker could not start. */
    method StartQrLogin(user: User, started: bool) returns (sid: Sid)
      requires Valid()
      modifies this`sessions, this`next
      ensures Valid() && sid == old(next) && next == sid + 1
      ensures OfUser(sessions, user) == if started then {sid} else {}
      ensures forall i :: i in old(sessions) && old(sessions)[i].user != user ==>
                i in sessions && sessions[i] == old(sessions)[i]
      ensures forall i :: i in sessions && i != sid ==> i in old(sessions) && sessions[i] == old(sessions)[i]
    {
      CancelQrSessionsForUser(user);
      NoneOf(sessions, user);
      sid := next;
      sessions := sessions[sid := Session(user, Pending, false)];
      next := next + 1;
      if !started {
        CancelQrSessions({sid});
      }
    }

    /** The worker shows its QR code; a session that was popped changes nothing. */
    method ShowQr(sid: Sid) returns (ready: bool)
      requires Valid()
      modifies this`sessions
      ensures Valid() && ready == (sid in old(sessions))
      ensures sessions.Keys == old(sessions).Keys
      ensures ready ==> sessions[sid] == old(sessions)[sid].(hasQr := true)
      ensures forall i :: i in sessions && i != sid ==> sessions[i] == old(sessions)[i]
    {
      ready := sid in sessions;
      if ready {
        sessions := sessions[sid := sessions[sid].(hasQr := true)];
      }
    }

    /** The worker's last block: a session that was popped changes nothing. */
    method LoginWorkerEnds(sid: Sid, success: bool)
      requires Valid()
      modifies this`sessions, this`adapters
      ensures Valid()
      ensures sid !in old(sessions) ==> sessions == old(sessions) && adapters == old(adapters)
      ensures sid in old(sessions) ==>
                && sessions == old(sessions)[sid := old(sessions)[sid].(status := if success then Success else Failure)]
                && adapters == (if success then old(adapters)[old(sessions)[sid].user := FromQr(sid)]
                                else old(adapters))
    {
      if sid !in sessions {
        return;
      }
      var session := sessions[sid];
      sessions := sessions[sid := session.(status := if success then Success else Failure)];
      if success {
        adapters := adapters[session.user := FromQr(sid)];
      }
    }

    /** Cancel, then install: no session of the user is left to replace the adapter. */
    method PasswordLoginSucceeds(user: User)
      requires Valid()
      modifies this`sessions, this`adapters
      ensures Valid() && OfUser(sessions, user) == {}
      ensures sessions == old(sessions) - OfUser(old(sessions), user)
      ensures adapters == old(adapters)[user := FromPassword]
    {
      CancelQrSessionsForUser(user);
      adapters := adapters[user := FromPassword];
    }
  }
}

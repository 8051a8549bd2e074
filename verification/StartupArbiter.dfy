/** Who decides the outcome of the desktop start (frontend/src-tauri/src/lib.rs:35-54,
    201-307, 496-623): a watchdog, the reader of the sidecar's events, the
    readiness task and a callback on the main thread race for one flag. */
module StartupArbiter {
  import opened Wrappers
  import opened DeadlineLoops

  /** The branches that can claim completion.  `Window` carries the clock
      reading its callback made before claiming. */
  datatype Claim = TimedOut | SidecarGone | OutputClosed | NotReady | NotScheduled | CallbackLate | Window(seen: int)

  /** A branch inside `complete_startup_once`: about to compare and set, or about
      to run its effect after having won. */
  datatype Attempt = Trying(claim: Claim) | Won(claim: Claim)

  datatype WatchdogPc = Check | ReadClock | Sleep | WatchdogAt(at: Attempt) | WatchdogDone

  /** The event reader; `started` is its local `readiness_started`. */
  datatype ReaderPc =
    | Receive(started: bool)
    | Received(started: bool, event: Event)
    | ReaderAt(at: Attempt)
    | LastLook
    | ClosingAt(at: Attempt)
    | ReaderDone

  datatype Event = Marker | OtherOutput | Failed

  datatype ReadinessPc = NotStarted | Waiting | Ready | ReadinessAt(at: Attempt) | ReadinessDone

  datatype CallbackPc = NotQueued | Queued | InTime(seen: int) | CallbackAt(at: Attempt) | CallbackDone

  datatype Actor = Watchdog | Reader | Readiness | MainThread

  /** `claims` lists the successful claims and `effects` the effects that ran. */
  datatype State = State(clock: int, complete: bool, claims: seq<Claim>, effects: seq<Claim>,
                         watchdog: WatchdogPc, reader: ReaderPc, readiness: ReadinessPc, callback: CallbackPc)

  /** How far the clock moves before the step, what the reader receives (None
      when the channel closes), and how the readiness probe, the URL and the
      scheduling of the callback turn out. */
  datatype Choice = Choice(passed: nat, event: Option<Event>, ok: bool)

  function Start(clock: int): State {
    State(clock, false, [], [], Check, Receive(false), NotStarted, NotQueued)
  }

  function StepWatchdog(s: State, deadline: int): State {
    match s.watchdog
    case Check => s.(watchdog := if s.complete then WatchdogDone else ReadClock)
    case ReadClock =>
      s.(watchdog := if SaturatingSince(deadline, s.clock) == 0 then WatchdogAt(Trying(TimedOut)) else Sleep)
    case Sleep => s.(watchdog := Check)
    case WatchdogAt(Trying(c)) =>
      if s.complete then s.(watchdog := WatchdogDone)
      else s.(complete := true, claims := s.claims + [c], watchdog := WatchdogAt(Won(c)))
    case WatchdogAt(Won(c)) => s.(effects := s.effects + [c], watchdog := WatchdogDone)
    case WatchdogDone => s
  }

  function StepReader(s: State, event: Option<Event>): State {
    match s.reader
    case Receive(started) => s.(reader := if event.None? then LastLook else Received(started, event.value))
    case Received(started, e) =>
      if s.complete then s.(reader := LastLook)
      else
        (match e
         case Marker =>
           if started then s.(reader := Receive(true)) else s.(reader := Receive(true), readiness := Waiting)
         case OtherOutput => s.(reader := Receive(started))
         case Failed => s.(reader := ReaderAt(Trying(SidecarGone))))
    case ReaderAt(Trying(c)) =>
      if s.complete then s.(reader := LastLook)
      else s.(complete := true, claims := s.claims + [c], reader := ReaderAt(Won(c)))
    case ReaderAt(Won(c)) => s.(effects := s.effects + [c], reader := LastLook)
    case LastLook => s.(reader := if s.complete then ReaderDone else ClosingAt(Trying(OutputClosed)))
    case ClosingAt(Trying(c)) =>
      if s.complete then s.(reader := ReaderDone)
      else s.(complete := true, claims := s.claims + [c], reader := ClosingAt(Won(c)))
    case ClosingAt(Won(c)) => s.(effects := s.effects + [c], reader := ReaderDone)
    case ReaderDone => s
  }

  function StepReadiness(s: State, deadline: int, ok: bool): State {
    match s.readiness
    case NotStarted => s
    case Waiting => s.(readiness := if ok then Ready else ReadinessAt(Trying(NotReady)))
    case Ready =>
      if s.clock >= deadline then s.(readiness := ReadinessAt(Trying(NotReady)))
      else if !ok then s.(readiness := ReadinessAt(Trying(NotScheduled)))
      else s.(readiness := ReadinessDone, callback := Queued)
    case ReadinessAt(Trying(c)) =>
      if s.complete then s.(readiness := ReadinessDone)
      else s.(complete := true, claims := s.claims + [c], readiness := ReadinessAt(Won(c)))
    case ReadinessAt(Won(c)) => s.(effects := s.effects + [c], readiness := ReadinessDone)
    case ReadinessDone => s
  }

  function StepCallback(s: State, deadline: int): State {
    match s.callback
    case NotQueued => s
    case Queued => s.(callback := if s.clock >= deadline then CallbackAt(Trying(CallbackLate)) else InTime(s.clock))
    case InTime(seen) => s.(callback := CallbackAt(Trying(Window(seen))))
    case CallbackAt(Trying(c)) =>
      if s.complete then s.(callback := CallbackDone)
      else s.(complete := true, claims := s.claims + [c], callback := CallbackAt(Won(c)))
    case CallbackAt(Won(c)) => s.(effects := s.effects + [c], callback := CallbackDone)
    case CallbackDone => s
  }

  function Step(s: State, a: Actor, c: Choice, deadline: int): State {
    var s := s.(clock := s.clock + c.passed);
    match a
    case Watchdog => StepWatchdog(s, deadline)
    case Reader => StepReader(s, c.event)
    case Readiness => StepReadiness(s, deadline, c.ok)
    case MainThread => StepCallback(s, deadline)
  }

  function Run(start: int, deadline: int, steps: seq<(Actor, Choice)>): State {
    if steps == [] then Start(start)
    else Step(Run(start, deadline, steps[..|steps| - 1]), steps[|steps| - 1].0, steps[|steps| - 1].1, deadline)
  }

  // ---------------------------------------------------------- the invariant

  /** The claim of a branch that won and has not run its effect yet. */
  function Owed(a: Attempt): seq<Claim> { if a.Won? then [a.claim] else [] }

  function OwedBy(s: State, a: Actor): seq<Claim> {
    match a
    case Watchdog => if s.watchdog.WatchdogAt? then Owed(s.watchdog.at) else []
    case Reader => if s.reader.ReaderAt? || s.reader.ClosingAt? then Owed(s.reader.at) else []
    case Readiness => if s.readiness.ReadinessAt? then Owed(s.readiness.at) else []
    case MainThread => if s.callback.CallbackAt? then Owed(s.callback.at) else []
  }

  function OwedAll(s: State): seq<Claim> {
    OwedBy(s, Watchdog) + OwedBy(s, Reader) + OwedBy(s, Readiness) + OwedBy(s, MainThread)
  }

  /** Every claim's effect has run or is owed by the one branch that won. */
  predicate Balanced(s: State) {
    (s.complete <==> |s.claims| == 1) && |s.claims| <= 1 && s.claims == s.effects + OwedAll(s)
  }

  /** The step of one actor neither claims nor acts, or it claims an open
      outcome, or it runs the effect it owes. */
  predicate Moves(s: State, s': State, a: Actor) {
    && (forall b :: b != a ==> OwedBy(s', b) == OwedBy(s, b))
    && var (owed, owed') := (OwedBy(s, a), OwedBy(s', a));
       || (s'.complete == s.complete && s'.claims == s.claims && s'.effects == s.effects && owed' == owed)
       || (!s.complete && s'.complete && owed == [] && |owed'| == 1
           && s'.claims == s.claims + owed' && s'.effects == s.effects)
       || (s'.complete == s.complete && s'.claims == s.claims && |owed| == 1 && owed' == []
           && s'.effects == s.effects + owed)
  }

  lemma MovesBalance(s: State, s': State, a: Actor)
    requires Balanced(s) && Moves(s, s', a)
    ensures Balanced(s')
  {
    hide OwedBy;
    assert forall b :: b != a ==> OwedBy(s', b) == OwedBy(s, b);
  }

  lemma OwedMeansComplete(s: State, a: Actor)
    requires Balanced(s)
    ensures OwedBy(s, a) != [] ==> s.complete
  {
  }

  predicate InTimeClaim(c: Claim, deadline: int) { c.Window? ==> c.seen < deadline }

  ghost predicate Inv(s: State, deadline: int) { Balanced(s) && Placed(s, deadline) }

  /** What the places of the actors say about the flag, the claims and each other. */
  ghost predicate Placed(s: State, deadline: int) {
    && (s.watchdog == WatchdogDone ==> s.complete)
    && (s.watchdog.WatchdogAt? ==> s.watchdog.at.claim == TimedOut)
    && (s.reader == ReaderDone ==> s.complete)
    && (s.reader.ReaderAt? ==> s.reader.at.claim == SidecarGone)
    && (s.reader.ClosingAt? ==> s.reader.at.claim == OutputClosed)
    && (s.readiness.ReadinessAt? ==> s.readiness.at.claim in {NotReady, NotScheduled})
    && (s.readiness != NotStarted <== s.callback != NotQueued)
    && (s.callback != NotQueued ==> s.readiness == ReadinessDone)
    && (s.callback.InTime? ==> s.callback.seen < deadline)
    && (s.callback.CallbackAt? ==> InTimeClaim(s.callback.at.claim, deadline))
    && (forall k :: 0 <= k < |s.claims| ==> InTimeClaim(s.claims[k], deadline))
    && (s.readiness != NotStarted ==> s.reader.Receive? || s.reader.Received? ==> s.reader.started)
  }

  lemma WatchdogMoves(s: State, deadline: int)
    requires Placed(s, deadline)
    ensures Moves(s, StepWatchdog(s, deadline), Watchdog)
  {
  }

  lemma WatchdogKeeps(s: State, deadline: int)
    requires Inv(s, deadline)
    ensures Inv(StepWatchdog(s, deadline), deadline)
  {
    hide Balanced, Moves;
    WatchdogMoves(s, deadline);
    OwedMeansComplete(s, Watchdog);
    MovesBalance(s, StepWatchdog(s, deadline), Watchdog);
  }

  lemma ReaderMoves(s: State, event: Option<Event>, deadline: int)
    requires Placed(s, deadline)
    ensures Moves(s, StepReader(s, event), Reader)
  {
  }

  lemma ReaderKeeps(s: State, event: Option<Event>, deadline: int)
    requires Inv(s, deadline)
    ensures Inv(StepReader(s, event), deadline)
  {
    hide Balanced, Moves;
    ReaderMoves(s, event, deadline);
    OwedMeansComplete(s, Reader);
    MovesBalance(s, StepReader(s, event), Reader);
  }

  lemma ReadinessMoves(s: State, deadline: int, ok: bool)
    requires Placed(s, deadline)
    ensures Moves(s, StepReadiness(s, deadline, ok), Readiness)
  {
  }

  lemma ReadinessKeeps(s: State, deadline: int, ok: bool)
    requires Inv(s, deadline)
    ensures Inv(StepReadiness(s, deadline, ok), deadline)
  {
    hide Balanced, Moves;
    ReadinessMoves(s, deadline, ok);
    MovesBalance(s, StepReadiness(s, deadline, ok), Readiness);
  }

  lemma CallbackMoves(s: State, deadline: int)
    requires Placed(s, deadline)
    ensures Moves(s, StepCallback(s, deadline), MainThread)
  {
  }

  lemma CallbackKeeps(s: State, deadline: int)
    requires Inv(s, deadline)
    ensures Inv(StepCallback(s, deadline), deadline)
  {
    hide Balanced, Moves;
    CallbackMoves(s, deadline);
    MovesBalance(s, StepCallback(s, deadline), MainThread);
  }

  lemma {:induction false} Reachable(start: int, deadline: int, steps: seq<(Actor, Choice)>)
    ensures Inv(Run(start, deadline, steps), deadline)
  {
    hide StepWatchdog, StepReader, StepReadiness, StepCallback;
    if steps != [] {
      var n := |steps| - 1;
      Reachable(start, deadline, steps[..n]);
      var s := Run(start, deadline, steps[..n]);
      var s' := s.(clock := s.clock + steps[n].1.passed);
      WatchdogKeeps(s', deadline);
      ReaderKeeps(s', steps[n].1.event, deadline);
      ReadinessKeeps(s', deadline, steps[n].1.ok);
      CallbackKeeps(s', deadline);
    }
  }

  // --------------------------------------------------------------- theorems

  /** In every interleaving at most one branch claims the outcome; the only
      effect that runs is that branch's own, at most once, and it has run once
      nobody owes one; a window appears only if its callback saw the deadline
      ahead; and a finished watchdog leaves exactly one claim. */
  lemma OneOutcome(start: int, deadline: int, steps: seq<(Actor, Choice)>)
    ensures var s := Run(start, deadline, steps);
            && |s.claims| <= 1
            && s.effects <= s.claims
            && (OwedAll(s) == [] ==> s.effects == s.claims)
            && (forall c :: c in s.effects && c.Window? ==> c.seen < deadline)
            && (s.watchdog == WatchdogDone ==> |s.claims| == 1)
  {
    Reachable(start, deadline, steps);
  }

  lemma StepKeepsClaims(s: State, a: Actor, c: Choice, deadline: int)
    requires Inv(s, deadline)
    ensures s.claims <= Step(s, a, c, deadline).claims
    ensures s.complete ==> Step(s, a, c, deadline).complete && Step(s, a, c, deadline).claims == s.claims
  {
  }

  /** The outcome is final: whatever happens afterwards the claim is the same. */
  lemma {:induction false} OutcomeIsFinal(start: int, deadline: int,
                                          steps: seq<(Actor, Choice)>, more: seq<(Actor, Choice)>)
    requires Run(start, deadline, steps).complete
    ensures Run(start, deadline, steps + more).complete
    ensures Run(start, deadline, steps + more).claims == Run(start, deadline, steps).claims
  {
    hide Step;
    if more == [] {
      assert steps + more == steps;
    } else {
      var n := |more| - 1;
      OutcomeIsFinal(start, deadline, steps, more[..n]);
      assert (steps + more)[..|steps| + n] == steps + more[..n];
      assert (steps + more)[|steps| + n] == more[n];
      Reachable(start, deadline, steps + more[..n]);
      StepKeepsClaims(Run(start, deadline, steps + more[..n]), more[n].0, more[n].1, deadline);
    }
  }

  /** The claim an actor is about to make. */
  function Attempting(s: State, a: Actor): Option<Claim> {
    match a
    case Watchdog => if s.watchdog.WatchdogAt? && s.watchdog.at.Trying? then Some(s.watchdog.at.claim) else None
    case Reader =>
      if (s.reader.ReaderAt? || s.reader.ClosingAt?) && s.reader.at.Trying? then Some(s.reader.at.claim) else None
    case Readiness => if s.readiness.ReadinessAt? && s.readiness.at.Trying? then Some(s.readiness.at.claim) else None
    case MainThread => if s.callback.CallbackAt? && s.callback.at.Trying? then Some(s.callback.at.claim) else None
  }

  /** Whoever comes first to an open flag wins and its effect is the next thing
      it does; whoever finds it set leaves claims and effects alone. */
  lemma FirstComerWins(start: int, deadline: int, steps: seq<(Actor, Choice)>, a: Actor, c: Choice, d: Choice)
    requires Attempting(Run(start, deadline, steps), a).Some?
    ensures var s := Run(start, deadline, steps);
            var claim := Attempting(s, a).value;
            var s' := Step(s, a, c, deadline);
            if s.complete then s'.claims == s.claims && s'.effects == s.effects && Attempting(s', a).None?
            else s'.claims == [claim] && s'.effects == [] && Step(s', a, d, deadline).effects == [claim]
  {
    Reachable(start, deadline, steps);
  }

  lemma RunSnoc(start: int, deadline: int, steps: seq<(Actor, Choice)>, last: (Actor, Choice))
    ensures Run(start, deadline, steps + [last]) == Step(Run(start, deadline, steps), last.0, last.1, deadline)
  {
    assert (steps + [last])[..|steps|] == steps;
  }

  predicate FromCallback(c: Claim) { c.Window? || c.CallbackLate? }

  /** Where a callback that read the clock in time at t stands, and what it still has to do. */
  function LeftToDo(pc: CallbackPc): nat {
    match pc
    case InTime(_) => 3
    case CallbackAt(Trying(_)) => 2
    case CallbackAt(Won(_)) => 1
    case _ => 0
  }

  /** The callback read t; the only claim of its kind is its own window. */
  predicate Tracks(s: State, t: int) {
    && (s.callback == InTime(t) || s.callback == CallbackAt(Trying(Window(t)))
        || s.callback == CallbackAt(Won(Window(t))) || s.callback == CallbackDone)
    && (forall k :: 0 <= k < |s.claims| && FromCallback(s.claims[k]) ==>
          s.claims[k] == Window(t) && LeftToDo(s.callback) <= 1)
    && (s.callback == CallbackDone ==> s.complete)
  }

  /** Before the callback has claimed nobody has claimed for it. */
  predicate Unclaimed(s: State) {
    LeftToDo(s.callback) > 1 || s.callback in {NotQueued, Queued} ==>
      forall k :: 0 <= k < |s.claims| ==> !FromCallback(s.claims[k])
  }

  lemma StepUnclaimed(s: State, a: Actor, c: Choice, deadline: int)
    requires Inv(s, deadline) && Unclaimed(s)
    ensures Unclaimed(Step(s, a, c, deadline))
  {
    hide Balanced;
  }

  lemma {:induction false} RunUnclaimed(start: int, deadline: int, steps: seq<(Actor, Choice)>)
    ensures Unclaimed(Run(start, deadline, steps))
  {
    if steps != [] {
      hide Step, Inv, Unclaimed;
      var n := |steps| - 1;
      RunUnclaimed(start, deadline, steps[..n]);
      Reachable(start, deadline, steps[..n]);
      StepUnclaimed(Run(start, deadline, steps[..n]), steps[n].0, steps[n].1, deadline);
    } else {
      assert Unclaimed(Start(start));
    }
  }

  lemma CallbackTracks(s: State, deadline: int, t: int)
    requires Inv(s, deadline) && Tracks(s, t)
    ensures var s' := StepCallback(s, deadline);
            Tracks(s', t) && (LeftToDo(s'.callback) < LeftToDo(s.callback) || LeftToDo(s'.callback) == 0)
  {
    OwedMeansComplete(s, MainThread);
    hide Balanced;
  }

  lemma OthersTrack(s: State, a: Actor, c: Choice, deadline: int, t: int)
    requires Inv(s, deadline) && Tracks(s, t) && a != MainThread
    ensures var s' := Step(s, a, c, deadline); Tracks(s', t) && s'.callback == s.callback
  {
    hide Balanced;
  }

  lemma StepTracks(s: State, a: Actor, c: Choice, deadline: int, t: int)
    requires Inv(s, deadline) && Tracks(s, t)
    ensures var s' := Step(s, a, c, deadline);
            && Tracks(s', t)
            && (a == MainThread ==> LeftToDo(s'.callback) < LeftToDo(s.callback) || LeftToDo(s'.callback) == 0)
            && (a != MainThread ==> s'.callback == s.callback)
  {
    hide StepCallback, StepReader, StepReadiness, StepWatchdog, Inv;
    if a == MainThread {
      var s1 := s.(clock := s.clock + c.passed);
      ClockKeeps(s, c.passed, deadline);
      CallbackTracks(s1, deadline, t);
    } else {
      OthersTrack(s, a, c, deadline, t);
    }
  }

  function StepsOf(steps: seq<(Actor, Choice)>, a: Actor): nat {
    if steps == [] then 0 else StepsOf(steps[..|steps| - 1], a) + if steps[|steps| - 1].0 == a then 1 else 0
  }

  lemma {:induction false} RunTracks(start: int, deadline: int,
                                     steps: seq<(Actor, Choice)>, after: seq<(Actor, Choice)>, t: int)
    requires Tracks(Run(start, deadline, steps), t)
    ensures Tracks(Run(start, deadline, steps + after), t)
    ensures var (s, e) := (Run(start, deadline, steps), Run(start, deadline, steps + after));
            var n := StepsOf(after, MainThread);
            LeftToDo(e.callback) <= (if n < LeftToDo(s.callback) then LeftToDo(s.callback) - n else 0)
  {
    hide Step, Inv, Tracks;
    if after == [] {
      assert steps + after == steps;
    } else {
      var n := |after| - 1;
      RunTracks(start, deadline, steps, after[..n], t);
      assert steps + after == (steps + after[..n]) + [after[n]];
      RunSnoc(start, deadline, steps + after[..n], after[n]);
      Reachable(start, deadline, steps + after[..n]);
      StepTracks(Run(start, deadline, steps + after[..n]), after[n].0, after[n].1, deadline, t);
    }
  }

  lemma StepQueued(s: State, a: Actor, c: Choice, deadline: int)
    requires Inv(s, deadline) && s.callback == Queued && a != MainThread
    ensures Step(s, a, c, deadline).callback == Queued
  {
    hide Balanced;
  }

  lemma {:induction false} RunQueued(start: int, deadline: int,
                                     steps: seq<(Actor, Choice)>, before: seq<(Actor, Choice)>)
    requires Run(start, deadline, steps).callback == Queued
    requires forall k :: 0 <= k < |before| ==> before[k].0 != MainThread
    ensures Run(start, deadline, steps + before).callback == Queued
  {
    hide Step, Inv;
    if before == [] {
      assert steps + before == steps;
    } else {
      var n := |before| - 1;
      RunQueued(start, deadline, steps, before[..n]);
      assert steps + before == (steps + before[..n]) + [before[n]];
      RunSnoc(start, deadline, steps + before[..n], before[n]);
      Reachable(start, deadline, steps + before[..n]);
      StepQueued(Run(start, deadline, steps + before[..n]), before[n].0, before[n].1, deadline);
    }
  }

  lemma LookTracks(s: State, look: Choice, deadline: int)
    requires s.callback == Queued && s.clock + look.passed < deadline && Unclaimed(s)
    ensures var s' := Step(s, MainThread, look, deadline);
            Tracks(s', s.clock + look.passed) && LeftToDo(s'.callback) == 3
  {
  }

  lemma TracksEnd(s: State, deadline: int, t: int)
    requires Inv(s, deadline) && Tracks(s, t) && LeftToDo(s.callback) == 0
    ensures s.callback == CallbackDone && |s.claims| == 1
    ensures FromCallback(s.claims[0]) ==> s.claims == s.effects == [Window(t)]
  {
  }

  /** A backend found ready in time opens the window.  Whatever anybody does
      between the scheduling, the callback's look at the clock and its last step,
      the callback ends with the outcome settled, and if the look came in time
      and no other branch claimed, the window is the outcome and its effect ran. */
  lemma WindowOpens(start: int, deadline: int, steps: seq<(Actor, Choice)>, ready: Choice,
                    before: seq<(Actor, Choice)>, look: Choice, after: seq<(Actor, Choice)>)
    requires var s := Run(start, deadline, steps);
             s.readiness.Ready? && ready.ok && s.clock + ready.passed < deadline
    requires forall k :: 0 <= k < |before| ==> before[k].0 != MainThread
    requires Run(start, deadline, steps + [(Readiness, ready)] + before).clock + look.passed < deadline
    requires StepsOf(after, MainThread) >= 3
    ensures var seen := Run(start, deadline, steps + [(Readiness, ready)] + before).clock + look.passed;
            var e := Run(start, deadline, steps + [(Readiness, ready)] + before + [(MainThread, look)] + after);
            && e.callback == CallbackDone && |e.claims| == 1
            && (FromCallback(e.claims[0]) ==> e.claims == e.effects == [Window(seen)])
  {
    hide Inv, Tracks, Unclaimed, Placed;
    var queued := steps + [(Readiness, ready)];
    RunSnoc(start, deadline, steps, (Readiness, ready));
    RunQueued(start, deadline, queued, before);
    hide Step;
    RunUnclaimed(start, deadline, queued + before);
    var q := Run(start, deadline, queued + before);
    var seen := q.clock + look.passed;
    RunSnoc(start, deadline, queued + before, (MainThread, look));
    LookTracks(q, look, deadline);
    RunTracks(start, deadline, queued + before + [(MainThread, look)], after, seen);
    var all := queued + before + [(MainThread, look)] + after;
    Reachable(start, deadline, all);
    TracksEnd(Run(start, deadline, all), deadline, seen);
  }

  // ---------------------------------------------- from the start to a window

  lemma StepKeepsReadiness(s: State, a: Actor, c: Choice, deadline: int)
    ensures s.readiness != NotStarted ==> Step(s, a, c, deadline).readiness != NotStarted
    ensures s.readiness != NotStarted && a != Readiness && Inv(s, deadline) ==>
              Step(s, a, c, deadline).readiness == s.readiness
  {
    hide Balanced;
  }

  lemma {:induction false} RunKeepsReadiness(start: int, deadline: int, steps: seq<(Actor, Choice)>,
                                             more: seq<(Actor, Choice)>)
    requires Run(start, deadline, steps).readiness != NotStarted
    ensures var (s, e) := (Run(start, deadline, steps), Run(start, deadline, steps + more));
            && e.readiness != NotStarted
            && ((forall k :: 0 <= k < |more| ==> more[k].0 != Readiness) ==> e.readiness == s.readiness)
  {
    hide Step, Inv;
    if more == [] {
      assert steps + more == steps;
    } else {
      var n := |more| - 1;
      RunKeepsReadiness(start, deadline, steps, more[..n]);
      assert steps + more == (steps + more[..n]) + [more[n]];
      RunSnoc(start, deadline, steps + more[..n], more[n]);
      Reachable(start, deadline, steps + more[..n]);
      StepKeepsReadiness(Run(start, deadline, steps + more[..n]), more[n].0, more[n].1, deadline);
    }
  }

  /** The reader handles a first marker while nobody has claimed: the readiness
      task runs from then on. */
  lemma MarkerStartsReadiness(start: int, deadline: int, steps: seq<(Actor, Choice)>, c: Choice,
                              more: seq<(Actor, Choice)>)
    requires var s := Run(start, deadline, steps); s.reader == Received(false, Marker) && !s.complete
    ensures Run(start, deadline, steps + [(Reader, c)]).readiness == Waiting
    ensures Run(start, deadline, steps + [(Reader, c)] + more).readiness != NotStarted
  {
    hide Run;
    RunSnoc(start, deadline, steps, (Reader, c));
    RunKeepsReadiness(start, deadline, steps + [(Reader, c)], more);
  }

  lemma ProbeSucceeds(s: State, probe: Choice, deadline: int)
    requires s.readiness == Waiting && probe.ok
    ensures Step(s, Readiness, probe, deadline).readiness == Ready
  {
  }

  /** A healthy start, from the marker on.  Whatever anybody does between the
      marker, the successful probe, the scheduling, the callback's look at the
      clock and its last step, it ends with the window if these came in time and
      no other branch claimed. */
  lemma HealthyStart(start: int, deadline: int, steps: seq<(Actor, Choice)>, mark: Choice,
                     waiting: seq<(Actor, Choice)>, probe: Choice, between: seq<(Actor, Choice)>, ready: Choice,
                     before: seq<(Actor, Choice)>, look: Choice, after: seq<(Actor, Choice)>)
    requires var s := Run(start, deadline, steps); s.reader == Received(false, Marker) && !s.complete
    requires forall k :: 0 <= k < |waiting| ==> waiting[k].0 != Readiness
    requires forall k :: 0 <= k < |between| ==> between[k].0 != Readiness
    requires forall k :: 0 <= k < |before| ==> before[k].0 != MainThread
    requires probe.ok && ready.ok && StepsOf(after, MainThread) >= 3
    requires var probed := steps + [(Reader, mark)] + waiting + [(Readiness, probe)] + between;
             && Run(start, deadline, probed).clock + ready.passed < deadline
             && Run(start, deadline, probed + [(Readiness, ready)] + before).clock + look.passed < deadline
    ensures var queued := steps + [(Reader, mark)] + waiting + [(Readiness, probe)] + between + [(Readiness, ready)];
            var seen := Run(start, deadline, queued + before).clock + look.passed;
            var e := Run(start, deadline, queued + before + [(MainThread, look)] + after);
            && e.callback == CallbackDone && |e.claims| == 1
            && (FromCallback(e.claims[0]) ==> e.claims == e.effects == [Window(seen)])
  {
    hide Run, Step;
    var marked := steps + [(Reader, mark)];
    MarkerStartsReadiness(start, deadline, steps, mark, waiting);
    RunKeepsReadiness(start, deadline, marked, waiting);
    ProbeSucceeds(Run(start, deadline, marked + waiting), probe, deadline);
    RunSnoc(start, deadline, marked + waiting, (Readiness, probe));
    var probed := marked + waiting + [(Readiness, probe)];
    RunKeepsReadiness(start, deadline, probed, between);
    WindowOpens(start, deadline, probed + between, ready, before, look, after);
  }

  /** Nothing but a healthy start happens, each step after some time. */
  function HealthyRun(t: seq<nat>): seq<(Actor, Choice)>
    requires |t| == 8
  {
    [(Reader, Choice(t[0], Some(Marker), true))] + [(Reader, Choice(t[1], None, true))]
    + [(Readiness, Choice(t[2], None, true))] + [(Readiness, Choice(t[3], None, true))]
    + [(MainThread, Choice(t[4], None, true))] + [(MainThread, Choice(t[5], None, true))]
    + [(MainThread, Choice(t[6], None, true))] + [(MainThread, Choice(t[7], None, true))]
  }

  lemma HealthyHalf(start: int, deadline: int, t: seq<nat>)
    requires |t| == 8 && start + t[0] + t[1] + t[2] + t[3] < deadline
    ensures Run(start, deadline, HealthyRun(t)[..4])
         == State(start + t[0] + t[1] + t[2] + t[3], false, [], [], Check, Receive(true), ReadinessDone, Queued)
  {
    var a := [(Reader, Choice(t[0], Some(Marker), true))];
    var b := a + [(Reader, Choice(t[1], None, true))];
    var c := b + [(Readiness, Choice(t[2], None, true))];
    assert HealthyRun(t)[..4] == c + [(Readiness, Choice(t[3], None, true))];
    RunSnoc(start, deadline, [], a[0]);
    assert [] + [a[0]] == a && Run(start, deadline, []) == Start(start);
    assert Run(start, deadline, a)
        == State(start + t[0], false, [], [], Check, Received(false, Marker), NotStarted, NotQueued);
    RunSnoc(start, deadline, a, b[1]);
    assert Run(start, deadline, b)
        == State(start + t[0] + t[1], false, [], [], Check, Receive(true), Waiting, NotQueued);
    RunSnoc(start, deadline, b, c[2]);
    RunSnoc(start, deadline, c, (Readiness, Choice(t[3], None, true)));
  }

  /** From the start: the marker, a successful probe and a look at the clock before
      the deadline end in the window and nothing else. */
  lemma WindowFromTheStart(start: int, deadline: int, t: seq<nat>)
    requires |t| == 8 && start + t[0] + t[1] + t[2] + t[3] + t[4] < deadline
    ensures var e := Run(start, deadline, HealthyRun(t));
            e.claims == e.effects == [Window(start + t[0] + t[1] + t[2] + t[3] + t[4])] && e.complete
  {
    var seen := start + t[0] + t[1] + t[2] + t[3] + t[4];
    HealthyHalf(start, deadline, t);
    var d := HealthyRun(t)[..4];
    var e := d + [(MainThread, Choice(t[4], None, true))];
    var f := e + [(MainThread, Choice(t[5], None, true))];
    var g := f + [(MainThread, Choice(t[6], None, true))];
    assert HealthyRun(t) == g + [(MainThread, Choice(t[7], None, true))];
    RunSnoc(start, deadline, d, (MainThread, Choice(t[4], None, true)));
    assert Run(start, deadline, e) == State(seen, false, [], [], Check, Receive(true), ReadinessDone, InTime(seen));
    RunSnoc(start, deadline, e, (MainThread, Choice(t[5], None, true)));
    RunSnoc(start, deadline, f, (MainThread, Choice(t[6], None, true)));
    RunSnoc(start, deadline, g, (MainThread, Choice(t[7], None, true)));
  }

  // ------------------------------------------------ why and that it settles

  /** What has happened so far: the reader was handed a failure, the end of the
      channel, a marker; the probe failed; and, before the deadline, the callback
      could not be queued, or was. */
  datatype News = News(failed: bool, closed: bool, marked: bool, unready: bool, refused: bool, queued: bool)

  function Told(news: News, s: State, a: Actor, c: Choice, deadline: int): News {
    if a == Reader && s.reader.Receive? then
      news.(failed := news.failed || c.event == Some(Failed), closed := news.closed || c.event == None,
            marked := news.marked || c.event == Some(Marker))
    else if a == Readiness && s.readiness.Waiting? then news.(unready := news.unready || !c.ok)
    else if a == Readiness && s.readiness.Ready? && s.clock + c.passed < deadline then
      news.(refused := news.refused || !c.ok, queued := news.queued || c.ok)
    else news
  }

  function NewsOf(start: int, deadline: int, steps: seq<(Actor, Choice)>): News {
    if steps == [] then News(false, false, false, false, false, false)
    else
      var n := |steps| - 1;
      Told(NewsOf(start, deadline, steps[..n]), Run(start, deadline, steps[..n]), steps[n].0, steps[n].1, deadline)
  }

  /** Each claim has its cause. */
  predicate ClaimCaused(c: Claim, now: int, deadline: int, news: News) {
    match c
    case TimedOut => now >= deadline
    case SidecarGone => news.failed
    case OutputClosed => news.closed
    case NotReady => news.marked && (news.unready || now >= deadline)
    case NotScheduled => news.marked && news.refused
    case CallbackLate => now >= deadline && news.queued
    case Window(seen) => seen < deadline && news.queued
  }

  predicate Caused(s: State, deadline: int, news: News) {
    PlacesCaused(s, news) && AttemptsCaused(s, deadline, news) && AllCaused(s.claims, s.clock, deadline, news)
  }

  predicate AllCaused(claims: seq<Claim>, now: int, deadline: int, news: News) {
    forall k :: 0 <= k < |claims| ==> ClaimCaused(claims[k], now, deadline, news)
  }

  /** Causes stay causes. */
  lemma StillCaused(c: Claim, s: State, a: Actor, ch: Choice, deadline: int, news: News)
    requires ClaimCaused(c, s.clock, deadline, news)
    ensures ClaimCaused(c, Step(s, a, ch, deadline).clock, deadline, Told(news, s, a, ch, deadline))
  {
    StepClock(s, a, ch, deadline);
  }

  lemma StepClock(s: State, a: Actor, c: Choice, deadline: int)
    ensures Step(s, a, c, deadline).clock == s.clock + c.passed
  {
  }

  /** A step adds at most the claim its actor was about to make. */
  lemma StepClaims(s: State, a: Actor, c: Choice, deadline: int)
    ensures var claims := Step(s, a, c, deadline).claims;
            claims == s.claims || (Attempting(s, a).Some? && claims == s.claims + [Attempting(s, a).value])
  {
  }

  lemma ClaimsCaused(s: State, a: Actor, c: Choice, deadline: int, news: News)
    requires AllCaused(s.claims, s.clock, deadline, news)
    requires Attempting(s, a).Some? ==> ClaimCaused(Attempting(s, a).value, s.clock, deadline, news)
    ensures var s' := Step(s, a, c, deadline);
            AllCaused(s'.claims, s'.clock, deadline, Told(news, s, a, c, deadline))
  {
    hide Step, Told, ClaimCaused, Attempting;
    var (s', news') := (Step(s, a, c, deadline), Told(news, s, a, c, deadline));
    StepClaims(s, a, c, deadline);
    forall k | 0 <= k < |s'.claims| ensures ClaimCaused(s'.claims[k], s'.clock, deadline, news') {
      StillCaused(s'.claims[k], s, a, c, deadline, news);
    }
  }

  /** Places whose causes do not depend on which claim is about to be made. */
  predicate PlacesCaused(s: State, news: News) {
    && (s.reader.Received? ==> (s.reader.event == Failed ==> news.failed) && (s.reader.event == Marker ==> news.marked))
    && (s.reader.ReaderAt? ==> news.failed)
    && (s.reader.ClosingAt? || (s.reader.LastLook? && !s.complete) ==> news.closed)
    && (s.readiness != NotStarted ==> news.marked)
    && (s.callback != NotQueued ==> news.queued)
  }

  lemma StepPlaces(s: State, a: Actor, c: Choice, deadline: int, news: News)
    requires Inv(s, deadline) && PlacesCaused(s, news)
    ensures PlacesCaused(Step(s, a, c, deadline), Told(news, s, a, c, deadline))
  {
    OwedMeansComplete(s, a);
    hide Balanced;
  }

  /** An attempt was caused when it began, or is. */
  predicate AttemptsCaused(s: State, deadline: int, news: News) {
    && (s.watchdog.WatchdogAt? ==> ClaimCaused(s.watchdog.at.claim, s.clock, deadline, news))
    && (s.readiness.ReadinessAt? ==> ClaimCaused(s.readiness.at.claim, s.clock, deadline, news))
    && (s.callback.CallbackAt? ==> ClaimCaused(s.callback.at.claim, s.clock, deadline, news))
  }

  lemma WatchdogAttempt(s: State, a: Actor, c: Choice, deadline: int, news: News)
    requires Inv(s, deadline) && PlacesCaused(s, news) && AttemptsCaused(s, deadline, news)
    ensures var (s', news') := (Step(s, a, c, deadline), Told(news, s, a, c, deadline));
            s'.watchdog.WatchdogAt? ==> ClaimCaused(s'.watchdog.at.claim, s'.clock, deadline, news')
  {
    hide Balanced;
    if s.watchdog.WatchdogAt? { StillCaused(s.watchdog.at.claim, s, a, c, deadline, news); }
  }

  lemma ReadinessAttempt(s: State, a: Actor, c: Choice, deadline: int, news: News)
    requires Inv(s, deadline) && PlacesCaused(s, news) && AttemptsCaused(s, deadline, news)
    ensures var (s', news') := (Step(s, a, c, deadline), Told(news, s, a, c, deadline));
            s'.readiness.ReadinessAt? ==> ClaimCaused(s'.readiness.at.claim, s'.clock, deadline, news')
  {
    hide Balanced;
    if s.readiness.ReadinessAt? { StillCaused(s.readiness.at.claim, s, a, c, deadline, news); }
  }

  lemma CallbackAttempt(s: State, a: Actor, c: Choice, deadline: int, news: News)
    requires Inv(s, deadline) && PlacesCaused(s, news) && AttemptsCaused(s, deadline, news)
    ensures var (s', news') := (Step(s, a, c, deadline), Told(news, s, a, c, deadline));
            s'.callback.CallbackAt? ==> ClaimCaused(s'.callback.at.claim, s'.clock, deadline, news')
  {
    hide Balanced;
    if s.callback.CallbackAt? { StillCaused(s.callback.at.claim, s, a, c, deadline, news); }
  }

  lemma StepAttempts(s: State, a: Actor, c: Choice, deadline: int, news: News)
    requires Inv(s, deadline) && PlacesCaused(s, news) && AttemptsCaused(s, deadline, news)
    ensures AttemptsCaused(Step(s, a, c, deadline), deadline, Told(news, s, a, c, deadline))
  {
    WatchdogAttempt(s, a, c, deadline, news);
    ReadinessAttempt(s, a, c, deadline, news);
    CallbackAttempt(s, a, c, deadline, news);
    hide Step, Inv, Told, ClaimCaused, PlacesCaused;
  }

  lemma AttemptCaused(s: State, a: Actor, deadline: int, news: News)
    requires Inv(s, deadline) && Caused(s, deadline, news) && Attempting(s, a).Some?
    ensures ClaimCaused(Attempting(s, a).value, s.clock, deadline, news)
  {
    hide Balanced, AllCaused;
  }

  lemma StepCaused(s: State, a: Actor, c: Choice, deadline: int, news: News)
    requires Inv(s, deadline) && Caused(s, deadline, news)
    ensures Caused(Step(s, a, c, deadline), deadline, Told(news, s, a, c, deadline))
  {
    hide Step, Inv, Told, ClaimCaused, AllCaused, Attempting;
    if Attempting(s, a).Some? { AttemptCaused(s, a, deadline, news); }
    ClaimsCaused(s, a, c, deadline, news);
    StepPlaces(s, a, c, deadline, news);
    StepAttempts(s, a, c, deadline, news);
  }

  lemma {:induction false} RunCaused(start: int, deadline: int, steps: seq<(Actor, Choice)>)
    ensures Caused(Run(start, deadline, steps), deadline, NewsOf(start, deadline, steps))
  {
    if steps != [] {
      hide Step, Inv, Caused, Told;
      var n := |steps| - 1;
      RunCaused(start, deadline, steps[..n]);
      Reachable(start, deadline, steps[..n]);
      var news := NewsOf(start, deadline, steps[..n]);
      StepCaused(Run(start, deadline, steps[..n]), steps[n].0, steps[n].1, deadline, news);
    }
  }

  /** Every outcome has its cause: a timeout page or a late callback only from the
      deadline on, a window only from a callback queued in time, the other pages
      only after the failure, the end of the output, the failed probe or the
      refused callback they report. */
  lemma OutcomeHasItsCause(start: int, deadline: int, steps: seq<(Actor, Choice)>)
    ensures var (s, news) := (Run(start, deadline, steps), NewsOf(start, deadline, steps));
            && (forall c :: c in s.claims || c in s.effects ==> ClaimCaused(c, s.clock, deadline, news))
            && (s.callback != NotQueued ==> news.queued)
  {
    RunCaused(start, deadline, steps);
    OneOutcome(start, deadline, steps);
  }

  /** Places from which an actor settles the start or, for the readiness task,
      hands it to the callback, and the steps it needs for that. */
  predicate Committed(s: State, a: Actor) {
    match a
    case Watchdog => s.watchdog.WatchdogAt?
    case Reader =>
      || (s.reader.Received? && s.reader.event == Failed)
      || s.reader.ReaderAt? || s.reader.LastLook? || s.reader.ClosingAt?
    case Readiness => s.readiness != NotStarted
    case MainThread => s.callback != NotQueued
  }

  function Need(s: State, a: Actor): nat {
    match a
    case Watchdog => 1
    case Reader => if s.reader.Received? || s.reader.LastLook? then 2 else 1
    case Readiness => (match s.readiness case Waiting => 3 case Ready => 2 case _ => 1)
    case MainThread => (match s.callback case Queued => 3 case InTime(_) => 2 case _ => 1)
  }

  predicate Settled(s: State, a: Actor) { s.complete || (a == Readiness && s.callback != NotQueued) }

  /** Over for good: nobody leaves a place without claiming or handing over. */
  predicate Ended(s: State) {
    && (s.readiness == ReadinessDone ==> s.complete || s.callback != NotQueued)
    && (s.callback == CallbackDone ==> s.complete)
  }

  lemma StepEnded(s: State, a: Actor, c: Choice, deadline: int)
    requires Inv(s, deadline) && Ended(s)
    ensures Ended(Step(s, a, c, deadline))
  {
    OwedMeansComplete(s, a);
    hide Balanced;
  }

  lemma OwnSettles(s: State, a: Actor, c: Choice, deadline: int)
    requires Inv(s, deadline) && Ended(s) && Committed(s, a) && !Settled(s, a)
    ensures var s' := Step(s, a, c, deadline);
            Settled(s', a) || (Committed(s', a) && Need(s', a) < Need(s, a))
  {
    OwedMeansComplete(s, a);
    hide Balanced;
  }

  lemma OthersSettle(s: State, a: Actor, b: Actor, c: Choice, deadline: int)
    requires Inv(s, deadline) && b != a
    ensures var s' := Step(s, b, c, deadline);
            && (Settled(s, a) ==> Settled(s', a))
            && (Committed(s, a) ==> Committed(s', a) && Need(s', a) == Need(s, a))
  {
    hide Balanced;
  }

  lemma StaysSettled(s: State, a: Actor, c: Choice, deadline: int)
    requires Settled(s, a)
    ensures Settled(Step(s, a, c, deadline), a)
  {
  }

  lemma {:induction false} RunEnded(start: int, deadline: int, steps: seq<(Actor, Choice)>)
    ensures Ended(Run(start, deadline, steps))
  {
    if steps != [] {
      hide Step, Inv, Ended;
      var n := |steps| - 1;
      RunEnded(start, deadline, steps[..n]);
      Reachable(start, deadline, steps[..n]);
      StepEnded(Run(start, deadline, steps[..n]), steps[n].0, steps[n].1, deadline);
    }
  }

  /** Whatever others do, an actor that has its reason settles the start by its own
      steps: the reader two steps after a failure or the end of the output, the
      callback three steps after it was queued, the watchdog one step after it saw
      the deadline; and the readiness task, three steps after the marker, has
      settled it or queued the callback. */
  lemma {:induction false} ActorSettles(start: int, deadline: int, steps: seq<(Actor, Choice)>, a: Actor,
                                        more: seq<(Actor, Choice)>)
    requires Committed(Run(start, deadline, steps), a)
    ensures var (s, e) := (Run(start, deadline, steps), Run(start, deadline, steps + more));
            Settled(e, a) || (Committed(e, a) && Need(e, a) + StepsOf(more, a) <= Need(s, a))
  {
    hide Step, Inv, Settled, Committed, Need, Ended;
    if more == [] {
      assert steps + more == steps;
    } else {
      var n := |more| - 1;
      ActorSettles(start, deadline, steps, a, more[..n]);
      assert steps + more == (steps + more[..n]) + [more[n]];
      RunSnoc(start, deadline, steps + more[..n], more[n]);
      Reachable(start, deadline, steps + more[..n]);
      RunEnded(start, deadline, steps + more[..n]);
      var s := Run(start, deadline, steps + more[..n]);
      if more[n].0 != a {
        OthersSettle(s, a, more[n].0, more[n].1, deadline);
      } else if Settled(s, a) {
        StaysSettled(s, a, more[n].1, deadline);
      } else {
        OwnSettles(s, a, more[n].1, deadline);
      }
    }
  }

  /** The news that make the reader settle the start. */
  lemma ReaderCommits(s: State, c: Choice, deadline: int)
    requires s.reader.Receive? && (c.event == None || c.event == Some(Failed))
    ensures Committed(Step(s, Reader, c, deadline), Reader) && Need(Step(s, Reader, c, deadline), Reader) == 2
  {
  }

  /** After a failure or the end of its output the sidecar's reader has settled the
      start with two more steps of its own, whatever others do. */
  lemma FailureSettles(start: int, deadline: int, steps: seq<(Actor, Choice)>, c: Choice, more: seq<(Actor, Choice)>)
    requires Run(start, deadline, steps).reader.Receive? && (c.event == None || c.event == Some(Failed))
    requires StepsOf(more, Reader) >= 2
    ensures Run(start, deadline, steps + [(Reader, c)] + more).complete
  {
    hide Run, Step;
    RunSnoc(start, deadline, steps, (Reader, c));
    ReaderCommits(Run(start, deadline, steps), c, deadline);
    ActorSettles(start, deadline, steps + [(Reader, c)], Reader, more);
  }

  function Watched(s: State, n: nat, c: Choice, deadline: int): State {
    if n == 0 then s else Step(Watched(s, n - 1, c, deadline), Watchdog, c, deadline)
  }

  /** Steps the watchdog still needs once the deadline has come. */
  function StepsLeft(pc: WatchdogPc): nat {
    match pc
    case Sleep => 5
    case Check => 4
    case ReadClock => 3
    case WatchdogAt(Trying(_)) => 2
    case WatchdogAt(Won(_)) => 1
    case WatchdogDone => 0
  }

  lemma {:induction false} WatchdogCountsDown(s: State, n: nat, c: Choice, deadline: int)
    requires Inv(s, deadline) && s.clock >= deadline
    ensures var s' := Watched(s, n, c, deadline);
            Inv(s', deadline) && s'.clock >= deadline && StepsLeft(s'.watchdog) <= (if n < 5 then 5 - n else 0)
  {
    hide Inv;
    if n > 0 {
      WatchdogCountsDown(s, n - 1, c, deadline);
      var before := Watched(s, n - 1, c, deadline);
      ClockKeeps(before, c.passed, deadline);
      WatchdogKeeps(before.(clock := before.clock + c.passed), deadline);
    }
  }

  lemma ClockKeeps(s: State, passed: nat, deadline: int)
    requires Inv(s, deadline)
    ensures Inv(s.(clock := s.clock + passed), deadline)
  {
  }

  /** From the deadline on five steps of the watchdog settle the start, wherever
      everybody stands. */
  lemma DeadlineSettles(start: int, deadline: int, steps: seq<(Actor, Choice)>, c: Choice)
    requires Run(start, deadline, steps).clock >= deadline
    ensures var s := Watched(Run(start, deadline, steps), 5, c, deadline);
            s.watchdog == WatchdogDone && s.complete && |s.claims| == 1
  {
    Reachable(start, deadline, steps);
    WatchdogCountsDown(Run(start, deadline, steps), 5, c, deadline);
  }

  // --------------------------------------------------- the running program

  /** The shared atomic flag. */
  class StartupCompletion {
    var complete: bool

    constructor ()
      ensures !complete
    {
      complete := false;
    }

    /** Compare and set: only the first caller wins. */
    method TryComplete() returns (won: bool)
      modifies this
      ensures complete && won == !old(complete)
    {
      won := !complete;
      complete := true;
    }

    /** The watchdog's loop.  Another branch wins during its `others`-th sleep, if
        the loop gets that far, and each sleep moves the clock.  The start is
        settled when the loop ends, by the watchdog only from the deadline on;
        no sleep is longer than the poll interval or reaches past the deadline. */
    method RunStartupWatchdog(start: int, deadline: int, slept: nat -> nat, others: nat)
      returns (timedOut: bool, now: int, sleeps: seq<(int, nat)>)
      requires forall k: nat :: slept(k) >= 1
      modifies this
      ensures complete
      ensures timedOut ==> now >= deadline && !old(complete) && |sleeps| <= others
      ensures !timedOut ==> old(complete) || |sleeps| == others + 1
      ensures old(complete) ==> sleeps == []
      ensures forall k :: 0 <= k < |sleeps| ==> Fits(sleeps[k].1, sleeps[k].0, deadline, 100_000)
    {
      now, sleeps := start, [];
      while true
        invariant complete == (old(complete) || |sleeps| > others)
        invariant old(complete) ==> sleeps == []
        invariant |sleeps| <= others + 1
        invariant forall k :: 0 <= k < |sleeps| ==> Fits(sleeps[k].1, sleeps[k].0, deadline, 100_000)
        decreases SaturatingSince(deadline, now), !complete
      {
        if complete {
          return false, now, sleeps;
        }
        var remaining := SaturatingSince(deadline, now);
        if remaining == 0 {
          timedOut := TryComplete();
          return timedOut, now, sleeps;
        }
        var delay := if remaining < WATCHDOG_POLL_INTERVAL then remaining else WATCHDOG_POLL_INTERVAL;
        if |sleeps| == others {
          var _ := TryComplete();
        }
        sleeps := sleeps + [(now, delay)];
        now := now + slept(|sleeps| - 1);
      }
    }
  }
}

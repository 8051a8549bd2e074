/** Registration in two steps that are not one transaction
    (backend/app/services/auth_service.py:77-171, 189-290): a user row, then a
    tenant database, with compensation when the second step fails. */
module Registration {
  import opened Wrappers

  /** A registration is named by the id its user row gets. */
  type Reg = nat

  /** The backoff list has four delays. */
  const BACKOFFS: nat := 4

  datatype Pc =
    | Ready(name: string)                                      // about to insert the row
    | Creating(name: string, delays: nat, healed: bool)        // CREATE DATABASE
    | DropOrphan(name: string, delays: nat, healed: bool)      // it existed: DROP DATABASE
    | Recreate(name: string, delays: nat, healed: bool)        // CREATE DATABASE again
    | RollRow(name: string)                                    // DELETE FROM users
    | RollDb(name: string, rowGone: bool)                      // DROP DATABASE IF EXISTS
    | Succeeded(name: string)
    | Failed(name: string, clean: bool)                        // clean: not inserted, or fully compensated
    | Dead(name: string)
  {
    /** Past the insert and before any compensation. */
    predicate Building() { Creating? || DropOrphan? || Recreate? }
  }

  /** `rows` are the live user rows; `dbs` the tenant databases with the
      registration that created each, None for one left by an earlier run.
      Username and database name determine each other, so one name stands for both. */
  datatype State = State(rows: map<Reg, string>, dbs: map<string, Option<Reg>>, regs: map<Reg, Pc>)

  /** How a statement ends: it returns, PostgreSQL finds the template in use or
      missing (and the heal may succeed), or it raises anything else, after it
      may have taken effect all the same. */
  datatype Outcome = Fine | InUse | NoTemplate(heals: bool) | Error(done: bool)
  {
    predicate Done() { Fine? || (Error? && done) }
  }

  /** What a registration does next if it has none of these steps behind it is
      `begin`; it may also die before its step. */
  datatype Choice = Choice(name: string, outcome: Outcome, crash: bool)

  predicate Taken(rows: map<Reg, string>, name: string) { exists r :: r in rows && rows[r] == name }

  /** The `except` branches of the creation loop. */
  function Retried(name: string, delays: nat, healed: bool, outcome: Outcome): Pc {
    match outcome
    case InUse => if delays == 0 then RollRow(name) else Creating(name, delays - 1, healed)
    case NoTemplate(heals) => if !healed && heals then Creating(name, delays, true) else RollRow(name)
    case _ => RollRow(name)
  }

  function Created(s: State, r: Reg, name: string, outcome: Outcome, delays: nat, healed: bool): State {
    State(s.rows, if outcome.Done() then s.dbs[name := Some(r)] else s.dbs,
          s.regs[r := if outcome.Fine? then Succeeded(name) else Retried(name, delays, healed, outcome)])
  }

  function Dropped(s: State, name: string, outcome: Outcome): State {
    if outcome.Done() then s.(dbs := s.dbs - {name}) else s
  }

  function Advance(s: State, r: Reg, pc: Pc, outcome: Outcome): State {
    match pc
    case Ready(name) =>
      if Taken(s.rows, name) || !outcome.Done() then s.(regs := s.regs[r := Failed(name, true)])
      else
        s.(rows := s.rows[r := name],
           regs := s.regs[r := if outcome.Fine? then Creating(name, BACKOFFS, false) else Failed(name, false)])
    case Creating(name, delays, healed) =>
      if name in s.dbs && outcome.Fine? then s.(regs := s.regs[r := DropOrphan(name, delays, healed)])
      else if name in s.dbs then s.(regs := s.regs[r := Retried(name, delays, healed, outcome)])
      else Created(s, r, name, outcome, delays, healed)
    case DropOrphan(name, delays, healed) =>
      Dropped(s, name, outcome)
        .(regs := s.regs[r := if outcome.Fine? then Recreate(name, delays, healed)
                              else Retried(name, delays, healed, outcome)])
    case Recreate(name, delays, healed) =>
      if name in s.dbs && outcome.Fine? then s.(regs := s.regs[r := RollRow(name)])
      else if name in s.dbs then s.(regs := s.regs[r := Retried(name, delays, healed, outcome)])
      else Created(s, r, name, outcome, delays, healed)
    case RollRow(name) =>
      State(if outcome.Done() then s.rows - {r} else s.rows, s.dbs, s.regs[r := RollDb(name, outcome.Done())])
    case RollDb(name, gone) => Dropped(s, name, outcome).(regs := s.regs[r := Failed(name, gone && outcome.Done())])
    case _ => s
  }

  function PcOf(s: State, r: Reg, begin: string): Pc { if r in s.regs then s.regs[r] else Ready(begin) }

  function Step(s: State, r: Reg, c: Choice): State {
    var pc := PcOf(s, r, c.name);
    if c.crash && !pc.Succeeded? && !pc.Failed? then s.(regs := s.regs[r := Dead(pc.name)])
    else Advance(s, r, pc, c.outcome)
  }

  function RunFrom(s: State, steps: seq<(Reg, Choice)>): State {
    if steps == [] then s
    else Step(RunFrom(s, steps[..|steps| - 1]), steps[|steps| - 1].0, steps[|steps| - 1].1)
  }

  /** Databases left over by earlier crashes may be there at the start. */
  function Start(orphans: set<string>): State { State(map[], map n | n in orphans :: None, map[]) }

  // ---------------------------------------------------------- the invariant

  /** What a registration's place says about the two tables. */
  predicate PlaceOk(rows: map<Reg, string>, r: Reg, pc: Pc) {
    match pc
    case Ready(_) => r !in rows
    case RollDb(name, gone) => if gone then r !in rows else r in rows && rows[r] == name
    case Failed(name, clean) => clean ==> r !in rows
    case Dead(_) => true
    case _ => r in rows && rows[r] == pc.name
  }

  ghost predicate UniqueNames(rows: map<Reg, string>) {
    forall r, q :: r in rows && q in rows && rows[r] == rows[q] ==> r == q
  }

  /** A database stems from a registration of its name that finished or is compensating. */
  predicate CreatorOk(n: string, creator: Option<Reg>, regs: map<Reg, Pc>) {
    creator.Some? ==>
      && creator.value in regs && regs[creator.value].name == n
      && !regs[creator.value].Ready? && !regs[creator.value].Building()
      && (regs[creator.value].Failed? ==> !regs[creator.value].clean)
  }

  ghost predicate Inv(s: State) {
    && UniqueNames(s.rows)
    && (forall n :: n in s.dbs ==> CreatorOk(n, s.dbs[n], s.regs))
    && s.rows.Keys <= s.regs.Keys
    && (forall r :: r in s.regs ==> PlaceOk(s.rows, r, s.regs[r]))
  }

  /** A step changes at most its own row and its own place. */
  lemma AdvanceLocal(s: State, r: Reg, c: Choice)
    requires UniqueNames(s.rows) && PlaceOk(s.rows, r, PcOf(s, r, c.name)) && (r in s.rows ==> r in s.regs)
    ensures var s' := Step(s, r, c);
            && UniqueNames(s'.rows)
            && (forall q :: q != r ==> (q in s'.rows <==> q in s.rows) && (q in s.rows ==> s'.rows[q] == s.rows[q]))
            && (s'.regs == s.regs || (r in s'.regs && s'.regs == s.regs[r := s'.regs[r]]))
            && (r in s'.rows ==> r in s'.regs)
            && (r in s'.regs ==> PlaceOk(s'.rows, r, s'.regs[r]))
  {
    var pc := PcOf(s, r, c.name);
    if !c.crash && pc.Ready? && c.outcome.Fine? && !Taken(s.rows, pc.name) {
      assert forall q :: q in s.rows ==> s.rows[q] != pc.name;
    }
  }

  /** A step moves one registration, never to another name. */
  lemma PlaceMoves(s: State, r: Reg, c: Choice)
    ensures var s' := Step(s, r, c);
            && (forall q :: q in s.regs ==> q in s'.regs)
            && (forall q :: q in s'.regs && q != r ==> q in s.regs && s'.regs[q] == s.regs[q])
            && (r in s.regs ==> s'.regs[r].name == s.regs[r].name)
  {
  }

  lemma AdvanceCreators(s: State, r: Reg, c: Choice)
    requires forall n :: n in s.dbs ==> CreatorOk(n, s.dbs[n], s.regs)
    ensures var s' := Step(s, r, c); forall n :: n in s'.dbs ==> CreatorOk(n, s'.dbs[n], s'.regs)
  {
    var s' := Step(s, r, c);
    forall n | n in s'.dbs ensures CreatorOk(n, s'.dbs[n], s'.regs) {
      if n in s.dbs && s'.dbs[n] == s.dbs[n] {
        PlaceMoves(s, r, c);
        assert CreatorOk(n, s.dbs[n], s.regs);
      }
    }
  }

  lemma StepKeeps(s: State, r: Reg, c: Choice)
    requires Inv(s)
    ensures Inv(Step(s, r, c))
  {
    hide Step, CreatorOk;
    AdvanceLocal(s, r, c);
    AdvanceCreators(s, r, c);
  }

  lemma {:induction false} Reachable(orphans: set<string>, steps: seq<(Reg, Choice)>)
    ensures Inv(RunFrom(Start(orphans), steps))
  {
    if steps != [] {
      hide Step, Inv;
      Reachable(orphans, steps[..|steps| - 1]);
      StepKeeps(RunFrom(Start(orphans), steps[..|steps| - 1]), steps[|steps| - 1].0, steps[|steps| - 1].1);
    }
  }

  // --------------------------------------------------------------- theorems

  /** In every interleaving, with crashes and lost answers: when a registration
      is about to drop a database it found in the way, its own row is the only
      live row of that name, so the database belongs to no other live user. */
  lemma OrphanDropIsSafe(orphans: set<string>, steps: seq<(Reg, Choice)>, r: Reg, name: string)
    requires var s := RunFrom(Start(orphans), steps);
             r in s.regs && s.regs[r].DropOrphan? && s.regs[r].name == name
    ensures var s := RunFrom(Start(orphans), steps);
            && (forall q :: q in s.rows && s.rows[q] == name <==> q == r)
            && (name in s.dbs && s.dbs[name].Some? ==>
                  s.dbs[name].value !in s.rows || s.rows[s.dbs[name].value] != name)
  {
    Reachable(orphans, steps);
    var s := RunFrom(Start(orphans), steps);
    assert PlaceOk(s.rows, r, s.regs[r]);
    if name in s.dbs { assert CreatorOk(name, s.dbs[name], s.regs); }
  }

  /** In every interleaving a registration that failed and whose compensation
      took effect has no row and no database, and one that succeeded has its row. */
  lemma FailureLeavesNothing(orphans: set<string>, steps: seq<(Reg, Choice)>, r: Reg)
    ensures var s := RunFrom(Start(orphans), steps);
            && (r in s.regs && s.regs[r].Failed? && s.regs[r].clean ==>
                  r !in s.rows && forall n :: n in s.dbs ==> s.dbs[n] != Some(r))
            && (r in s.regs && s.regs[r].Succeeded? ==> r in s.rows && s.rows[r] == s.regs[r].name)
  {
    Reachable(orphans, steps);
    var s := RunFrom(Start(orphans), steps);
    if r in s.regs {
      assert PlaceOk(s.rows, r, s.regs[r]);
      forall n | n in s.dbs ensures CreatorOk(n, s.dbs[n], s.regs) {}
    }
  }

  /** Neither a row nor a database of r is there. */
  ghost predicate LeftNothing(s: State, r: Reg) {
    r !in s.rows && forall n :: n in s.dbs ==> s.dbs[n] != Some(r)
  }

  /** Exactly when a failure leaves nothing: a registration that fails at its
      insert does unless the insert took effect all the same, which only a free
      name allows; one that fails after its compensation does if and only if the
      row went, and the drop took effect or no database of its own was there. */
  lemma FailureLeavesNothingExactlyWhen(orphans: set<string>, steps: seq<(Reg, Choice)>, r: Reg, c: Choice)
    requires var s := RunFrom(Start(orphans), steps);
             !PcOf(s, r, c.name).Failed? && PcOf(Step(s, r, c), r, c.name).Failed?
    ensures var s := RunFrom(Start(orphans), steps);
            LeftNothing(Step(s, r, c), r) <==>
              match PcOf(s, r, c.name)
              case Ready(name) => Taken(s.rows, name) || !c.outcome.Done()
              case RollDb(name, gone) => gone && (c.outcome.Done() || name !in s.dbs || s.dbs[name] != Some(r))
              case _ => false
  {
    Reachable(orphans, steps);
    var s := RunFrom(Start(orphans), steps);
    var pc := PcOf(s, r, c.name);
    forall n | n in s.dbs && s.dbs[n] == Some(r) ensures r in s.regs && n == pc.name && pc.RollDb? {
      assert CreatorOk(n, s.dbs[n], s.regs);
    }
    if r in s.regs { assert PlaceOk(s.rows, r, s.regs[r]); }
    if pc.RollDb? && pc.name in s.dbs && s.dbs[pc.name] == Some(r) && !c.outcome.Done() {
      assert Step(s, r, c).dbs[pc.name] == Some(r);
    }
  }

  /** Such a row exists: the insert commits, its answer is lost, nobody compensates. */
  lemma InsertAnswerLost(name: string)
    ensures var lost := Choice(name, Error(true), false);
            var e := RunFrom(Start({}), [(0, lost)]);
            e.rows == map[0 := name] && e.dbs == map[] && e.regs == map[0 := Failed(name, false)]
  {
    var lost := Choice(name, Error(true), false);
    assert [(0, lost)][..0] == [];
    assert Start({}) == State(map[], map[], map[]);
    assert RunFrom(Start({}), [(0, lost)]) == Step(Start({}), 0, lost);
  }

  /** A CREATE that raised after it took effect leaves a database for the
      compensation to drop. */
  lemma CreateAnswerLost(s: State, r: Reg, name: string)
    requires r in s.regs && s.regs[r] == Creating(name, 4, false) && name !in s.dbs
    ensures var e := Step(s, r, Choice(name, Error(true), false));
            e.dbs == s.dbs[name := Some(r)] && e.rows == s.rows && e.regs == s.regs[r := RollRow(name)]
  {
  }

  lemma StepLeavesRow(s: State, r: Reg, q: Reg, c: Choice)
    requires r in s.regs && s.regs[r].Failed? && r in s.rows && UniqueNames(s.rows)
    ensures var s' := Step(s, q, c);
            r in s'.regs && s'.regs[r].Failed? && r in s'.rows && s'.rows[r] == s.rows[r]
  {
  }

  /** The row of a failed registration stays, and keeps its name taken, for ever. */
  lemma {:induction false} OrphanRowStays(orphans: set<string>, steps: seq<(Reg, Choice)>, r: Reg,
                                          more: seq<(Reg, Choice)>)
    requires var s := RunFrom(Start(orphans), steps); r in s.regs && s.regs[r].Failed? && r in s.rows
    ensures var (s, e) := (RunFrom(Start(orphans), steps), RunFrom(Start(orphans), steps + more));
            && r in e.regs && e.regs[r].Failed? && r in e.rows && e.rows[r] == s.rows[r]
            && Taken(e.rows, s.rows[r])
  {
    hide Step, Inv;
    if more == [] {
      assert steps + more == steps;
    } else {
      var n := |more| - 1;
      OrphanRowStays(orphans, steps, r, more[..n]);
      assert (steps + more)[..|steps| + n] == steps + more[..n];
      assert (steps + more)[|steps| + n] == more[n];
      Reachable(orphans, steps + more[..n]);
      RowsUnique(RunFrom(Start(orphans), steps + more[..n]));
      StepLeavesRow(RunFrom(Start(orphans), steps + more[..n]), r, more[n].0, more[n].1);
    }
  }

  lemma RowsUnique(s: State)
    requires Inv(s)
    ensures UniqueNames(s.rows)
  {
  }

  lemma StepLeavesFailed(s: State, r: Reg, q: Reg, c: Choice)
    requires r in s.regs && s.regs[r].Failed? && LeftNothing(s, r)
    ensures var s' := Step(s, q, c); r in s'.regs && s'.regs[r].Failed? && LeftNothing(s', r)
  {
  }

  /** Where a failure left nothing, nothing of it comes back. */
  lemma {:induction false} NothingComesBack(s: State, r: Reg, steps: seq<(Reg, Choice)>)
    requires r in s.regs && s.regs[r].Failed? && LeftNothing(s, r)
    ensures var e := RunFrom(s, steps); r in e.regs && e.regs[r].Failed? && LeftNothing(e, r)
  {
    if steps != [] {
      hide Step, LeftNothing;
      var n := |steps| - 1;
      NothingComesBack(s, r, steps[..n]);
      StepLeavesFailed(RunFrom(s, steps[..n]), r, steps[n].0, steps[n].1);
    }
  }

  /** Another registration of this name stands between deleting its row and
      dropping its database. */
  predicate DropPending(s: State, name: string, r: Reg) {
    exists q :: q in s.regs && q != r && s.regs[q].RollDb? && s.regs[q].name == name
  }

  /** r owns the name and, once it has succeeded, the database. */
  ghost predicate Secure(s: State, r: Reg, name: string) {
    && r in s.regs && s.regs[r].name == name
    && (s.regs[r].Building() || s.regs[r].Succeeded? ==> r in s.rows && s.rows[r] == name && !DropPending(s, name, r))
    && (s.regs[r].Succeeded? ==> name in s.dbs && s.dbs[name] == Some(r))
    && !s.regs[r].Ready?
  }

  /** No other registration starts dropping databases when r takes a step. */
  lemma OwnStepPending(s: State, r: Reg, name: string, c: Choice)
    requires !DropPending(s, name, r)
    ensures !DropPending(Step(s, r, c), name, r)
  {
    hide Step;
    PlaceMoves(s, r, c);
  }

  lemma OwnStepSecure(s: State, r: Reg, name: string, c: Choice)
    requires Secure(s, r, name) && UniqueNames(s.rows)
    ensures Secure(Step(s, r, c), r, name)
  {
    hide DropPending, UniqueNames;
    if !DropPending(s, name, r) { OwnStepPending(s, r, name, c); }
  }

  lemma OtherStepSecure(s: State, r: Reg, name: string, q: Reg, c: Choice)
    requires Inv(s) && Secure(s, r, name) && q != r
    ensures Secure(Step(s, q, c), r, name)
  {
    AdvanceLocal(s, q, c);
    var s' := Step(s, q, c);
    if s.regs[r].Building() || s.regs[r].Succeeded? {
      assert q in s.regs ==> PlaceOk(s.rows, q, s.regs[q]);
      assert !(q in s.regs && s.regs[q].RollDb? && s.regs[q].name == name);
      assert !(q in s.rows && s.rows[q] == name);
      assert !DropPending(s', name, r);
    }
  }

  lemma {:induction false} StaysSecure(s: State, r: Reg, name: string, steps: seq<(Reg, Choice)>)
    requires Inv(s) && Secure(s, r, name)
    ensures Inv(RunFrom(s, steps)) && Secure(RunFrom(s, steps), r, name)
  {
    if steps != [] {
      hide Step, Inv, Secure;
      var n := |steps| - 1;
      StaysSecure(s, r, name, steps[..n]);
      StepKeeps(RunFrom(s, steps[..n]), steps[n].0, steps[n].1);
      if steps[n].0 == r {
        OwnStepSecure(RunFrom(s, steps[..n]), r, name, steps[n].1);
      } else {
        OtherStepSecure(RunFrom(s, steps[..n]), r, name, steps[n].0, steps[n].1);
      }
    }
  }

  // ------------------------------------------------------------ the end

  /** The statements a registration has left at most: each retry costs up to
      three and uses up a delay or the one heal. */
  function Left(pc: Pc): nat {
    match pc
    case Ready(_) => 3 * (BACKOFFS + 1) + 6
    case Creating(_, delays, healed) => 3 * (delays + if healed then 0 else 1) + 5
    case DropOrphan(_, delays, healed) => 3 * (delays + if healed then 0 else 1) + 4
    case Recreate(_, delays, healed) => 3 * (delays + if healed then 0 else 1) + 3
    case RollRow(_) => 2
    case RollDb(_, _) => 1
    case _ => 0
  }

  lemma RetriedGoesOn(name: string, delays: nat, healed: bool, outcome: Outcome)
    ensures Left(Retried(name, delays, healed, outcome)) < 3 * (delays + if healed then 0 else 1) + 3
  {
  }

  lemma AdvanceGoesOn(s: State, r: Reg, pc: Pc, outcome: Outcome)
    requires Left(pc) > 0
    ensures r in Advance(s, r, pc, outcome).regs && Left(Advance(s, r, pc, outcome).regs[r]) < Left(pc)
  {
    hide Retried;
    if pc.Building() { RetriedGoesOn(pc.name, pc.delays, pc.healed, outcome); }
  }

  lemma StepGoesOn(s: State, r: Reg, c: Choice)
    ensures Left(PcOf(Step(s, r, c), r, c.name)) < Left(PcOf(s, r, c.name)) || Left(PcOf(s, r, c.name)) == 0
  {
    hide Advance;
    if Left(PcOf(s, r, c.name)) > 0 { AdvanceGoesOn(s, r, PcOf(s, r, c.name), c.outcome); }
  }

  function OwnSteps(steps: seq<(Reg, Choice)>, r: Reg): nat {
    if steps == [] then 0 else OwnSteps(steps[..|steps| - 1], r) + if steps[|steps| - 1].0 == r then 1 else 0
  }

  /** Whatever PostgreSQL answers and whatever runs in between, a registration
      has ended after twenty-one statements of its own. */
  lemma {:induction false} RegistrationEnds(orphans: set<string>, steps: seq<(Reg, Choice)>, r: Reg, name: string)
    ensures var pc := PcOf(RunFrom(Start(orphans), steps), r, name);
            && Left(pc) <= (if OwnSteps(steps, r) < 21 then 21 - OwnSteps(steps, r) else 0)
            && (OwnSteps(steps, r) >= 21 ==> pc.Succeeded? || pc.Failed? || pc.Dead?)
  {
    if steps != [] {
      hide Step;
      var n := |steps| - 1;
      var s := RunFrom(Start(orphans), steps[..n]);
      RegistrationEnds(orphans, steps[..n], r, name);
      if steps[n].0 == r {
        StepGoesOn(s, r, steps[n].1);
        StaysBegun(s, r, steps[n].1);
      } else {
        PlaceMoves(s, steps[n].0, steps[n].1);
      }
    }
  }

  /** Busy templates r has met while building its database. */
  function BusyAnswers(orphans: set<string>, steps: seq<(Reg, Choice)>, r: Reg): nat {
    if steps == [] then 0
    else
      var n := |steps| - 1;
      BusyAnswers(orphans, steps[..n], r) + if BusyStep(RunFrom(Start(orphans), steps[..n]), r, steps[n]) then 1 else 0
  }

  predicate BusyStep(s: State, r: Reg, step: (Reg, Choice)) {
    step.0 == r && PcOf(s, r, step.1.name).Building() && !step.1.crash && step.1.outcome.InUse?
  }

  lemma BusyStepCounts(s: State, r: Reg, c: Choice)
    requires var pc := PcOf(Step(s, r, c), r, c.name); pc.Building()
    ensures var (pc, pc') := (PcOf(s, r, c.name), PcOf(Step(s, r, c), r, c.name));
            if pc.Building() then pc.delays == pc'.delays + (if BusyStep(s, r, (r, c)) then 1 else 0)
            else pc.Ready? && pc'.delays == 4
  {
  }

  predicate DelaysOk(s: State, r: Reg, busy: nat) {
    && (r !in s.regs || s.regs[r].Ready? ==> busy == 0)
    && (r in s.regs && s.regs[r].Building() ==> s.regs[r].delays + busy == 4)
  }

  lemma DelaysStep(s: State, r: Reg, step: (Reg, Choice), busy: nat)
    requires DelaysOk(s, r, busy)
    ensures DelaysOk(Step(s, step.0, step.1), r, busy + if BusyStep(s, r, step) then 1 else 0)
  {
    hide Step;
    var (q, c) := step;
    PlaceMoves(s, q, c);
    if q == r {
      StaysBegun(s, r, c);
      if Step(s, r, c).regs[r].Building() { BusyStepCounts(s, r, c); }
    }
  }

  lemma {:induction false} DelaysLeft(orphans: set<string>, steps: seq<(Reg, Choice)>, r: Reg)
    ensures DelaysOk(RunFrom(Start(orphans), steps), r, BusyAnswers(orphans, steps, r))
  {
    if steps != [] {
      hide Step, DelaysOk, BusyStep;
      var n := |steps| - 1;
      DelaysLeft(orphans, steps[..n], r);
      DelaysStep(RunFrom(Start(orphans), steps[..n]), r, steps[n], BusyAnswers(orphans, steps[..n], r));
    }
  }

  lemma StaysBegun(s: State, r: Reg, c: Choice)
    ensures r in Step(s, r, c).regs && !Step(s, r, c).regs[r].Ready?
  {
  }

  /** In every interleaving a registration that gives up because the template is
      busy has met exactly five busy templates. */
  lemma FifthBusyGivesUp(orphans: set<string>, steps: seq<(Reg, Choice)>, r: Reg, c: Choice)
    requires var s := RunFrom(Start(orphans), steps);
             BusyStep(s, r, (r, c)) && r in s.regs
    ensures var s := RunFrom(Start(orphans), steps);
            && (PcOf(Step(s, r, c), r, c.name).RollRow? <==> BusyAnswers(orphans, steps, r) + 1 == 5)
            && (PcOf(Step(s, r, c), r, c.name).Creating? <==> BusyAnswers(orphans, steps, r) + 1 < 5)
  {
    DelaysLeft(orphans, steps, r);
  }

  const GO := Choice("", Fine, false)

  /** The state right after r inserted its row. */
  function Inserted(s: State, r: Reg, name: string): State { Step(s, r, GO.(name := name)) }

  ghost predicate KeepsDatabase(s: State, r: Reg, name: string) {
    forall steps :: var e := RunFrom(s, steps);
                    r in e.regs && e.regs[r] == Succeeded(name) ==> name in e.dbs && e.dbs[name] == Some(r)
  }

  /** r builds its database, an older registration of the name drops it. */
  lemma DatabaseLost(s: State, r: Reg, name: string, q: Reg) returns (steps: seq<(Reg, Choice)>)
    requires r in s.regs && s.regs[r] == Creating(name, BACKOFFS, false)
    requires q in s.regs && q != r && s.regs[q].RollDb? && s.regs[q].name == name
    ensures var e := RunFrom(s, steps);
            r in e.regs && e.regs[r] == Succeeded(name) && name !in e.dbs
  {
    steps := if name !in s.dbs then [(r, GO)] else [(r, GO)] + [(r, GO)] + [(r, GO)];
    RunSnoc(s, [], (r, GO));
    RunSnoc(s, [(r, GO)], (r, GO));
    RunSnoc(s, [(r, GO)] + [(r, GO)], (r, GO));
    RunSnoc(s, steps, (q, GO));
    steps := steps + [(q, GO)];
  }

  /** Registration 0 fails at its CREATE and deletes its row; registration 1
      takes the name, builds its database and succeeds; then 0 drops it. */
  function LosingRun(name: string): seq<(Reg, Choice)> {
    var go := GO.(name := name);
    [(0, go)] + [(0, go.(outcome := Error(false)))] + [(0, go)] + [(1, go)] + [(1, go)] + [(0, go)]
  }

  lemma FirstInsert(name: string)
    ensures Step(State(map[], map[], map[]), 0, GO.(name := name))
         == State(map[0 := name], map[], map[0 := Creating(name, BACKOFFS, false)])
  {
  }

  /** From an empty start the dangerous moment is reached. */
  lemma PendingFromTheStart(name: string)
    ensures RunFrom(Start({}), LosingRun(name)[..3]) == State(map[], map[], map[0 := RollDb(name, true)])
    ensures DropPending(RunFrom(Start({}), LosingRun(name)[..3]), name, 1)
  {
    var go := GO.(name := name);
    var no := go.(outcome := Error(false));
    var start := Start({});
    assert start == State(map[], map[], map[]);
    var a := [(0, go)];
    var b := a + [(0, no)];
    var c := b + [(0, go)];
    assert LosingRun(name)[..3] == c;
    RunSnoc(start, [], (0, go));
    assert [] + [(0, go)] == a && RunFrom(start, []) == start;
    RunSnoc(start, a, (0, no));
    RunSnoc(start, b, (0, go));
    hide RunFrom;
    FirstInsert(name);
    CreateStep(RunFrom(start, a), map[], 0, name, BACKOFFS, false, Error(false));
    assert RunFrom(start, b) == State(map[0 := name], map[], map[0 := RollRow(name)]) by { hide Step; }
  }

  /** And the success that follows it loses its database. */
  lemma LostFromTheStart(name: string)
    ensures var e := RunFrom(Start({}), LosingRun(name));
            1 in e.regs && e.regs[1] == Succeeded(name) && e.rows == map[1 := name] && e.dbs == map[]
  {
    var go := GO.(name := name);
    var start := Start({});
    var c := LosingRun(name)[..3];
    var d := c + [(1, go)];
    var e := d + [(1, go)];
    assert LosingRun(name) == e + [(0, go)];
    PendingFromTheStart(name);
    RunSnoc(start, c, (1, go));
    RunSnoc(start, d, (1, go));
    assert RunFrom(start, e).dbs == map[name := Some(1)];
    RunSnoc(start, e, (0, go));
  }

  lemma RunSnoc(s: State, steps: seq<(Reg, Choice)>, last: (Reg, Choice))
    ensures RunFrom(s, steps + [last]) == Step(RunFrom(s, steps), last.0, last.1)
  {
    assert (steps + [last])[..|steps|] == steps;
  }

  /** Exactly when success can be relied on: a new registration keeps the
      database it succeeds with, in every continuation, if and only if at its
      insert no other registration of the name stands between deleting its row
      and dropping its database. */
  lemma SuccessKeepsDatabaseExactlyWhen(orphans: set<string>, steps: seq<(Reg, Choice)>, r: Reg, name: string)
    requires var s := RunFrom(Start(orphans), steps);
             r !in s.regs && !Taken(s.rows, name)
    ensures var s := RunFrom(Start(orphans), steps);
            KeepsDatabase(Inserted(s, r, name), r, name) <==> !DropPending(s, name, r)
  {
    Reachable(orphans, steps);
    var s := RunFrom(Start(orphans), steps);
    var s1 := Inserted(s, r, name);
    StepKeeps(s, r, GO.(name := name));
    assert s1.regs == s.regs[r := Creating(name, BACKOFFS, false)];
    if DropPending(s, name, r) {
      var q :| q in s.regs && q != r && s.regs[q].RollDb? && s.regs[q].name == name;
      var lost := DatabaseLost(s1, r, name, q);
      var e := RunFrom(s1, lost);
    } else {
      assert !DropPending(s1, name, r);
      forall more
        ensures var e := RunFrom(s1, more);
                r in e.regs && e.regs[r] == Succeeded(name) ==> name in e.dbs && e.dbs[name] == Some(r)
      {
        StaysSecure(s1, r, name, more);
      }
    }
  }

  // --------------------------------------------------- the running program

  /** Statements k up to n of registration r with the given answers, nobody in between. */
  function Alone(s: State, r: Reg, name: string, answers: nat -> Outcome, k: nat, n: nat): State
    requires k <= n
  {
    if k == n then s else Step(Alone(s, r, name, answers, k, n - 1), r, Choice(name, answers(n - 1), false))
  }

  lemma {:induction false} AloneJoin(s: State, r: Reg, name: string, answers: nat -> Outcome, k: nat, m: nat, n: nat)
    requires k <= m <= n
    ensures Alone(s, r, name, answers, k, n) == Alone(Alone(s, r, name, answers, k, m), r, name, answers, m, n)
  {
    hide Step;
    if m < n { AloneJoin(s, r, name, answers, k, m, n - 1); }
  }

  lemma AloneNext(s: State, r: Reg, name: string, answers: nat -> Outcome, k: nat, n: nat)
    requires k <= n
    ensures Alone(s, r, name, answers, k, k) == s
    ensures Alone(s, r, name, answers, k, n + 1)
         == Step(Alone(s, r, name, answers, k, n), r, Choice(name, answers(n), false))
  {
  }

  /** Where an attempt leaves a registration. */
  function Attempted(name: string, delays: nat, healed: bool, outcome: Outcome): Pc {
    if outcome.Fine? then Succeeded(name) else Retried(name, delays, healed, outcome)
  }

  lemma AttemptedAs(name: string, delays: nat, healed: bool, outcome: Outcome)
    ensures Attempted(name, delays, healed, outcome)
         == match outcome
            case Fine => Succeeded(name)
            case InUse => if delays == 0 then RollRow(name) else Creating(name, delays - 1, healed)
            case NoTemplate(heals) => if !healed && heals then Creating(name, delays, true) else RollRow(name)
            case Error(_) => RollRow(name)
  {
  }

  /** The insert of a free or a taken name. */
  lemma InsertStep(s: State, r: Reg, name: string, outcome: Outcome)
    requires r !in s.regs
    ensures Step(s, r, Choice(name, outcome, false))
         == if Taken(s.rows, name) || !outcome.Done() then s.(regs := s.regs[r := Failed(name, true)])
            else State(s.rows[r := name], s.dbs,
                       s.regs[r := if outcome.Fine? then Creating(name, BACKOFFS, false) else Failed(name, false)])
  {
  }

  /** The three statements of one attempt. */
  lemma CreateStep(s: State, g: map<Reg, Pc>, r: Reg, name: string, delays: nat, healed: bool, outcome: Outcome)
    requires s.regs == g[r := Creating(name, delays, healed)]
    ensures Step(s, r, Choice(name, outcome, false))
         == if name in s.dbs && outcome.Fine? then State(s.rows, s.dbs, g[r := DropOrphan(name, delays, healed)])
            else State(s.rows, if outcome.Done() && name !in s.dbs then s.dbs[name := Some(r)] else s.dbs,
                       g[r := Attempted(name, delays, healed, outcome)])
  {
  }

  lemma DropStep(s: State, g: map<Reg, Pc>, r: Reg, name: string, delays: nat, healed: bool, outcome: Outcome)
    requires s.regs == g[r := DropOrphan(name, delays, healed)]
    ensures Step(s, r, Choice(name, outcome, false))
         == State(s.rows, if outcome.Done() then s.dbs - {name} else s.dbs,
                  g[r := if outcome.Fine? then Recreate(name, delays, healed)
                       else Attempted(name, delays, healed, outcome)])
  {
  }

  lemma RecreateStep(s: State, g: map<Reg, Pc>, r: Reg, name: string, delays: nat, healed: bool, outcome: Outcome)
    requires s.regs == g[r := Recreate(name, delays, healed)] && name !in s.dbs
    ensures Step(s, r, Choice(name, outcome, false))
         == State(s.rows, if outcome.Done() then s.dbs[name := Some(r)] else s.dbs,
                  g[r := Attempted(name, delays, healed, outcome)])
  {
  }

  /** The two compensating statements in turn. */
  lemma RollSteps(s: State, g: map<Reg, Pc>, r: Reg, name: string, deleteRow: Outcome, dropDb: Outcome)
    requires s.regs == g[r := RollRow(name)]
    ensures Step(Step(s, r, Choice(name, deleteRow, false)), r, Choice(name, dropDb, false))
         == State(if deleteRow.Done() then s.rows - {r} else s.rows,
                  if dropDb.Done() then s.dbs - {name} else s.dbs,
                  g[r := Failed(name, deleteRow.Done() && dropDb.Done())])
  {
  }

  /** How many attempts met a busy template, and how many a missing one that was healed. */
  function Busy(attempts: seq<Outcome>): nat {
    if attempts == [] then 0
    else Busy(attempts[..|attempts| - 1]) + if attempts[|attempts| - 1].InUse? then 1 else 0
  }

  function Heals(attempts: seq<Outcome>): nat {
    if attempts == [] then 0
    else Heals(attempts[..|attempts| - 1]) + if attempts[|attempts| - 1] == NoTemplate(true) then 1 else 0
  }

  /** Attempts after which another one follows: the template was busy, at most
      four times, or missing and healed, once. */
  predicate CanRetry(attempts: seq<Outcome>) {
    && (forall i :: 0 <= i < |attempts| ==> attempts[i].InUse? || attempts[i] == NoTemplate(true))
    && Busy(attempts) <= 4 && Heals(attempts) <= 1
  }

  /** The policy: retry as long as that allows it.  Success is a last attempt that
      returned; giving up is a fifth busy template, a template that could not be
      healed or was missing again, or any other error. */
  predicate RetryPolicy(attempts: seq<Outcome>, ok: bool) {
    && attempts != [] && CanRetry(attempts[..|attempts| - 1])
    && match attempts[|attempts| - 1]
       case Fine => ok
       case Error(_) => !ok
       case InUse => !ok && Busy(attempts) == 5
       case NoTemplate(heals) => !ok && (heals ==> Heals(attempts) == 2)
  }

  lemma Counts(attempts: seq<Outcome>, last: Outcome)
    ensures (attempts + [last])[..|attempts|] == attempts
    ensures Busy(attempts + [last]) == Busy(attempts) + if last.InUse? then 1 else 0
    ensures Heals(attempts + [last]) == Heals(attempts) + if last == NoTemplate(true) then 1 else 0
  {
    assert (attempts + [last])[..|attempts|] == attempts;
  }

  lemma {:induction false} RetriesBound(attempts: seq<Outcome>)
    requires forall i :: 0 <= i < |attempts| ==> attempts[i].InUse? || attempts[i] == NoTemplate(true)
    ensures |attempts| == Busy(attempts) + Heals(attempts)
  {
    if attempts != [] { RetriesBound(attempts[..|attempts| - 1]); }
  }

  /** What one more attempt means for the policy. */
  lemma NextAttempt(attempts: seq<Outcome>, last: Outcome)
    requires CanRetry(attempts)
    ensures |attempts| == Busy(attempts) + Heals(attempts) <= 5
    ensures var all := attempts + [last];
            && Busy(all) == Busy(attempts) + (if last.InUse? then 1 else 0)
            && Heals(all) == Heals(attempts) + (if last == NoTemplate(true) then 1 else 0)
            && (last.InUse? && Busy(attempts) < 4 ==> CanRetry(all))
            && (last == NoTemplate(true) && Heals(attempts) == 0 ==> CanRetry(all))
            && (last.Fine? ==> RetryPolicy(all, true))
            && (last.Error? || last == NoTemplate(false) ==> RetryPolicy(all, false))
            && (last.InUse? && Busy(attempts) == 4 ==> RetryPolicy(all, false))
            && (last == NoTemplate(true) && Heals(attempts) == 1 ==> RetryPolicy(all, false))
  {
    Counts(attempts, last);
    RetriesBound(attempts);
    hide Busy, Heals;
  }

  /** Attempt j ended with the answer to statement ends[j]. */
  predicate Ends(attempts: seq<Outcome>, ends: seq<nat>, answers: nat -> Outcome, k: nat, n: nat) {
    |ends| == |attempts| && forall j :: 0 <= j < |ends| ==> k <= ends[j] < n && attempts[j] == answers(ends[j])
  }

  lemma NoAttempts(answers: nat -> Outcome, k: nat)
    ensures CanRetry([]) && Busy([]) == Heals([]) == 0 && Ends([], [], answers, k, k)
  {
  }

  lemma NextEnd(attempts: seq<Outcome>, ends: seq<nat>, answers: nat -> Outcome, k: nat, m: nat, n: nat)
    requires Ends(attempts, ends, answers, k, m) && k <= m < n
    ensures Ends(attempts + [answers(n - 1)], ends + [n - 1], answers, k, n)
  {
  }

  lemma PlainAttempts(attempts: seq<Outcome>, ends: seq<nat>, answers: nat -> Outcome, k: nat, n: nat)
    requires Ends(attempts, ends, answers, k, n)
    requires forall i :: k <= i < n ==> answers(i).Fine? || answers(i).InUse?
    ensures forall j :: 0 <= j < |attempts| ==> attempts[j].Fine? || attempts[j].InUse?
  {
    forall j | 0 <= j < |attempts| ensures attempts[j].Fine? || attempts[j].InUse? {
      assert attempts[j] == answers(ends[j]);
    }
  }

  /** Giving up after nothing but busy templates takes exactly five of them. */
  lemma OnlyBusy(attempts: seq<Outcome>)
    requires RetryPolicy(attempts, false)
    requires forall j :: 0 <= j < |attempts| ==> attempts[j].Fine? || attempts[j].InUse?
    ensures |attempts| == Busy(attempts) == 5
  {
    hide Busy, Heals;
    var (before, last) := (attempts[..|attempts| - 1], attempts[|attempts| - 1]);
    assert attempts == before + [last];
    assert last == attempts[|attempts| - 1];
    NextAttempt(before, last);
    NoHeals(before);
  }

  lemma {:induction false} NoHeals(attempts: seq<Outcome>)
    requires forall j :: 0 <= j < |attempts| ==> attempts[j].Fine? || attempts[j].InUse?
    ensures Heals(attempts) == 0
  {
    if attempts != [] { NoHeals(attempts[..|attempts| - 1]); }
  }

  /** The two tables as one registration uses them while no other one moves.
      The k-th statement of a registration ends as `answers(k)` says; each method
      is proved to be a run of the statements above, from any state whose tables
      these are. */
  class AuthService {
    var rows: map<Reg, string>
    var dbs: map<string, Option<Reg>>

    constructor (orphans: set<string>)
      ensures rows == map[] && dbs == Start(orphans).dbs
    {
      rows, dbs := map[], map n | n in orphans :: None;
    }

    ghost predicate Shows(s: State)
      reads this
    {
      rows == s.rows && dbs == s.dbs
    }

    /** One pass through the `try` block: an existing database is dropped and created again. */
    method CreateOnce(r: Reg, name: string, answers: nat -> Outcome, k: nat, ghost s: State, ghost g: map<Reg, Pc>,
                      ghost delays: nat, ghost healed: bool)
      returns (outcome: Outcome, n: nat)
      requires Shows(s) && s.regs == g[r := Creating(name, delays, healed)]
      modifies this`dbs
      ensures k < n <= k + 3 && outcome == answers(n - 1)
      ensures Alone(s, r, name, answers, k, n) == State(rows, dbs, g[r := Attempted(name, delays, healed, outcome)])
      ensures outcome.Fine? ==> name in dbs && dbs[name] == Some(r)
      ensures outcome.Fine? <==> answers(k).Fine? && (name in old(dbs) ==> answers(k + 1).Fine? && answers(k + 2).Fine?)
      ensures dbs - {name} == old(dbs) - {name}
    {
      hide Alone, Step, Retried;
      var create := answers(k);
      n := k + 1;
      AloneNext(s, r, name, answers, k, k);
      AloneNext(s, r, name, answers, k, k + 1);
      AloneNext(s, r, name, answers, k, k + 2);
      CreateStep(s, g, r, name, delays, healed, create);
      if name !in dbs {
        if create.Done() {
          dbs := dbs[name := Some(r)];
        }
        return create, n;
      }
      if !create.Fine? {
        return create, n;
      }
      var drop := answers(k + 1);
      n := k + 2;
      DropStep(Alone(s, r, name, answers, k, k + 1), g, r, name, delays, healed, drop);
      if drop.Done() {
        dbs := dbs - {name};
      }
      if !drop.Fine? {
        return drop, n;
      }
      var again := answers(k + 2);
      n := k + 3;
      RecreateStep(Alone(s, r, name, answers, k, k + 2), g, r, name, delays, healed, again);
      if again.Done() {
        dbs := dbs[name := Some(r)];
      }
      return again, n;
    }

    /** `_create_tenant_database`, with how each attempt ended: it follows the retry
        policy; at most six attempts, five when the template never had to be
        healed; on success the database is this registration's; no other name is touched. */
    method CreateTenantDatabase(r: Reg, name: string, answers: nat -> Outcome, k: nat, ghost s: State,
                                ghost g: map<Reg, Pc>)
      returns (ok: bool, attempts: seq<Outcome>, ends: seq<nat>, n: nat)
      requires Shows(s) && s.regs == g[r := Creating(name, BACKOFFS, false)]
      modifies this`dbs
      ensures n > k
      ensures Alone(s, r, name, answers, k, n)
           == State(rows, dbs, g[r := if ok then Succeeded(name) else RollRow(name)])
      ensures RetryPolicy(attempts, ok) && Ends(attempts, ends, answers, k, n)
      ensures answers(k).Fine? && answers(k + 1).Fine? && answers(k + 2).Fine? ==> ok && |attempts| == 1
      ensures ok ==> name in dbs && dbs[name] == Some(r)
      ensures dbs - {name} == old(dbs) - {name}
    {
      NoAttempts(answers, k);
      hide Alone, Step, Retried, Busy, Heals, CanRetry, RetryPolicy, Ends, Attempted;
      attempts, ends, n := [], [], k;
      AloneNext(s, r, name, answers, k, k);
      var (healed, delays) := (false, BACKOFFS);
      ghost var now := s;
      while true
        invariant CanRetry(attempts) && Busy(attempts) + delays == 4 && Heals(attempts) == (if healed then 1 else 0)
        invariant Ends(attempts, ends, answers, k, n)
        invariant if attempts == [] then n == k
                  else !(answers(k).Fine? && answers(k + 1).Fine? && answers(k + 2).Fine?)
        invariant n >= k && Alone(s, r, name, answers, k, n) == now
        invariant now == State(rows, dbs, g[r := Creating(name, delays, healed)])
        invariant dbs - {name} == old(dbs) - {name}
        decreases delays + (if healed then 0 else 1)
      {
        ghost var m := n;
        var outcome;
        outcome, n := CreateOnce(r, name, answers, n, now, g, delays, healed);
        AttemptedAs(name, delays, healed, outcome);
        AloneJoin(s, r, name, answers, k, m, n);
        now := Alone(s, r, name, answers, k, n);
        NextAttempt(attempts, outcome);
        NextEnd(attempts, ends, answers, k, m, n);
        attempts, ends := attempts + [outcome], ends + [n - 1];
        match outcome
        case Fine => return true, attempts, ends, n;
        case Error(_) => return false, attempts, ends, n;
        case InUse =>
          if delays == 0 {
            return false, attempts, ends, n;
          }
          delays := delays - 1;
        case NoTemplate(heals) =>
          if healed || !heals {
            return false, attempts, ends, n;
          }
          healed := true;
      }
    }

    /** `_rollback_user_row`, then `_drop_tenant_database`; neither raises. */
    method RollBack(r: Reg, name: string, deleteRow: Outcome, dropDb: Outcome, ghost s: State, ghost g: map<Reg, Pc>)
      returns (clean: bool)
      requires Shows(s) && s.regs == g[r := RollRow(name)]
      modifies this
      ensures clean == (deleteRow.Done() && dropDb.Done())
      ensures Step(Step(s, r, Choice(name, deleteRow, false)), r, Choice(name, dropDb, false))
           == State(rows, dbs, g[r := Failed(name, clean)])
      ensures rows == if deleteRow.Done() then old(rows) - {r} else old(rows)
      ensures dbs == if dropDb.Done() then old(dbs) - {name} else old(dbs)
    {
      hide Step;
      RollSteps(s, g, r, name, deleteRow, dropDb);
      clean := true;
      if deleteRow.Done() {
        rows := rows - {r};
      } else {
        clean := false;
      }
      if dropDb.Done() {
        dbs := dbs - {name};
      } else {
        clean := false;
      }
    }

    /** The `try` block of `register_user` and its compensation, from statement k on. */
    method Provision(r: Reg, name: string, answers: nat -> Outcome, k: nat, ghost s: State, ghost g: map<Reg, Pc>)
      returns (ok: bool, n: nat, clean: bool, attempts: seq<Outcome>)
      requires Shows(s) && s.regs == g[r := Creating(name, BACKOFFS, false)]
      modifies this
      ensures n >= k + 1 && (!ok ==> n >= k + 2)
      ensures Alone(s, r, name, answers, k, n)
           == State(rows, dbs, g[r := if ok then Succeeded(name) else Failed(name, clean)])
      ensures RetryPolicy(attempts, ok)
      ensures answers(k).Fine? && answers(k + 1).Fine? && answers(k + 2).Fine? ==> ok
      ensures !ok && (forall i :: k <= i < n - 2 ==> answers(i).Fine? || answers(i).InUse?)
          ==> |attempts| == 5 && Busy(attempts) == 5
      ensures ok ==> rows == old(rows) && name in dbs && dbs[name] == Some(r)
      ensures !ok ==> rows == (if answers(n - 2).Done() then old(rows) - {r} else old(rows))
                      && (answers(n - 1).Done() ==> name !in dbs)
      ensures dbs - {name} == old(dbs) - {name}
    {
      hide Alone, Step, Retried, Created, Busy, RetryPolicy;
      var ends;
      ok, attempts, ends, n := CreateTenantDatabase(r, name, answers, k, s, g);
      ghost var built := Alone(s, r, name, answers, k, n);
      clean := false;
      if ok {
        return;
      }
      AloneNext(s, r, name, answers, k, n);
      AloneNext(s, r, name, answers, k, n + 1);
      if forall i :: k <= i < n ==> answers(i).Fine? || answers(i).InUse? {
        PlainAttempts(attempts, ends, answers, k, n);
        OnlyBusy(attempts);
      }
      clean := RollBack(r, name, answers(n), answers(n + 1), built, g);
      n := n + 2;
    }

    /** `register_user`, in `n` statements.  Success leaves the row and the
        database; failure after compensation leaves neither; a name already taken
        leaves everything as it was; an insert whose answer is lost leaves its row. */
    method RegisterUser(r: Reg, name: string, answers: nat -> Outcome, ghost s: State)
      returns (ok: bool, n: nat, clean: bool, attempts: seq<Outcome>)
      requires Shows(s) && r !in rows && r !in s.regs
      modifies this
      ensures Alone(s, r, name, answers, 0, n)
           == State(rows, dbs, s.regs[r := if ok then Succeeded(name) else Failed(name, clean)])
      ensures ok ==> !Taken(old(rows), name) && rows == old(rows)[r := name] && name in dbs && dbs[name] == Some(r)
      ensures !Taken(old(rows), name) && (forall k: nat :: k < 4 ==> answers(k).Fine?) ==> ok
      ensures !Taken(old(rows), name) && answers(0).Fine? ==> RetryPolicy(attempts, ok)
      ensures !Taken(old(rows), name) && answers(0).Fine? && !ok
              && (forall i :: 1 <= i < n - 2 ==> answers(i).Fine? || answers(i).InUse?)
          ==> |attempts| == 5 && Busy(attempts) == 5
      ensures Taken(old(rows), name) ==> !ok && rows == old(rows) && dbs == old(dbs)
      ensures !Taken(old(rows), name) && !answers(0).Fine? ==>
                !ok && dbs == old(dbs) && rows == if answers(0).Done() then old(rows)[r := name] else old(rows)
      ensures !Taken(old(rows), name) && answers(0).Fine? && !ok ==>
                && n >= 2
                && rows == (if answers(n - 2).Done() then old(rows) else old(rows)[r := name])
                && (answers(n - 1).Done() ==> name !in dbs)
      ensures dbs - {name} == old(dbs) - {name}
    {
      hide Alone, Step, Retried, Created, Taken, Busy, RetryPolicy;
      n := 1;
      ghost var first := Step(s, r, Choice(name, answers(0), false));
      AloneNext(s, r, name, answers, 0, 0);
      InsertStep(s, r, name, answers(0));
      if Taken(rows, name) {
        return false, n, true, [];
      }
      if answers(0).Done() {
        rows := rows[r := name];
      }
      if !answers(0).Fine? {
        return false, n, !answers(0).Done(), [];
      }
      ok, n, clean, attempts := Provision(r, name, answers, 1, first, s.regs);
      AloneJoin(s, r, name, answers, 0, 1, n);
    }
  }
}

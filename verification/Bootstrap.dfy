/** Repair of the main schema and of the database every tenant is cloned from
    (backend/app/db/bootstrap.py:93-204), run by any number of processes that
    may die between any two statements. */
module Bootstrap {
  import opened Wrappers

  /** `tenant_template`: which creation it stems from, its IS_TEMPLATE flag and
      whether its schema is there. */
  datatype Template = Template(oid: nat, flagged: bool, schema: bool)

  datatype Cluster = Cluster(users: bool, template: Option<Template>, nextOid: nat)

  datatype Label = Ok | MissingUsers | MissingTemplate

  type Process = nat

  /** What `check_schema` returned. */
  datatype Status = Status(users: bool, template: bool, flagged: bool)

  datatype Pc =
    | Idle
    | CheckUsers                          // check_schema, first query
    | CheckTemplate(users: bool)          // check_schema, second query
    | FixUsers(thenTemplate: bool)        // ensure_main_schema
    | WantLock                            // pg_advisory_lock
    | ReadRow                             // the remaining places up to Unlock hold it
    | Create
    | Probe(flagged: bool)                // _template_has_schema
    | Apply(created: Option<nat>, flagged: bool)
    | DropCreated(oid: nat)
    | Mark                                // ALTER DATABASE ... IS_TEMPLATE
    | Unlock(done: bool)
    | LastUsers                           // final check_schema
    | LastTemplate(users: bool)
    | Finished(answer: Label, repaired: bool)
    | Raised
  {
    predicate Holds() { ReadRow? || Create? || Probe? || Apply? || DropCreated? || Mark? || Unlock? }
  }

  datatype State = State(db: Cluster, lock: Option<Process>, procs: map<Process, Pc>)

  /** The process dies before its next statement, or the statement runs: `ok`
      says whether it returns, and one that raises may have taken effect all the
      same (`done`).  `sqlFound` says whether the bundled SQL files exist and
      `superuser` whether the role may set the flag. */
  datatype Choice = Choice(crash: bool, ok: bool, done: bool, sqlFound: bool, superuser: bool)
  {
    predicate Effect() { ok || done }
  }

  function StatusLabel(users: bool, template: bool): (name: Label)
    ensures name == MissingUsers <==> !users
    ensures name == MissingTemplate <==> users && !template
  {
    if !users then MissingUsers else if !template then MissingTemplate else Ok
  }

  function Decide(st: Status, sqlFound: bool): Pc {
    if st.users && st.template && st.flagged then Finished(Ok, true)
    else if !sqlFound then Finished(StatusLabel(st.users, st.template), false)
    else if !st.users then FixUsers(!st.template || !st.flagged)
    else WantLock
  }

  predicate HasSchema(db: Cluster) { db.template.Some? && db.template.value.schema }

  predicate Flagged(db: Cluster) { db.template.Some? && db.template.value.flagged }

  function WithSchema(db: Cluster): Cluster {
    if db.template.Some? then db.(template := Some(db.template.value.(schema := true))) else db
  }

  function WithFlag(db: Cluster): Cluster {
    if db.template.Some? then db.(template := Some(db.template.value.(flagged := true))) else db
  }

  function WithTemplate(db: Cluster): Cluster {
    db.(template := Some(Template(db.nextOid, false, false)), nextOid := db.nextOid + 1)
  }

  /** One statement.  Applying a schema file is one implicit transaction, so it
      happens whole or not at all; PostgreSQL refuses to drop a flagged database. */
  function Advance(db: Cluster, pc: Pc, c: Choice): (Cluster, Pc) {
    match pc
    case Idle => (db, CheckUsers)
    case CheckUsers => (db, if c.ok then CheckTemplate(db.users) else Raised)
    case CheckTemplate(users) =>
      (db, if c.ok then Decide(Status(users, db.template.Some?, Flagged(db)), c.sqlFound) else Raised)
    case FixUsers(next) =>
      (if c.Effect() then db.(users := true) else db, if !c.ok then Raised else if next then WantLock else LastUsers)
    case WantLock => (db, if c.ok then ReadRow else Raised)
    case ReadRow =>
      (db, if !c.ok then Unlock(false) else if db.template.None? then Create else Probe(Flagged(db)))
    case Create =>
      (if c.Effect() then WithTemplate(db) else db, if c.ok then Apply(Some(db.nextOid), false) else Unlock(false))
    case Probe(flagged) =>
      (db,
       if !c.ok then Unlock(false)
       else if !HasSchema(db) then Apply(None, flagged)
       else if flagged then Unlock(true)
       else Mark)
    case Apply(created, flagged) =>
      (if c.Effect() then WithSchema(db) else db,
       if c.ok then (if flagged then Unlock(true) else Mark)
       else if created.Some? then DropCreated(created.value)
       else Unlock(false))
    case DropCreated(_) => (if c.Effect() && !Flagged(db) then db.(template := None) else db, Unlock(false))
    case Mark => (if c.Effect() && c.superuser then WithFlag(db) else db, Unlock(c.ok))
    case Unlock(done) => (db, if done && c.ok then LastUsers else Raised)
    case LastUsers => (db, if c.ok then LastTemplate(db.users) else Raised)
    case LastTemplate(users) => (db, if c.ok then Finished(StatusLabel(users, db.template.Some?), true) else Raised)
    case Finished(_, _) | Raised => (db, Idle)
  }

  function PcOf(s: State, p: Process): Pc { if p in s.procs then s.procs[p] else Idle }

  function Relock(lock: Option<Process>, p: Process, had: bool, has: bool): Option<Process> {
    if has then Some(p) else if had then None else lock
  }

  /** A step of process p.  A session's end frees its advisory lock; a process
      that asks for the lock while another holds it waits. */
  function Step(s: State, p: Process, c: Choice): State {
    var pc := PcOf(s, p);
    var (db, pc') := if c.crash then (s.db, Idle) else Advance(s.db, pc, c);
    if pc'.Holds() && !pc.Holds() && s.lock.Some? then s
    else State(db, Relock(s.lock, p, pc.Holds(), pc'.Holds()), s.procs[p := pc'])
  }

  function Run(start: Cluster, steps: seq<(Process, Choice)>): State {
    if steps == [] then State(start, None, map[])
    else Step(Run(start, steps[..|steps| - 1]), steps[|steps| - 1].0, steps[|steps| - 1].1)
  }

  lemma RunSnoc(start: Cluster, steps: seq<(Process, Choice)>, last: (Process, Choice))
    ensures Run(start, steps + [last]) == Step(Run(start, steps), last.0, last.1)
  {
    assert (steps + [last])[..|steps|] == steps;
  }

  // ---------------------------------------------------------- the invariant

  predicate FlagOk(db: Cluster) { Flagged(db) ==> HasSchema(db) }

  /** The holder of the lock is about to drop the template it created. */
  predicate AtRisk(s: State) { s.lock.Some? && PcOf(s, s.lock.value).DropCreated? }

  predicate Settled(db: Cluster, risk: bool) { HasSchema(db) && !risk }

  /** What a process knows at each place. */
  predicate Knows(db: Cluster, risk: bool, pc: Pc) {
    match pc
    case CheckTemplate(users) => users ==> db.users
    case FixUsers(next) => !next ==> Settled(db, risk) && Flagged(db)
    case WantLock => db.users
    case ReadRow => db.users
    case Create => db.users && db.template.None?
    case Probe(flagged) => db.users && db.template.Some? && Flagged(db) == flagged
    case Apply(created, flagged) =>
      && db.users && db.template.Some? && !HasSchema(db) && Flagged(db) == flagged
      && (created.Some? ==> db.template.value.oid == created.value && !flagged)
    case DropCreated(oid) => db.users && db.template.Some? && db.template.value.oid == oid && !Flagged(db)
    case Mark => db.users && HasSchema(db)
    case Unlock(done) => db.users && (done ==> HasSchema(db))
    case LastUsers => db.users && Settled(db, risk)
    case LastTemplate(users) => users && db.users && Settled(db, risk)
    case Finished(answer, repaired) => repaired ==> answer == Ok && db.users && Settled(db, risk)
    case _ => true
  }

  /** What one process does leaves true what others know outside the lock. */
  predicate Grows(db: Cluster, risk: bool, db': Cluster, risk': bool) {
    (db.users ==> db'.users) && (Flagged(db) ==> Flagged(db')) && (Settled(db, risk) ==> Settled(db', risk'))
  }

  ghost predicate Inv(s: State) {
    && FlagOk(s.db)
    && (forall p: nat :: PcOf(s, p).Holds() <==> s.lock == Some(p))
    && (forall p: nat :: Knows(s.db, AtRisk(s), PcOf(s, p)))
  }

  function RiskAfter(risk: bool, pc: Pc, pc': Pc): bool { if pc.Holds() || pc'.Holds() then pc'.DropCreated? else risk }

  /** One statement keeps flagged-implies-schema and what its process knows, never
      takes back a users table or a settled schema, and changes the template only
      under the lock. */
  lemma AdvanceOk(db: Cluster, risk: bool, pc: Pc, c: Choice)
    requires FlagOk(db) && Knows(db, risk, pc)
    requires risk ==> db.template.Some? && !Flagged(db)
    requires pc.Holds() ==> risk == pc.DropCreated?
    ensures var (db', pc') := Advance(db, pc, c);
            var risk' := RiskAfter(risk, pc, pc');
            && FlagOk(db') && Knows(db', risk', pc') && Grows(db, risk, db', risk')
            && (!pc.Holds() ==> db'.template == db.template)
  {
  }

  lemma KnowsStill(db: Cluster, risk: bool, db': Cluster, risk': bool, pc: Pc)
    requires Knows(db, risk, pc) && Grows(db, risk, db', risk') && (pc.Holds() ==> db.template == db'.template)
    ensures Knows(db', risk', pc)
  {
  }

  lemma RiskUnflagged(s: State)
    requires Inv(s) && AtRisk(s)
    ensures s.db.template.Some? && !Flagged(s.db)
  {
    assert Knows(s.db, true, PcOf(s, s.lock.value));
  }

  lemma StepKeeps(s: State, p: Process, c: Choice)
    requires Inv(s)
    ensures var s' := Step(s, p, c); Inv(s') && Grows(s.db, AtRisk(s), s'.db, AtRisk(s'))
  {
    hide Advance, FlagOk, Grows, Knows;
    var (pc, s') := (PcOf(s, p), Step(s, p, c));
    if AtRisk(s) { RiskUnflagged(s); }
    AdvanceOk(s.db, AtRisk(s), pc, c);
    CrashGrows(s.db, AtRisk(s));
    if !c.crash && s' != s {
      assert AtRisk(s') == RiskAfter(AtRisk(s), pc, Advance(s.db, pc, c).1);
    }
    assert Grows(s.db, AtRisk(s), s'.db, AtRisk(s'));
    forall q: nat ensures Knows(s'.db, AtRisk(s'), PcOf(s', q)) {
      assert Knows(s.db, AtRisk(s), PcOf(s, q));
      if q != p {
        KnowsStill(s.db, AtRisk(s), s'.db, AtRisk(s'), PcOf(s, q));
      } else if c.crash {
        IdleKnows(s'.db, AtRisk(s'));
      }
    }
  }

  lemma CrashGrows(db: Cluster, risk: bool)
    ensures Grows(db, risk, db, false) && Grows(db, risk, db, risk)
  {
  }

  lemma IdleKnows(db: Cluster, risk: bool)
    ensures Knows(db, risk, Idle)
  {
  }

  lemma {:induction false} Reachable(start: Cluster, steps: seq<(Process, Choice)>)
    requires FlagOk(start)
    ensures Inv(Run(start, steps))
  {
    if steps != [] {
      hide Advance, Knows, Grows;
      var n := |steps| - 1;
      Reachable(start, steps[..n]);
      StepKeeps(Run(start, steps[..n]), steps[n].0, steps[n].1);
    }
  }

  // --------------------------------------------------------------- theorems

  /** From a start where a flagged template has its schema: whatever processes
      do, whatever raises, with or without having taken effect, and wherever they
      die, a flagged template has its schema, and a process that ends after
      repairing ends with "ok", the users table and a schema nobody is about to drop. */
  lemma RepairIsSafe(start: Cluster, steps: seq<(Process, Choice)>, p: Process)
    requires FlagOk(start)
    ensures var s := Run(start, steps);
            && (Flagged(s.db) ==> HasSchema(s.db))
            && (PcOf(s, p).Finished? && PcOf(s, p).repaired ==>
                  PcOf(s, p).answer == Ok && s.db.users && HasSchema(s.db) && !AtRisk(s))
  {
    Reachable(start, steps);
    assert Knows(Run(start, steps).db, AtRisk(Run(start, steps)), PcOf(Run(start, steps), p));
  }

  /** Once there, the users table stays, and so does the template's schema unless
      the process that created the template is about to drop it. */
  lemma {:induction false} RepairIsPermanent(start: Cluster, steps: seq<(Process, Choice)>,
                                             more: seq<(Process, Choice)>)
    requires FlagOk(start)
    ensures var (s, e) := (Run(start, steps), Run(start, steps + more));
            && (s.db.users ==> e.db.users)
            && (HasSchema(s.db) && !AtRisk(s) ==> HasSchema(e.db) && !AtRisk(e))
  {
    hide Step, Inv, AtRisk;
    if more == [] {
      assert steps + more == steps;
    } else {
      var n := |more| - 1;
      RepairIsPermanent(start, steps, more[..n]);
      assert (steps + more)[..|steps| + n] == steps + more[..n];
      assert (steps + more)[|steps| + n] == more[n];
      Reachable(start, steps + more[..n]);
      StepKeeps(Run(start, steps + more[..n]), more[n].0, more[n].1);
    }
  }

  const GO := Choice(false, true, false, true, true)

  ghost predicate SchemaStays(start: Cluster, steps: seq<(Process, Choice)>) {
    forall more :: HasSchema(Run(start, steps + more).db)
  }

  /** Exactly when a schema is there to stay: it is there and the lock holder is
      not about to drop it.  A schema seen while the lock is free qualifies. */
  lemma SchemaStaysExactlyWhen(start: Cluster, steps: seq<(Process, Choice)>)
    requires FlagOk(start)
    ensures SchemaStays(start, steps) <==> HasSchema(Run(start, steps).db) && !AtRisk(Run(start, steps))
  {
    var s := Run(start, steps);
    if !HasSchema(s.db) {
      assert steps + [] == steps;
    } else if AtRisk(s) {
      Reachable(start, steps);
      RiskUnflagged(s);
      var drop := (s.lock.value, GO);
      RunSnoc(start, steps, drop);
      assert !HasSchema(Run(start, steps + [drop]).db);
    } else {
      forall more ensures HasSchema(Run(start, steps + more).db) {
        RepairIsPermanent(start, steps, more);
      }
    }
  }

  /** From step k on process p has held the lock, which it used to create `oid`. */
  ghost predicate CreatedInThisHold(start: Cluster, steps: seq<(Process, Choice)>, p: Process, oid: nat, k: nat) {
    && k < |steps| && steps[k].0 == p
    && PcOf(Run(start, steps[..k]), p) == Create && Run(start, steps[..k]).db.nextOid == oid
    && forall j :: k <= j <= |steps| ==> PcOf(Run(start, steps[..j]), p).Holds()
  }

  predicate MayDrop(pc: Pc, oid: nat) { pc == DropCreated(oid) || (pc.Apply? && pc.created == Some(oid)) }

  lemma MayDropBefore(db: Cluster, pc: Pc, c: Choice, oid: nat)
    requires MayDrop(Advance(db, pc, c).1, oid)
    ensures MayDrop(pc, oid) || (pc == Create && db.nextOid == oid)
    ensures pc.Holds()
  {
  }

  lemma {:induction false} DropperCreated(start: Cluster, steps: seq<(Process, Choice)>, p: Process, oid: nat)
    returns (k: nat)
    requires MayDrop(PcOf(Run(start, steps), p), oid)
    ensures CreatedInThisHold(start, steps, p, oid, k)
  {
    hide Advance;
    var n := |steps| - 1;
    var s := Run(start, steps[..n]);
    assert steps[..|steps|] == steps;
    if MayDrop(PcOf(s, p), oid) {
      k := DropperCreated(start, steps[..n], p, oid);
      assert forall j :: 0 <= j <= n ==> steps[..n][..j] == steps[..j];
    } else {
      MayDropBefore(s.db, PcOf(s, p), steps[n].1, oid);
      k := n;
    }
  }

  /** Step j is p's failed application of the schema to the template `oid`. */
  ghost predicate ApplyRaised(start: Cluster, steps: seq<(Process, Choice)>, p: Process, oid: nat, j: nat) {
    && j < |steps| && steps[j].0 == p && !steps[j].1.crash && !steps[j].1.ok
    && PcOf(Run(start, steps[..j]), p) == Apply(Some(oid), false)
  }

  lemma DropBefore(db: Cluster, risk: bool, pc: Pc, c: Choice, oid: nat)
    requires Knows(db, risk, pc) && Advance(db, pc, c).1 == DropCreated(oid)
    ensures pc == Apply(Some(oid), false) && !c.ok && (HasSchema(Advance(db, pc, c).0) <==> c.done)
  {
  }

  /** A process that is about to drop a template saw its application raise, and
      the template has a schema exactly if that application took effect all the same. */
  lemma {:induction false} DropCause(start: Cluster, steps: seq<(Process, Choice)>, p: Process, oid: nat)
    returns (j: nat)
    requires FlagOk(start) && PcOf(Run(start, steps), p) == DropCreated(oid)
    ensures ApplyRaised(start, steps, p, oid, j)
    ensures HasSchema(Run(start, steps).db) <==> steps[j].1.done
  {
    hide Advance, Knows;
    var n := |steps| - 1;
    var s := Run(start, steps[..n]);
    Reachable(start, steps[..n]);
    if PcOf(s, p) == DropCreated(oid) && (steps[n].0 != p || Step(s, p, steps[n].1) == s) {
      j := DropCause(start, steps[..n], p, oid);
      assert steps[..n][..j] == steps[..j];
      if s.db.template != Run(start, steps).db.template {
        assert !PcOf(s, steps[n].0).Holds();
        AdvanceOk(s.db, true, PcOf(s, steps[n].0), steps[n].1) by { RiskUnflagged(s); }
      }
    } else {
      if PcOf(s, p) == DropCreated(oid) { DropEnds(s.db, oid, steps[n].1); }
      DropBefore(s.db, AtRisk(s), PcOf(s, p), steps[n].1, oid);
      j := n;
    }
  }

  lemma DropEnds(db: Cluster, oid: nat, c: Choice)
    ensures Advance(db, DropCreated(oid), c).1 == Unlock(false)
  {
  }

  /** The one step that makes a template disappear drops a template that the same
      process created in the same hold of the lock, that was never flagged, and
      that has a schema only if applying it raised after having taken effect. */
  lemma DropsOnlyOwn(start: Cluster, steps: seq<(Process, Choice)>, p: Process, c: Choice) returns (k: nat, j: nat)
    requires FlagOk(start)
    requires var s := Run(start, steps);
             s.db.template.Some? && Step(s, p, c).db.template.None?
    ensures var s := Run(start, steps);
            && CreatedInThisHold(start, steps, p, s.db.template.value.oid, k) && !Flagged(s.db)
            && ApplyRaised(start, steps, p, s.db.template.value.oid, j) && (HasSchema(s.db) <==> steps[j].1.done)
  {
    Reachable(start, steps);
    var s := Run(start, steps);
    assert Knows(s.db, AtRisk(s), PcOf(s, p));
    k := DropperCreated(start, steps, p, s.db.template.value.oid);
    j := DropCause(start, steps, p, s.db.template.value.oid);
  }

  const BARE := Cluster(true, None, 0)

  const EMPTY := Cluster(true, Some(Template(0, false, false)), 1)

  /** A process finds no template, takes the lock and creates one. */
  function CreatingRun(p: Process): seq<(Process, Choice)> {
    [(p, GO)] + [(p, GO)] + [(p, GO)] + [(p, GO)] + [(p, GO)] + [(p, GO)]
  }

  lemma WantingFromTheStart(p: Process)
    ensures Run(BARE, CreatingRun(p)[..3]) == State(BARE, None, map[p := WantLock])
  {
    var a := [(p, GO)];
    var b := a + [(p, GO)];
    RunSnoc(BARE, [], (p, GO));
    assert [] + [(p, GO)] == a;
    assert Run(BARE, a) == State(BARE, None, map[p := CheckUsers]);
    RunSnoc(BARE, a, (p, GO));
    assert Run(BARE, b) == State(BARE, None, map[p := CheckTemplate(true)]);
    RunSnoc(BARE, b, (p, GO));
    assert CreatingRun(p)[..3] == b + [(p, GO)];
  }

  lemma CreatedFromTheStart(p: Process)
    ensures Run(BARE, CreatingRun(p)) == State(EMPTY, Some(p), map[p := Apply(Some(0), false)])
  {
    var c := CreatingRun(p)[..3];
    var d := c + [(p, GO)];
    var e := d + [(p, GO)];
    assert CreatingRun(p) == e + [(p, GO)];
    WantingFromTheStart(p);
    RunSnoc(BARE, c, (p, GO));
    assert Run(BARE, d) == State(BARE, Some(p), map[p := ReadRow]);
    RunSnoc(BARE, d, (p, GO));
    assert Run(BARE, e) == State(BARE, Some(p), map[p := Create]);
    RunSnoc(BARE, e, (p, GO));
  }

  /** A process creates the template and its schema script commits, but the
      answer is lost: the schema is there, and the next step takes it away. */
  lemma SchemaDropped(p: Process)
    ensures var s := Run(BARE, CreatingRun(p) + [(p, GO.(ok := false, done := true))]);
            && s.db == WithSchema(EMPTY) && AtRisk(s)
            && Step(s, p, GO).db == EMPTY.(template := None)
  {
    CreatedFromTheStart(p);
    RunSnoc(BARE, CreatingRun(p), (p, GO.(ok := false, done := true)));
  }

  /** Exactly when "ok" can be believed: in every interleaving, a process that
      just answered "ok" leaves a template with its schema unless it took the way
      out without SQL files while the template was unflagged and empty. */
  lemma OkMeansSchema(start: Cluster, steps: seq<(Process, Choice)>, p: Process, c: Choice)
    requires FlagOk(start)
    requires var s := Run(start, steps);
             !PcOf(s, p).Finished? && PcOf(Step(s, p, c), p).Finished? && PcOf(Step(s, p, c), p).answer == Ok
    ensures var s := Run(start, steps);
            HasSchema(Step(s, p, c).db)
            <==> !(PcOf(s, p).CheckTemplate? && !c.sqlFound && !Flagged(s.db) && !HasSchema(s.db))
  {
    Reachable(start, steps);
    var s := Run(start, steps);
    assert Knows(s.db, AtRisk(s), PcOf(s, p));
  }

  /** In every interleaving an answer without repair names what its checks found
      missing: the users table if the first one did, or else the template. */
  lemma LabelsNameWhatIsMissing(start: Cluster, steps: seq<(Process, Choice)>, p: Process, c: Choice)
    requires var s := Run(start, steps);
             PcOf(s, p).CheckTemplate? && PcOf(Step(s, p, c), p).Finished? && !PcOf(Step(s, p, c), p).repaired
    ensures var (s, answer) := (Run(start, steps), PcOf(Step(Run(start, steps), p, c), p).answer);
            && (answer == MissingUsers <==> !PcOf(s, p).users)
            && (answer == MissingTemplate <==> PcOf(s, p).users && s.db.template.None?)
            && !c.sqlFound
  {
  }

  /** Process 0 dies after its CREATE; process 1 has no SQL files and answers. */
  function DyingRun(): seq<(Process, Choice)> {
    CreatingRun(0) + [(0, GO.(crash := true))] + [(1, GO)] + [(1, GO)] + [(1, GO.(sqlFound := false))]
  }

  /** That run ends with "ok" although the template is empty. */
  lemma OkWithoutSchema()
    ensures var e := Run(BARE, DyingRun());
            PcOf(e, 1) == Finished(Ok, false) && e.db == EMPTY && !HasSchema(e.db)
  {
    var g := CreatingRun(0) + [(0, GO.(crash := true))];
    var h := g + [(1, GO)];
    var i := h + [(1, GO)];
    CreatedFromTheStart(0);
    RunSnoc(BARE, CreatingRun(0), (0, GO.(crash := true)));
    assert Run(BARE, g) == State(EMPTY, None, map[0 := Idle]);
    RunSnoc(BARE, g, (1, GO));
    assert Run(BARE, h) == State(EMPTY, None, map[0 := Idle, 1 := CheckUsers]);
    RunSnoc(BARE, h, (1, GO));
    assert Run(BARE, i) == State(EMPTY, None, map[0 := Idle, 1 := CheckTemplate(true)]);
    RunSnoc(BARE, i, (1, GO.(sqlFound := false)));
  }

  // --------------------------------------------------- a later clean run

  function EnsureTemplate(db: Cluster, superuser: bool): Cluster {
    var t := if db.template.Some? then db.template.value else Template(db.nextOid, false, false);
    Cluster(db.users, Some(Template(t.oid, t.flagged || superuser, true)),
            if db.template.Some? then db.nextOid else db.nextOid + 1)
  }

  /** `bootstrap_once` as a whole, when every statement returns. */
  function Bootstrapped(db: Cluster, sqlFound: bool, superuser: bool): (Cluster, Label) {
    if db.users && Flagged(db) then (db, Ok)
    else if !sqlFound then (db, StatusLabel(db.users, db.template.Some?))
    else
      var db1 := db.(users := true);
      var db2 := if Flagged(db) then db1 else EnsureTemplate(db1, superuser);
      (db2, StatusLabel(true, db2.template.Some?))
  }

  /** With the SQL files a run ends with everything there, and running again changes nothing. */
  lemma BootstrapRepairs(db: Cluster, superuser: bool)
    requires FlagOk(db)
    ensures var (db', answer) := Bootstrapped(db, true, superuser);
            && answer == Ok && db'.users && HasSchema(db') && FlagOk(db')
            && Bootstrapped(db', true, superuser) == (db', Ok)
  {
  }

  /** Every statement returns and the SQL files are there. */
  function Clean(superuser: bool): Choice { Choice(false, true, false, true, superuser) }

  function Alone(s: State, p: Process, superuser: bool, n: nat): State {
    if n == 0 then s else Step(Alone(s, p, superuser, n - 1), p, Clean(superuser))
  }

  /** Places on the way of a clean run, and the statements it has left at most. */
  predicate OnCourse(pc: Pc) {
    !pc.DropCreated? && !pc.Raised? && (pc.Unlock? ==> pc.done) && (pc.Finished? ==> pc.repaired)
  }

  function Left(pc: Pc): nat {
    match pc
    case Idle => 12
    case CheckUsers => 11
    case CheckTemplate(_) => 10
    case FixUsers(_) => 9
    case WantLock => 8
    case ReadRow => 7
    case Create => 6
    case Probe(_) => 6
    case Apply(_, _) => 5
    case Mark => 4
    case Unlock(_) => 3
    case LastUsers => 2
    case LastTemplate(_) => 1
    case _ => 0
  }

  /** Where a clean run is heading from each of its places. */
  function Target(db: Cluster, pc: Pc, superuser: bool): Cluster {
    if pc.Unlock? || pc.LastUsers? || pc.LastTemplate? || pc.Finished? then db
    else Bootstrapped(db, true, superuser).0
  }

  lemma CleanStep(db: Cluster, risk: bool, pc: Pc, superuser: bool)
    requires Knows(db, risk, pc) && OnCourse(pc) && !pc.Finished?
    ensures OnCourse(Advance(db, pc, Clean(superuser)).1) && Left(Advance(db, pc, Clean(superuser)).1) < Left(pc)
  {
  }

  lemma TargetStays(db: Cluster, risk: bool, pc: Pc, superuser: bool)
    requires FlagOk(db) && Knows(db, risk, pc) && OnCourse(pc) && !pc.Finished?
    ensures var (db', pc') := Advance(db, pc, Clean(superuser));
            Target(db', pc', superuser) == Target(db, pc, superuser)
  {
  }

  lemma CleanNext(s: State, p: Process, superuser: bool)
    requires Inv(s) && OnCourse(PcOf(s, p)) && !PcOf(s, p).Finished? && (s.lock.None? || s.lock == Some(p))
    ensures var s' := Step(s, p, Clean(superuser));
            && Inv(s') && OnCourse(PcOf(s', p)) && (s'.lock.None? || s'.lock == Some(p))
            && Left(PcOf(s', p)) < Left(PcOf(s, p))
            && Target(s'.db, PcOf(s', p), superuser) == Target(s.db, PcOf(s, p), superuser)
  {
    hide Advance, Knows, AtRisk, FlagOk, Target, Left, OnCourse;
    assert Knows(s.db, AtRisk(s), PcOf(s, p));
    CleanStep(s.db, AtRisk(s), PcOf(s, p), superuser);
    TargetStays(s.db, AtRisk(s), PcOf(s, p), superuser);
    StepKeeps(s, p, Clean(superuser));
  }

  lemma CleanEnd(s: State, p: Process, superuser: bool)
    requires Inv(s) && OnCourse(PcOf(s, p)) && PcOf(s, p).Finished?
    ensures PcOf(s, p) == Finished(Ok, true) && s.db == Target(s.db, PcOf(s, p), superuser)
  {
    assert Knows(s.db, AtRisk(s), PcOf(s, p));
  }

  lemma {:induction false} CleanRun(s: State, p: Process, superuser: bool) returns (n: nat)
    requires Inv(s) && OnCourse(PcOf(s, p)) && (s.lock.None? || s.lock == Some(p))
    ensures n <= Left(PcOf(s, p))
    ensures var e := Alone(s, p, superuser, n);
            && Inv(e) && PcOf(e, p) == Finished(Ok, true)
            && e.db == Target(s.db, PcOf(s, p), superuser)
    decreases Left(PcOf(s, p))
  {
    hide Inv, Step, Left, OnCourse, Target;
    if PcOf(s, p).Finished? {
      CleanEnd(s, p, superuser);
      n := 0;
    } else {
      CleanNext(s, p, superuser);
      n := CleanRun(Step(s, p, Clean(superuser)), p, superuser);
      AloneShift(s, p, superuser, n);
      n := n + 1;
    }
  }

  lemma {:induction false} AloneShift(s: State, p: Process, superuser: bool, n: nat)
    ensures Alone(Step(s, p, Clean(superuser)), p, superuser, n) == Alone(s, p, superuser, n + 1)
  {
    hide Step;
    if n > 0 { AloneShift(s, p, superuser, n - 1); }
  }

  /** Nothing is left to repair. */
  predicate Complete(db: Cluster, superuser: bool) { db.users && HasSchema(db) && (Flagged(db) || !superuser) }

  lemma CompleteStep(db: Cluster, risk: bool, pc: Pc, superuser: bool)
    requires Knows(db, risk, pc) && Complete(db, superuser) && !pc.DropCreated?
    ensures var (db', pc') := Advance(db, pc, Clean(superuser)); db' == db && !pc'.DropCreated?
  {
  }

  lemma {:induction false} CompleteStays(s: State, p: Process, superuser: bool, n: nat)
    requires Inv(s) && Complete(s.db, superuser) && !PcOf(s, p).DropCreated?
    ensures var e := Alone(s, p, superuser, n); Inv(e) && e.db == s.db && !PcOf(e, p).DropCreated?
  {
    if n > 0 {
      hide Advance, Knows, AtRisk, FlagOk, Complete;
      CompleteStays(s, p, superuser, n - 1);
      var m := Alone(s, p, superuser, n - 1);
      assert Knows(m.db, AtRisk(m), PcOf(m, p));
      CompleteStep(m.db, AtRisk(m), PcOf(m, p), superuser);
      StepKeeps(m, p, Clean(superuser));
    }
  }

  /** Whatever processes did, whatever raised and wherever they died before: once
      the lock is free, one process whose statements return and who finds the SQL
      files ends within twelve statements with "ok", the users table and the
      schema, and however long it goes on running again nothing changes. */
  lemma LaterRunRepairs(start: Cluster, steps: seq<(Process, Choice)>, p: Process, superuser: bool) returns (n: nat)
    requires FlagOk(start) && Run(start, steps).lock.None? && PcOf(Run(start, steps), p) == Idle
    ensures n <= 12
    ensures var (s, e) := (Run(start, steps), Alone(Run(start, steps), p, superuser, n));
            && PcOf(e, p) == Finished(Ok, true) && e.db.users && HasSchema(e.db)
            && e.db == Bootstrapped(s.db, true, superuser).0
            && forall m: nat :: Alone(e, p, superuser, m).db == e.db
  {
    hide Advance, AtRisk, Alone;
    Reachable(start, steps);
    var s := Run(start, steps);
    n := CleanRun(s, p, superuser);
    var e := Alone(s, p, superuser, n);
    assert Knows(e.db, AtRisk(e), PcOf(e, p));
    forall m: nat ensures Alone(e, p, superuser, m).db == e.db {
      CompleteStays(e, p, superuser, m);
    }
  }

  // ------------------------------------------------- the running program

  /** Statements k up to n of one process, nobody in between. */
  function Solo(db: Cluster, pc: Pc, answers: nat -> Choice, k: nat, n: nat): (Cluster, Pc)
    requires k <= n
  {
    if k == n then (db, pc)
    else
      var (db', pc') := Solo(db, pc, answers, k, n - 1);
      Advance(db', pc', answers(n - 1))
  }

  lemma SoloNext(db: Cluster, pc: Pc, answers: nat -> Choice, k: nat, n: nat)
    requires k <= n
    ensures Solo(db, pc, answers, k, k) == (db, pc)
    ensures var (db', pc') := Solo(db, pc, answers, k, n);
            Solo(db, pc, answers, k, n + 1) == Advance(db', pc', answers(n))
  {
  }

  lemma {:induction false} SoloJoin(db: Cluster, pc: Pc, answers: nat -> Choice, k: nat, m: nat, n: nat)
    requires k <= m <= n
    ensures var (db', pc') := Solo(db, pc, answers, k, m);
            Solo(db, pc, answers, k, n) == Solo(db', pc', answers, m, n)
  {
    hide Advance;
    if m < n { SoloJoin(db, pc, answers, k, m, n - 1); }
  }

  /** Every statement returns, the files are found or not, the role is privileged or not. */
  ghost predicate Smooth(answers: nat -> Choice) {
    forall i: nat ::
      answers(i).ok && answers(i).sqlFound == answers(0).sqlFound && answers(i).superuser == answers(0).superuser
  }

  /** The database server as one process uses it while no other one moves.  The
      k-th statement ends as `answers(k)` says; each method is proved to be a run
      of the statements above. */
  class Server {
    var users: bool
    var template: Option<Template>
    var nextOid: nat

    constructor (db: Cluster)
      ensures Contents() == db
    {
      users, template, nextOid := db.users, db.template, db.nextOid;
    }

    function Contents(): Cluster
      reads this
    {
      Cluster(users, template, nextOid)
    }

    /** `CREATE DATABASE`, which may take effect and raise all the same. */
    method CreateTemplate(c: Choice)
      modifies this
      ensures Contents() == if c.Effect() then WithTemplate(old(Contents())) else old(Contents())
    {
      if c.Effect() {
        template := Some(Template(nextOid, false, false));
        nextOid := nextOid + 1;
      }
    }

    /** `_apply_sql` on the template and, when that raises for a template just
        created, its removal. */
    method ApplyOrDrop(created: bool, flagged: bool, answers: nat -> Choice, k: nat) returns (done: bool, n: nat)
      requires template.Some? && template.value.flagged == flagged && (created ==> !flagged)
      modifies this`template
      ensures k < n
      ensures var pc := Apply(if created then Some(old(template).value.oid) else None, flagged);
              Solo(old(Contents()), pc, answers, k, n)
              == (Contents(), if !done then Unlock(false) else if flagged then Unlock(true) else Mark)
      ensures done == answers(k).ok
      ensures done ==> HasSchema(Contents())
      ensures FlagOk(old(Contents())) ==> FlagOk(Contents())
      ensures !created || done ==>
                template == Some(old(template).value.(schema := old(template).value.schema || answers(k).Effect()))
    {
      ghost var (db, pc) := (Contents(), Apply(if created then Some(template.value.oid) else None, flagged));
      SoloNext(db, pc, answers, k, k);
      SoloNext(db, pc, answers, k, k + 1);
      n := k + 1;
      if answers(k).Effect() {
        template := Some(template.value.(schema := true));
      }
      if !answers(k).ok && created {
        if answers(k + 1).Effect() {
          template := None;
        }
        n := k + 2;
      }
      done := answers(k).ok;
    }

    /** What `ensure_tenant_template` does while it holds the lock. */
    method EnsureUnderLock(answers: nat -> Choice, k: nat) returns (done: bool, n: nat)
      requires FlagOk(Contents())
      modifies this
      ensures k < n
      ensures Solo(old(Contents()), ReadRow, answers, k, n) == (Contents(), Unlock(done))
      ensures FlagOk(Contents()) && users == old(users)
      ensures done ==> HasSchema(Contents())
      ensures (forall i: nat :: answers(i).ok) ==> done
      ensures Smooth(answers) ==> Contents() == EnsureTemplate(old(Contents()), answers(0).superuser)
      ensures old(template).Some? ==> template.Some? && template.value.oid == old(template).value.oid
      ensures HasSchema(old(Contents())) ==> HasSchema(Contents())
    {
      hide Solo;
      ghost var db := Contents();
      var row := template;
      SoloNext(db, ReadRow, answers, k, k);
      n := k + 1;
      if !answers(k).ok {
        return false, n;
      }
      if row.None? {
        SoloNext(db, ReadRow, answers, k, n);
        CreateTemplate(answers(n));
        n := n + 1;
        if !answers(n - 1).ok {
          return false, n;
        }
      } else {
        SoloNext(db, ReadRow, answers, k, n);
        n := n + 1;
        if !answers(n - 1).ok {
          return false, n;
        }
      }
      var flagged := row.Some? && row.value.flagged;
      done := true;
      if row.None? || !template.value.schema {
        ghost var m := n;
        done, n := ApplyOrDrop(row.None?, flagged, answers, n);
        SoloJoin(db, ReadRow, answers, k, m, n);
      }
      if done && !flagged {
        SoloNext(db, ReadRow, answers, k, n);
        if answers(n).Effect() && answers(n).superuser {
          template := Some(template.value.(flagged := true));
        }
        done := answers(n).ok;
        n := n + 1;
      }
    }

    /** `ensure_tenant_template`: on return the schema is there; an existing
        template and its schema survive whatever raises. */
    method EnsureTenantTemplate(answers: nat -> Choice, k: nat) returns (done: bool, n: nat)
      requires FlagOk(Contents())
      modifies this
      ensures k < n
      ensures Solo(old(Contents()), WantLock, answers, k, n) == (Contents(), if done then LastUsers else Raised)
      ensures FlagOk(Contents()) && users == old(users)
      ensures done ==> HasSchema(Contents())
      ensures (forall i: nat :: answers(i).ok) ==> done
      ensures Smooth(answers) ==> Contents() == EnsureTemplate(old(Contents()), answers(0).superuser)
      ensures old(template).Some? ==> template.Some? && template.value.oid == old(template).value.oid
      ensures HasSchema(old(Contents())) ==> HasSchema(Contents())
    {
      hide Solo;
      ghost var db := Contents();
      SoloNext(db, WantLock, answers, k, k);
      n := k + 1;
      if !answers(k).ok {
        return false, n;
      }
      ghost var m := n;
      done, n := EnsureUnderLock(answers, n);
      SoloJoin(db, WantLock, answers, k, m, n);
      SoloNext(db, WantLock, answers, k, n);
      done := done && answers(n).ok;
      n := n + 1;
    }

    /** The two repairs of `bootstrap_once`, each if its check asks for it. */
    method Repair(st: Status, answers: nat -> Choice, k: nat) returns (done: bool, n: nat)
      requires FlagOk(Contents()) && (st.users ==> users)
      requires st.template == template.Some? && st.flagged == Flagged(Contents())
      requires !st.users || !st.template || !st.flagged
      modifies this
      ensures k < n
      ensures Solo(old(Contents()),
                   if !st.users then FixUsers(!st.template || !st.flagged) else WantLock, answers, k, n)
           == (Contents(), if done then LastUsers else Raised)
      ensures FlagOk(Contents())
      ensures done ==> users && HasSchema(Contents())
      ensures HasSchema(old(Contents())) ==> HasSchema(Contents())
      ensures (forall i: nat :: answers(i).ok) ==> done
      ensures Smooth(answers) ==>
                var db := old(Contents()).(users := true);
                Contents() == if st.flagged then db else EnsureTemplate(db, answers(0).superuser)
    {
      hide Solo;
      ghost var (db, pc) := (Contents(), if !st.users then FixUsers(!st.template || !st.flagged) else WantLock);
      n := k;
      SoloNext(db, pc, answers, k, k);
      if !st.users {
        if answers(n).Effect() {
          users := true;
        }
        n := n + 1;
        if !answers(k).ok {
          return false, n;
        }
      }
      done := true;
      if !st.template || !st.flagged {
        ghost var m := n;
        done, n := EnsureTenantTemplate(answers, n);
        SoloJoin(db, pc, answers, k, m, n);
      }
    }

    /** `bootstrap_once`; None when it raises. */
    method BootstrapOnce(answers: nat -> Choice) returns (answer: Option<Label>, n: nat, repaired: bool)
      requires FlagOk(Contents())
      modifies this
      ensures Solo(old(Contents()), CheckUsers, answers, 0, n)
           == (Contents(), if answer.Some? then Finished(answer.value, repaired) else Raised)
      ensures FlagOk(Contents())
      ensures answer.Some? && repaired ==> answer == Some(Ok) && users && HasSchema(Contents())
      ensures HasSchema(old(Contents())) ==> HasSchema(Contents())
      ensures (forall i: nat :: answers(i).ok && answers(i).sqlFound) ==> answer == Some(Ok)
      ensures Smooth(answers) ==>
                var (db, expected) := Bootstrapped(old(Contents()), answers(0).sqlFound, answers(0).superuser);
                Contents() == db && answer == Some(expected)
    {
      hide Solo;
      ghost var db := Contents();
      repaired := false;
      SoloNext(db, CheckUsers, answers, 0, 0);
      if !answers(0).ok {
        return None, 1, repaired;
      }
      SoloNext(db, CheckUsers, answers, 0, 1);
      if !answers(1).ok {
        return None, 2, repaired;
      }
      n := 2;
      var st := Status(users, template.Some?, template.Some? && template.value.flagged);
      if st.users && st.template && st.flagged {
        return Some(Ok), n, true;
      }
      if !answers(1).sqlFound {
        return Some(StatusLabel(st.users, st.template)), n, repaired;
      }
      ghost var m := n;
      var done;
      done, n := Repair(st, answers, n);
      SoloJoin(db, CheckUsers, answers, 0, m, n);
      if !done {
        return None, n, repaired;
      }
      SoloNext(db, CheckUsers, answers, 0, n);
      SoloNext(db, CheckUsers, answers, 0, n + 1);
      n := n + 2;
      if !answers(n - 2).ok {
        return None, n - 1, repaired;
      }
      if !answers(n - 1).ok {
        return None, n, repaired;
      }
      return Some(StatusLabel(users, template.Some?)), n, true;
    }
  }
}

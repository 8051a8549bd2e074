/** One SQLite connection shared by every thread of the desktop build
    (backend/app/storage/sqlite.py:25-201, 290-347, 433-449): two locks, three
    flags, and writes that must commit whole or leave no trace. */
module SqliteConnection {
  import opened Wrappers

  type Thread = nat

  /** What a caller runs.  `Write` has a serial number and executes `size`
      statements before its commit: one for an upsert, two for an append. */
  datatype Op = Write(id: nat, size: nat) | Read | Ensure | Ping | Close

  /** The k-th statement of a write. */
  datatype Stmt = Stmt(op: nat, k: nat)

  datatype Pc =
    | Idle
    | Start(op: Op)                 // about to read `_usable` without a lock
    | EnsureUsable(op: Op)          // ensure_tables: unlocked read of `_usable`
    | EnsureInit(op: Op)            // ensure_tables: unlocked read of `_initialized`
    | WaitInit(op: Op)              // wants the init lock
    | InInit(op: Op)                // holds it; reads both flags again
    | WaitBoth(op: Op)              // holds it and wants the write lock
    | InBoth(op: Op)                // holds both; reads `_usable`
    | Ddl(op: Op, k: nat)           // holds both; cursor, four DDL statements, commit
    | DdlRollback(op: Op)           // holds both
    | WaitWrite(op: Op)             // wants the write lock
    | InWrite(op: Op)               // holds it; reads `_usable`
    | Exec(op: Op, k: nat)          // holds it; k calls on the connection done
    | Commit(op: Op)                // holds it
    | Rollback(op: Op)              // holds it
  {
    predicate HoldsInit() { InInit? || WaitBoth? || InBoth? || Ddl? || DdlRollback? }
    predicate HoldsWrite() { InBoth? || Ddl? || DdlRollback? || InWrite? || Exec? || Commit? || Rollback? }
    /** The next step calls the connection. */
    predicate Calls() { Ddl? || DdlRollback? || Exec? || Commit? || Rollback? }
  }

  /** The store object and its database: the three flags, how often `close`
      was called, whether a transaction is open, what it holds and what was committed. */
  datatype Db = Db(usable: bool, initialized: bool, closed: bool, closes: nat,
                   inTx: bool, pending: seq<Stmt>, durable: seq<Stmt>)

  /** `committed` and `failed` are history variables: the writes that returned
      from their commit and the numbers of those whose call reported failure. */
  datatype State = State(db: Db, initLock: Option<Thread>, writeLock: Option<Thread>,
                         threads: map<Thread, Pc>, nextId: nat, committed: seq<Op>, failed: set<nat>)

  /** The environment: what an idle thread starts, whether the step's call on
      the connection returns, and whether SQLite rolled back on its own when it
      did not. */
  datatype Choice = Choice(op: Op, ok: bool, undone: bool)

  const Initial := State(Db(true, false, false, 0, false, [], []), None, None, map[], 0, [], {})

  // ------------------------------------------------- one step of a thread

  /** `_close_connection_locked`; closing discards an open transaction. */
  function CloseLocked(db: Db): Db {
    if db.closed then db.(usable := false, initialized := false)
    else db.(usable := false, initialized := false, closed := true, closes := db.closes + 1,
             inTx := false, pending := [])
  }

  /** `_rollback_locked`: a rollback that raises poisons the store. */
  function RollbackLocked(db: Db, ok: bool): Db {
    if ok then db.(inTx := false, pending := []) else CloseLocked(db)
  }

  function Undone(db: Db, undone: bool): Db {
    if undone then db.(inTx := false, pending := []) else db
  }

  /** `ensure_tables` returned; a store that is not ready ends the operation. */
  function Ensured(op: Op, ready: bool): Pc {
    if ready && !op.Ensure? then WaitWrite(op) else Idle
  }

  /** What an idle thread does first; a write gets the next serial number. */
  function Begin(op: Op, id: nat): Pc {
    match op
    case Write(_, size) => Start(Write(id, size))
    case Close => WaitWrite(Close)
    case Ensure => EnsureUsable(Ensure)
    case _ => Start(op)
  }

  /** The work of a step: the new database and the thread's next place.  Locks
      are taken and given back according to the places before and after. */
  function Advance(db: Db, pc: Pc, c: Choice, id: nat): (Db, Pc) {
    match pc
    case Idle => (db, Begin(c.op, id))
    case Start(op) => (db, if !db.usable then Idle else if op.Ping? then WaitWrite(op) else EnsureUsable(op))
    case EnsureUsable(op) => (db, if !db.usable then Idle else EnsureInit(op))
    case EnsureInit(op) => (db, if db.initialized then Ensured(op, true) else WaitInit(op))
    case WaitInit(op) => (db, InInit(op))
    case InInit(op) =>
      (db, if !db.usable then Idle else if db.initialized then Ensured(op, true) else WaitBoth(op))
    case WaitBoth(op) => (db, InBoth(op))
    case InBoth(op) => (db, if !db.usable then Idle else Ddl(op, 0))
    case Ddl(op, k) =>
      if !c.ok then (db, DdlRollback(op))
      else if k < 5 then (db, Ddl(op, k + 1))
      else (db.(initialized := true), Ensured(op, true))
    case DdlRollback(op) => (RollbackLocked(db, c.ok).(initialized := false), Idle)
    case WaitWrite(op) => (db, InWrite(op))
    case InWrite(op) =>
      if op.Close? then (CloseLocked(db), Idle) else (db, if !db.usable then Idle else Exec(op, 0))
    case Exec(op, k) =>
      if !op.Write? then (db, Idle)
      else if !c.ok then (Undone(db.(inTx := k > 0), c.undone), Rollback(op))
      else
        // the first call makes the cursor, each later one executes a statement
        (if k == 0 then db else db.(inTx := true, pending := db.pending + [Stmt(op.id, k)]),
         if k < op.size then Exec(op, k + 1) else Commit(op))
    case Commit(op) =>
      if !c.ok then (Undone(db, c.undone), Rollback(op))
      else (db.(inTx := false, pending := [], durable := db.durable + db.pending), Idle)
    case Rollback(op) => (RollbackLocked(db, c.ok), Idle)
  }

  function Relock(lock: Option<Thread>, t: Thread, had: bool, has: bool): Option<Thread> {
    if has then Some(t) else if had then None else lock
  }

  function PcOf(s: State, t: Thread): Pc {
    if t in s.threads then s.threads[t] else Idle
  }

  predicate Writing(pc: Pc) { !pc.Idle? && pc.op.Write? }

  /** The thread would need a lock that another holds. */
  predicate Blocked(s: State, pc: Pc, pc': Pc) {
    || (pc'.HoldsInit() && !pc.HoldsInit() && s.initLock.Some?)
    || (pc'.HoldsWrite() && !pc.HoldsWrite() && s.writeLock.Some?)
  }

  /** One step of thread t; a thread that waits for a taken lock stays put. */
  function Step(s: State, t: Thread, c: Choice): State {
    var pc := PcOf(s, t);
    var (db, pc') := Advance(s.db, pc, c, s.nextId);
    if Blocked(s, pc, pc') then s
    else
      State(db,
            Relock(s.initLock, t, pc.HoldsInit(), pc'.HoldsInit()),
            Relock(s.writeLock, t, pc.HoldsWrite(), pc'.HoldsWrite()),
            s.threads[t := pc'],
            if pc.Idle? && Writing(pc') then s.nextId + 1 else s.nextId,
            if pc.Commit? && pc'.Idle? then s.committed + [pc.op] else s.committed,
            if Writing(pc) && !pc.Commit? && pc'.Idle? then s.failed + {pc.op.id} else s.failed)
  }

  function Run(steps: seq<(Thread, Choice)>): State {
    if steps == [] then Initial
    else Step(Run(steps[..|steps| - 1]), steps[|steps| - 1].0, steps[|steps| - 1].1)
  }

  // ---------------------------------------------------------- the invariant

  /** The first n statements of a write. */
  function Block(id: nat, n: nat): seq<Stmt> { seq(n, k requires 0 <= k < n => Stmt(id, k + 1)) }

  function Flatten(ops: seq<Op>): seq<Stmt> {
    if ops == [] then []
    else
      var op := ops[|ops| - 1];
      Flatten(ops[..|ops| - 1]) + if op.Write? then Block(op.id, op.size) else []
  }

  /** Locks are held by exactly the threads whose place says so. */
  ghost predicate LocksOk(s: State) {
    && (forall t: nat :: PcOf(s, t).HoldsInit() <==> s.initLock == Some(t))
    && (forall t: nat :: PcOf(s, t).HoldsWrite() <==> s.writeLock == Some(t))
  }

  ghost predicate FlagsOk(db: Db) {
    && (db.closed <==> !db.usable)
    && db.closes == (if db.closed then 1 else 0)
    && (db.closed ==> !db.inTx && !db.initialized)
    && (!db.inTx ==> db.pending == [])
  }

  /** What holds at each place: a thread about to call the connection finds it
      open, and a transaction is open only inside a write, holding its first statements. */
  ghost predicate PlaceOk(db: Db, pc: Pc) {
    && (pc.Calls() ==> !db.closed)
    && (match pc
        case Exec(op, k) =>
          if op.Write? then (if k <= 1 then !db.inTx else db.inTx) && k <= op.size
          && db.pending == Block(op.id, if k == 0 then 0 else k - 1)
          else !db.inTx
        case Commit(op) => op.Write? && db.pending == Block(op.id, op.size)
        case Rollback(op) => op.Write?
        case _ => !db.inTx)
  }

  /** The holder of the write lock is where the database says; without one no transaction is open. */
  ghost predicate TxOk(s: State) {
    match s.writeLock
    case None => !s.db.inTx
    case Some(t) => PlaceOk(s.db, PcOf(s, t))
  }

  /** A step away from the write lock leaves the database alone; a step under it
      keeps the place in order and gives the lock back with no transaction open. */
  lemma AdvanceOk(db: Db, pc: Pc, c: Choice, id: nat)
    requires FlagsOk(db)
    requires pc.HoldsWrite() ==> PlaceOk(db, pc)
    ensures var (db', pc') := Advance(db, pc, c, id);
            && FlagsOk(db')
            && (!pc.HoldsWrite() ==> db' == db && !pc'.Calls())
            && (pc.HoldsWrite() && pc'.HoldsWrite() ==> PlaceOk(db', pc'))
            && (pc.HoldsWrite() && !pc'.HoldsWrite() ==> !db'.inTx)
            && (db.closed ==> db'.closed)
            && db'.durable == db.durable + (if pc.Commit? && pc'.Idle? then Block(pc.op.id, pc.op.size) else [])
  {
  }

  /** A write keeps its number until it ends; only `Idle` hands out numbers. */
  lemma AdvanceKeepsOp(db: Db, pc: Pc, c: Choice, id: nat)
    ensures var pc' := Advance(db, pc, c, id).1;
            && (!pc.Idle? && !pc'.Idle? ==> pc'.op == pc.op)
            && (pc.Idle? && Writing(pc') ==> pc'.op.id == id)
            && !(pc.Idle? && (pc'.HoldsInit() || pc'.HoldsWrite()))
  {
  }

  lemma StepKeepsLocks(s: State, t: Thread, c: Choice)
    requires LocksOk(s)
    ensures LocksOk(Step(s, t, c))
  {
    hide Advance;
  }

  lemma StepKeepsTx(s: State, t: Thread, c: Choice)
    requires LocksOk(s) && FlagsOk(s.db) && TxOk(s)
    ensures FlagsOk(Step(s, t, c).db) && TxOk(Step(s, t, c))
    ensures Step(s, t, c).db.durable == s.db.durable + Flatten(Step(s, t, c).committed[|s.committed|..])
    ensures s.committed <= Step(s, t, c).committed
    ensures s.db.closed ==> Step(s, t, c).db.closed
  {
    hide Advance;
    AdvanceOk(s.db, PcOf(s, t), c, s.nextId);
  }

  // ------------------------------------------------- the fate of each write

  ghost predicate Running(s: State, id: nat, t: Thread) {
    Writing(PcOf(s, t)) && PcOf(s, t).op.id == id
  }

  ghost predicate Committed(s: State, id: nat) {
    exists i :: 0 <= i < |s.committed| && s.committed[i].Write? && s.committed[i].id == id
  }

  /** Every write that began is with exactly one thread, or committed once, or failed. */
  ghost predicate FatesOk(s: State) {
    && (forall i :: 0 <= i < |s.committed| ==> s.committed[i].Write?)
    && (forall i, j :: 0 <= i < j < |s.committed| ==> s.committed[i].id != s.committed[j].id)
    && (forall id: nat :: id in s.failed || Committed(s, id) ==> id < s.nextId)
    && (forall id: nat :: !(id in s.failed && Committed(s, id)))
    && (forall id: nat, t: nat :: Running(s, id, t) ==> id < s.nextId && id !in s.failed && !Committed(s, id))
    && (forall id: nat, t: nat, u: nat :: Running(s, id, t) && Running(s, id, u) ==> t == u)
  }

  lemma CommittedAfter(s: State, s': State, op: Op, id: nat)
    requires op.Write? && s'.committed == s.committed + [op]
    ensures Committed(s', id) <==> Committed(s, id) || op.id == id
  {
    if op.id == id { assert s'.committed[|s.committed|] == op; }
    if Committed(s, id) {
      var i :| 0 <= i < |s.committed| && s.committed[i].Write? && s.committed[i].id == id;
      assert s'.committed[i] == s.committed[i];
    }
  }

  lemma RunningAfter(s: State, t: Thread, c: Choice, id: nat, u: Thread)
    ensures var (s', pc') := (Step(s, t, c), Advance(s.db, PcOf(s, t), c, s.nextId).1);
            Running(s', id, u) <==>
              if u != t || Blocked(s, PcOf(s, t), pc') then Running(s, id, u)
              else Writing(pc') && (if PcOf(s, t).Idle? then id == s.nextId else Running(s, id, t))
  {
    AdvanceKeepsOp(s.db, PcOf(s, t), c, s.nextId);
    hide Advance;
  }

  lemma CommitWrites(s: State, t: Thread, c: Choice)
    requires LocksOk(s) && TxOk(s)
    ensures PcOf(s, t).Commit? ==> PcOf(s, t).op.Write?
  {
  }

  lemma StepKeepsFates(s: State, t: Thread, c: Choice)
    requires LocksOk(s) && TxOk(s) && FatesOk(s)
    ensures FatesOk(Step(s, t, c))
  {
    hide Advance;
    var s' := Step(s, t, c);
    var pc := PcOf(s, t);
    CommitWrites(s, t, c);
    forall id: nat, u: nat
      ensures Running(s', id, u) ==> Running(s, id, u) || (id == s.nextId && u == t && s'.nextId == s.nextId + 1) {
      RunningAfter(s, t, c, id, u);
    }
    if s'.committed != s.committed {
      forall id: nat ensures Committed(s', id) <==> Committed(s, id) || pc.op.id == id {
        CommittedAfter(s, s', pc.op, id);
      }
      assert Running(s, pc.op.id, t);
      forall i | 0 <= i < |s.committed| ensures s.committed[i].id != pc.op.id {
        assert !Committed(s, pc.op.id);
      }
    } else {
      assert forall id: nat :: Committed(s', id) <==> Committed(s, id);
    }
    if s'.failed != s.failed { assert Running(s, pc.op.id, t); }
    forall id: nat, u: nat | Running(s', id, u) ensures id < s'.nextId && id !in s'.failed && !Committed(s', id) {
      RunningAfter(s, t, c, id, u);
    }
  }

  // ----------------------------------------------------------- every run

  ghost predicate Inv(s: State) {
    LocksOk(s) && FlagsOk(s.db) && TxOk(s) && FatesOk(s) && s.db.durable == Flatten(s.committed)
  }

  lemma {:induction false} FlattenAppend(a: seq<Op>, b: seq<Op>)
    ensures Flatten(a + b) == Flatten(a) + Flatten(b)
  {
    if b == [] {
      assert a + b == a;
    } else {
      var n := |b| - 1;
      assert (a + b)[..|a| + n] == a + b[..n];
      FlattenAppend(a, b[..n]);
    }
  }

  lemma StepKeeps(s: State, t: Thread, c: Choice)
    requires Inv(s)
    ensures Inv(Step(s, t, c))
  {
    hide Step, LocksOk, FlagsOk, TxOk, FatesOk;
    StepKeepsLocks(s, t, c);
    StepKeepsTx(s, t, c);
    StepKeepsFates(s, t, c);
    var s' := Step(s, t, c);
    FlattenAppend(s.committed, s'.committed[|s.committed|..]);
    assert s'.committed == s.committed + s'.committed[|s.committed|..];
  }

  lemma {:induction false} Reachable(steps: seq<(Thread, Choice)>)
    ensures Inv(Run(steps))
  {
    if steps != [] {
      hide Step;
      var n := |steps| - 1;
      Reachable(steps[..n]);
      StepKeeps(Run(steps[..n]), steps[n].0, steps[n].1);
    }
  }

  /** In every interleaving a thread about to call the connection holds the
      write lock and the connection is open; at most one thread is; `close` is
      called at most once; and while nobody holds the lock no transaction is open. */
  lemma ConnectionDiscipline(steps: seq<(Thread, Choice)>, t: Thread, u: Thread)
    ensures var s := Run(steps);
            && (PcOf(s, t).Calls() ==> s.writeLock == Some(t) && !s.db.closed)
            && (PcOf(s, t).HoldsWrite() && PcOf(s, u).HoldsWrite() ==> t == u)
            && s.db.closes <= 1
            && (s.writeLock.None? ==> !s.db.inTx && s.db.pending == [])
  {
    Reachable(steps);
  }

  lemma StaysUnusable(s: State, t: Thread, c: Choice)
    requires Inv(s) && !s.db.usable
    ensures !Step(s, t, c).db.usable
  {
    hide Advance;
    StepKeepsTx(s, t, c);
  }

  /** A store that became unusable stays so. */
  lemma {:induction false} NeverUsableAgain(steps: seq<(Thread, Choice)>, more: seq<(Thread, Choice)>)
    requires !Run(steps).db.usable
    ensures !Run(steps + more).db.usable
  {
    hide Step, Inv;
    if more == [] {
      assert steps + more == steps;
    } else {
      var n := |more| - 1;
      NeverUsableAgain(steps, more[..n]);
      assert (steps + more)[..|steps| + n] == steps + more[..n];
      Reachable(steps + more[..n]);
      assert (steps + more)[|steps| + n] == more[n];
      StaysUnusable(Run(steps + more[..n]), more[n].0, more[n].1);
    }
  }

  lemma {:induction false} FlattenOnly(ops: seq<Op>, x: Stmt)
    requires x in Flatten(ops)
    ensures exists i :: 0 <= i < |ops| && ops[i].Write? && ops[i].id == x.op
  {
    var n := |ops| - 1;
    if x in Flatten(ops[..n]) {
      FlattenOnly(ops[..n], x);
      var i :| 0 <= i < n && ops[..n][i].Write? && ops[..n][i].id == x.op;
      assert ops[i].id == x.op;
    } else {
      assert ops[n].id == x.op;
    }
  }

  /** What is durable is a sequence of whole writes, no write twice; a write
      whose call reported failure has left nothing and no later commit adds it. */
  lemma WritesAreAtomic(steps: seq<(Thread, Choice)>, id: nat)
    ensures var s := Run(steps);
            && s.db.durable == Flatten(s.committed)
            && (forall i :: 0 <= i < |s.committed| ==> s.committed[i].Write?)
            && (forall i, j :: 0 <= i < j < |s.committed| ==> s.committed[i].id != s.committed[j].id)
            && (id in s.failed ==> forall k :: Stmt(id, k) !in s.db.durable)
  {
    Reachable(steps);
    var s := Run(steps);
    if id in s.failed {
      forall k ensures Stmt(id, k) !in s.db.durable {
        if Stmt(id, k) in s.db.durable { FlattenOnly(s.committed, Stmt(id, k)); }
      }
    }
  }

  /** The two locks cannot deadlock: while any thread is inside an operation,
      some such thread is not blocked, whatever the environment answers. */
  lemma NoDeadlock(steps: seq<(Thread, Choice)>, t: Thread, c: Choice) returns (u: Thread)
    requires !PcOf(Run(steps), t).Idle?
    ensures var s := Run(steps);
            !PcOf(s, u).Idle? && !Blocked(s, PcOf(s, u), Advance(s.db, PcOf(s, u), c, s.nextId).1)
  {
    Reachable(steps);
    var s := Run(steps);
    u := t;
    if s.writeLock.Some? {
      u := s.writeLock.value;
    } else if s.initLock.Some? {
      u := s.initLock.value;
    }
  }

  // ------------------------------------------- why a store becomes unusable

  /** The step closes the store on purpose or answers a rollback with an error. */
  predicate Poisons(pc: Pc, c: Choice) {
    (pc.InWrite? && pc.op.Close?) || ((pc.Rollback? || pc.DdlRollback?) && !c.ok)
  }

  ghost predicate PoisonedAt(steps: seq<(Thread, Choice)>, k: nat) {
    k < |steps| && Poisons(PcOf(Run(steps[..k]), steps[k].0), steps[k].1)
  }

  ghost predicate Poisoned(steps: seq<(Thread, Choice)>) { exists k: nat :: PoisonedAt(steps, k) }

  lemma PoisonCause(db: Db, pc: Pc, c: Choice, id: nat)
    requires db.usable
    ensures !Advance(db, pc, c, id).0.usable <==> Poisons(pc, c)
  {
  }

  /** A step of a usable store makes it unusable exactly if it poisons it. */
  lemma StepPoisons(s: State, t: Thread, c: Choice)
    requires s.db.usable
    ensures !Step(s, t, c).db.usable <==> Poisons(PcOf(s, t), c)
  {
    hide Advance;
    PoisonCause(s.db, PcOf(s, t), c, s.nextId);
    if Poisons(PcOf(s, t), c) { PoisonerMoves(s, t, c); }
  }

  lemma PoisonedBefore(steps: seq<(Thread, Choice)>)
    requires steps != []
    ensures Poisoned(steps) <==> Poisoned(steps[..|steps| - 1]) || PoisonedAt(steps, |steps| - 1)
  {
    hide Run, Poisons;
    var n := |steps| - 1;
    forall k: nat | k < n ensures PoisonedAt(steps[..n], k) <==> PoisonedAt(steps, k) {
      assert steps[..n][..k] == steps[..k];
    }
    if k: nat :| PoisonedAt(steps, k) && k < n { assert PoisonedAt(steps[..n], k); }
    if k: nat :| PoisonedAt(steps[..n], k) { assert PoisonedAt(steps, k); }
  }

  /** A store is unusable exactly if it was closed or a rollback raised. */
  lemma {:induction false} UnusableExactlyWhen(steps: seq<(Thread, Choice)>)
    ensures !Run(steps).db.usable <==> Poisoned(steps)
  {
    if steps != [] {
      var n := |steps| - 1;
      var (s, t, c) := (Run(steps[..n]), steps[n].0, steps[n].1);
      assert PoisonedAt(steps, n) <==> Poisons(PcOf(s, t), c);
      hide Step, Inv, Poisons, PoisonedAt, Poisoned;
      UnusableExactlyWhen(steps[..n]);
      PoisonedBefore(steps);
      if s.db.usable {
        StepPoisons(s, t, c);
      } else {
        Reachable(steps[..n]);
        StaysUnusable(s, t, c);
      }
    } else {
      assert !Poisoned([]);
    }
  }

  /** A thread that is about to poison the store holds the write lock already. */
  lemma PoisonerMoves(s: State, t: Thread, c: Choice)
    requires Poisons(PcOf(s, t), c)
    ensures Step(s, t, c).db == Advance(s.db, PcOf(s, t), c, s.nextId).0
  {
  }

  // ------------------------------------------------- tables are created once

  /** How often the DDL went through. */
  function Created(steps: seq<(Thread, Choice)>): nat {
    if steps == [] then 0
    else
      var n := |steps| - 1;
      Created(steps[..n]) + if Creates(PcOf(Run(steps[..n]), steps[n].0), steps[n].1) then 1 else 0
  }

  /** The last of the six calls: a cursor, two tables with an index each, a commit. */
  predicate Creates(pc: Pc, c: Choice) { pc.Ddl? && pc.k >= 5 && c.ok }

  /** Places between the second look at the flag and the end of the creation. */
  predicate MayCreate(pc: Pc) { pc.WaitBoth? || pc.InBoth? || pc.Ddl? || pc.DdlRollback? }

  /** The tables were created if the flag says so, and nobody creates them again. */
  ghost predicate CreatedOk(s: State, created: nat) {
    && created <= 1 && (s.db.initialized <==> created == 1 && s.db.usable)
    && (forall t: nat :: MayCreate(PcOf(s, t)) ==> !s.db.initialized)
  }

  lemma AdvanceCreates(db: Db, pc: Pc, c: Choice, id: nat)
    requires FlagsOk(db) && (pc.HoldsWrite() ==> PlaceOk(db, pc))
    requires MayCreate(pc) ==> !db.initialized
    ensures var (db', pc') := Advance(db, pc, c, id);
            && (db'.initialized <==> (db.initialized && db'.usable) || Creates(pc, c))
            && (MayCreate(pc') ==> pc'.HoldsInit() && !db'.initialized)
            && (Creates(pc, c) ==> pc.HoldsInit() && !pc'.HoldsInit() && db'.usable)
  {
  }

  lemma StepCreates(s: State, t: Thread, c: Choice, created: nat)
    requires LocksOk(s) && FlagsOk(s.db) && TxOk(s) && CreatedOk(s, created)
    ensures CreatedOk(Step(s, t, c), created + if Creates(PcOf(s, t), c) then 1 else 0)
  {
    hide Advance, PlaceOk;
    AdvanceCreates(s.db, PcOf(s, t), c, s.nextId);
    AdvanceOk(s.db, PcOf(s, t), c, s.nextId);
    var s' := Step(s, t, c);
    forall u: nat | MayCreate(PcOf(s', u)) ensures !s'.db.initialized {
      if u != t {
        assert PcOf(s', u) == PcOf(s, u) && PcOf(s, u).HoldsInit();
        assert !PcOf(s, t).HoldsInit();
      }
    }
    if !s.db.usable { StaysUnusableAlone(s, t, c); }
  }

  lemma StaysUnusableAlone(s: State, t: Thread, c: Choice)
    requires FlagsOk(s.db) && LocksOk(s) && TxOk(s) && !s.db.usable
    ensures !Step(s, t, c).db.usable && !Creates(PcOf(s, t), c)
  {
    hide Advance;
    AdvanceOk(s.db, PcOf(s, t), c, s.nextId);
  }

  /** In every interleaving the tables are created at most once, and the flag is up
      exactly if they were and the store is still usable. */
  lemma {:induction false} TablesAreCreatedOnce(steps: seq<(Thread, Choice)>)
    ensures CreatedOk(Run(steps), Created(steps))
  {
    if steps != [] {
      hide Step, CreatedOk, Creates;
      var n := |steps| - 1;
      TablesAreCreatedOnce(steps[..n]);
      Reachable(steps[..n]);
      StepCreates(Run(steps[..n]), steps[n].0, steps[n].1, Created(steps[..n]));
    } else {
      assert CreatedOk(Initial, 0);
    }
  }

  /** On an unusable store an operation ends without waiting for a lock. */
  lemma UnusableReturnsAtOnce(s: State, t: Thread, c: Choice)
    requires !s.db.usable && (PcOf(s, t).Start? || PcOf(s, t).EnsureUsable?)
    ensures PcOf(Step(s, t, c), t).Idle? && Step(s, t, c).db == s.db
  {
  }

  // ---------------------------------------------- an operation by itself

  /** Thread t alone, every call on the connection returning. */
  function Alone(s: State, t: Thread, c: Choice, n: nat): State {
    if n == 0 then s else Step(Alone(s, t, c, n - 1), t, c)
  }

  /** What an operation is meant to do to the store. */
  function Effect(db: Db, op: Op): Db {
    match op
    case Write(id, size) =>
      db.(initialized := true, inTx := false, pending := [], durable := db.durable + Block(id, size))
    case Read => db.(initialized := true)
    case Ensure => db.(initialized := true)
    case Ping => db
    case Close => CloseLocked(db)
  }

  /** Places on the way of an operation. */
  predicate OnCourse(pc: Pc, op: Op, initialized: bool) {
    && !pc.Idle? && pc.op == op && !pc.DdlRollback? && !pc.Rollback? && (pc.Ddl? ==> pc.k <= 5)
    && (pc.Exec? ==> pc.k <= if op.Write? then op.size else 0) && (pc.Commit? ==> op.Write?)
    && (op.Ping? ==> pc.Start? || pc.WaitWrite? || pc.InWrite? || pc.Exec?)
    && (op.Close? ==> pc.WaitWrite? || pc.InWrite?)
    && (op.Ensure? ==> !pc.Start? && !pc.WaitWrite? && !pc.InWrite? && !pc.Exec?)
    && (!op.Ping? && !op.Close? && (pc.WaitWrite? || pc.InWrite? || pc.Exec? || pc.Commit?) ==> initialized)
  }

  /** The steps from the write lock on. */
  function Tail(op: Op): nat {
    match op
    case Write(_, size) => size + 4
    case Read => 3
    case Ping => 3
    case Close => 2
    case Ensure => 0
  }

  /** The steps an operation has left: with the tables still to create, ten more. */
  function Left(pc: Pc, op: Op, initialized: bool): int {
    match pc
    case Idle => 0
    case Start(_) => Tail(op) + (if op.Ping? then 1 else if initialized then 3 else 13)
    case EnsureUsable(_) => Tail(op) + if initialized then 2 else 12
    case EnsureInit(_) => Tail(op) + if initialized then 1 else 11
    case WaitInit(_) => Tail(op) + if initialized then 2 else 10
    case InInit(_) => Tail(op) + if initialized then 1 else 9
    case WaitBoth(_) => Tail(op) + 8
    case InBoth(_) => Tail(op) + 7
    case Ddl(_, k) => Tail(op) + 6 - k
    case WaitWrite(_) => Tail(op)
    case InWrite(_) => Tail(op) - 1
    case Exec(_, k) => if op.Write? then op.size + 2 - k else 1
    case Commit(_) => 1
    case _ => 0
  }

  lemma AloneStep(db: Db, pc: Pc, c: Choice, id: nat, op: Op)
    requires FlagsOk(db) && db.usable && OnCourse(pc, op, db.initialized) && c.ok
    requires pc.HoldsWrite() ==> PlaceOk(db, pc)
    ensures var (db', pc') := Advance(db, pc, c, id);
            && (if pc'.Idle? then db' == Effect(db, op)
                else OnCourse(pc', op, db'.initialized) && db'.usable && Effect(db', op) == Effect(db, op))
            && (pc'.Idle? && op.Write? ==> pc.Commit?)
  {
  }

  lemma AloneCounts(db: Db, pc: Pc, c: Choice, id: nat, op: Op)
    requires db.usable && OnCourse(pc, op, db.initialized) && c.ok
    ensures var (db', pc') := Advance(db, pc, c, id);
            Left(pc', op, db'.initialized) == Left(pc, op, db.initialized) - 1
  {
    hide CloseLocked;
  }

  ghost predicate Free(s: State, t: Thread) {
    (s.initLock.None? || s.initLock == Some(t)) && (s.writeLock.None? || s.writeLock == Some(t))
  }

  /** One step of an operation by itself: it is not blocked and leaves the locks to nobody else. */
  lemma AloneMoves(s: State, t: Thread, c: Choice, op: Op)
    requires Inv(s) && Free(s, t) && s.db.usable && OnCourse(PcOf(s, t), op, s.db.initialized) && c.ok
    ensures var s' := Step(s, t, c);
            && Inv(s') && Free(s', t)
            && Left(PcOf(s', t), op, s'.db.initialized) == Left(PcOf(s, t), op, s.db.initialized) - 1
            && (if PcOf(s', t).Idle? then s'.db == Effect(s.db, op) && s'.initLock.None? && s'.writeLock.None?
                else
                  OnCourse(PcOf(s', t), op, s'.db.initialized) && s'.db.usable && Effect(s'.db, op) == Effect(s.db, op))
            && s'.committed == (if PcOf(s', t).Idle? && op.Write? then s.committed + [op] else s.committed)
  {
    hide Advance, Effect, Left;
    AloneStep(s.db, PcOf(s, t), c, s.nextId, op);
    AloneCounts(s.db, PcOf(s, t), c, s.nextId, op);
    AdvanceKeepsOp(s.db, PcOf(s, t), c, s.nextId);
    StepKeeps(s, t, c);
    CommitOnCourse(s.db, PcOf(s, t), c, s.nextId);
  }

  lemma CommitOnCourse(db: Db, pc: Pc, c: Choice, id: nat)
    requires c.ok
    ensures pc.Commit? ==> Advance(db, pc, c, id).1.Idle?
  {
  }

  lemma {:induction false} AloneEnds(s: State, t: Thread, c: Choice, op: Op) returns (n: nat)
    requires Inv(s) && Free(s, t) && s.db.usable && OnCourse(PcOf(s, t), op, s.db.initialized) && c.ok
    ensures n == Left(PcOf(s, t), op, s.db.initialized)
    ensures var e := Alone(s, t, c, n);
            && PcOf(e, t).Idle? && e.db == Effect(s.db, op) && e.initLock.None? && e.writeLock.None?
            && e.committed == (if op.Write? then s.committed + [op] else s.committed)
    decreases Left(PcOf(s, t), op, s.db.initialized)
  {
    LeftPositive(PcOf(s, t), op, s.db.initialized);
    hide Step, Inv, Effect, Left, OnCourse;
    var s' := Step(s, t, c);
    AloneMoves(s, t, c, op);
    if PcOf(s', t).Idle? {
      IdleLeft(op, s'.db.initialized);
      n := 1;
      assert Alone(s, t, c, 0) == s;
    } else {
      n := AloneEnds(s', t, c, op);
      AloneShift(s, t, c, n);
      n := n + 1;
    }
  }

  lemma IdleLeft(op: Op, initialized: bool)
    ensures Left(Idle, op, initialized) == 0
  {
  }

  lemma LeftPositive(pc: Pc, op: Op, initialized: bool)
    requires OnCourse(pc, op, initialized)
    ensures Left(pc, op, initialized) > 0
  {
  }

  lemma {:induction false} AloneShift(s: State, t: Thread, c: Choice, n: nat)
    ensures Alone(Step(s, t, c), t, c, n) == Alone(s, t, c, n + 1)
  {
    hide Step;
    if n > 0 { AloneShift(s, t, c, n - 1); }
  }

  /** The operation a call becomes: a write gets the next number. */
  function Numbered(op: Op, id: nat): Op { if op.Write? then Write(id, op.size) else op }

  lemma FirstStep(s: State, t: Thread, c: Choice)
    requires PcOf(s, t).Idle?
    ensures var s' := Step(s, t, c);
            && s'.db == s.db && s'.initLock == s.initLock && s'.writeLock == s.writeLock && s'.committed == s.committed
            && OnCourse(PcOf(s', t), Numbered(c.op, s.nextId), s.db.initialized)
            && Left(PcOf(s', t), Numbered(c.op, s.nextId), s.db.initialized)
               == Tail(c.op) + match c.op
                               case Close => 0
                               case Ping => 1
                               case Ensure => if s.db.initialized then 2 else 12
                               case _ => if s.db.initialized then 3 else 13
  {
  }

  /** After any run that left the store usable and the locks free, an operation
      whose calls return takes exactly these steps and has exactly its effect: a
      write commits all its statements at the end of what is durable, a close
      closes, a probe changes nothing, and what needs the tables creates them first. */
  lemma OperationAlone(steps: seq<(Thread, Choice)>, t: Thread, op: Op) returns (n: nat)
    requires var s := Run(steps);
             s.db.usable && s.initLock.None? && s.writeLock.None? && PcOf(s, t).Idle?
    ensures var s := Run(steps);
            n == match op
                 case Write(_, size) => size + (if s.db.initialized then 8 else 18)
                 case Read => if s.db.initialized then 7 else 17
                 case Ensure => if s.db.initialized then 3 else 13
                 case Ping => 5
                 case Close => 3
    ensures var (s, c) := (Run(steps), Choice(op, true, false));
            var (e, done) := (Alone(s, t, c, n), Numbered(op, s.nextId));
            && e.db == Effect(s.db, done) && PcOf(e, t).Idle? && e.initLock.None? && e.writeLock.None?
            && e.committed == (if op.Write? then s.committed + [done] else s.committed)
  {
    var (s, c) := (Run(steps), Choice(op, true, false));
    Reachable(steps);
    hide Step, Inv, Effect, Left, OnCourse, Run, Alone;
    FirstStep(s, t, c);
    StepKeeps(s, t, c);
    n := AloneEnds(Step(s, t, c), t, c, Numbered(op, s.nextId));
    AloneShift(s, t, c, n);
    n := n + 1;
  }

  /** In particular a write commits. */
  lemma UndisturbedWriteCommits(steps: seq<(Thread, Choice)>, t: Thread, size: nat) returns (n: nat)
    requires var s := Run(steps);
             s.db.usable && s.initLock.None? && s.writeLock.None? && PcOf(s, t).Idle?
    ensures n == size + if Run(steps).db.initialized then 8 else 18
    ensures var (s, c) := (Run(steps), Choice(Write(0, size), true, false));
            var e := Alone(s, t, c, n);
            && e.committed == s.committed + [Write(s.nextId, size)]
            && e.db.durable == s.db.durable + Block(s.nextId, size)
            && e.db.usable && e.db.initialized
  {
    n := OperationAlone(steps, t, Write(0, size));
  }

  // --------------------------------------------------- the running program

  /** The store object, running one lock hold at a time. */
  class TaskStore {
    var usable: bool
    var initialized: bool
    var closed: bool
    var closes: nat
    var inTx: bool
    var pending: seq<Stmt>
    var durable: seq<Stmt>

    constructor ()
      ensures Contents() == Initial.db
    {
      usable, initialized, closed, closes := true, false, false, 0;
      inTx, pending, durable := false, [], [];
    }

    function Contents(): Db
      reads this
    {
      Db(usable, initialized, closed, closes, inTx, pending, durable)
    }

    /** Afterwards the store is unusable and its connection closed, by this call
        or an earlier one; committed writes stay, an open transaction is gone. */
    method CloseConnectionLocked()
      modifies this
      ensures Contents() == CloseLocked(old(Contents()))
      ensures closed && !usable && !initialized && durable == old(durable)
      ensures closes == old(closes) + if old(closed) then 0 else 1
      ensures FlagsOk(old(Contents())) ==> FlagsOk(Contents()) && closes == 1 && !inTx && pending == []
    {
      usable := false;
      initialized := false;
      if closed {
        return;
      }
      closed := true;
      closes := closes + 1;
      inTx, pending := false, [];
    }

    method Rollback(ok: bool) returns (done: bool)
      modifies this
      ensures Contents() == RollbackLocked(old(Contents()), ok) && done == ok
      ensures FlagsOk(old(Contents())) ==> FlagsOk(Contents()) && !inTx && pending == [] && closes <= 1
      ensures durable == old(durable) && usable == (old(usable) && ok) && (!ok ==> closed)
    {
      if ok {
        inTx, pending := false, [];
        return true;
      }
      CloseConnectionLocked();
      return false;
    }

    /** The body of a write under its lock: a cursor, `size` statements and the
        commit.  `failing` is the call that raises, counted from the cursor, if
        it is among them.  Either all statements become durable or none does, no
        transaction stays open, and only a failed rollback closes the store. */
    method WriteLocked(id: nat, size: nat, failing: nat, rollbackOk: bool) returns (done: bool)
      requires FlagsOk(Contents()) && !inTx
      modifies this
      ensures FlagsOk(Contents()) && !inTx
      ensures done == (old(usable) && failing > size + 1)
      ensures durable == old(durable) + if done then Block(id, size) else []
      ensures usable == (old(usable) && (done || rollbackOk))
    {
      if !usable {
        return false;
      }
      if failing == 0 {
        var _ := Rollback(rollbackOk);
        return false;
      }
      var k := 0;
      while k < size
        invariant k <= size && k < failing
        invariant inTx == (k > 0) && pending == Block(id, k)
        invariant durable == old(durable) && usable && FlagsOk(Contents())
      {
        inTx := true;
        k := k + 1;
        if k == failing {
          var _ := Rollback(rollbackOk);
          return false;
        }
        pending := pending + [Stmt(id, k)];
      }
      if failing == size + 1 {
        var _ := Rollback(rollbackOk);
        return false;
      }
      durable := durable + pending;
      inTx, pending := false, [];
      return true;
    }
  }
}

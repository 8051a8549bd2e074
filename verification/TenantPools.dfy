/** The LRU map of reference-counted tenant pools (backend/app/db/session.py).

    `Registry` holds everything `_tenant_lock` guards.  Each lock-held block of
    the source is one function on it; each unlocked pool call is one further
    step of a thread.  `PoolMap` below runs the same blocks on mutable fields. */
module TenantPools {
  import opened FiniteSets
  import opened Wrappers

  /** One item of the ordered map: a tenant name and the identity of its entry object. */
  datatype Slot = Slot(name: string, entry: nat)

  /** `lru` runs from the oldest to the newest item; `inUse` is each entry's
      reference count; `closed` are the entries whose pool had `closeall` run. */
  datatype Registry = Registry(lru: seq<Slot>, inUse: map<nat, int>, closed: set<nat>, next: nat)

  // ---------------------------------------------------------------- the map

  function IndexOf(lru: seq<Slot>, name: string): (i: nat)
    ensures i <= |lru|
    ensures i < |lru| ==> lru[i].name == name
    ensures forall k :: 0 <= k < i ==> lru[k].name != name
  {
    if lru == [] then 0 else if lru[0].name == name then 0 else 1 + IndexOf(lru[1..], name)
  }

  function Find(lru: seq<Slot>, name: string): Option<nat> {
    var i := IndexOf(lru, name);
    if i < |lru| then Some(lru[i].entry) else None
  }

  function Without(lru: seq<Slot>, i: nat): (r: seq<Slot>)
    requires i < |lru|
    ensures |r| == |lru| - 1
    ensures forall k :: 0 <= k < |r| ==> r[k] == if k < i then lru[k] else lru[k + 1]
  {
    lru[..i] + lru[i + 1..]
  }

  function InUse(r: Registry, entry: nat): int {
    if entry in r.inUse then r.inUse[entry] else 0
  }

  /** Position of the oldest idle item from `i` on, or the length of the map if all are busy. */
  function FirstIdle(r: Registry, i: nat := 0): (k: nat)
    requires i <= |r.lru|
    ensures i <= k <= |r.lru|
    ensures k < |r.lru| ==> InUse(r, r.lru[k].entry) == 0
    ensures forall j :: i <= j < k ==> InUse(r, r.lru[j].entry) != 0
    decreases |r.lru| - i
  {
    if i == |r.lru| then i
    else if InUse(r, r.lru[i].entry) == 0 then i
    else FirstIdle(r, i + 1)
  }

  function EvictIfIdle(r: Registry): Registry {
    var k := FirstIdle(r);
    if k == |r.lru| then r
    else r.(lru := Without(r.lru, k), closed := r.closed + {r.lru[k].entry})
  }

  /** Evicts until the map is below `cap` or nothing in it is idle. */
  function MakeRoom(r: Registry, cap: nat): Registry
    decreases |r.lru|
  {
    if |r.lru| < cap || FirstIdle(r) == |r.lru| then r else MakeRoom(EvictIfIdle(r), cap)
  }

  function TakeRef(r: Registry, entry: nat): Registry {
    r.(inUse := r.inUse[entry := InUse(r, entry) + 1])
  }

  /** A new entry object, not yet referenced, at the newest end. */
  function Insert(r: Registry, name: string): Registry {
    Registry(r.lru + [Slot(name, r.next)], r.inUse[r.next := 0], r.closed, r.next + 1)
  }

  /** The lock-held block of a checkout; `built` says whether the pool builder
      returns, and the result is None when it raises. */
  function Checkout(r: Registry, name: string, built: bool, cap: nat): (Registry, Option<nat>) {
    var i := IndexOf(r.lru, name);
    if i < |r.lru| then
      var slot := r.lru[i];
      (TakeRef(r.(lru := Without(r.lru, i) + [slot]), slot.entry), Some(slot.entry))
    else
      var room := MakeRoom(r, cap);
      if !built then (room, None) else (TakeRef(Insert(room, name), room.next), Some(room.next))
  }

  function Max(a: int, b: int): int { if a < b then b else a }

  /** `current is entry` test followed by the clamped decrement. */
  function DropRef(r: Registry, name: string, entry: nat): Registry {
    if Find(r.lru, name) == Some(entry)
    then r.(inUse := r.inUse[entry := Max(0, InUse(r, entry) - 1)])
    else r
  }

  // ------------------------------------------------------------ the threads

  /** Where a thread stands in `get_db_session`.  `entry` is the entry whose
      count the thread raised; `found` is the one `_release_tenant` looked up;
      `again` marks the release of a connection found closed at checkout,
      after which the checkout is repeated once. */
  datatype Pc =
    | Idle
    | Retry(name: string)
    | Getting(name: string, entry: nat, second: bool)
    | GetFailed(name: string, entry: nat)
    | Body(name: string, entry: nat)
    | Lookup(name: string, entry: nat, again: bool)
    | Putting(name: string, entry: nat, found: nat, again: bool)
    | Dropping(name: string, entry: nat, found: nat, again: bool)
  {
    predicate Refs() { !Idle? && !Retry? }
  }

  type Thread = nat

  /** `last` is a history variable: the tick of each entry's latest checkout. */
  datatype State = State(reg: Registry, threads: map<Thread, Pc>, last: map<nat, nat>, tick: nat)

  /** What the environment decides in one step: which tenant a new session asks
      for, whether the pool call of the step returns, and whether the
      connection handed out turns out to be closed. */
  datatype Choice = Choice(name: string, ok: bool, dead: bool)

  function PcOf(s: State, t: Thread): Pc {
    if t in s.threads then s.threads[t] else Idle
  }

  function Goto(s: State, t: Thread, pc: Pc): State { s.(threads := s.threads[t := pc]) }

  function CheckoutStep(s: State, t: Thread, name: string, second: bool, built: bool, cap: nat): State {
    var (reg, entry) := Checkout(s.reg, name, built, cap);
    match entry
    case None => State(reg, s.threads[t := Idle], s.last, s.tick)
    case Some(e) => State(reg, s.threads[t := Getting(name, e, second)], s.last[e := s.tick], s.tick + 1)
  }

  function AfterRelease(name: string, again: bool): Pc { if again then Retry(name) else Idle }

  function Step(s: State, t: Thread, c: Choice, cap: nat): State {
    match PcOf(s, t)
    case Idle => CheckoutStep(s, t, c.name, false, c.ok, cap)
    case Retry(name) => CheckoutStep(s, t, name, true, c.ok, cap)
    case Getting(n, e, second) =>
      if !c.ok then Goto(s, t, GetFailed(n, e))
      else if !second && c.dead then Goto(s, t, Lookup(n, e, true))
      else Goto(s, t, Body(n, e))
    case GetFailed(n, e) => Goto(s.(reg := DropRef(s.reg, n, e)), t, Idle)
    case Body(n, e) => Goto(s, t, Lookup(n, e, false))
    case Lookup(n, e, again) =>
      (match Find(s.reg.lru, n)
       case None => Goto(s, t, AfterRelease(n, again))
       case Some(f) => Goto(s, t, Putting(n, e, f, again)))
    case Putting(n, e, f, again) => Goto(s, t, Dropping(n, e, f, again))
    case Dropping(n, e, f, again) => Goto(s.(reg := DropRef(s.reg, n, f)), t, AfterRelease(n, again))
  }

  const Initial := State(Registry([], map[], {}, 0), map[], map[], 0)

  /** The state after an interleaving: each action is a thread and its choice. */
  function Exec(run: seq<(Thread, Choice)>, cap: nat): State {
    if run == [] then Initial
    else Step(Exec(run[..|run| - 1], cap), run[|run| - 1].0, run[|run| - 1].1, cap)
  }

  // ---------------------------------------------------------- the invariant

  /** The threads whose reference is on `entry`. */
  ghost function Users(threads: map<Thread, Pc>, entry: nat): set<Thread> {
    set t | t in threads && threads[t].Refs() && threads[t].entry == entry
  }

  ghost predicate Distinct(lru: seq<Slot>) {
    forall i, j :: 0 <= i < j < |lru| ==> lru[i].name != lru[j].name && lru[i].entry != lru[j].entry
  }

  ghost predicate MapOk(r: Registry) {
    && Distinct(r.lru)
    && (forall x :: x in r.lru ==> x.entry < r.next && x.entry !in r.closed)
    && (forall e :: e in r.closed ==> e < r.next)
  }

  /** Each entry's counter is the number of threads referencing it. */
  ghost predicate CountsOk(r: Registry, threads: map<Thread, Pc>) {
    forall x :: x in r.lru ==> InUse(r, x.entry) == |Users(threads, x.entry)|
  }

  ghost predicate Live(pc: Pc, lru: seq<Slot>) {
    pc.Refs() ==>
      && Slot(pc.name, pc.entry) in lru
      && (pc.Putting? || pc.Dropping? ==> pc.found == pc.entry)
  }

  /** Each referenced entry is still the map's entry for its name. */
  ghost predicate RefsOk(lru: seq<Slot>, threads: map<Thread, Pc>) {
    forall t :: t in threads ==> Live(threads[t], lru)
  }

  /** Map order is the order of last checkouts. */
  ghost predicate OrderOk(lru: seq<Slot>, last: map<nat, nat>, tick: nat) {
    && (forall i :: 0 <= i < |lru| ==> lru[i].entry in last && last[lru[i].entry] < tick)
    && (forall i, j :: 0 <= i < j < |lru| ==> last[lru[i].entry] < last[lru[j].entry])
  }

  ghost predicate Inv(s: State) {
    && MapOk(s.reg)
    && CountsOk(s.reg, s.threads)
    && RefsOk(s.reg.lru, s.threads)
    && OrderOk(s.reg.lru, s.last, s.tick)
  }

  lemma FindSlot(lru: seq<Slot>, name: string, entry: nat)
    requires Distinct(lru) && Slot(name, entry) in lru
    ensures Find(lru, name) == Some(entry)
  {
    var k :| 0 <= k < |lru| && lru[k] == Slot(name, entry);
    assert IndexOf(lru, name) <= k;
  }

  lemma WithoutMember(lru: seq<Slot>, i: nat, x: Slot)
    requires i < |lru| && Distinct(lru)
    ensures x in Without(lru, i) <==> x in lru && x != lru[i]
  {
    if x in lru && x != lru[i] {
      var j :| 0 <= j < |lru| && lru[j] == x;
      assert Without(lru, i)[if j < i then j else j - 1] == x;
    }
    if x in Without(lru, i) {
      var j :| 0 <= j < |lru| - 1 && Without(lru, i)[j] == x;
      assert lru[if j < i then j else j + 1] == x;
    }
  }

  // ------------------------------------------------------ eviction keeps it

  lemma WithoutKeepsDistinct(lru: seq<Slot>, k: nat)
    requires Distinct(lru) && k < |lru|
    ensures Distinct(Without(lru, k))
    ensures forall x :: x in Without(lru, k) ==> x in lru && x.entry != lru[k].entry
  {
    forall x | x in Without(lru, k) ensures x in lru && x.entry != lru[k].entry {
      WithoutMember(lru, k, x);
      var j :| 0 <= j < |lru| && lru[j] == x;
    }
  }

  lemma WithoutKeepsOrder(lru: seq<Slot>, k: nat, last: map<nat, nat>, tick: nat)
    requires OrderOk(lru, last, tick) && k < |lru|
    ensures OrderOk(Without(lru, k), last, tick)
  {
  }

  lemma WithoutKeepsRefs(lru: seq<Slot>, k: nat, threads: map<Thread, Pc>)
    requires Distinct(lru) && k < |lru| && RefsOk(lru, threads) && Users(threads, lru[k].entry) == {}
    ensures RefsOk(Without(lru, k), threads)
  {
    forall t | t in threads ensures Live(threads[t], Without(lru, k)) {
      if threads[t].Refs() {
        assert t in Users(threads, threads[t].entry);
        WithoutMember(lru, k, Slot(threads[t].name, threads[t].entry));
      }
    }
  }

  lemma EvictKeeps(s: State)
    requires Inv(s)
    ensures Inv(s.(reg := EvictIfIdle(s.reg)))
  {
    var k := FirstIdle(s.reg);
    if k < |s.reg.lru| {
      assert s.reg.lru[k] in s.reg.lru;
      assert Users(s.threads, s.reg.lru[k].entry) == {};
      WithoutKeepsDistinct(s.reg.lru, k);
      WithoutKeepsOrder(s.reg.lru, k, s.last, s.tick);
      WithoutKeepsRefs(s.reg.lru, k, s.threads);
    }
  }

  lemma {:induction false} MakeRoomKeeps(s: State, cap: nat)
    requires Inv(s)
    ensures Inv(s.(reg := MakeRoom(s.reg, cap)))
    decreases |s.reg.lru|
  {
    if |s.reg.lru| < cap || FirstIdle(s.reg) == |s.reg.lru| {
    } else {
      EvictKeeps(s);
      MakeRoomKeeps(s.(reg := EvictIfIdle(s.reg)), cap);
    }
  }

  // ---------------------------------------------------- checkouts keep it

  /** Changing one thread's program counter, user set by user set. */
  lemma UsersMove(threads: map<Thread, Pc>, t: Thread, pc: Pc, entry: nat)
    ensures Users(threads[t := pc], entry)
         == (if pc.Refs() && pc.entry == entry then Users(threads, entry) + {t} else Users(threads, entry) - {t})
    ensures t in Users(threads, entry) <==> t in threads && threads[t].Refs() && threads[t].entry == entry
  {
  }

  /** A thread without a reference takes one on an entry of the map. */
  lemma TakeKeeps(r: Registry, threads: map<Thread, Pc>, t: Thread, pc: Pc)
    requires MapOk(r) && CountsOk(r, threads) && RefsOk(r.lru, threads)
    requires t in threads ==> !threads[t].Refs()
    requires pc.Getting? && Slot(pc.name, pc.entry) in r.lru
    ensures MapOk(TakeRef(r, pc.entry))
    ensures CountsOk(TakeRef(r, pc.entry), threads[t := pc])
    ensures RefsOk(r.lru, threads[t := pc])
  {
    hide Users;
    forall x | x in r.lru ensures InUse(TakeRef(r, pc.entry), x.entry) == |Users(threads[t := pc], x.entry)| {
      UsersMove(threads, t, pc, x.entry);
    }
  }

  lemma RequeueKeepsDistinct(lru: seq<Slot>, i: nat)
    requires Distinct(lru) && i < |lru|
    ensures Distinct(Without(lru, i) + [lru[i]])
    ensures forall x :: x in Without(lru, i) + [lru[i]] <==> x in lru
  {
    forall x ensures x in Without(lru, i) + [lru[i]] <==> x in lru {
      WithoutMember(lru, i, x);
    }
  }

  lemma RequeueKeepsOrder(lru: seq<Slot>, i: nat, last: map<nat, nat>, tick: nat)
    requires Distinct(lru) && OrderOk(lru, last, tick) && i < |lru|
    ensures OrderOk(Without(lru, i) + [lru[i]], last[lru[i].entry := tick], tick + 1)
  {
    forall k | 0 <= k < |lru| && k != i ensures lru[k].entry != lru[i].entry {}
  }

  lemma MoveToEnd(s: State, i: nat)
    requires Inv(s) && i < |s.reg.lru|
    ensures var lru := Without(s.reg.lru, i) + [s.reg.lru[i]];
            Inv(State(s.reg.(lru := lru), s.threads, s.last[s.reg.lru[i].entry := s.tick], s.tick + 1))
  {
    hide Distinct, OrderOk;
    RequeueKeepsDistinct(s.reg.lru, i);
    RequeueKeepsOrder(s.reg.lru, i, s.last, s.tick);
  }

  lemma HitKeeps(s: State, t: Thread, name: string, second: bool, built: bool, cap: nat)
    requires Inv(s) && !PcOf(s, t).Refs() && IndexOf(s.reg.lru, name) < |s.reg.lru|
    ensures Inv(CheckoutStep(s, t, name, second, built, cap))
  {
    var i := IndexOf(s.reg.lru, name);
    var slot := s.reg.lru[i];
    var r := s.reg.(lru := Without(s.reg.lru, i) + [slot]);
    MoveToEnd(s, i);
    assert r.lru[|r.lru| - 1] == slot;
    TakeKeeps(r, s.threads, t, Getting(name, slot.entry, second));
  }

  /** A new entry, still without users, joins the end of the map. */
  lemma InsertKeeps(s: State, name: string)
    requires Inv(s) && forall x :: x in s.reg.lru ==> x.name != name
    ensures Inv(State(Insert(s.reg, name), s.threads, s.last[s.reg.next := s.tick], s.tick + 1))
    ensures Slot(name, s.reg.next) in Insert(s.reg, name).lru
  {
    var e := s.reg.next;
    var lru := s.reg.lru + [Slot(name, e)];
    forall i | 0 <= i < |s.reg.lru| ensures lru[i].entry < e && lru[i].name != name {
      assert lru[i] in s.reg.lru;
    }
    assert Distinct(lru);
    assert OrderOk(lru, s.last[e := s.tick], s.tick + 1);
    forall u | u in s.threads && s.threads[u].Refs() ensures s.threads[u].entry < e {
      assert Live(s.threads[u], s.reg.lru);
    }
    assert Users(s.threads, e) == {};
    assert lru[|s.reg.lru|] == Slot(name, e);
  }

  lemma {:induction false} MakeRoomShrinks(r: Registry, cap: nat)
    ensures forall x :: x in MakeRoom(r, cap).lru ==> x in r.lru
    decreases |r.lru|
  {
    if |r.lru| < cap || FirstIdle(r) == |r.lru| {
    } else {
      MakeRoomShrinks(EvictIfIdle(r), cap);
    }
  }

  lemma MissKeeps(s: State, t: Thread, name: string, second: bool, built: bool, cap: nat)
    requires Inv(s) && !PcOf(s, t).Refs() && IndexOf(s.reg.lru, name) == |s.reg.lru|
    ensures Inv(CheckoutStep(s, t, name, second, built, cap))
  {
    MakeRoomKeeps(s, cap);
    MakeRoomShrinks(s.reg, cap);
    var room := MakeRoom(s.reg, cap);
    if built {
      InsertKeeps(s.(reg := room), name);
      TakeKeeps(Insert(room, name), s.threads, t, Getting(name, room.next, second));
    } else {
      IdleKeeps(room, s.threads, t);
    }
  }

  /** A thread without a reference moves to another place without one. */
  lemma IdleKeeps(r: Registry, threads: map<Thread, Pc>, t: Thread)
    requires CountsOk(r, threads) && RefsOk(r.lru, threads)
    requires t in threads ==> !threads[t].Refs()
    ensures CountsOk(r, threads[t := Idle]) && RefsOk(r.lru, threads[t := Idle])
  {
    forall x | x in r.lru ensures InUse(r, x.entry) == |Users(threads[t := Idle], x.entry)| {
      UsersMove(threads, t, Idle, x.entry);
      assert Users(threads[t := Idle], x.entry) == Users(threads, x.entry);
    }
  }

  // ----------------------------------------------------- releases keep it

  /** A thread with a reference keeps it while it moves on. */
  lemma StayKeeps(r: Registry, threads: map<Thread, Pc>, t: Thread, pc: Pc)
    requires CountsOk(r, threads) && RefsOk(r.lru, threads)
    requires t in threads && threads[t].Refs() && pc.Refs()
    requires pc.name == threads[t].name && pc.entry == threads[t].entry
    requires pc.Putting? || pc.Dropping? ==> pc.found == pc.entry
    ensures CountsOk(r, threads[t := pc]) && RefsOk(r.lru, threads[t := pc])
  {
    forall x | x in r.lru ensures InUse(r, x.entry) == |Users(threads[t := pc], x.entry)| {
      UsersMove(threads, t, pc, x.entry);
      assert Users(threads[t := pc], x.entry) == Users(threads, x.entry);
    }
  }

  /** The decrement: the entry is found, its count is positive, and it loses one user. */
  lemma DropKeeps(r: Registry, threads: map<Thread, Pc>, t: Thread, pc: Pc)
    requires MapOk(r) && CountsOk(r, threads) && RefsOk(r.lru, threads)
    requires t in threads && threads[t].Refs() && !pc.Refs()
    ensures Find(r.lru, threads[t].name) == Some(threads[t].entry)
    ensures InUse(r, threads[t].entry) >= 1
    ensures var r' := DropRef(r, threads[t].name, threads[t].entry);
               MapOk(r') && CountsOk(r', threads[t := pc]) && RefsOk(r'.lru, threads[t := pc])
  {
    var e := threads[t].entry;
    FindSlot(r.lru, threads[t].name, e);
    assert t in Users(threads, e);
    var r' := DropRef(r, threads[t].name, e);
    forall x | x in r'.lru ensures InUse(r', x.entry) == |Users(threads[t := pc], x.entry)| {
      UsersMove(threads, t, pc, x.entry);
    }
  }

  // ----------------------------------------------------------- every run

  lemma StepKeeps(s: State, t: Thread, c: Choice, cap: nat)
    requires Inv(s)
    ensures Inv(Step(s, t, c, cap))
  {
    hide CountsOk, OrderOk, CheckoutStep;
    match PcOf(s, t)
    case Idle =>
      if IndexOf(s.reg.lru, c.name) < |s.reg.lru| {
        HitKeeps(s, t, c.name, false, c.ok, cap);
      } else {
        MissKeeps(s, t, c.name, false, c.ok, cap);
      }
    case Retry(name) =>
      if IndexOf(s.reg.lru, name) < |s.reg.lru| {
        HitKeeps(s, t, name, true, c.ok, cap);
      } else {
        MissKeeps(s, t, name, true, c.ok, cap);
      }
    case Getting(n, e, second) =>
      StayKeeps(s.reg, s.threads, t, Step(s, t, c, cap).threads[t]);
    case GetFailed(n, e) =>
      DropKeeps(s.reg, s.threads, t, Idle);
    case Body(n, e) =>
      StayKeeps(s.reg, s.threads, t, Lookup(n, e, false));
    case Lookup(n, e, again) =>
      assert Live(s.threads[t], s.reg.lru);
      FindSlot(s.reg.lru, n, e);
      StayKeeps(s.reg, s.threads, t, Putting(n, e, e, again));
    case Putting(n, e, f, again) =>
      assert Live(s.threads[t], s.reg.lru);
      StayKeeps(s.reg, s.threads, t, Dropping(n, e, f, again));
    case Dropping(n, e, f, again) =>
      assert Live(s.threads[t], s.reg.lru);
      DropKeeps(s.reg, s.threads, t, AfterRelease(n, again));
  }

  lemma {:induction false} Reachable(run: seq<(Thread, Choice)>, cap: nat)
    ensures Inv(Exec(run, cap))
  {
    if run != [] {
      var n := |run| - 1;
      Reachable(run[..n], cap);
      StepKeeps(Exec(run[..n], cap), run[n].0, run[n].1, cap);
    }
  }

  /** In every interleaving: a counter is the number of threads holding the
      entry, a held entry is the map's entry for its name, and no pool that
      `closeall` ran on is held. */
  lemma ReferencesAreExact(run: seq<(Thread, Choice)>, cap: nat, t: Thread)
    ensures var s := Exec(run, cap);
            && (forall x :: x in s.reg.lru ==> InUse(s.reg, x.entry) == |Users(s.threads, x.entry)|)
            && (PcOf(s, t).Refs() ==>
                  && Find(s.reg.lru, PcOf(s, t).name) == Some(PcOf(s, t).entry)
                  && InUse(s.reg, PcOf(s, t).entry) >= 1
                  && PcOf(s, t).entry !in s.reg.closed)
  {
    Reachable(run, cap);
    var s := Exec(run, cap);
    if PcOf(s, t).Refs() {
      assert Live(s.threads[t], s.reg.lru);
      FindSlot(s.reg.lru, s.threads[t].name, s.threads[t].entry);
      assert t in Users(s.threads, s.threads[t].entry);
    }
  }

  /** The two defensive tests of the source never fire: the release finds the
      entry the thread itself holds, the identity test succeeds and the
      decrement is exactly one. */
  lemma DefencesNeverFire(run: seq<(Thread, Choice)>, cap: nat, t: Thread, c: Choice)
    ensures var s := Exec(run, cap);
            var s' := Step(s, t, c, cap);
            match PcOf(s, t)
            case Lookup(n, e, again) => PcOf(s', t) == Putting(n, e, e, again)
            case GetFailed(n, e) => s'.reg == s.reg.(inUse := s.reg.inUse[e := InUse(s.reg, e) - 1])
            case Dropping(n, e, f, again) => f == e && s'.reg == s.reg.(inUse := s.reg.inUse[e := InUse(s.reg, e) - 1])
            case _ => true
  {
    Reachable(run, cap);
    var s := Exec(run, cap);
    if PcOf(s, t).Refs() {
      assert Live(s.threads[t], s.reg.lru);
      ReferencesAreExact(run, cap, t);
    }
  }

  // --------------------------------------------- closed connections

  /** Step k of the run is t's, and there t stands at `pc`. */
  ghost predicate At(run: seq<(Thread, Choice)>, cap: nat, t: Thread, k: nat, pc: Pc) {
    k < |run| && run[k].0 == t && PcOf(Exec(run[..k], cap), t) == pc
  }

  lemma OthersStay(s: State, t: Thread, u: Thread, c: Choice, cap: nat)
    requires u != t
    ensures PcOf(Step(s, u, c, cap), t) == PcOf(s, t)
  {
    hide Checkout, DropRef, Find;
  }

  /** Places from the discovery of a closed connection to the second `getconn`. */
  predicate Replacing(pc: Pc) {
    pc.Retry? || (pc.Getting? && pc.second) || ((pc.Lookup? || pc.Putting? || pc.Dropping?) && pc.again)
  }

  lemma NotAtFirst(t: Thread)
    ensures !Replacing(PcOf(Initial, t)) && !PcOf(Initial, t).Body?
  {
  }

  lemma ReplacingBefore(s: State, t: Thread, c: Choice, cap: nat)
    requires Replacing(PcOf(Step(s, t, c, cap), t))
    ensures Replacing(PcOf(s, t)) || (PcOf(s, t).Getting? && !PcOf(s, t).second && c.ok && c.dead)
    ensures Replacing(PcOf(s, t)) ==> PcOf(s, t).name == PcOf(Step(s, t, c, cap), t).name
    ensures !Replacing(PcOf(s, t)) ==> PcOf(Step(s, t, c, cap), t) == Lookup(PcOf(s, t).name, PcOf(s, t).entry, true)
  {
  }

  /** A thread replacing a connection got one at its first checkout that was closed. */
  lemma {:induction false} ReplacingCause(run: seq<(Thread, Choice)>, cap: nat, t: Thread) returns (k: nat, entry: nat)
    requires Replacing(PcOf(Exec(run, cap), t))
    ensures At(run, cap, t, k, Getting(PcOf(Exec(run, cap), t).name, entry, false)) && run[k].1.ok && run[k].1.dead
    ensures forall j :: k < j <= |run| ==> Replacing(PcOf(Exec(run[..j], cap), t))
  {
    hide Step, Replacing, PcOf;
    NotAtFirst(t);
    var n := |run| - 1;
    var s := Exec(run[..n], cap);
    assert run[..|run|] == run;
    if run[n].0 != t {
      OthersStay(s, t, run[n].0, run[n].1, cap);
    } else {
      ReplacingBefore(s, t, run[n].1, cap);
    }
    if Replacing(PcOf(s, t)) {
      k, entry := ReplacingCause(run[..n], cap, t);
      forall j | k < j <= |run| ensures Replacing(PcOf(Exec(run[..j], cap), t)) {
        if j <= n { assert run[..n][..j] == run[..j]; }
      }
      assert run[..n][..k] == run[..k];
    } else {
      k, entry := n, PcOf(s, t).entry;
    }
  }

  lemma BodyBefore(s: State, t: Thread, c: Choice, cap: nat)
    requires PcOf(Step(s, t, c, cap), t).Body?
    ensures PcOf(s, t).Getting? && c.ok && (c.dead ==> PcOf(s, t).second)
  {
  }

  /** In every interleaving a body runs on a connection that was found open at
      the first checkout, or on the second one after a first was found closed. */
  lemma {:induction false} BodyConnectionIsFresh(run: seq<(Thread, Choice)>, cap: nat, t: Thread)
    returns (k: nat, entry: nat, second: bool)
    requires PcOf(Exec(run, cap), t).Body?
    ensures At(run, cap, t, k, Getting(PcOf(Exec(run, cap), t).name, entry, second)) && run[k].1.ok
    ensures if second then Replacing(PcOf(Exec(run[..k], cap), t)) else !run[k].1.dead
  {
    var n := |run| - 1;
    var s := Exec(run[..n], cap);
    if run[n].0 != t {
      OthersStay(s, t, run[n].0, run[n].1, cap);
      k, entry, second := BodyConnectionIsFresh(run[..n], cap, t);
      assert run[..n][..k] == run[..k];
    } else {
      BodyBefore(s, t, run[n].1, cap);
      k, entry, second := n, PcOf(s, t).entry, PcOf(s, t).second;
    }
  }

  function StepsOf(run: seq<(Thread, Choice)>, t: Thread): nat {
    if run == [] then 0 else StepsOf(run[..|run| - 1], t) + if run[|run| - 1].0 == t then 1 else 0
  }

  /** Where a thread that found its connection closed stands after n own steps. */
  predicate Replaced(pc: Pc, name: string, entry: nat, n: nat) {
    match n
    case 0 => pc == Lookup(name, entry, true)
    case 1 => pc == Putting(name, entry, entry, true)
    case 2 => pc == Dropping(name, entry, entry, true)
    case 3 => pc == Retry(name)
    case _ => true
  }

  lemma ReplacedNext(s: State, t: Thread, c: Choice, cap: nat, name: string, entry: nat, n: nat)
    requires Inv(s) && Replaced(PcOf(s, t), name, entry, n)
    ensures Replaced(PcOf(Step(s, t, c, cap), t), name, entry, n + 1)
  {
    if n == 0 {
      assert Live(s.threads[t], s.reg.lru);
      FindSlot(s.reg.lru, name, entry);
    }
  }

  lemma ExecSnoc(run: seq<(Thread, Choice)>, cap: nat, last: (Thread, Choice))
    ensures Exec(run + [last], cap) == Step(Exec(run, cap), last.0, last.1, cap)
  {
    assert (run + [last])[..|run|] == run;
  }

  lemma {:induction false} ReplacedAfter(run: seq<(Thread, Choice)>, more: seq<(Thread, Choice)>, cap: nat, t: Thread,
                                         name: string, entry: nat)
    requires PcOf(Exec(run, cap), t) == Lookup(name, entry, true)
    ensures Replaced(PcOf(Exec(run + more, cap), t), name, entry, StepsOf(more, t))
  {
    hide Exec, Step, Inv, PcOf;
    if more == [] {
      assert run + more == run;
    } else {
      hide Replaced;
      var n := |more| - 1;
      ReplacedAfter(run, more[..n], cap, t, name, entry);
      assert run + more == (run + more[..n]) + [more[n]];
      ExecSnoc(run + more[..n], cap, more[n]);
      var s := Exec(run + more[..n], cap);
      Reachable(run + more[..n], cap);
      if more[n].0 == t {
        ReplacedNext(s, t, more[n].1, cap, name, entry, StepsOf(more[..n], t));
      } else {
        OthersStay(s, t, more[n].0, more[n].1, cap);
      }
    }
  }

  lemma DeadIsReleased(s: State, t: Thread, c: Choice, cap: nat)
    requires PcOf(s, t).Getting? && !PcOf(s, t).second && c.ok && c.dead
    ensures PcOf(Step(s, t, c, cap), t) == Lookup(PcOf(s, t).name, PcOf(s, t).entry, true)
  {
  }

  /** Whatever others do, a thread whose first checkout hands out a closed
      connection returns it in three further steps and then checks out again. */
  lemma ClosedIsReplaced(run: seq<(Thread, Choice)>, c: Choice, more: seq<(Thread, Choice)>, cap: nat, t: Thread)
    requires PcOf(Exec(run, cap), t).Getting? && !PcOf(Exec(run, cap), t).second && c.ok && c.dead
    ensures var (pc, e) := (PcOf(Exec(run, cap), t), Exec(run + [(t, c)] + more, cap));
            Replaced(PcOf(e, t), pc.name, pc.entry, StepsOf(more, t))
  {
    hide Exec, Step, Replaced, PcOf;
    var pc := PcOf(Exec(run, cap), t);
    DeadIsReleased(Exec(run, cap), t, c, cap);
    ExecSnoc(run, cap, (t, c));
    ReplacedAfter(run + [(t, c)], more, cap, t, pc.name, pc.entry);
  }

  /** That checkout, unless a pool has to be built and cannot be, gets the thread
      to its second `getconn`, from which no third checkout follows. */
  lemma SecondIsLast(s: State, t: Thread, c: Choice, d: Choice, cap: nat)
    requires PcOf(s, t).Retry?
    ensures var s' := Step(s, t, c, cap);
            && (c.ok ==> PcOf(s', t).Getting? && PcOf(s', t).second && PcOf(s', t).name == PcOf(s, t).name)
            && (PcOf(s', t).Getting? ==> PcOf(Step(s', t, d, cap), t).Body? == d.ok)
  {
  }

  // ------------------------------------------------------- what is evicted

  /** Making room evicts idle entries only, each less recently checked out than
      every idle entry that stays, and stops once there is room. */
  lemma {:induction false} EvictsLeastRecent(s: State, cap: nat)
    requires Inv(s)
    ensures var room := MakeRoom(s.reg, cap);
            && (forall x :: x in room.lru ==> x in s.reg.lru)
            && (forall x :: x in s.reg.lru && x !in room.lru ==> InUse(s.reg, x.entry) == 0 && x.entry in room.closed)
            && (forall x, y :: x in s.reg.lru && x !in room.lru && y in room.lru && InUse(s.reg, y.entry) == 0 ==>
                  s.last[x.entry] < s.last[y.entry])
            && (|room.lru| < cap || forall y :: y in room.lru ==> InUse(s.reg, y.entry) != 0)
            && (room == s.reg || |room.lru| + 1 >= cap)
    decreases |s.reg.lru|
  {
    if |s.reg.lru| < cap {
    } else if FirstIdle(s.reg) == |s.reg.lru| {
    } else {
      var k := FirstIdle(s.reg);
      var e := EvictIfIdle(s.reg);
      EvictKeeps(s);
      EvictsLeastRecent(s.(reg := e), cap);
      ClosedGrows(e, cap);
      forall x ensures x in e.lru <==> x in s.reg.lru && x != s.reg.lru[k] {
        WithoutMember(s.reg.lru, k, x);
      }
    }
  }

  /** A pool builder that raises costs the caller its session, not the map its
      room: the evictions have been made, nothing has been added. */
  lemma FailedBuild(run: seq<(Thread, Choice)>, cap: nat, t: Thread, c: Choice)
    requires var s := Exec(run, cap);
             && (PcOf(s, t).Idle? || PcOf(s, t).Retry?) && !c.ok
             && Find(s.reg.lru, if PcOf(s, t).Idle? then c.name else PcOf(s, t).name).None?
    ensures var (s, s') := (Exec(run, cap), Step(Exec(run, cap), t, c, cap));
            && PcOf(s', t).Idle? && s'.reg.inUse == s.reg.inUse && s'.reg.next == s.reg.next
            && (forall x :: x in s'.reg.lru ==> x in s.reg.lru)
            && (|s'.reg.lru| < cap || forall x :: x in s'.reg.lru ==> InUse(s.reg, x.entry) != 0)
  {
    Reachable(run, cap);
    var s := Exec(run, cap);
    EvictsLeastRecent(s, cap);
    MakeRoomCounts(s.reg, cap);
  }

  lemma {:induction false} MakeRoomCounts(r: Registry, cap: nat)
    ensures MakeRoom(r, cap).inUse == r.inUse && MakeRoom(r, cap).next == r.next
    decreases |r.lru|
  {
    if |r.lru| < cap || FirstIdle(r) == |r.lru| {
    } else {
      MakeRoomCounts(EvictIfIdle(r), cap);
    }
  }

  lemma {:induction false} ClosedGrows(r: Registry, cap: nat)
    ensures r.closed <= MakeRoom(r, cap).closed
    decreases |r.lru|
  {
    if |r.lru| < cap || FirstIdle(r) == |r.lru| {
    } else {
      ClosedGrows(EvictIfIdle(r), cap);
    }
  }

  // ------------------------------------------------------- the size bound

  ghost function Holders(threads: map<Thread, Pc>): set<Thread> {
    set t | t in threads && threads[t].Refs()
  }

  /** The largest number of references held at one time during the run. */
  ghost function Peak(run: seq<(Thread, Choice)>, cap: nat): nat {
    var now := |Holders(Exec(run, cap).threads)|;
    if run == [] then now else Max(Peak(run[..|run| - 1], cap), now)
  }

  ghost function HoldersUpTo(lru: seq<Slot>, threads: map<Thread, Pc>): set<Thread> {
    set t | t in threads && threads[t].Refs() && exists x :: x in lru && x.entry == threads[t].entry
  }

  lemma {:induction false} BusyMap(lru: seq<Slot>, threads: map<Thread, Pc>)
    requires Distinct(lru) && forall x :: x in lru ==> Users(threads, x.entry) != {}
    ensures |HoldersUpTo(lru, threads)| >= |lru|
  {
    if lru != [] {
      var n := |lru| - 1;
      BusyMap(lru[..n], threads);
      var t :| t in Users(threads, lru[n].entry);
      var before := HoldersUpTo(lru[..n], threads);
      assert t !in before;
      assert before + {t} <= HoldersUpTo(lru, threads) by {
        assert lru[n] in lru;
      }
      SubsetSize(before + {t}, HoldersUpTo(lru, threads));
    }
  }

  lemma RoomSize(s: State, cap: nat)
    requires Inv(s)
    ensures |MakeRoom(s.reg, cap).lru| <= |s.reg.lru|
    ensures |MakeRoom(s.reg, cap).lru| < cap || |MakeRoom(s.reg, cap).lru| <= |Holders(s.threads)|
  {
    SameSize(s.reg, cap);
    EvictsLeastRecent(s, cap);
    var room := MakeRoom(s.reg, cap).lru;
    if |room| >= cap {
      MakeRoomKeeps(s, cap);
      forall x | x in room ensures Users(s.threads, x.entry) != {} {
        assert x in s.reg.lru;
      }
      BusyMap(room, s.threads);
      SubsetSize(HoldersUpTo(room, s.threads), Holders(s.threads));
    }
  }

  lemma CheckoutSize(s: State, t: Thread, name: string, second: bool, built: bool, cap: nat)
    requires Inv(s) && !PcOf(s, t).Refs()
    ensures var s' := CheckoutStep(s, t, name, second, built, cap);
            |s'.reg.lru| <= Max(|s.reg.lru|, Max(cap, |Holders(s'.threads)|))
  {
    var (reg, entry) := Checkout(s.reg, name, built, cap);
    if IndexOf(s.reg.lru, name) == |s.reg.lru| {
      RoomSize(s, cap);
      if built {
        HolderJoins(s.threads, t, Getting(name, entry.value, second));
      }
    } else {
      assert |reg.lru| == |s.reg.lru|;
    }
  }

  lemma HolderJoins(threads: map<Thread, Pc>, t: Thread, pc: Pc)
    requires pc.Refs() && (t in threads ==> !threads[t].Refs())
    ensures |Holders(threads[t := pc])| == |Holders(threads)| + 1
  {
    assert Holders(threads[t := pc]) == Holders(threads) + {t};
  }

  lemma StepSize(s: State, t: Thread, c: Choice, cap: nat)
    requires Inv(s)
    ensures var s' := Step(s, t, c, cap);
            |s'.reg.lru| <= Max(|s.reg.lru|, Max(cap, |Holders(s'.threads)|))
  {
    match PcOf(s, t)
    case Idle => CheckoutSize(s, t, c.name, false, c.ok, cap);
    case Retry(name) => CheckoutSize(s, t, name, true, c.ok, cap);
    case _ =>
  }

  lemma {:induction false} SameSize(r: Registry, cap: nat)
    ensures |MakeRoom(r, cap).lru| <= |r.lru|
    decreases |r.lru|
  {
    if |r.lru| < cap || FirstIdle(r) == |r.lru| {
    } else {
      SameSize(EvictIfIdle(r), cap);
    }
  }

  const MAX_TENANT_POOLS: nat := 100

  /** Over any run the map holds at most `cap` pools, or as many as were
      referenced at one time if that was more. */
  lemma {:induction false} SizeBound(run: seq<(Thread, Choice)>, cap: nat)
    ensures |Exec(run, cap).reg.lru| <= Max(cap, Peak(run, cap))
  {
    if run != [] {
      var n := |run| - 1;
      SizeBound(run[..n], cap);
      Reachable(run[..n], cap);
      StepSize(Exec(run[..n], cap), run[n].0, run[n].1, cap);
    }
  }

  // -------------------------------------------- one block, taken by itself

  ghost predicate RegOk(r: Registry) {
    MapOk(r) && forall e :: e in r.inUse ==> e < r.next && r.inUse[e] >= 0
  }

  lemma {:induction false} MakeRoomAlone(r: Registry, cap: nat)
    requires RegOk(r)
    ensures RegOk(MakeRoom(r, cap)) && MakeRoom(r, cap).inUse == r.inUse && MakeRoom(r, cap).next == r.next
    decreases |r.lru|
  {
    if |r.lru| < cap || FirstIdle(r) == |r.lru| {
    } else {
      WithoutKeepsDistinct(r.lru, FirstIdle(r));
      assert r.lru[FirstIdle(r)] in r.lru;
      MakeRoomAlone(EvictIfIdle(r), cap);
    }
  }

  lemma InsertAlone(r: Registry, name: string)
    requires RegOk(r) && forall x :: x in r.lru ==> x.name != name
    ensures RegOk(Insert(r, name)) && Find(Insert(r, name).lru, name) == Some(r.next)
    ensures forall x: nat :: InUse(Insert(r, name), x) == InUse(r, x)
  {
    var lru := Insert(r, name).lru;
    assert forall k :: 0 <= k < |r.lru| ==> r.lru[k] in r.lru;
    assert Distinct(lru);
    assert lru[|r.lru|] == Slot(name, r.next);
    FindSlot(lru, name, r.next);
  }

  /** One checkout raises the count of exactly the entry it returns, which is
      then the map's entry for the name; it fails only when the builder does. */
  lemma CheckoutEffect(r: Registry, name: string, built: bool, cap: nat)
    requires RegOk(r)
    ensures var (r', e) := Checkout(r, name, built, cap);
            && RegOk(r')
            && (e.None? <==> Find(r.lru, name).None? && !built)
            && (forall x: nat :: InUse(r', x) == InUse(r, x) + if e == Some(x) then 1 else 0)
            && (e.Some? ==> Find(r'.lru, name) == e)
  {
    var i := IndexOf(r.lru, name);
    var (r', e) := Checkout(r, name, built, cap);
    if i < |r.lru| {
      RequeueKeepsDistinct(r.lru, i);
      assert r.lru[i] in r.lru;
      FindSlot(r'.lru, name, e.value);
    } else {
      MakeRoomAlone(r, cap);
      MakeRoomShrinks(r, cap);
      if built { InsertAlone(MakeRoom(r, cap), name); }
    }
  }

  // --------------------------------------------------- the running program

  /** How a piece of code ends: it returns, it raises an `Exception`, or it is left
      by something else, such as a closed generator or a cancelled task. */
  datatype End = Returns | Raises | Left

  /** How the environment answers one `get_db_session`: pool building and
      `getconn` at each checkout, whether the first connection is already
      closed, the body, the commit, whether a failure is a connection error,
      and whether each `putconn` is accepted. */
  datatype Env = Env(built: bool, got: bool, dead: bool, put: bool, got2: bool,
                     body: End, commit: End, broken: bool, put2: bool)

  /** What a session did: connections obtained, put back for reuse, put back to
      be discarded and closed directly; commits and rollbacks attempted. */
  datatype Tally = Tally(got: nat, recycled: nat, discarded: nat, shut: nat, commits: nat, rollbacks: nat)

  /** The module state of the source: the ordered map and the counters. */
  class PoolMap {
    var lru: seq<Slot>
    var inUse: map<nat, int>
    var closed: set<nat>
    var next: nat
    const cap: nat := MAX_TENANT_POOLS

    constructor ()
      ensures cap == 100 && Reg() == Initial.reg
    {
      lru, inUse, closed, next := [], map[], {}, 0;
    }

    function Reg(): Registry
      reads this
    {
      Registry(lru, inUse, closed, next)
    }

    method EvictIdle()
      modifies this
      ensures Reg() == EvictIfIdle(old(Reg()))
    {
      var i := 0;
      while i < |lru|
        invariant i <= |lru| && Reg() == old(Reg())
        invariant FirstIdle(Reg()) == FirstIdle(Reg(), i)
      {
        var slot := lru[i];
        if InUse(Reg(), slot.entry) == 0 {
          lru := lru[..i] + lru[i + 1..];
          closed := closed + {slot.entry};
          return;
        }
        i := i + 1;
      }
    }

    method CheckoutLocked(name: string, built: bool) returns (entry: Option<nat>)
      modifies this
      ensures (Reg(), entry) == Checkout(old(Reg()), name, built, cap)
    {
      var i := IndexOf(lru, name);
      if i == |lru| {
        while |lru| >= cap
          invariant MakeRoom(Reg(), cap) == MakeRoom(old(Reg()), cap)
          decreases |lru|
        {
          var before := |lru|;
          EvictIdle();
          if |lru| == before {
            break;
          }
        }
        if !built {
          return None;
        }
        lru := lru + [Slot(name, next)];
        inUse := inUse[next := 0];
        entry := Some(next);
        next := next + 1;
      } else {
        var slot := lru[i];
        lru := lru[..i] + lru[i + 1..] + [slot];
        entry := Some(slot.entry);
      }
      inUse := inUse[entry.value := InUse(Reg(), entry.value) + 1];
    }

    method DropReference(name: string, entry: nat)
      modifies this
      ensures Reg() == DropRef(old(Reg()), name, entry)
    {
      var i := IndexOf(lru, name);
      if i < |lru| && lru[i].entry == entry {
        inUse := inUse[entry := Max(0, InUse(Reg(), entry) - 1)];
      }
    }

    /** A connection attempt outside the lock, undone under the lock when it fails. */
    method CheckoutTenant(name: string, built: bool, got: bool) returns (entry: Option<nat>)
      requires RegOk(Reg())
      modifies this
      ensures RegOk(Reg())
      ensures entry.Some? <==> got && (built || old(Find(lru, name)).Some?)
      ensures forall x: nat :: InUse(Reg(), x) == old(InUse(Reg(), x)) + if entry == Some(x) then 1 else 0
      ensures got && entry.Some? ==> Find(lru, name) == entry
      ensures Find(lru, name).Some? <== built || old(Find(lru, name)).Some?
    {
      CheckoutEffect(Reg(), name, built, cap);
      entry := CheckoutLocked(name, built);
      if entry.Some? && !got {
        DropReference(name, entry.value);
        entry := None;
      }
    }

    /** Looks the entry up again, returns the connection outside the lock and
        drops one reference; a name the map does not know closes the connection. */
    method ReleaseTenant(name: string, close: bool, put: bool, tally: Tally) returns (after: Tally)
      requires RegOk(Reg())
      modifies this
      ensures RegOk(Reg()) && lru == old(lru)
      ensures forall x: nat :: InUse(Reg(), x)
                            == if old(Find(lru, name)) == Some(x) then Max(0, old(InUse(Reg(), x)) - 1)
                               else old(InUse(Reg(), x))
      ensures after == if !put || Find(lru, name).None? then tally.(shut := tally.shut + 1)
                       else if close then tally.(discarded := tally.discarded + 1)
                       else tally.(recycled := tally.recycled + 1)
    {
      var found := Find(lru, name);
      if found.None? || !put {
        after := tally.(shut := tally.shut + 1);
      } else if close {
        after := tally.(discarded := tally.discarded + 1);
      } else {
        after := tally.(recycled := tally.recycled + 1);
      }
      if found.Some? {
        DropReference(name, found.value);
      }
    }

    /** The checkout part of a session: a connection found closed is given up,
        to its pool or directly, and replaced once; the session is entered with
        exactly one connection in hand, a second one if the first was closed. */
    method OpenSession(name: string, env: Env) returns (entered: bool, tally: Tally)
      requires RegOk(Reg())
      modifies this
      ensures RegOk(Reg())
      ensures entered == (env.got && (env.built || old(Find(lru, name)).Some?) && (env.dead ==> env.got2))
      ensures entered ==> Find(lru, name).Some?
      ensures forall x: nat :: InUse(Reg(), x) == old(InUse(Reg(), x))
                             + if entered && Find(lru, name) == Some(x) then 1 else 0
      ensures var first := env.got && (env.built || old(Find(lru, name)).Some?);
              && tally.got == (if !first then 0 else if env.dead && env.got2 then 2 else 1)
              && tally.discarded == (if first && env.dead && env.put then 1 else 0)
              && tally.shut == (if first && env.dead && !env.put then 1 else 0)
              && tally.commits == tally.rollbacks == tally.recycled == 0
      ensures entered ==> tally.got - tally.discarded - tally.shut == 1 && (env.dead <==> tally.got == 2)
    {
      tally := Tally(0, 0, 0, 0, 0, 0);
      var entry := CheckoutTenant(name, env.built, env.got);
      if entry.None? {
        return false, tally;
      }
      tally := tally.(got := 1);
      if env.dead {
        tally := ReleaseTenant(name, true, env.put, tally);
        entry := CheckoutTenant(name, false, env.got2);
        if entry.None? {
          return false, tally;
        }
        tally := tally.(got := 2);
      }
      entered := true;
    }

    /** One whole session.  On every path each counter is what it was, every
        connection obtained went back or was closed, the commit is attempted
        exactly when the body ran and returned, a rollback exactly when the body
        or the commit raised an exception, the session succeeds only if both
        returned, a connection is recycled unless it raised and is broken, and a
        second one was obtained, after giving up the first before the body,
        exactly when the first was closed. */
    method GetDbSession(name: string, env: Env) returns (ok: bool, tally: Tally)
      requires RegOk(Reg())
      modifies this
      ensures RegOk(Reg())
      ensures forall x: nat :: InUse(Reg(), x) == old(InUse(Reg(), x))
      ensures tally.got == tally.recycled + tally.discarded + tally.shut
      ensures var entered := env.got && (env.built || old(Find(lru, name)).Some?) && (env.dead ==> env.got2);
              var raised := env.body.Raises? || (env.body.Returns? && env.commit.Raises?);
              && tally.commits == (if entered && env.body.Returns? then 1 else 0)
              && tally.rollbacks == (if entered && raised then 1 else 0)
              && ok == (entered && env.body.Returns? && env.commit.Returns?)
              && tally.recycled == (if entered && env.put2 && !(raised && env.broken) then 1 else 0)
              && tally.got == (if env.got && (env.built || old(Find(lru, name)).Some?)
                               then (if env.dead && env.got2 then 2 else 1) else 0)
              && (entered ==> (tally.got == 2 <==> env.dead))
              && tally.discarded
                 == (if tally.got > 0 && env.dead && env.put then 1 else 0)
                    + (if entered && env.put2 && raised && env.broken then 1 else 0)
    {
      var entered;
      entered, tally := OpenSession(name, env);
      if !entered {
        return false, tally;
      }
      var end := env.body;
      if end.Returns? {
        tally := tally.(commits := 1);
        end := env.commit;
      }
      var broken := false;
      if end.Raises? {
        broken := env.broken;
        tally := tally.(rollbacks := 1);
      }
      tally := ReleaseTenant(name, broken, env.put2, tally);
      ok := end.Returns?;
    }
  }
}

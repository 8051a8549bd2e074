/** The bounded task history (backend/app/storage/sqlite.py:290-399 and
    backend/app/storage/postgres.py:272-394), which trims on every append. */
module HistoryStore {
  import opened FiniteSets
  import opened Wrappers
  import opened Timestamps
  import opened Listing

  datatype Backend = Sqlite | Postgres

  type Payload = map<string, string>

  type Aware = s: Stamp | Valid(s) witness EPOCH

  datatype Row = Row(kind: string, user: string, event: Aware, payload: Payload)

  /** Rows under their primary key; `serial` is PostgreSQL's sequence. */
  datatype Table = Table(rows: map<nat, Row>, serial: nat)

  // ------------------------------------------------------------- the order

  predicate Later(b: Backend, x: Aware, y: Aware) {
    match b
    case Sqlite => TextLess(Iso(y), Iso(x))
    case Postgres => Instant(y) < Instant(x)
  }

  /** `event_time DESC, id DESC`: a row with time x and id i comes before one with y and j. */
  predicate Before(b: Backend, x: Aware, i: nat, y: Aware, j: nat) {
    Later(b, x, y) || (!Later(b, y, x) && i > j)
  }

  function ListingOrder(b: Backend, rows: map<nat, Row>): Order {
    set i, j | i in rows && j in rows && Before(b, rows[i].event, i, rows[j].event, j) :: (i, j)
  }

  lemma LaterIsWeakOrder(b: Backend, x: Aware, y: Aware, z: Aware)
    ensures !(Later(b, x, y) && Later(b, y, x))
    ensures Later(b, x, y) && Later(b, y, z) ==> Later(b, x, z)
    ensures Later(b, x, z) ==> Later(b, x, y) || Later(b, y, z)
  {
    if b == Sqlite {
      var (p, q, r) := (Iso(x), Iso(y), Iso(z));
      TextTotal(q, p);
      TextTotal(r, q);
      TextTotal(r, p);
      if TextLess(r, q) && TextLess(q, p) { TextTransitive(r, q, p); }
      if TextLess(r, p) && TextLess(p, q) { TextTransitive(r, p, q); }
    }
  }

  lemma BeforeLaws(b: Backend, x: Aware, i: nat, y: Aware, j: nat, z: Aware, k: nat)
    ensures i != j ==> Before(b, x, i, y, j) != Before(b, y, j, x, i)
    ensures Before(b, x, i, y, j) && Before(b, y, j, z, k) ==> Before(b, x, i, z, k)
  {
    hide Later;
    LaterIsWeakOrder(b, x, y, z);
    LaterIsWeakOrder(b, z, y, x);
    LaterIsWeakOrder(b, x, z, y);
    LaterIsWeakOrder(b, y, x, z);
  }

  lemma ListingOrderTotal(b: Backend, rows: map<nat, Row>)
    ensures StrictTotal(ListingOrder(b, rows), rows.Keys)
  {
    hide Before;
    forall i, j, k | i in rows && j in rows && k in rows
      ensures i != j ==> ((i, j) in ListingOrder(b, rows)) != ((j, i) in ListingOrder(b, rows))
      ensures (i, j) in ListingOrder(b, rows) && (j, k) in ListingOrder(b, rows) ==> (i, k) in ListingOrder(b, rows)
    {
      BeforeLaws(b, rows[i].event, i, rows[j].event, j, rows[k].event, k);
    }
  }

  // ------------------------------------------------------- the statements

  /** `ORDER BY event_time DESC, id DESC LIMIT n` over the rows `s`. */
  function Newest(b: Backend, rows: map<nat, Row>, s: set<nat>, n: nat): (r: seq<nat>)
    requires s <= rows.Keys
    ensures forall k :: 0 <= k < |r| ==> r[k] in s
  {
    ListingOrderTotal(b, rows);
    Select(ListingOrder(b, rows), s, n)
  }

  /** The WHERE clause: one kind, and one user unless none is named. */
  function Matching(rows: map<nat, Row>, kind: string, user: string): set<nat> {
    set i | i in rows && rows[i].kind == kind && (user == "" || rows[i].user == user)
  }

  function MaxId(s: set<nat>): (m: nat)
    requires s != {}
    ensures m in s && forall j :: j in s ==> j <= m
  {
    assert exists m :: m in s && forall j :: j in s ==> j <= m by {
      var _, m := Extremes(s);
    }
    var m :| m in s && forall j :: j in s ==> j <= m;
    m
  }

  /** SQLite hands out the largest id in the table plus one, so an id comes back
      after its row is trimmed; PostgreSQL's sequence never repeats. */
  function NextId(b: Backend, t: Table): (id: nat)
    ensures b == Sqlite ==> id >= 1 && (forall i :: i in t.rows ==> i < id) && (id == 1 || id - 1 in t.rows)
    ensures b == Postgres ==> id == t.serial + 1
  {
    match b
    case Sqlite => if t.rows.Keys == {} then 1 else MaxId(t.rows.Keys) + 1
    case Postgres => t.serial + 1
  }

  function Insert(b: Backend, t: Table, row: Row): Table {
    var id := NextId(b, t);
    Table(t.rows[id := row], if b == Postgres then id else t.serial)
  }

  /** Deletes the rows of one kind and user that are not among its newest `keep`. */
  function Trim(b: Backend, rows: map<nat, Row>, kind: string, user: string, keep: nat): map<nat, Row> {
    var mine := Matching(rows, kind, user);
    var kept := Newest(b, rows, mine, keep);
    map i | i in rows && (i !in mine || i in kept) :: rows[i]
  }

  function Append(b: Backend, t: Table, row: Row, keep: nat): Table {
    var t' := Insert(b, t, row);
    t'.(rows := Trim(b, t'.rows, row.kind, row.user, keep))
  }

  /** `max(1, min(int(n or 500), 5000))`. */
  function Clamp(n: int): (m: nat)
    ensures 1 <= m <= 5000
    ensures 1 <= n <= 5000 ==> m == n
    ensures n > 5000 ==> m == 5000
    ensures n < 0 ==> m == 1
    ensures n == 0 ==> m == 500
  {
    var m := if n == 0 then 500 else n;
    if m < 1 then 1 else if m > 5000 then 5000 else m
  }

  /** A record with what parsing its `timestamp` and `updated_at` fields gave. */
  datatype Record = Record(payload: Payload, timestamp: Option<Aware>, updated: Option<Aware>)

  datatype Call = Call(kind: string, user: string, record: Record, maxRecords: int, now: Aware)

  function RowOf(c: Call): Row {
    var event := if c.record.timestamp.Some? then c.record.timestamp.value
                 else if c.record.updated.Some? then c.record.updated.value
                 else c.now;
    Row(c.kind, c.user, event, c.record.payload)
  }

  predicate Accepted(c: Call) { c.kind != "" && c.user != "" }

  function AppendCall(b: Backend, t: Table, c: Call): Table {
    if Accepted(c) then Append(b, t, RowOf(c), Clamp(c.maxRecords)) else t
  }

  function Shape(row: Row, user: string): Payload {
    if user == "" then row.payload["user_id" := row.user] else row.payload
  }

  function Shapes(rows: map<nat, Row>, ids: seq<nat>, user: string): seq<Payload>
    requires forall k :: 0 <= k < |ids| ==> ids[k] in rows
  {
    seq(|ids|, k requires 0 <= k < |ids| => Shape(rows[ids[k]], user))
  }

  function List(b: Backend, rows: map<nat, Row>, kind: string, user: string, limit: int): seq<Payload> {
    if kind == "" then []
    else
      Shapes(rows, Newest(b, rows, Matching(rows, kind, user), Clamp(limit)), user)
  }

  function Run(b: Backend, calls: seq<Call>): Table {
    if calls == [] then Table(map[], 0)
    else AppendCall(b, Run(b, calls[..|calls| - 1]), calls[|calls| - 1])
  }

  /** The untrimmed history: every accepted row under its place in the sequence of calls. */
  function Log(calls: seq<Call>): map<nat, Row> {
    map i: nat | i < |calls| && Accepted(calls[i]) :: RowOf(calls[i])
  }

  // --------------------------------------------- ids follow insertion order

  /** Which call each surviving row came from. */
  ghost function Origin(b: Backend, calls: seq<Call>): map<nat, nat> {
    if calls == [] then map[]
    else
      var n := |calls| - 1;
      var t := Run(b, calls[..n]);
      var before := Origin(b, calls[..n]);
      if !Accepted(calls[n]) then before
      else
        Surviving(before[NextId(b, t) := n], Run(b, calls).rows)
  }

  ghost function Surviving(origin: map<nat, nat>, rows: map<nat, Row>): map<nat, nat> {
    map i | i in origin && i in rows :: origin[i]
  }

  ghost predicate Follows(rows: map<nat, Row>, origin: map<nat, nat>, log: map<nat, Row>) {
    && origin.Keys == rows.Keys
    && (forall i :: i in rows ==> origin[i] in log && log[origin[i]] == rows[i])
    && (forall i, j :: i in rows && j in rows && i < j ==> origin[i] < origin[j])
  }

  lemma FollowsInsert(rows: map<nat, Row>, origin: map<nat, nat>, log: map<nat, Row>,
                      log': map<nat, Row>, id: nat, n: nat)
    requires Follows(rows, origin, log)
    requires forall i :: i in rows ==> i < id
    requires forall i :: i in log ==> i < n && i in log' && log'[i] == log[i]
    requires n in log'
    ensures Follows(rows[id := log'[n]], origin[id := n], log')
  {
  }

  lemma FollowsPart(rows: map<nat, Row>, part: map<nat, Row>, origin: map<nat, nat>, log: map<nat, Row>)
    requires Follows(rows, origin, log)
    requires forall i :: i in part ==> i in rows && part[i] == rows[i]
    ensures Follows(part, Surviving(origin, part), log)
  {
  }

  /** Ids are ordered as their rows were appended, although SQLite reuses them. */
  lemma {:induction false} IdsFollowInsertion(b: Backend, calls: seq<Call>)
    ensures Follows(Run(b, calls).rows, Origin(b, calls), Log(calls))
    ensures b == Postgres ==> forall i :: i in Run(b, calls).rows ==> i <= Run(b, calls).serial
  {
    if calls != [] {
      var n := |calls| - 1;
      IdsFollowInsertion(b, calls[..n]);
      var t := Run(b, calls[..n]);
      var (origin, log) := (Origin(b, calls[..n]), Log(calls[..n]));
      if Accepted(calls[n]) {
        var id := NextId(b, t);
        FollowsInsert(t.rows, origin, log, Log(calls), id, n);
        FollowsPart(Insert(b, t, RowOf(calls[n])).rows, Run(b, calls).rows, origin[id := n], Log(calls));
      } else {
        assert Log(calls) == log;
      }
    }
  }

  lemma FollowsEmbeds(b: Backend, rows: map<nat, Row>, origin: map<nat, nat>, log: map<nat, Row>)
    requires Follows(rows, origin, log)
    ensures Embeds(origin, ListingOrder(b, rows), ListingOrder(b, log), rows.Keys)
  {
  }

  // ----------------------------------------------------- trimming is unseen

  /** Every row that some listing of the untrimmed log with limit n can show survives. */
  ghost predicate Covers(b: Backend, origin: map<nat, nat>, log: map<nat, Row>, n: nat) {
    forall kind, user, i :: user != "" && i in Newest(b, log, Matching(log, kind, user), n) ==> i in origin.Values
  }

  /** The survivors of the rows of one kind and user, as places in the log. */
  lemma ImageOfMatching(rows: map<nat, Row>, origin: map<nat, nat>, log: map<nat, Row>, kind: string, user: string)
    requires Follows(rows, origin, log)
    ensures Matching(rows, kind, user) <= origin.Keys
    ensures forall i :: i in Image(origin, Matching(rows, kind, user)) <==>
              i in origin.Values && i in Matching(log, kind, user)
  {
  }

  /** Selecting from the table and selecting from the survivors in the log agree row by row. */
  lemma NewestRenamed(b: Backend, rows: map<nat, Row>, origin: map<nat, nat>, log: map<nat, Row>, s: set<nat>, n: nat)
    requires Follows(rows, origin, log) && s <= rows.Keys
    ensures Image(origin, s) <= log.Keys
    ensures |Newest(b, rows, s, n)| == |Newest(b, log, Image(origin, s), n)|
    ensures forall k :: 0 <= k < |Newest(b, rows, s, n)| ==>
              origin[Newest(b, rows, s, n)[k]] == Newest(b, log, Image(origin, s), n)[k]
  {
    hide Before;
    FollowsEmbeds(b, rows, origin, log);
    ListingOrderTotal(b, rows);
    ListingOrderTotal(b, log);
    SelectRenamed(ListingOrder(b, rows), ListingOrder(b, log), origin, s, n);
  }

  /** Selections look at the selected rows only. */
  lemma NewestFrame(b: Backend, rows: map<nat, Row>, rows': map<nat, Row>, s: set<nat>, n: nat)
    requires s <= rows.Keys && s <= rows'.Keys && forall i :: i in s ==> rows[i] == rows'[i]
    ensures Newest(b, rows, s, n) == Newest(b, rows', s, n)
  {
    hide Before;
    ListingOrderTotal(b, rows);
    ListingOrderTotal(b, rows');
    SelectAgrees(ListingOrder(b, rows), ListingOrder(b, rows'), s, n);
  }

  lemma NewestInPart(b: Backend, rows: map<nat, Row>, s: set<nat>, part: set<nat>, n: nat, keep: nat, i: nat)
    requires part <= s <= rows.Keys && i in part && i in Newest(b, rows, s, n) && n <= keep
    ensures i in Newest(b, rows, part, keep)
  {
    hide Before;
    ListingOrderTotal(b, rows);
    SelectInPart(ListingOrder(b, rows), s, part, n, i);
    SelectLonger(ListingOrder(b, rows), part, n, keep);
  }

  /** A row that listings of the longer log can show is the new one or was shown before. */
  lemma ShownBefore(b: Backend, log: map<nat, Row>, at: nat, row: Row, kind: string, user: string, n: nat, i: nat)
    requires at !in log && i != at
    requires i in Newest(b, log[at := row], Matching(log[at := row], kind, user), n)
    ensures i in Newest(b, log, Matching(log, kind, user), n)
  {
    hide Before;
    var log1 := log[at := row];
    var before := Matching(log, kind, user);
    assert before <= Matching(log1, kind, user);
    NewestInPart(b, log1, Matching(log1, kind, user), before, n, n, i);
    NewestFrame(b, log1, log, before, n);
  }

  /** A trim keeps the rows that listings of n rows can show. */
  lemma TrimKeepsShown(b: Backend, rows: map<nat, Row>, origin: map<nat, nat>, log: map<nat, Row>,
                       kind: string, user: string, keep: nat, n: nat, j: nat)
    requires Follows(rows, origin, log) && n <= keep && j in rows
    requires origin[j] in Newest(b, log, Matching(log, kind, user), n)
    ensures j in Trim(b, rows, kind, user, keep)
  {
    hide Before;
    var (mine, i) := (Matching(rows, kind, user), origin[j]);
    ImageOfMatching(rows, origin, log, kind, user);
    NewestInPart(b, log, Matching(log, kind, user), Image(origin, mine), n, keep, i);
    NewestRenamed(b, rows, origin, log, mine, keep);
    var k :| 0 <= k < |Newest(b, log, Image(origin, mine), keep)| && Newest(b, log, Image(origin, mine), keep)[k] == i;
    assert origin[Newest(b, rows, mine, keep)[k]] == origin[j];
  }

  /** An append keeps the newest n rows of every user as long as it keeps n rows. */
  lemma AppendCovers(b: Backend, t: Table, origin: map<nat, nat>, log: map<nat, Row>,
                     id: nat, at: nat, row: Row, keep: nat, n: nat)
    requires Follows(t.rows, origin, log) && Covers(b, origin, log, n) && n <= keep
    requires id == NextId(b, t) && id !in t.rows && at !in log && row.user != ""
    requires Follows(t.rows[id := row], origin[id := at], log[at := row])
    ensures Covers(b, Surviving(origin[id := at], Append(b, t, row, keep).rows), log[at := row], n)
  {
    hide Before;
    hide Newest;
    var (rows1, origin1, log1) := (t.rows[id := row], origin[id := at], log[at := row]);
    var kept := Append(b, t, row, keep).rows;
    forall kind, user, i | user != "" && i in Newest(b, log1, Matching(log1, kind, user), n)
      ensures i in Surviving(origin1, kept).Values
    {
      var j := id;
      if i != at {
        ShownBefore(b, log, at, row, kind, user, n, i);
        assert i in origin.Values;
        j :| j in origin && origin[j] == i;
      }
      if kind == row.kind && user == row.user {
        TrimKeepsShown(b, rows1, origin1, log1, kind, user, keep, n, j);
      }
      assert rows1[j] == log1[i] && i in Matching(log1, kind, user);
      assert Surviving(origin1, kept)[j] == i;
    }
  }

  /** What an accepted call does to the table, the origins and the log. */
  lemma CallUnfolds(b: Backend, calls: seq<Call>)
    requires calls != [] && Accepted(calls[|calls| - 1])
    ensures var n := |calls| - 1;
            var (t, row) := (Run(b, calls[..n]), RowOf(calls[n]));
            var (origin, log, id) := (Origin(b, calls[..n]), Log(calls[..n]), NextId(b, t));
            && Run(b, calls) == Append(b, t, row, Clamp(calls[n].maxRecords))
            && Origin(b, calls) == Surviving(origin[id := n], Run(b, calls).rows)
            && Log(calls) == log[n := row] && n !in log && id !in t.rows && row.user != ""
            && Follows(t.rows, origin, log)
            && Follows(t.rows[id := row], origin[id := n], Log(calls))
  {
    hide Newest, Trim;
    var n := |calls| - 1;
    IdsFollowInsertion(b, calls[..n]);
    var t := Run(b, calls[..n]);
    assert Log(calls) == Log(calls[..n])[n := RowOf(calls[n])];
    assert NextId(b, t) !in t.rows;
    FollowsInsert(t.rows, Origin(b, calls[..n]), Log(calls[..n]), Log(calls), NextId(b, t), n);
  }

  lemma AcceptedCovers(b: Backend, calls: seq<Call>, n: nat)
    requires calls != [] && Accepted(calls[|calls| - 1]) && n <= Clamp(calls[|calls| - 1].maxRecords)
    requires Covers(b, Origin(b, calls[..|calls| - 1]), Log(calls[..|calls| - 1]), n)
    ensures Covers(b, Origin(b, calls), Log(calls), n)
  {
    hide Newest, Covers, Append, Follows, Run, Origin, Log, Accepted, RowOf, Clamp, NextId, Surviving;
    var m := |calls| - 1;
    var (t, origin, log, row) := (Run(b, calls[..m]), Origin(b, calls[..m]), Log(calls[..m]), RowOf(calls[m]));
    CallUnfolds(b, calls);
    AppendCovers(b, t, origin, log, NextId(b, t), m, row, Clamp(calls[m].maxRecords), n);
  }

  lemma CallCovers(b: Backend, calls: seq<Call>, n: nat)
    requires calls != [] && n <= Clamp(calls[|calls| - 1].maxRecords)
    requires Covers(b, Origin(b, calls[..|calls| - 1]), Log(calls[..|calls| - 1]), n)
    ensures Covers(b, Origin(b, calls), Log(calls), n)
  {
    hide Covers, Clamp, Accepted, Origin, Log, Run, Newest;
    if Accepted(calls[|calls| - 1]) {
      AcceptedCovers(b, calls, n);
    } else {
      RejectedCall(b, calls);
    }
  }

  /** A rejected call changes neither the log nor what survives of it. */
  lemma RejectedCall(b: Backend, calls: seq<Call>)
    requires calls != [] && !Accepted(calls[|calls| - 1])
    ensures Log(calls) == Log(calls[..|calls| - 1]) && Origin(b, calls) == Origin(b, calls[..|calls| - 1])
  {
    hide Run, NextId, RowOf, Surviving, Newest, Clamp;
  }

  lemma {:induction false} RunCovers(b: Backend, calls: seq<Call>, n: nat)
    requires forall k :: 0 <= k < |calls| ==> n <= Clamp(calls[k].maxRecords)
    ensures Covers(b, Origin(b, calls), Log(calls), n)
  {
    if calls == [] {
      assert Matching(map[], "", "") == {};
      assert forall kind, user :: Matching(Log(calls), kind, user) == {};
    } else {
      RunCovers(b, calls[..|calls| - 1], n);
      CallCovers(b, calls, n);
    }
  }

  /** What a listing of the log can show, its user's part shows and the table kept. */
  lemma ShownSurvives(b: Backend, calls: seq<Call>, kind: string, user: string, n: nat, i: nat)
    requires Covers(b, Origin(b, calls), Log(calls), n)
    requires i in Newest(b, Log(calls), Matching(Log(calls), kind, user), n)
    ensures i in Origin(b, calls).Values
  {
    hide Before;
    var log := Log(calls);
    var own := Matching(log, kind, log[i].user);
    assert own <= Matching(log, kind, user) && i in own && log[i].user != "";
    NewestInPart(b, log, Matching(log, kind, user), own, n, n, i);
  }

  /** Trimming is invisible: whatever users and kinds the appends mixed, a
      listing that asks for no more rows than every append kept is the listing
      of the untrimmed log, for one user and for all of them. */
  lemma TrimmingIsInvisible(b: Backend, calls: seq<Call>, kind: string, user: string, limit: int)
    requires forall k :: 0 <= k < |calls| ==> Clamp(limit) <= Clamp(calls[k].maxRecords)
    ensures List(b, Run(b, calls).rows, kind, user, limit) == List(b, Log(calls), kind, user, limit)
  {
    hide Before;
    var n := Clamp(limit);
    var (rows, origin, log) := (Run(b, calls).rows, Origin(b, calls), Log(calls));
    IdsFollowInsertion(b, calls);
    RunCovers(b, calls, n);
    var (mine, all) := (Matching(rows, kind, user), Matching(log, kind, user));
    ImageOfMatching(rows, origin, log, kind, user);
    forall i | i in Newest(b, log, all, n) ensures i in Image(origin, mine) {
      ShownSurvives(b, calls, kind, user, n, i);
    }
    NewestSandwich(b, log, all, Image(origin, mine), n);
    NewestRenamed(b, rows, origin, log, mine, n);
    SameShapes(rows, origin, log, Newest(b, rows, mine, n), Newest(b, log, all, n), user);
  }

  lemma SameShapes(rows: map<nat, Row>, origin: map<nat, nat>, log: map<nat, Row>,
                   ids: seq<nat>, places: seq<nat>, user: string)
    requires Follows(rows, origin, log) && |ids| == |places|
    requires forall k :: 0 <= k < |ids| ==> ids[k] in rows && origin[ids[k]] == places[k]
    ensures forall k :: 0 <= k < |ids| ==> places[k] in log
    ensures Shapes(rows, ids, user) == Shapes(log, places, user)
  {
  }

  lemma NewestSandwich(b: Backend, rows: map<nat, Row>, s: set<nat>, part: set<nat>, n: nat)
    requires part <= s <= rows.Keys && forall i :: i in Newest(b, rows, s, n) ==> i in part
    ensures Newest(b, rows, part, n) == Newest(b, rows, s, n)
  {
    hide Before;
    ListingOrderTotal(b, rows);
    SelectSandwich(ListingOrder(b, rows), s, part, n);
  }

  /** Trimming trims: no more rows of one kind and user than the latest keep
      sizes allow, and an append leaves every other kind and user alone. */
  lemma TrimBounds(b: Backend, t: Table, row: Row, keep: nat, kind: string, user: string)
    requires user != "" && row.user != "" && NextId(b, t) !in t.rows
    ensures var t' := Append(b, t, row, keep);
            if kind == row.kind && user == row.user then |Matching(t'.rows, kind, user)| <= keep
            else Matching(t'.rows, kind, user) == Matching(t.rows, kind, user)
  {
    hide Before, Newest;
    var t1 := Insert(b, t, row);
    var t' := Append(b, t, row, keep);
    var mine := Matching(t1.rows, row.kind, row.user);
    if kind == row.kind && user == row.user {
      var kept := Newest(b, t1.rows, mine, keep);
      NewestSize(b, t1.rows, mine, keep);
      SeqSize(kept);
      SubsetSize(Matching(t'.rows, kind, user), Elements(kept));
    }
  }

  lemma NewestSize(b: Backend, rows: map<nat, Row>, s: set<nat>, n: nat)
    requires s <= rows.Keys
    ensures |Newest(b, rows, s, n)| <= n
  {
    hide Before;
    ListingOrderTotal(b, rows);
    SelectIsTop(ListingOrder(b, rows), s, n);
  }

  ghost function Elements(r: seq<nat>): set<nat> { set i | i in r }

  lemma {:induction false} SeqSize(r: seq<nat>)
    ensures |Elements(r)| <= |r|
  {
    if r != [] {
      var n := |r| - 1;
      SeqSize(r[..n]);
      assert Elements(r) == Elements(r[..n]) + {r[n]};
    }
  }

  lemma {:induction false} HistoryIsBounded(b: Backend, calls: seq<Call>, kind: string, user: string, most: nat)
    requires user != "" && forall k :: 0 <= k < |calls| ==> Clamp(calls[k].maxRecords) <= most
    ensures |Matching(Run(b, calls).rows, kind, user)| <= most
  {
    if calls == [] {
      assert Matching(map[], kind, user) == {};
    } else {
      hide Append, Matching, Follows;
      var n := |calls| - 1;
      HistoryIsBounded(b, calls[..n], kind, user, most);
      IdsFollowInsertion(b, calls[..n]);
      FreshId(b, Run(b, calls[..n]));
      if Accepted(calls[n]) {
        TrimBounds(b, Run(b, calls[..n]), RowOf(calls[n]), Clamp(calls[n].maxRecords), kind, user);
      }
    }
  }

  lemma FreshId(b: Backend, t: Table)
    requires b == Postgres ==> forall i :: i in t.rows ==> i <= t.serial
    ensures NextId(b, t) !in t.rows
  {
  }

  // -------------------------------------------------- one contract, two stores

  ghost predicate OneOffset(rows: map<nat, Row>, offset: int) {
    forall i :: i in rows ==> rows[i].event.offset == offset
  }

  lemma OrdersCoincide(rows: map<nat, Row>, offset: int)
    requires OneOffset(rows, offset)
    ensures ListingOrder(Sqlite, rows) == ListingOrder(Postgres, rows)
  {
    hide TextLess, Iso, Instant;
    forall i, j | i in rows && j in rows
      ensures Later(Sqlite, rows[i].event, rows[j].event) == Later(Postgres, rows[i].event, rows[j].event) {
      TextOrderIsTimeOrder(rows[j].event, rows[i].event);
    }
  }

  lemma KeptInLog(b: Backend, rows: map<nat, Row>, origin: map<nat, nat>, log: map<nat, Row>,
                  s: set<nat>, keep: nat, j: nat)
    requires Follows(rows, origin, log) && s <= rows.Keys && j in rows
    ensures Image(origin, s) <= log.Keys
    ensures j in Newest(b, rows, s, keep) <==> origin[j] in Newest(b, log, Image(origin, s), keep)
  {
    hide Before;
    NewestRenamed(b, rows, origin, log, s, keep);
    var (kept, places) := (Newest(b, rows, s, keep), Newest(b, log, Image(origin, s), keep));
    if origin[j] in places {
      var k :| 0 <= k < |places| && places[k] == origin[j];
      assert origin[kept[k]] == origin[j];
    }
    if j in kept {
      var k :| 0 <= k < |kept| && kept[k] == j;
      assert places[k] == origin[j];
    }
  }

  /** A trim, seen as the places in the log that survive it. */
  lemma TrimInLog(b: Backend, rows: map<nat, Row>, origin: map<nat, nat>, log: map<nat, Row>,
                  kind: string, user: string, keep: nat)
    requires Follows(rows, origin, log)
    ensures var (mine, v) := (Matching(log, kind, user), origin.Values);
            forall i :: i in Surviving(origin, Trim(b, rows, kind, user, keep)).Values
                        <==> i in v && (i !in mine || i in Newest(b, log, v * mine, keep))
  {
    hide Newest, ListingOrder;
    var (mine, v) := (Matching(log, kind, user), origin.Values);
    var ids := Matching(rows, kind, user);
    var after := Surviving(origin, Trim(b, rows, kind, user, keep));
    ImageOfMatching(rows, origin, log, kind, user);
    assert Image(origin, ids) == v * mine;
    forall i | i in v ensures i in after.Values <==> (i !in mine || i in Newest(b, log, v * mine, keep)) {
      var j :| j in origin && origin[j] == i;
      assert i in mine <==> j in ids;
      KeptInLog(b, rows, origin, log, ids, keep, j);
      assert j in after <==> i in after.Values by {
        if i in after.Values { var h :| h in after && after[h] == i; }
        if j in after { assert after[j] == i; }
      }
    }
  }

  lemma {:induction false} SameSurvivors(calls: seq<Call>, offset: int)
    requires OneOffset(Log(calls), offset)
    ensures Origin(Sqlite, calls).Values == Origin(Postgres, calls).Values
  {
    if calls != [] {
      var n := |calls| - 1;
      var log := Log(calls);
      assert forall i :: i in Log(calls[..n]) ==> i in log && log[i] == Log(calls[..n])[i];
      SameSurvivors(calls[..n], offset);
      if Accepted(calls[n]) {
        CallInLog(Sqlite, calls);
        CallInLog(Postgres, calls);
        var row := RowOf(calls[n]);
        var (v, mine) := (Origin(Sqlite, calls[..n]).Values + {n}, Matching(log, row.kind, row.user));
        OrdersCoincide(log, offset);
        assert Newest(Sqlite, log, v * mine, Clamp(calls[n].maxRecords))
            == Newest(Postgres, log, v * mine, Clamp(calls[n].maxRecords));
      }
    }
  }

  lemma ValuesInsert(origin: map<nat, nat>, id: nat, n: nat)
    requires id !in origin
    ensures origin[id := n].Values == origin.Values + {n}
  {
    var after := origin[id := n];
    forall i | i in origin.Values ensures i in after.Values {
      var j :| j in origin && origin[j] == i;
      assert after[j] == i;
    }
    assert after[id] == n;
  }

  /** One accepted call, seen as the places in the log that survive it. */
  lemma CallInLog(b: Backend, calls: seq<Call>)
    requires calls != [] && Accepted(calls[|calls| - 1])
    ensures var n := |calls| - 1;
            var (row, log) := (RowOf(calls[n]), Log(calls));
            var (mine, v) := (Matching(log, row.kind, row.user), Origin(b, calls[..n]).Values + {n});
            && v * mine <= log.Keys
            && forall i :: i in Origin(b, calls).Values
                           <==> i in v && (i !in mine || i in Newest(b, log, v * mine, Clamp(calls[n].maxRecords)))
  {
    hide Before, Newest, Clamp, RowOf, Trim, Matching, Accepted, Log;
    var n := |calls| - 1;
    CallUnfolds(b, calls);
    var t := Run(b, calls[..n]);
    var (row, log) := (RowOf(calls[n]), Log(calls));
    var (origin, id) := (Origin(b, calls[..n]), NextId(b, t));
    var origin1 := origin[id := n];
    assert id !in origin;
    ValuesInsert(origin, id, n);
    TrimInLog(b, t.rows[id := row], origin1, log, row.kind, row.user, Clamp(calls[n].maxRecords));
  }

  /** While every event time carries one offset, UTC in particular, the two
      stores answer every listing alike after the same appends, whatever the limits. */
  lemma StoresAgree(calls: seq<Call>, offset: int, kind: string, user: string, limit: int)
    requires OneOffset(Log(calls), offset)
    ensures List(Sqlite, Run(Sqlite, calls).rows, kind, user, limit)
         == List(Postgres, Run(Postgres, calls).rows, kind, user, limit)
  {
    hide Before;
    SameSurvivors(calls, offset);
    var log := Log(calls);
    OrdersCoincide(log, offset);
    if kind != "" {
      ListInLog(Sqlite, calls, kind, user, limit);
      ListInLog(Postgres, calls, kind, user, limit);
    }
  }

  lemma ListInLog(b: Backend, calls: seq<Call>, kind: string, user: string, limit: int)
    requires kind != ""
    ensures var (log, seen) := (Log(calls), Origin(b, calls).Values * Matching(Log(calls), kind, user));
            List(b, Run(b, calls).rows, kind, user, limit) == Shapes(log, Newest(b, log, seen, Clamp(limit)), user)
  {
    hide Before;
    var (rows, origin, log, n) := (Run(b, calls).rows, Origin(b, calls), Log(calls), Clamp(limit));
    IdsFollowInsertion(b, calls);
    var mine := Matching(rows, kind, user);
    ImageOfMatching(rows, origin, log, kind, user);
    assert Image(origin, mine) == origin.Values * Matching(log, kind, user);
    NewestRenamed(b, rows, origin, log, mine, n);
    SameShapes(rows, origin, log, Newest(b, rows, mine, n), Newest(b, log, Image(origin, mine), n), user);
  }

  // --------------------------------------------------------- newest first

  /** The event time a call's row gets: its timestamp, or else its update time,
      or else the time of the call. */
  ghost predicate HappenedAt(c: Call, time: Aware) {
    && (c.record.timestamp.Some? ==> time == c.record.timestamp.value)
    && (c.record.timestamp.None? && c.record.updated.Some? ==> time == c.record.updated.value)
    && (c.record.timestamp.None? && c.record.updated.None? ==> time == c.now)
  }

  /** A call that put a row of this kind, and of this user unless none is named. */
  ghost predicate Wanted(c: Call, kind: string, user: string) {
    c.kind != "" && c.user != "" && c.kind == kind && (user == "" || c.user == user)
  }

  /** Call i has the later instant, or the same instant and the later place. */
  ghost predicate NewerCall(calls: seq<Call>, i: nat, j: nat)
    requires i < |calls| && j < |calls|
  {
    forall x: Aware, y: Aware :: HappenedAt(calls[i], x) && HappenedAt(calls[j], y) ==>
      Instant(x) > Instant(y) || (Instant(x) == Instant(y) && i > j)
  }

  /** PostgreSQL, or one offset among the wanted calls. */
  ghost predicate Comparable(b: Backend, calls: seq<Call>, kind: string, user: string) {
    b == Postgres || exists offset :: Offsets(calls, kind, user, offset)
  }

  ghost predicate Offsets(calls: seq<Call>, kind: string, user: string, offset: int) {
    forall i, x :: 0 <= i < |calls| && Wanted(calls[i], kind, user) && HappenedAt(calls[i], x) ==> x.offset == offset
  }

  /** `shown` are the calls whose rows a listing shows: newest first, no more than
      the limit, and whatever else is wanted is older than all of them and left
      out for want of room. */
  ghost predicate NewestOf(calls: seq<Call>, kind: string, user: string, limit: nat, shown: seq<nat>) {
    && |shown| <= limit
    && (forall k :: 0 <= k < |shown| ==> shown[k] < |calls| && Wanted(calls[shown[k]], kind, user))
    && (forall j, k :: 0 <= j < k < |shown| ==> NewerCall(calls, shown[j], shown[k]))
    && (forall i :: 0 <= i < |calls| && Wanted(calls[i], kind, user) && i !in shown ==>
          |shown| == limit && forall k :: 0 <= k < |shown| ==> NewerCall(calls, shown[k], i))
  }

  /** A listing is made of the payloads of those calls, with the user put in when
      the listing is for all of them. */
  ghost predicate Lists(calls: seq<Call>, shown: seq<nat>, user: string, history: seq<Payload>)
    requires forall k :: 0 <= k < |shown| ==> shown[k] < |calls|
  {
    && |history| == |shown|
    && (forall k :: 0 <= k < |shown| ==>
          && (user != "" ==> history[k] == calls[shown[k]].record.payload)
          && (user == "" ==> history[k] == calls[shown[k]].record.payload["user_id" := calls[shown[k]].user]))
  }

  ghost predicate ShowsNewest(calls: seq<Call>, kind: string, user: string, limit: nat, history: seq<Payload>) {
    exists shown :: NewestOf(calls, kind, user, limit, shown) && Lists(calls, shown, user, history)
  }

  lemma RowHappened(c: Call)
    ensures forall x :: HappenedAt(c, x) <==> x == RowOf(c).event
    ensures RowOf(c).kind == c.kind && RowOf(c).user == c.user && RowOf(c).payload == c.record.payload
  {
  }

  lemma WantedMatches(calls: seq<Call>, kind: string, user: string, i: nat)
    requires kind != "" && i < |calls|
    ensures Wanted(calls[i], kind, user) <==> i in Matching(Log(calls), kind, user)
  {
    RowHappened(calls[i]);
  }

  /** Which of two calls is listed first is which is newer. */
  lemma BeforeIsNewer(b: Backend, calls: seq<Call>, kind: string, user: string, i: nat, j: nat)
    requires kind != "" && Comparable(b, calls, kind, user)
    requires i in Matching(Log(calls), kind, user) && j in Matching(Log(calls), kind, user)
    ensures var log := Log(calls);
            Before(b, log[i].event, i, log[j].event, j) <==> NewerCall(calls, i, j)
  {
    hide TextLess, Iso, Instant;
    var (x, y) := (RowOf(calls[i]).event, RowOf(calls[j]).event);
    RowHappened(calls[i]);
    RowHappened(calls[j]);
    if b == Sqlite {
      WantedMatches(calls, kind, user, i);
      WantedMatches(calls, kind, user, j);
      var offset :| Offsets(calls, kind, user, offset);
      assert x.offset == offset && y.offset == offset;
      TextOrderIsTimeOrder(x, y);
      TextOrderIsTimeOrder(y, x);
    }
  }

  /** Selecting from a part of the log selects its newest calls. */
  lemma NewestAreNewest(b: Backend, calls: seq<Call>, kind: string, user: string, s: set<nat>, n: nat)
    requires kind != "" && Comparable(b, calls, kind, user) && s <= Matching(Log(calls), kind, user)
    ensures var r := Newest(b, Log(calls), s, n);
            && |r| == (if n <= |s| then n else |s|)
            && (forall k :: 0 <= k < |r| ==> r[k] in s)
            && (forall j, k :: 0 <= j < k < |r| ==> NewerCall(calls, r[j], r[k]))
            && (forall i, k :: i in s && i !in r && 0 <= k < |r| ==> NewerCall(calls, r[k], i))
  {
    hide Before, NewerCall;
    var (log, o) := (Log(calls), ListingOrder(b, Log(calls)));
    ListingOrderTotal(b, log);
    SelectIsTop(o, s, n);
    forall i, j | i in s && j in s ensures (i, j) in o <==> NewerCall(calls, i, j) {
      BeforeIsNewer(b, calls, kind, user, i, j);
    }
  }

  lemma AllSelected(r: seq<nat>, s: set<nat>)
    requires (forall k :: 0 <= k < |r| ==> r[k] in s) && |r| == |s|
    requires forall j, k :: 0 <= j < k < |r| ==> r[j] != r[k]
    ensures forall i :: i in s ==> i in r
  {
    DistinctSize(r);
    if i :| i in s && i !in r {
      SubsetSize(Elements(r) + {i}, s);
    }
  }

  lemma {:induction false} DistinctSize(r: seq<nat>)
    requires forall j, k :: 0 <= j < k < |r| ==> r[j] != r[k]
    ensures |Elements(r)| == |r|
  {
    if r != [] {
      var n := |r| - 1;
      DistinctSize(r[..n]);
      assert Elements(r) == Elements(r[..n]) + {r[n]};
      assert r[n] !in Elements(r[..n]);
    }
  }

  /** A listing of the untrimmed log shows the newest calls, newest first. */
  lemma LogListsNewest(b: Backend, calls: seq<Call>, kind: string, user: string, limit: int)
    requires Comparable(b, calls, kind, user)
    ensures ShowsNewest(calls, kind, user, Clamp(limit), List(b, Log(calls), kind, user, limit))
  {
    hide Before, NewerCall, Comparable, Newest, Clamp;
    var (log, n) := (Log(calls), Clamp(limit));
    var history := List(b, log, kind, user, limit);
    if kind == "" {
      assert NewestOf(calls, kind, user, n, []) && Lists(calls, [], user, history);
    } else {
      var all := Matching(log, kind, user);
      var shown := Newest(b, log, all, n);
      NewestAreNewest(b, calls, kind, user, all, n);
      forall i | 0 <= i < |calls| ensures Wanted(calls[i], kind, user) <==> i in all {
        WantedMatches(calls, kind, user, i);
      }
      assert forall j, k :: 0 <= j < k < |shown| ==> shown[j] != shown[k] by {
        NewerIrreflexive(calls);
      }
      if |shown| < n { AllSelected(shown, all); }
      assert NewestOf(calls, kind, user, n, shown);
      forall k | 0 <= k < |shown| ensures history[k] == Shape(RowOf(calls[shown[k]]), user) {
        assert log[shown[k]] == RowOf(calls[shown[k]]);
      }
      assert Lists(calls, shown, user, history);
    }
  }

  lemma NewerIrreflexive(calls: seq<Call>)
    ensures forall i: nat :: i < |calls| ==> !NewerCall(calls, i, i)
  {
    forall i: nat | i < |calls| ensures !NewerCall(calls, i, i) {
      RowHappened(calls[i]);
      assert HappenedAt(calls[i], RowOf(calls[i]).event);
    }
  }

  /** The calls among `places` that put a row of this kind and user. */
  ghost function Own(calls: seq<Call>, places: set<nat>, kind: string, user: string): set<nat> {
    set i | i in places && i < |calls| && Wanted(calls[i], kind, user)
  }

  /** What the last call's trim keeps of its own kind and user: as many rows as its
      keep size allows, each newer than every row it drops; of others everything. */
  ghost predicate KeepsNewest(b: Backend, calls: seq<Call>)
    requires calls != []
  {
    var n := |calls| - 1;
    var (c, before, after) := (calls[n], Origin(b, calls[..n]).Values + {n}, Origin(b, calls).Values);
    var own := Own(calls, before, c.kind, c.user);
    && after <= before && before - after <= own
    && |after * own| == (if Clamp(c.maxRecords) <= |own| then Clamp(c.maxRecords) else |own|)
    && (forall i, j :: i in after * own && j in own - after ==> NewerCall(calls, i, j))
  }

  lemma OwnIsMatching(calls: seq<Call>, places: set<nat>, kind: string, user: string)
    requires kind != ""
    ensures Own(calls, places, kind, user) == places * Matching(Log(calls), kind, user)
  {
    hide Wanted;
    forall i | 0 <= i < |calls| ensures Wanted(calls[i], kind, user) <==> i in Matching(Log(calls), kind, user) {
      WantedMatches(calls, kind, user, i);
    }
  }

  /** The part of the log a selection looks at, and what it takes. */
  lemma PartKept(b: Backend, calls: seq<Call>, kind: string, user: string, own: set<nat>, keep: nat)
    requires kind != "" && Comparable(b, calls, kind, user) && own <= Matching(Log(calls), kind, user)
    ensures var kept := Elements(Newest(b, Log(calls), own, keep));
            && kept <= own && |kept| == (if keep <= |own| then keep else |own|)
            && (forall i, j :: i in kept && j in own - kept ==> NewerCall(calls, i, j))
  {
    hide Before, NewerCall, Comparable, Newest;
    var kept := Newest(b, Log(calls), own, keep);
    NewestAreNewest(b, calls, kind, user, own, keep);
    assert forall i :: i in own ==> i < |calls|;
    NewerIrreflexive(calls);
    DistinctSize(kept);
  }

  lemma OriginsInLog(b: Backend, calls: seq<Call>)
    ensures forall i :: i in Origin(b, calls).Values ==> i < |calls|
  {
    IdsFollowInsertion(b, calls);
  }

  lemma AppendKeepsNewest(b: Backend, calls: seq<Call>)
    requires calls != [] && calls[|calls| - 1].kind != "" && calls[|calls| - 1].user != ""
    requires Comparable(b, calls, calls[|calls| - 1].kind, calls[|calls| - 1].user)
    ensures Follows(Run(b, calls).rows, Origin(b, calls), Log(calls))
    ensures KeepsNewest(b, calls)
  {
    var n := |calls| - 1;
    var c := calls[n];
    var (log, v) := (Log(calls), Origin(b, calls[..n]).Values + {n});
    IdsFollowInsertion(b, calls);
    OriginsInLog(b, calls[..n]);
    RowHappened(c);
    CallInLog(b, calls);
    OwnIsMatching(calls, v, c.kind, c.user);
    hide *;
    var own := v * Matching(log, c.kind, c.user);
    PartKept(b, calls, c.kind, c.user, own, Clamp(c.maxRecords));
    KeptIs(b, calls, own);
  }

  lemma KeptIs(b: Backend, calls: seq<Call>, own: set<nat>)
    requires calls != [] && own <= Log(calls).Keys
    requires var c := calls[|calls| - 1];
             var (v, after) := (Origin(b, calls[..|calls| - 1]).Values + {|calls| - 1}, Origin(b, calls).Values);
             var kept := Elements(Newest(b, Log(calls), own, Clamp(c.maxRecords)));
             && own == v * Matching(Log(calls), c.kind, c.user) && own == Own(calls, v, c.kind, c.user)
             && (forall i :: i in after <==> i in v && (i !in own || i in kept))
             && kept <= own && |kept| == (if Clamp(c.maxRecords) <= |own| then Clamp(c.maxRecords) else |own|)
             && (forall i :: i in own ==> i < |calls|)
             && (forall i, j :: i in kept && j in own - kept ==> NewerCall(calls, i, j))
    ensures KeepsNewest(b, calls)
  {
    hide Origin, Log, Newest, Matching, NewerCall, Clamp, Own;
    var n := |calls| - 1;
    var c := calls[n];
    var (v, after) := (Origin(b, calls[..n]).Values + {n}, Origin(b, calls).Values);
    var kept := Elements(Newest(b, Log(calls), own, Clamp(c.maxRecords)));
    KeptSets(v, after, own, kept);
  }

  lemma KeptSets(v: set<nat>, after: set<nat>, own: set<nat>, kept: set<nat>)
    requires own <= v && kept <= own && forall i :: i in after <==> i in v && (i !in own || i in kept)
    ensures after <= v && v - after <= own && after * own == kept && own - after == own - kept
  {
  }

  // --------------------------------------------------- the running program

  /** The history table of one store. */
  class History {
    const backend: Backend
    var rows: map<nat, Row>
    var serial: nat
    /** Every call so far. */
    ghost var calls: seq<Call>

    ghost predicate Valid()
      reads this
    {
      Table(rows, serial) == Run(backend, calls)
    }

    constructor (backend: Backend)
      ensures Valid() && this.backend == backend && calls == []
    {
      this.backend := backend;
      rows, serial, calls := map[], 0, [];
    }

    method AppendHistory(kind: string, user: string, record: Record, maxRecords: int, now: Aware)
      requires Valid()
      modifies this
      ensures Valid() && calls == old(calls) + [Call(kind, user, record, maxRecords, now)]
      ensures Follows(rows, Origin(backend, calls), Log(calls))
      ensures kind != "" && user != "" && Comparable(backend, calls, kind, user) ==> KeepsNewest(backend, calls)
      ensures kind == "" || user == "" ==> rows == old(rows)
    {
      var call := Call(kind, user, record, maxRecords, now);
      calls := calls + [call];
      assert calls[..|calls| - 1] == old(calls);
      if kind == "" || user == "" {
        IdsFollowInsertion(backend, calls);
        return;
      }
      var id := NextId(backend, Table(rows, serial));
      rows := rows[id := RowOf(call)];
      if backend == Postgres {
        serial := id;
      }
      rows := Trim(backend, rows, kind, user, Clamp(maxRecords));
      IdsFollowInsertion(backend, calls);
      if Comparable(backend, calls, kind, user) {
        AppendKeepsNewest(backend, calls);
      }
    }

    /** The listing is that of the untrimmed log when it asks for no more than every append kept. */
    method ListHistory(kind: string, user: string, limit: int) returns (history: seq<Payload>)
      requires Valid()
      ensures history == List(backend, rows, kind, user, limit)
      ensures (forall k :: 0 <= k < |calls| ==> Clamp(limit) <= Clamp(calls[k].maxRecords))
          ==> history == List(backend, Log(calls), kind, user, limit)
      ensures (forall k :: 0 <= k < |calls| ==> Clamp(limit) <= Clamp(calls[k].maxRecords))
              && Comparable(backend, calls, kind, user)
          ==> ShowsNewest(calls, kind, user, Clamp(limit), history)
    {
      hide Newest, Log, Run;
      history := [];
      if kind != "" {
        var ids := Newest(backend, rows, Matching(rows, kind, user), Clamp(limit));
        for k := 0 to |ids|
          invariant |history| == k && forall j :: 0 <= j < k ==> history[j] == Shape(rows[ids[j]], user)
        {
          var payload := rows[ids[k]].payload;
          if user == "" {
            payload := payload["user_id" := rows[ids[k]].user];
          }
          history := history + [payload];
        }
        assert history == Shapes(rows, ids, user);
      }
      if forall k :: 0 <= k < |calls| ==> Clamp(limit) <= Clamp(calls[k].maxRecords) {
        TrimmingIsInvisible(backend, calls, kind, user, limit);
        if Comparable(backend, calls, kind, user) {
          LogListsNewest(backend, calls, kind, user, limit);
        }
      }
    }
  }
}

/** The task table behind its encrypting facade (backend/app/storage/sqlite.py:144-244,
    backend/app/storage/postgres.py:81-200, backend/app/services/course/task_store.py:85-103). */
module TaskTable {
  import opened Credentials
  import opened Wrappers

  type Time = int

  /** A task under its kind and id. */
  type Key = (string, string)

  datatype Task = Task(user: string, status: string, message: string,
                       started: Option<Time>, updated: Time, payload: Payload)

  type Table = map<Key, Task>

  /** One call of `upsert_task`: the fields of the state as read and parsed, and
      the nonces the cipher will use for it. */
  datatype Put = Put(kind: string, id: string, user: string, status: string, message: string,
                     started: Option<Time>, updated: Option<Time>, now: Time, payload: Payload,
                     nonce: string -> nat, inner: string -> nat)

  predicate Accepted(w: Put) { w.kind != "" && w.id != "" && w.user != "" }

  function KeyOf(w: Put): Key { (w.kind, w.id) }

  function TaskOf(c: Cipher, w: Put): Task {
    var updated := if w.updated.Some? then w.updated.value else if w.started.Some? then w.started.value else w.now;
    Task(w.user, if w.status == "" then "pending" else w.status, w.message, w.started, updated,
         EncryptSensitive(c, w.nonce, w.inner, w.payload))
  }

  /** `ON CONFLICT DO UPDATE` with `COALESCE` on the start time. */
  function Upsert(t: Table, k: Key, task: Task): Table {
    if k in t && t[k].started.Some? then t[k := task.(started := t[k].started)] else t[k := task]
  }

  function PutTask(c: Cipher, t: Table, w: Put): Table {
    if Accepted(w) then Upsert(t, KeyOf(w), TaskOf(c, w)) else t
  }

  function Run(c: Cipher, puts: seq<Put>): Table {
    if puts == [] then map[] else PutTask(c, Run(c, puts[..|puts| - 1]), puts[|puts| - 1])
  }

  /** `get_task`: one kind and id, and one user unless none is named. */
  function Get(c: Cipher, t: Table, kind: string, id: string, user: string): Option<Task> {
    if kind == "" || id == "" || (kind, id) !in t then None
    else
      var task := t[(kind, id)];
      if user != "" && task.user != user then None else Some(task.(payload := DecryptSensitive(c, task.payload)))
  }

  // ------------------------------------------------------ what is read back

  predicate Touches(w: Put, k: Key) { w.kind != "" && w.id != "" && w.user != "" && k == (w.kind, w.id) }

  /** The latest accepted put of a key. */
  ghost predicate IsLast(puts: seq<Put>, k: Key, i: nat) {
    i < |puts| && Touches(puts[i], k) && forall j :: i < j < |puts| ==> !Touches(puts[j], k)
  }

  /** The start time of the first put of the key that named one. */
  ghost predicate IsFirstStart(puts: seq<Put>, k: Key, start: Option<Time>) {
    match start
    case None => forall i :: 0 <= i < |puts| && Touches(puts[i], k) ==> puts[i].started.None?
    case Some(time) =>
      exists i :: 0 <= i < |puts| && Touches(puts[i], k) && puts[i].started == Some(time)
               && forall j :: 0 <= j < i && Touches(puts[j], k) ==> puts[j].started.None?
  }

  /** How a row came to be: from the latest put, with the first start time. */
  ghost predicate Explains(c: Cipher, puts: seq<Put>, k: Key, task: Task) {
    && (exists i: nat :: IsLast(puts, k, i) && task == TaskOf(c, puts[i]).(started := task.started))
    && IsFirstStart(puts, k, task.started)
  }

  lemma StartAfter(puts: seq<Put>, w: Put, k: Key, start: Option<Time>)
    requires IsFirstStart(puts, k, start)
    ensures IsFirstStart(puts + [w], k, if start.Some? || !Touches(w, k) then start else w.started)
  {
    var next := puts + [w];
    if start.Some? {
      var i :| 0 <= i < |puts| && Touches(puts[i], k) && puts[i].started == start
             && forall j :: 0 <= j < i && Touches(puts[j], k) ==> puts[j].started.None?;
      assert next[i] == puts[i];
    } else if Touches(w, k) && w.started.Some? {
      assert next[|puts|] == w;
    }
  }

  /** The table holds a row for each key that was put, and each row is explained. */
  ghost predicate Explained(c: Cipher, puts: seq<Put>, k: Key, t: Table) {
    if k in t then Explains(c, puts, k, t[k])
    else (forall i :: 0 <= i < |puts| ==> !Touches(puts[i], k)) && IsFirstStart(puts, k, None)
  }

  lemma PutExplained(c: Cipher, puts: seq<Put>, w: Put, k: Key, t: Table)
    requires Explained(c, puts, k, t)
    ensures Explained(c, puts + [w], k, PutTask(c, t, w))
  {
    hide TaskOf, IsFirstStart;
    var next := puts + [w];
    StartAfter(puts, w, k, if k in t then t[k].started else None);
    if Touches(w, k) {
      assert IsLast(next, k, |puts|);
      TaskOfStart(c, w);
      assert next[|puts|] == w;
    } else if k in t {
      var i: nat :| IsLast(puts, k, i) && t[k] == TaskOf(c, puts[i]).(started := t[k].started);
      assert IsLast(next, k, i);
    }
  }

  lemma {:induction false} RowsExplained(c: Cipher, puts: seq<Put>, k: Key)
    ensures Explained(c, puts, k, Run(c, puts))
  {
    if puts != [] {
      hide PutTask, Explained;
      var n := |puts| - 1;
      RowsExplained(c, puts[..n], k);
      assert puts == puts[..n] + [puts[n]];
      PutExplained(c, puts[..n], puts[n], k, Run(c, puts[..n]));
    }
  }

  lemma TaskOfStart(c: Cipher, w: Put)
    ensures TaskOf(c, w).started == w.started
  {
  }

  /** The update time a put gives: its own, or else its start time, or else the
      time of the call. */
  predicate UpdatedAt(w: Put, time: Time) {
    && (w.updated.Some? ==> time == w.updated.value)
    && (w.updated.None? && w.started.Some? ==> time == w.started.value)
    && (w.updated.None? && w.started.None? ==> time == w.now)
  }

  /** What a read must answer after the calls `puts`: the last put of the key
      with the first start time any put named, its payload exactly as given if
      and only if that payload survives encryption; nothing if there was no put
      or the last one belongs to another user. */
  ghost predicate Answers(c: Cipher, puts: seq<Put>, k: Key, user: string, r: Option<Task>) {
    match r
    case None => forall i: nat :: IsLast(puts, k, i) ==> user != "" && puts[i].user != user
    case Some(task) =>
      exists i: nat ::
        && IsLast(puts, k, i) && (user == "" || puts[i].user == user)
        && task.user == puts[i].user && task.message == puts[i].message
        && task.status == (if puts[i].status == "" then "pending" else puts[i].status)
        && UpdatedAt(puts[i], task.updated)
        && (task.payload == puts[i].payload <==> Returns(c, puts[i].nonce, puts[i].inner, puts[i].payload))
        && IsFirstStart(puts, k, task.started)
  }

  lemma ReadsLastPut(c: Cipher, puts: seq<Put>, kind: string, id: string, user: string)
    requires Correct(c)
    ensures Answers(c, puts, (kind, id), user, Get(c, Run(c, puts), kind, id, user))
  {
    hide EncryptSensitive, DecryptSensitive, Correct, Returns, IsFirstStart;
    RowsExplained(c, puts, (kind, id));
    var t := Run(c, puts);
    if (kind, id) in t {
      var i: nat :| IsLast(puts, (kind, id), i)
          && t[(kind, id)] == TaskOf(c, puts[i]).(started := t[(kind, id)].started);
      assert forall j: nat :: IsLast(puts, (kind, id), j) ==> j == i;
      RoundTripExactlyWhen(c, puts[i].nonce, puts[i].inner, puts[i].payload);
    }
  }

  /** With a real cipher no row ever holds a bare secret, whatever raised on the
      way, and what it holds besides is what the last put gave. */
  lemma NoSecretAtRest(c: Cipher, puts: seq<Put>, k: Key)
    requires c.Fernet? && k in Run(c, puts)
    ensures exists i: nat :: IsLast(puts, k, i) && Storable(Run(c, puts)[k].payload, puts[i].payload)
  {
    hide EncryptSensitive, Storable, IsFirstStart;
    RowsExplained(c, puts, k);
    var i: nat :| IsLast(puts, k, i) && Run(c, puts)[k] == TaskOf(c, puts[i]).(started := Run(c, puts)[k].started);
    StoredIsStorable(c, puts[i].nonce, puts[i].inner, puts[i].payload);
  }

  // --------------------------------------------------- the running program

  class Tasks {
    const cipher: Cipher
    var rows: Table
    /** Every call of `upsert_task` so far. */
    ghost var puts: seq<Put>

    ghost predicate Valid()
      reads this
    {
      rows == Run(cipher, puts)
    }

    constructor (cipher: Cipher)
      ensures Valid() && puts == [] && this.cipher == cipher
    {
      this.cipher := cipher;
      rows, puts := map[], [];
    }

    method UpsertTask(w: Put) returns (ok: bool)
      requires Valid()
      modifies this
      ensures Valid() && puts == old(puts) + [w] && ok == (w.kind != "" && w.id != "" && w.user != "")
      ensures cipher.Fernet? && ok ==> (w.kind, w.id) in rows && Storable(rows[(w.kind, w.id)].payload, w.payload)
    {
      puts := puts + [w];
      assert puts[..|puts| - 1] == old(puts);
      if !Accepted(w) {
        return false;
      }
      var stored := EncryptForStorage(cipher, w.nonce, w.inner, w.payload);
      var updated := if w.updated.Some? then w.updated.value else if w.started.Some? then w.started.value else w.now;
      var started := w.started;
      if KeyOf(w) in rows && rows[KeyOf(w)].started.Some? {
        started := rows[KeyOf(w)].started;
      }
      rows := rows[KeyOf(w) :=
        Task(w.user, if w.status == "" then "pending" else w.status, w.message, started, updated, stored)];
      return true;
    }

    method GetTask(kind: string, id: string, user: string) returns (task: Option<Task>)
      requires Valid()
      ensures task == Get(cipher, rows, kind, id, user)
      ensures Correct(cipher) ==> Answers(cipher, puts, (kind, id), user, task)
    {
      task := None;
      if kind != "" && id != "" && (kind, id) in rows {
        var row := rows[(kind, id)];
        if user == "" || row.user == user {
          task := Some(row.(payload := DecryptSensitive(cipher, row.payload)));
        }
      }
      if Correct(cipher) {
        ReadsLastPut(cipher, puts, kind, id, user);
      }
    }
  }
}

/** The SQLite-backed session store of database.py, as an abstract state
    machine: a sessions table (id to creation stamp), a messages table kept in
    id order, the AUTOINCREMENT counter, and whether the connection enforces
    foreign keys. */
module Database {
  import opened Messages

  // ---------------------------------------------------------------------------
  // The role column: encoder and decoder

  /** _message_role: the role string stored for a message. */
  function RoleOf(m: Msg): (role: string)
    ensures role == "human" <==> m.Human?
    ensures role == "ai" <==> m.AI?
    ensures role == "system" <==> m.System?
  {
    match m
    case Human(_) => "human"
    case AI(_) => "ai"
    case System(_) => "system"
  }

  /** The decode step of get_history_messages: total over every role string;
      only "human" and "ai" are recognised, anything else reads as a system message. */
  function Decode(role: string, content: string): (m: Msg)
    ensures m.content == content
    ensures m.Human? <==> role == "human"
    ensures m.AI? <==> role == "ai"
    ensures m.System? <==> role != "human" && role != "ai"
  {
    if role == "human" then Human(content)
    else if role == "ai" then AI(content)
    else System(content)
  }

  /** Storing a message and reading it back gives the same message. */
  lemma RoleRoundTrip(m: Msg)
    ensures Decode(RoleOf(m), m.content) == m
  {
  }

  /** Reading a row and storing it again reproduces its role string exactly
      when that string is one the encoder writes. */
  lemma StoredRoleRoundTrip(role: string, content: string)
    ensures RoleOf(Decode(role, content)) == role <==> role in {"human", "ai", "system"}
  {
  }

  // ---------------------------------------------------------------------------
  // The messages table as a value

  /** A row of the messages table (its created_at column is not modelled). */
  datatype Row = Row(id: nat, sessionId: string, role: string, content: string)

  /** The rows are in strictly ascending id order, and every id is below the
      next one AUTOINCREMENT will hand out. Scanning the sequence front to back
      is therefore the query's ORDER BY id ASC. */
  ghost predicate IdsAscending(rows: seq<Row>, nextId: nat)
  {
    (forall i, j :: 0 <= i < j < |rows| ==> rows[i].id < rows[j].id) &&
    (forall i :: 0 <= i < |rows| ==> rows[i].id < nextId)
  }

  /** What get_history_messages reads for a session: its rows in id order, decoded. */
  function HistoryIn(rows: seq<Row>, sid: string): seq<Msg>
  {
    if rows == [] then []
    else
      var last := rows[|rows| - 1];
      var earlier := HistoryIn(rows[..|rows| - 1], sid);
      if last.sessionId == sid then earlier + [Decode(last.role, last.content)] else earlier
  }

  /** The rows append_messages inserts: one per message, in order, with
      consecutive ids from firstId. */
  function EncodeRows(sid: string, ms: seq<Msg>, firstId: nat): seq<Row>
  {
    if ms == [] then []
    else
      var last := ms[|ms| - 1];
      EncodeRows(sid, ms[..|ms| - 1], firstId) + [Row(firstId + |ms| - 1, sid, RoleOf(last), last.content)]
  }

  /** The rows that survive ON DELETE CASCADE when session sid is deleted. */
  function Cascade(rows: seq<Row>, sid: string): seq<Row>
  {
    if rows == [] then []
    else
      var last := rows[|rows| - 1];
      var earlier := Cascade(rows[..|rows| - 1], sid);
      if last.sessionId == sid then earlier else earlier + [last]
  }

  /** A session's history over two stretches of rows is the two histories in order. */
  lemma {:induction false} HistoryInAppend(a: seq<Row>, b: seq<Row>, sid: string)
    ensures HistoryIn(a + b, sid) == HistoryIn(a, sid) + HistoryIn(b, sid)
  {
    if b == [] {
      assert a + b == a;
    } else {
      assert (a + b)[..|a + b| - 1] == a + b[..|b| - 1];
      HistoryInAppend(a, b[..|b| - 1], sid);
    }
  }

  /** A session none of whose rows are present has an empty history. */
  lemma {:induction false} HistoryInAbsent(rows: seq<Row>, sid: string)
    requires forall i :: 0 <= i < |rows| ==> rows[i].sessionId != sid
    ensures HistoryIn(rows, sid) == []
  {
    if rows != [] {
      HistoryInAbsent(rows[..|rows| - 1], sid);
    }
  }

  /** Encoding round trip at the table level: the inserted rows read back as
      exactly the appended messages for their session, and as nothing for any
      other session. */
  lemma {:induction false} EncodeRowsHistory(sid: string, ms: seq<Msg>, firstId: nat, s: string)
    ensures HistoryIn(EncodeRows(sid, ms, firstId), s) == if s == sid then ms else []
  {
    if ms != [] {
      var init := ms[..|ms| - 1];
      var rows := EncodeRows(sid, ms, firstId);
      EncodeRowsHistory(sid, init, firstId, s);
      assert rows[..|rows| - 1] == EncodeRows(sid, init, firstId);
      RoleRoundTrip(ms[|ms| - 1]);
      if s == sid {
        assert init + [ms[|ms| - 1]] == ms;
      }
    }
  }

  /** The inserted rows carry consecutive ids starting at firstId. */
  lemma {:induction false} EncodeRowsIds(sid: string, ms: seq<Msg>, firstId: nat)
    ensures |EncodeRows(sid, ms, firstId)| == |ms|
    ensures forall k :: 0 <= k < |ms| ==> EncodeRows(sid, ms, firstId)[k].id == firstId + k
  {
    if ms != [] {
      EncodeRowsIds(sid, ms[..|ms| - 1], firstId);
    }
  }

  /** Every row that survives a cascade was there before and belongs to another session. */
  lemma {:induction false} CascadeMembers(rows: seq<Row>, sid: string)
    ensures forall r :: r in Cascade(rows, sid) ==> r in rows && r.sessionId != sid
  {
    if rows != [] {
      CascadeMembers(rows[..|rows| - 1], sid);
      forall r | r in rows[..|rows| - 1]
        ensures r in rows
      {
      }
    }
  }

  /** A cascade keeps the rows in id order. */
  lemma {:induction false} CascadeKeepsOrder(rows: seq<Row>, sid: string, nextId: nat)
    requires IdsAscending(rows, nextId)
    ensures IdsAscending(Cascade(rows, sid), nextId)
  {
    if rows != [] {
      var init := rows[..|rows| - 1];
      assert IdsAscending(init, nextId);
      CascadeKeepsOrder(init, sid, nextId);
      CascadeMembers(init, sid);
      var c := Cascade(init, sid);
      forall i | 0 <= i < |c|
        ensures c[i].id < rows[|rows| - 1].id
      {
        assert c[i] in c;
      }
    }
  }

  /** The intended effect of ON DELETE CASCADE: the deleted session's history
      is empty and every other session's history is as it was. */
  lemma {:induction false} CascadeClearsHistory(rows: seq<Row>, sid: string, s: string)
    ensures HistoryIn(Cascade(rows, sid), s) == if s == sid then [] else HistoryIn(rows, s)
  {
    if rows != [] {
      var init := rows[..|rows| - 1];
      var last := rows[|rows| - 1];
      CascadeClearsHistory(init, sid, s);
      if last.sessionId != sid {
        var c := Cascade(init, sid) + [last];
        assert c[..|c| - 1] == Cascade(init, sid);
      }
    }
  }

  // ---------------------------------------------------------------------------
  // The store

  class SessionStore {
    var sessions: map<string, nat>  // the sessions table: session_id to created_at
    var rows: seq<Row>              // the messages table, in id order
    var nextId: nat                 // the id AUTOINCREMENT assigns next
    var foreignKeys: bool           // whether the connection enforces foreign keys

    ghost predicate Valid()
      reads this
    {
      IdsAscending(rows, nextId)
    }

    /** The transcript get_history_messages returns for a session. */
    function History(sid: string): seq<Msg>
      reads this
    {
      HistoryIn(rows, sid)
    }

    /** The store as the source opens it on a new database file: both tables
        empty, and foreign keys not enforced, since the connection never
        issues PRAGMA foreign_keys = ON. */
    constructor Open()
      ensures Valid()
      ensures sessions == map[] && rows == [] && nextId == 1 && !foreignKeys
    {
      sessions := map[];
      rows := [];
      nextId := 1;
      foreignKeys := false;
    }

    /** The store as the schema's ON DELETE CASCADE intends it: the same,
        with foreign keys enforced. */
    constructor OpenWithForeignKeys()
      ensures Valid()
      ensures sessions == map[] && rows == [] && nextId == 1 && foreignKeys
    {
      sessions := map[];
      rows := [];
      nextId := 1;
      foreignKeys := true;
    }

    /** create_session. `newId` is the uuid4 value and `now` the CURRENT_TIMESTAMP
        value; a uuid4 is assumed never to have been used anywhere in the database. */
    method CreateSession(newId: string, now: nat) returns (sessionId: string)
      requires Valid()
      requires newId !in sessions
      requires forall i :: 0 <= i < |rows| ==> rows[i].sessionId != newId
      modifies this
      ensures Valid()
      ensures sessionId == newId
      ensures sessions == old(sessions)[sessionId := now]
      ensures rows == old(rows) && nextId == old(nextId) && foreignKeys == old(foreignKeys)
      ensures sessionId in sessions && History(sessionId) == []
    {
      sessionId := newId;
      sessions := sessions[sessionId := now];
      HistoryInAbsent(rows, sessionId);
    }

    /** session_exists: whether the sessions table has a row with this id. */
    method SessionExists(sid: string) returns (found: bool)
      ensures found <==> sid in sessions
    {
      found := sid in sessions;
    }

    /** list_sessions: every session id exactly once, most recently created
        first; the order among equal stamps is left open, as SQLite leaves it. */
    method ListSessions() returns (ids: seq<string>)
      ensures |ids| == |sessions|
      ensures forall i, j :: 0 <= i < j < |ids| ==> ids[i] != ids[j]
      ensures forall id :: id in ids <==> id in sessions
      ensures forall i, j :: 0 <= i < j < |ids| ==> sessions[ids[j]] <= sessions[ids[i]]
    {
      // The loop stands for the query's ORDER BY created_at DESC.
      ids := [];
      var pending := sessions.Keys;
      while pending != {}
        invariant pending <= sessions.Keys
        invariant |ids| + |pending| == |sessions|
        invariant forall id :: id in ids <==> id in sessions && id !in pending
        invariant Distinct(ids)
        invariant Descending(ids, sessions)
        decreases pending
      {
        var id :| id in pending;
        ids := InsertByCreation(ids, id, sessions);
        pending := pending - {id};
      }
    }

    /** get_history_messages: the session's rows in id order, decoded. A session
        without rows, an unknown id included, yields the empty list. */
    method GetHistoryMessages(sid: string) returns (history: seq<Msg>)
      ensures history == History(sid)
      ensures (forall i :: 0 <= i < |rows| ==> rows[i].sessionId != sid) ==> history == []
    {
      history := [];
      for i := 0 to |rows|
        invariant history == HistoryIn(rows[..i], sid)
      {
        var row := rows[i];
        assert rows[..i + 1][..i] == rows[..i];
        if row.sessionId == sid {
          if row.role == "human" {
            history := history + [Human(row.content)];
          } else if row.role == "ai" {
            history := history + [AI(row.content)];
          } else {
            history := history + [System(row.content)];
          }
        }
      }
      assert rows[..|rows|] == rows;
      if forall i :: 0 <= i < |rows| ==> rows[i].sessionId != sid {
        HistoryInAbsent(rows, sid);
      }
    }

    /** append_messages. The session is never checked: without foreign keys
        the rows are inserted whatever the id. With foreign keys enforced,
        SQLite rejects rows for an unknown session, and `ok` is false. */
    method AppendMessages(sid: string, messages: seq<Msg>) returns (ok: bool)
      requires Valid()
      modifies this
      ensures Valid()
      ensures ok <==> messages == [] || !foreignKeys || sid in sessions
      ensures sessions == old(sessions) && foreignKeys == old(foreignKeys)
      ensures ok ==> rows == old(rows) + EncodeRows(sid, messages, old(nextId))
      ensures ok ==> nextId == old(nextId) + |messages|
      ensures messages == [] || !ok ==> rows == old(rows) && nextId == old(nextId)
      ensures ok ==> History(sid) == old(History(sid)) + messages
      ensures forall s :: s != sid ==> History(s) == old(History(s))
    {
      if messages == [] {
        ok := true;
        return;
      }
      if foreignKeys && sid !in sessions {
        ok := false;
        return;
      }
      var payload: seq<Row> := [];
      for i := 0 to |messages|
        invariant payload == EncodeRows(sid, messages[..i], nextId)
      {
        var msg := messages[i];
        assert messages[..i + 1][..i] == messages[..i];
        payload := payload + [Row(nextId + i, sid, RoleOf(msg), msg.content)];
      }
      assert messages[..|messages|] == messages;
      EncodeRowsIds(sid, messages, nextId);
      forall s
        ensures HistoryIn(rows + payload, s) == HistoryIn(rows, s) + (if s == sid then messages else [])
      {
        HistoryInAppend(rows, payload, s);
        EncodeRowsHistory(sid, messages, nextId, s);
      }
      rows := rows + payload;
      nextId := nextId + |messages|;
      ok := true;
    }

    /** delete_session: true exactly when a sessions row was removed. The
        messages go with it only when foreign keys are enforced; otherwise
        they stay behind as orphans. */
    method DeleteSession(sid: string) returns (deleted: bool)
      requires Valid()
      modifies this
      ensures Valid()
      ensures deleted <==> sid in old(sessions)
      ensures sessions == old(sessions) - {sid}
      ensures rows == if foreignKeys then Cascade(old(rows), sid) else old(rows)
      ensures nextId == old(nextId) && foreignKeys == old(foreignKeys)
      ensures forall s :: s != sid ==> History(s) == old(History(s))
      ensures foreignKeys ==> History(sid) == []
    {
      deleted := sid in sessions;
      sessions := sessions - {sid};
      if foreignKeys {
        CascadeKeepsOrder(rows, sid, nextId);
        forall s
          ensures HistoryIn(Cascade(rows, sid), s) == if s == sid then [] else HistoryIn(rows, s)
        {
          CascadeClearsHistory(rows, sid, s);
        }
        rows := Cascade(rows, sid);
      }
    }
  }

  // ---------------------------------------------------------------------------
  // Ordering sessions by creation

  predicate Distinct(ids: seq<string>)
  {
    forall i, j :: 0 <= i < j < |ids| ==> ids[i] != ids[j]
  }

  /** The ids are ordered by creation stamp, latest first. */
  ghost predicate Descending(ids: seq<string>, created: map<string, nat>)
  {
    forall i, j :: 0 <= i < j < |ids| ==>
      ids[i] in created && ids[j] in created && created[ids[j]] <= created[ids[i]]
  }

  /** Putting an id created no earlier than every id of a descending list in
      front of it keeps the list descending. */
  lemma DescendingCons(x: string, rest: seq<string>, created: map<string, nat>)
    ensures x in created && Descending(rest, created) &&
            (forall y :: y in rest ==> y in created && created[y] <= created[x])
            ==> Descending([x] + rest, created)
  {
  }

  /** Inserts id into a list ordered latest first, keeping it so ordered. */
  function InsertByCreation(ids: seq<string>, id: string, created: map<string, nat>): (r: seq<string>)
    requires id in created
    requires forall i :: 0 <= i < |ids| ==> ids[i] in created
    ensures |r| == |ids| + 1
    ensures forall x :: x in r <==> x in ids || x == id
    ensures Distinct(ids) && id !in ids ==> Distinct(r)
    ensures Descending(ids, created) ==> Descending(r, created)
  {
    if ids == [] || created[ids[0]] <= created[id] then [id] + ids
    else
      var tail := ids[1..];
      assert Distinct(ids) ==> Distinct(tail) && ids[0] !in tail;
      assert Descending(ids, created) ==>
        Descending(tail, created) && forall x :: x in tail ==> created[x] <= created[ids[0]];
      var rest := InsertByCreation(tail, id, created);
      DescendingCons(ids[0], rest, created);
      [ids[0]] + rest
  }

  // ---------------------------------------------------------------------------
  // Deleting a session with messages, as written and as intended

  /** As written: after deleting a session that had a message, the session is
      gone but get_history_messages still returns the message. */
  method OrphanedHistoryAfterDelete() returns (found: bool, history: seq<Msg>)
    ensures !found && history == [Human("hi")]
  {
    var store := new SessionStore.Open();
    var sid := store.CreateSession("s", 0);
    var ok := store.AppendMessages(sid, [Human("hi")]);
    var deleted := store.DeleteSession(sid);
    found := store.SessionExists(sid);
    history := store.GetHistoryMessages(sid);
  }

  /** As intended: with foreign keys enforced, the same steps leave no history. */
  method CascadedHistoryAfterDelete() returns (found: bool, history: seq<Msg>)
    ensures !found && history == []
  {
    var store := new SessionStore.OpenWithForeignKeys();
    var sid := store.CreateSession("s", 0);
    var ok := store.AppendMessages(sid, [Human("hi")]);
    var deleted := store.DeleteSession(sid);
    found := store.SessionExists(sid);
    history := store.GetHistoryMessages(sid);
  }

  /** Creating A and then, a second later, B lists B before A. */
  method ListAfterTwoCreations() returns (ids: seq<string>)
    ensures ids == ["B", "A"]
  {
    var store := new SessionStore.Open();
    var a := store.CreateSession("A", 0);
    var b := store.CreateSession("B", 1);
    ids := store.ListSessions();
    assert ids[0] in store.sessions && ids[1] in store.sessions;
  }
}

/** The HTTP handlers of main.py, over a store and a chain passed in. Routing,
    request validation and the mapping of exceptions to status codes are the
    web framework's. */
module Api {
  import opened Messages
  import opened Errors
  import Utils
  import Database
  import Rag

  datatype ChatResponse = ChatResponse(sessionId: string, answer: string, chatHistory: seq<string>)
  datatype HistoryEntry = HistoryEntry(role: string, content: string)
  datatype SessionHistoryResponse = SessionHistoryResponse(sessionId: string, history: seq<HistoryEntry>)
  datatype DeleteSessionResponse = DeleteSessionResponse(sessionId: string, deleted: bool)

  /** POST /sessions: forwards to the store. */
  method CreateSession(store: Database.SessionStore, newId: string, now: nat) returns (sessionId: string)
    requires store.Valid()
    requires newId !in store.sessions
    requires forall i :: 0 <= i < |store.rows| ==> store.rows[i].sessionId != newId
    modifies store
    ensures store.Valid()
    ensures sessionId == newId && sessionId in store.sessions
    ensures store.sessions == old(store.sessions)[sessionId := now] && store.rows == old(store.rows)
    ensures store.nextId == old(store.nextId) && store.foreignKeys == old(store.foreignKeys)
    ensures store.History(sessionId) == []
  {
    sessionId := store.CreateSession(newId, now);
  }

  /** POST /chat. The history is loaded into a new list, chat appends the turn
      to that same list, and only the part beyond the loaded length is written
      back: exactly the raw query and the answer. When the chain fails nothing
      is written. */
  method ChatWithRag(store: Database.SessionStore, chain: Rag.Chain, sessionId: string, query: string)
    returns (r: Result<ChatResponse>)
    requires store.Valid()
    modifies store
    ensures store.Valid()
    ensures store.sessions == old(store.sessions) && store.foreignKeys == old(store.foreignKeys)
    ensures old(store.rows) <= store.rows
    ensures forall s :: s != sessionId ==> store.History(s) == old(store.History(s))
    ensures var before := old(store.History(sessionId));
            var answer := Rag.AnswerOf(chain(query, before));
            match answer
            case Err(e) =>
              r == Err(e) && store.rows == old(store.rows) && store.nextId == old(store.nextId)
            case Ok(a) =>
              if store.foreignKeys && sessionId !in store.sessions then
                r == Err(IntegrityError) && store.rows == old(store.rows) && store.nextId == old(store.nextId)
              else
                var after := Rag.AppendTurn(before, query, a);
                r == Ok(ChatResponse(sessionId, a, Utils.Formatted(after))) &&
                store.History(sessionId) == after &&
                store.rows == old(store.rows) + Database.EncodeRows(sessionId, [Human(query), AI(a)], old(store.nextId)) &&
                store.nextId == old(store.nextId) + 2
  {
    var loaded := store.GetHistoryMessages(sessionId);
    var history := new Rag.MessageList(loaded);
    var historyLen := |history.items|;
    var result := Rag.Chat(chain, query, history);
    if result.Err? {
      return Err(result.error);
    }
    var ok := store.AppendMessages(sessionId, history.items[historyLen..]);
    if !ok {
      return Err(IntegrityError);
    }
    var formatted := Utils.FormatHistory(history.items);
    r := Ok(ChatResponse(sessionId, result.value.answer, formatted));
  }

  /** GET /sessions/{session_id}: each message with the role the handler
      computes itself, which is always the role the store writes for it. */
  method GetSessionHistory(store: Database.SessionStore, sessionId: string)
    returns (resp: SessionHistoryResponse)
    ensures resp.sessionId == sessionId
    ensures |resp.history| == |store.History(sessionId)|
    ensures forall k :: 0 <= k < |resp.history| ==>
              resp.history[k].role == Database.RoleOf(store.History(sessionId)[k]) &&
              resp.history[k].content == store.History(sessionId)[k].content
  {
    var history := store.GetHistoryMessages(sessionId);
    var messages: seq<HistoryEntry> := [];
    for i := 0 to |history|
      invariant |messages| == i
      invariant forall k :: 0 <= k < i ==>
                  messages[k] == HistoryEntry(Database.RoleOf(history[k]), history[k].content)
    {
      var msg := history[i];
      var role := "system";
      if msg.Human? {
        role := "human";
      } else if msg.AI? {
        role := "ai";
      }
      messages := messages + [HistoryEntry(role, msg.content)];
    }
    resp := SessionHistoryResponse(sessionId, messages);
  }

  /** GET /sessions: forwards to the store. */
  method ListSessions(store: Database.SessionStore) returns (sessions: seq<string>)
    ensures forall id :: id in sessions <==> id in store.sessions
    ensures forall i, j :: 0 <= i < j < |sessions| ==> sessions[i] != sessions[j]
    ensures forall i, j :: 0 <= i < j < |sessions| ==>
              store.sessions[sessions[j]] <= store.sessions[sessions[i]]
  {
    sessions := store.ListSessions();
  }

  /** DELETE /sessions/{session_id}: reports deleted = true whatever the store
      answers, including for an id that never existed. */
  method DeleteSession(store: Database.SessionStore, sessionId: string)
    returns (resp: DeleteSessionResponse)
    requires store.Valid()
    modifies store
    ensures store.Valid()
    ensures resp == DeleteSessionResponse(sessionId, true)
    ensures store.sessions == old(store.sessions) - {sessionId}
    ensures store.rows == if store.foreignKeys then Database.Cascade(old(store.rows), sessionId) else old(store.rows)
    ensures store.nextId == old(store.nextId) && store.foreignKeys == old(store.foreignKeys)
    ensures store.foreignKeys ==> store.History(sessionId) == []
    ensures forall s :: s != sessionId ==> store.History(s) == old(store.History(s))
  {
    var _ := store.DeleteSession(sessionId);
    resp := DeleteSessionResponse(sessionId, true);
  }

  /** Two turns on one new session, with a chain that always answers "ok":
      each turn persists exactly its two messages, the second turn's chain
      sees the first turn, and the response formats all four messages. */
  method TwoTurnConversation(q1: string, q2: string) returns (history: seq<Msg>, shown: seq<string>)
    ensures history == [Human(q1), AI("ok"), Human(q2), AI("ok")]
    ensures shown == ["Human: " + q1, "AI: ok", "Human: " + q2, "AI: ok"]
  {
    var chain: Rag.Chain := (q, h) => Rag.Returned(map["answer" := "ok"]);
    var store := new Database.SessionStore.Open();
    var sid := CreateSession(store, "s", 0);
    assert Rag.AnswerOf(chain(q1, [])) == Ok("ok");
    var r1 := ChatWithRag(store, chain, sid, q1);
    ghost var first := [Human(q1), AI("ok")];
    assert store.History(sid) == first;
    assert Rag.AnswerOf(chain(q2, first)) == Ok("ok");
    var r2 := ChatWithRag(store, chain, sid, q2);
    assert store.History(sid) == first + [Human(q2), AI("ok")];
    history := store.GetHistoryMessages(sid);
    assert history == [Human(q1), AI("ok"), Human(q2), AI("ok")];
    shown := r2.value.chatHistory;
    assert shown == Utils.Formatted(history);
    Utils.FormattedAt(history, 0);
    Utils.FormattedAt(history, 1);
    Utils.FormattedAt(history, 2);
    Utils.FormattedAt(history, 3);
    assert "AI: " + "ok" == "AI: ok";
    assert shown == [shown[0], shown[1], shown[2], shown[3]];
  }

  /** The orphaned rows seen through the handlers: on the store as main.py
      opens it, a session deleted over DELETE still shows its message over
      GET /sessions/{session_id}, while the delete reported success. */
  method OrphanedHistoryOverHttp() returns (deleted: bool, shown: seq<HistoryEntry>)
    ensures deleted && shown == [HistoryEntry("human", "hi")]
  {
    var store := new Database.SessionStore.Open();
    var sid := CreateSession(store, "s", 0);
    var ok := store.AppendMessages(sid, [Human("hi")]);
    var resp := DeleteSession(store, sid);
    deleted := resp.deleted;
    var history := GetSessionHistory(store, sid);
    shown := history.history;
    assert store.History(sid) == [Human("hi")];
  }
}

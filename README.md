# Session history bookkeeping of a conversational RAG service

This project models, in Dafny, the part of a retrieval-augmented chat service
that keeps conversation state: the SQLite-backed `SessionStore`, the `chat`
step that appends a turn to the caller's history list around an opaque
retrieval chain, the `/chat`, `/sessions` and `/sessions/{id}` handlers that
tie the two together, and `format_history`, which renders a transcript for
display.

Modules, one per source file plus two shared ones:

- `Messages` (`messages.dfy`): `Msg = Human | AI | System`, the three message
  kinds the code tells apart with `isinstance`.
- `Errors` (`errors.dfy`): the exceptions that can leave the core (`KeyError`,
  a failed chain invocation, a rejected insert) as a `Result` value.
- `Utils` (`utils.dfy`, from utils.py): `format_history` as a loop proved
  against the specification function `Formatted`.
- `Database` (`database.dfy`, from database.py): the role codec (`RoleOf`,
  `Decode`), the messages table as a value (`HistoryIn`, `EncodeRows`,
  `Cascade`) with its lemmas, and the class `SessionStore`. The class holds
  the sessions table (`sessions`, a map from id to creation stamp), the
  messages table (`rows`, in id order), the AUTOINCREMENT counter (`nextId`)
  and whether the connection enforces foreign keys (`foreignKeys`).
- `Rag` (`rag.dfy`, from rag.py): `Chat` over a `MessageList` object. The
  object stands for the Python list that the caller and `chat` share by
  reference.
- `Api` (`api.dfy`, from main.py): the handlers, each taking the store (and
  the chain) as parameters.

Inputs that the source takes from its environment are parameters. The
`uuid4` value is `newId`, and it must not occur anywhere in the database.
The `CURRENT_TIMESTAMP` value of a new session is `now`. The chain is a
function from (query, history) to its reply: a result dictionary or an
exception.

The code and the design intent disagree in one place, and the model follows
the code. The schema declares `ON DELETE CASCADE` (database.py:35). The
connection never enables foreign keys (database.py:10-14), and SQLite
enforces neither foreign keys nor cascades without that. So `SessionStore.Open`
has `foreignKeys == false`, and `DeleteSession` leaves the session's message
rows behind. `SessionStore.OpenWithForeignKeys` is the store as intended. With
foreign keys on, SQLite also rejects message rows for an unknown session.
`AppendMessages` then returns `ok == false`, and `ChatWithRag` reports an
`IntegrityError`. On a store opened as the source opens it, `ok` is always true.

## Model

| member | source | states |
|---|---|---|
| `Utils.FormatHistory` | utils.py:4-13 | one string per message, in order: a Human message with content c gives "Human: " + c, an AI message gives "AI: " + c, any other message gives c; the result is `Formatted(messages)`, and empty input gives empty output |
| `Utils.FormattedAt` | utils.py:6-12 | element k of the formatted transcript is the rendering of message k, and the lengths agree |
| `Utils.FormattedLength` | utils.py:4-13 | formatting preserves length |
| `Utils.FormattedAppend` | utils.py:6-13 | formatting distributes over concatenation: Formatted(a + b) == Formatted(a) + Formatted(b) |
| `Database.RoleOf` | database.py:108-114 | the stored role is "human" exactly for Human, "ai" exactly for AI, "system" exactly for everything else |
| `Database.Decode` | database.py:76-84 | decoding is total and keeps the content; "human" gives Human, "ai" gives AI, any other string gives System |
| `Database.RoleRoundTrip` | database.py:76-84 | decoding the stored role and content of a message gives back the same message |
| `Database.StoredRoleRoundTrip` | database.py:79-84 | re-encoding a decoded row reproduces its role string if and only if that string is "human", "ai" or "system" |
| `Database.HistoryInAppend` | database.py:64-73 | a session's history over rows a + b is its history over a followed by its history over b |
| `Database.HistoryInAbsent` | database.py:64-85 | a session with no message rows has an empty history |
| `Database.EncodeRowsHistory` | database.py:87-99 | the rows inserted for (sid, ms) read back as exactly ms for sid and as nothing for any other session |
| `Database.EncodeRowsIds` | database.py:95-97 | the inserted rows get consecutive AUTOINCREMENT ids, one per message |
| `Database.CascadeKeepsOrder` | database.py:35 | removing a session's rows keeps the remaining rows in ascending id order |
| `Database.CascadeClearsHistory` | database.py:35 | after a cascading delete the deleted session's history is empty and every other session's history is unchanged |
| `Database.InsertByCreation` | database.py:60 | inserting an id into a list ordered latest first adds exactly that id, keeps the list free of duplicates and keeps it ordered |
| `Database.SessionStore.Open` | database.py:10-14 | a new store has no sessions and no messages, and does not enforce foreign keys |
| `Database.SessionStore.OpenWithForeignKeys` | database.py:35 | the same store with foreign keys enforced, as the schema's cascade intends |
| `Database.SessionStore.CreateSession` | database.py:41-49 | returns the fresh id, adds it with its creation stamp, changes no message; afterwards the session exists, is listed and has an empty history |
| `Database.SessionStore.SessionExists` | database.py:51-56 | true exactly when the sessions table has that id |
| `Database.SessionStore.ListSessions` | database.py:58-62 | every session id exactly once, ordered by creation stamp latest first; order among equal stamps is unspecified |
| `Database.SessionStore.GetHistoryMessages` | database.py:64-85 | the session's rows in id order, decoded; an id without rows, unknown ids included, gives the empty list |
| `Database.SessionStore.AppendMessages` | database.py:87-99 | an empty list changes nothing; otherwise the session's history becomes the old history followed by the messages in order, every other session's history is unchanged, and the session's existence is not checked |
| `Database.SessionStore.DeleteSession` | database.py:101-106 | returns true exactly when the id was a session; the id is no longer a session and other sessions are untouched; message rows stay unless foreign keys are enforced, in which case the history becomes empty |
| `Database.OrphanedHistoryAfterDelete` | database.py:101-106 | on the store as opened by the source, deleting a session with a message leaves that message readable through get_history_messages |
| `Database.CascadedHistoryAfterDelete` | database.py:35 | with foreign keys enforced, the same steps leave an empty history |
| `Database.ListAfterTwoCreations` | database.py:58-62 | creating A and then, later, B lists [B, A] |
| `Rag.AppendTurn` | rag.py:117-120 | a turn keeps the old history as a prefix and appends exactly Human(query) then AI(answer); the length grows by 2 and the last entry's content is the answer |
| `Rag.Chat` | rag.py:110-120 | a None history is a new empty list; the chain sees the history as it was; on success the answer is result["answer"] and the returned list is the caller's own list, now extended by Human(query), AI(answer); on failure, a missing "answer" key included, nothing is appended |
| `Api.CreateSession` | main.py:32-35 | forwards to the store: the new session exists with an empty history, and the messages, the counter and the foreign-key setting are unchanged |
| `Api.ChatWithRag` | main.py:38-54 | on success exactly [Human(query), AI(answer)] is persisted under the next two AUTOINCREMENT ids, earlier rows are never rewritten, the history grows by 2, other sessions are untouched, and the response's chat_history is the formatted full history; if the chain fails nothing is persisted |
| `Api.GetSessionHistory` | main.py:57-74 | one entry per stored message, in order, with the message's content and a role that always equals the store's own role encoding |
| `Api.ListSessions` | main.py:77-79 | forwards the store's listing: each session once, latest first |
| `Api.DeleteSession` | main.py:82-89 | always answers deleted = true, whatever the store returns, and applies the store's delete: the id is no longer a session, the message rows stay unless foreign keys are enforced (then they cascade), and the counter and foreign-key setting are unchanged |
| `Api.OrphanedHistoryOverHttp` | main.py:82-89 | on the store as main.py opens it, a session deleted over DELETE (reported deleted = true) still shows its message over GET /sessions/{session_id} |
| `Api.TwoTurnConversation` | main.py:38-54 | two turns on a new session store four messages in order, and the second response formats all four |

## Findings

| source | as written | input that shows it | evidently intended | confidence | as-written member | corrected member |
|---|---|---|---|---|---|---|
| database.py:10-14, 35 | the connection never enables foreign keys, so ON DELETE CASCADE has no effect and delete_session leaves the session's messages in the table | create_session() gives s; append_messages(s, [Human("hi")]); delete_session(s); get_history_messages(s) still returns [Human("hi")] while session_exists(s) is false | deleting a session deletes its messages, so its history is empty afterwards | not executed; high (SQLite's documented default) | `Database.OrphanedHistoryAfterDelete` | `Database.CascadeClearsHistory` |

## Left out

- SQL execution, the connection object and `threading.Lock`: the tables are fields and every method runs atomically, so interleavings of concurrent requests are not modelled.
- `Database.SessionStore.Open` starts from an empty database; reopening an existing `sessions.db` with rows already in it is not modelled.
- The `created_at` column of the messages table and the real clock: session creation stamps are the `now` parameter, and message stamps play no part in any query.
- `uuid4`: the id is the `newId` parameter, required to be unused anywhere in the database.
- Storage I/O failures. The one storage error modelled is the insert SQLite rejects when foreign keys are enforced.
- The chain's internals: the history-aware query rewrite, the retrieval of `DefaultTopK` (3) fragments and the answer generation. The prompts' limits ("3-4 sentences", "under 120 words") are prompt text handed to a language model, not code. On an empty history the retriever built by `create_history_aware_retriever` (rag.py:89-91) skips the rewrite and passes the query to retrieval unchanged; that bypass is library code inside the opaque chain and is not modelled. The chain is a function of the query and the history. It cannot mutate the history list it is given.
- `load_documents`, `split_documents`, `create_vector_store`, `load_vector_store`, `get_retriever` (beyond its default `k = 3`) and `get_conversational_rag`: file I/O and calls into LangChain, Chroma, sentence-transformers and Groq.
- agent.py, the voice front end: LiveKit plumbing and executor dispatch. Its only bookkeeping, keeping `result["chat_history"]` as the next history, is what `Rag.Chat` returns.
- serializers.py: its response schemas appear only as the datatypes in `Api`.
- FastAPI routing and the `KeyError` to 404 handlers: errors are returned as `Err` values. In `/chat` the only `KeyError` is a chain result without "answer". The store raises none.
- Formatting "idempotence": `format_history` maps messages to strings, so it cannot be applied twice. That it is a pure function is what `Utils.Formatted` and `Utils.FormatHistory` state.

/** The chat step of rag.py: invoke the retrieval chain, then append the
    turn to the caller's history list in place. The chain itself (query
    rewrite, retrieval, generation) is opaque. */
module Rag {
  import opened Messages
  import opened Errors

  /** Number of fragments get_retriever asks the vector store for by default. */
  const DefaultTopK: nat := 3

  /** What one invocation of the chain gives back: its result dictionary, or
      an exception. */
  datatype Reply = Returned(fields: map<string, string>) | Raised

  /** The chain, seen from outside: the query and the history it is invoked
      with determine its reply. */
  type Chain = (string, seq<Msg>) -> Reply

  /** result["answer"] after a successful invoke, or the exception raised on
      the way there. */
  function AnswerOf(reply: Reply): Result<string>
  {
    match reply
    case Raised => Err(ChainFailure)
    case Returned(fields) =>
      if "answer" in fields then Ok(fields["answer"]) else Err(KeyError("answer"))
  }

  /** The history after one successful turn: the old history untouched, then
      the raw query, then the answer, which is therefore the content of the
      last entry. */
  function AppendTurn(history: seq<Msg>, query: string, answer: string): (h: seq<Msg>)
    ensures |h| == |history| + 2
    ensures h[..|history|] == history
    ensures h[|history|..] == [Human(query), AI(answer)]
    ensures h[|h| - 1].content == answer
  {
    history + [Human(query), AI(answer)]
  }

  /** A Python list of messages: a mutable object that callers share by reference. */
  class MessageList {
    var items: seq<Msg>

    constructor (items: seq<Msg>)
      ensures this.items == items
    {
      this.items := items;
    }
  }

  /** The dictionary chat returns. */
  datatype ChatResult = ChatResult(answer: string, chatHistory: MessageList)

  /** chat. A null history stands for a fresh empty list. The chain sees the
      history as it was; only when it succeeds are the raw query and the answer
      appended, in that order, to the very list the caller passed in. */
  method Chat(chain: Chain, query: string, chatHistory: MessageList?) returns (r: Result<ChatResult>)
    modifies chatHistory
    ensures var before := if chatHistory == null then [] else old(chatHistory.items);
            var answer := AnswerOf(chain(query, before));
            match answer
            case Err(e) =>
              r == Err(e) && (chatHistory != null ==> chatHistory.items == before)
            case Ok(a) =>
              r.Ok? && r.value.answer == a &&
              r.value.chatHistory.items == AppendTurn(before, query, a) &&
              (chatHistory != null ==> r.value.chatHistory == chatHistory) &&
              (chatHistory == null ==> fresh(r.value.chatHistory))
  {
    var history := chatHistory;
    if history == null {
      history := new MessageList([]);
    }
    var answer := AnswerOf(chain(query, history.items));
    if answer.Err? {
      return Err(answer.error);
    }
    history.items := history.items + [Human(query)];
    history.items := history.items + [AI(answer.value)];
    r := Ok(ChatResult(answer.value, history));
  }
}

/** The history formatter of utils.py: messages to display strings. */
module Utils {
  import opened Messages

  /** The display string of one message. */
  function Render(m: Msg): string
  {
    match m
    case Human(c) => "Human: " + c
    case AI(c) => "AI: " + c
    case System(c) => c
  }

  /** The display strings of a transcript, built front to back. */
  function Formatted(ms: seq<Msg>): seq<string>
  {
    if ms == [] then [] else Formatted(ms[..|ms| - 1]) + [Render(ms[|ms| - 1])]
  }

  /** Formatting keeps the length and maps element k to the rendering of element k. */
  lemma {:induction false} FormattedAt(ms: seq<Msg>, k: nat)
    requires k < |ms|
    ensures |Formatted(ms)| == |ms|
    ensures Formatted(ms)[k] == Render(ms[k])
  {
    FormattedLength(ms[..|ms| - 1]);
    if k < |ms| - 1 {
      FormattedAt(ms[..|ms| - 1], k);
    }
  }

  lemma {:induction false} FormattedLength(ms: seq<Msg>)
    ensures |Formatted(ms)| == |ms|
  {
    if ms != [] {
      FormattedLength(ms[..|ms| - 1]);
    }
  }

  /** The loop concatenates per-message results, so formatting distributes over +. */
  lemma {:induction false} FormattedAppend(a: seq<Msg>, b: seq<Msg>)
    ensures Formatted(a + b) == Formatted(a) + Formatted(b)
  {
    if b == [] {
      assert a + b == a;
    } else {
      assert (a + b)[..|a + b| - 1] == a + b[..|b| - 1];
      FormattedAppend(a, b[..|b| - 1]);
    }
  }

  /** format_history: one display string per message, in order; the input is a
      value and is left as it was. */
  method FormatHistory(messages: seq<Msg>) returns (readable: seq<string>)
    ensures |readable| == |messages|
    ensures forall k :: 0 <= k < |messages| && messages[k].Human? ==>
              readable[k] == "Human: " + messages[k].content
    ensures forall k :: 0 <= k < |messages| && messages[k].AI? ==>
              readable[k] == "AI: " + messages[k].content
    ensures forall k :: 0 <= k < |messages| && messages[k].System? ==>
              readable[k] == messages[k].content
    ensures readable == Formatted(messages)
  {
    readable := [];
    for i := 0 to |messages|
      invariant readable == Formatted(messages[..i])
      invariant |readable| == i
      invariant forall k :: 0 <= k < i ==> readable[k] == Render(messages[k])
    {
      var msg := messages[i];
      assert messages[..i + 1][..i] == messages[..i];
      if msg.Human? {
        readable := readable + ["Human: " + msg.content];
      } else if msg.AI? {
        readable := readable + ["AI: " + msg.content];
      } else {
        readable := readable + [msg.content];
      }
    }
    assert messages[..|messages|] == messages;
  }
}

/** The event types of src/agents/providers/types.ts and the sink they end in. */
module Streams {
  import opened Text

  datatype ToolCall = ToolCall(id: string, name: string, arguments: string)

  /** `modelLevel` says that the message matches one of the model-level patterns. */
  datatype ProviderError = ProviderError(message: string, retryable: bool, cascadable: bool, modelLevel: bool)

  datatype StreamEvent =
    | Token(text: string)
    | ToolCalls(calls: seq<ToolCall>)
    | Done(fullText: string)
    | Failure(error: ProviderError)

  /** The texts of the token events, in order. */
  function Tokens(events: seq<StreamEvent>): seq<string> {
    if events == [] then []
    else (if events[0].Token? then [events[0].text] else []) + Tokens(events[1..])
  }

  lemma {:induction false} TokensAppend(a: seq<StreamEvent>, b: seq<StreamEvent>)
    ensures Tokens(a + b) == Tokens(a) + Tokens(b)
  {
    if a == [] {
      assert a + b == b;
    } else {
      var first := if a[0].Token? then [a[0].text] else [];
      assert (a + b)[1..] == a[1..] + b;
      TokensAppend(a[1..], b);
      Regroup(first, Tokens(a[1..]), Tokens(b));
    }
  }

  lemma TokensSnoc(events: seq<StreamEvent>, last: StreamEvent)
    ensures Tokens(events + [last]) == if last.Token? then Tokens(events) + [last.text] else Tokens(events)
  {
    TokensAppend(events, [last]);
    assert Tokens([last]) == if last.Token? then [last.text] else [];
    assert Tokens(events) + [] == Tokens(events);
  }

  /** What the user's connector was sent. */
  class Sink {
    var tokens: seq<string>
    var dones: nat
    var errors: seq<string>

    constructor ()
      ensures tokens == [] && dones == 0 && errors == []
    {
      tokens, dones, errors := [], 0, [];
    }
  }
}

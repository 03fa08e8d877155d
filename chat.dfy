/** The chat entities shared by the request handlers, the router and the
    knowledge loader, and the model-provider choice both of them make. */
module Chat {
  import opened Strings

  datatype Role = User | Assistant

  /** A conversation turn as the client sends it. */
  datatype Message = Message(role: Role, content: string)

  /** A knowledge base the user selected: the vector-store namespace and the
      chunking it was ingested with. */
  datatype Knowledge = Knowledge(namespace: string, chunkSize: int, chunkSizeOverlap: int)

  /** A message handed to the chat model. */
  datatype ChatMessage = SystemMessage(text: string) | HumanMessage(text: string) | AIMessage(text: string)

  datatype Provider = OpenAI | Anthropic

  /** What `getModel(type, {modelName, temperature, ...}).call(messages)` is
      asked to do. */
  datatype ModelCall = ModelCall(provider: Provider, modelId: string, temperature: real, messages: seq<ChatMessage>)

  /** `type = 'openai'; if (id.includes('claude')) type = 'anthropic'` */
  function ProviderFor(modelId: string): (p: Provider)
    ensures p == Anthropic <==> Contains(modelId, "claude")
  {
    IndexOfIsFirst(modelId, "claude");
    if IndexOf(modelId, "claude") != -1 then Anthropic else OpenAI
  }

  function Concat(tokens: seq<string>): string
  {
    if tokens == [] then "" else tokens[0] + Concat(tokens[1..])
  }

  /** The tokens a `handleLLMNewToken` callback passes on: it returns early on
      an empty token. Nothing the client reads is lost or reordered. */
  function ForwardedTokens(tokens: seq<string>): (r: seq<string>)
    ensures forall i :: 0 <= i < |r| ==> r[i] != ""
    ensures |r| <= |tokens|
    ensures Concat(r) == Concat(tokens)
  {
    if tokens == [] then []
    else if tokens[0] == "" then ForwardedTokens(tokens[1..])
    else [tokens[0]] + ForwardedTokens(tokens[1..])
  }

  /** Filtering a token sequence is filtering its parts: each callback
      stands on its own, in order. */
  lemma {:induction false} ForwardedTokensAppend(a: seq<string>, b: seq<string>)
    ensures ForwardedTokens(a + b) == ForwardedTokens(a) + ForwardedTokens(b)
  {
    if a == [] {
      assert a + b == b;
    } else {
      assert (a + b)[1..] == a[1..] + b;
      ForwardedTokensAppend(a[1..], b);
    }
  }

  /** One callback forwards its token unchanged, unless the token is empty;
      with `ForwardedTokensAppend` this makes the forwarded tokens exactly the
      non-empty input tokens, one by one, in order. */
  lemma ForwardedTokenSingle(t: string)
    ensures ForwardedTokens([t]) == if t == "" then [] else [t]
  {
  }

  /** What a stream controller has received: the chunks enqueued, in order,
      and whether it was closed. */
  datatype StreamLog = StreamLog(chunks: seq<string>, closed: bool)

  /** The stream fed by a model's token callbacks: `handleLLMNewToken`
      enqueues every non-empty token and `handleLLMEnd` closes the stream. */
  function TokenStream(tokens: seq<string>, ended: bool): (s: StreamLog)
    ensures s.closed <==> ended
    ensures forall i :: 0 <= i < |s.chunks| ==> s.chunks[i] != ""
    ensures Concat(s.chunks) == Concat(tokens)
    ensures s.chunks == ForwardedTokens(tokens)
  {
    StreamLog(ForwardedTokens(tokens), ended)
  }
}

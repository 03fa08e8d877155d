/**
  The knowledge chat request handler (`pages/api/chat-knowledge.ts`): the
  defaults for a missing prompt or temperature, the rebuilt message list, and
  the arguments handed on to the streaming chat call. The default prompt and
  temperature come from `utils/app/const`, which is not part of this model;
  they are parameters.
*/
module ChatKnowledge {
  import opened Wrappers
  import opened Chat

  /** The request body. A prompt or temperature that is null or missing is
      `None`. */
  datatype ChatBody = ChatBody(
    modelId: string,
    messages: seq<Message>,
    key: string,
    prompt: Option<string>,
    temperature: Option<real>,
    isKnowledgeBase: Option<bool>,
    knowledge: Option<Knowledge>)

  /** The arguments of the streaming chat call. */
  datatype StreamRequest = StreamRequest(
    modelId: string,
    systemPrompt: string,
    temperature: real,
    key: string,
    messages: seq<Message>,
    isKnowledgeBase: Option<bool>,
    knowledge: Option<Knowledge>)

  /** `if (!promptToSend) promptToSend = DEFAULT_SYSTEM_PROMPT`: a missing or
      empty prompt is replaced, any other is kept. */
  function PromptToSend(prompt: Option<string>, defaultPrompt: string): (p: string)
    ensures prompt.None? || prompt == Some("") ==> p == defaultPrompt
    ensures prompt.Some? && prompt.value != "" ==> p == prompt.value
  {
    if prompt.None? || prompt.value == "" then defaultPrompt else prompt.value
  }

  /** `if (temperatureToUse == null) temperatureToUse = DEFAULT_TEMPERATURE`:
      only a missing temperature is replaced; 0 is kept. */
  function TemperatureToUse(temperature: Option<real>, defaultTemperature: real): (t: real)
    ensures temperature.None? ==> t == defaultTemperature
    ensures temperature.Some? ==> t == temperature.value
  {
    if temperature.None? then defaultTemperature else temperature.value
  }

  /** The backward loop that rebuilds the message list, each message put in
      front of those after it: the list sent is the list received. */
  method RebuildMessages(messages: seq<Message>) returns (messagesToSend: seq<Message>)
    ensures messagesToSend == messages
  {
    messagesToSend := [];
    var i := |messages| - 1;
    while i >= 0
      invariant -1 <= i < |messages|
      invariant messagesToSend == messages[i + 1..]
      decreases i + 1
    {
      var message := messages[i];
      messagesToSend := [message] + messagesToSend;
      i := i - 1;
    }
  }

  /** `handler`: the normalised prompt and temperature, the rebuilt list, and
      everything else forwarded unchanged. */
  method Handle(body: ChatBody, defaultPrompt: string, defaultTemperature: real) returns (call: StreamRequest)
    ensures call.systemPrompt == PromptToSend(body.prompt, defaultPrompt)
    ensures call.temperature == TemperatureToUse(body.temperature, defaultTemperature)
    ensures call.messages == body.messages
    ensures call.modelId == body.modelId && call.key == body.key
    ensures call.isKnowledgeBase == body.isKnowledgeBase && call.knowledge == body.knowledge
  {
    var promptToSend := body.prompt;
    if promptToSend.None? || promptToSend.value == "" {
      promptToSend := Some(defaultPrompt);
    }
    var temperatureToUse := body.temperature;
    if temperatureToUse.None? {
      temperatureToUse := Some(defaultTemperature);
    }
    var messagesToSend := RebuildMessages(body.messages);
    call := StreamRequest(body.modelId, promptToSend.value, temperatureToUse.value, body.key,
                          messagesToSend, body.isKnowledgeBase, body.knowledge);
  }
}

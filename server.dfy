/**
  The chat request router (`chatProxyParser`) and the plain chat call
  (`normalChatParse`).

  Only the last message of the conversation is read. A `/s` command goes to
  the single-page web reader with the URL found in it, a `/g` command to the
  search-engine reader, a request carrying a knowledge base to the knowledge
  loader, and everything else to the chat model with the whole conversation.
  The collaborators themselves are not modelled: a route records the
  arguments the chosen one is called with. The questions the two extraction
  regular expressions find are inputs.
*/
module Server {
  import opened Wrappers
  import opened Strings
  import opened Chat

  // ---------------------------------------------------------------------
  // The command rules
  // ---------------------------------------------------------------------

  /** The first character of `t` at or after `from` that is not whitespace. */
  function FirstNonSpace(t: string, from: nat): (r: Option<nat>)
    decreases |t| - from
    ensures r.Some? ==> from <= r.value < |t| && !IsWhitespace(t[r.value])
    ensures r.Some? ==> forall j :: from <= j < r.value ==> IsWhitespace(t[j])
    ensures r.None? <==> forall j :: from <= j < |t| ==> IsWhitespace(t[j])
  {
    if from >= |t| then None
    else if !IsWhitespace(t[from]) then Some(from)
    else FirstNonSpace(t, from + 1)
  }

  /** Where the run of non-whitespace characters starting at `from` ends. */
  function RunEnd(t: string, from: nat): (r: nat)
    requires from <= |t|
    decreases |t| - from
    ensures from <= r <= |t|
    ensures forall j :: from <= j < r ==> !IsWhitespace(t[j])
    ensures r == |t| || IsWhitespace(t[r])
  {
    if from == |t| || IsWhitespace(t[from]) then from else RunEnd(t, from + 1)
  }

  /** `rules.search`: the text starts with `/s` and something other than
      whitespace follows from its fourth character on (the regular
      expression `(http(s)?:\/\/)?\S+` matches exactly then). */
  function SearchRule(s: string): (r: bool)
    ensures r <==> StartsWith(s, "/s") && exists i :: 3 <= i < |s| && !IsWhitespace(s[i])
  {
    var t := Drop(s, 3);
    var found := FirstNonSpace(t, 0);
    if found.Some? then
      assert s[3 + found.value] == t[found.value];
      StartsWith(s, "/s")
    else
      assert forall i :: 3 <= i < |s| ==> t[i - 3] == s[i];
      false
  }

  /** `rules.google` */
  function GoogleRule(s: string): (r: bool)
    ensures r <==> |s| >= 2 && s[0] == '/' && s[1] == 'g'
  {
    assert |s| >= 2 ==> s[..2] == [s[0], s[1]];
    StartsWith(s, "/g")
  }

  /** No text is both a search and a search-engine command. */
  lemma RulesExclusive(s: string)
    ensures !(SearchRule(s) && GoogleRule(s))
  {
    if SearchRule(s) {
      assert s[..2] == "/s";
      assert s[1] == 's';
    }
  }

  /** `str.slice(3).match(/(http(s)?:\/\/)?\S+/)[0]`: the leftmost match
      starts at the first non-whitespace character and, whether or not the
      optional scheme is taken, runs greedily to the end of that
      non-whitespace run. */
  function MatchUrl(s: string): (r: Option<string>)
    ensures r.None? <==> forall i :: 3 <= i < |s| ==> IsWhitespace(s[i])
  {
    var t := Drop(s, 3);
    var found := FirstNonSpace(t, 0);
    if found.None? then
      assert forall i :: 3 <= i < |s| ==> t[i - 3] == s[i];
      None
    else
      Some(t[found.value..RunEnd(t, found.value)])
  }

  /** The URL is the first maximal run of non-whitespace characters after
      the command: everything before it is whitespace, it holds no
      whitespace, and whitespace or the end of the text follows it. */
  lemma UrlIsFirstRun(s: string)
    requires MatchUrl(s).Some?
    ensures var url := MatchUrl(s).value;
      url != "" &&
      exists p :: 3 <= p && OccursAt(s, url, p) &&
        (forall j :: 3 <= j < p ==> IsWhitespace(s[j])) &&
        (forall j :: p <= j < p + |url| ==> !IsWhitespace(s[j])) &&
        (p + |url| == |s| || IsWhitespace(s[p + |url|]))
  {
    var t := Drop(s, 3);
    var q := FirstNonSpace(t, 0).value;
    var e := RunEnd(t, q);
    assert MatchUrl(s).value == t[q..e];
    RunInText(s, t, q, e);
  }

  /** A run found in the text after the command is a run of the whole text,
      three characters further on. */
  lemma RunInText(s: string, t: string, q: nat, e: nat)
    requires |s| >= 3 && |t| == |s| - 3
    requires forall i :: 0 <= i < |t| ==> t[i] == s[3 + i]
    requires q < e <= |t|
    requires forall j :: 0 <= j < q ==> IsWhitespace(t[j])
    requires forall j :: q <= j < e ==> !IsWhitespace(t[j])
    requires e == |t| || IsWhitespace(t[e])
    ensures var url, p := t[q..e], 3 + q;
      OccursAt(s, url, p) &&
      (forall j :: 3 <= j < p ==> IsWhitespace(s[j])) &&
      (forall j :: p <= j < p + |url| ==> !IsWhitespace(s[j])) &&
      (p + |url| == |s| || IsWhitespace(s[p + |url|]))
  {
    var url, p := t[q..e], 3 + q;
    assert s[p..p + |url|] == url;
    forall j | 3 <= j < p + |url| ensures s[j] == t[j - 3] {
    }
    if p + |url| < |s| {
      assert s[p + |url|] == t[e];
    }
  }

  /** Whenever the search rule holds a URL is found, so the fallback to the
      plain chat in the search branch is never taken. */
  lemma SearchRuleFindsUrl(s: string)
    requires SearchRule(s)
    ensures MatchUrl(s).Some?
  {
    var i :| 3 <= i < |s| && !IsWhitespace(s[i]);
  }

  // ---------------------------------------------------------------------
  // The plain chat call
  // ---------------------------------------------------------------------

  /** `messages.map(...)`: a user message becomes a human message, any other
      an AI message, with the same text, in the same order. */
  function ToChatMessages(messages: seq<Message>): (r: seq<ChatMessage>)
    ensures |r| == |messages|
    ensures forall i :: 0 <= i < |r| ==>
      (r[i].HumanMessage? <==> messages[i].role == User) &&
      (r[i].AIMessage? <==> messages[i].role != User) &&
      r[i].text == messages[i].content
  {
    if messages == [] then []
    else
      var m := messages[0];
      [if m.role == User then HumanMessage(m.content) else AIMessage(m.content)] + ToChatMessages(messages[1..])
  }

  /** `normalChatParse`: the provider chosen from the model id, the request
      temperature, and the system prompt followed by the whole conversation. */
  function NormalChatCall(modelId: string, systemPrompt: string, temperature: real, messages: seq<Message>): (c: ModelCall)
    ensures c.provider == Anthropic <==> Contains(modelId, "claude")
    ensures c.modelId == modelId && c.temperature == temperature
    ensures |c.messages| == |messages| + 1 && c.messages[0] == SystemMessage(systemPrompt)
    ensures forall i :: 0 <= i < |messages| ==>
      c.messages[i + 1].text == messages[i].content &&
      (c.messages[i + 1].HumanMessage? <==> messages[i].role == User) &&
      (c.messages[i + 1].AIMessage? <==> messages[i].role != User)
  {
    var chat := ToChatMessages(messages);
    var all := [SystemMessage(systemPrompt)] + chat;
    assert forall i :: 0 <= i < |messages| ==> all[i + 1] == chat[i];
    ModelCall(ProviderFor(modelId), modelId, temperature, all)
  }

  /** A conversation is sent with all its turns: no two conversations give
      the same call. */
  lemma NormalChatKeepsConversation(modelId: string, systemPrompt: string, temperature: real,
                                    a: seq<Message>, b: seq<Message>)
    requires NormalChatCall(modelId, systemPrompt, temperature, a) == NormalChatCall(modelId, systemPrompt, temperature, b)
    ensures a == b
  {
    var ca := NormalChatCall(modelId, systemPrompt, temperature, a);
    forall i | 0 <= i < |a| ensures a[i] == b[i] {
      assert ca.messages[i + 1].text == a[i].content == b[i].content;
      assert a[i].role == User <==> b[i].role == User;
    }
  }

  // ---------------------------------------------------------------------
  // Routing
  // ---------------------------------------------------------------------

  /** The collaborator a chat request is handed to, with its arguments. The
      search-engine branch passes `url`, which is not declared in that branch;
      its call is recorded without it. */
  datatype Route =
    | WebChat(modelId: string, temperature: real, url: string, question: string)
    | GoogleSearch(modelId: string, temperature: real, question: string)
    | KnowledgeChat(modelId: string, temperature: real, prompt: string, question: string, knowledge: Knowledge)
    | NormalChat(call: ModelCall)

  /** `messages[messages.length - 1].content` on an empty list throws. */
  datatype RouteError = NoLastMessage

  /** `chatProxyParser`. `webQuestion` and `googleQuestion` are the first
      matches of the two question-extraction expressions ("" when there is
      none). */
  function ChatProxyParser(modelId: string, systemPrompt: string, temperature: real, messages: seq<Message>,
                           knowledge: Option<Knowledge>, webQuestion: string, googleQuestion: string)
    : (r: Result<Route, RouteError>)
    ensures r.Failure? <==> messages == []
    ensures r.Success? ==>
      var q := messages[|messages| - 1].content;
      (r.value.WebChat? <==> SearchRule(q)) &&
      (r.value.GoogleSearch? <==> !SearchRule(q) && GoogleRule(q)) &&
      (r.value.KnowledgeChat? <==> !SearchRule(q) && !GoogleRule(q) && knowledge.Some?) &&
      (r.value.NormalChat? <==> !SearchRule(q) && !GoogleRule(q) && knowledge.None?) &&
      (r.value.GoogleSearch? ==> r.value == GoogleSearch(modelId, temperature, googleQuestion)) &&
      (r.value.NormalChat? ==> r.value.call == NormalChatCall(modelId, systemPrompt, temperature, messages))
  {
    if messages == [] then Failure(NoLastMessage)
    else
      var question := messages[|messages| - 1];
      if SearchRule(question.content) then
        var maybeUrl := MatchUrl(question.content);
        if maybeUrl.Some? then Success(WebChat(modelId, temperature, maybeUrl.value, webQuestion))
        else
          SearchRuleFindsUrl(question.content);
          assert false;
          Success(NormalChat(NormalChatCall(modelId, systemPrompt, temperature, messages)))
      else if GoogleRule(question.content) then
        Success(GoogleSearch(modelId, temperature, googleQuestion))
      else if knowledge.Some? then
        Success(KnowledgeChat(modelId, temperature, systemPrompt, question.content, knowledge.value))
      else Success(NormalChat(NormalChatCall(modelId, systemPrompt, temperature, messages)))
  }

  /** The route depends on the earlier turns only when the plain chat is
      chosen: with the same last message, two conversations are routed the
      same way, and every route other than the plain chat is the same. */
  lemma OnlyLastMessageRoutes(modelId: string, systemPrompt: string, temperature: real,
                              a: seq<Message>, b: seq<Message>, knowledge: Option<Knowledge>,
                              webQuestion: string, googleQuestion: string)
    requires a != [] && b != [] && a[|a| - 1] == b[|b| - 1]
    ensures var ra := ChatProxyParser(modelId, systemPrompt, temperature, a, knowledge, webQuestion, googleQuestion);
      var rb := ChatProxyParser(modelId, systemPrompt, temperature, b, knowledge, webQuestion, googleQuestion);
      ra.Success? && rb.Success? &&
      (ra.value.NormalChat? <==> rb.value.NormalChat?) &&
      (!ra.value.NormalChat? ==> ra == rb)
  {
  }

  /** A `/s` command routes to the web reader with the first run of
      non-whitespace text after the command as its URL. */
  lemma SearchCommandRoute(modelId: string, systemPrompt: string, temperature: real, messages: seq<Message>,
                           knowledge: Option<Knowledge>, webQuestion: string, googleQuestion: string)
    requires messages != [] && SearchRule(messages[|messages| - 1].content)
    ensures var r := ChatProxyParser(modelId, systemPrompt, temperature, messages, knowledge, webQuestion, googleQuestion);
      var q := messages[|messages| - 1].content;
      MatchUrl(q).Some? &&
      r == Success(WebChat(modelId, temperature, MatchUrl(q).value, webQuestion))
  {
    SearchRuleFindsUrl(messages[|messages| - 1].content);
  }

  /** Without a command, a request that carries a knowledge base is answered
      from it with the system prompt as the template and the last message as
      the question. */
  lemma KnowledgeRoute(modelId: string, systemPrompt: string, temperature: real, messages: seq<Message>,
                       knowledge: Knowledge, webQuestion: string, googleQuestion: string)
    requires messages != []
    requires !SearchRule(messages[|messages| - 1].content)
    requires !GoogleRule(messages[|messages| - 1].content)
    ensures ChatProxyParser(modelId, systemPrompt, temperature, messages, Some(knowledge), webQuestion, googleQuestion)
      == Success(KnowledgeChat(modelId, temperature, systemPrompt, messages[|messages| - 1].content, knowledge))
  {
  }

  /** A `/g` command goes to the search engine with the extracted question;
      the rest of the conversation is not passed on. */
  lemma GoogleCommandRoute(modelId: string, systemPrompt: string, temperature: real, messages: seq<Message>,
                           knowledge: Option<Knowledge>, webQuestion: string, googleQuestion: string)
    requires messages != []
    requires GoogleRule(messages[|messages| - 1].content)
    ensures ChatProxyParser(modelId, systemPrompt, temperature, messages, knowledge, webQuestion, googleQuestion)
      == Success(GoogleSearch(modelId, temperature, googleQuestion))
  {
    RulesExclusive(messages[|messages| - 1].content);
  }

  /** Without a command or a knowledge base, the whole conversation goes to
      the plain chat, every turn with its text and role after the system
      prompt. */
  lemma PlainChatRoute(modelId: string, systemPrompt: string, temperature: real, messages: seq<Message>,
                       webQuestion: string, googleQuestion: string)
    requires messages != []
    requires !SearchRule(messages[|messages| - 1].content)
    requires !GoogleRule(messages[|messages| - 1].content)
    ensures var r := ChatProxyParser(modelId, systemPrompt, temperature, messages, None, webQuestion, googleQuestion);
      r.Success? && r.value.NormalChat? &&
      |r.value.call.messages| == |messages| + 1 &&
      r.value.call.messages[0] == SystemMessage(systemPrompt) &&
      r.value.call.messages[1..] == ToChatMessages(messages)
  {
    var c := NormalChatCall(modelId, systemPrompt, temperature, messages);
    var chat := ToChatMessages(messages);
    forall i | 0 <= i < |messages|
      ensures c.messages[1..][i] == chat[i]
    {
      assert c.messages[i + 1].text == chat[i].text;
    }
  }
}

# chatbot-ui knowledge-base core, modelled in Dafny

This project models the server side of the chatbot-ui fork that answers chat
requests from a knowledge base. It covers six parts of the program:

- **The scope-aware JSON splitter** (`CustomJSONTextSplitter`). It checks that
  each input text, parsed as a JavaScript program, starts with an expression
  statement holding an object expression. It finds the key path that
  encloses an offset. It annotates every chunk with its offsets, its start and
  end scopes and its line range. Module `ScopeSplitter`.
- **The knowledge loader** (`knowledgeLoader`). It builds the vector-store
  query, ranks the retrieved chunks by the offset at the end of their
  `startScope`, joins them into the context, and fills the prompt template.
  It then calls the chat model. Module `KnowledgeLoader`.
- **The router** (`chatProxyParser`, `normalChatParse`). It sends `/s` and
  `/g` commands, knowledge-base requests and plain chats to their
  collaborators. Module `Server`.
- **`ingestData`**. It picks the loader by extension, sets the splitter
  settings and the vector-store target, and states its result-or-throw
  contract. Module `IngestData`.
- **The ingest handler** (`pages/api/ingest.ts`). It keeps the knowledge-base
  list and answers through a response object that sends at most one
  response. Module `IngestHandler`, classes `KnowledgeIngestion` and
  `ApiResponse`.
- **The knowledge chat handler** (`pages/api/chat-knowledge.ts`). It supplies
  the defaults and rebuilds the message list. Module `ChatKnowledge`.

Shared modules:

- `Wrappers`: `Option` and `Result`.
- `Strings`: the JavaScript string operations the core uses. These are
  `indexOf` with its -1, `slice` with clamping and negative indices, `\s`,
  `split(c).pop()`, `join`, number-to-string, global literal replacement and
  newline counting.
- `Js`: JavaScript values and truthiness.
- `NodePath`: POSIX `path.basename` and `path.extname`.
- `Chat`: messages, knowledge bases, the provider choice and the token
  callbacks.

Foreign collaborators are inputs to the model, never modelled themselves:

- the JavaScript parser (`acorn`);
- the generic recursive character splitter;
- the document loaders;
- Pinecone and the embeddings;
- the chat models and the web and search loaders;
- the file system.

For example, a text is given together with its parse outcome, its span tree
and its chunk list. The retrieved documents are given as a sequence. Which
`ingestData` step threw, if any, is given as an `Option<Step>`. Whether the
uploaded file exists is given as a `bool`.

Several defects are modelled as the code has them; none is corrected:

- **`path.extname` keeps the dot.** It returns `.pdf`, so the
  `switch (extension)` in `ingestData` never matches `docx`, `pdf` or `csv`.
  Every upload is loaded as plain text (`IngestHandler.ExtnameLoadsAsText`).
- **The overlap is read from the wrong field.** The handler reads
  `body.chunkOverlap`, but the upload form sends `chunkSizeOverlap`. The
  overlap therefore defaults to 0 (`IngestHandler.AttemptPlan`).
- **The search-engine branch passes an undeclared `url`.** In
  `chatProxyParser`, `url` is declared only in the `/s` branch. The
  `GoogleSearch` route records the call without it.
- **A second response throws.** A request that is not a POST gets its 405
  but is not stopped. Every later send on it throws `ERR_HTTP_HEADERS_SENT`.
  A successful ingestion then throws before its entry is pushed, so nothing
  is added and the handler fails (`IngestHandler.NotPostAddsNothing`).
- **`Upload File not found` is never sent.** The missing-upload check comes
  after the `try` block, which has always sent a response by then. Its send
  throws and the handler fails instead (`IngestHandler.NotFoundNeverSent`).
- **Only parenthesised objects pass the gate.** `acorn.parse` reads the text
  as a program, where a leading `{` opens a block. A bare `{"a": 1}` is then
  a syntax error, and `{a: 1}` is a block holding a labelled statement. Only
  a text such as `({"a": 1})` passes. The parse outcome is an input here, so
  the model states the gate on that outcome.
- **Text before the first chunk is not counted.** The line counter starts at
  1 and the first chunk is never located in the text. Newlines before it are
  left out of every line range
  (`ScopeSplitter.LeadingNewlineNotCounted`).
- **`OpenAIStream` is not exported.** `pages/api/chat-knowledge.ts` imports it
  from `utils/server`, which does not export it. The model records the
  arguments that call would receive.

## Model

| member | source | states |
|---|---|---|
| Strings.IndexOfIsFirst | utils/CustomJSONTextSpliter.ts:40-42 | `indexOf` is -1 exactly when the text does not contain the chunk; otherwise the chunk occurs there and at no earlier position |
| Strings.Slice | utils/CustomJSONTextSpliter.ts:43-46 | within bounds `slice` is the subsequence; when the end is not after the start it is empty |
| Strings.CountOccurrence | utils/CustomJSONTextSpliter.ts:55 | the newlines of a chunk are the newlines of the text over the span where the chunk occurs |
| Strings.IntToStringRoundTrip | utils/CustomJSONTextSpliter.ts:67-68 | the offset written into a scope string is a decimal numeral that parses back to the same integer |
| Strings.LastSegmentAfter | utils/knowledge-loader.ts:74-75 | `split(c).pop()` of a text ending in `c` followed by a `c`-free tail is that tail |
| Strings.ReplaceAllSplice | utils/knowledge-loader.ts:100 | a global replace keeps the text before the first occurrence, puts the replacement in its place and goes on after it |
| Strings.ReplaceAllAbsent | utils/knowledge-loader.ts:100 | a global replace changes nothing in a text without the pattern |
| Js.Get | pages/api/ingest.ts:24 | reading the own data field `file` of the body or `url` of the upload gives its value when the object has it, and undefined when it does not |
| NodePath.Basename | pages/api/ingest.ts:27 | the basename holds no separator |
| NodePath.BasenameOfJoin | pages/api/ingest.ts:27-28 | the basename of `dir/name` is `name`, which becomes the namespace |
| NodePath.ExtensionShape | pages/api/ingest.ts:29 | an extension is empty or a dot followed by dot-free text, and it is a suffix of the file name |
| NodePath.Extname | pages/api/ingest.ts:29 | `path.extname` of the upload URL; its shape is stated by `NodePath.ExtensionShape` and `NodePath.ExtnameOfName` |
| NodePath.ExtnameOfName | pages/api/ingest.ts:29 | the extension of `dir/stem.ext` is `.ext`, with the dot |
| Chat.ProviderFor | utils/knowledge-loader.ts:41-44 | the Anthropic provider is chosen exactly when the model id contains `claude` |
| Chat.ForwardedTokens | utils/knowledge-loader.ts:50-53 | empty tokens are dropped; no forwarded token is empty and the text they spell is the model's whole output |
| Chat.ForwardedTokensAppend | utils/knowledge-loader.ts:50-53 | filtering the tokens of two runs one after the other forwards those of the first, then those of the second |
| Chat.ForwardedTokenSingle | utils/knowledge-loader.ts:50-53 | one token is forwarded exactly when it is not empty |
| Chat.TokenStream | utils/server/index.ts:263-270 | the stream is closed exactly when the model ended; its chunks are exactly the forwarded tokens, so they are non-empty and spell the model's output |
| ScopeSplitter.IsValidJsObject | utils/CustomJSONTextSpliter.ts:89-104 | a text passes exactly when it parses, has a first statement, and that statement is an expression statement around an object expression; a syntax error or an empty program fails |
| ScopeSplitter.FirstEnclosingIsFirst | utils/CustomJSONTextSpliter.ts:118-125 | the property chosen encloses the offset (by its own span or its value's) and no earlier one does; none is chosen exactly when none encloses it |
| ScopeSplitter.FindScope | utils/CustomJSONTextSpliter.ts:115-130 | the scope found extends the initial scope; outside the node's span, or at a node that is not an object, it is the initial scope |
| ScopeSplitter.FindScopeRelative | utils/CustomJSONTextSpliter.ts:115-132 | the scope found from an initial scope is that scope followed by the scope found from none |
| ScopeSplitter.FindScopeIsMaximalDescent | utils/CustomJSONTextSpliter.ts:115-130 | each reported key belongs to a property enclosing the offset, one per nested object, and the descent stops only where no property encloses the offset |
| ScopeSplitter.MaximalDescentIsFindScope | utils/CustomJSONTextSpliter.ts:115-130 | in a well-formed span tree, every maximal descent equals the scope found, so the scope is unique |
| ScopeSplitter.NestedExampleScopes | utils/CustomJSONTextSpliter.ts:107-133 | in `{"a": {"b": 1}}`, the scope at the `1` is `a`, `b` and its metadata string is `a>b>12`; before the first key the scope is empty |
| ScopeSplitter.ScopeMetadataOffset | utils/CustomJSONTextSpliter.ts:67-68 | the segment after the last `>` of a scope string is the decimal offset it was made from, whatever the keys contain |
| ScopeSplitter.LineRangesOrdered | utils/CustomJSONTextSpliter.ts:54-63 | line ranges start at line 1 or later, never run backwards, and never start before the line the previous chunk ended on |
| ScopeSplitter.LineFromIsLineOfStart | utils/CustomJSONTextSpliter.ts:39-63 | for chunks laid out in order in the text, the first at its start, `loc.lines.from` is the 1-based line of the chunk's first character |
| ScopeSplitter.LeadingNewlineNotCounted | utils/CustomJSONTextSpliter.ts:26-39 | in the text `\n({a: 1})` with the one chunk `({a: 1})`, the chunk starts on line 2 but its range starts at line 1 |
| ScopeSplitter.LocWithLinesFields | utils/CustomJSONTextSpliter.ts:56-63 | `loc.lines` holds the range; the other fields of the caller's `loc` object are kept, and a `loc` that is not an object is dropped |
| ScopeSplitter.ChunkMetadataFields | utils/CustomJSONTextSpliter.ts:64-69 | the chunk metadata keeps every caller field except `loc`, `startScope` and `endScope`; those three hold the line range and the two scope strings |
| ScopeSplitter.InvalidTextYieldsNoDocuments | utils/CustomJSONTextSpliter.ts:24-31 | a text that fails the object-literal gate makes the whole call throw, so no documents are returned |
| ScopeSplitter.OneDocumentPerChunk | utils/CustomJSONTextSpliter.ts:32-81 | without a throw a text gives exactly one document per chunk, in chunk order, each that chunk's document |
| ScopeSplitter.DocumentsOnePerChunk | utils/CustomJSONTextSpliter.ts:24-85 | without a throw the result has one document per chunk of every text, and each text's documents come before those of the later texts |
| ScopeSplitter.ChunkDocument | utils/CustomJSONTextSpliter.ts:32-80 | one chunk's document or the error it throws; its fields are stated by `ScopeSplitter.ChunkMetadataFields`, `ScopeSplitter.FirstChunkHasEmptyScopes` and `ScopeSplitter.LineFromIsLineOfStart` |
| ScopeSplitter.Documents | utils/CustomJSONTextSpliter.ts:24-85 | the documents of all texts or the first error; stated by `ScopeSplitter.DocumentsOnePerChunk` and `ScopeSplitter.InvalidTextYieldsNoDocuments` |
| ScopeSplitter.FirstChunkHasEmptyScopes | utils/CustomJSONTextSpliter.ts:35-39 | the first chunk has no previous chunk, so both scope strings are `>0` and its page content carries empty scopes |
| ScopeSplitter.CreateDocuments | utils/CustomJSONTextSpliter.ts:19-86 | the loop over texts returns the documents of every text in order, or the first error thrown |
| ScopeSplitter.AnnotateChunks | utils/CustomJSONTextSpliter.ts:26-81 | the loop over one text's chunks, with the line counter and previous chunk carried across, returns that text's documents or the first error |
| ScopeSplitter.AnnotateChunk | utils/CustomJSONTextSpliter.ts:32-80 | one pass makes the chunk's document and advances the line counter past the gap and the chunk's own newlines |
| ScopeSplitter.LocateChunk | utils/CustomJSONTextSpliter.ts:34-53 | with a non-empty previous chunk: the chunk's offsets, the scopes at both ends and the dropped newlines; it throws exactly when the scope lookup cannot parse the text; otherwise all stay at their initial values |
| KnowledgeLoader.RetrievalQuery | utils/knowledge-loader.ts:66-71 | the search asks the knowledge base's namespace, with text key `text`, for the 6 nearest chunks to the question |
| KnowledgeLoader.Insert | utils/knowledge-loader.ts:73-76 | inserting keeps every chunk rankable and adds exactly the one chunk |
| KnowledgeLoader.Rank | utils/knowledge-loader.ts:73-76 | the sort by trailing offset keeps every result rankable; its order is stated by `KnowledgeLoader.RankSortsAndPermutes` and `KnowledgeLoader.RankIsStable` |
| KnowledgeLoader.RankSortsAndPermutes | utils/knowledge-loader.ts:73-76 | the ranked results ascend by trailing offset and are a permutation of the retrieved ones |
| KnowledgeLoader.RankKeepsRankedInput | utils/knowledge-loader.ts:73-76 | results already in ascending order keep their order |
| KnowledgeLoader.InsertBeforeEqual | utils/knowledge-loader.ts:73-76 | an inserted result goes before every result with the same offset, so a result ranked earlier in the input stays ahead of its equals |
| KnowledgeLoader.RankIsStable | utils/knowledge-loader.ts:73-76 | the sort is stable: results with equal offsets keep the order the store returned them in |
| KnowledgeLoader.RankedUnique | utils/knowledge-loader.ts:73-76 | two ascending arrangements of the same results with distinct offsets are equal |
| KnowledgeLoader.RankingIgnoresRetrievalOrder | utils/knowledge-loader.ts:71-76 | when offsets are distinct, the ranking does not depend on the order the store returned the results in |
| KnowledgeLoader.ContextPartsAreRetrieved | utils/knowledge-loader.ts:73-85 | the parts joined into the context are the retrieved page contents, each exactly as often as retrieved |
| KnowledgeLoader.Context | utils/knowledge-loader.ts:73-85 | the ranked page contents joined by newlines; stated by `KnowledgeLoader.ContextPartsAreRetrieved` |
| KnowledgeLoader.PromptTemplate | utils/knowledge-loader.ts:98-102 | every `{{{context}}}` replaced by the context; stated by `KnowledgeLoader.PromptWithoutPlaceholder` and `KnowledgeLoader.PromptFillsFirstPlaceholder` |
| KnowledgeLoader.PromptWithoutPlaceholder | utils/knowledge-loader.ts:98-101 | a prompt without `{{{context}}}` is sent unchanged |
| KnowledgeLoader.PromptFillsFirstPlaceholder | utils/knowledge-loader.ts:98-101 | the text before the first `{{{context}}}` is kept, the placeholder becomes the context, and the rest is filled the same way |
| KnowledgeLoader.KnowledgeCall | utils/knowledge-loader.ts:45-95 | the model call the loader makes; stated by `KnowledgeLoader.KnowledgeCallShape` |
| KnowledgeLoader.KnowledgeCallShape | utils/knowledge-loader.ts:41-95 | the call uses temperature 0 whatever the request asked for and picks the provider by model id; its three messages are the filled template as system prompt, the fixed AI reply `Sure, please show me your question`, and the question |
| KnowledgeLoader.JoinContainsPart | utils/knowledge-loader.ts:85 | every part of a join occurs in the joined text |
| KnowledgeLoader.RetrievedContentReachesModel | utils/knowledge-loader.ts:73-95 | when the prompt has the placeholder, every retrieved page content occurs in the system message sent to the model |
| Server.SearchRule | utils/server/index.ts:63-67 | a text is a search command exactly when it starts with `/s` and has a non-whitespace character from its fourth character on |
| Server.GoogleRule | utils/server/index.ts:68-71 | a text is a search-engine command exactly when it starts with `/g` |
| Server.RulesExclusive | utils/server/index.ts:63-72 | no text is both kinds of command |
| Server.MatchUrl | utils/server/index.ts:93-98 | no URL is found exactly when everything from the fourth character on is whitespace |
| Server.UrlIsFirstRun | utils/server/index.ts:93-95 | the URL is the first maximal run of non-whitespace after the command: non-empty, whitespace before it, none inside it, whitespace or the end after it |
| Server.SearchRuleFindsUrl | utils/server/index.ts:88-98 | whenever the search rule holds a URL is found, so the fallback to the plain chat is never taken |
| Server.ToChatMessages | utils/server/index.ts:278-281 | one message per turn, same text, same order; user turns become human messages and all others AI messages |
| Server.NormalChatCall | utils/server/index.ts:247-284 | the provider follows the model id and the request temperature is kept; the system prompt comes first, then every turn with its text, a user turn as a human message and every other turn as an AI message |
| Server.NormalChatKeepsConversation | utils/server/index.ts:277-282 | different conversations never give the same plain chat call |
| Server.ChatProxyParser | utils/server/index.ts:75-127 | an empty conversation throws; otherwise the last message picks the route in priority order: search command, search-engine command, knowledge base, plain chat; the search-engine route carries the model, the temperature and the extracted question, and the plain chat carries the whole conversation |
| Server.OnlyLastMessageRoutes | utils/server/index.ts:84-127 | conversations with the same last message are routed alike, and identically unless the plain chat is chosen |
| Server.SearchCommandRoute | utils/server/index.ts:88-108 | a search command goes to the web reader with the first run after the command as its URL |
| Server.GoogleCommandRoute | utils/server/index.ts:109-115 | a `/g` command goes to the search engine with the model, the temperature and the extracted question |
| Server.PlainChatRoute | utils/server/index.ts:125-126 | without a command or a knowledge base, the plain chat gets the system prompt followed by every turn of the conversation, mapped in order |
| Server.KnowledgeRoute | utils/server/index.ts:116-124 | when the last message is neither kind of command, a request with a knowledge base goes to the knowledge loader, with the system prompt as template and the last message as question |
| IngestData.LoaderFor | scripts/ingest-data.ts:25-41 | the docx, pdf and csv loaders are chosen exactly for those extensions; every other extension gets the text loader |
| IngestData.DefaultOverlap | scripts/ingest-data.ts:43 | every falsy overlap becomes 0 and every truthy one is kept |
| IngestData.DefaultOverlapIsSet | scripts/ingest-data.ts:43 | the overlap handed on is truthy or 0, and defaulting twice changes nothing |
| IngestData.Plan | scripts/ingest-data.ts:25-75 | the loader follows the extension, the splitter gets the size and the defaulted overlap, and the store gets the namespace with text key `text` |
| IngestData.IngestDataOutcome | scripts/ingest-data.ts:77-85 | success exactly when no step threw, with the fixed 200 record; every failure becomes the one `Failed to ingest your data` error |
| IngestHandler.Field | pages/api/ingest.ts:34-35 | a body field reads its value, or undefined when missing |
| IngestHandler.ConfigEntry | pages/api/ingest.ts:37-40 | the entry has the body's keys plus `namespace`; body fields win, and the derived namespace is used only when the body has none |
| IngestHandler.ApiResponse.Json | pages/api/ingest.ts:12-15 | the first send delivers its response; once one has gone out every send throws and changes nothing |
| IngestHandler.IngestCall | pages/api/ingest.ts:27-36 | the settings `ingestData` receives; stated by `IngestHandler.AttemptPlan` |
| IngestHandler.TryBlock | pages/api/ingest.ts:25-51 | the `try` block on a response already sent or not; stated by `IngestHandler.TryPushesOnlyOnSuccess` |
| IngestHandler.HandleRequest | pages/api/ingest.ts:10-58 | one request's entry, response and escaping error; stated by `IngestHandler.HandlerAddsOnlyOnSuccess`, `IngestHandler.PostAnsweredByIngestion`, `IngestHandler.NotPostAddsNothing` and `IngestHandler.NotFoundNeverSent` |
| IngestHandler.KnowledgeIngestion.Handle | pages/api/ingest.ts:10-58 | on a fresh response, the list grows only at its end, by this request's entry if any; the response sent and whether the handler fails are those of `HandleRequest` |
| IngestHandler.KnowledgeIngestion.TryIngest | pages/api/ingest.ts:25-51 | the `try` block sends the 200 before pushing the entry, so it pushes only when that send succeeds; otherwise it passes to the `catch` |
| IngestHandler.TryPushesOnlyOnSuccess | pages/api/ingest.ts:25-51 | on a fresh response an entry is pushed exactly when the URL is a string and ingestion succeeded, with the 200 sent; after a response has gone out nothing is pushed; without an entry nothing is sent and control passes to the `catch` |
| IngestHandler.HandlerAddsOnlyOnSuccess | pages/api/ingest.ts:10-58 | a request adds at most one entry, exactly when it is a POST whose upload has a string URL and whose ingestion succeeded; the response sent is then the 200 |
| IngestHandler.PostAnsweredByIngestion | pages/api/ingest.ts:16-58 | a POST with an upload is answered 200 with an entry or `ingest failed` without one, and the handler fails exactly when the upload file is missing |
| IngestHandler.BodyNamespaceWins | pages/api/ingest.ts:37-40 | a `namespace` field in the body overrides the derived namespace |
| IngestHandler.ExtnameLoadsAsText | pages/api/ingest.ts:29-31 | because the extension keeps its dot, every upload is loaded with the text loader |
| IngestHandler.AttemptPlan | pages/api/ingest.ts:27-36 | `ingestData` is called exactly when the URL is a string, with the basename as namespace, `./url` as file, the text loader, the body's chunk size, and overlap 0 when the body has no `chunkOverlap` |
| IngestHandler.NotPostAddsNothing | pages/api/ingest.ts:11-58 | a request that is not a POST is answered 405, adds nothing even when ingestion succeeds, and makes the handler fail |
| IngestHandler.NotFoundNeverSent | pages/api/ingest.ts:25-58 | `Upload File not found` is never sent; a missing upload makes the handler fail |
| ChatKnowledge.PromptToSend | pages/api/chat-knowledge.ts:22-25 | a missing or empty prompt is replaced by the default; any other prompt is kept |
| ChatKnowledge.TemperatureToUse | pages/api/chat-knowledge.ts:27-30 | only a missing temperature is replaced; any given one, 0 included, is kept |
| ChatKnowledge.RebuildMessages | pages/api/chat-knowledge.ts:32-38 | the backward rebuild loop yields the received list unchanged |
| ChatKnowledge.Handle | pages/api/chat-knowledge.ts:12-48 | the stream call gets the defaulted prompt and temperature, the messages as received, and the model, key, flag and knowledge base unchanged |

## Left out

- Streaming delivery, HTTP headers, the stream reader in `pages/api/chat-knowledge.ts` and its error responses are not modelled. `TokenStream` states only what the token callbacks enqueue.
- File I/O is not modelled. This covers reading and writing `knowledge.json`, `./tmp.txt` and `./metaInfo.json`, and the existence check on the upload. The existence result is an input.
- A failed read or parse of `knowledge.json`, and a failed write of it after success, are not modelled.
- The console logging and the debug writes are not modelled.
- `acorn.parse`, `acorn.parseExpressionAt` and `splitText` are inputs, given as a parse outcome, a span tree and a chunk list. The node types other than object expressions and properties are not told apart.
- The web reader, search-engine reader, web search, speech service and the document loaders are not part of this model. A route records only the arguments they receive.
- The chat models, embeddings and Pinecone are not part of this model.
- `DEFAULT_SYSTEM_PROMPT` and `DEFAULT_TEMPERATURE` are parameters, because `utils/app/const` is not part of this model.
- Server.ChatProxyParser: the two question-extraction expressions (lookbehind with a Unicode class) are not modelled. Their first match is an input.
- Server.ChatProxyParser: the model object is reduced to its id. The `key` and `isKnowledgeBase` arguments are dropped because no modelled path reads them.
- Server.ChatProxyParser: the search-engine branch's reference to an undeclared `url` is recorded as a call without a URL. It is not modelled as a compile or runtime error.
- ChatKnowledge.Handle: the import of `OpenAIStream`, which `utils/server` does not export, is not modelled. The model states the arguments that call would receive.
- IngestHandler.KnowledgeIngestion.Handle: requests are modelled one at a time, each as one uninterrupted step. In the source, each request reads `knowledge.json` before the ingestion is awaited and writes the whole list back after it, so two overlapping uploads can lose the first one's entry.
- IngestHandler.KnowledgeIngestion.Handle: an error that escapes the handler is reported as `escaped`. What Next.js then does with the request is not modelled.
- Js.Get: only the own data fields of plain objects are modelled, as the handler reads them. Built-in properties of other values, such as a string's `length`, read as undefined here.
- Strings are sequences of code points. JavaScript's `indexOf`, `length` and `slice`, and acorn's `start` and `end`, count UTF-16 code units. Offsets therefore differ for text outside the Basic Multilingual Plane, such as emoji.
- A spread element (`{...x}`) among an object's properties makes `findScope` throw a TypeError when it reads `property.value.start`. The span tree has no spread elements, so this error is not modelled.
- KnowledgeLoader.Rank: requires every `startScope` trailing segment to be missing, empty or a decimal integer. The order a comparator returning NaN produces is engine-defined, so it is not modelled.
- KnowledgeLoader.PromptTemplate: requires a context without the `$$`, `$&`, `` $` `` and `$'` substitution patterns of `String.prototype.replace`.
- KnowledgeLoader.KnowledgeCall: requires the same of the context, since it fills the template.
- Numbers are modelled as integers and temperatures as reals. Fractional chunk sizes, overlaps and offsets are not modelled.

/**
  The ingest request handler (`pages/api/ingest.ts`).

  The handler keeps the list of knowledge-base entries (the contents of
  `knowledge.json`, held in memory here) and answers through a response
  object that sends at most one response and throws on any later send.
  Whether the uploaded file exists and which step of
  `ingestData` failed (if any) are inputs.
*/
module IngestHandler {
  import opened Wrappers
  import opened Js
  import opened NodePath
  import opened IngestData

  /** `res.status(status).json({success, message?, code})` */
  datatype Response = Response(status: int, success: bool, message: Option<string>, code: int)

  const MethodNotAllowed: Response := Response(405, false, Some("Method not allowed"), 405)
  const Ingested: Response := Response(200, true, None, 200)
  const IngestFailed: Response := Response(500, false, Some("ingest failed"), 500)
  const FileNotFound: Response := Response(500, false, Some("Upload File not found"), 500)

  /** The four responses are told apart by status or message. */
  lemma ResponsesDistinct()
    ensures IngestFailed != FileNotFound && IngestFailed != Ingested && IngestFailed != MethodNotAllowed
    ensures Ingested != FileNotFound && Ingested != MethodNotAllowed && FileNotFound != MethodNotAllowed
  {
    assert |IngestFailed.message.value| != |FileNotFound.message.value|;
  }

  /** A request body field; a missing one reads as undefined. */
  function Field(body: map<string, JsValue>, name: string): (v: JsValue)
    ensures name in body ==> v == body[name]
    ensures name !in body ==> v == Undefined
  {
    if name in body then body[name] else Undefined
  }

  /** `{namespace, ...body}`: the body's fields over the derived namespace. */
  function ConfigEntry(namespace: string, body: map<string, JsValue>): (e: map<string, JsValue>)
    ensures e.Keys == body.Keys + {"namespace"}
    ensures forall f :: f in body ==> e[f] == body[f]
    ensures "namespace" !in body ==> e["namespace"] == Str(namespace)
  {
    map["namespace" := Str(namespace)] + body
  }

  /** The Next.js response object of one request: the response sent, once
      one has been. */
  class ApiResponse {
    var sent: Option<Response>

    constructor ()
      ensures sent == None
    {
      sent := None;
    }

    /** `res.status(status).json(...)`: the first call sends the response;
        once one has gone out, setting the content-type header throws
        (`ERR_HTTP_HEADERS_SENT`) and nothing more is sent. */
    method Json(r: Response) returns (thrown: bool)
      modifies this
      ensures thrown <==> old(sent).Some?
      ensures sent == if old(sent).Some? then old(sent) else Some(r)
    {
      thrown := sent.Some?;
      if !thrown {
        sent := Some(r);
      }
    }
  }

  /** The settings `ingestData` is called with, or none when
      `path.basename` throws first because the URL is not a string. */
  function IngestCall(url: JsValue, body: map<string, JsValue>): Option<IngestPlan>
  {
    if url.Str? then
      Some(Plan(Extname(url.s), "./" + url.s, Basename(url.s), Field(body, "chunkSize"), Field(body, "chunkOverlap")))
    else None
  }

  /** What the `try` block leaves: the response sent so far, the entry
      pushed (if any), and whether it threw into the `catch`. */
  datatype TryOutcome = TryOutcome(sent: Option<Response>, entry: Option<map<string, JsValue>>, threw: bool)

  /** The `try` block, given the response already sent. The 200 is sent
      before the push, so when a response has already gone out the send
      throws and nothing is pushed. */
  function TryBlock(url: JsValue, body: map<string, JsValue>, failed: Option<Step>, sent: Option<Response>): TryOutcome
  {
    if !url.Str? then TryOutcome(sent, None, true)
    else
      var result := IngestDataOutcome(failed);
      if result.Failure? then TryOutcome(sent, None, true)
      else if result.value.code != 200 then TryOutcome(sent, None, false)
      else if sent.Some? then TryOutcome(sent, None, true)
      else TryOutcome(Some(Ingested), Some(ConfigEntry(Basename(url.s), body)), false)
  }

  /** What one request does: the entry added to the list (if any), the
      response sent (if any), and whether an error escaped the handler. */
  datatype Effect = Effect(entry: Option<map<string, JsValue>>, sent: Option<Response>, escaped: bool)

  /** The handler's work for one request on a fresh response. Reading
      `body.file.url` throws outside the `try` when `file` is null or missing;
      a send in the `catch` or in the missing-file branch throws when a
      response has already gone out, and that error escapes. */
  function HandleRequest(requestMethod: string, body: map<string, JsValue>, fileExists: bool,
                         failed: Option<Step>): Effect
  {
    var notAllowed := if requestMethod != "POST" then Some(MethodNotAllowed) else None;
    var file := Field(body, "file");
    if IsNullish(file) then Effect(None, notAllowed, true)
    else
      var t := TryBlock(Get(file, "url"), body, failed, notAllowed);
      if t.threw && t.sent.Some? then Effect(t.entry, t.sent, true)
      else
        var answered := if t.threw then Some(IngestFailed) else t.sent;
        if fileExists then Effect(t.entry, answered, false)
        else if answered.Some? then Effect(t.entry, answered, true)
        else Effect(t.entry, Some(FileNotFound), false)
  }

  function Added(entry: Option<map<string, JsValue>>): seq<map<string, JsValue>>
  {
    if entry.Some? then [entry.value] else []
  }

  /** The knowledge-base list. */
  class KnowledgeIngestion {
    var config: seq<map<string, JsValue>>

    constructor (initial: seq<map<string, JsValue>>)
      ensures config == initial
    {
      config := initial;
    }

    /** `handler(req, res)` on a fresh response. The list only ever grows at
        its end, by the entry of a successful ingestion. */
    method Handle(requestMethod: string, body: map<string, JsValue>, fileExists: bool, failed: Option<Step>,
                  res: ApiResponse)
      returns (escaped: bool)
      requires res.sent.None?
      modifies this, res
      ensures var e := HandleRequest(requestMethod, body, fileExists, failed);
        escaped == e.escaped && config == old(config) + Added(e.entry) && res.sent == e.sent
    {
      var thrown;
      if requestMethod != "POST" {
        thrown := res.Json(MethodNotAllowed);
      }
      var file := Field(body, "file");
      if IsNullish(file) {
        return true;
      }
      var threw := TryIngest(Get(file, "url"), body, failed, res);
      if threw {
        thrown := res.Json(IngestFailed);
        if thrown {
          return true;
        }
      }
      if !fileExists {
        thrown := res.Json(FileNotFound);
        return thrown;
      }
      return false;
    }

    /** The `try` block of `handler`: the 200 is sent, then the entry is
        pushed; `threw` when control passes to the `catch`. */
    method TryIngest(url: JsValue, body: map<string, JsValue>, failed: Option<Step>, res: ApiResponse)
      returns (threw: bool)
      modifies this, res
      ensures var t := TryBlock(url, body, failed, old(res.sent));
        threw == t.threw && res.sent == t.sent && config == old(config) + Added(t.entry)
    {
      if !url.Str? {
        return true;
      }
      var namespace := Basename(url.s);
      var result := IngestDataOutcome(failed);
      if result.Failure? {
        return true;
      }
      var data := ConfigEntry(namespace, body);
      if result.value.code == 200 {
        var thrown := res.Json(Ingested);
        if thrown {
          return true;
        }
        config := config + [data];
      }
      return false;
    }
  }

  // ---------------------------------------------------------------------
  // What a request does to the list and the response
  // ---------------------------------------------------------------------

  /** On a fresh response the `try` block pushes an entry exactly when the
      URL is a string and ingestion succeeded, and then sends the 200;
      otherwise it sends nothing and passes to the `catch`. After a response
      has gone out it never pushes. */
  lemma TryPushesOnlyOnSuccess(url: JsValue, body: map<string, JsValue>, failed: Option<Step>, sent: Option<Response>)
    ensures var t := TryBlock(url, body, failed, sent);
      (t.entry.Some? <==> url.Str? && failed.None? && sent.None?) &&
      (t.entry.Some? ==> t.entry.value == ConfigEntry(Basename(url.s), body) && t.sent == Some(Ingested) && !t.threw) &&
      (t.entry.None? ==> t.sent == sent && t.threw)
  {
  }

  /** A request adds at most one entry, exactly when it is a POST whose
      upload has a string URL and whose ingestion succeeded; the response
      sent is then the 200. */
  lemma HandlerAddsOnlyOnSuccess(requestMethod: string, body: map<string, JsValue>, fileExists: bool, failed: Option<Step>)
    ensures var e := HandleRequest(requestMethod, body, fileExists, failed);
      var file := Field(body, "file");
      |Added(e.entry)| <= 1 &&
      (e.entry.Some? <==> requestMethod == "POST" && !IsNullish(file) && Get(file, "url").Str? && failed.None?) &&
      (e.entry.Some? ==> e.sent == Some(Ingested))
  {
    var file := Field(body, "file");
    if !IsNullish(file) {
      var notAllowed := if requestMethod != "POST" then Some(MethodNotAllowed) else None;
      TryPushesOnlyOnSuccess(Get(file, "url"), body, failed, notAllowed);
    }
  }

  /** A POST with an upload is answered by the outcome of the ingestion:
      200 with an entry, or `ingest failed` without one; the handler then
      fails exactly when the upload is missing. */
  lemma PostAnsweredByIngestion(body: map<string, JsValue>, fileExists: bool, failed: Option<Step>)
    requires !IsNullish(Field(body, "file"))
    ensures var e := HandleRequest("POST", body, fileExists, failed);
      e.sent == Some(if e.entry.Some? then Ingested else IngestFailed) &&
      (e.escaped <==> !fileExists)
  {
    TryPushesOnlyOnSuccess(Get(Field(body, "file"), "url"), body, failed, None);
  }

  /** A body field named `namespace` wins over the derived namespace. */
  lemma BodyNamespaceWins(namespace: string, body: map<string, JsValue>)
    requires "namespace" in body
    ensures ConfigEntry(namespace, body)["namespace"] == body["namespace"]
  {
  }

  /** `path.extname` keeps the dot, so no extension equals a `switch` case
      and every upload is loaded as plain text. */
  lemma ExtnameLoadsAsText(url: string)
    ensures LoaderFor(Extname(url)) == TextLoader
  {
    var ext := Extname(url);
    ExtensionShape(Basename(url));
    if ext != "" {
      assert ext[0] == '.';
      assert ext != "docx" && ext != "pdf" && ext != "csv";
    }
  }

  /** The settings `ingestData` is called with: the URL's basename as the
      namespace, the URL relative to the working directory as the file, the
      plain-text loader, the body's `chunkSize`, and overlap 0 whenever the
      body has no `chunkOverlap` field, which the upload form never sends. */
  lemma AttemptPlan(url: JsValue, body: map<string, JsValue>)
    ensures var p := IngestCall(url, body);
      (p.Some? <==> url.Str?) &&
      (p.Some? ==>
        p.value.namespace == Basename(url.s) &&
        p.value.filepath == "./" + url.s &&
        p.value.loader == TextLoader &&
        p.value.textKey == "text" &&
        p.value.chunkSize == Field(body, "chunkSize") &&
        ("chunkOverlap" !in body ==> p.value.chunkOverlap == Num(0)))
  {
    if url.Str? {
      ExtnameLoadsAsText(url.s);
    }
  }

  /** A request that is not a POST is answered 405, and every later send
      throws: nothing is added, not even after a successful ingestion, and
      the handler fails. */
  lemma NotPostAddsNothing(requestMethod: string, body: map<string, JsValue>, fileExists: bool, failed: Option<Step>)
    requires requestMethod != "POST"
    ensures var e := HandleRequest(requestMethod, body, fileExists, failed);
      e.sent == Some(MethodNotAllowed) && e.entry.None? && e.escaped
  {
    var file := Field(body, "file");
    if !IsNullish(file) {
      TryPushesOnlyOnSuccess(Get(file, "url"), body, failed, Some(MethodNotAllowed));
    }
  }

  /** The missing-file check comes after the `try` block has always sent a
      response, so `Upload File not found` is never sent: a missing upload
      makes the handler fail instead. */
  lemma NotFoundNeverSent(requestMethod: string, body: map<string, JsValue>, fileExists: bool, failed: Option<Step>)
    ensures var e := HandleRequest(requestMethod, body, fileExists, failed);
      e.sent != Some(FileNotFound) &&
      (!fileExists ==> e.escaped)
  {
    var file := Field(body, "file");
    if !IsNullish(file) {
      var notAllowed := if requestMethod != "POST" then Some(MethodNotAllowed) else None;
      TryPushesOnlyOnSuccess(Get(file, "url"), body, failed, notAllowed);
    }
    ResponsesDistinct();
  }
}

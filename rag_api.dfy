/**
  * The browser's client of the HTTP API: the base URL requests go to, and
  * how a response becomes data or an error.  `fetch` is not modelled; a
  * response is its `ok` flag, status code and body text, and `JSON.parse`
  * is a parameter.
  */
module RagApi {
  import opened Wrappers
  import opened Text
  import opened Js
  import DocumentLoaders

  const DefaultApiBase := "http://localhost:3001"

  /** `apiBaseUrl`: the configured base URL, trimmed and without trailing
      slashes, or the local server when it is unset or blank. */
  function ApiBaseUrl(env: Option<string>): string {
    if env.Some? && Trim(env.value) != "" then DocumentLoaders.StripTrailingSlashes(Trim(env.value))
    else DefaultApiBase
  }

  /** Only slashes are removed from the end. */
  lemma {:induction false} StrippedSlashes(s: string)
    ensures var r := DocumentLoaders.StripTrailingSlashes(s);
      r <= s && forall i :: |r| <= i < |s| ==> s[i] == '/'
  {
    if s != [] && s[|s| - 1] == '/' {
      StrippedSlashes(s[..|s| - 1]);
    }
  }

  /** The base never ends in "/" and is the local server exactly when no
      non-blank value is configured; otherwise it is the trimmed value less
      a run of trailing slashes. */
  lemma ApiBaseUrlResult(env: Option<string>)
    ensures var r := ApiBaseUrl(env);
      && (r != [] ==> r[|r| - 1] != '/')
      && (env.None? || Trim(env.value) == "" ==> r == DefaultApiBase)
      && (env.Some? && Trim(env.value) != "" ==>
            r <= Trim(env.value) && forall i :: |r| <= i < |Trim(env.value)| ==> Trim(env.value)[i] == '/')
  {
    if env.Some? && Trim(env.value) != "" {
      StrippedSlashes(Trim(env.value));
    } else {
      assert DefaultApiBase[|DefaultApiBase| - 1] == '1';
    }
  }

  /** A base made only of slashes becomes the empty string: requests then go
      to the page's own origin. */
  lemma SlashOnlyBase()
    ensures ApiBaseUrl(Some("/")) == ""
  {
    TrimUnchanged("/");
    assert DocumentLoaders.StripTrailingSlashes("/") == DocumentLoaders.StripTrailingSlashes("");
  }

  /** A response as the client sees it. */
  datatype Response = Response(ok: bool, status: nat, body: string)

  /** `JSON.parse`: the parsed value, or the `SyntaxError` it throws. */
  type Parse = string -> Result<Json, JsError>

  function RequestFailed(status: nat): string {
    "Request failed (" + NatToString(status) + ")"
  }

  /** The string `error` field of a parsed object. */
  function ErrorField(data: Json): Option<string> {
    match Field(data, "error")
    case Some(JStr(s)) => Some(s)
    case _ => None
  }

  /** `asJsonOrThrow`: the parsed body (`null` for an empty one) of a
      successful response; for any other, an error with the body's string
      `error` or else the status. */
  function AsJsonOrThrow(res: Response, parse: Parse): Result<Json, JsError> {
    var data := if res.body != "" then parse(res.body) else Success(JNull);
    match data
    case Failure(e) => Failure(e)
    case Success(d) =>
      if res.ok then Success(d)
      else
        var msg := match ErrorField(d) case Some(s) => s case None => RequestFailed(res.status);
        Failure(JsError("Error", msg, None))
  }

  /** An empty body is `null`; a body that does not parse throws the parse
      error whatever the status; a successful response gives its data; any
      other gives the server's string `error` when there is one, and
      "Request failed (<status>)" otherwise. */
  lemma AsJsonOrThrowResult(res: Response, parse: Parse)
    ensures res.body == "" && res.ok ==> AsJsonOrThrow(res, parse) == Success(JNull)
    ensures res.body != "" && parse(res.body).Failure? ==> AsJsonOrThrow(res, parse) == Failure(parse(res.body).error)
    ensures res.body != "" && parse(res.body).Success? && res.ok ==> AsJsonOrThrow(res, parse) == Success(parse(res.body).value)
    ensures !res.ok && res.body == "" ==> AsJsonOrThrow(res, parse).Failure? && AsJsonOrThrow(res, parse).error.message == RequestFailed(res.status)
    ensures !res.ok && res.body != "" && parse(res.body).Success? ==>
      var d := parse(res.body).value;
      && AsJsonOrThrow(res, parse).Failure?
      && (ErrorField(d).Some? ==> AsJsonOrThrow(res, parse).error.message == ErrorField(d).value)
      && (ErrorField(d).None? ==> AsJsonOrThrow(res, parse).error.message == RequestFailed(res.status))
    ensures AsJsonOrThrow(res, parse).Success? ==> res.ok
  {
  }

  /** `getTranscriptText` as written: the body of a successful response;
      for any other, the `throw` of the server's message sits inside the
      `try` whose `catch` ignores everything, so the status error is thrown
      instead. */
  function GetTranscriptText(res: Response, parse: Parse): Result<string, JsError> {
    if res.ok then Success(res.body)
    else Failure(JsError("Error", RequestFailed(res.status), None))
  }

  /** `getTranscriptText` with the server's message surfaced: a non-blank
      string `error` of a body that parses is the message, anything else
      gives the status error. */
  function GetTranscriptTextIntended(res: Response, parse: Parse): Result<string, JsError> {
    if res.ok then Success(res.body)
    else
      var data := parse(res.body);
      if data.Success? && ErrorField(data.value).Some? && Trim(ErrorField(data.value).value) != "" then
        Failure(JsError("Error", ErrorField(data.value).value, None))
      else Failure(JsError("Error", RequestFailed(res.status), None))
  }

  /** As written, a failed request always reports its status, never the
      server's message. */
  lemma GetTranscriptTextResult(res: Response, parse: Parse)
    ensures res.ok <==> GetTranscriptText(res, parse) == Success(res.body)
    ensures !res.ok ==> GetTranscriptText(res, parse).Failure? && GetTranscriptText(res, parse).error.message == RequestFailed(res.status)
  {
  }

  /** The intended version agrees on success and on bodies without a
      usable message, and reports the server's message otherwise. */
  lemma GetTranscriptTextIntendedResult(res: Response, parse: Parse)
    ensures res.ok ==> GetTranscriptTextIntended(res, parse) == GetTranscriptText(res, parse)
    ensures !res.ok ==> GetTranscriptTextIntended(res, parse).Failure?
    ensures !res.ok && parse(res.body).Success? && ErrorField(parse(res.body).value).Some?
            && Trim(ErrorField(parse(res.body).value).value) != "" ==>
      GetTranscriptTextIntended(res, parse).error.message == ErrorField(parse(res.body).value).value
    ensures !res.ok && (parse(res.body).Failure? || ErrorField(parse(res.body).value).None?) ==>
      GetTranscriptTextIntended(res, parse) == GetTranscriptText(res, parse)
  {
  }

  /** The "not ready" answer of the transcript endpoint: the server says why,
      the client reports only the status. */
  lemma TranscriptMessageLost(parse: Parse)
    requires parse("{\"error\":\"Ingestion not ready\"}") == Success(JObj([("error", JStr("Ingestion not ready"))]))
    ensures var res := Response(false, 409, "{\"error\":\"Ingestion not ready\"}");
      && GetTranscriptText(res, parse).error.message == RequestFailed(409)
      && GetTranscriptTextIntended(res, parse).error.message == "Ingestion not ready"
      && RequestFailed(409) != "Ingestion not ready"
  {
    var d := JObj([("error", JStr("Ingestion not ready"))]);
    assert Keys(d.fields) == ["error"];
    assert Get(d.fields, "error") == Some(JStr("Ingestion not ready"));
    var m := "Ingestion not ready";
    assert m[0] == 'I' && m[|m| - 1] == 'y';
    TrimUnchanged(m);
    assert RequestFailed(409)[0] == 'R';
  }
}

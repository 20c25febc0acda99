/**
  * The HTTP handlers for ingestions: each one reads the request, asks the
  * ingestion service, and picks the status code and body of the reply.  The
  * service is the `Ingestion` model; the owner id is what the session
  * middleware stored; `JSON.parse` and the `ask` closure are parameters.
  */
module IngestionsController {
  import opened Wrappers
  import opened Text
  import Js
  import opened Ingestion
  import Agent

  const MissingFile := "Missing file field: audio"
  const InvalidQueryExpansions := "Invalid queryExpansions JSON"
  const NotFound := "Not found"
  const NotReady := "Ingestion not ready"
  const MissingQuestion := "Missing question"

  /** `parseQueryExpansions`' `{ value, error }`, `None` for `null`. */
  datatype QueryExpansions = QueryExpansions(value: Option<Js.Json>, error: Option<string>)

  /** `parseQueryExpansions` on the form field; `parse` is `JSON.parse`,
      `None` when it throws. */
  function ParseQueryExpansions(raw: Js.Value, parse: string -> Option<Js.Json>): QueryExpansions {
    if !raw.Str? || Trim(raw.s) == "" then QueryExpansions(None, None)
    else match parse(raw.s)
      case Some(j) => QueryExpansions(Some(j), None)
      case None => QueryExpansions(None, Some(InvalidQueryExpansions))
  }

  /** A missing, non-string or blank field is no configuration and no error;
      otherwise the field is parsed, and a parse failure is the fixed error
      with no configuration.  Never both a configuration and an error. */
  lemma ParseQueryExpansionsResult(raw: Js.Value, parse: string -> Option<Js.Json>)
    ensures var r := ParseQueryExpansions(raw, parse);
      && !(r.value.Some? && r.error.Some?)
      && (!raw.Str? || Trim(raw.s) == "" ==> r == QueryExpansions(None, None))
      && (r.error.Some? <==> raw.Str? && Trim(raw.s) != "" && parse(raw.s).None?)
      && (r.error.Some? ==> r.error.value == InvalidQueryExpansions)
      && (r.value.Some? <==> raw.Str? && Trim(raw.s) != "" && parse(raw.s).Some?)
      && (r.value.Some? ==> r.value == parse(raw.s))
  {
  }

  /** `readQuestion`: the trimmed `question` of an object body when it is a
      string, and "" otherwise. */
  function ReadQuestion(body: Js.Value): string {
    var q := if body.Obj? && Js.HasKey(body.fields, "question") then Js.Get(body.fields, "question").value else Js.Str("");
    if q.Str? then Trim(q.s) else ""
  }

  /** The question is never padded with whitespace; it is non-empty only when
      the body is an object whose `question` is a string that is not blank,
      and then it is that string trimmed. */
  lemma ReadQuestionResult(body: Js.Value)
    ensures var q := ReadQuestion(body);
      && (q != [] ==> !IsSpace(q[0]) && !IsSpace(q[|q| - 1]))
      && (q != "" ==> body.Obj? && Js.Get(body.fields, "question").Some? && Js.Get(body.fields, "question").value.Str?
                      && q == Trim(Js.Get(body.fields, "question").value.s))
      && (body.Obj? && Js.Get(body.fields, "question").Some? && Js.Get(body.fields, "question").value.Str? ==>
            q == Trim(Js.Get(body.fields, "question").value.s))
  {
  }

  /** What a handler sends: an error object with its status code, the 202 of
      a created ingestion, a public record, a transcript as plain text, an
      answer, or nothing because the error escaped the handler. */
  datatype Reply =
    | ErrorReply(code: nat, error: string)
    | Accepted(ingestionId: string, status: Status)
    | IngestionJson(body: PublicIngestion)
    | TranscriptText(text: string)
    | AnswerJson(result: Agent.AgentAskResult)
    | Escaped(e: Js.JsError)

  /** `createIngestion`: `file` is the upload the multipart middleware
      stored, `rawExpansions` the `queryExpansions` form field, and `id`,
      `now`, `persist` as for `CreateFromUpload`. */
  function CreateIngestion(env: Env, s: State, ownerId: string, file: Option<UploadedFile>, rawExpansions: Js.Value,
                           id: string, now: real, persist: Option<Js.JsError>): (State, Reply)
    requires Inv(s) && id !in s.ingestions && id !in s.cancelled && id !in s.workers
  {
    if file.None? then (s, ErrorReply(400, MissingFile))
    else
      var parsed := ParseQueryExpansions(rawExpansions, env.parse);
      if parsed.error.Some? then (s, ErrorReply(400, parsed.error.value))
      else
        var (t, res) := CreateFromUpload(env, s, ownerId, file.value, id, now, persist);
        match res
        case Failure(e) => (t, Escaped(e))
        case Success(ref) =>
          CreateQueues(env, s, ownerId, file.value, id, now, persist);
          (t, Accepted(t.objects[ref].id, t.objects[ref].status))
  }

  /** A missing file, then bad expansions JSON, give 400 before anything is
      created; otherwise the ingestion is created, and a successful creation
      answers 202 with the new id and "queued". */
  lemma CreateIngestionResult(env: Env, s: State, ownerId: string, file: Option<UploadedFile>, rawExpansions: Js.Value,
                              id: string, now: real, persist: Option<Js.JsError>)
    requires Inv(s) && id !in s.ingestions && id !in s.cancelled && id !in s.workers
    ensures var (t, reply) := CreateIngestion(env, s, ownerId, file, rawExpansions, id, now, persist);
      && (file.None? ==> t == s && reply == ErrorReply(400, MissingFile))
      && (file.Some? && ParseQueryExpansions(rawExpansions, env.parse).error.Some? ==>
            t == s && reply == ErrorReply(400, InvalidQueryExpansions))
      && (reply.ErrorReply? ==> t == s && reply.code == 400)
      && (file.Some? && ParseQueryExpansions(rawExpansions, env.parse).error.None? ==>
            t == CreateFromUpload(env, s, ownerId, file.value, id, now, persist).0
            && Get(t, ownerId, id).Some? && Get(t, ownerId, id).value.status == Queued
            && (persist.None? ==> reply == Accepted(id, Queued))
            && (persist.Some? ==> reply == Escaped(persist.value)))
  {
    ParseQueryExpansionsResult(rawExpansions, env.parse);
    if file.Some? && ParseQueryExpansions(rawExpansions, env.parse).error.None? {
      CreateQueues(env, s, ownerId, file.value, id, now, persist);
    }
  }

  /** `getIngestion` */
  function GetIngestion(s: State, ownerId: string, id: string): Reply {
    match Get(s, ownerId, id)
    case None => ErrorReply(404, NotFound)
    case Some(r) => IngestionJson(PublicOf(r))
  }

  /** Someone else's, deleted or unknown ingestion is 404; the owner gets the
      public view of the live record. */
  lemma GetIngestionResult(s: State, ownerId: string, id: string)
    ensures (GetIngestion(s, ownerId, id) == ErrorReply(404, NotFound)) <==>
      Live(s, id).None? || Live(s, id).value.ownerId != ownerId
    ensures Live(s, id).Some? && Live(s, id).value.ownerId == ownerId ==>
      GetIngestion(s, ownerId, id) == IngestionJson(PublicOf(Live(s, id).value))
  {
  }

  /** The record is ready and names a transcript file. */
  predicate HasTranscript(r: IngestionRecord) {
    r.status == Ready && r.transcriptPath.Some? && r.transcriptPath.value != ""
  }

  /** `getTranscript` */
  function GetTranscript(s: State, ownerId: string, id: string): Reply {
    match Get(s, ownerId, id)
    case None => ErrorReply(404, NotFound)
    case Some(r) =>
      if r.status != Ready || r.transcriptPath.None? || r.transcriptPath.value == "" then ErrorReply(409, NotReady)
      else
        match GetTranscriptText(s, ownerId, id)
        case Failure(e) => ErrorReply(500, e.message)
        case Success(None) => ErrorReply(409, NotReady)
        case Success(Some(text)) => TranscriptText(text)
  }

  /** 404 for a record the caller cannot see; 409 exactly for one that is
      not ready or names no transcript (the later "not a string" 409 cannot
      happen); otherwise the file's text, or 500 with the read error. */
  lemma GetTranscriptResult(s: State, ownerId: string, id: string)
    ensures var reply := GetTranscript(s, ownerId, id);
      var rec := Get(s, ownerId, id);
      && (reply == ErrorReply(404, NotFound) <==> rec.None?)
      && (reply == ErrorReply(409, NotReady) <==> rec.Some? && !HasTranscript(rec.value))
      && (rec.Some? && HasTranscript(rec.value) ==>
            match ReadFile(s.disk, rec.value.transcriptPath.value)
            case Success(text) => reply == TranscriptText(text)
            case Failure(e) => reply == ErrorReply(500, e.message))
  {
  }

  /** Calling the `ask` closure on a question: the agent's result, or the
      error it throws. */
  type Invoke = (AskFn, string) -> Result<Agent.AgentAskResult, Js.JsError>

  /** `askIngestion`: `body` is the parsed request body and `rebuilt` what
      the service's rebuild of the closure would return. */
  function AskIngestion(s: State, ownerId: string, id: string, body: Js.Value,
                        rebuilt: Result<AskFn, Js.JsError>, invoke: Invoke): (State, Reply)
    requires Inv(s)
  {
    match Get(s, ownerId, id)
    case None => (s, ErrorReply(404, NotFound))
    case Some(r) =>
      if r.status != Ready || r.ask.None? then (s, ErrorReply(409, NotReady))
      else
        var question := ReadQuestion(body);
        if question == "" then (s, ErrorReply(400, MissingQuestion))
        else
          var (t, found) := Ask(s, ownerId, id, rebuilt);
          match found
          case Failure(e) => (t, ErrorReply(500, e.message))
          case Success(None) => (t, ErrorReply(409, NotReady))
          case Success(Some(f)) =>
            match invoke(f, question)
            case Failure(e) => (t, ErrorReply(500, e.message))
            case Success(out) => (t, AnswerJson(out))
  }

  /** 404 for a record the caller cannot see, then 409 for one that is not
      ready or holds no closure, then 400 for a blank question; otherwise the
      record's own closure answers the trimmed question.  The service state
      never changes: the rebuild of a lost closure is never reached. */
  lemma AskIngestionResult(s: State, ownerId: string, id: string, body: Js.Value,
                           rebuilt: Result<AskFn, Js.JsError>, invoke: Invoke)
    requires Inv(s)
    ensures var (t, reply) := AskIngestion(s, ownerId, id, body, rebuilt, invoke);
      var rec := Get(s, ownerId, id);
      && t == s
      && (reply == ErrorReply(404, NotFound) <==> rec.None?)
      && (rec.Some? && (rec.value.status != Ready || rec.value.ask.None?) ==> reply == ErrorReply(409, NotReady))
      && (rec.Some? && rec.value.status == Ready && rec.value.ask.Some? ==>
            var q := ReadQuestion(body);
            && (q == "" ==> reply == ErrorReply(400, MissingQuestion))
            && (q != "" ==>
                  match invoke(rec.value.ask.value, q)
                  case Success(out) => reply == AnswerJson(out)
                  case Failure(e) => reply == ErrorReply(500, e.message)))
  {
  }

  /** A ready record recovered after a restart has no closure: the service's
      `ask` would rebuild one from the transcript and answer, but the handler
      answers 409 first. */
  lemma RecoveredAskRejected(s: State, ownerId: string, id: string, body: Js.Value,
                             rebuilt: Result<AskFn, Js.JsError>, invoke: Invoke)
    requires Inv(s)
    requires Get(s, ownerId, id).Some? && Get(s, ownerId, id).value.status == Ready
    requires Get(s, ownerId, id).value.ask.None?
    requires Get(s, ownerId, id).value.transcriptPath.Some? && Get(s, ownerId, id).value.transcriptPath.value != ""
    requires ReadFile(s.disk, Get(s, ownerId, id).value.transcriptPath.value).Success? && rebuilt.Success?
    ensures AskIngestion(s, ownerId, id, body, rebuilt, invoke).1 == ErrorReply(409, NotReady)
    ensures Ask(s, ownerId, id, rebuilt).1 == Success(Some(rebuilt.value))
  {
  }
}

/**
  * The ingestion service of the API server: one record per uploaded or linked
  * recording, kept in memory, persisted as a JSON file per record, and moved
  * from "queued" through "processing" to "ready" or "error" by a background
  * worker.
  *
  * The record objects live in an explicit heap, `objects`, indexed by
  * reference; the service's map sends an ingestion id to a reference.  A
  * worker holds the reference it looked up when it started, so, exactly as in
  * the service, a worker keeps updating its record after the record has been
  * deleted from the map, and those updates are then seen by nobody.
  *
  * A worker is a sequence of steps (`Start`, `ExtractAudio` or `Download`,
  * `Transcribe`, `WriteTranscript`, or `Fail` from any of them), and any
  * request may run between two of them.  Some steps hold several `await`s
  * of the source, and no request runs between those.  Every file-system
  * call and every call into the transcription library is an outcome
  * parameter of the step that makes it.
  */
module Ingestion {
  import opened Wrappers
  import opened Text
  import opened Js

  /* ------------------------------------------------------------------ */
  /* Records                                                             */
  /* ------------------------------------------------------------------ */

  datatype Status = Queued | Processing | Ready | Error

  function StatusName(s: Status): string {
    match s
    case Queued => "queued"
    case Processing => "processing"
    case Ready => "ready"
    case Error => "error"
  }

  /** The `ask` closure of a RAG session, identified by the session that made it. */
  datatype AskFn = AskFn(session: nat)

  /** What the transcription library returns: the closure that answers
      questions and the transcript it produced, if any. */
  datatype Session = Session(ask: AskFn, transcriptText: Option<string>)

  datatype IngestionRecord = IngestionRecord(
    id: string,
    ownerId: string,
    audioPath: string,
    audioOriginalName: string,
    audioMimeType: string,
    transcriptPath: Option<string>,
    status: Status,
    createdAt: real,
    updatedAt: real,
    error: Option<string>,
    ask: Option<AskFn>)

  /** The fields of a record that the API shows its owner. */
  datatype PublicIngestion = PublicIngestion(
    id: string, status: Status, error: Option<string>, createdAt: real, updatedAt: real)

  function PublicOf(r: IngestionRecord): PublicIngestion {
    PublicIngestion(r.id, r.status, r.error, r.createdAt, r.updatedAt)
  }

  /** The uploaded file as the upload middleware describes it. */
  datatype UploadedFile = UploadedFile(path: string, originalName: string, mimeType: string)

  /** What a worker was queued for: an uploaded file or a video link. */
  datatype Job = UploadJob | UrlJob(url: string)

  /* ------------------------------------------------------------------ */
  /* Paths and files                                                     */
  /* ------------------------------------------------------------------ */

  /** The two directories, relative to the server's working directory. */
  const IngestionsDir := "ingestions"
  const UploadsDir := "uploads"

  function RecordPath(id: string): string {
    IngestionsDir + "/" + id + ".json"
  }

  function TranscriptFile(id: string): string {
    IngestionsDir + "/" + id + ".txt"
  }

  /** Where a link's audio is downloaded, and where a video's audio track is extracted. */
  function Mp3Path(id: string): string {
    UploadsDir + "/" + id + ".mp3"
  }

  /** The file system: the text of every file, by path. */
  type Disk = map<string, string>

  /** `readFile(path)`: the file's text, or Node's ENOENT error. */
  function ReadFile(disk: Disk, path: string): (r: Result<string, JsError>)
    ensures r.Success? <==> path in disk
    ensures r.Success? ==> r.value == disk[path]
  {
    if path in disk then Success(disk[path]) else Failure(Enoent(path))
  }

  /** `safeUnlink(path)`: nothing for an empty path, and a missing file is no error. */
  function Unlink(disk: Disk, path: string): (d: Disk)
    ensures d == disk - ({path} - {""})
  {
    if path == "" then disk else disk - {path}
  }

  /** Removing files in turn removes them all. */
  lemma RemoveInTurn(disk: Disk, a: set<string>, b: set<string>)
    ensures disk - a - b == disk - (a + b)
  {
  }

  /** The JSON codec of the runtime: `JSON.stringify` and `JSON.parse`, the
      latter `None` where it throws.  The running mode decides how error
      messages are shown. */
  datatype Env = Env(isProd: bool, stringify: Json -> string, parse: string -> Option<Json>)

  /* ------------------------------------------------------------------ */
  /* Persisted form                                                      */
  /* ------------------------------------------------------------------ */

  function NullableStr(s: Option<string>): Json {
    match s
    case Some(v) => JStr(v)
    case None => JNull
  }

  /** The object that is written to a record's file: every field but the closure. */
  function Payload(r: IngestionRecord): Json {
    JObj([
      ("id", JStr(r.id)),
      ("ownerId", JStr(r.ownerId)),
      ("audioPath", JStr(r.audioPath)),
      ("audioOriginalName", JStr(r.audioOriginalName)),
      ("audioMimeType", JStr(r.audioMimeType)),
      ("transcriptPath", NullableStr(r.transcriptPath)),
      ("status", JStr(StatusName(r.status))),
      ("createdAt", JNum(r.createdAt)),
      ("updatedAt", JNum(r.updatedAt)),
      ("error", NullableStr(r.error))
    ])
  }

  /** `persistIngestionRecord`: the record's file now holds its payload. */
  function WriteRecord(env: Env, disk: Disk, r: IngestionRecord): (d: Disk)
    ensures RecordPath(r.id) in d && d[RecordPath(r.id)] == env.stringify(Payload(r))
  {
    disk[RecordPath(r.id) := env.stringify(Payload(r))]
  }

  /** A property read as a string, `null` when missing or not a string. */
  function AsString(v: Option<Json>): Option<string> {
    match v
    case Some(JStr(s)) => Some(s)
    case _ => None
  }

  function AsNumber(v: Option<Json>): Option<real> {
    match v
    case Some(JNum(n)) => Some(n)
    case _ => None
  }

  /** The status a name stands for, if any. */
  function StatusOf(name: string): (st: Option<Status>)
    ensures st.Some? ==> StatusName(st.value) == name
  {
    if name == "queued" then Some(Queued)
    else if name == "processing" then Some(Processing)
    else if name == "ready" then Some(Ready)
    else if name == "error" then Some(Error)
    else None
  }

  lemma StatusNameRoundTrip(st: Status)
    ensures StatusOf(StatusName(st)) == Some(st)
  {
  }

  /** A record whose five required strings are all non-empty; only such a
      record survives a restart. */
  predicate Complete(r: IngestionRecord) {
    r.id != "" && r.ownerId != "" && r.audioPath != "" && r.audioOriginalName != ""
    && r.audioMimeType != ""
  }

  /** The ten properties start-up reads from a parsed record file. */
  datatype Props = Props(id: Option<Json>, ownerId: Option<Json>, audioPath: Option<Json>, audioOriginalName: Option<Json>, audioMimeType: Option<Json>, transcriptPath: Option<Json>, status: Option<Json>, createdAt: Option<Json>, updatedAt: Option<Json>, error: Option<Json>)

  /** `parsed.id`, `parsed.ownerId`, ... on the parsed file. */
  function PropsOf(j: Json): Props {
    Props(Field(j, "id"), Field(j, "ownerId"), Field(j, "audioPath"), Field(j, "audioOriginalName"), Field(j, "audioMimeType"), Field(j, "transcriptPath"), Field(j, "status"), Field(j, "createdAt"), Field(j, "updatedAt"), Field(j, "error"))
  }

  /** The validation of one parsed record file on start-up: a missing or empty
      required string, an unknown status or a non-numeric timestamp rejects the
      file; a transcript path or error that is not a string becomes `null`. */
  function ParseRecord(j: Json): (r: Option<IngestionRecord>)
    ensures r.Some? ==> Complete(r.value) && r.value.ask.None?
  {
    FromProps(PropsOf(j))
  }

  function FromProps(p: Props): (r: Option<IngestionRecord>)
    ensures r.Some? ==> Complete(r.value) && r.value.ask.None?
  {
    var id := AsString(p.id).GetOr("");
    var ownerId := AsString(p.ownerId).GetOr("");
    var audioPath := AsString(p.audioPath).GetOr("");
    var audioOriginalName := AsString(p.audioOriginalName).GetOr("");
    var audioMimeType := AsString(p.audioMimeType).GetOr("");
    var status := match AsString(p.status) case Some(name) => StatusOf(name) case None => None;
    var createdAt := AsNumber(p.createdAt);
    var updatedAt := AsNumber(p.updatedAt);
    if id == "" || ownerId == "" || audioPath == "" || audioOriginalName == ""
       || audioMimeType == "" || status.None? || createdAt.None? || updatedAt.None?
    then None
    else
      Some(IngestionRecord(
        id, ownerId, audioPath, audioOriginalName, audioMimeType,
        AsString(p.transcriptPath), status.value, createdAt.value, updatedAt.value,
        AsString(p.error), None))
  }

  /* Reading back each property of a record's file (one lemma each keeps every proof small). */

  lemma PayloadId(r: IngestionRecord)
    ensures Field(Payload(r), "id") == Some(JStr(r.id))
  {
    GetAt(Payload(r).fields, "id", 0);
  }

  lemma PayloadOwnerId(r: IngestionRecord)
    ensures Field(Payload(r), "ownerId") == Some(JStr(r.ownerId))
  {
    GetAt(Payload(r).fields, "ownerId", 1);
  }

  lemma PayloadAudioPath(r: IngestionRecord)
    ensures Field(Payload(r), "audioPath") == Some(JStr(r.audioPath))
  {
    GetAt(Payload(r).fields, "audioPath", 2);
  }

  lemma PayloadAudioOriginalName(r: IngestionRecord)
    ensures Field(Payload(r), "audioOriginalName") == Some(JStr(r.audioOriginalName))
  {
    GetAt(Payload(r).fields, "audioOriginalName", 3);
  }

  lemma PayloadAudioMimeType(r: IngestionRecord)
    ensures Field(Payload(r), "audioMimeType") == Some(JStr(r.audioMimeType))
  {
    GetAt(Payload(r).fields, "audioMimeType", 4);
  }

  lemma PayloadTranscriptPath(r: IngestionRecord)
    ensures Field(Payload(r), "transcriptPath") == Some(NullableStr(r.transcriptPath))
  {
    GetAt(Payload(r).fields, "transcriptPath", 5);
  }

  lemma PayloadStatus(r: IngestionRecord)
    ensures Field(Payload(r), "status") == Some(JStr(StatusName(r.status)))
  {
    GetAt(Payload(r).fields, "status", 6);
  }

  lemma PayloadCreatedAt(r: IngestionRecord)
    ensures Field(Payload(r), "createdAt") == Some(JNum(r.createdAt))
  {
    GetAt(Payload(r).fields, "createdAt", 7);
  }

  lemma PayloadUpdatedAt(r: IngestionRecord)
    ensures Field(Payload(r), "updatedAt") == Some(JNum(r.updatedAt))
  {
    GetAt(Payload(r).fields, "updatedAt", 8);
  }

  lemma PayloadError(r: IngestionRecord)
    ensures Field(Payload(r), "error") == Some(NullableStr(r.error))
  {
    GetAt(Payload(r).fields, "error", 9);
  }

  lemma PayloadProps(r: IngestionRecord)
    ensures PropsOf(Payload(r)) == Props(Some(JStr(r.id)), Some(JStr(r.ownerId)), Some(JStr(r.audioPath)), Some(JStr(r.audioOriginalName)), Some(JStr(r.audioMimeType)), Some(NullableStr(r.transcriptPath)), Some(JStr(StatusName(r.status))), Some(JNum(r.createdAt)), Some(JNum(r.updatedAt)), Some(NullableStr(r.error)))
  {
    PayloadId(r);
    PayloadOwnerId(r);
    PayloadAudioPath(r);
    PayloadAudioOriginalName(r);
    PayloadAudioMimeType(r);
    PayloadTranscriptPath(r);
    PayloadStatus(r);
    PayloadCreatedAt(r);
    PayloadUpdatedAt(r);
    PayloadError(r);
  }

  /** What is written is what is read back on restart, closure aside, exactly
      for the records with all five required strings. */
  lemma PayloadRoundTrip(r: IngestionRecord)
    ensures ParseRecord(Payload(r)) == if Complete(r) then Some(r.(ask := None)) else None
  {
    PayloadProps(r);
    WrittenProps(r);
  }

  /** The validation accepts the properties of a written record exactly when
      its required strings are non-empty, and rebuilds it without closure. */
  lemma WrittenProps(r: IngestionRecord)
    ensures FromProps(Props(Some(JStr(r.id)), Some(JStr(r.ownerId)), Some(JStr(r.audioPath)), Some(JStr(r.audioOriginalName)), Some(JStr(r.audioMimeType)), Some(NullableStr(r.transcriptPath)), Some(JStr(StatusName(r.status))), Some(JNum(r.createdAt)), Some(JNum(r.updatedAt)), Some(NullableStr(r.error))))
      == if Complete(r) then Some(r.(ask := None)) else None
  {
    StatusNameRoundTrip(r.status);
    assert AsString(Some(NullableStr(r.transcriptPath))) == r.transcriptPath;
    assert AsString(Some(NullableStr(r.error))) == r.error;
  }

  /* ------------------------------------------------------------------ */
  /* Recovery on start-up                                                */
  /* ------------------------------------------------------------------ */

  /** The record, if any, that start-up takes from the directory entry `f`:
      only `.json` entries are read, and an unreadable, unparseable or
      rejected file is skipped. */
  function LoadFile(env: Env, disk: Disk, f: string): (recs: seq<IngestionRecord>)
    ensures |recs| <= 1
    ensures recs != [] ==> EndsWith(f, ".json") && Complete(recs[0]) && recs[0].ask.None?
  {
    if !EndsWith(f, ".json") then []
    else
      match ReadFile(disk, IngestionsDir + "/" + f)
      case Failure(_) => []
      case Success(raw) =>
        match env.parse(raw)
        case None => []
        case Some(j) =>
          match ParseRecord(j)
          case None => []
          case Some(r) => [r]
  }

  /** The records taken from a directory listing, in listing order. */
  function LoadedRecords(env: Env, disk: Disk, files: seq<string>): (recs: seq<IngestionRecord>)
    ensures |recs| <= |files|
  {
    if files == [] then []
    else LoadedRecords(env, disk, files[..|files| - 1]) + LoadFile(env, disk, files[|files| - 1])
  }

  /** The map from id to record reference after inserting `recs` in order:
      a later record with the same id replaces an earlier one. */
  function Latest(recs: seq<IngestionRecord>): (m: map<string, nat>)
    ensures forall id :: id in m ==> m[id] < |recs|
  {
    if recs == [] then map[]
    else Latest(recs[..|recs| - 1])[recs[|recs| - 1].id := |recs| - 1]
  }

  /** The recovered map sends every id to the LAST record with that id. */
  lemma {:induction false} LatestIsLast(recs: seq<IngestionRecord>, id: string)
    ensures id in Latest(recs) <==> exists i :: 0 <= i < |recs| && recs[i].id == id
    ensures id in Latest(recs) ==>
      recs[Latest(recs)[id]].id == id
      && forall i :: Latest(recs)[id] < i < |recs| ==> recs[i].id != id
  {
    if recs != [] {
      var init := recs[..|recs| - 1];
      LatestIsLast(init, id);
      if recs[|recs| - 1].id != id {
        if exists i :: 0 <= i < |recs| && recs[i].id == id {
          var i :| 0 <= i < |recs| && recs[i].id == id;
          assert init[i].id == id;
        }
        if id in Latest(init) {
          assert recs[Latest(init)[id]] == init[Latest(init)[id]];
        }
      }
    }
  }

  /** The record heap after start-up: reference `i` is the `i`-th record. */
  function ObjectsOf(recs: seq<IngestionRecord>): map<nat, IngestionRecord> {
    map i: nat | i < |recs| :: recs[i]
  }

  /** Loading one more listed file appends what it yields. */
  lemma LoadNext(env: Env, disk: Disk, files: seq<string>, i: nat)
    requires i < |files|
    ensures LoadedRecords(env, disk, files[..i + 1])
      == LoadedRecords(env, disk, files[..i]) + LoadFile(env, disk, files[i])
  {
    assert files[..i + 1][..i] == files[..i];
  }

  /** Appending a loaded record gives it the next reference and the map entry of its id. */
  lemma LoadedAppend(recs: seq<IngestionRecord>, r: IngestionRecord)
    ensures ObjectsOf(recs + [r]) == ObjectsOf(recs)[|recs| := r]
    ensures Latest(recs + [r]) == Latest(recs)[r.id := |recs|]
  {
    assert (recs + [r])[..|recs|] == recs;
  }

  /* ------------------------------------------------------------------ */
  /* Service state                                                       */
  /* ------------------------------------------------------------------ */

  /** Where a started worker is: `Started` after "processing" was persisted,
      `Prepared` once the audio file is in place, `Transcribed` once the
      library returned and the worker is about to write the transcript. */
  datatype Stage = Started | Prepared | Transcribed(ask: AskFn, text: string)

  /** A queued worker, and a running one with the record reference it took. */
  datatype Worker = Pending(job: Job) | Running(job: Job, ref: nat, stage: Stage)

  datatype State = State(
    objects: map<nat, IngestionRecord>,
    nextRef: nat,
    ingestions: map<string, nat>,
    cancelled: set<string>,
    disk: Disk,
    workers: map<string, Worker>)

  /** The record the service's map holds for `id`. */
  function Live(s: State, id: string): Option<IngestionRecord> {
    if id in s.ingestions && s.ingestions[id] in s.objects then Some(s.objects[s.ingestions[id]])
    else None
  }

  /** A queued worker's record is "queued", and a queued link worker's record
      downloads to the id's `.mp3`; a running worker's reference is a
      "processing" record with its id, the one the map holds for the id while
      it holds one. */
  predicate WorkerOk(objects: map<nat, IngestionRecord>, ingestions: map<string, nat>, id: string, w: Worker) {
    match w
    case Pending(job) =>
      (id in ingestions && ingestions[id] in objects ==> objects[ingestions[id]].status == Queued)
      && ((job.UrlJob? && id in ingestions && ingestions[id] in objects)
          ==> objects[ingestions[id]].audioPath == Mp3Path(id))
    case Running(job, ref, _) =>
      ref in objects && objects[ref].id == id && objects[ref].status == Processing
      && (id in ingestions ==> ingestions[id] == ref)
      && (job.UrlJob? ==> objects[ref].audioPath == Mp3Path(id))
  }

  /** The service's invariant: the map sends an id to a record with that id,
      a cancelled id is never in the map, a record holds a closure only when it
      knows its transcript file, and a worker's reference is the record the
      map holds for its id for as long as the map holds one. */
  predicate Inv(s: State) {
    (forall id :: id in s.ingestions ==>
       s.ingestions[id] in s.objects && s.objects[s.ingestions[id]].id == id)
    && (forall ref :: ref in s.objects ==> ref < s.nextRef)
    && (forall ref :: ref in s.objects && s.objects[ref].ask.Some? ==>
          s.objects[ref].transcriptPath.Some?)
    && (forall id :: id in s.cancelled ==> id !in s.ingestions)
    && (forall id :: id in s.workers ==> WorkerOk(s.objects, s.ingestions, id, s.workers[id]))
  }

  /** Replacing a record object keeps the invariant when its id stays, a
      closure comes with a transcript path, the audio path moves only for an
      upload job, and the status moves only when no worker is on the id. */
  lemma UpdateObjectInv(s: State, ref: nat, r: IngestionRecord)
    requires Inv(s) && ref in s.objects && r.id == s.objects[ref].id
    requires r.ask.Some? ==> r.transcriptPath.Some?
    requires r.audioPath != s.objects[ref].audioPath ==> r.id in s.workers && s.workers[r.id].job.UploadJob?
    requires r.status != s.objects[ref].status ==> r.id !in s.workers
    ensures Inv(s.(objects := s.objects[ref := r]))
  {
    var t := s.(objects := s.objects[ref := r]);
    forall id | id in t.workers
      ensures WorkerOk(t.objects, t.ingestions, id, t.workers[id])
    {
      assert WorkerOk(s.objects, s.ingestions, id, s.workers[id]);
    }
  }

  lemma SetWorkerInv(s: State, id: string, w: Worker)
    requires Inv(s) && WorkerOk(s.objects, s.ingestions, id, w)
    ensures Inv(s.(workers := s.workers[id := w]))
  {
  }

  /** The invariant does not depend on the files. */
  lemma DiskInv(s: State, disk: Disk)
    requires Inv(s)
    ensures Inv(s.(disk := disk))
  {
  }

  lemma RemoveWorkerInv(s: State, id: string)
    requires Inv(s)
    ensures Inv(s.(workers := s.workers - {id}))
  {
  }

  /** The state after `init()`: the records recovered from the listing of the
      ingestions directory (`None` when it cannot be read), no worker, nothing
      cancelled.  Recovered records have no closure and no worker restarts. */
  function Initial(env: Env, disk: Disk, listing: Option<seq<string>>): (s: State)
    ensures Inv(s)
    ensures s.workers == map[] && s.cancelled == {} && s.disk == disk
    ensures forall id :: id in s.ingestions ==>
      var r := s.objects[s.ingestions[id]];
      Complete(r) && r.ask.None?
  {
    var recs := if listing.Some? then LoadedRecords(env, disk, listing.value) else [];
    var s := State(ObjectsOf(recs), |recs|, Latest(recs), {}, disk, map[]);
    forall id | id in s.ingestions
      ensures s.ingestions[id] in s.objects && s.objects[s.ingestions[id]].id == id
    {
      LatestIsLast(recs, id);
    }
    LoadedComplete(env, disk, if listing.Some? then listing.value else []);
    s
  }

  lemma {:induction false} LoadedComplete(env: Env, disk: Disk, files: seq<string>)
    ensures forall i :: 0 <= i < |LoadedRecords(env, disk, files)| ==>
      Complete(LoadedRecords(env, disk, files)[i]) && LoadedRecords(env, disk, files)[i].ask.None?
  {
    if files != [] {
      LoadedComplete(env, disk, files[..|files| - 1]);
    }
  }

  /** A `.json` entry whose file parses to an accepted record yields that record. */
  lemma LoadFileAccepts(env: Env, disk: Disk, f: string, j: Json, rec: IngestionRecord)
    requires EndsWith(f, ".json") && IngestionsDir + "/" + f in disk
    requires env.parse(disk[IngestionsDir + "/" + f]) == Some(j) && ParseRecord(j) == Some(rec)
    ensures LoadFile(env, disk, f) == [rec]
  {
  }

  /** A record the service wrote is recovered on restart, closure aside,
      provided the codec reads back what it wrote. */
  lemma RecoverWritten(env: Env, disk: Disk, r: IngestionRecord)
    requires Complete(r)
    requires env.parse(env.stringify(Payload(r))) == Some(Payload(r))
    requires RecordPath(r.id) in disk && disk[RecordPath(r.id)] == env.stringify(Payload(r))
    ensures LoadFile(env, disk, r.id + ".json") == [r.(ask := None)]
  {
    var f := r.id + ".json";
    assert IngestionsDir + "/" + f == RecordPath(r.id);
    assert EndsWith(f, ".json") by {
      assert f[|f| - 5..] == ".json";
    }
    PayloadRoundTrip(r);
    LoadFileAccepts(env, disk, f, Payload(r), r.(ask := None));
  }

  /* ------------------------------------------------------------------ */
  /* Requests                                                            */
  /* ------------------------------------------------------------------ */

  /** `get`: the record with this id, only for its owner. */
  function Get(s: State, ownerId: string, id: string): (r: Option<IngestionRecord>)
    ensures r.Some? <==> Live(s, id).Some? && Live(s, id).value.ownerId == ownerId
    ensures r.Some? ==> r == Live(s, id)
  {
    match Live(s, id)
    case Some(r) => if r.ownerId == ownerId then Some(r) else None
    case None => None
  }

  /** `getTranscriptText`: `null` unless the owner's record is ready and names
      a transcript file; otherwise that file's text, or the read error. */
  function GetTranscriptText(s: State, ownerId: string, id: string): Result<Option<string>, JsError> {
    match Get(s, ownerId, id)
    case None => Success(None)
    case Some(r) =>
      if r.status != Ready || r.transcriptPath.None? || r.transcriptPath.value == "" then Success(None)
      else
        match ReadFile(s.disk, r.transcriptPath.value)
        case Success(text) => Success(Some(text))
        case Failure(e) => Failure(e)
  }

  /** The files `delete` removes: the record's file, its transcript (or the
      default transcript path when the record names none or is gone) and its
      audio; empty paths are skipped. */
  function DeletedFiles(s: State, id: string): set<string> {
    var rec := Live(s, id);
    var transcript :=
      if rec.Some? && rec.value.transcriptPath.Some? then rec.value.transcriptPath.value
      else TranscriptFile(id);
    var audio := if rec.Some? then {rec.value.audioPath} else {};
    ({RecordPath(id), transcript} + audio) - {""}
  }

  /** `delete`: the id is cancelled, leaves the map, and its files are removed. */
  function Delete(s: State, id: string): (t: State)
    requires Inv(s)
    ensures Inv(t)
    ensures Live(t, id).None? && id in t.cancelled && RecordPath(id) !in t.disk
    ensures forall other :: other != id ==> Live(t, other) == Live(s, other)
  {
    s.(cancelled := s.cancelled + {id}, ingestions := s.ingestions - {id},
       disk := s.disk - DeletedFiles(s, id))
  }

  /** `delete` removes its files one after another: the record file, the
      transcript, then the audio of a record still in the map. */
  lemma DeletedInTurn(s: State, id: string, transcript: string, audio: set<string>)
    requires transcript == if Live(s, id).Some? && Live(s, id).value.transcriptPath.Some?
                           then Live(s, id).value.transcriptPath.value else TranscriptFile(id)
    requires audio == if Live(s, id).Some? then {Live(s, id).value.audioPath} else {}
    ensures DeletedFiles(s, id) == ({RecordPath(id)} - {""}) + ({transcript} - {""}) + (audio - {""})
  {
  }

  /** The ids of the records an owner has. */
  function Owned(s: State, ownerId: string): set<string> {
    set id | id in s.ingestions && Live(s, id).Some? && Live(s, id).value.ownerId == ownerId
  }

  /** The files deleting the ids of `ids` removes. */
  function FilesOf(s: State, ids: set<string>): set<string> {
    set id, p | id in ids && p in DeletedFiles(s, id) :: p
  }

  /** The state once every id of `ids` has been deleted. */
  function DeleteSome(s: State, ids: set<string>): (t: State)
    requires Inv(s)
    ensures Inv(t)
  {
    s.(cancelled := s.cancelled + ids, ingestions := s.ingestions - ids, disk := s.disk - FilesOf(s, ids))
  }

  lemma DeleteNone(s: State)
    requires Inv(s)
    ensures DeleteSome(s, {}) == s
  {
    assert FilesOf(s, {}) == {};
  }

  lemma FilesOfAdd(s: State, done: set<string>, id: string)
    ensures FilesOf(s, done + {id}) == FilesOf(s, done) + DeletedFiles(s, id)
  {
  }

  /** Deleting the ids one at a time, in any order, reaches `DeleteSome`. */
  lemma DeleteOneMore(s: State, done: set<string>, id: string)
    requires Inv(s) && id !in done
    ensures Delete(DeleteSome(s, done), id) == DeleteSome(s, done + {id})
  {
    var t := DeleteSome(s, done);
    assert Live(t, id) == Live(s, id);
    assert DeletedFiles(t, id) == DeletedFiles(s, id);
    FilesOfAdd(s, done, id);
    RemoveInTurn(s.disk, FilesOf(s, done), DeletedFiles(s, id));
  }

  /** `deleteAllForOwner`: every record of the owner deleted, in any order. */
  function DeleteAll(s: State, ownerId: string): (t: State)
    requires Inv(s)
    ensures Inv(t)
  {
    DeleteSome(s, Owned(s, ownerId))
  }

  /** Adding a fresh record under a fresh id keeps the invariant. */
  lemma AddRecordInv(s: State, r: IngestionRecord)
    requires Inv(s) && r.id !in s.ingestions && r.id !in s.cancelled && r.id !in s.workers
    requires r.ask.Some? ==> r.transcriptPath.Some?
    ensures Inv(s.(objects := s.objects[s.nextRef := r], nextRef := s.nextRef + 1,
                   ingestions := s.ingestions[r.id := s.nextRef]))
  {
    var t := s.(objects := s.objects[s.nextRef := r], nextRef := s.nextRef + 1,
                ingestions := s.ingestions[r.id := s.nextRef]);
    forall id | id in t.workers
      ensures WorkerOk(t.objects, t.ingestions, id, t.workers[id])
    {
      assert WorkerOk(s.objects, s.ingestions, id, s.workers[id]);
    }
  }

  /** A fresh record as both creations build it. */
  function NewRecord(id: string, ownerId: string, audioPath: string, originalName: string,
                     mimeType: string, now: real): IngestionRecord
  {
    IngestionRecord(id, ownerId, audioPath, originalName, mimeType, None, Queued, now, now, None, None)
  }

  /** The part both creations share: the record enters the map, is persisted,
      and only if that succeeded is a worker queued.  The result is the
      record's reference, or the error of the failed persist. */
  function Create(env: Env, s: State, r: IngestionRecord, job: Job, persist: Option<JsError>)
    : (res: (State, Result<nat, JsError>))
    requires Inv(s)
    requires r.id !in s.ingestions && r.id !in s.cancelled && r.id !in s.workers
    requires r.ask.None? && r.status == Queued
    requires job.UrlJob? ==> r.audioPath == Mp3Path(r.id)
    ensures Inv(res.0)
  {
    var ref := s.nextRef;
    AddRecordInv(s, r);
    var s1 := s.(objects := s.objects[ref := r], nextRef := ref + 1,
                 ingestions := s.ingestions[r.id := ref]);
    SetWorkerInv(s1, r.id, Pending(job));
    match persist
    case None =>
      (s1.(disk := WriteRecord(env, s.disk, r), workers := s.workers[r.id := Pending(job)]), Success(ref))
    case Some(e) => (s1, Failure(e))
  }

  /** `createFromUpload`, with `id` and `now` standing for the fresh id and the clock. */
  function CreateFromUpload(env: Env, s: State, ownerId: string, file: UploadedFile, id: string,
                            now: real, persist: Option<JsError>): (res: (State, Result<nat, JsError>))
    requires Inv(s) && id !in s.ingestions && id !in s.cancelled && id !in s.workers
    ensures Inv(res.0)
  {
    Create(env, s, NewRecord(id, ownerId, file.path, file.originalName, file.mimeType, now),
           UploadJob, persist)
  }

  /** `createFromUrl`: the audio goes to the id's `.mp3` in the uploads
      directory, the link is the original name, the type is MPEG audio. */
  function CreateFromUrl(env: Env, s: State, ownerId: string, url: string, id: string,
                         now: real, persist: Option<JsError>): (res: (State, Result<nat, JsError>))
    requires Inv(s) && id !in s.ingestions && id !in s.cancelled && id !in s.workers
    ensures Inv(res.0)
  {
    Create(env, s, NewRecord(id, ownerId, Mp3Path(id), url, "audio/mpeg", now), UrlJob(url), persist)
  }

  /** `ask`: the closure the question is put to, `null` when the owner's
      record is missing or not ready, or has no closure and no transcript.
      A missing closure is rebuilt from the transcript (`rebuilt` is what the
      library returns) and kept on the record. */
  function Ask(s: State, ownerId: string, id: string, rebuilt: Result<AskFn, JsError>)
    : (res: (State, Result<Option<AskFn>, JsError>))
    requires Inv(s)
    ensures Inv(res.0)
  {
    match Get(s, ownerId, id)
    case None => (s, Success(None))
    case Some(r) =>
      if r.status != Ready then (s, Success(None))
      else if r.ask.Some? then (s, Success(r.ask))
      else if r.transcriptPath.None? || r.transcriptPath.value == "" then (s, Success(None))
      else
        match ReadFile(s.disk, r.transcriptPath.value)
        case Failure(e) => (s, Failure(e))
        case Success(_) =>
          match rebuilt
          case Failure(e) => (s, Failure(e))
          case Success(f) =>
            (s.(objects := s.objects[s.ingestions[id] := r.(ask := Some(f))]), Success(Some(f)))
  }

  /* ------------------------------------------------------------------ */
  /* Worker steps                                                        */
  /* ------------------------------------------------------------------ */

  predicate IsVideoMimeType(mimeType: string) {
    StartsWith(ToLower(mimeType), "video/")
  }

  /** The message a failed job records: the bare message in production, the
      error's name and message otherwise. */
  function ErrorText(isProd: bool, e: JsError): string {
    if isProd then e.message else e.name + ": " + e.message
  }

  /** A record's file and its transcript are two files. */
  lemma RecordIsNotTranscript(id: string)
    ensures RecordPath(id) != TranscriptFile(id)
  {
    var a := RecordPath(id);
    assert a[|a| - 4] == 'j';
  }

  /** `spawn` could not find the program. */
  predicate MissingBinary(e: JsError) {
    e.code == Some("ENOENT")
  }

  const FfmpegMissing := JsError("Error", "ffmpeg is not installed. Install ffmpeg to process video uploads.", None)
  const YtDlpMissing := JsError("Error", "yt-dlp is not installed. Install yt-dlp (and ffmpeg) to process YouTube links.", None)
  const Http403 := JsError("Error", "YouTube download failed (HTTP 403). Try updating yt-dlp to the latest version or retry later.", None)

  /** The error a failed download is reported as. */
  function DownloadError(e: JsError): (r: JsError)
    ensures MissingBinary(e) ==> r == YtDlpMissing
    ensures !MissingBinary(e) && Contains(e.message, "HTTP Error 403") ==> r == Http403
    ensures !MissingBinary(e) && !Contains(e.message, "HTTP Error 403") ==> r == e
  {
    if MissingBinary(e) then YtDlpMissing
    else if Contains(e.message, "HTTP Error 403") then Http403
    else e
  }

  /** The record file of `id` was not written: it is absent or unchanged. */
  predicate RecordUnwritten(before: Disk, after: Disk, id: string) {
    RecordPath(id) in after ==> RecordPath(id) in before && after[RecordPath(id)] == before[RecordPath(id)]
  }

  predicate RunningIn(s: State, id: string) {
    id in s.workers && s.workers[id].Running?
  }

  /** The `catch` of a worker: the closure is dropped, the record turns to
      "error" with the error's text, and is persisted only while its id is
      neither cancelled nor gone from the map.  The worker ends. */
  function Fail(env: Env, s: State, id: string, e: JsError, now: real, persist: Option<JsError>)
    : (t: State)
    requires Inv(s) && RunningIn(s, id)
    ensures Inv(t)
    ensures id !in t.workers && t.ingestions == s.ingestions && t.cancelled == s.cancelled
    ensures id in s.cancelled ==> RecordUnwritten(s.disk, t.disk, id)
    ensures s.workers[id].ref in t.objects
    ensures var r := t.objects[s.workers[id].ref];
      r.status == Error && r.ask.None? && r.error == Some(ErrorText(env.isProd, e))
  {
    var ref := s.workers[id].ref;
    var r := s.objects[ref].(ask := None, status := Error, error := Some(ErrorText(env.isProd, e)),
                             updatedAt := now);
    RemoveWorkerInv(s, id);
    var s0 := s.(workers := s.workers - {id});
    UpdateObjectInv(s0, ref, r);
    var s1 := s0.(objects := s.objects[ref := r]);
    if id !in s.cancelled && id in s.ingestions && persist.None? then s1.(disk := WriteRecord(env, s.disk, r))
    else s1
  }

  /** The worker's start: it stops if the record is gone or cancelled,
      otherwise marks it "processing" and persists it.  That persist is
      outside the worker's `try`: when it fails the worker ends and the
      record stays "processing". */
  function Start(env: Env, s: State, id: string, now: real, persist: Option<JsError>): (t: State)
    requires Inv(s) && id in s.workers && s.workers[id].Pending?
    ensures Inv(t)
    ensures t.ingestions == s.ingestions && t.cancelled == s.cancelled
    ensures id in s.cancelled ==> RecordUnwritten(s.disk, t.disk, id)
  {
    var job := s.workers[id].job;
    RemoveWorkerInv(s, id);
    if id !in s.ingestions || id in s.cancelled then s.(workers := s.workers - {id})
    else
      var ref := s.ingestions[id];
      var r := s.objects[ref].(status := Processing, updatedAt := now);
      var s0 := s.(workers := s.workers - {id});
      UpdateObjectInv(s0, ref, r);
      var s1 := s0.(objects := s.objects[ref := r]);
      SetWorkerInv(s1, id, Running(job, ref, Started));
      match persist
      case None => s1.(disk := WriteRecord(env, s.disk, r), workers := s.workers[id := Running(job, ref, Started)])
      case Some(_) => s1
  }

  /** A started upload worker whose file is a video: ffmpeg writes the audio
      track to the id's `.mp3` (`extracted` is its outcome), the upload is
      removed, the record points at the extracted audio and is persisted
      unless cancelled. */
  function ExtractAudio(env: Env, s: State, id: string, extracted: Result<string, JsError>, now: real,
                        persist: Option<JsError>, catchPersist: Option<JsError>): (t: State)
    requires Inv(s) && RunningIn(s, id)
    requires s.workers[id].job.UploadJob? && s.workers[id].stage == Started
    requires IsVideoMimeType(s.objects[s.workers[id].ref].audioMimeType)
    ensures Inv(t)
    ensures t.ingestions == s.ingestions && t.cancelled == s.cancelled
    ensures id in s.cancelled ==> RecordUnwritten(s.disk, t.disk, id)
  {
    var w := s.workers[id];
    match extracted
    case Failure(e) =>
      Fail(env, s, id, if MissingBinary(e) then FfmpegMissing else e, now, catchPersist)
    case Success(audio) =>
      var disk := Unlink(s.disk[Mp3Path(id) := audio], s.objects[w.ref].audioPath);
      var r := s.objects[w.ref].(audioPath := Mp3Path(id), audioMimeType := "audio/mpeg", updatedAt := now);
      UpdateObjectInv(s, w.ref, r);
      var s0 := s.(objects := s.objects[w.ref := r]);
      SetWorkerInv(s0, id, Running(w.job, w.ref, Prepared));
      var s1 := s0.(disk := disk, workers := s.workers[id := Running(w.job, w.ref, Prepared)]);
      if id in s.cancelled then s1
      else
        match persist
        case None => s1.(disk := WriteRecord(env, disk, r))
        case Some(e) => Fail(env, s1, id, e, now, catchPersist)
  }

  /** A started link worker: yt-dlp writes the audio to the record's audio
      path (`downloaded` is its outcome); a failure is reported through
      `DownloadError`. */
  function Download(env: Env, s: State, id: string, downloaded: Result<string, JsError>, now: real,
                    catchPersist: Option<JsError>): (t: State)
    requires Inv(s) && RunningIn(s, id)
    requires s.workers[id].job.UrlJob? && s.workers[id].stage == Started
    ensures Inv(t)
    ensures t.ingestions == s.ingestions && t.cancelled == s.cancelled
    ensures id in s.cancelled ==> RecordUnwritten(s.disk, t.disk, id)
  {
    var w := s.workers[id];
    match downloaded
    case Failure(e) => Fail(env, s, id, DownloadError(e), now, catchPersist)
    case Success(audio) =>
      SetWorkerInv(s, id, Running(w.job, w.ref, Prepared));
      s.(disk := s.disk[s.objects[w.ref].audioPath := audio],
         workers := s.workers[id := Running(w.job, w.ref, Prepared)])
  }

  /** A worker whose audio is ready to be transcribed. */
  predicate ReadyToTranscribe(s: State, id: string)
    requires Inv(s) && RunningIn(s, id)
  {
    var w := s.workers[id];
    w.stage == Prepared
    || (w.stage == Started && w.job.UploadJob? && !IsVideoMimeType(s.objects[w.ref].audioMimeType))
  }

  /** The audio is read and handed to the transcription library (`session`
      is what it returns).  If meanwhile the id was cancelled or left the map,
      the worker ends without writing anything. */
  function Transcribe(env: Env, s: State, id: string, session: Result<Session, JsError>, now: real,
                      catchPersist: Option<JsError>): (t: State)
    requires Inv(s) && RunningIn(s, id) && ReadyToTranscribe(s, id)
    ensures Inv(t)
    ensures t.ingestions == s.ingestions && t.cancelled == s.cancelled
    ensures id in s.cancelled ==> RecordUnwritten(s.disk, t.disk, id)
  {
    var w := s.workers[id];
    match ReadFile(s.disk, s.objects[w.ref].audioPath)
    case Failure(e) => Fail(env, s, id, e, now, catchPersist)
    case Success(_) =>
      match session
      case Failure(e) => Fail(env, s, id, e, now, catchPersist)
      case Success(sess) =>
        var next := Running(w.job, w.ref, Transcribed(sess.ask, sess.transcriptText.GetOr("")));
        RemoveWorkerInv(s, id);
        SetWorkerInv(s, id, next);
        if id in s.cancelled || id !in s.ingestions then s.(workers := s.workers - {id})
        else s.(workers := s.workers[id := next])
  }

  /** The transcript is written to the id's `.txt` (`written` is the write's
      outcome); the record then names it, holds the session's closure, turns
      "ready" and is persisted while its id is neither cancelled nor gone.
      A failed persist sends the record to "error", keeping the transcript
      path. */
  function WriteTranscript(env: Env, s: State, id: string, written: Option<JsError>, now: real,
                           persist: Option<JsError>, catchPersist: Option<JsError>): (t: State)
    requires Inv(s) && RunningIn(s, id) && s.workers[id].stage.Transcribed?
    ensures Inv(t)
    ensures id !in t.workers && t.ingestions == s.ingestions && t.cancelled == s.cancelled
    ensures id in s.cancelled ==> RecordUnwritten(s.disk, t.disk, id)
  {
    var w := s.workers[id];
    match written
    case Some(e) => Fail(env, s, id, e, now, catchPersist)
    case None =>
      var path := TranscriptFile(id);
      var named := s.objects[w.ref].(transcriptPath := Some(path));
      UpdateObjectInv(s, w.ref, named);
      DiskInv(s.(objects := s.objects[w.ref := named]), s.disk[path := w.stage.text]);
      var s0 := s.(objects := s.objects[w.ref := named], disk := s.disk[path := w.stage.text]);
      RecordIsNotTranscript(id);
      if !(id in s.cancelled || id !in s.ingestions) && persist.Some? then
        Fail(env, s0, id, persist.value, now, catchPersist)
      else MarkReady(env, s0, id, now)
  }

  /** The end of a worker whose transcript is written and named by its
      record: the record takes the session's closure and turns "ready", and
      is persisted while its id is neither cancelled nor gone. */
  function MarkReady(env: Env, s: State, id: string, now: real): (t: State)
    requires Inv(s) && RunningIn(s, id) && s.workers[id].stage.Transcribed?
    requires s.objects[s.workers[id].ref].transcriptPath.Some?
    ensures Inv(t)
    ensures id !in t.workers && t.ingestions == s.ingestions && t.cancelled == s.cancelled
    ensures id in s.cancelled ==> t.disk == s.disk
  {
    var w := s.workers[id];
    var r := s.objects[w.ref].(ask := Some(w.stage.ask), status := Ready, updatedAt := now);
    RemoveWorkerInv(s, id);
    UpdateObjectInv(s.(workers := s.workers - {id}), w.ref, r);
    var s1 := s.(objects := s.objects[w.ref := r], workers := s.workers - {id});
    if id in s.cancelled || id !in s.ingestions then s1
    else s1.(disk := WriteRecord(env, s1.disk, r))
  }

  /* ------------------------------------------------------------------ */
  /* Properties                                                          */
  /* ------------------------------------------------------------------ */

  /** `get` only ever hands a record to its owner, and it is the record of
      the id asked for. */
  lemma GetOwnerOnly(s: State, ownerId: string, id: string)
    requires Inv(s)
    ensures Get(s, ownerId, id).Some? ==>
      Get(s, ownerId, id).value.ownerId == ownerId && Get(s, ownerId, id).value.id == id
  {
  }

  /** After `delete` nobody sees the record: `get`, the transcript and `ask`
      all answer `null`; every other id is served as before. */
  lemma DeleteHides(s: State, id: string, ownerId: string, rebuilt: Result<AskFn, JsError>)
    requires Inv(s)
    ensures var t := Delete(s, id);
      Get(t, ownerId, id).None? && GetTranscriptText(t, ownerId, id) == Success(None)
      && Ask(t, ownerId, id, rebuilt) == (t, Success(None))
    ensures forall other :: other != id ==> Get(Delete(s, id), ownerId, other) == Get(s, ownerId, other)
  {
  }

  /** `delete` can be repeated safely: a second call changes nothing but the
      default transcript path, which the first call skipped when the record
      named another transcript file. */
  lemma DeleteTwice(s: State, id: string)
    requires Inv(s)
    ensures Delete(Delete(s, id), id) == Delete(s, id).(disk := Delete(s, id).disk - {TranscriptFile(id)})
  {
    var t := Delete(s, id);
    assert Live(t, id).None?;
    assert DeletedFiles(t, id) == {RecordPath(id), TranscriptFile(id)};
    assert t.disk - {RecordPath(id), TranscriptFile(id)} == t.disk - {TranscriptFile(id)};
  }

  /** `deleteAllForOwner` removes exactly the owner's records: the owner sees
      none afterwards, every other owner sees what it saw before. */
  lemma DeleteAllExact(s: State, ownerId: string)
    requires Inv(s)
    ensures forall id :: Get(DeleteAll(s, ownerId), ownerId, id).None?
    ensures forall other, id :: other != ownerId ==>
      Get(DeleteAll(s, ownerId), other, id) == Get(s, other, id)
  {
  }

  /** A created record is at once visible to its owner as "queued", its file
      holds it, and a worker is queued for it; if the first persist fails the
      creation throws, but the record stays in the map, "queued", with no
      worker to move it on. */
  lemma CreateQueues(env: Env, s: State, ownerId: string, file: UploadedFile, id: string, now: real,
                     persist: Option<JsError>)
    requires Inv(s) && id !in s.ingestions && id !in s.cancelled && id !in s.workers
    ensures var (t, res) := CreateFromUpload(env, s, ownerId, file, id, now, persist);
      var rec := NewRecord(id, ownerId, file.path, file.originalName, file.mimeType, now);
      Get(t, ownerId, id) == Some(rec) && rec.status == Queued
      && (persist.None? ==>
            res.Success? && t.objects[res.value] == rec && t.workers[id] == Pending(UploadJob)
            && t.disk[RecordPath(id)] == env.stringify(Payload(rec)))
      && (persist.Some? ==> res == Failure(persist.value) && id !in t.workers)
  {
  }

  /** A link job downloads to the id's `.mp3`, keeps the link as its name and
      declares MPEG audio. */
  lemma CreateFromUrlRecord(env: Env, s: State, ownerId: string, url: string, id: string, now: real,
                            persist: Option<JsError>)
    requires Inv(s) && id !in s.ingestions && id !in s.cancelled && id !in s.workers
    ensures var (t, _) := CreateFromUrl(env, s, ownerId, url, id, now, persist);
      Get(t, ownerId, id) == Some(NewRecord(id, ownerId, Mp3Path(id), url, "audio/mpeg", now))
      && (persist.None? <==> id in t.workers && t.workers[id] == Pending(UrlJob(url)))
  {
  }

  /** A worker whose record is gone or cancelled stops and changes nothing
      else; otherwise the record turns "processing", and when that is
      persisted the worker runs on with the record it looked up. */
  lemma StartResult(env: Env, s: State, id: string, now: real, persist: Option<JsError>)
    requires Inv(s) && id in s.workers && s.workers[id].Pending?
    ensures id !in s.ingestions || id in s.cancelled ==>
      Start(env, s, id, now, persist) == s.(workers := s.workers - {id})
    ensures id in s.ingestions && id !in s.cancelled ==>
      var t := Start(env, s, id, now, persist);
      var rec := s.objects[s.ingestions[id]].(status := Processing, updatedAt := now);
      && Live(t, id) == Some(rec)
      && (persist.None? ==>
            t.disk == WriteRecord(env, s.disk, rec)
            && t.workers == s.workers[id := Running(s.workers[id].job, s.ingestions[id], Started)])
      && (persist.Some? ==> t.disk == s.disk && id !in t.workers)
  {
  }

  /** Extracting a video's audio: on success the record names the id's
      `.mp3` as MPEG audio, the upload is removed and the extracted audio is
      on disk; a missing ffmpeg fails the job with its own message, any other
      error with that error. */
  lemma ExtractAudioResult(env: Env, s: State, id: string, extracted: Result<string, JsError>, now: real,
                           persist: Option<JsError>, catchPersist: Option<JsError>)
    requires Inv(s) && RunningIn(s, id)
    requires s.workers[id].job.UploadJob? && s.workers[id].stage == Started
    requires IsVideoMimeType(s.objects[s.workers[id].ref].audioMimeType)
    ensures var t := ExtractAudio(env, s, id, extracted, now, persist, catchPersist);
      var ref := s.workers[id].ref;
      var upload := s.objects[ref].audioPath;
      && ref in t.objects
      && (extracted.Success? ==>
            t.objects[ref].audioPath == Mp3Path(id) && t.objects[ref].audioMimeType == "audio/mpeg"
            && (upload != "" && upload != RecordPath(id) ==> upload !in t.disk)
            && (upload != Mp3Path(id) ==> t.disk[Mp3Path(id)] == extracted.value)
            && (id in s.cancelled || persist.None? ==>
                  t.workers == s.workers[id := Running(UploadJob, ref, Prepared)]))
      && (extracted.Failure? ==>
            id !in t.workers && t.objects[ref].status == Error
            && t.objects[ref].error == Some(ErrorText(env.isProd,
                 if MissingBinary(extracted.error) then FfmpegMissing else extracted.error)))
  {
    var ref := s.workers[id].ref;
    var upload := s.objects[ref].audioPath;
    if extracted.Success? {
      var disk := Unlink(s.disk[Mp3Path(id) := extracted.value], upload);
      assert upload != "" ==> upload !in disk;
      assert upload != Mp3Path(id) ==> disk[Mp3Path(id)] == extracted.value;
    }
  }

  /** Downloading a link's audio: on success the audio is written to the
      record's audio path and the worker goes on; on failure the job fails
      with the error as `DownloadError` reports it. */
  lemma DownloadResult(env: Env, s: State, id: string, downloaded: Result<string, JsError>, now: real,
                       catchPersist: Option<JsError>)
    requires Inv(s) && RunningIn(s, id)
    requires s.workers[id].job.UrlJob? && s.workers[id].stage == Started
    ensures var t := Download(env, s, id, downloaded, now, catchPersist);
      var ref := s.workers[id].ref;
      && (downloaded.Success? ==>
            t.disk == s.disk[Mp3Path(id) := downloaded.value] && t.objects == s.objects
            && t.workers == s.workers[id := Running(s.workers[id].job, ref, Prepared)])
      && (downloaded.Failure? ==>
            id !in t.workers && ref in t.objects && t.objects[ref].status == Error
            && t.objects[ref].error == Some(ErrorText(env.isProd, DownloadError(downloaded.error))))
  {
  }

  /** Transcribing: an unreadable audio file or a failed library call fails
      the job; a job cancelled or removed meanwhile ends with nothing
      written; otherwise the worker keeps the session's closure and
      transcript for the next step, and nothing else changes. */
  lemma TranscribeResult(env: Env, s: State, id: string, session: Result<Session, JsError>, now: real,
                         catchPersist: Option<JsError>)
    requires Inv(s) && RunningIn(s, id) && ReadyToTranscribe(s, id)
    ensures var t := Transcribe(env, s, id, session, now, catchPersist);
      var ref := s.workers[id].ref;
      var audio := ReadFile(s.disk, s.objects[ref].audioPath);
      && (audio.Failure? ==>
            id !in t.workers && t.objects[ref].status == Error
            && t.objects[ref].error == Some(ErrorText(env.isProd, audio.error)))
      && (audio.Success? && session.Failure? ==>
            id !in t.workers && t.objects[ref].status == Error
            && t.objects[ref].error == Some(ErrorText(env.isProd, session.error)))
      && (audio.Success? && session.Success? && (id in s.cancelled || id !in s.ingestions) ==>
            t == s.(workers := s.workers - {id}))
      && (audio.Success? && session.Success? && id !in s.cancelled && id in s.ingestions ==>
            t == s.(workers := s.workers[id := Running(s.workers[id].job, ref,
                      Transcribed(session.value.ask, session.value.transcriptText.GetOr("")))]))
  {
  }

  /** When the persist of "processing" fails, the worker is gone and the
      record stays "processing": no later step will finish it. */
  lemma StartPersistFailureStalls(env: Env, s: State, id: string, now: real, e: JsError)
    requires Inv(s) && id in s.workers && s.workers[id].Pending?
    requires id in s.ingestions && id !in s.cancelled
    ensures var t := Start(env, s, id, now, Some(e));
      id !in t.workers && Live(t, id).Some? && Live(t, id).value.status == Processing
      && t.disk == s.disk
  {
  }

  /** A finished job that was neither cancelled nor removed is "ready": its
      owner gets the transcript that was written, and questions go to the
      session's closure without rebuilding it. */
  lemma FinishedIsReady(env: Env, s: State, id: string, now: real, catchPersist: Option<JsError>,
                        rebuilt: Result<AskFn, JsError>)
    requires Inv(s) && RunningIn(s, id) && s.workers[id].stage.Transcribed?
    requires id in s.ingestions && id !in s.cancelled
    ensures var t := WriteTranscript(env, s, id, None, now, None, catchPersist);
      var owner := s.objects[s.workers[id].ref].ownerId;
      Get(t, owner, id).Some? && Get(t, owner, id).value.status == Ready
      && GetTranscriptText(t, owner, id) == Success(Some(s.workers[id].stage.text))
      && Ask(t, owner, id, rebuilt) == (t, Success(Some(s.workers[id].stage.ask)))
      && t.disk[RecordPath(id)] == env.stringify(Payload(Live(t, id).value))
  {
    var ref := s.workers[id].ref;
    assert s.ingestions[id] == ref;
    assert IngestionsDir + "/" + id + ".json" != IngestionsDir + "/" + id + ".txt" by {
      var a := IngestionsDir + "/" + id + ".json";
      assert a[|a| - 4] == 'j';
    }
  }

  /** When the persist of "ready" fails, the job ends in "error" but keeps
      the transcript path it had just set; the transcript is then no longer
      served, although its file is on disk. */
  lemma ReadyPersistFailure(env: Env, s: State, id: string, now: real, e: JsError,
                            catchPersist: Option<JsError>)
    requires Inv(s) && RunningIn(s, id) && s.workers[id].stage.Transcribed?
    requires id in s.ingestions && id !in s.cancelled
    ensures var t := WriteTranscript(env, s, id, None, now, Some(e), catchPersist);
      var r := Live(t, id).value;
      Live(t, id).Some? && r.status == Error && r.transcriptPath == Some(TranscriptFile(id))
      && r.ask.None? && r.error == Some(ErrorText(env.isProd, e))
      && GetTranscriptText(t, r.ownerId, id) == Success(None)
      && t.disk[TranscriptFile(id)] == s.workers[id].stage.text
  {
    var ref := s.workers[id].ref;
    assert s.ingestions[id] == ref;
  }

  /** A delete that lands while the transcript is being written leaves the
      transcript file behind: the worker had already passed its last
      cancellation check, writes the file, and nobody removes it. */
  lemma DeleteDuringWriteLeavesTranscript(env: Env, s: State, id: string, now: real,
                                          persist: Option<JsError>, catchPersist: Option<JsError>)
    requires Inv(s) && RunningIn(s, id) && s.workers[id].stage.Transcribed?
    ensures var t := WriteTranscript(env, Delete(s, id), id, None, now, persist, catchPersist);
      Live(t, id).None? && RecordPath(id) !in t.disk
      && TranscriptFile(id) in t.disk && t.disk[TranscriptFile(id)] == s.workers[id].stage.text
  {
    assert RecordPath(id) != TranscriptFile(id) by {
      var a := RecordPath(id);
      assert a[|a| - 4] == 'j';
    }
  }

  /** A closure rebuilt by `ask` is kept: the next question reuses it and
      nothing changes, whatever a rebuild would have returned. */
  lemma AskRebuildThenReuse(s: State, ownerId: string, id: string, rebuilt: Result<AskFn, JsError>,
                            again: Result<AskFn, JsError>)
    requires Inv(s)
    ensures var (t, res) := Ask(s, ownerId, id, rebuilt);
      res.Success? && res.value.Some? ==> Ask(t, ownerId, id, again) == (t, res)
  {
  }

  /** A job that failed answers no question and serves no transcript. */
  lemma FailedServesNothing(env: Env, s: State, id: string, e: JsError, now: real,
                            persist: Option<JsError>, rebuilt: Result<AskFn, JsError>)
    requires Inv(s) && RunningIn(s, id) && id in s.ingestions
    ensures var t := Fail(env, s, id, e, now, persist);
      var owner := s.objects[s.workers[id].ref].ownerId;
      Get(t, owner, id).Some? && Get(t, owner, id).value.status == Error
      && GetTranscriptText(t, owner, id) == Success(None)
      && Ask(t, owner, id, rebuilt) == (t, Success(None))
  {
  }

  /** After start-up the map holds, for every id found, the record of the
      last file listed with that id. */
  lemma InitialKeepsLast(env: Env, disk: Disk, files: seq<string>, id: string)
    ensures var s := Initial(env, disk, Some(files));
      var recs := LoadedRecords(env, disk, files);
      id in s.ingestions <==> exists i :: 0 <= i < |recs| && recs[i].id == id
    ensures var s := Initial(env, disk, Some(files));
      var recs := LoadedRecords(env, disk, files);
      id in s.ingestions ==>
        var i := s.ingestions[id];
        i < |recs| && Live(s, id) == Some(recs[i])
        && forall j :: i < j < |recs| ==> recs[j].id != id
  {
    var recs := LoadedRecords(env, disk, files);
    LatestIsLast(recs, id);
    var s := Initial(env, disk, Some(files));
    assert s.ingestions == Latest(recs) && s.objects == ObjectsOf(recs);
    if id in s.ingestions {
      var i := Latest(recs)[id];
      assert s.objects[i] == recs[i];
    }
  }
}

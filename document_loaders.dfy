/**
  * Turning an audio file or buffer into the one transcript document the
  * retrieval pipeline indexes, with an optional on-disk cache of the
  * transcription.  The file system is a map from path to contents; the
  * provider is a function of the file name and MIME type it is sent.
  */
module DocumentLoaders {
  import opened Wrappers
  import opened Text
  import opened Js
  import opened Transcription

  type Disk = map<string, string>

  /** The provider's answer for a file sent under a name and a MIME type. */
  type Provider = (string, string) -> Result<string, JsError>

  /** The last position of `c` in `s`. */
  function LastIndexOf(s: string, c: char): (r: Option<nat>)
    ensures r.Some? ==> r.value < |s| && s[r.value] == c && forall j :: r.value < j < |s| ==> s[j] != c
    ensures r.None? ==> forall j :: 0 <= j < |s| ==> s[j] != c
  {
    if s == [] then None
    else if s[|s| - 1] == c then Some(|s| - 1)
    else LastIndexOf(s[..|s| - 1], c)
  }

  /** The last occurrence found by scanning from the end. */
  lemma {:induction false} LastIndexOfAt(s: string, c: char, i: nat)
    requires i < |s| && s[i] == c && forall j :: i < j < |s| ==> s[j] != c
    ensures LastIndexOf(s, c) == Some(i)
  {
    if i < |s| - 1 {
      assert s[..|s| - 1][i] == c;
      LastIndexOfAt(s[..|s| - 1], c, i);
    }
  }

  function StripTrailingSlashes(s: string): (r: string)
    ensures r <= s
    ensures r != [] ==> r[|r| - 1] != '/'
  {
    if s != [] && s[|s| - 1] == '/' then StripTrailingSlashes(s[..|s| - 1]) else s
  }

  /** `path.basename(p)`: the last segment, trailing separators ignored. */
  function Basename(p: string): (r: string)
    ensures '/' !in r
  {
    var s := StripTrailingSlashes(p);
    match LastIndexOf(s, '/')
    case None => s
    case Some(i) => s[i + 1..]
  }

  /** `path.extname(p)`: from the last "." of the base name to its end; ""
      when there is no ".", when the name starts with its only "." (a dot
      file), and for "..". */
  function ExtName(p: string): (ext: string)
    ensures ext != [] ==> ext[0] == '.'
  {
    var name := Basename(p);
    match LastIndexOf(name, '.')
    case None => ""
    case Some(d) => if d == 0 || name == ".." then "" else name[d..]
  }

  const OctetStream := "application/octet-stream"

  /** `inferAudioMimeTypeFromPath` */
  function InferAudioMimeTypeFromPath(audioPath: string): string {
    var ext := ToLower(ExtName(audioPath));
    if ext == ".mp3" then "audio/mpeg"
    else if ext == ".wav" then "audio/wav"
    else if ext == ".m4a" then "audio/mp4"
    else if ext == ".mp4" then "audio/mp4"
    else if ext == ".webm" then "audio/webm"
    else if ext == ".ogg" then "audio/ogg"
    else OctetStream
  }

  /** The six known extensions, in any letter case, and nothing else. */
  lemma InferAudioMimeType(audioPath: string)
    ensures var ext := ToLower(ExtName(audioPath)); var m := InferAudioMimeTypeFromPath(audioPath);
      && (m == "audio/mpeg" <==> ext == ".mp3")
      && (m == "audio/wav" <==> ext == ".wav")
      && (m == "audio/mp4" <==> ext == ".m4a" || ext == ".mp4")
      && (m == "audio/webm" <==> ext == ".webm")
      && (m == "audio/ogg" <==> ext == ".ogg")
      && (m == OctetStream <==> ext !in {".mp3", ".wav", ".m4a", ".mp4", ".webm", ".ogg"})
  {
    var mimes := ["audio/mpeg", "audio/wav", "audio/mp4", "audio/webm", "audio/ogg", OctetStream];
    assert forall i, j :: 0 <= i < j < |mimes| ==> mimes[i] != mimes[j] by {
      assert mimes[0][8] == 'e' && mimes[1][8] == 'v' && mimes[2][8] == '4' && mimes[3][8] == 'b' && mimes[4][8] == 'g';
      assert |mimes[5]| == 24 && |mimes[0]| == 10 && |mimes[3]| == 10;
      assert mimes[5][8] == 'i';
    }
  }

  /** An upper-case extension in a directory is recognised. */
  lemma InferUpperCase()
    ensures InferAudioMimeTypeFromPath("uploads/talk.MP3") == "audio/mpeg"
  {
    var p := "uploads/talk.MP3";
    assert StripTrailingSlashes(p) == p;
    LastIndexOfAt(p, '/', 7);
    assert Basename(p) == "talk.MP3";
    LastIndexOfAt("talk.MP3", '.', 4);
    assert ExtName(p) == ".MP3";
    assert ToLower(".MP3") == ".mp3";
  }

  /** A dot file named like an extension has no extension. */
  lemma InferDotFile()
    ensures InferAudioMimeTypeFromPath("audio/.ogg") == OctetStream
  {
    var q := "audio/.ogg";
    assert StripTrailingSlashes(q) == q;
    LastIndexOfAt(q, '/', 5);
    assert Basename(q) == ".ogg";
    LastIndexOfAt(".ogg", '.', 0);
    assert ExtName(q) == "";
  }

  /** The parsed contents of a transcription cache file. */
  datatype CacheData = CacheData(text: string, segments: seq<Segment>, modelName: string)

  /** `value || fallback` for an optional string. */
  function Or(o: Option<string>, fallback: string): string {
    if o.Some? && o.value != "" then o.value else fallback
  }

  /** The one document made from transcription data (`null` data gives an
      empty text): the trimmed text, and the metadata of `buildAudioMetadata`. */
  function TranscriptDocument(audioPath: string, cachePath: Option<string>, data: Option<CacheData>): Document {
    var text := if data.Some? then Trim(data.value.text) else "";
    var segments := if data.Some? then data.value.segments else [];
    var model := if data.Some? && data.value.modelName != "" then data.value.modelName else DefaultModel;
    Document(text, BuildAudioMetadata(AudioMetadataOptions(audioPath, model, cachePath, Some(segments))))
  }

  /** `transcribeAudioToDocument`.  `parseCache` is `JSON.parse` of a cache
      file (an error where it throws or where `text` is not a string), and
      `stringifyCache` the JSON text written to it. */
  function TranscribeAudioToDocument(
    disk: Disk, audioPath: string, cachePath: Option<string>, forceRecompute: bool,
    parseCache: string -> Result<Option<CacheData>, JsError>, stringifyCache: CacheData -> string,
    apiKey: Option<string>, provider: Provider): Result<(seq<Document>, Disk), JsError>
  {
    if !forceRecompute && cachePath.Some? && cachePath.value != "" && cachePath.value in disk then
      var data :- parseCache(disk[cachePath.value]);
      Success(([TranscriptDocument(audioPath, cachePath, data)], disk))
    else if audioPath !in disk then Failure(Enoent(audioPath))
    else Recompute(disk, audioPath, cachePath, stringifyCache, apiKey,
                   provider(UploadName(audioPath), InferAudioMimeTypeFromPath(audioPath)))
  }

  /** The branch of `transcribeAudioToDocument` that transcribes, given the
      provider's answer: the result is written to the cache file when there
      is a cache path. */
  function Recompute(disk: Disk, audioPath: string, cachePath: Option<string>, stringifyCache: CacheData -> string,
                     apiKey: Option<string>, answer: Result<string, JsError>): Result<(seq<Document>, Disk), JsError>
  {
    var result :- TranscribeFileToText(apiKey, answer, DefaultModel);
    var data := CacheData(result.text, [], result.model);
    var disk' := if cachePath.Some? && cachePath.value != "" then disk[cachePath.value := stringifyCache(data)] else disk;
    Success(([TranscriptDocument(audioPath, cachePath, Some(data))], disk'))
  }

  /** A cache hit neither calls the provider nor needs the key, and writes
      nothing. */
  lemma CacheHitSkipsProvider(
    disk: Disk, audioPath: string, cachePath: Option<string>,
    parseCache: string -> Result<Option<CacheData>, JsError>, stringifyCache: CacheData -> string,
    apiKey1: Option<string>, provider1: Provider, apiKey2: Option<string>, provider2: Provider)
    requires cachePath.Some? && cachePath.value != "" && cachePath.value in disk
    ensures TranscribeAudioToDocument(disk, audioPath, cachePath, false, parseCache, stringifyCache, apiKey1, provider1)
         == TranscribeAudioToDocument(disk, audioPath, cachePath, false, parseCache, stringifyCache, apiKey2, provider2)
    ensures var r := TranscribeAudioToDocument(disk, audioPath, cachePath, false, parseCache, stringifyCache, apiKey1, provider1);
      r.Success? ==> r.value.1 == disk
  {
  }

  /** The name a file is sent to the provider under: its base name, or "audio". */
  function UploadName(audioPath: string): string {
    Or(Some(Basename(audioPath)), "audio")
  }

  /** Without the cache, the provider is sent the file's base name (or
      "audio") and its inferred MIME type. */
  lemma RecomputeCallsProvider(
    disk: Disk, audioPath: string, cachePath: Option<string>, forceRecompute: bool,
    parseCache: string -> Result<Option<CacheData>, JsError>, stringifyCache: CacheData -> string,
    apiKey: Option<string>, provider: Provider)
    requires forceRecompute || cachePath.None? || cachePath.value == "" || cachePath.value !in disk
    requires audioPath in disk
    ensures TranscribeAudioToDocument(disk, audioPath, cachePath, forceRecompute, parseCache, stringifyCache, apiKey, provider)
         == Recompute(disk, audioPath, cachePath, stringifyCache, apiKey, provider(UploadName(audioPath), InferAudioMimeTypeFromPath(audioPath)))
  {
  }

  /** With a key, the transcription fails exactly when the provider does;
      otherwise its one document holds the provider's text trimmed and names
      the default model. */
  lemma RecomputeDocument(disk: Disk, audioPath: string, cachePath: Option<string>, stringifyCache: CacheData -> string,
                          apiKey: Option<string>, answer: Result<string, JsError>)
    requires apiKey.Some? && apiKey.value != ""
    ensures var r := Recompute(disk, audioPath, cachePath, stringifyCache, apiKey, answer);
      && (r.Success? <==> answer.Success?)
      && (answer.Success? ==> |r.value.0| == 1 && r.value.0[0].pageContent == Trim(answer.value)
                              && Get(r.value.0[0].metadata, "whisper_model") == Some(Str(DefaultModel)))
  {
    if answer.Success? {
      var t := Trim(answer.value);
      assert TranscribeFileToText(apiKey, answer, DefaultModel) == Success(TranscriptionResult(t, DefaultModel));
      var r := Recompute(disk, audioPath, cachePath, stringifyCache, apiKey, answer);
      var doc := TranscriptDocument(audioPath, cachePath, Some(CacheData(t, [], DefaultModel)));
      assert r.value.0 == [doc];
      FreshTranscript(audioPath, cachePath, answer.value);
      assert doc.pageContent == t;
    }
  }

  /** After a successful transcription the cache file holds its text under
      the default model, exactly when a cache path is given; no other file
      changes. */
  lemma RecomputeWritesCache(disk: Disk, audioPath: string, cachePath: Option<string>, stringifyCache: CacheData -> string,
                             apiKey: Option<string>, answer: Result<string, JsError>)
    requires apiKey.Some? && apiKey.value != "" && answer.Success?
    ensures Recompute(disk, audioPath, cachePath, stringifyCache, apiKey, answer).Success?
    ensures Recompute(disk, audioPath, cachePath, stringifyCache, apiKey, answer).value.1
         == if cachePath.Some? && cachePath.value != ""
            then disk[cachePath.value := stringifyCache(CacheData(Trim(answer.value), [], DefaultModel))]
            else disk
  {
  }

  /** The document made from a fresh transcription. */
  lemma FreshTranscript(audioPath: string, cachePath: Option<string>, answer: string)
    ensures var d := TranscriptDocument(audioPath, cachePath, Some(CacheData(Trim(answer), [], DefaultModel)));
      d.pageContent == Trim(answer) && Get(d.metadata, "whisper_model") == Some(Str(DefaultModel))
  {
    TrimTwice(answer);
    AudioMetadataValues(AudioMetadataOptions(audioPath, DefaultModel, cachePath, Some([])));
  }

  /** Trimming is idempotent. */
  lemma TrimTwice(s: string)
    ensures Trim(Trim(s)) == Trim(s)
  {
    TrimUnchanged(Trim(s));
  }

  /** `transcribeAudioBufferToDocument`, its optional settings `None` when absent. */
  function TranscribeAudioBufferToDocument(
    apiKey: Option<string>, provider: Provider,
    audioSource: Option<string>, fileName: Option<string>, mimeType: Option<string>): Result<seq<Document>, JsError>
  {
    var name := Or(fileName, "audio");
    var source := Or(audioSource, name);
    var result :- TranscribeFileToText(apiKey, provider(name, Or(mimeType, OctetStream)), DefaultModel);
    Success([Document(result.text, BuildAudioMetadata(AudioMetadataOptions(source, result.model, None, None)))])
  }

  /** `ingestAudioFromBuffer`: the defaults are filled in before the call. */
  function IngestAudioFromBuffer(
    apiKey: Option<string>, provider: Provider,
    audioSource: Option<string>, audioFileName: Option<string>, audioMimeType: Option<string>): Result<seq<Document>, JsError>
  {
    TranscribeAudioBufferToDocument(apiKey, provider,
      Some(Or(audioSource, Or(audioFileName, "audio"))), Some(Or(audioFileName, "audio")), Some(Or(audioMimeType, OctetStream)))
  }

  /** The provider is sent the file name or "audio" and the MIME type or
      "application/octet-stream"; the one document's source is the audio
      source, else the file name, else "audio". */
  lemma IngestAudioFromBufferDefaults(
    apiKey: Option<string>, provider: Provider,
    audioSource: Option<string>, audioFileName: Option<string>, audioMimeType: Option<string>)
    requires apiKey.Some? && apiKey.value != ""
    ensures var name := Or(audioFileName, "audio");
      var answer := provider(name, Or(audioMimeType, OctetStream));
      var r := IngestAudioFromBuffer(apiKey, provider, audioSource, audioFileName, audioMimeType);
      && (r.Success? <==> answer.Success?)
      && (r.Success? ==> |r.value| == 1 && r.value[0].pageContent == Trim(answer.value)
                         && r.value[0].metadata == BuildAudioMetadata(AudioMetadataOptions(Or(audioSource, name), DefaultModel, None, None)))
  {
    var name := Or(audioFileName, "audio");
    assert Or(Some(name), "audio") == name;
    assert Or(Some(Or(audioMimeType, OctetStream)), OctetStream) == Or(audioMimeType, OctetStream);
    assert Or(Some(Or(audioSource, name)), name) == Or(audioSource, name);
  }

  /** A buffer's transcript document carries only the four fixed properties,
      its source among them. */
  lemma BufferMetadata(source: string)
    ensures var md := BuildAudioMetadata(AudioMetadataOptions(source, DefaultModel, None, None));
      Keys(md) == BaseKeys && Get(md, "source") == Some(Str(source))
  {
    AudioMetadataValues(AudioMetadataOptions(source, DefaultModel, None, None));
    AudioMetadataKeys(AudioMetadataOptions(source, DefaultModel, None, None));
  }

  /** `ingestAudioFromPath`: a missing audio file fails before anything
      else; `forceAudioRecompute` defaults to false. */
  function IngestAudioFromPath(
    disk: Disk, audioPath: string, transcriptCachePath: Option<string>, forceAudioRecompute: Option<bool>,
    parseCache: string -> Result<Option<CacheData>, JsError>, stringifyCache: CacheData -> string,
    apiKey: Option<string>, provider: Provider): Result<(seq<Document>, Disk), JsError>
  {
    if audioPath !in disk then Failure(JsError("Error", "Audio file not found at " + audioPath, None))
    else TranscribeAudioToDocument(disk, audioPath, transcriptCachePath, forceAudioRecompute.GetOr(false),
                                   parseCache, stringifyCache, apiKey, provider)
  }

  /** The path variant fails exactly for a missing file or a failed
      transcription, and otherwise yields exactly one document. */
  lemma IngestAudioFromPathResult(
    disk: Disk, audioPath: string, transcriptCachePath: Option<string>, forceAudioRecompute: Option<bool>,
    parseCache: string -> Result<Option<CacheData>, JsError>, stringifyCache: CacheData -> string,
    apiKey: Option<string>, provider: Provider)
    ensures var r := IngestAudioFromPath(disk, audioPath, transcriptCachePath, forceAudioRecompute, parseCache, stringifyCache, apiKey, provider);
      && (audioPath !in disk ==> r == Failure(JsError("Error", "Audio file not found at " + audioPath, None)))
      && (r.Success? ==> |r.value.0| == 1 && Get(r.value.0[0].metadata, "source") == Some(Str(audioPath)))
  {
    var r := IngestAudioFromPath(disk, audioPath, transcriptCachePath, forceAudioRecompute, parseCache, stringifyCache, apiKey, provider);
    var force := forceAudioRecompute.GetOr(false);
    if r.Success? {
      if !force && transcriptCachePath.Some? && transcriptCachePath.value != "" && transcriptCachePath.value in disk {
        var data := parseCache(disk[transcriptCachePath.value]).value;
        assert r.value.0 == [TranscriptDocument(audioPath, transcriptCachePath, data)];
        SourceOfTranscript(audioPath, transcriptCachePath, data);
      } else {
        var answer := provider(UploadName(audioPath), InferAudioMimeTypeFromPath(audioPath));
        RecomputeCallsProvider(disk, audioPath, transcriptCachePath, force, parseCache, stringifyCache, apiKey, provider);
        var data := CacheData(Trim(answer.value), [], DefaultModel);
        assert r.value.0 == [TranscriptDocument(audioPath, transcriptCachePath, Some(data))];
        SourceOfTranscript(audioPath, transcriptCachePath, Some(data));
      }
    }
  }

  lemma SourceOfTranscript(audioPath: string, cachePath: Option<string>, data: Option<CacheData>)
    ensures Get(TranscriptDocument(audioPath, cachePath, data).metadata, "source") == Some(Str(audioPath))
  {
    var text := if data.Some? then Trim(data.value.text) else "";
    var segments := if data.Some? then data.value.segments else [];
    var model := if data.Some? && data.value.modelName != "" then data.value.modelName else DefaultModel;
    AudioMetadataValues(AudioMetadataOptions(audioPath, model, cachePath, Some(segments)));
  }
}

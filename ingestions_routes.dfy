/**
  * The upload side of the ingestion routes: the name an uploaded file is
  * stored under, and the filter that decides which uploads are accepted.
  * The multipart middleware itself, the fresh UUID and the routing table
  * are not modelled.
  */
module IngestionsRoutes {
  import opened Wrappers
  import opened Text
  import opened Js
  import DocumentLoaders

  const MaxFileNameLen := 160
  const DefaultFileName := "audio"

  /** `sanitizeFileName`: every run of characters outside `[a-zA-Z0-9._-]`
      becomes one "_", the result is cut to 160 characters, and an empty
      result becomes "audio". */
  function SanitizeFileName(name: string): string {
    var collapsed := CollapseRuns(name, NonFileNameChar, '_');
    var cut := if |collapsed| > MaxFileNameLen then collapsed[..MaxFileNameLen] else collapsed;
    if cut == "" then DefaultFileName else cut
  }

  /** The name under which multer stores an upload: a fresh id, a dash and
      the sanitised original name. */
  function StoredFileName(uuid: string, originalName: string): string {
    uuid + "-" + SanitizeFileName(originalName)
  }

  /** A non-empty name of allowed characters only. */
  predicate IsSafeName(s: string) {
    s != [] && forall i :: 0 <= i < |s| ==> IsFileNameChar(s[i])
  }

  /** The result is a non-empty name of allowed characters, at most 160
      long; it is "audio" for an empty name and otherwise the collapsed name
      cut to 160 characters. */
  lemma SanitizeFileNameResult(name: string)
    ensures IsSafeName(SanitizeFileName(name))
    ensures |SanitizeFileName(name)| <= MaxFileNameLen
    ensures name == "" ==> SanitizeFileName(name) == DefaultFileName
    ensures name != "" ==> StartsWith(CollapseRuns(name, NonFileNameChar, '_'), SanitizeFileName(name))
    ensures name != "" ==> var collapsed := CollapseRuns(name, NonFileNameChar, '_');
      SanitizeFileName(name) == collapsed[..if |collapsed| > MaxFileNameLen then MaxFileNameLen else |collapsed|]
  {
    var collapsed := CollapseRuns(name, NonFileNameChar, '_');
    CollapseShape(name, NonFileNameChar, '_');
    var r := SanitizeFileName(name);
    if name == "" {
      assert r == "audio";
      assert forall i :: 0 <= i < 5 ==> 'a' <= r[i] <= 'z';
    } else {
      assert collapsed != [];
      assert forall i :: 0 <= i < |r| ==> r[i] == collapsed[i];
    }
  }

  /** A safe name of at most 160 characters is kept as it is. */
  lemma SanitizeKeepsSafeName(name: string)
    requires IsSafeName(name) && |name| <= MaxFileNameLen
    ensures SanitizeFileName(name) == name
  {
    CollapseNoClass(name, NonFileNameChar, '_');
  }

  /** Sanitising twice is sanitising once. */
  lemma SanitizeIdempotent(name: string)
    ensures SanitizeFileName(SanitizeFileName(name)) == SanitizeFileName(name)
  {
    SanitizeFileNameResult(name);
    SanitizeKeepsSafeName(SanitizeFileName(name));
  }

  /** Leading characters of a class are dropped up to the first character
      outside it. */
  lemma {:induction false} DropRun(run: string, rest: string, cls: CharClass)
    requires forall i :: 0 <= i < |run| ==> InClass(run[i], cls)
    requires rest == [] || !InClass(rest[0], cls)
    ensures DropWhile(run + rest, cls) == rest
  {
    if run == [] {
      assert run + rest == rest;
    } else {
      assert (run + rest)[1..] == run[1..] + rest;
      DropRun(run[1..], rest, cls);
    }
  }

  /** Collapsing a run between two parts free of the class. */
  lemma CollapseAroundRun(a: string, run: string, b: string, cls: CharClass, rep: char)
    requires forall i :: 0 <= i < |a| ==> !InClass(a[i], cls)
    requires forall i :: 0 <= i < |b| ==> !InClass(b[i], cls)
    requires run != [] && forall i :: 0 <= i < |run| ==> InClass(run[i], cls)
    ensures CollapseRuns(a + (run + b), cls, rep) == a + [rep] + b
  {
    assert (run + b)[0] == run[0];
    CollapseClassHead(run + b, cls, rep);
    DropRun(run, b, cls);
    CollapseNoClass(b, cls, rep);
    assert CollapseRuns(run + b, cls, rep) == [rep] + b;
    CollapseAppend(a, run + b, cls, rep);
    CollapseNoClass(a, cls, rep);
    assert a + ([rep] + b) == a + [rep] + b;
  }

  /** A run of other characters between two safe parts becomes one "_". */
  lemma SanitizeCollapsesRun(a: string, run: string, b: string)
    requires forall i :: 0 <= i < |a| ==> IsFileNameChar(a[i])
    requires forall i :: 0 <= i < |b| ==> IsFileNameChar(b[i])
    requires run != [] && forall i :: 0 <= i < |run| ==> !IsFileNameChar(run[i])
    requires |a| + 1 + |b| <= MaxFileNameLen
    ensures SanitizeFileName(a + run + b) == a + "_" + b
  {
    assert a + run + b == a + (run + b);
    CollapseAroundRun(a, run, b, NonFileNameChar, '_');
  }

  const AllowedAudioExt: seq<string> := [".mp3", ".wav", ".m4a", ".aac", ".ogg", ".webm"]
  const AllowedVideoExt: seq<string> := [".mp4", ".mov", ".mkv", ".webm"]

  /** `isAllowedUpload`: an audio or video MIME type, or an extension of
      either allow-list in any letter case. */
  predicate IsAllowedUpload(originalName: string, mimeType: string) {
    var ext := ToLower(DocumentLoaders.ExtName(originalName));
    if StartsWith(mimeType, "audio/") then true
    else if StartsWith(mimeType, "video/") then true
    else if ext in AllowedAudioExt then true
    else ext in AllowedVideoExt
  }

  /** The multer file filter: an accepted upload, or the error it fails with. */
  function FileFilter(originalName: string, mimeType: string): (r: Result<bool, JsError>) {
    if IsAllowedUpload(originalName, mimeType) then Success(true)
    else Failure(JsError("Error", "Unsupported file type", None))
  }

  /** Any audio or video MIME type is accepted whatever the name; otherwise
      the upload is accepted exactly when its lower-cased extension is in one
      of the allow-lists, and the filter fails with the fixed message. */
  lemma FileFilterResult(originalName: string, mimeType: string)
    ensures StartsWith(mimeType, "audio/") || StartsWith(mimeType, "video/") ==> FileFilter(originalName, mimeType) == Success(true)
    ensures !StartsWith(mimeType, "audio/") && !StartsWith(mimeType, "video/") ==>
      var ext := ToLower(DocumentLoaders.ExtName(originalName));
      (FileFilter(originalName, mimeType).Success? <==> ext in AllowedAudioExt || ext in AllowedVideoExt)
    ensures FileFilter(originalName, mimeType).Failure? ==> FileFilter(originalName, mimeType).error.message == "Unsupported file type"
    ensures FileFilter(originalName, mimeType).Success? ==> FileFilter(originalName, mimeType).value
  {
  }

  /** An upper-case ".MOV" with a generic MIME type is accepted. */
  lemma UpperCaseVideoAccepted()
    ensures IsAllowedUpload("clip.MOV", "application/octet-stream")
  {
    var p := "clip.MOV";
    assert DocumentLoaders.StripTrailingSlashes(p) == p;
    assert forall j :: 0 <= j < |p| ==> p[j] != '/';
    assert DocumentLoaders.Basename(p) == p;
    DocumentLoaders.LastIndexOfAt(p, '.', 4);
    assert DocumentLoaders.ExtName(p) == ".MOV";
    assert ToLower(".MOV") == ".mov" == AllowedVideoExt[1];
  }

  /** A text file is refused. */
  lemma TextFileRefused()
    ensures !IsAllowedUpload("notes.txt", "text/plain")
  {
    var p := "notes.txt";
    assert DocumentLoaders.StripTrailingSlashes(p) == p;
    assert forall j :: 0 <= j < |p| ==> p[j] != '/';
    DocumentLoaders.LastIndexOfAt(p, '.', 5);
    assert DocumentLoaders.ExtName(p) == ".txt";
    assert ToLower(".txt") == ".txt";
    assert forall e :: e in AllowedAudioExt || e in AllowedVideoExt ==> e[1] != 't';
    assert "text/plain"[0] != 'a' && "text/plain"[0] != 'v';
  }
}

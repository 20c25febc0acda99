/**
  * Downloading a video's audio as MP3 with `yt-dlp`: the output template
  * handed to the tool, the arguments of each attempt, the single retry with
  * another player client after an HTTP 403, and the test for a missing
  * binary.  Running the process and checking the file are parameters.
  */
module YtDlp {
  import opened Wrappers
  import opened Text
  import opened Js

  const ExtPlaceholder := ".%(ext)s"
  const Forbidden := "HTTP Error 403"

  /** The output template: a trailing ".mp3" becomes ".%(ext)s", anything
      else gets ".%(ext)s" appended, so that the tool picks the extension. */
  function OutputTemplate(outputPath: string): string {
    if EndsWith(outputPath, ".mp3") then outputPath[..|outputPath| - 4] + ExtPlaceholder
    else outputPath + ExtPlaceholder
  }

  /** With the extension the tool fills in, a path ending in ".mp3" is
      written where the caller expects it; any other path gets ".mp3" after
      its own name. */
  lemma OutputTemplateResult(outputPath: string)
    ensures EndsWith(OutputTemplate(outputPath), ExtPlaceholder)
    ensures var stem := OutputTemplate(outputPath)[..|OutputTemplate(outputPath)| - |ExtPlaceholder|];
      && (EndsWith(outputPath, ".mp3") ==> stem + ".mp3" == outputPath)
      && (!EndsWith(outputPath, ".mp3") ==> stem == outputPath)
  {
    var t := OutputTemplate(outputPath);
    assert t[|t| - |ExtPlaceholder|..] == ExtPlaceholder;
    if EndsWith(outputPath, ".mp3") {
      assert outputPath == outputPath[..|outputPath| - 4] + outputPath[|outputPath| - 4..];
    }
  }

  /** The suffix test is case-sensitive: "A.MP3" keeps its own extension and
      the tool writes "A.MP3.mp3", not the path that is checked afterwards. */
  lemma UpperCaseSuffixKept()
    ensures OutputTemplate("A.MP3") == "A.MP3" + ExtPlaceholder
  {
    assert "A.MP3"[1..] != ".mp3";
  }

  /** The arguments of one attempt with the given player client. */
  function Args(client: string, template: string, url: string): seq<string> {
    ["--no-playlist", "--extractor-args", "youtube:player_client=" + client,
     "-x", "--audio-format", "mp3", "-o", template, url]
  }

  /** Running `yt-dlp` with some arguments: it exits 0, or fails with an
      error whose message carries its exit code and standard error. */
  type Run = seq<string> -> Result<(), JsError>

  /** `access` on a path: the file exists, or the error it fails with. */
  type Access = string -> Result<(), JsError>

  /** What `downloadYoutubeAudioToMp3` does: the argument lists it runs, in
      order, and how it ends. */
  function Download(url: string, outputPath: string, run: Run, access: Access): (seq<seq<string>>, Result<(), JsError>) {
    var template := OutputTemplate(outputPath);
    var first := Args("android", template, url);
    match run(first)
    case Success(_) => ([first], access(outputPath))
    case Failure(e) =>
      if Contains(e.message, Forbidden) then
        var second := Args("ios", template, url);
        match run(second)
        case Success(_) => ([first, second], access(outputPath))
        case Failure(e2) => ([first, second], Failure(e2))
      else ([first], Failure(e))
  }

  /** The android client is tried first; the ios client is tried once more,
      with the same template and URL, exactly when the first failure
      mentions an HTTP 403; the result is the file check after a successful
      attempt, and otherwise the last attempt's error. */
  lemma DownloadResult(url: string, outputPath: string, run: Run, access: Access)
    ensures var (attempts, r) := Download(url, outputPath, run, access);
      var template := OutputTemplate(outputPath);
      var first := Args("android", template, url);
      var second := Args("ios", template, url);
      && 1 <= |attempts| <= 2
      && attempts[0] == first
      && (|attempts| == 2 <==> run(first).Failure? && Contains(run(first).error.message, Forbidden))
      && (|attempts| == 2 ==> attempts[1] == second)
      && (run(attempts[|attempts| - 1]).Success? ==> r == access(outputPath))
      && (run(attempts[|attempts| - 1]).Failure? ==> r == Failure(run(attempts[|attempts| - 1]).error))
      && (r.Success? ==> access(outputPath).Success?)
  {
  }

  /** The two attempts differ only in the player client. */
  lemma RetryChangesOnlyClient(template: string, url: string)
    ensures |Args("android", template, url)| == |Args("ios", template, url)| == 9
    ensures forall i :: 0 <= i < 9 && i != 2 ==> Args("android", template, url)[i] == Args("ios", template, url)[i]
    ensures Args("android", template, url)[2] != Args("ios", template, url)[2]
  {
    var a := "youtube:player_client=android";
    var b := "youtube:player_client=ios";
    assert a[23] != b[23];
  }

  /** A 403 on both clients fails with the second error. */
  lemma DoubleForbiddenFails(url: string, outputPath: string, run: Run, access: Access)
    requires var t := OutputTemplate(outputPath);
      && run(Args("android", t, url)).Failure? && Contains(run(Args("android", t, url)).error.message, Forbidden)
      && run(Args("ios", t, url)).Failure?
    ensures Download(url, outputPath, run, access).1 == run(Args("ios", OutputTemplate(outputPath), url))
  {
  }

  /** What a `catch` clause receives: an error object, or any other value. */
  datatype Thrown = ThrownError(e: JsError) | ThrownValue(v: Value)

  /** `isYtDlpMissingError`: an object whose `code` is "ENOENT". */
  predicate IsYtDlpMissingError(t: Thrown) {
    match t
    case ThrownError(e) => e.code == Some("ENOENT")
    case ThrownValue(v) => v.Obj? && HasKey(v.fields, "code") && Get(v.fields, "code").value == Str("ENOENT")
  }

  /** Exactly an object with `code` equal to the string "ENOENT"; strings,
      `null` and other primitives never are. */
  lemma IsYtDlpMissingErrorResult(t: Thrown)
    ensures IsYtDlpMissingError(t) <==>
      (t.ThrownError? && t.e.code == Some("ENOENT"))
      || (t.ThrownValue? && t.v.Obj? && Get(t.v.fields, "code") == Some(Str("ENOENT")))
    ensures t.ThrownValue? && !t.v.Obj? ==> !IsYtDlpMissingError(t)
  {
  }
}

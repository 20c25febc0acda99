/**
  * The preview pane: which tab is shown, the transcripts and summaries
  * already fetched per ingestion, the loading flag, and the downloads.
  * Each request's outcome is a parameter; `downloadTextFile` is modelled
  * by the file it would write.
  */
module UsePreview {
  import opened Wrappers
  import opened Text
  import opened Js
  import Evaluation
  import opened UseIngestion

  datatype PreviewTab = TranscriptTab | SummaryTab | ChatTab

  const DefaultTab := TranscriptTab

  /** What `askIngestion` returns for the summary prompt. */
  datatype SummaryOut = SummaryOut(answer: string, evaluation: Option<Evaluation.EvaluationScores>)

  /** A file handed to the browser to save. */
  datatype Download = Download(fileName: string, text: string)

  /** A download handler either saves a file or shows a toast. */
  datatype Outcome = Saved(file: Download) | Shown(toast: Toast)

  /** `cache[id] ?? ""` */
  function Cached(cache: map<string, string>, id: string): string {
    if id in cache then cache[id] else ""
  }

  /** An id that is set and not empty. */
  predicate Present(ingestionId: Option<string>) {
    ingestionId.Some? && ingestionId.value != ""
  }

  class Preview {
    var previewTab: PreviewTab
    var transcriptCache: map<string, string>
    var summaryCache: map<string, string>
    var summaryEvalCache: map<string, Option<Evaluation.EvaluationScores>>
    var previewLoading: bool

    constructor()
      ensures previewTab == DefaultTab && !previewLoading
      ensures transcriptCache == map[] && summaryCache == map[] && summaryEvalCache == map[]
    {
      previewTab := DefaultTab;
      transcriptCache := map[];
      summaryCache := map[];
      summaryEvalCache := map[];
      previewLoading := false;
    }

    method SetPreviewTab(tab: PreviewTab)
      modifies this
      ensures previewTab == tab
      ensures transcriptCache == old(transcriptCache) && summaryCache == old(summaryCache)
      ensures summaryEvalCache == old(summaryEvalCache) && previewLoading == old(previewLoading)
    {
      previewTab := tab;
    }

    /** `resetPreviewTab`: back to the transcript. */
    method ResetPreviewTab()
      modifies this
      ensures previewTab == DefaultTab
      ensures transcriptCache == old(transcriptCache) && summaryCache == old(summaryCache)
      ensures summaryEvalCache == old(summaryEvalCache) && previewLoading == old(previewLoading)
    {
      previewTab := DefaultTab;
    }

    /** `ensureTranscriptLoaded`: a non-empty cached transcript is not
        fetched again; otherwise the fetched text is cached, or a toast says
        why not, and loading ends either way. */
    method EnsureTranscriptLoaded(id: string, fetched: Result<string, JsError>) returns (requested: bool, toast: Option<Toast>)
      modifies this
      ensures requested <==> Cached(old(transcriptCache), id) == ""
      ensures !requested ==> toast.None? && unchanged(this)
      ensures requested ==>
        && !previewLoading && previewTab == old(previewTab)
        && summaryCache == old(summaryCache) && summaryEvalCache == old(summaryEvalCache)
        && (fetched.Success? ==> transcriptCache == old(transcriptCache)[id := fetched.value] && toast.None?)
        && (fetched.Failure? ==>
              transcriptCache == old(transcriptCache) && toast == Some(Toast("Failed to load transcript", fetched.error.message)))
    {
      toast := None;
      if Cached(transcriptCache, id) != "" {
        return false, None;
      }
      requested := true;
      previewLoading := true;
      if fetched.Success? {
        transcriptCache := transcriptCache[id := fetched.value];
      } else {
        toast := Some(Toast("Failed to load transcript", fetched.error.message));
      }
      previewLoading := false;
    }

    /** `ensureSummaryLoaded`: as for the transcript, caching the answer and
        its evaluation together. */
    method EnsureSummaryLoaded(id: string, out: Result<SummaryOut, JsError>) returns (requested: bool, toast: Option<Toast>)
      modifies this
      ensures requested <==> Cached(old(summaryCache), id) == ""
      ensures !requested ==> toast.None? && unchanged(this)
      ensures requested ==>
        && !previewLoading && previewTab == old(previewTab) && transcriptCache == old(transcriptCache)
        && (out.Success? ==> summaryCache == old(summaryCache)[id := out.value.answer]
                             && summaryEvalCache == old(summaryEvalCache)[id := out.value.evaluation] && toast.None?)
        && (out.Failure? ==> summaryCache == old(summaryCache) && summaryEvalCache == old(summaryEvalCache)
                             && toast == Some(Toast("Failed to load summary", out.error.message)))
    {
      toast := None;
      if Cached(summaryCache, id) != "" {
        return false, None;
      }
      requested := true;
      previewLoading := true;
      if out.Success? {
        summaryCache := summaryCache[id := out.value.answer];
        summaryEvalCache := summaryEvalCache[id := out.value.evaluation];
      } else {
        toast := Some(Toast("Failed to load summary", out.error.message));
      }
      previewLoading := false;
    }

    /** The loading effect: with an id and a ready ingestion, the active
        tab's content is loaded; the chat tab loads nothing. */
    method AutoLoad(ingestionId: Option<string>, ready: bool,
                    transcript: Result<string, JsError>, summary: Result<SummaryOut, JsError>)
      returns (requested: bool, toast: Option<Toast>)
      modifies this
      ensures requested ==> Present(ingestionId) && ready && old(previewTab) != ChatTab
      ensures requested <==> (Present(ingestionId) && ready &&
        ((old(previewTab) == TranscriptTab && Cached(old(transcriptCache), ingestionId.value) == "")
         || (old(previewTab) == SummaryTab && Cached(old(summaryCache), ingestionId.value) == "")))
      ensures !requested ==> unchanged(this) && toast.None?
      ensures requested ==> !previewLoading
      ensures requested && old(previewTab) == TranscriptTab ==>
        transcriptCache == (if transcript.Success? then old(transcriptCache)[ingestionId.value := transcript.value] else old(transcriptCache))
      ensures requested && old(previewTab) == SummaryTab ==>
        summaryCache == (if summary.Success? then old(summaryCache)[ingestionId.value := summary.value.answer] else old(summaryCache))
      ensures requested && old(previewTab) == SummaryTab ==>
        summaryEvalCache == (if summary.Success? then old(summaryEvalCache)[ingestionId.value := summary.value.evaluation]
                             else old(summaryEvalCache))
      ensures previewTab == old(previewTab)
      ensures old(previewTab) != SummaryTab ==> summaryCache == old(summaryCache) && summaryEvalCache == old(summaryEvalCache)
      ensures old(previewTab) != TranscriptTab ==> transcriptCache == old(transcriptCache)
    {
      requested, toast := false, None;
      if !Present(ingestionId) || !ready {
        return;
      }
      if previewTab == TranscriptTab {
        requested, toast := EnsureTranscriptLoaded(ingestionId.value, transcript);
      } else if previewTab == SummaryTab {
        requested, toast := EnsureSummaryLoaded(ingestionId.value, summary);
      }
    }

    /** `previewContent` */
    function PreviewContent(ingestionId: Option<string>): string
      reads this
    {
      if Present(ingestionId) && previewTab == TranscriptTab then Cached(transcriptCache, ingestionId.value)
      else if Present(ingestionId) && previewTab == SummaryTab then Cached(summaryCache, ingestionId.value)
      else ""
    }

    /** `summaryEvaluation` */
    function SummaryEvaluation(ingestionId: Option<string>): Option<Evaluation.EvaluationScores>
      reads this
    {
      if Present(ingestionId) && previewTab == SummaryTab && ingestionId.value in summaryEvalCache then
        summaryEvalCache[ingestionId.value]
      else None
    }

    /** `downloadPreview`: the file it would save, if any. */
    function DownloadPreview(ingestionId: Option<string>): Option<Download>
      reads this
    {
      if !Present(ingestionId) || previewTab == ChatTab then None
      else
        var text := if previewTab == TranscriptTab then Cached(transcriptCache, ingestionId.value)
                    else Cached(summaryCache, ingestionId.value);
        if Trim(text) == "" then None
        else Some(Download(if previewTab == TranscriptTab then "transcript.txt" else "summary.txt", text))
    }
  }

  /** The preview shows the active tab's cached text for the current
      ingestion, and nothing without one, on the chat tab, or before it is
      fetched; an evaluation is shown only on the summary tab. */
  lemma PreviewContentResult(p: Preview, ingestionId: Option<string>)
    ensures !Present(ingestionId) || p.previewTab == ChatTab ==> p.PreviewContent(ingestionId) == ""
    ensures Present(ingestionId) && p.previewTab == TranscriptTab ==>
      p.PreviewContent(ingestionId) == (if ingestionId.value in p.transcriptCache then p.transcriptCache[ingestionId.value] else "")
    ensures Present(ingestionId) && p.previewTab == SummaryTab ==>
      p.PreviewContent(ingestionId) == (if ingestionId.value in p.summaryCache then p.summaryCache[ingestionId.value] else "")
    ensures p.SummaryEvaluation(ingestionId).Some? ==>
      p.previewTab == SummaryTab && Present(ingestionId) && ingestionId.value in p.summaryEvalCache
  {
  }

  /** The file saved is what the preview shows, named after the tab; nothing
      is saved without an ingestion, on the chat tab, or for blank text. */
  lemma DownloadPreviewResult(p: Preview, ingestionId: Option<string>)
    ensures p.DownloadPreview(ingestionId).None? <==>
      !Present(ingestionId) || p.previewTab == ChatTab || Trim(p.PreviewContent(ingestionId)) == ""
    ensures p.DownloadPreview(ingestionId).Some? ==>
      && p.DownloadPreview(ingestionId).value.text == p.PreviewContent(ingestionId)
      && p.DownloadPreview(ingestionId).value.fileName == (if p.previewTab == TranscriptTab then "transcript.txt" else "summary.txt")
  {
  }

  /** The id a download handler works on: a string argument, even an empty
      one, and otherwise the current ingestion. */
  function TargetId(target: Value, ingestionId: Option<string>): string {
    if target.Str? then target.s
    else if ingestionId.Some? then ingestionId.value
    else ""
  }

  /** `handleDownloadTranscript`, with the outcome of the fetch. */
  function DownloadTranscript(target: Value, ingestionId: Option<string>, fetched: Result<string, JsError>): Outcome {
    if TargetId(target, ingestionId) == "" then Shown(Toast("Not ready", "No transcript is available yet."))
    else match fetched
      case Success(text) => Saved(Download("transcript.txt", text))
      case Failure(e) => Shown(Toast("Download failed", e.message))
  }

  /** `handleDownloadSummary`, with the outcome of the summary request. */
  function DownloadSummary(target: Value, ingestionId: Option<string>, out: Result<SummaryOut, JsError>): Outcome {
    if TargetId(target, ingestionId) == "" then Shown(Toast("Not ready", "No summary is available yet."))
    else match out
      case Success(o) => Saved(Download("summary.txt", o.answer))
      case Failure(e) => Shown(Toast("Summary failed", e.message))
  }

  /** A string argument is used over the current ingestion; with no id at
      all nothing is requested and "Not ready" is shown; otherwise the
      fetched text is saved, whatever it is, or the error is shown. */
  lemma DownloadHandlersResult(target: Value, ingestionId: Option<string>,
                               fetched: Result<string, JsError>, out: Result<SummaryOut, JsError>)
    ensures target.Str? ==> TargetId(target, ingestionId) == target.s
    ensures !target.Str? ==> TargetId(target, ingestionId) == (if ingestionId.Some? then ingestionId.value else "")
    ensures TargetId(target, ingestionId) == "" ==>
      DownloadTranscript(target, ingestionId, fetched) == Shown(Toast("Not ready", "No transcript is available yet."))
      && DownloadSummary(target, ingestionId, out) == Shown(Toast("Not ready", "No summary is available yet."))
    ensures TargetId(target, ingestionId) != "" && fetched.Success? ==>
      DownloadTranscript(target, ingestionId, fetched) == Saved(Download("transcript.txt", fetched.value))
    ensures TargetId(target, ingestionId) != "" && out.Success? ==>
      DownloadSummary(target, ingestionId, out) == Saved(Download("summary.txt", out.value.answer))
    ensures TargetId(target, ingestionId) != "" && fetched.Failure? ==>
      DownloadTranscript(target, ingestionId, fetched) == Shown(Toast("Download failed", fetched.error.message))
    ensures TargetId(target, ingestionId) != "" && out.Failure? ==>
      DownloadSummary(target, ingestionId, out) == Shown(Toast("Summary failed", out.error.message))
  {
  }

  /** A fetched transcript is shown at once and not fetched again. */
  method LoadedTranscriptIsShown(id: string, text: string) returns (shown: string, again: bool)
    requires id != "" && text != ""
    ensures shown == text && !again
  {
    var p := new Preview();
    var requested, toast := p.AutoLoad(Some(id), true, Success(text), Failure(JsError("Error", "", None)));
    shown := p.PreviewContent(Some(id));
    again, toast := p.AutoLoad(Some(id), true, Success("other"), Failure(JsError("Error", "", None)));
  }

  /** An empty transcript counts as not loaded: it is fetched again. */
  method EmptyTranscriptRefetched(id: string) returns (again: bool)
    requires id != ""
    ensures again
  {
    var p := new Preview();
    var requested, toast := p.EnsureTranscriptLoaded(id, Success(""));
    again, toast := p.EnsureTranscriptLoaded(id, Success(""));
  }
}

/**
  * The page controller: how the page reacts to each poll of a processing
  * ingestion, opening the chat, resetting, and whether the upload box sits
  * in the middle of the page.  It drives the upload state, the preview and
  * the history list together.
  */
module UseMainController {
  import opened Wrappers
  import opened UseIngestion
  import opened UsePreview
  import opened HistoryStorage

  /** The server's status of an ingestion, as the client reads it. */
  datatype IngestionStatus = Queued | ProcessingStatus | Ready | Failed

  /** The last successful poll: the status and the record's error. */
  datatype PollStatus = PollStatus(status: IngestionStatus, error: Option<string>)

  /** What the poll effect does. */
  datatype Reaction =
    | NoReaction
    | BackToUpload(toast: Toast)
    | ToResults(item: HistoryItem)

  /** The poll effect: nothing unless an ingestion is processing; a polling
      error first sends the page back; then a ready ingestion shows its
      results and enters the history, a failed one sends the page back, and
      any other status waits. */
  function PollReaction(appState: AppState, ingestionId: Option<string>, pollError: Option<string>,
                        pollStatus: Option<PollStatus>, fileName: string, isUrl: bool, now: real): Reaction {
    if appState != Processing || !Present(ingestionId) then NoReaction
    else if pollError.Some? && pollError.value != "" then BackToUpload(Toast("Connection error", pollError.value))
    else if pollStatus.None? then NoReaction
    else if pollStatus.value.status == Ready then
      ToResults(HistoryItem(ingestionId.value, if fileName != "" then fileName else "audio", isUrl, now))
    else if pollStatus.value.status == Failed then
      var e := pollStatus.value.error;
      BackToUpload(Toast("Processing failed", if e.Some? && e.value != "" then e.value else "Unknown error."))
    else NoReaction
  }

  /** Only a processing page with an ingestion reacts; an error of the poll
      wins over any status; results come exactly for a ready status, and the
      history entry names the ingestion, with "audio" for an empty name. */
  lemma PollReactionResult(appState: AppState, ingestionId: Option<string>, pollError: Option<string>,
                           pollStatus: Option<PollStatus>, fileName: string, isUrl: bool, now: real)
    ensures var r := PollReaction(appState, ingestionId, pollError, pollStatus, fileName, isUrl, now);
      && (appState != Processing || !Present(ingestionId) ==> r == NoReaction)
      && (appState == Processing && Present(ingestionId) && pollError.Some? && pollError.value != "" ==>
            r == BackToUpload(Toast("Connection error", pollError.value)))
      && (r.ToResults? <==> appState == Processing && Present(ingestionId) && (pollError.None? || pollError.value == "")
                            && pollStatus.Some? && pollStatus.value.status == Ready)
      && (r.ToResults? ==> r.item.ingestionId == ingestionId.value && r.item.fileName != "" && r.item.isUrl == isUrl
                           && (fileName != "" ==> r.item.fileName == fileName))
      && (r.BackToUpload? ==> appState == Processing && (pollError.Some? || pollStatus.value.status == Failed))
      && ((pollStatus.Some? && (pollStatus.value.status == Queued || pollStatus.value.status == ProcessingStatus)
           && (pollError.None? || pollError.value == "")) ==> r == NoReaction)
  {
  }

  /** The poll effect applied to the page; returns the new history and the
      toast shown, if any. */
  method OnPoll(flow: IngestionFlow, preview: Preview, history: seq<HistoryItem>,
                pollError: Option<string>, pollStatus: Option<PollStatus>, now: real)
    returns (newHistory: seq<HistoryItem>, toast: Option<Toast>)
    modifies flow, preview
    ensures var r := PollReaction(old(flow.appState), old(flow.ingestionId), pollError, pollStatus, old(flow.fileName), old(flow.isUrl), now);
      && (r == NoReaction ==> newHistory == history && toast.None? && unchanged(flow) && unchanged(preview))
      && (r.BackToUpload? ==> newHistory == history && toast == Some(r.toast) && flow.appState == UploadState
                              && flow.ingestionId.None? && unchanged(preview))
      && (r.ToResults? ==> newHistory == Upsert(history, r.item) && toast.None? && flow.appState == Results
                           && flow.ingestionId == old(flow.ingestionId) && preview.previewTab == DefaultTab
                           && preview.transcriptCache == old(preview.transcriptCache) && preview.summaryCache == old(preview.summaryCache)
                           && preview.summaryEvalCache == old(preview.summaryEvalCache) && preview.previewLoading == old(preview.previewLoading))
      && flow.fileName == old(flow.fileName) && flow.isUrl == old(flow.isUrl)
  {
    var r := PollReaction(flow.appState, flow.ingestionId, pollError, pollStatus, flow.fileName, flow.isUrl, now);
    newHistory, toast := history, None;
    match r
    case NoReaction =>
    case BackToUpload(t) =>
      toast := Some(t);
      flow.TransitionToUpload();
    case ToResults(item) =>
      flow.TransitionToResults();
      preview.ResetPreviewTab();
      newHistory := Upsert(history, item);
  }

  /** `isCenteredStage` */
  predicate IsCenteredStage(appState: AppState, history: seq<HistoryItem>) {
    (appState == UploadState || appState == Processing) && |history| == 0
  }

  /** After results arrive the page is never centred, and the ingestion heads
      the history. */
  lemma ResultsNotCentered(appState: AppState, ingestionId: Option<string>, pollError: Option<string>,
                           pollStatus: Option<PollStatus>, fileName: string, isUrl: bool, now: real,
                           history: seq<HistoryItem>)
    requires PollReaction(appState, ingestionId, pollError, pollStatus, fileName, isUrl, now).ToResults?
    ensures var item := PollReaction(appState, ingestionId, pollError, pollStatus, fileName, isUrl, now).item;
      && !IsCenteredStage(Results, Upsert(history, item))
      && Upsert(history, item)[0].ingestionId == ingestionId.value
  {
    var item := PollReaction(appState, ingestionId, pollError, pollStatus, fileName, isUrl, now).item;
    UpsertResult(history, item);
  }

  /** `handleOpenChat`: the chat tab of the current ingestion, or a toast
      when there is none. */
  method HandleOpenChat(flow: IngestionFlow, preview: Preview) returns (toast: Option<Toast>)
    modifies preview
    ensures !Present(flow.ingestionId) ==> toast == Some(Toast("Not ready", "Upload and process an audio file first.")) && unchanged(preview)
    ensures Present(flow.ingestionId) ==> toast.None? && preview.previewTab == ChatTab
    ensures preview.transcriptCache == old(preview.transcriptCache) && preview.summaryCache == old(preview.summaryCache)
    ensures preview.summaryEvalCache == old(preview.summaryEvalCache) && preview.previewLoading == old(preview.previewLoading)
  {
    toast := None;
    if !Present(flow.ingestionId) {
      toast := Some(Toast("Not ready", "Upload and process an audio file first."));
      return;
    }
    preview.SetPreviewTab(ChatTab);
  }

  /** `handleOpenChatFor`: the chat of a history entry, unless it has no id. */
  method HandleOpenChatFor(flow: IngestionFlow, preview: Preview, item: HistoryItem) returns (toast: Option<Toast>)
    modifies flow, preview
    ensures item.ingestionId == "" ==>
      toast == Some(Toast("Not ready", "This history item is missing an ingestion id.")) && unchanged(flow) && unchanged(preview)
    ensures item.ingestionId != "" ==>
      && toast.None? && preview.previewTab == ChatTab && flow.appState == Results
      && flow.ingestionId == Some(item.ingestionId) && flow.fileName == item.fileName && flow.isUrl == item.isUrl
      && preview.transcriptCache == old(preview.transcriptCache) && preview.summaryCache == old(preview.summaryCache)
      && preview.summaryEvalCache == old(preview.summaryEvalCache) && preview.previewLoading == old(preview.previewLoading)
  {
    toast := None;
    if item.ingestionId == "" {
      toast := Some(Toast("Not ready", "This history item is missing an ingestion id."));
      return;
    }
    flow.OpenChatFor(item.ingestionId, item.fileName, item.isUrl);
    preview.SetPreviewTab(ChatTab);
  }

  /** `handleReset`: the upload state and the preview tab start over; the
      fetched texts stay cached. */
  method HandleReset(flow: IngestionFlow, preview: Preview)
    modifies flow, preview
    ensures flow.appState == UploadState && flow.fileName == "" && !flow.isUrl && flow.ingestionId.None?
    ensures preview.previewTab == DefaultTab && preview.transcriptCache == old(preview.transcriptCache)
    ensures preview.summaryCache == old(preview.summaryCache)
    ensures preview.summaryEvalCache == old(preview.summaryEvalCache) && preview.previewLoading == old(preview.previewLoading)
  {
    flow.HandleReset();
    preview.ResetPreviewTab();
  }

  /** A page whose upload succeeded and whose ingestion became ready shows
      the results on the transcript tab, with the file first in the history. */
  method UploadUntilReady(file: UploadFile, id: string, history: seq<HistoryItem>, now: real)
    returns (state: AppState, tab: PreviewTab, newHistory: seq<HistoryItem>)
    requires file.size <= MaxFileSizeBytes && id != ""
    ensures state == Results && tab == TranscriptTab
    ensures |newHistory| >= 1 && newHistory[0] == HistoryItem(id, if file.name != "" then file.name else "audio", false, now)
    ensures !IsCenteredStage(state, newHistory)
  {
    var flow := new IngestionFlow();
    var preview := new Preview();
    var request, toast := flow.StartFileSelect(Some(file), None);
    toast := flow.CreateSettled(Success(id));
    newHistory, toast := OnPoll(flow, preview, history, None, Some(PollStatus(Ready, None)), now);
    UpsertResult(history, HistoryItem(id, if file.name != "" then file.name else "audio", false, now));
    state, tab := flow.appState, preview.previewTab;
  }
}

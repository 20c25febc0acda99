/**
  * The page's upload state: which screen is shown, the name of what is
  * being analysed, whether it came from a URL, and the ingestion it
  * belongs to.  A file selection is split where the handler awaits the
  * server: what it sets before the request, and what it sets when the
  * request settles, so that other handlers may run in between.
  */
module UseIngestion {
  import opened Wrappers
  import opened Text
  import opened Js

  datatype AppState = UploadState | Processing | Results

  const MaxFileSizeMb := 500
  const MaxFileSizeBytes := MaxFileSizeMb * 1024 * 1024

  /** A file the user picked: its name and size in bytes. */
  datatype UploadFile = UploadFile(name: string, size: nat)

  /** A notification shown to the user. */
  datatype Toast = Toast(title: string, description: string)

  /** The request a selection starts: from a URL, or an upload. */
  datatype Request = FromUrl(url: string) | Upload(file: UploadFile)

  /** `Math.round(size / 1024 / 1024)` for a size in bytes. */
  function RoundedMb(size: nat): nat {
    (size + 512 * 1024) / (1024 * 1024)
  }

  /** The rounding is to the nearest megabyte, halves up. */
  lemma RoundedMbResult(size: nat)
    ensures RoundedMb(size) * 1048576 <= size + 524288 < (RoundedMb(size) + 1) * 1048576
  {
  }

  function TooLargeToast(size: nat): Toast {
    Toast("File too large", "Maximum file size is 500 MB. Your file is " + NatToString(RoundedMb(size)) + " MB.")
  }

  /** The toast of a failed creation: the error's message, or a fixed text
      when it is empty. */
  function UploadFailedToast(e: JsError): Toast {
    Toast("Upload failed", if e.message != "" then e.message else "Could not start ingestion.")
  }

  class IngestionFlow {
    var appState: AppState
    var fileName: string
    var isUrl: bool
    var ingestionId: Option<string>

    constructor()
      ensures appState == UploadState && fileName == "" && !isUrl && ingestionId.None?
    {
      appState := UploadState;
      fileName := "";
      isUrl := false;
      ingestionId := None;
    }

    /** Polling runs while processing. */
    predicate PollingEnabled()
      reads this
    {
      appState == Processing
    }

    /** `handleFileSelect` up to its request: a non-empty URL wins over a
        file; a file over 500 MB is refused with a toast; with neither
        nothing happens. */
    method StartFileSelect(file: Option<UploadFile>, url: Option<string>) returns (request: Option<Request>, toast: Option<Toast>)
      modifies this
      ensures url.Some? && url.value != "" ==>
        && request == Some(FromUrl(url.value)) && toast.None?
        && fileName == url.value && isUrl && appState == Processing && ingestionId == old(ingestionId)
      ensures (url.None? || url.value == "") && file.None? ==>
        request.None? && toast.None? && unchanged(this)
      ensures (url.None? || url.value == "") && file.Some? && file.value.size > MaxFileSizeBytes ==>
        request.None? && toast == Some(TooLargeToast(file.value.size)) && unchanged(this)
      ensures (url.None? || url.value == "") && file.Some? && file.value.size <= MaxFileSizeBytes ==>
        && request == Some(Upload(file.value)) && toast.None?
        && fileName == file.value.name && !isUrl && appState == Processing && ingestionId == old(ingestionId)
    {
      request := None;
      toast := None;
      if url.Some? && url.value != "" {
        fileName := url.value;
        isUrl := true;
        appState := Processing;
        request := Some(FromUrl(url.value));
        return;
      }
      if file.None? {
        return;
      }
      if file.value.size > MaxFileSizeBytes {
        toast := Some(TooLargeToast(file.value.size));
        return;
      }
      fileName := file.value.name;
      isUrl := false;
      appState := Processing;
      request := Some(Upload(file.value));
    }

    /** `handleFileSelect` after its request settles: the new id is kept, or
        the page goes back to the upload screen with a toast. */
    method CreateSettled(created: Result<string, JsError>) returns (toast: Option<Toast>)
      modifies this
      ensures fileName == old(fileName) && isUrl == old(isUrl)
      ensures created.Success? ==> ingestionId == Some(created.value) && appState == old(appState) && toast.None?
      ensures created.Failure? ==>
        appState == UploadState && ingestionId == old(ingestionId) && toast == Some(UploadFailedToast(created.error))
    {
      toast := None;
      if created.Success? {
        ingestionId := Some(created.value);
      } else {
        toast := Some(UploadFailedToast(created.error));
        appState := UploadState;
      }
    }

    /** `handleCancel`: back to the upload screen, forgetting the ingestion
        but not the name. */
    method HandleCancel()
      modifies this
      ensures appState == UploadState && ingestionId.None?
      ensures fileName == old(fileName) && isUrl == old(isUrl)
    {
      appState := UploadState;
      ingestionId := None;
    }

    /** `handleReset`: the state a page starts in. */
    method HandleReset()
      modifies this
      ensures appState == UploadState && fileName == "" && !isUrl && ingestionId.None?
    {
      appState := UploadState;
      fileName := "";
      isUrl := false;
      ingestionId := None;
    }

    /** `openChatFor`: show the results of an earlier ingestion. */
    method OpenChatFor(itemIngestionId: string, itemFileName: string, itemIsUrl: bool)
      modifies this
      ensures appState == Results && ingestionId == Some(itemIngestionId)
      ensures fileName == itemFileName && isUrl == itemIsUrl
    {
      fileName := itemFileName;
      isUrl := itemIsUrl;
      ingestionId := Some(itemIngestionId);
      appState := Results;
    }

    /** `transitionToResults`: the ingestion is kept. */
    method TransitionToResults()
      modifies this
      ensures appState == Results
      ensures fileName == old(fileName) && isUrl == old(isUrl) && ingestionId == old(ingestionId)
    {
      appState := Results;
    }

    /** `transitionToUpload`: the ingestion is forgotten. */
    method TransitionToUpload()
      modifies this
      ensures appState == UploadState && ingestionId.None?
      ensures fileName == old(fileName) && isUrl == old(isUrl)
    {
      appState := UploadState;
      ingestionId := None;
    }
  }

  /** A file of exactly 500 MB is accepted, one byte more is refused. */
  method SizeLimitBoundary() returns (atLimit: Option<Request>, overLimit: Option<Request>, shown: Option<Toast>)
    ensures atLimit == Some(Upload(UploadFile("a.mp3", 524288000)))
    ensures overLimit.None? && shown == Some(TooLargeToast(524288001))
  {
    var flow := new IngestionFlow();
    var t;
    atLimit, t := flow.StartFileSelect(Some(UploadFile("a.mp3", 524288000)), None);
    flow.HandleReset();
    overLimit, shown := flow.StartFileSelect(Some(UploadFile("a.mp3", 524288001)), None);
  }

  /** A cancel while the upload is in flight, followed by its success: the
      page shows the upload screen, polling is off, and the id of the
      cancelled ingestion is kept. */
  method CancelDuringUpload(file: UploadFile, id: string) returns (state: AppState, kept: Option<string>, polling: bool)
    requires file.size <= MaxFileSizeBytes
    ensures state == UploadState && kept == Some(id) && !polling
  {
    var flow := new IngestionFlow();
    var request, toast := flow.StartFileSelect(Some(file), None);
    flow.HandleCancel();
    toast := flow.CreateSettled(Success(id));
    state, kept, polling := flow.appState, flow.ingestionId, flow.PollingEnabled();
  }
}

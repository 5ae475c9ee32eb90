/**
 * The extraction page: it holds the selected file, the loading flag, the last
 * result or error, the stored-record counter and the key that remounts the
 * upload widget, and chooses which of four views the right-hand panel shows.
 *
 * The upload request is the one `await` in `handleExtract`; it is split into
 * `BeginExtract` (before the await) and `FinishExtract` (after it settles), and
 * `HandleExtract` runs the two back to back. `requests` records every file sent.
 */
module App {
  import opened Wrappers
  import opened Json
  import FileUpload
  import opened ResultDisplay

  /** How the upload request settled: the response body, or an error with the server's `detail` and the transport's `message`. */
  datatype Reply =
    | Answered(data: ExtractionResult)
    | Failed(detail: Option<string>, message: Option<string>)

  const FallbackError: string := "Failed to process image"

  /** `err.response?.data?.detail || err.message || 'Failed to process image'`. */
  function ErrorMessage(detail: Option<string>, message: Option<string>): (r: string)
    ensures r != ""
    ensures detail.Some? && detail.value != "" ==> r == detail.value
    ensures (detail.None? || detail.value == "") && message.Some? && message.value != "" ==> r == message.value
    ensures (detail.None? || detail.value == "") && (message.None? || message.value == "") ==> r == FallbackError
  {
    if detail.Some? && detail.value != "" then detail.value
    else if message.Some? && message.value != "" then message.value
    else FallbackError
  }

  datatype Panel = ResultPanel | LoadingPanel | FileReadyPanel | IdlePanel

  /** The right panel's nested conditional: result, then loading, then a selected file, else idle. */
  function RightPanel(hasResult: bool, loading: bool, hasFile: bool): (p: Panel)
    ensures p == ResultPanel <==> hasResult
    ensures p == LoadingPanel <==> !hasResult && loading
    ensures p == FileReadyPanel <==> !hasResult && !loading && hasFile
    ensures p == IdlePanel <==> !hasResult && !loading && !hasFile
  {
    if hasResult then ResultPanel
    else if loading then LoadingPanel
    else if hasFile then FileReadyPanel
    else IdlePanel
  }

  datatype Tab = UploadTab | DatabaseTab

  class Page {
    var result: Option<ExtractionResult>
    var loading: bool
    var error: Option<string>
    var activeTab: Tab
    var resetKey: int
    var dbCount: int
    var selectedFile: Option<FileUpload.File>
    /** The upload widget currently mounted under `resetKey`. */
    var widget: FileUpload.Widget
    /** Every file sent to the upload endpoint, oldest first. */
    var requests: seq<FileUpload.File>

    constructor ()
      ensures result == None && !loading && error == None && activeTab == UploadTab
      ensures resetKey == 0 && dbCount == 0 && selectedFile == None && requests == []
      ensures fresh(widget) && widget.selectedFile == None && widget.preview == None
    {
      result, loading, error, activeTab := None, false, None, UploadTab;
      resetKey, dbCount, selectedFile, requests := 0, 0, None, [];
      widget := new FileUpload.Widget();
    }

    /** The panel shown now. */
    function Shown(): Panel
      reads this
    {
      RightPanel(result.Some?, loading, selectedFile.Some?)
    }

    /** The mount-time count: the number of stored records, or 0 when the list request fails. */
    method FetchDbCount(reply: Result<nat, string>)
      modifies this`dbCount
      ensures dbCount == (if reply.Ok? then reply.value else 0)
    {
      if reply.Ok? {
        dbCount := reply.value;
      } else {
        dbCount := 0;
      }
    }

    /** `handleUploadSuccess`: shows the result, clears the error, counts a stored record. */
    method HandleUploadSuccess(data: ExtractionResult)
      modifies this`result, this`error, this`dbCount
      ensures result == Some(data) && error == None
      ensures dbCount == old(dbCount) + (if Truthy(data.savedToDatabase) then 1 else 0)
    {
      result := Some(data);
      error := None;
      if Truthy(data.savedToDatabase) {
        dbCount := dbCount + 1;
      }
    }

    /** `handleUploadError`: shows the error and drops the result. */
    method HandleUploadError(message: string)
      modifies this`error, this`result
      ensures error == Some(message) && result == None
    {
      error := Some(message);
      result := None;
    }

    /** `handleFileSelect`, the widget's `onFileSelect`: selects the file, clears the error, keeps the result. */
    method HandleFileSelect(file: FileUpload.File)
      modifies this`selectedFile, this`error
      ensures selectedFile == Some(file) && error == None
    {
      selectedFile := Some(file);
      error := None;
    }

    /** A pick in the widget's file input, with the widget reporting an accepted file to this page. */
    method PickFiles(files: seq<FileUpload.File>, dataUrl: string)
      modifies widget, this`selectedFile, this`error
      ensures files != [] && FileUpload.Rejection(files[0]).None? ==>
        selectedFile == Some(files[0]) && error == None && widget.selectedFile == Some(files[0])
      ensures files == [] || FileUpload.Rejection(files[0]).Some? ==>
        selectedFile == old(selectedFile) && error == old(error) &&
        widget.selectedFile == old(widget.selectedFile) && widget.preview == old(widget.preview)
    {
      widget.HandleChange(files, dataUrl);
      if files != [] && FileUpload.Rejection(files[0]).None? {
        HandleFileSelect(files[0]);
      }
    }

    /** The part of `handleExtract` before the request is awaited; without a file it does nothing. */
    method BeginExtract() returns (started: bool)
      modifies this`loading, this`requests
      ensures started == old(selectedFile).Some?
      ensures !started ==> loading == old(loading) && requests == old(requests)
      ensures started ==> loading && requests == old(requests) + [selectedFile.value]
      ensures started ==> Shown() == (if result.Some? then ResultPanel else LoadingPanel)
    {
      if selectedFile.None? {
        return false;
      }
      loading := true;
      requests := requests + [selectedFile.value];
      return true;
    }

    /** The part of `handleExtract` after the request settled: success or error, then `loading` off. */
    method FinishExtract(reply: Reply)
      modifies this`result, this`error, this`dbCount, this`loading
      ensures !loading
      ensures reply.Answered? ==>
        result == Some(reply.data) && error == None &&
        dbCount == old(dbCount) + (if Truthy(reply.data.savedToDatabase) then 1 else 0) &&
        Shown() == ResultPanel
      ensures reply.Failed? ==>
        result == None && error == Some(ErrorMessage(reply.detail, reply.message)) && dbCount == old(dbCount) &&
        Shown() == (if selectedFile.Some? then FileReadyPanel else IdlePanel)
    {
      match reply {
        case Answered(data) => HandleUploadSuccess(data);
        case Failed(detail, message) => HandleUploadError(ErrorMessage(detail, message));
      }
      loading := false;
    }

    /** `handleExtract`: nothing without a selected file; otherwise one request, its outcome, and `loading` off. */
    method HandleExtract(reply: Reply)
      modifies this`loading, this`requests, this`result, this`error, this`dbCount
      ensures old(selectedFile).None? ==>
        loading == old(loading) && requests == old(requests) && result == old(result) &&
        error == old(error) && dbCount == old(dbCount)
      ensures old(selectedFile).Some? ==>
        !loading && requests == old(requests) + [old(selectedFile).value]
      ensures old(selectedFile).Some? && reply.Answered? ==>
        result == Some(reply.data) && error == None &&
        dbCount == old(dbCount) + (if Truthy(reply.data.savedToDatabase) then 1 else 0)
      ensures old(selectedFile).Some? && reply.Failed? ==>
        result == None && error == Some(ErrorMessage(reply.detail, reply.message)) &&
        dbCount == old(dbCount) && Shown() == FileReadyPanel
    {
      var started := BeginExtract();
      if !started {
        return;
      }
      FinishExtract(reply);
    }

    /** `handleReset`: drops result, error and file, and bumps the key, which mounts a fresh upload widget. */
    method HandleReset()
      modifies this`result, this`error, this`selectedFile, this`resetKey, this`widget
      ensures result == None && error == None && selectedFile == None
      ensures resetKey == old(resetKey) + 1
      ensures fresh(widget) && widget.selectedFile == None && widget.preview == None && !widget.dragActive
      ensures Shown() == (if loading then LoadingPanel else IdlePanel)
    {
      result := None;
      error := None;
      selectedFile := None;
      resetKey := resetKey + 1;
      widget := new FileUpload.Widget();
    }

    /** The error alert's Dismiss button. */
    method DismissError()
      modifies this`error
      ensures error == None
    {
      error := None;
    }

    method SetActiveTab(tab: Tab)
      modifies this`activeTab
      ensures activeTab == tab
    {
      activeTab := tab;
    }
  }
}

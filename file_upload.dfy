/**
 * The upload widget of the handwriting extractor's front-end. It keeps the
 * selected file, its preview and the drag-highlight flag, validates a chosen
 * file against a MIME allow-list and a 10 MiB ceiling, and reports an accepted
 * file to its owner through the `onFileSelect` callback.
 *
 * Browser effects are state here: `alerts` is every blocking `alert()` shown,
 * `notified` every file handed to `onFileSelect`, both in order. The preview
 * data URL that a `FileReader` produces is passed in by the caller.
 */
module FileUpload {
  import opened Wrappers

  /** A browser `File`: its name, size in bytes and MIME type. */
  datatype File = File(name: string, size: nat, mimeType: string)

  const MaxSize: nat := 10 * 1024 * 1024
  const ValidTypes: seq<string> := ["image/jpeg", "image/jpg", "image/png", "application/pdf"]
  const PdfType: string := "application/pdf"
  const TypeAlert: string := "Please upload a JPG, PNG, or PDF file"
  const SizeAlert: string := "File size must be less than 10MB"

  /** The alert `handleFile` raises for `file`; `None` when the file is accepted. */
  function Rejection(file: File): (r: Option<string>)
    ensures r == None <==> file.mimeType in ValidTypes && file.size <= MaxSize
    ensures r == Some(TypeAlert) <==> file.mimeType !in ValidTypes
    ensures r == Some(SizeAlert) <==> file.mimeType in ValidTypes && file.size > MaxSize
  {
    if file.mimeType !in ValidTypes then Some(TypeAlert)
    else if file.size > MaxSize then Some(SizeAlert)
    else None
  }

  /** The type test comes first: a file with a bad type gets only the type alert, whatever its size. */
  lemma TypeCheckedBeforeSize(file: File)
    requires file.mimeType !in ValidTypes && file.size > MaxSize
    ensures Rejection(file) == Some(TypeAlert)
  {
  }

  /** The size test is strict: a file of exactly 10 MiB of an allowed type is accepted; one byte more is not. */
  lemma SizeLimitIsInclusive(mimeType: string)
    requires mimeType in ValidTypes
    ensures Rejection(File("f", 10485760, mimeType)) == None
    ensures Rejection(File("f", 10485761, mimeType)) == Some(SizeAlert)
  {
  }

  /** What the preview area shows. */
  datatype PreviewArea = PreviewImage(url: string) | PdfPlaceholder | UploadTrigger

  /** The preview area's choice: an image when a preview exists, else the PDF placeholder when a file is selected. */
  function ShownPreview(preview: Option<string>, selected: Option<File>): (r: PreviewArea)
    ensures r.PreviewImage? <==> preview.Some? && preview.value != ""
    ensures r == UploadTrigger <==> (preview.None? || preview.value == "") && selected.None?
  {
    if preview.Some? && preview.value != "" then PreviewImage(preview.value)
    else if selected.Some? then PdfPlaceholder
    else UploadTrigger
  }

  class Widget {
    var selectedFile: Option<File>
    var preview: Option<string>
    var dragActive: bool
    /** The hidden `<input type="file">`'s value. */
    var inputValue: string
    /** Every alert shown, oldest first. */
    var alerts: seq<string>
    /** Every file passed to `onFileSelect`, oldest first. */
    var notified: seq<File>

    /** A freshly mounted widget: nothing selected, no preview, no highlight. */
    constructor ()
      ensures selectedFile == None && preview == None && !dragActive
      ensures inputValue == "" && alerts == [] && notified == []
    {
      selectedFile, preview, dragActive := None, None, false;
      inputValue, alerts, notified := "", [], [];
    }

    /** `handleDrag`: enter and over highlight, leave un-highlights, any other event type changes nothing. */
    method HandleDrag(eventType: string)
      modifies this`dragActive
      ensures eventType == "dragenter" || eventType == "dragover" ==> dragActive
      ensures eventType == "dragleave" ==> !dragActive
      ensures eventType !in {"dragenter", "dragover", "dragleave"} ==> dragActive == old(dragActive)
    {
      if eventType == "dragenter" || eventType == "dragover" {
        dragActive := true;
      } else if eventType == "dragleave" {
        dragActive := false;
      }
    }

    /**
     * `handleFile`: a rejected file raises its alert and changes nothing else; an
     * accepted one becomes the selection, gets a preview unless it is a PDF, and is
     * reported to the owner exactly once. `dataUrl` is what the `FileReader` yields.
     */
    method HandleFile(file: File, dataUrl: string)
      modifies this`selectedFile, this`preview, this`alerts, this`notified
      ensures Rejection(file).Some? ==>
        && alerts == old(alerts) + [Rejection(file).value]
        && selectedFile == old(selectedFile) && preview == old(preview) && notified == old(notified)
      ensures Rejection(file).None? ==>
        && selectedFile == Some(file)
        && preview == (if file.mimeType == PdfType then None else Some(dataUrl))
        && notified == old(notified) + [file]
        && alerts == old(alerts)
    {
      if file.mimeType !in ValidTypes {
        alerts := alerts + [TypeAlert];
        return;
      }
      if file.size > MaxSize {
        alerts := alerts + [SizeAlert];
        return;
      }
      selectedFile := Some(file);
      if file.mimeType != PdfType {
        preview := Some(dataUrl);
      } else {
        preview := None;
      }
      notified := notified + [file];
    }

    /** `handleDrop`: always drops the highlight, then handles the first dropped file if there is one. */
    method HandleDrop(files: seq<File>, dataUrl: string)
      modifies this`dragActive, this`selectedFile, this`preview, this`alerts, this`notified
      ensures !dragActive
      ensures files == [] ==>
        selectedFile == old(selectedFile) && preview == old(preview) &&
        alerts == old(alerts) && notified == old(notified)
      ensures files != [] && Rejection(files[0]).None? ==>
        selectedFile == Some(files[0]) &&
        preview == (if files[0].mimeType == PdfType then None else Some(dataUrl)) &&
        notified == old(notified) + [files[0]] && alerts == old(alerts)
      ensures files != [] && Rejection(files[0]).Some? ==>
        selectedFile == old(selectedFile) && preview == old(preview) &&
        alerts == old(alerts) + [Rejection(files[0]).value] && notified == old(notified)
    {
      dragActive := false;
      if |files| > 0 {
        HandleFile(files[0], dataUrl);
      }
    }

    /** `handleChange`: handles the first picked file; an empty pick changes nothing. */
    method HandleChange(files: seq<File>, dataUrl: string)
      modifies this`selectedFile, this`preview, this`alerts, this`notified
      ensures files == [] ==>
        selectedFile == old(selectedFile) && preview == old(preview) &&
        alerts == old(alerts) && notified == old(notified)
      ensures files != [] && Rejection(files[0]).None? ==>
        selectedFile == Some(files[0]) &&
        preview == (if files[0].mimeType == PdfType then None else Some(dataUrl)) &&
        notified == old(notified) + [files[0]] && alerts == old(alerts)
      ensures files != [] && Rejection(files[0]).Some? ==>
        selectedFile == old(selectedFile) && preview == old(preview) &&
        alerts == old(alerts) + [Rejection(files[0]).value] && notified == old(notified)
    {
      if |files| > 0 {
        HandleFile(files[0], dataUrl);
      }
    }

    /** `clearSelection`: no file, no preview, and the input's value emptied. */
    method ClearSelection()
      modifies this`selectedFile, this`preview, this`inputValue
      ensures selectedFile == None && preview == None && inputValue == ""
      ensures ShownPreview(preview, selectedFile) == UploadTrigger
    {
      selectedFile := None;
      preview := None;
      inputValue := "";
    }

    /** What the preview area currently shows. */
    function Shown(): PreviewArea
      reads this
    {
      ShownPreview(preview, selectedFile)
    }
  }
}

/**
 * The HTTP back-end: upload validation by file name and extension, routing to
 * the PDF or the image extractor, normalisation of whatever the extractor
 * returns to a `{"fields": [...]}` document, and the record endpoints' mapping
 * of store answers to HTTP errors.
 *
 * The database is an abstract map from record id to stored record; the answers
 * the store gives (`insert_record`'s new id, `update_record`'s flag) and the
 * task id drawn from `uuid4` are inputs.
 */
module MainApi {
  import opened Wrappers
  import opened Text
  import opened Json
  import LangChain

  /** An `HTTPException`: status code and detail text. */
  datatype HttpError = HttpError(status: int, detail: string)

  // ---------------------------------------------------------------- upload validation

  /** `os.path.splitext(name)[1]` on POSIX: from the last dot of the base name, unless the base name is only dots before it. */
  function Extension(name: string): (ext: string)
    ensures ext == [] || (ext[0] == '.' && EndsWith(name, ext) && '/' !in ext && '.' !in ext[1..])
  {
    var sepIndex := RFind(name, '/');
    var dotIndex := RFind(name, '.');
    if dotIndex > sepIndex && exists k | sepIndex + 1 <= k < dotIndex :: name[k] != '.' then
      assert name[dotIndex..][1..] == name[dotIndex + 1..];
      name[dotIndex..]
    else []
  }

  const AllowedExtensions: seq<string> := [".png", ".jpg", ".jpeg", ".pdf"]
  const NoFileError: HttpError := HttpError(400, "No file provided")
  const BadTypeError: HttpError := HttpError(400, "Invalid file type. Allowed: .png, .jpg, .jpeg, .pdf")

  /** The checks `upload_file` makes before writing anything: a name, then an allowed lower-cased extension. */
  function ValidateUpload(filename: string): (r: Result<string, HttpError>)
    ensures filename == [] ==> r == Err(NoFileError)
    ensures filename != [] && Lower(Extension(filename)) !in AllowedExtensions ==> r == Err(BadTypeError)
    ensures r.Ok? <==> filename != [] && Lower(Extension(filename)) in AllowedExtensions
    ensures r.Ok? ==> r.value == Lower(Extension(filename))
  {
    if filename == [] then Err(NoFileError)
    else
      var fileExt := Lower(Extension(filename));
      if fileExt !in AllowedExtensions then Err(BadTypeError) else Ok(fileExt)
  }

  /** A base name `stem.ext` whose stem does not start with a dot has extension `.ext`. */
  lemma {:induction false} ExtensionOfPlainName(stem: string, ext: string)
    requires stem != [] && stem[0] != '.'
    requires '/' !in stem && '/' !in ext && '.' !in ext
    ensures Extension(stem + "." + ext) == "." + ext
  {
    var name := stem + "." + ext;
    assert name[|stem|] == '.';
    assert forall k :: |stem| < k < |name| ==> name[k] == ext[k - |stem| - 1];
    assert RFind(name, '.') == |stem|;
    assert forall k :: 0 <= k < |name| ==> name[k] != '/' by {
      forall k | 0 <= k < |name|
        ensures name[k] != '/'
      {
        if k < |stem| {
          assert name[k] == stem[k];
        }
      }
    }
    assert RFind(name, '/') == -1;
    assert name[0] == stem[0];
    assert name[|stem|..] == "." + ext;
  }

  /** A dot-file name such as `.png` has no extension. */
  lemma {:induction false} DotFileHasNoExtension(ext: string)
    requires '/' !in ext && '.' !in ext
    ensures Extension("." + ext) == []
  {
    var name := "." + ext;
    assert forall k :: 0 < k < |name| ==> name[k] == ext[k - 1];
    assert RFind(name, '.') == 0;
  }

  /** Upper-case extensions are accepted: `form.PDF` is a PDF upload. */
  lemma UpperCaseExtensionAccepted()
    ensures ValidateUpload("form.PDF") == Ok(".pdf")
  {
    ExtensionOfPlainName("form", "PDF");
    assert "form" + "." + "PDF" == "form.PDF";
    assert Lower(".PDF") == ".pdf";
  }

  /** The upload named `.png` is refused: a dot-file has no extension. */
  lemma DotFileRefused()
    ensures ValidateUpload(".png") == Err(BadTypeError)
  {
    DotFileHasNoExtension("png");
    assert "." + "png" == ".png";
    assert Lower([]) == [];
  }

  datatype Route = PdfExtractor | ImageExtractor

  /** `.pdf` goes to the PDF extractor, every other accepted extension to the image extractor. */
  function RouteFor(ext: string): (r: Route)
    ensures r == PdfExtractor <==> ext == ".pdf"
  {
    if ext == ".pdf" then PdfExtractor else ImageExtractor
  }

  // ---------------------------------------------------------------- extraction

  const PdfUnsupportedDoc: Value := FieldsDoc([
    Field("PDF Error", "pdf2image library not available"),
    Field("Solution", "Install poppler-utils to enable PDF support")])
  const NoPagesDoc: Value := FieldsDoc([Field("PDF Error", "No pages found in PDF")])

  /** The document `extract_text_from_pdf` answers with when anything raises. */
  function ProcessingErrorDoc(e: LangChain.Raised): (r: Value)
    ensures HasFieldList(r)
    ensures LangChain.FieldList(r) == [Field("PDF Processing Error", e.message), Field("Error Type", e.typeName)]
  {
    LangChain.FieldsDocHasFieldList([Field("PDF Processing Error", e.message), Field("Error Type", e.typeName)]);
    FieldsDoc([Field("PDF Processing Error", e.message), Field("Error Type", e.typeName)])
  }

  /** The exception `get_extractor()` raises when no token resolves. */
  function TokenError(token: Result<string, string>): LangChain.Raised
    requires token.Err?
  {
    LangChain.Raised(token.error, "ValueError")
  }

  /**
   * What the extractors see from outside: whether PDF support is installed,
   * the page images the PDF converts to (or what conversion raised), the
   * environment `get_extractor()` resolves its token from, the single-image call, and the
   * exception relabelling raises when a page field has no label.
   */
  datatype ExtractionInputs = ExtractionInputs(
    pdfSupport: bool,
    pages: Result<seq<LangChain.ImageCall>, LangChain.Raised>,
    env: map<string, string>,
    imageCall: LangChain.ImageCall,
    relabelError: LangChain.Raised)

  /** `extract_text_from_pdf`: its early answers, in order, then the page extraction. */
  function ExtractTextFromPdf(lib: Lib, x: ExtractionInputs): (r: Value)
    ensures !x.pdfSupport ==> r == PdfUnsupportedDoc
    ensures x.pdfSupport && x.pages.Err? ==> r == ProcessingErrorDoc(x.pages.error)
    ensures x.pdfSupport && x.pages == Ok([]) ==> r == NoPagesDoc
    ensures x.pdfSupport && x.pages.Ok? && x.pages.value != [] ==>
      var token := LangChain.ResolveToken(None, x.env);
      var run := LangChain.PdfRun(lib, LangChain.PageDocs(lib, x.pages.value), LangChain.FirstUnreadable(x.pages.value), x.relabelError);
      && (token.Err? ==> r == ProcessingErrorDoc(TokenError(token)))
      && (token.Ok? ==> r == if run.Ok? then run.value else ProcessingErrorDoc(run.error))
  {
    if !x.pdfSupport then PdfUnsupportedDoc
    else
      match x.pages
      case Err(e) => ProcessingErrorDoc(e)
      case Ok(calls) =>
        var token := LangChain.ResolveToken(None, x.env);
        if calls == [] then NoPagesDoc
        else if token.Err? then ProcessingErrorDoc(TokenError(token))
        else
          match LangChain.PdfRun(lib, LangChain.PageDocs(lib, calls), LangChain.FirstUnreadable(calls), x.relabelError)
          case Ok(v) => v
          case Err(e) => ProcessingErrorDoc(e)
  }

  /**
   * `extract_text_from_image`: the extractor's document, or the error document
   * for what was raised, whether building the extractor or by the extractor.
   */
  function ExtractTextFromImage(lib: Lib, x: ExtractionInputs): (r: Value)
    ensures var token := LangChain.ResolveToken(None, x.env);
      var answer := LangChain.ExtractFromImage(lib, x.imageCall);
      && (token.Ok? && answer.Ok? ==> r == answer.value)
      && (token.Ok? && answer.Err? ==> r == LangChain.ErrorDoc(answer.error))
      && (token.Err? ==> r == LangChain.ErrorDoc(TokenError(token)))
  {
    var token := LangChain.ResolveToken(None, x.env);
    if token.Err? then LangChain.ErrorDoc(TokenError(token))
    else
      match LangChain.ExtractFromImage(lib, x.imageCall)
      case Ok(v) => v
      case Err(e) => LangChain.ErrorDoc(e)
  }

  /**
   * An image that cannot be read is reported as the unbound `trace`, not as
   * what reading it raised: by the single-image route as an extraction error,
   * and by a PDF whose first page it is as a processing error.
   */
  lemma UnreadableImageReportsUnboundTrace(lib: Lib, x: ExtractionInputs)
    requires LangChain.ResolveToken(None, x.env).Ok?
    ensures x.imageCall.EncodingFailed? ==> ExtractTextFromImage(lib, x) == LangChain.ErrorDoc(LangChain.TraceUnbound)
    ensures x.pdfSupport && x.pages.Ok? && x.pages.value != [] && x.pages.value[0].EncodingFailed? ==>
      ExtractTextFromPdf(lib, x) == ProcessingErrorDoc(LangChain.TraceUnbound)
  {
    if x.pdfSupport && x.pages.Ok? && x.pages.value != [] && x.pages.value[0].EncodingFailed? {
      LangChain.UnreadableFirstPageRaises(lib, x.pages.value, x.relabelError);
    }
  }

  /** Without any of the three token variables set, both extractors answer with the missing-token error. */
  lemma NoTokenGivesMissingTokenError(lib: Lib, x: ExtractionInputs)
    requires forall i | 0 <= i < |LangChain.TokenKeys| :: !LangChain.IsSet(x.env, LangChain.TokenKeys[i])
    ensures ExtractTextFromImage(lib, x) ==
      LangChain.ErrorDoc(LangChain.Raised(LangChain.MissingTokenError, "ValueError"))
    ensures x.pdfSupport && x.pages.Ok? && x.pages.value != [] ==>
      ExtractTextFromPdf(lib, x) == ProcessingErrorDoc(LangChain.Raised(LangChain.MissingTokenError, "ValueError"))
  {
    assert !LangChain.IsSet(x.env, LangChain.TokenKeys[0]) && !LangChain.IsSet(x.env, LangChain.TokenKeys[1]) &&
      !LangChain.IsSet(x.env, LangChain.TokenKeys[2]);
  }

  // ---------------------------------------------------------------- normalisation

  /** The `fields` normalisation: a non-object becomes `{"fields": []}`, a missing or non-list `fields` becomes `[]`. */
  function Normalized(data: Value): (r: Value)
    ensures HasFieldList(r)
  {
    if !data.Obj? then
      LangChain.FieldsDocHasFieldList([]);
      FieldsDoc([])
    else if !HasKey(data.entries, "fields") then
      var entries := data.entries + [("fields", Arr([]))];
      assert entries[|data.entries|].0 == "fields";
      assert IndexOf(entries, "fields") == |data.entries| by {
        IndexOfUnique(entries, "fields", |data.entries|);
      }
      Obj(entries)
    else if !Get(data.entries, "fields").Arr? then Obj(Set(data.entries, "fields", Arr([])))
    else data
  }

  /** The normalisation in `upload_file`, assigning to the document one check at a time. */
  method NormalizeFields(data: Value) returns (extracted: Value)
    ensures extracted == Normalized(data)
  {
    extracted := data;
    if !extracted.Obj? {
      extracted := FieldsDoc([]);
      assert extracted.entries[0].0 == "fields";
    }
    if !HasKey(extracted.entries, "fields") {
      var entries := extracted.entries + [("fields", Arr([]))];
      assert entries[|extracted.entries|].0 == "fields";
      extracted := Obj(entries);
    }
    if !Get(extracted.entries, "fields").Arr? {
      extracted := Obj(Set(extracted.entries, "fields", Arr([])));
    }
  }

  /** A document that already has a field list is left exactly as it is. */
  lemma NormalizedKeepsValidDocument(data: Value)
    requires HasFieldList(data)
    ensures Normalized(data) == data
  {
  }

  /** Normalising twice is normalising once. */
  lemma NormalizedIdempotent(data: Value)
    ensures Normalized(Normalized(data)) == Normalized(data)
  {
    NormalizedKeepsValidDocument(Normalized(data));
  }

  /**
   * The three fallbacks: a non-object becomes `{"fields": []}`; an object
   * without `fields` gains it, as `[]`, after its other entries; a `fields`
   * that is not a list is replaced by `[]` where it stands.
   */
  lemma NormalizedFallbacks(data: Value)
    ensures !data.Obj? ==> Normalized(data) == FieldsDoc([])
    ensures !HasFieldList(data) ==> Get(Normalized(data).entries, "fields") == Arr([])
    ensures data.Obj? ==>
      |Normalized(data).entries| == |data.entries| + (if HasKey(data.entries, "fields") then 0 else 1)
    ensures data.Obj? && !HasKey(data.entries, "fields") ==>
      Normalized(data).entries[|data.entries|] == ("fields", Arr([]))
    ensures data.Obj? && HasKey(data.entries, "fields") ==>
      IndexOf(Normalized(data).entries, "fields") == IndexOf(data.entries, "fields")
  {
    if !data.Obj? {
      LangChain.FieldsDocHasFieldList([]);
    } else if !HasKey(data.entries, "fields") {
      var entries := data.entries + [("fields", Arr([]))];
      IndexOfUnique(entries, "fields", |data.entries|);
    }
  }

  /** An object keeps its other entries, in their positions; a list of fields it had is kept. */
  lemma {:induction false} NormalizedKeepsObjectEntries(data: Value)
    requires data.Obj?
    ensures var r := Normalized(data);
      |r.entries| >= |data.entries| &&
      forall i :: 0 <= i < |data.entries| && data.entries[i].0 != "fields" ==> r.entries[i] == data.entries[i]
  {
    if HasKey(data.entries, "fields") && !Get(data.entries, "fields").Arr? {
      var k := IndexOf(data.entries, "fields");
      forall i | 0 <= i < |data.entries| && data.entries[i].0 != "fields"
        ensures Normalized(data).entries[i] == data.entries[i]
      {
        assert i != k;
      }
    }
  }

  /** The PDF extractor always answers with a field list. */
  lemma PdfOutputHasFieldList(lib: Lib, x: ExtractionInputs)
    ensures HasFieldList(ExtractTextFromPdf(lib, x))
  {
    LangChain.FieldsDocHasFieldList([Field("PDF Error", "pdf2image library not available"),
                                     Field("Solution", "Install poppler-utils to enable PDF support")]);
    LangChain.FieldsDocHasFieldList([Field("PDF Error", "No pages found in PDF")]);
    if x.pages.Err? {
      var e := x.pages.error;
      LangChain.FieldsDocHasFieldList([Field("PDF Processing Error", e.message), Field("Error Type", e.typeName)]);
    }
    var token := LangChain.ResolveToken(None, x.env);
    if token.Err? {
      var e := TokenError(token);
      LangChain.FieldsDocHasFieldList([Field("PDF Processing Error", e.message), Field("Error Type", e.typeName)]);
    }
    if x.pages.Ok? {
      var run := LangChain.PdfRun(lib, LangChain.PageDocs(lib, x.pages.value), LangChain.FirstUnreadable(x.pages.value), x.relabelError);
      if run.Err? {
        var e := run.error;
        LangChain.FieldsDocHasFieldList([Field("PDF Processing Error", e.message), Field("Error Type", e.typeName)]);
      }
    }
  }

  /** The image extractor always answers with a field list. */
  lemma ImageOutputHasFieldList(lib: Lib, x: ExtractionInputs)
    ensures HasFieldList(ExtractTextFromImage(lib, x))
  {
    var token := LangChain.ResolveToken(None, x.env);
    if token.Err? {
      var e := TokenError(token);
      LangChain.FieldsDocHasFieldList([Field("Extraction Error", e.message), Field("Error Type", e.typeName)]);
    }
  }

  /** Normalisation never changes what either extractor returns. */
  lemma ExtractorOutputNeedsNoNormalization(lib: Lib, x: ExtractionInputs, route: Route)
    ensures var data := if route == PdfExtractor then ExtractTextFromPdf(lib, x) else ExtractTextFromImage(lib, x);
      Normalized(data) == data
  {
    if route == PdfExtractor {
      PdfOutputHasFieldList(lib, x);
      NormalizedKeepsValidDocument(ExtractTextFromPdf(lib, x));
    } else {
      ImageOutputHasFieldList(lib, x);
      NormalizedKeepsValidDocument(ExtractTextFromImage(lib, x));
    }
  }

  // ---------------------------------------------------------------- the server and its store

  /** The document of the extractor the extension routes to. */
  function Routed(lib: Lib, fileExt: string, x: ExtractionInputs): Value {
    if RouteFor(fileExt) == PdfExtractor then ExtractTextFromPdf(lib, x) else ExtractTextFromImage(lib, x)
  }

  /** The middle of `upload_file`: the extractor the extension routes to, then the `fields` normalisation. */
  method ExtractAndNormalize(lib: Lib, fileExt: string, x: ExtractionInputs) returns (extracted: Value)
    ensures extracted == Normalized(Routed(lib, fileExt, x))
  {
    if fileExt == ".pdf" {
      extracted := ExtractTextFromPdf(lib, x);
    } else {
      extracted := ExtractTextFromImage(lib, x);
    }
    extracted := NormalizeFields(extracted);
  }

  /** A stored record: the task it came from and its JSON document. */
  datatype StoredRecord = StoredRecord(taskId: string, rawJson: Value)

  /** The success body of `/upload`. */
  datatype UploadReply = UploadReply(taskId: string, recordId: int, status: string, message: string)

  const UploadedMessage: string := "File uploaded and processed successfully"

  /** The success body of `DELETE /records/{id}`. */
  datatype DeleteReply = DeleteReply(message: string, recordId: int)

  const DeletedMessage: string := "Record deleted successfully"
  const RecordMissing: HttpError := HttpError(404, "Record not found")
  const UpdateFailed: HttpError := HttpError(500, "Failed to update record")

  class Server {
    /** Files written under the upload directory, by name, in order. */
    var uploads: seq<string>
    /** Result files written under the results directory: task id to document. */
    var results: map<string, Value>
    /** The database: record id to record. */
    var records: map<int, StoredRecord>

    constructor (initial: map<int, StoredRecord>)
      ensures uploads == [] && results == map[] && records == initial
    {
      uploads, results, records := [], map[], initial;
    }

    /**
     * `upload_file`: validate, write the upload, extract through the route,
     * normalise, write the result file and insert the record. `insert` is the
     * store's answer: the new record id, or the text of what it raised.
     */
    method Upload(lib: Lib, filename: string, taskId: string, x: ExtractionInputs, insert: Result<int, string>)
      returns (r: Result<UploadReply, HttpError>)
      modifies this`uploads, this`results, this`records
      ensures ValidateUpload(filename).Err? ==>
        r == Err(ValidateUpload(filename).error) &&
        uploads == old(uploads) && results == old(results) && records == old(records)
      ensures ValidateUpload(filename).Ok? ==>
        var ext := ValidateUpload(filename).value;
        var data := Normalized(Routed(lib, ext, x));
        uploads == old(uploads) + [taskId + ext] &&
        results == old(results)[taskId := data] &&
        (insert.Ok? ==>
          records == old(records)[insert.value := StoredRecord(taskId, data)] &&
          r == Ok(UploadReply(taskId, insert.value, "success", UploadedMessage))) &&
        (insert.Err? ==>
          records == old(records) && r == Err(HttpError(500, "Processing error: " + insert.error)))
    {
      var valid := ValidateUpload(filename);
      if valid.Err? {
        return Err(valid.error);
      }
      var fileExt := valid.value;
      uploads := uploads + [taskId + fileExt];
      var extracted := ExtractAndNormalize(lib, fileExt, x);
      results := results[taskId := extracted];
      match insert {
        case Err(e) =>
          return Err(HttpError(500, "Processing error: " + e));
        case Ok(recordId) =>
          records := records[recordId := StoredRecord(taskId, extracted)];
          return Ok(UploadReply(taskId, recordId, "success", UploadedMessage));
      }
    }

    /** `GET /records/{id}`: the record, or 404. */
    function GetRecord(id: int): (r: Result<StoredRecord, HttpError>)
      reads this
      ensures r.Ok? <==> id in records
      ensures r.Ok? ==> r.value == records[id]
      ensures r.Err? ==> r.error == RecordMissing
    {
      if id in records then Ok(records[id]) else Err(RecordMissing)
    }

    /** `PUT /records/{id}` (the request body must be a JSON object): 404 when absent, 500 when the store reports failure, else the updated record. */
    method UpdateRecord(id: int, rawJson: Value, storeOk: bool) returns (r: Result<StoredRecord, HttpError>)
      requires rawJson.Obj?
      modifies this`records
      ensures id !in old(records) ==> r == Err(RecordMissing) && records == old(records)
      ensures id in old(records) && !storeOk ==> r == Err(UpdateFailed) && records == old(records)
      ensures id in old(records) && storeOk ==>
        records == old(records)[id := StoredRecord(old(records)[id].taskId, rawJson)] && r == Ok(records[id])
    {
      var existing := GetRecord(id);
      if existing.Err? {
        return Err(RecordMissing);
      }
      if !storeOk {
        return Err(UpdateFailed);
      }
      records := records[id := StoredRecord(existing.value.taskId, rawJson)];
      var updated := GetRecord(id);
      return updated;
    }

    /** `DELETE /records/{id}`: the store reports success iff it removed a record; otherwise 404. */
    method DeleteRecord(id: int) returns (r: Result<DeleteReply, HttpError>)
      modifies this`records
      ensures id in old(records) ==> r == Ok(DeleteReply(DeletedMessage, id)) && records == old(records) - {id}
      ensures id !in old(records) ==> r == Err(RecordMissing) && records == old(records)
    {
      if id !in records {
        return Err(RecordMissing);
      }
      records := records - {id};
      return Ok(DeleteReply(DeletedMessage, id));
    }
  }
}

/**
 * The field extractor behind the upload endpoint: it resolves the HuggingFace
 * token, maps the vision API's HTTP status and reply to a `{"fields": [...]}`
 * document, and runs the extraction over the pages of a PDF, prefixing every
 * field label with its page number.
 *
 * The HTTP exchange and the image encoding are inputs; decoding the reply body
 * into the generated text is an input too (it either yields the text or raises).
 */
module LangChain {
  import opened Wrappers
  import opened Text
  import opened Json

  // ---------------------------------------------------------------- token

  const TokenKeys: seq<string> := ["HUGGINGFACE_API_KEY", "HF_TOKEN", "HUGGING_FACE_API_KEY"]
  const MissingTokenError: string :=
    "HUGGINGFACE_API_KEY not found. Please configure your API key in .env or environment variable."

  /** `os.environ.get(key)` is truthy: present and non-empty. */
  predicate IsSet(env: map<string, string>, key: string) {
    key in env && env[key] != ""
  }

  /** `_get_hf_token`: the first set variable of `TokenKeys`, stripped; an error when none is set. */
  function EnvToken(env: map<string, string>): (r: Result<string, string>)
    ensures IsSet(env, TokenKeys[0]) ==> r == Ok(Strip(env[TokenKeys[0]]))
    ensures !IsSet(env, TokenKeys[0]) && IsSet(env, TokenKeys[1]) ==> r == Ok(Strip(env[TokenKeys[1]]))
    ensures !IsSet(env, TokenKeys[0]) && !IsSet(env, TokenKeys[1]) && IsSet(env, TokenKeys[2]) ==>
      r == Ok(Strip(env[TokenKeys[2]]))
    ensures r.Err? <==> !IsSet(env, TokenKeys[0]) && !IsSet(env, TokenKeys[1]) && !IsSet(env, TokenKeys[2])
    ensures r.Err? ==> r.error == MissingTokenError
  {
    if IsSet(env, TokenKeys[0]) then Ok(Strip(env[TokenKeys[0]]))
    else if IsSet(env, TokenKeys[1]) then Ok(Strip(env[TokenKeys[1]]))
    else if IsSet(env, TokenKeys[2]) then Ok(Strip(env[TokenKeys[2]]))
    else Err(MissingTokenError)
  }

  /** The constructor's `hf_token or self._get_hf_token()`: a non-empty explicit token is used as given. */
  function ResolveToken(explicit: Option<string>, env: map<string, string>): (r: Result<string, string>)
    ensures explicit.Some? && explicit.value != "" ==> r == Ok(explicit.value)
    ensures (explicit.None? || explicit.value == "") ==> r == EnvToken(env)
  {
    if explicit.Some? && explicit.value != "" then Ok(explicit.value) else EnvToken(env)
  }

  // ---------------------------------------------------------------- reply interpretation

  /** The text from the first `{` to the last `}`, when a `}` follows the first `{`. */
  function JsonSpan(text: string): (r: Option<string>)
    ensures r.None? <==> '{' !in text || RFind(text, '}') < Find(text, '{')
    ensures r.Some? ==> r.value == text[Find(text, '{')..RFind(text, '}') + 1]
    ensures r.Some? ==> |r.value| >= 2 && r.value[0] == '{' && r.value[|r.value| - 1] == '}'
  {
    var startIdx := Find(text, '{');
    var endIdx := RFind(text, '}') + 1;
    if startIdx != -1 && endIdx > startIdx then
      assert text[startIdx] != '}';
      Some(text[startIdx..endIdx])
    else None
  }

  const RawLimit: nat := 500
  const ParseErrorRawLimit: nat := 300
  const DetailsLimit: nat := 200

  const ParsingErrorDoc: Value := FieldsDoc([Field("Parsing Error", "JSON structure is invalid")])
  const NoteField: Value := Field("Note", "AI did not return valid JSON. Showing raw response.")

  /** What `_call_huggingface_api` makes of the generated text of a 200 reply. */
  function InterpretGenerated(lib: Lib, text: string): (r: Value)
    ensures HasFieldList(r)
    ensures JsonSpan(text).None? ==> r == FieldsDoc([Field("Raw AI Response", Take(text, RawLimit)), NoteField])
    ensures JsonSpan(text).Some? && lib.parse(JsonSpan(text).value).Parsed? ==>
      var v := lib.parse(JsonSpan(text).value).value;
      (HasFieldList(v) ==> r == v) && (!HasFieldList(v) ==> r == ParsingErrorDoc)
    ensures JsonSpan(text).Some? && lib.parse(JsonSpan(text).value).Malformed? ==>
      r == FieldsDoc([Field("JSON Parse Error", lib.parse(JsonSpan(text).value).message),
                      Field("Raw Response", Take(text, ParseErrorRawLimit))])
  {
    FieldsDocHasFieldList([Field("Parsing Error", "JSON structure is invalid")]);
    match JsonSpan(text)
    case None =>
      FieldsDocHasFieldList([Field("Raw AI Response", Take(text, RawLimit)), NoteField]);
      FieldsDoc([Field("Raw AI Response", Take(text, RawLimit)), NoteField])
    case Some(span) =>
      match lib.parse(span)
      case Parsed(v) => if HasFieldList(v) then v else ParsingErrorDoc
      case Malformed(message) =>
        var fields := [Field("JSON Parse Error", message), Field("Raw Response", Take(text, ParseErrorRawLimit))];
        FieldsDocHasFieldList(fields);
        FieldsDoc(fields)
  }

  lemma FieldsDocHasFieldList(fields: seq<Value>)
    ensures HasFieldList(FieldsDoc(fields)) && Get(FieldsDoc(fields).entries, "fields") == Arr(fields)
  {
    assert FieldsDoc(fields).entries[0].0 == "fields";
  }

  /** The fields of a `{"fields": [...]}` document. */
  function FieldList(doc: Value): seq<Value>
    requires HasFieldList(doc)
  {
    Get(doc.entries, "fields").items
  }

  /** An exception caught by `extract_from_image`: its text and its type's name. */
  datatype Raised = Raised(message: string, typeName: string)

  /** The HTTP reply: status, body text, and the generated text decoded from the body (or what decoding raised). */
  datatype Exchange = Exchange(status: int, body: string, generated: Result<string, Raised>)

  /**
   * How one `extract_from_image` call went before any field mapping: the image
   * could not be read (what `_image_to_base64` raised), something raised after
   * the trace variables were set, or the API replied.
   */
  datatype ImageCall = EncodingFailed(raised: Raised) | Failed(raised: Raised) | Responded(exchange: Exchange)

  /**
   * What the handler's `if trace:` raises when the image could not be read:
   * `trace` is first assigned after the encoding, so it is still unbound
   * (the wording of CPython 3.11 and later).
   */
  const TraceUnbound: Raised :=
    Raised("cannot access local variable 'trace' where it is not associated with a value", "UnboundLocalError")

  const LoadingFields: seq<Value> := [
    Field("Model Status", "Model is loading, please try again in 20-30 seconds"),
    Field("Status Code", "503")]

  /** The field list a non-200 status maps to, or `None` for 200. */
  function StatusFields(status: int, body: string): (r: Option<seq<Value>>)
    ensures r.None? <==> status == 200
    ensures status == 503 ==> r == Some(LoadingFields)
    ensures status != 200 && status != 503 ==>
      var details := if body != "" then body else "HTTP " + IntToString(status);
      r.Some? && |r.value| == 3 &&
      r.value[0] == Field("API Error", "Hugging Face API returned an error") &&
      r.value[1] == Field("Details", Take(details, DetailsLimit)) &&
      r.value[2] == Field("Status Code", IntToString(status))
  {
    if status == 503 then Some(LoadingFields)
    else if status != 200 then
      var errorMsg := if body != "" then body else "HTTP " + IntToString(status);
      Some([Field("API Error", "Hugging Face API returned an error"),
            Field("Details", Take(errorMsg, DetailsLimit)),
            Field("Status Code", IntToString(status))])
    else None
  }

  /** The document for an exception caught by `extract_from_image`. */
  function ErrorDoc(e: Raised): (r: Value)
    ensures HasFieldList(r) && FieldList(r) == [Field("Extraction Error", e.message), Field("Error Type", e.typeName)]
  {
    FieldsDocHasFieldList([Field("Extraction Error", e.message), Field("Error Type", e.typeName)]);
    FieldsDoc([Field("Extraction Error", e.message), Field("Error Type", e.typeName)])
  }

  /**
   * `extract_from_image` with the encoding error caught like every other one:
   * the API's answer, or the two-field error document for whatever raised.
   */
  function ExtractFromImageCorrected(lib: Lib, call: ImageCall): (r: Value)
    ensures HasFieldList(r)
  {
    match call
    case EncodingFailed(e) => ErrorDoc(e)
    case Failed(e) => ErrorDoc(e)
    case Responded(x) =>
      match StatusFields(x.status, x.body)
      case Some(fields) =>
        FieldsDocHasFieldList(fields);
        FieldsDoc(fields)
      case None =>
        match x.generated
        case Ok(text) => InterpretGenerated(lib, text)
        case Err(e) => ErrorDoc(e)
  }

  /** The corrected handler's answer, case by case. */
  lemma ImageCallOutcomes(lib: Lib, call: ImageCall)
    ensures var r := ExtractFromImageCorrected(lib, call);
      && (call.EncodingFailed? || call.Failed? ==> r == ErrorDoc(call.raised))
      && (call.Responded? && call.exchange.status != 200 ==>
            r == FieldsDoc(StatusFields(call.exchange.status, call.exchange.body).value))
      && (call.Responded? && call.exchange.status == 200 && call.exchange.generated.Err? ==>
            r == ErrorDoc(call.exchange.generated.error))
      && (call.Responded? && call.exchange.status == 200 && call.exchange.generated.Ok? ==>
            r == InterpretGenerated(lib, call.exchange.generated.value))
  {
  }

  /**
   * `extract_from_image` as written: an image that cannot be read makes the
   * handler's `if trace:` raise, so the call raises instead of answering;
   * every other call answers as the corrected handler does.
   */
  function ExtractFromImage(lib: Lib, call: ImageCall): (r: Result<Value, Raised>)
    ensures r.Err? <==> call.EncodingFailed?
    ensures r.Err? ==> r.error == TraceUnbound
    ensures r.Ok? ==> r.value == ExtractFromImageCorrected(lib, call) && HasFieldList(r.value)
  {
    if call.EncodingFailed? then Err(TraceUnbound) else Ok(ExtractFromImageCorrected(lib, call))
  }

  /** An image that cannot be read loses its own error: the caller sees the unbound `trace`. */
  lemma UnreadableImageRaises(lib: Lib, e: Raised)
    ensures ExtractFromImage(lib, EncodingFailed(e)) == Err(TraceUnbound)
    ensures ExtractFromImageCorrected(lib, EncodingFailed(e)) == ErrorDoc(e)
    ensures e != TraceUnbound ==> ExtractFromImage(lib, EncodingFailed(e)) != Err(e)
  {
  }

  /** The span of a reply that wraps one `{...}` document in prose containing no `{` before it and no `}` after it. */
  lemma SpanOfWrapped(pre: string, doc: string, post: string)
    requires '{' !in pre && '}' !in post
    requires |doc| >= 2 && doc[0] == '{' && doc[|doc| - 1] == '}'
    ensures JsonSpan(pre + doc + post) == Some(doc)
  {
    var text := pre + doc + post;
    assert text[|pre|] == '{';
    var i := Find(text, '{');
    assert i == |pre|;
    var last := |pre| + |doc| - 1;
    assert text[last] == '}';
    var j := RFind(text, '}');
    assert j == last;
    assert text[i..j + 1] == doc;
  }

  /** A 200 reply whose generated text is a field-list document wrapped in such prose returns that document. */
  lemma WrappedDocumentIsReturned(lib: Lib, pre: string, doc: string, post: string, v: Value, body: string)
    requires '{' !in pre && '}' !in post
    requires |doc| >= 2 && doc[0] == '{' && doc[|doc| - 1] == '}'
    requires lib.parse(doc) == Parsed(v) && HasFieldList(v)
    ensures ExtractFromImage(lib, Responded(Exchange(200, body, Ok(pre + doc + post)))) == Ok(v)
  {
    SpanOfWrapped(pre, doc, post);
  }

  /** A 200 reply with no `{` at all is shown raw (cut to 500 characters) next to the note. */
  lemma BracelessReplyIsShownRaw(lib: Lib, text: string, body: string)
    requires '{' !in text
    ensures ExtractFromImage(lib, Responded(Exchange(200, body, Ok(text)))) ==
      Ok(FieldsDoc([Field("Raw AI Response", Take(text, RawLimit)), NoteField]))
  {
  }

  // ---------------------------------------------------------------- PDF pages

  /** Python's `str(v)`, which is what an f-string inserts; containers go to the library. */
  function PyStr(lib: Lib, v: Value): string {
    match v
    case Null => "None"
    case Bool(b) => if b then "True" else "False"
    case Num(n) => IntToString(n)
    case Str(s) => s
    case Arr(_) => lib.pyStr(v)
    case Obj(_) => lib.pyStr(v)
  }

  function PagePrefix(page: nat): string {
    "Page " + IntToString(page) + " - "
  }

  /** A field that can be relabelled: an object with a `label` key. */
  predicate IsLabelled(field: Value) {
    field.Obj? && HasKey(field.entries, "label")
  }

  /** The field with its label prefixed by the page. */
  function Relabel(lib: Lib, page: nat, field: Value): Value
    requires IsLabelled(field)
  {
    Obj(Set(field.entries, "label", Str(PagePrefix(page) + PyStr(lib, Get(field.entries, "label")))))
  }

  /** Relabelling changes the label in its place and keeps every other entry. */
  lemma RelabelKeepsOtherEntries(lib: Lib, page: nat, field: Value)
    requires IsLabelled(field)
    ensures var r := Relabel(lib, page, field);
      IsLabelled(r) && |r.entries| == |field.entries| &&
      Get(r.entries, "label") == Str(PagePrefix(page) + PyStr(lib, Get(field.entries, "label"))) &&
      IndexOf(r.entries, "label") == IndexOf(field.entries, "label") &&
      forall i :: 0 <= i < |r.entries| && i != IndexOf(field.entries, "label") ==> r.entries[i] == field.entries[i]
  {
  }

  /** `f` applied to every element in order, or `None` when some element fails `ok`. */
  function MapChecked<T, U>(xs: seq<T>, ok: T -> bool, f: T -> U): (r: Option<seq<U>>)
    ensures r.Some? ==> |r.value| == |xs|
  {
    if xs == [] then Some([])
    else
      match MapChecked(xs[..|xs| - 1], ok, f)
      case None => None
      case Some(done) => if ok(xs[|xs| - 1]) then Some(done + [f(xs[|xs| - 1])]) else None
  }

  lemma {:induction false} MapCheckedSucceedsIff<T, U>(xs: seq<T>, ok: T -> bool, f: T -> U)
    ensures MapChecked(xs, ok, f).Some? <==> forall i :: 0 <= i < |xs| ==> ok(xs[i])
  {
    if xs != [] {
      var init := xs[..|xs| - 1];
      MapCheckedSucceedsIff(init, ok, f);
      assert forall i :: 0 <= i < |init| ==> init[i] == xs[i];
    }
  }

  lemma {:induction false} MapCheckedPointwise<T, U>(xs: seq<T>, ok: T -> bool, f: T -> U)
    requires MapChecked(xs, ok, f).Some?
    ensures forall i :: 0 <= i < |xs| ==> ok(xs[i]) && MapChecked(xs, ok, f).value[i] == f(xs[i])
  {
    if xs != [] {
      var init := xs[..|xs| - 1];
      MapCheckedPointwise(init, ok, f);
      assert forall i :: 0 <= i < |init| ==> init[i] == xs[i];
    }
  }

  /** `Relabel` where the field has a label; any other field is left as it is. */
  function RelabelIfLabelled(lib: Lib, page: nat, field: Value): Value {
    if IsLabelled(field) then Relabel(lib, page, field) else field
  }

  /** The relabelled fields of one page, or `None` when one of them has no label (the code raises). */
  function RelabelAll(lib: Lib, page: nat, fields: seq<Value>): Option<seq<Value>> {
    MapChecked(fields, IsLabelled, (field: Value) => RelabelIfLabelled(lib, page, field))
  }

  /** A page's fields relabel iff all of them carry a label, and then pointwise and in order. */
  lemma RelabelAllPointwise(lib: Lib, page: nat, fields: seq<Value>)
    ensures RelabelAll(lib, page, fields).Some? <==> forall i :: 0 <= i < |fields| ==> IsLabelled(fields[i])
    ensures RelabelAll(lib, page, fields).Some? ==>
      |RelabelAll(lib, page, fields).value| == |fields| &&
      forall i :: 0 <= i < |fields| ==> IsLabelled(fields[i]) && RelabelAll(lib, page, fields).value[i] == Relabel(lib, page, fields[i])
  {
    var rel := (field: Value) => RelabelIfLabelled(lib, page, field);
    MapCheckedSucceedsIff(fields, IsLabelled, rel);
    if RelabelAll(lib, page, fields).Some? {
      MapCheckedPointwise(fields, IsLabelled, rel);
    }
  }

  /** The fields of a page's document; a document without a field list contributes none. */
  function PageFields(doc: Value): seq<Value> {
    if HasFieldList(doc) then FieldList(doc) else []
  }

  /** The documents the corrected extractor returns for the pages, in page order; as written, the same wherever a page can be read. */
  function PageDocs(lib: Lib, calls: seq<ImageCall>): (docs: seq<Value>)
    ensures |docs| == |calls|
    ensures forall i :: 0 <= i < |calls| ==> docs[i] == ExtractFromImageCorrected(lib, calls[i])
  {
    seq(|calls|, i requires 0 <= i < |calls| => ExtractFromImageCorrected(lib, calls[i]))
  }

  /** A readable page's document is what the extractor as written answers for it. */
  lemma ReadablePageDoc(lib: Lib, calls: seq<ImageCall>, i: nat)
    requires i < |calls| && !calls[i].EncodingFailed?
    ensures ExtractFromImage(lib, calls[i]) == Ok(PageDocs(lib, calls)[i])
  {
  }

  /** The index of the first page whose image cannot be read, or the page count when every one can. */
  function FirstUnreadable(calls: seq<ImageCall>): (r: nat)
    ensures r <= |calls|
    ensures forall i :: 0 <= i < r ==> !calls[i].EncodingFailed?
    ensures r < |calls| ==> calls[r].EncodingFailed?
  {
    if calls == [] || calls[0].EncodingFailed? then 0
    else 1 + FirstUnreadable(calls[1..])
  }

  /** A readable page at or before the first unreadable one is before it. */
  lemma ReadablePageAdvances(calls: seq<ImageCall>, n: nat)
    requires n < |calls| && n <= FirstUnreadable(calls) && !calls[n].EncodingFailed?
    ensures n + 1 <= FirstUnreadable(calls)
  {
  }

  /** An unreadable page at or before the first unreadable one is that one. */
  lemma UnreadablePageIsFirst(calls: seq<ImageCall>, n: nat)
    requires n < |calls| && n <= FirstUnreadable(calls) && calls[n].EncodingFailed?
    ensures FirstUnreadable(calls) == n
  {
  }

  /** The pieces `pages(1)`, ..., `pages(n)` one after the other, or `None` when one of them is `None`. */
  function ConcatPages<U>(pages: nat -> Option<seq<U>>, n: nat): Option<seq<U>> {
    if n == 0 then Some([])
    else
      match ConcatPages(pages, n - 1)
      case None => None
      case Some(before) =>
        match pages(n)
        case None => None
        case Some(page) => Some(before + page)
  }

  lemma {:induction false} ConcatFailsFrom<U>(pages: nat -> Option<seq<U>>, k: nat, n: nat)
    requires 1 <= k <= n && pages(k).None?
    ensures ConcatPages(pages, n).None?
  {
    if n > k {
      ConcatFailsFrom(pages, k, n - 1);
    }
  }

  lemma {:induction false} ConcatOfEmptyPages<U>(pages: nat -> Option<seq<U>>, n: nat)
    requires forall k :: 1 <= k <= n ==> pages(k) == Some([])
    ensures ConcatPages(pages, n) == Some([])
  {
    if n > 0 {
      ConcatOfEmptyPages(pages, n - 1);
      var none: seq<U> := [];
      assert none + none == none;
    }
  }

  /** Page `k` (from 1) of `docs`, relabelled; `None` outside the document list. */
  function RelabelPage(lib: Lib, docs: seq<Value>, k: nat): Option<seq<Value>> {
    if 1 <= k <= |docs| then RelabelAll(lib, k, PageFields(docs[k - 1])) else None
  }

  /** The relabelled fields of the first `n` pages, in page order. */
  function CollectPages(lib: Lib, docs: seq<Value>, n: nat): Option<seq<Value>>
    requires n <= |docs|
  {
    ConcatPages((k: nat) => RelabelPage(lib, docs, k), n)
  }

  /** One more page appends its relabelled fields. */
  lemma CollectStep(lib: Lib, docs: seq<Value>, n: nat, before: seq<Value>, page: seq<Value>)
    requires 1 <= n <= |docs|
    requires CollectPages(lib, docs, n - 1) == Some(before)
    requires RelabelAll(lib, n, PageFields(docs[n - 1])) == Some(page)
    ensures CollectPages(lib, docs, n) == Some(before + page)
  {
    assert RelabelPage(lib, docs, n) == Some(page);
  }

  /** One more labelled field appends its relabelled copy. */
  lemma RelabelStep(lib: Lib, page: nat, fields: seq<Value>, j: nat)
    requires j < |fields| && IsLabelled(fields[j]) && RelabelAll(lib, page, fields[..j]).Some?
    ensures RelabelAll(lib, page, fields[..j + 1]) == Some(RelabelAll(lib, page, fields[..j]).value + [Relabel(lib, page, fields[j])])
  {
    assert fields[..j + 1][..j] == fields[..j];
  }

  const NoDataField: Value := Field("No Data", "No text extracted from PDF")

  /** What `extract_from_pdf_pages` returns for the pages' documents when no page raises; `None` where it raises. */
  function PdfPages(lib: Lib, docs: seq<Value>): (r: Option<Value>)
    ensures r.Some? <==> CollectPages(lib, docs, |docs|).Some?
    ensures r.Some? && CollectPages(lib, docs, |docs|).value == [] ==> r.value == FieldsDoc([NoDataField])
    ensures r.Some? && CollectPages(lib, docs, |docs|).value != [] ==> r.value == FieldsDoc(CollectPages(lib, docs, |docs|).value)
  {
    match CollectPages(lib, docs, |docs|)
    case None => None
    case Some(all) => Some(FieldsDoc(if all == [] then [NoDataField] else all))
  }

  /**
   * `extract_from_pdf_pages` as written, over the pages' documents `docs` of
   * which the first `p` can be read: those pages are relabelled in order
   * (raising `relabelError` where a field has no label), then an unreadable
   * page raises the unbound `trace`; with every page readable it is `PdfPages`.
   */
  function PdfRun(lib: Lib, docs: seq<Value>, p: nat, relabelError: Raised): (r: Result<Value, Raised>)
    requires p <= |docs|
    ensures r.Ok? ==> HasFieldList(r.value)
  {
    match CollectPages(lib, docs, p)
    case None => Err(relabelError)
    case Some(all) =>
      if p < |docs| then Err(TraceUnbound)
      else
        FieldsDocHasFieldList([NoDataField]);
        FieldsDocHasFieldList(all);
        Ok(FieldsDoc(if all == [] then [NoDataField] else all))
  }

  /**
   * The run answers iff every page can be read and relabelled, and then exactly
   * as `PdfPages`; otherwise it raises the relabelling error or the unbound `trace`.
   */
  lemma PdfRunOutcomes(lib: Lib, docs: seq<Value>, p: nat, relabelError: Raised)
    requires p <= |docs|
    ensures var r := PdfRun(lib, docs, p, relabelError);
      && (r.Ok? <==> p == |docs| && PdfPages(lib, docs).Some?)
      && (r.Ok? ==> r.value == PdfPages(lib, docs).value)
      && (r.Err? ==> r.error == relabelError || r.error == TraceUnbound)
      && (p == |docs| && r.Err? ==> r.error == relabelError)
  {
  }

  /** A PDF whose first page cannot be read raises the unbound `trace`, whatever the other pages hold. */
  lemma UnreadableFirstPageRaises(lib: Lib, calls: seq<ImageCall>, relabelError: Raised)
    requires calls != [] && calls[0].EncodingFailed?
    ensures PdfRun(lib, PageDocs(lib, calls), FirstUnreadable(calls), relabelError) == Err(TraceUnbound)
  {
    assert FirstUnreadable(calls) == 0;
    assert CollectPages(lib, PageDocs(lib, calls), 0) == Some([]);
  }

  lemma PdfRunStopsAtUnreadable(lib: Lib, docs: seq<Value>, p: nat, relabelError: Raised, before: seq<Value>)
    requires p < |docs| && CollectPages(lib, docs, p) == Some(before)
    ensures PdfRun(lib, docs, p, relabelError) == Err(TraceUnbound)
  {
  }

  lemma PdfRunStopsAtRelabel(lib: Lib, docs: seq<Value>, p: nat, relabelError: Raised)
    requires p <= |docs| && CollectPages(lib, docs, p).None?
    ensures PdfRun(lib, docs, p, relabelError) == Err(relabelError)
  {
  }

  lemma PdfRunCompletes(lib: Lib, docs: seq<Value>, relabelError: Raised, all: seq<Value>)
    requires CollectPages(lib, docs, |docs|) == Some(all)
    ensures PdfRun(lib, docs, |docs|, relabelError) == Ok(FieldsDoc(if all == [] then [NoDataField] else all))
  {
  }

  /** `extract_from_pdf_pages`: one extraction per page, whose relabelled fields are appended in page order. */
  method ExtractFromPdfPages(lib: Lib, calls: seq<ImageCall>, relabelError: Raised) returns (r: Result<Value, Raised>)
    ensures r == PdfRun(lib, PageDocs(lib, calls), FirstUnreadable(calls), relabelError)
  {
    ghost var docs := PageDocs(lib, calls);
    var allFields: seq<Value> := [];
    var pageNum := 1;
    assert CollectPages(lib, docs, 0) == Some([]);
    while pageNum <= |calls|
      invariant 1 <= pageNum <= |calls| + 1
      invariant pageNum - 1 <= FirstUnreadable(calls)
      invariant CollectPages(lib, docs, pageNum - 1) == Some(allFields)
    {
      var pageData := ReadPage(lib, calls, pageNum - 1);
      if pageData.Err? {
        PdfRunStopsAtUnreadable(lib, docs, pageNum - 1, relabelError, allFields);
        return Err(pageData.error);
      }
      var fields: seq<Value> := [];
      if HasFieldList(pageData.value) {
        fields := FieldList(pageData.value);
      }
      assert fields == PageFields(docs[pageNum - 1]);
      var appended := AppendRelabelled(lib, pageNum, fields, allFields);
      if appended.None? {
        CollectFails(lib, docs, pageNum, FirstUnreadable(calls));
        PdfRunStopsAtRelabel(lib, docs, FirstUnreadable(calls), relabelError);
        return Err(relabelError);
      }
      CollectStep(lib, docs, pageNum, allFields, RelabelAll(lib, pageNum, fields).value);
      allFields := appended.value;
      pageNum := pageNum + 1;
    }
    assert FirstUnreadable(calls) == |calls|;
    PdfRunCompletes(lib, docs, relabelError, allFields);
    if allFields == [] {
      return Ok(FieldsDoc([NoDataField]));
    }
    return Ok(FieldsDoc(allFields));
  }

  /** The loop's `extract_from_image` call for page `k + 1`, of which the first `k` pages were readable. */
  method ReadPage(lib: Lib, calls: seq<ImageCall>, k: nat) returns (pageData: Result<Value, Raised>)
    requires k < |calls| && k <= FirstUnreadable(calls)
    ensures pageData.Err? ==> FirstUnreadable(calls) == k && pageData.error == TraceUnbound
    ensures pageData.Ok? ==> k + 1 <= FirstUnreadable(calls) && pageData.value == PageDocs(lib, calls)[k]
  {
    pageData := ExtractFromImage(lib, calls[k]);
    if pageData.Err? {
      UnreadablePageIsFirst(calls, k);
    } else {
      ReadablePageAdvances(calls, k);
      ReadablePageDoc(lib, calls, k);
    }
  }

  /** The inner loop: relabels each field of one page in place and appends it to `acc`; `None` where it raises. */
  method AppendRelabelled(lib: Lib, page: nat, fields: seq<Value>, acc: seq<Value>) returns (r: Option<seq<Value>>)
    ensures RelabelAll(lib, page, fields).None? ==> r.None?
    ensures RelabelAll(lib, page, fields).Some? ==> r == Some(acc + RelabelAll(lib, page, fields).value)
  {
    var all := acc;
    var j := 0;
    while j < |fields|
      invariant 0 <= j <= |fields|
      invariant RelabelAll(lib, page, fields[..j]).Some?
      invariant all == acc + RelabelAll(lib, page, fields[..j]).value
    {
      var field := fields[j];
      if !IsLabelled(field) {
        RelabelPrefixFails(lib, page, fields, j);
        return None;
      }
      RelabelStep(lib, page, fields, j);
      all := all + [Relabel(lib, page, field)];
      j := j + 1;
    }
    assert fields[..j] == fields;
    return Some(all);
  }

  /** A field without a label makes the page's whole list fail. */
  lemma RelabelPrefixFails(lib: Lib, page: nat, fields: seq<Value>, k: nat)
    requires k < |fields| && !IsLabelled(fields[k])
    ensures RelabelAll(lib, page, fields).None?
  {
    RelabelAllPointwise(lib, page, fields);
  }

  /** A page that cannot be relabelled makes every run through it fail. */
  lemma CollectFails(lib: Lib, docs: seq<Value>, n: nat, m: nat)
    requires 1 <= n <= m <= |docs|
    requires RelabelAll(lib, n, PageFields(docs[n - 1])).None?
    ensures CollectPages(lib, docs, m).None?
  {
    ConcatFailsFrom((k: nat) => RelabelPage(lib, docs, k), n, m);
  }

  /** Every document the extractor answers with has a field list, so every page's fields are visited. */
  lemma EveryPageHasFieldList(lib: Lib, call: ImageCall)
    ensures PageFields(ExtractFromImageCorrected(lib, call)) == FieldList(ExtractFromImageCorrected(lib, call))
    ensures ExtractFromImage(lib, call).Ok? ==> PageFields(ExtractFromImage(lib, call).value) == FieldList(ExtractFromImage(lib, call).value)
  {
  }

  /** Pages that yield no fields give exactly the one "No Data" field. */
  lemma EmptyPagesGiveNoData(lib: Lib, docs: seq<Value>)
    requires forall i :: 0 <= i < |docs| ==> PageFields(docs[i]) == []
    ensures PdfPages(lib, docs) == Some(FieldsDoc([NoDataField]))
  {
    forall k | 1 <= k <= |docs|
      ensures RelabelPage(lib, docs, k) == Some([])
    {
      assert PageFields(docs[k - 1]) == [];
    }
    ConcatOfEmptyPages((k: nat) => RelabelPage(lib, docs, k), |docs|);
  }

  /** A successful run of `n` pages is a successful run of `n - 1` pages followed by page `n`. */
  lemma CollectSplit(lib: Lib, docs: seq<Value>, n: nat)
    requires 1 <= n <= |docs| && CollectPages(lib, docs, n).Some?
    ensures CollectPages(lib, docs, n - 1).Some? && RelabelAll(lib, n, PageFields(docs[n - 1])).Some?
    ensures CollectPages(lib, docs, n).value ==
      CollectPages(lib, docs, n - 1).value + RelabelAll(lib, n, PageFields(docs[n - 1])).value
  {
    assert RelabelPage(lib, docs, n) == RelabelAll(lib, n, PageFields(docs[n - 1]));
  }

  /** Every collected field carries a `Page k - ` label prefix for a page number `k` between 1 and `n`. */
  lemma {:induction false} CollectedLabelsNamePages(lib: Lib, docs: seq<Value>, n: nat)
    requires n <= |docs| && CollectPages(lib, docs, n).Some?
    ensures forall f :: f in CollectPages(lib, docs, n).value ==>
      IsLabelled(f) && exists k, rest :: 1 <= k <= n && Get(f.entries, "label") == Str(PagePrefix(k) + rest)
  {
    if n > 0 {
      CollectSplit(lib, docs, n);
      CollectedLabelsNamePages(lib, docs, n - 1);
      var fields := PageFields(docs[n - 1]);
      var page := RelabelAll(lib, n, fields).value;
      RelabelAllPointwise(lib, n, fields);
      forall f | f in page
        ensures IsLabelled(f) && exists k, rest :: 1 <= k <= n && Get(f.entries, "label") == Str(PagePrefix(k) + rest)
      {
        var i :| 0 <= i < |page| && page[i] == f;
        var rest := PyStr(lib, Get(fields[i].entries, "label"));
        RelabelKeepsOtherEntries(lib, n, fields[i]);
        assert Get(f.entries, "label") == Str(PagePrefix(n) + rest);
      }
    }
  }
}

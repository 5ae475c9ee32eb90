# Handwritten form extraction, modelled in Dafny

The system reads handwritten forms. A browser front-end lets the user pick or
drop an image or PDF. The upload widget checks the file's type and size and
shows a preview. The page sends the file to a back-end, shows a busy panel,
and then shows the result or the error. A record manager lists, searches,
views, edits and deletes the stored extraction records.

The back-end checks the upload's name and extension. It sends PDFs to the
page-by-page extractor and images to the single-image extractor. Whatever they
return is normalised to a `{"fields": [...]}` document, saved and inserted as a
database record. The record endpoints map the store's answers to HTTP errors.

The field extractor calls a vision model over HTTP and turns almost every
outcome into a field list. Those outcomes are a 503 "model loading" reply,
another HTTP error, JSON inside the generated text, text that is not JSON, and
an exception raised once the image has been read. An image that cannot be read
is the exception: the error handler then tests a variable that was never
assigned and raises `UnboundLocalError` itself. The back-end reports that as an
extraction error, or on a PDF as a processing error (see "## Findings"). On PDFs the extractor prefixes every field label with its page
number. A separate agent picks one of three vision back-ends from the
configured keys: HuggingFace, then Groq, then a local Ollama. It strips
markdown code fences from the model's reply, parses the reply, translates it to
English when needed, and wraps the outcome in a success or error record.

One module per source file:

| module | file | form |
|---|---|---|
| `FileUpload` | `frontend/src/components/FileUpload.jsx` | class `Widget` over the component's state, plus pure validation |
| `FormManager` | `frontend/src/components/FormManager.jsx` | class `Manager` over the view's state, plus pure search, update, delete and flatten functions |
| `App` | `frontend/src/App.jsx` | class `Page` holding a `FileUpload.Widget`, plus the panel choice |
| `ResultDisplay` | `frontend/src/components/ResultDisplay.jsx` | pure |
| `Agent` | `backend/agent.py` | pure, with the reply cleaning also written as a step-by-step method |
| `LangChain` | `backend/langchain_integration.py` | pure, with the page loop as methods with loop invariants |
| `MainApi` | `backend/main.py` | class `Server` over the upload and result directories and the record store, plus pure extraction and validation |

Three more modules support them:

- `Wrappers` defines `Option` and `Result`.
- `Text` covers ASCII lower-casing, Python's `strip`, `find` and `rfind`, prefix and suffix tests, and decimal printing.
- `Json` defines JSON values, JavaScript truthiness, `String(v)`, `Object.entries`, and key lookup and update.

JSON parsing and serialising are the arrow fields of a `Json.Lib` value passed
in as a parameter. Every proof therefore holds for any parser and any printer.
All remote calls are inputs to the operations that await them: the vision
models, the translation calls, the record service and the database. An input
is either the reply or the text of the exception raised.

## Model

Source paths below are relative to the repository snapshot. The front-end
files are under `Sashwitha/Ai-Handwritten-text-extractor-main/frontend/src/`.
The agent is at `Sashwitha/Ai-Handwritten-text-extractor-main/backend/agent.py`.
The back-end server and field extractor are under `backend/`.

| member | source | states |
|---|---|---|
| FileUpload.Rejection | Sashwitha/Ai-Handwritten-text-extractor-main/frontend/src/components/FileUpload.jsx:43-52 | a file is accepted iff its MIME type is one of the four allowed and its size is at most 10 MiB; the type alert iff the type is not allowed; the size alert iff the type is allowed and the file is larger |
| FileUpload.TypeCheckedBeforeSize | Sashwitha/Ai-Handwritten-text-extractor-main/frontend/src/components/FileUpload.jsx:44-52 | a file that is both of a bad type and too large gets only the type alert |
| FileUpload.SizeLimitIsInclusive | Sashwitha/Ai-Handwritten-text-extractor-main/frontend/src/components/FileUpload.jsx:49-52 | exactly 10485760 bytes of an allowed type is accepted; 10485761 bytes gets the size alert |
| FileUpload.ShownPreview | Sashwitha/Ai-Handwritten-text-extractor-main/frontend/src/components/FileUpload.jsx:91-96 | an image is shown iff a non-empty preview exists; the upload trigger is shown iff there is neither a preview nor a selected file |
| FileUpload.Widget.constructor | Sashwitha/Ai-Handwritten-text-extractor-main/frontend/src/components/FileUpload.jsx:11-15 | a fresh widget has no selection, no preview, no highlight, no alerts and no notifications |
| FileUpload.Widget.HandleDrag | Sashwitha/Ai-Handwritten-text-extractor-main/frontend/src/components/FileUpload.jsx:17-25 | dragenter and dragover set the highlight, dragleave clears it, and any other event type leaves it |
| FileUpload.Widget.HandleFile | Sashwitha/Ai-Handwritten-text-extractor-main/frontend/src/components/FileUpload.jsx:43-65 | a rejected file adds exactly its alert and changes nothing else; an accepted file becomes the selection, gets the data-URL preview unless it is a PDF, and is reported to the owner exactly once, with no alert |
| FileUpload.Widget.HandleDrop | Sashwitha/Ai-Handwritten-text-extractor-main/frontend/src/components/FileUpload.jsx:27-34 | the highlight is always cleared; an empty drop changes nothing else; otherwise the first file is handled as in HandleFile: a rejected one adds only its alert, an accepted one becomes the selection with the data-URL preview (none for a PDF) and is passed to the parent |
| FileUpload.Widget.HandleChange | Sashwitha/Ai-Handwritten-text-extractor-main/frontend/src/components/FileUpload.jsx:36-41 | an empty pick changes nothing; otherwise the first file is handled as in HandleFile, preview included |
| FileUpload.Widget.ClearSelection | Sashwitha/Ai-Handwritten-text-extractor-main/frontend/src/components/FileUpload.jsx:67-71 | selection, preview and input value are cleared, so the preview area shows the upload trigger |
| FormManager.Filter | Sashwitha/Ai-Handwritten-text-extractor-main/frontend/src/components/FormManager.jsx:224-232 | filtering never lengthens the list |
| FormManager.FilterIsSubsequence | Sashwitha/Ai-Handwritten-text-extractor-main/frontend/src/components/FormManager.jsx:224-232 | the filtered list is a subsequence of the original: order is kept |
| FormManager.FilterMembership | Sashwitha/Ai-Handwritten-text-extractor-main/frontend/src/components/FormManager.jsx:224-232 | an element is in the filtered list iff it is in the list and passes the test |
| FormManager.FilterKeepsAll | Sashwitha/Ai-Handwritten-text-extractor-main/frontend/src/components/FormManager.jsx:224-232 | when every element passes, filtering returns the list unchanged |
| FormManager.FilterKeepsNone | Sashwitha/Ai-Handwritten-text-extractor-main/frontend/src/components/FormManager.jsx:224-232 | when no element passes, filtering returns the empty list |
| FormManager.Matches | Sashwitha/Ai-Handwritten-text-extractor-main/frontend/src/components/FormManager.jsx:226-231 | the case-insensitive test on the name or the payload text; the empty term matches every record (the lemmas below state the search built on it) |
| FormManager.FilteredForms | Sashwitha/Ai-Handwritten-text-extractor-main/frontend/src/components/FormManager.jsx:224-232 | never longer than the list, and a record is in the result iff it is in the list and the term matches it |
| FormManager.EmptySearchShowsAll | Sashwitha/Ai-Handwritten-text-extractor-main/frontend/src/components/FormManager.jsx:225 | an empty search term shows every record |
| FormManager.SearchKeepsExactlyMatches | Sashwitha/Ai-Handwritten-text-extractor-main/frontend/src/components/FormManager.jsx:224-232 | the search result keeps the list's order, and a record is in it iff the term is empty or occurs, case-insensitively, in its name or in its payload text |
| FormManager.EmptyTermMatchesEverything | Sashwitha/Ai-Handwritten-text-extractor-main/frontend/src/components/FormManager.jsx:225-231 | the early return for an empty term agrees with the match test: the empty term matches every record |
| FormManager.UnmatchedTermShowsNothing | Sashwitha/Ai-Handwritten-text-extractor-main/frontend/src/components/FormManager.jsx:224-232 | a non-empty term that matches no record leaves an empty list |
| FormManager.SearchIgnoresCase | Sashwitha/Ai-Handwritten-text-extractor-main/frontend/src/components/FormManager.jsx:226-227 | the term "invoice" matches a record named "Invoice_2024.pdf" |
| FormManager.Edited | Sashwitha/Ai-Handwritten-text-extractor-main/frontend/src/components/FormManager.jsx:99 | the edited record keeps its id and creation time and takes the new name and the edit box text as its payload |
| FormManager.ReplaceById | Sashwitha/Ai-Handwritten-text-extractor-main/frontend/src/components/FormManager.jsx:99 | same length; every record with the edited id gets the new name and textual payload with its other fields kept; every other record is unchanged |
| FormManager.ReplaceKeepsIds | Sashwitha/Ai-Handwritten-text-extractor-main/frontend/src/components/FormManager.jsx:99 | an edit keeps every record's id and creation time at its position |
| FormManager.RemoveById | Sashwitha/Ai-Handwritten-text-extractor-main/frontend/src/components/FormManager.jsx:112 | never longer than the list, and a record is in the result iff it was in the list and its id differs from the deleted one |
| FormManager.RemoveExactlyTarget | Sashwitha/Ai-Handwritten-text-extractor-main/frontend/src/components/FormManager.jsx:112 | after a delete the list is a subsequence of the old one, and a record is in it iff it was there and its id differs from the target |
| FormManager.RemoveAbsentIdKeepsList | Sashwitha/Ai-Handwritten-text-extractor-main/frontend/src/components/FormManager.jsx:112 | deleting an id that no record has leaves the list as it was |
| FormManager.Flatten | Sashwitha/Ai-Handwritten-text-extractor-main/frontend/src/components/FormManager.jsx:186-198 | the definition of `flattenObject`; what it computes is stated by FlattenLengthIsLeafCount, FlattenKeysCarryPrefix and FlattenShallow, and FlattenObject is proved to compute it |
| FormManager.FlattenFirst | Sashwitha/Ai-Handwritten-text-extractor-main/frontend/src/components/FormManager.jsx:188-196 | the rows of the first n entries, the loop prefix of Flatten; FlattenObject keeps it as its loop invariant |
| FormManager.FlattenObject | Sashwitha/Ai-Handwritten-text-extractor-main/frontend/src/components/FormManager.jsx:186-198 | the loop that pushes rows, recursing into nested plain objects, computes exactly the flattening function |
| FormManager.FlattenLengthIsLeafCount | Sashwitha/Ai-Handwritten-text-extractor-main/frontend/src/components/FormManager.jsx:186-198 | the flattening has one row per leaf: one per value reachable through nested plain objects that is not itself such an object |
| FormManager.FlattenKeysCarryPrefix | Sashwitha/Ai-Handwritten-text-extractor-main/frontend/src/components/FormManager.jsx:189 | under a non-empty prefix every row's key starts with the prefix and the arrow separator |
| FormManager.FlattenShallow | Sashwitha/Ai-Handwritten-text-extractor-main/frontend/src/components/FormManager.jsx:188-196 | an object with no nested object gives one row per entry, in order: its key and `String(value)` |
| FormManager.Truncate | Sashwitha/Ai-Handwritten-text-extractor-main/frontend/src/components/FormManager.jsx:165 | a preview cell is at most 23 characters; values of up to 20 characters are shown whole; longer ones show their first 20 followed by `...` |
| FormManager.PreviewTable | Sashwitha/Ai-Handwritten-text-extractor-main/frontend/src/components/FormManager.jsx:149-174 | "Invalid Format" iff a string payload does not parse; a table iff the payload is a truthy object or array, otherwise `String(value)` as plain text; the table shows the first min(3, n) entries with truncated values and a "+k more fields" count iff n > 3, k = n - 3 |
| FormManager.FullTable | Sashwitha/Ai-Handwritten-text-extractor-main/frontend/src/components/FormManager.jsx:177-222 | "Invalid Format" iff a string payload does not parse; a table iff the payload is a truthy object or array, otherwise `String(value)` as plain text; the table is exactly the flattening, one row per leaf, with no "more" row |
| FormManager.EditTextRoundTrip | Sashwitha/Ai-Handwritten-text-extractor-main/frontend/src/components/FormManager.jsx:63-69 | for a printer that reads back, the edit box text passes the JSON check of `handleUpdate` iff the payload is JSON, and saving it unchanged stores text that parses to the payload's value |
| FormManager.EmptyStateOf | Sashwitha/Ai-Handwritten-text-extractor-main/frontend/src/components/FormManager.jsx:276-280 | while loading no message is shown; "No records found" iff there are no records; "No matching records found" iff there are records but none pass the search |
| FormManager.Manager.constructor | Sashwitha/Ai-Handwritten-text-extractor-main/frontend/src/components/FormManager.jsx:21-31 | every state variable starts at its initial value |
| FormManager.Manager.FetchForms | Sashwitha/Ai-Handwritten-text-extractor-main/frontend/src/components/FormManager.jsx:42-52 | a reply replaces the list, a failed request keeps it, and loading ends off either way |
| FormManager.Manager.HandleOpenView | Sashwitha/Ai-Handwritten-text-extractor-main/frontend/src/components/FormManager.jsx:54-57 | the record is selected and the view modal opens |
| FormManager.Manager.HandleOpenEdit | Sashwitha/Ai-Handwritten-text-extractor-main/frontend/src/components/FormManager.jsx:59-72 | the record is selected, the edit modal opens, and the edit box holds its name (or "") and its payload text |
| FormManager.Manager.HandleCloseModal | Sashwitha/Ai-Handwritten-text-extractor-main/frontend/src/components/FormManager.jsx:74-79 | selection, modal, edit name and edit text are reset |
| FormManager.Manager.HandleUpdate | Sashwitha/Ai-Handwritten-text-extractor-main/frontend/src/components/FormManager.jsx:81-106 | with no selection nothing changes; invalid JSON only adds the alert and makes no service call; otherwise exactly one update call is made; on success the edited record is replaced, the success popup shows and the modal closes; on failure the list and modal stay and the error popup shows |
| FormManager.Manager.HandleDeleteClick | Sashwitha/Ai-Handwritten-text-extractor-main/frontend/src/components/FormManager.jsx:122-124 | the id awaits confirmation |
| FormManager.Manager.CancelDelete | Sashwitha/Ai-Handwritten-text-extractor-main/frontend/src/components/FormManager.jsx:403 | no id awaits confirmation |
| FormManager.Manager.ConfirmDelete | Sashwitha/Ai-Handwritten-text-extractor-main/frontend/src/components/FormManager.jsx:108-120 | a falsy pending id changes nothing; otherwise one delete call is made and the pending id is cleared; on success every record with that id leaves the list and the success popup shows; on failure the list stays and the error popup shows |
| FormManager.Manager.SetSearchTerm | Sashwitha/Ai-Handwritten-text-extractor-main/frontend/src/components/FormManager.jsx:272 | the search term becomes the typed text |
| App.ErrorMessage | Sashwitha/Ai-Handwritten-text-extractor-main/frontend/src/App.jsx:70 | never empty; the server's non-empty detail first, else the transport's non-empty message, else "Failed to process image" |
| App.RightPanel | Sashwitha/Ai-Handwritten-text-extractor-main/frontend/src/App.jsx:144-228 | the result panel iff there is a result; the loading panel iff none and loading; the file-ready panel iff neither but a file is selected; otherwise the idle panel |
| App.Page.constructor | Sashwitha/Ai-Handwritten-text-extractor-main/frontend/src/App.jsx:16-22 | no result, not loading, no error, upload tab, key 0, count 0, no file, no request sent, and a freshly mounted empty upload widget |
| App.Page.FetchDbCount | Sashwitha/Ai-Handwritten-text-extractor-main/frontend/src/App.jsx:25-36 | the count is the number of stored records, or 0 when the request fails |
| App.Page.HandleUploadSuccess | Sashwitha/Ai-Handwritten-text-extractor-main/frontend/src/App.jsx:38-45 | the result is shown, the error cleared, and the count goes up by one iff the record was saved |
| App.Page.HandleUploadError | Sashwitha/Ai-Handwritten-text-extractor-main/frontend/src/App.jsx:47-50 | the error is shown and the result dropped |
| App.Page.HandleFileSelect | Sashwitha/Ai-Handwritten-text-extractor-main/frontend/src/App.jsx:52-55 | the file is selected and the error cleared |
| App.Page.PickFiles | Sashwitha/Ai-Handwritten-text-extractor-main/frontend/src/App.jsx:131-135 | a file the widget accepts becomes the page's and the widget's selection and clears the error; an empty pick or a rejected file leaves the page's file and error and the widget's selection and preview as they were |
| App.Page.BeginExtract | Sashwitha/Ai-Handwritten-text-extractor-main/frontend/src/App.jsx:57-62 | without a file nothing happens; with one, loading is on, exactly that file is sent, and the panel shows loading (or the previous result) |
| App.Page.FinishExtract | Sashwitha/Ai-Handwritten-text-extractor-main/frontend/src/App.jsx:64-74 | loading ends off; a reply is shown as the result with the count updated; a failure shows the derived error message, drops the result and keeps the count, and the panel falls back to the file-ready or idle view |
| App.Page.HandleExtract | Sashwitha/Ai-Handwritten-text-extractor-main/frontend/src/App.jsx:57-75 | without a selected file nothing changes; with one, exactly that file is sent once, loading ends off, and the outcome is as in FinishExtract |
| App.Page.HandleReset | Sashwitha/Ai-Handwritten-text-extractor-main/frontend/src/App.jsx:77-82 | result, error and file are cleared; the key goes up by one; a fresh empty upload widget replaces the old one; the panel is idle unless a request is still loading |
| App.Page.DismissError | Sashwitha/Ai-Handwritten-text-extractor-main/frontend/src/App.jsx:127 | the error is cleared |
| App.Page.SetActiveTab | Sashwitha/Ai-Handwritten-text-extractor-main/frontend/src/App.jsx:97-107 | the chosen tab becomes active |
| ResultDisplay.KeyTokenIsKey | Sashwitha/Ai-Handwritten-text-extractor-main/frontend/src/components/ResultDisplay.jsx:31-33 | a quoted token followed by optional whitespace and a colon is classed key |
| ResultDisplay.StringTokenIsString | Sashwitha/Ai-Handwritten-text-extractor-main/frontend/src/components/ResultDisplay.jsx:31-36 | a quoted token without a colon is classed string, even when it contains "true" or "null" |
| ResultDisplay.LiteralTokens | Sashwitha/Ai-Handwritten-text-extractor-main/frontend/src/components/ResultDisplay.jsx:37-41 | true and false are classed boolean and null is classed null |
| ResultDisplay.NumberTokenIsNumber | Sashwitha/Ai-Handwritten-text-extractor-main/frontend/src/components/ResultDisplay.jsx:29-30 | any token made of number characters is classed number |
| ResultDisplay.Classify | Sashwitha/Ai-Handwritten-text-extractor-main/frontend/src/components/ResultDisplay.jsx:29-42 | the class the replace callback gives a token; what each token shape gets is stated by KeyTokenIsKey, StringTokenIsString, LiteralTokens and NumberTokenIsNumber |
| ResultDisplay.HighlightSourceRoundTrip | Sashwitha/Ai-Handwritten-text-extractor-main/frontend/src/components/ResultDisplay.jsx:25-28 | a string result is highlighted verbatim; for a printer that reads back, the highlighted text of any other result parses back to that result |
| ResultDisplay.DisplayFilename | Sashwitha/Ai-Handwritten-text-extractor-main/frontend/src/components/ResultDisplay.jsx:55 | never empty; a non-empty file name is shown, otherwise "document.jpg" |
| Agent.ChooseBackend | Sashwitha/Ai-Handwritten-text-extractor-main/backend/agent.py:110-116 | HuggingFace iff its token is set; Groq iff it is not and a Groq key is set; Ollama iff neither is set |
| Agent.DropOpeningFence | Sashwitha/Ai-Handwritten-text-extractor-main/backend/agent.py:378-381 | the result is a contiguous piece of its input |
| Agent.DropClosingFence | Sashwitha/Ai-Handwritten-text-extractor-main/backend/agent.py:382-383 | the result is a contiguous piece of its input |
| Agent.ParseResponse | Sashwitha/Ai-Handwritten-text-extractor-main/backend/agent.py:373-389 | the parsed cleaned reply when it is JSON, else the object `{"raw_text": cleaned}` |
| Agent.ParseJsonResponse | Sashwitha/Ai-Handwritten-text-extractor-main/backend/agent.py:373-389 | reassigning the working text step by step yields exactly ParseResponse |
| Agent.CleanResponse | Sashwitha/Ai-Handwritten-text-extractor-main/backend/agent.py:375-384 | the text handed to the parser: strip, drop an opening fence, drop a closing fence, strip; CleanedIsPieceOfReply, UnfencedReplyIsStripped and FencedReplyIsUnwrapped state what it yields |
| Agent.StripIdempotent | Sashwitha/Ai-Handwritten-text-extractor-main/backend/agent.py:384 | stripping twice is stripping once |
| Agent.CleanedIsPieceOfReply | Sashwitha/Ai-Handwritten-text-extractor-main/backend/agent.py:375-384 | the cleaned text is a contiguous piece of the reply and never longer than it |
| Agent.UnfencedReplyIsStripped | Sashwitha/Ai-Handwritten-text-extractor-main/backend/agent.py:375-384 | a reply with no fence at either end is only stripped of surrounding whitespace |
| Agent.FencedReplyIsUnwrapped | Sashwitha/Ai-Handwritten-text-extractor-main/backend/agent.py:378-384 | a reply wrapped in a json code fence yields exactly its stripped body |
| Agent.Translate | Sashwitha/Ai-Handwritten-text-extractor-main/backend/agent.py:391-457 | without a Groq key the data is returned unchanged; with one, the parsed reply of the first translation call that answers; when both calls raise, the data unchanged |
| Agent.Structured | Sashwitha/Ai-Handwritten-text-extractor-main/backend/agent.py:157-165 | the parsed reply, translated exactly when translation is attempted for that back-end |
| Agent.EnglishIsNeverTranslated | Sashwitha/Ai-Handwritten-text-extractor-main/backend/agent.py:161 | a document declared English, in any case, is returned as parsed by every back-end |
| Agent.NoGroqKeyMeansNoTranslation | Sashwitha/Ai-Handwritten-text-extractor-main/backend/agent.py:425-426 | without a Groq key no back-end alters the parsed reply |
| Agent.ExtractWith | Sashwitha/Ai-Handwritten-text-extractor-main/backend/agent.py:118-371 | every record echoes the filename, and success records carry data and no error while error records carry an error and no data; success iff the vision call answered and (for HuggingFace) the token is set; the data is the structured reply and the message the back-end's success text; a missing HuggingFace token gives its fixed error and message; a raised call gives its text and the back-end's failure message |
| Agent.ExtractHandwriting | Sashwitha/Ai-Handwritten-text-extractor-main/backend/agent.py:110-116 | through the dispatcher the record is well shaped and echoes the filename; it succeeds iff the vision call answered, with the chosen back-end's success or failure message |
| Agent.DispatchNeverReportsMissingToken | Sashwitha/Ai-Handwritten-text-extractor-main/backend/agent.py:110-116 | the dispatcher never produces the missing-token record |
| Agent.HfMessageClaimsTranslationWithoutGroq | Sashwitha/Ai-Handwritten-text-extractor-main/backend/agent.py:334-344 | with a HuggingFace token, no Groq key and a non-English language, the message says "and translated to English" while the data is the untranslated parsed reply |
| Agent.OllamaContent | Sashwitha/Ai-Handwritten-text-extractor-main/backend/agent.py:224 | the reply's `response` text, "{}" when the key is absent, and no text exactly when the body is not an object or `response` is not a string |
| Agent.OllamaCall | Sashwitha/Ai-Handwritten-text-extractor-main/backend/agent.py:223-226 | the Ollama call answers iff its reply has a readable `response`, with exactly that text; otherwise it raises |
| Agent.OllamaReplyWithoutResponse | Sashwitha/Ai-Handwritten-text-extractor-main/backend/agent.py:223-241 | an Ollama reply without a `response` key is extracted from the text "{}" and the record reports success |
| LangChain.EnvToken | backend/langchain_integration.py:86-101 | the first of the three variables that is set and non-empty, stripped, in the fixed order; the "not found" error iff none is set |
| LangChain.ResolveToken | backend/langchain_integration.py:79 | a non-empty explicit token is used as given; otherwise the environment lookup |
| LangChain.JsonSpan | backend/langchain_integration.py:211-215 | no span iff there is no `{` or the last `}` comes before the first `{`; otherwise the slice from the first `{` to the last `}`, which starts with `{` and ends with `}` |
| LangChain.InterpretGenerated | backend/langchain_integration.py:209-236 | always a field list; a parsed span with a field list is returned as it is, another parse gives the "Parsing Error" document; a parse error gives its message and the first 300 characters; text without a span gives its first 500 characters and the note |
| LangChain.StatusFields | backend/langchain_integration.py:172-188 | no status fields iff the status is 200; 503 gives the model-loading fields; any other status gives the API error, the reply text (or "HTTP n") cut to 200 characters, and the status code |
| LangChain.ExtractFromImage | backend/langchain_integration.py:256-366 | raises iff the image cannot be read, and then always the `UnboundLocalError` of the unbound `trace`; otherwise it answers as ExtractFromImageCorrected, with a `{"fields": [...]}` document |
| LangChain.ExtractFromImageCorrected | backend/langchain_integration.py:256-366 | the intended handler, with the reading error caught like every other: the answer is always a `{"fields": [...]}` document |
| LangChain.ImageCallOutcomes | backend/langchain_integration.py:256-366 | case by case: an unreadable image or a later raise gives the two-field error document of what was raised; a non-200 status gives its status fields; a 200 reply whose decoding raised gives the error document; otherwise the generated text is interpreted |
| LangChain.UnreadableImageRaises | backend/langchain_integration.py:256-366 | an image that cannot be read raises the unbound-`trace` error instead of its own, which the corrected handler reports as its error document |
| LangChain.WrappedDocumentIsReturned | backend/langchain_integration.py:209-220 | a 200 reply whose generated text is a field-list document inside prose with no `{` before it and no `}` after it returns exactly that document |
| LangChain.SpanOfWrapped | backend/langchain_integration.py:211-215 | the span of such a reply is exactly the document |
| LangChain.BracelessReplyIsShownRaw | backend/langchain_integration.py:222-229 | a 200 reply with no `{` is shown as its first 500 characters next to the "did not return valid JSON" note |
| LangChain.ErrorDoc | backend/langchain_integration.py:347-353 | a field list of exactly two fields: the exception text and its type name |
| LangChain.RelabelKeepsOtherEntries | backend/langchain_integration.py:398 | relabelling overwrites the label in place with "Page k - " followed by the old label's text, keeping every other entry where it was |
| LangChain.Relabel | backend/langchain_integration.py:398 | the label rewritten with its page prefix; RelabelKeepsOtherEntries states what it keeps and what it writes |
| LangChain.MapCheckedSucceedsIff | backend/langchain_integration.py:397-399 | the relabelling of a page succeeds iff every field can be relabelled |
| LangChain.RelabelAllPointwise | backend/langchain_integration.py:397-399 | a page relabels iff every field has a label, and then the result is each field relabelled, in order |
| LangChain.PageDocs | backend/langchain_integration.py:386-394 | one document per page, in page order, each the corrected extractor's answer for that page |
| LangChain.ReadablePageDoc | backend/langchain_integration.py:390-394 | for a readable page the extractor as written answers exactly that page's document |
| LangChain.FirstUnreadable | backend/langchain_integration.py:386-394 | the index of the first page whose image cannot be read, or the page count: every page before it can be read |
| LangChain.ReadablePageAdvances | backend/langchain_integration.py:386-394 | a readable page at or before the first unreadable one lies before it |
| LangChain.UnreadablePageIsFirst | backend/langchain_integration.py:386-394 | an unreadable page at or before the first unreadable one is that one |
| LangChain.PageFields | backend/langchain_integration.py:396 | the page document's field list, empty when it has none; EveryPageHasFieldList shows the empty case never arises for an extractor document |
| LangChain.CollectPages | backend/langchain_integration.py:386-399 | the relabelled fields of the first n pages in page order; CollectStep, CollectSplit, CollectFails and CollectedLabelsNamePages state how it grows, fails and labels |
| LangChain.PdfPages | backend/langchain_integration.py:384-405 | the run when every page can be read: an answer iff every page relabels; the collected fields in page order, or the single "No Data" field when there are none |
| LangChain.PdfRun | backend/langchain_integration.py:369-405 | the run as written: the pages before the first unreadable one are relabelled in order, then that page raises; any answer has a field list |
| LangChain.PdfRunOutcomes | backend/langchain_integration.py:369-405 | the run answers iff every page can be read and relabels, and then exactly as PdfPages; otherwise it raises the relabelling error or the unbound-`trace` error, and only the relabelling error when every page can be read |
| LangChain.UnreadableFirstPageRaises | backend/langchain_integration.py:386-394 | a PDF whose first page cannot be read raises the unbound-`trace` error, whatever the other pages hold |
| LangChain.PdfRunStopsAtUnreadable | backend/langchain_integration.py:386-394 | once the pages before an unreadable one have been relabelled, the run raises the unbound-`trace` error |
| LangChain.PdfRunStopsAtRelabel | backend/langchain_integration.py:396-399 | a relabelling failure before the first unreadable page raises the relabelling error |
| LangChain.PdfRunCompletes | backend/langchain_integration.py:401-405 | with every page read and relabelled, the answer is the collected fields, or "No Data" when there are none |
| LangChain.ExtractFromPdfPages | backend/langchain_integration.py:369-405 | the loop over pages, with its inner relabelling loop, computes exactly PdfRun of the pages' documents and the first unreadable page |
| LangChain.ReadPage | backend/langchain_integration.py:390-394 | the page's extraction raises the unbound-`trace` error iff it is the first unreadable page; otherwise it answers that page's document |
| LangChain.AppendRelabelled | backend/langchain_integration.py:397-399 | fails iff some field lacks a label; otherwise appends the page's relabelled fields to what was collected |
| LangChain.CollectFails | backend/langchain_integration.py:396-399 | one page that cannot be relabelled makes every run through it fail |
| LangChain.EveryPageHasFieldList | backend/langchain_integration.py:396 | every document the extractor answers with has a field list, so its fields are always visited |
| LangChain.EmptyPagesGiveNoData | backend/langchain_integration.py:401-405 | when no page yields a field the answer is exactly the single "No Data" field |
| LangChain.CollectedLabelsNamePages | backend/langchain_integration.py:386-399 | every collected field has a label starting with "Page k - " for a page number k between 1 and the number of pages |
| MainApi.Extension | backend/main.py:225 | empty, or a suffix of the name that starts with its only dot and contains no "/" |
| MainApi.ValidateUpload | backend/main.py:221-231 | an empty name gives 400 "No file provided"; an extension that is not allowed after lower-casing gives 400 with the allowed list; otherwise the lower-cased extension |
| MainApi.ExtensionOfPlainName | backend/main.py:225 | `stem.ext`, with a stem not starting with a dot, has extension `.ext` |
| MainApi.DotFileHasNoExtension | backend/main.py:225 | a dot-file name such as `.png` has no extension |
| MainApi.UpperCaseExtensionAccepted | backend/main.py:225-227 | `form.PDF` is accepted as `.pdf` |
| MainApi.DotFileRefused | backend/main.py:225-231 | an upload named `.png` is refused for its type |
| MainApi.RouteFor | backend/main.py:241-244 | the PDF extractor iff the extension is `.pdf` |
| MainApi.ExtractTextFromPdf | backend/main.py:125-179 | the early answers in order: no PDF support, conversion error, no pages, then the token resolved from the environment and its error; then the page extraction's answer, or the processing-error document for what it raised: a relabelling error, or the unbound-`trace` error of an unreadable page |
| MainApi.ExtractTextFromImage | backend/main.py:181-214 | with a token from the environment, the extractor's document, or the error document for what it raised (the unbound-`trace` error of an unreadable image); without one, the error document carrying the missing-token error |
| MainApi.UnreadableImageReportsUnboundTrace | backend/main.py:155-214 | an image that cannot be read comes back as the `UnboundLocalError` extraction error, and a PDF whose first page cannot be read as that processing error |
| MainApi.ProcessingErrorDoc | backend/main.py:173-179 | a field list of exactly two fields: the exception text and its type name |
| MainApi.NoTokenGivesMissingTokenError | backend/main.py:155-214 | with none of the three token variables set, the image extractor and the PDF extractor (once it has pages) answer with the "HUGGINGFACE_API_KEY not found" error |
| MainApi.Normalized | backend/main.py:246-252 | the result always has a field list; NormalizedFallbacks states the value of each fallback and NormalizedKeepsObjectEntries what an object keeps |
| MainApi.NormalizedFallbacks | backend/main.py:247-252 | a non-object becomes exactly `{"fields": []}`; a document without a field list ends with `fields` equal to `[]`, added as one more last entry when the key was missing, or put in place of the old value where it stood |
| MainApi.NormalizeFields | backend/main.py:246-252 | the three in-place checks compute exactly Normalized |
| MainApi.NormalizedKeepsValidDocument | backend/main.py:246-252 | a document that already has a field list is left exactly as it is |
| MainApi.NormalizedIdempotent | backend/main.py:246-252 | normalising twice is normalising once |
| MainApi.NormalizedKeepsObjectEntries | backend/main.py:249-252 | an object keeps every entry other than `fields` at its position |
| MainApi.PdfOutputHasFieldList | backend/main.py:125-179 | every answer of the PDF extractor has a field list |
| MainApi.ImageOutputHasFieldList | backend/main.py:181-214 | every answer of the image extractor has a field list |
| MainApi.ExtractorOutputNeedsNoNormalization | backend/main.py:240-252 | normalisation never changes what either extractor returns |
| MainApi.ExtractAndNormalize | backend/main.py:240-252 | `.pdf` goes to the PDF extractor and every other extension to the image extractor, and the reply is normalised exactly as Normalized says |
| MainApi.Server.constructor | backend/main.py:117-121 | no uploads, no result files, and the given store |
| MainApi.Server.Upload | backend/main.py:216-268 | a failed validation returns its error and writes nothing; otherwise the upload is written under the task id with its extension; the normalised document of the route's extractor is written as the result file; a store insert adds the record and returns the success body, while a store error returns 500 "Processing error: " with its text and adds no record |
| MainApi.Server.GetRecord | backend/main.py:296-306 | the stored record iff the id exists, else 404 "Record not found" |
| MainApi.Server.UpdateRecord | backend/main.py:308-324 | the body is a JSON object; a missing id gives 404 and a store failure 500 "Failed to update record", both changing nothing; otherwise only that record's document is replaced, its task kept, and the updated record returned |
| MainApi.Server.DeleteRecord | backend/main.py:326-336 | an existing id is removed and the reply carries "Record deleted successfully" and the id; a missing one gives 404 and changes nothing |
| Text.StripLeft | backend/langchain_integration.py:101 | a suffix of the input not starting with whitespace (and, by StripLeftDropsOnlySpace, only whitespace dropped) |
| Text.StripRight | backend/langchain_integration.py:101 | a prefix of the input not ending with whitespace (and, by StripRightDropsOnlySpace, only whitespace dropped) |
| Text.Strip | Sashwitha/Ai-Handwritten-text-extractor-main/backend/agent.py:375 | Python's `strip()`, right strip after left strip; StripTrims, StripLeftDropsOnlySpace and StripRightDropsOnlySpace state what it removes |
| Text.StripTrims | Sashwitha/Ai-Handwritten-text-extractor-main/backend/agent.py:375 | the stripped text is never longer than the input and neither starts nor ends with whitespace |
| Text.StripLeftDropsOnlySpace | Sashwitha/Ai-Handwritten-text-extractor-main/backend/agent.py:375 | every character `strip` removes on the left is whitespace |
| Text.StripRightDropsOnlySpace | Sashwitha/Ai-Handwritten-text-extractor-main/backend/agent.py:384 | every character `strip` removes on the right is whitespace |
| Text.Find | backend/langchain_integration.py:211 | -1 iff the character is absent, else the index of its first occurrence |
| Text.RFind | backend/langchain_integration.py:212 | -1 iff the character is absent, else the index of its last occurrence |
| Text.Take | backend/langchain_integration.py:185 | a prefix of the input: the whole text when it has at most n characters, otherwise exactly its first n |
| Json.Set | backend/langchain_integration.py:398 | the key's entry is replaced in place: same length, same position, new value, every other entry kept |

## Left out

- Network, HTTP clients, the vision models, the translation model and LangFuse tracing are not modelled. Every remote call's reply or raised text is an input.
- Image handling is not modelled: PIL preprocessing, JPEG re-encoding, base64, `pdf2image` conversion and temporary files. The page list a PDF converts to, or its conversion error, is an input.
- Whether an image can be read is an input: `ImageCall.EncodingFailed` carries what `_image_to_base64` raised. The `UnboundLocalError` text is the one CPython 3.11 and later print; older versions say "local variable 'trace' referenced before assignment".
- Decoding the vision reply body into the generated text (`backend/langchain_integration.py:190-207`) is not modelled. It is an input that yields the text or raises.
- JSON parsing and printing are parameters, not implementations. JSON numbers are integers; floating point is not modelled.
- Duplicate keys in a JSON object are not modelled: lookups find the first entry with a key.
- Lower-casing (`toLowerCase`, `lower`) is ASCII-only. JavaScript string lengths are counted in code points, not UTF-16 units.
- The regular expression that cuts highlighted JSON into tokens, and the HTML it produces, are left out. Only the class given to each token shape is modelled.
- The `FileReader` completes asynchronously. Its data-URL result is an argument of `HandleFile`.
- Timers, toast popups disappearing after 3 seconds, the clipboard copy in ResultDisplay and the card/table view toggle are not modelled.
- An upload response that arrives after a reset is not modelled. Each request settles before the next event.
- The CSS, icons and layout are left out.
- `os.path.splitext` follows the POSIX rules. A server on Windows would also split on backslashes.
- `get_result`, `list_records` and the root health check are left out. They are read-only queries with no logic beyond the store.
- The database module is not part of this model. The record store is a map, and `delete_record` is taken to report whether a row existed.
- The caching of the extractor in `get_extractor` is not modelled. Each extraction takes the environment as an input and resolves the token from it, so a variable removed after the first successful extraction, which the cached extractor would ignore, is not modelled.
- The task id from `uuid4` is an input.
- Exception texts are inputs. This covers the Ollama failures and the `TypeError`/`KeyError` raised when a PDF page field has no label.
- LangChain.InterpretGenerated: a parser that returns a non-object for a braced span is treated as the "Parsing Error" case. The code would raise a `TypeError` there, but a `{...}` span that parses is always an object.
- FormManager.Manager.FetchForms: the loading flag being on while the request is pending is not observable. The request settles within the call, so only the final `false` is stated.
- FileUpload.Widget.Shown, App.Page.Shown and FormManager.Manager.Visible are observers without contracts of their own. They name the view for the methods' postconditions.
- ResultDisplay.ShowsIdBadge is a definition of the badge condition (`ResultDisplay.jsx:58-60`) with no contract of its own.
- Json.Entries, Json.JsString and Json.Truthy are definitions of `Object.entries`, `String(v)` and JavaScript truthiness. They carry no property of their own; the table rows above state what is proved about the functions built on them.

## Findings

| source | as written | input that shows it | evidently intended | confidence | as-written member | corrected member |
|---|---|---|---|---|---|---|
| backend/langchain_integration.py:256-262 | `trace` is first assigned after `_image_to_base64`, so when reading the image raises, the handler's `if trace:` (line 356) raises `UnboundLocalError` and the decoding error is lost | an upload whose bytes PIL cannot open, such as a text file named `form.png` | the two-field "Extraction Error" document for the decoding error, as for every other failure | high, not executed | LangChain.UnreadableImageRaises | LangChain.ExtractFromImageCorrected |

The back-end's own answers keep the code as written: MainApi.UnreadableImageReportsUnboundTrace shows the error a user then sees. The page documents of a PDF run are the corrected handler's, which agree with the code as written on every readable page (LangChain.ReadablePageDoc).

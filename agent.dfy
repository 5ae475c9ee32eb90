/**
 * The handwriting-extraction agent: it picks one of three vision back-ends from
 * the configured credentials, cleans the model's reply of markdown code fences,
 * parses it, optionally translates it to English, and wraps the outcome in a
 * success or error record that always echoes the uploaded filename.
 *
 * Every remote call (the vision models, the translation calls) is an input: its
 * reply text, or the text of the exception it raised.
 */
module Agent {
  import opened Wrappers
  import opened Text
  import opened Json

  // ---------------------------------------------------------------- configuration

  /** The environment the agent reads at start-up: `HF_TOKEN` and `GROQ_API_KEY`. */
  datatype Config = Config(hfToken: Option<string>, groqApiKey: Option<string>)

  /** A client exists iff its key is set to a non-empty string (Python truthiness). */
  predicate Configured(key: Option<string>) {
    key.Some? && key.value != ""
  }

  datatype Backend = HuggingFace | Groq | Ollama

  /** `extract_handwriting`: HuggingFace if its client exists, else Groq, else the local Ollama. */
  function ChooseBackend(cfg: Config): (b: Backend)
    ensures b == HuggingFace <==> Configured(cfg.hfToken)
    ensures b == Groq <==> !Configured(cfg.hfToken) && Configured(cfg.groqApiKey)
    ensures b == Ollama <==> !Configured(cfg.hfToken) && !Configured(cfg.groqApiKey)
  {
    if Configured(cfg.hfToken) then HuggingFace
    else if Configured(cfg.groqApiKey) then Groq
    else Ollama
  }

  // ---------------------------------------------------------------- reply cleaning

  const Fence: string := "```"
  const JsonFence: string := "```json"

  function DropOpeningFence(s: string): (r: string)
    ensures IsInfix(r, s)
  {
    var a := if StartsWith(s, JsonFence) then s[7..] else s;
    var b := if StartsWith(a, Fence) then a[3..] else a;
    assert IsInfix(a, s) by { assert a == s[|s| - |a|..|s|]; }
    assert IsInfix(b, a) by { assert b == a[|a| - |b|..|a|]; }
    InfixTransitive(b, a, s);
    b
  }

  function DropClosingFence(s: string): (r: string)
    ensures IsInfix(r, s)
  {
    var r := if EndsWith(s, Fence) then s[..|s| - 3] else s;
    assert r == s[0..|r|];
    r
  }

  /** The text `_parse_json_response` hands to the JSON parser. */
  function CleanResponse(text: string): string {
    Strip(DropClosingFence(DropOpeningFence(Strip(text))))
  }

  /** What `_parse_json_response` returns: the parsed reply, or `{"raw_text": cleaned}` when it is not JSON. */
  function ParseResponse(lib: Lib, text: string): (r: Value)
    ensures !ValidJson(lib, CleanResponse(text)) ==> r == Obj([("raw_text", Str(CleanResponse(text)))])
    ensures ValidJson(lib, CleanResponse(text)) ==> r == lib.parse(CleanResponse(text)).value
  {
    var cleaned := CleanResponse(text);
    match lib.parse(cleaned)
    case Parsed(v) => v
    case Malformed(_) => Obj([("raw_text", Str(cleaned))])
  }

  /** `_parse_json_response`, reassigning the working text one step at a time. */
  method ParseJsonResponse(lib: Lib, text: string) returns (data: Value)
    ensures data == ParseResponse(lib, text)
  {
    var extracted := Strip(text);
    ghost var stripped := extracted;
    if StartsWith(extracted, JsonFence) {
      extracted := extracted[7..];
    }
    ghost var once := extracted;
    if StartsWith(extracted, Fence) {
      extracted := extracted[3..];
    }
    OpeningSteps(stripped, once, extracted);
    ghost var afterOpening := extracted;
    if EndsWith(extracted, Fence) {
      extracted := extracted[..|extracted| - 3];
    }
    assert extracted == DropClosingFence(afterOpening);
    extracted := Strip(extracted);
    match lib.parse(extracted) {
      case Parsed(v) => data := v;
      case Malformed(_) => data := Obj([("raw_text", Str(extracted))]);
    }
  }

  /** The two opening-fence steps of the method are `DropOpeningFence`. */
  lemma OpeningSteps(s: string, once: string, twice: string)
    requires once == if StartsWith(s, JsonFence) then s[7..] else s
    requires twice == if StartsWith(once, Fence) then once[3..] else once
    ensures twice == DropOpeningFence(s)
  {
  }

  /** An opening `json` fence is also an opening fence. */
  lemma JsonFenceIsFence(s: string)
    ensures StartsWith(s, JsonFence) ==> StartsWith(s, Fence)
  {
    if StartsWith(s, JsonFence) {
      assert s[..3] == s[..7][..3];
    }
  }

  lemma InfixTransitive(r: string, s: string, t: string)
    requires IsInfix(r, s) && IsInfix(s, t)
    ensures IsInfix(r, t)
  {
    var i, j :| 0 <= i <= j <= |s| && r == s[i..j];
    var a, b :| 0 <= a <= b <= |t| && s == t[a..b];
    assert a + j <= b;
    forall k | 0 <= k < |r|
      ensures r[k] == t[a + i + k]
    {
      assert r[k] == s[i + k];
      assert s[i + k] == t[a + i + k];
    }
    assert r == t[a + i..a + j];
  }

  lemma StripIsInfix(s: string)
    ensures IsInfix(Strip(s), s)
  {
    var l := StripLeft(s);
    var r := StripRight(l);
    assert r == s[|s| - |l|..|s| - |l| + |r|];
  }

  /** A string with no whitespace at either end is its own strip. */
  lemma StripKeepsTrimmed(s: string)
    requires s == [] || (!IsSpace(s[0]) && !IsSpace(s[|s| - 1]))
    ensures Strip(s) == s
  {
  }

  lemma {:induction false} StripIdempotent(s: string)
    ensures Strip(Strip(s)) == Strip(s)
  {
    var l := StripLeft(s);
    var r := StripRight(l);
    if r != [] {
      assert r[0] == l[0];
    }
    StripKeepsTrimmed(r);
  }

  /** The cleaned text is a contiguous piece of the reply, so never longer than it. */
  lemma {:induction false} CleanedIsPieceOfReply(text: string)
    ensures IsInfix(CleanResponse(text), text)
    ensures |CleanResponse(text)| <= |text|
  {
    var s3 := DropClosingFence(DropOpeningFence(Strip(text)));
    UnfencedIsPieceOfReply(text);
    StripIsInfix(s3);
    InfixTransitive(Strip(s3), s3, text);
    var i, j :| 0 <= i <= j <= |text| && CleanResponse(text) == text[i..j];
  }

  /** The two fence cuts leave a contiguous piece of the reply. */
  lemma UnfencedIsPieceOfReply(text: string)
    ensures IsInfix(DropClosingFence(DropOpeningFence(Strip(text))), text)
  {
    var s1 := Strip(text);
    var s2 := DropOpeningFence(s1);
    StripIsInfix(text);
    InfixTransitive(s2, s1, text);
    InfixTransitive(DropClosingFence(s2), s2, text);
  }

  /** A reply with no fence at either end is only stripped of surrounding whitespace. */
  lemma {:induction false} UnfencedReplyIsStripped(text: string)
    requires !StartsWith(Strip(text), Fence) && !EndsWith(Strip(text), Fence)
    ensures CleanResponse(text) == Strip(text)
  {
    var s := Strip(text);
    JsonFenceIsFence(s);
    assert DropOpeningFence(s) == s;
    StripIdempotent(text);
  }

  /** A reply fenced as a `json` code block leaves exactly its stripped body. */
  lemma {:induction false} FencedReplyIsUnwrapped(body: string)
    requires body != [] && body[0] != '`'
    ensures CleanResponse(JsonFence + body + Fence) == Strip(body)
  {
    var text := JsonFence + body + Fence;
    assert text[0] == '`' && text[|text| - 1] == '`';
    StripKeepsTrimmed(text);
    OpeningJsonFenceDropped(body);
    ClosingFenceDropped(body);
  }

  lemma OpeningJsonFenceDropped(body: string)
    requires body != [] && body[0] != '`'
    ensures DropOpeningFence(JsonFence + body + Fence) == body + Fence
  {
    var text := JsonFence + body + Fence;
    assert text[..7] == JsonFence;
    var a := text[7..];
    assert a == body + Fence;
    assert a[0] == body[0];
  }

  lemma ClosingFenceDropped(body: string)
    ensures DropClosingFence(body + Fence) == body
  {
    var a := body + Fence;
    assert a[|a| - 3..] == Fence;
    assert a[..|a| - 3] == body;
  }

  // ---------------------------------------------------------------- translation

  /** `language.lower() != "english"`. */
  predicate NeedsTranslation(language: string) {
    Lower(language) != "english"
  }

  /** The two translation calls: the LangChain one tried first, then the direct Groq one; `None` means it raised. */
  datatype TranslationCalls = TranslationCalls(viaLangChain: Option<string>, direct: Option<string>)

  /** `_translate_json_to_english`: the parsed reply of the first call that answers, else `data` itself. */
  function Translate(lib: Lib, cfg: Config, data: Value, calls: TranslationCalls): (r: Value)
    ensures !Configured(cfg.groqApiKey) ==> r == data
    ensures Configured(cfg.groqApiKey) && calls.viaLangChain.Some? ==> r == ParseResponse(lib, calls.viaLangChain.value)
    ensures Configured(cfg.groqApiKey) && calls.viaLangChain.None? && calls.direct.Some? ==> r == ParseResponse(lib, calls.direct.value)
    ensures calls.viaLangChain.None? && calls.direct.None? ==> r == data
  {
    if Configured(cfg.groqApiKey) && calls.viaLangChain.Some? then ParseResponse(lib, calls.viaLangChain.value)
    else if !Configured(cfg.groqApiKey) then data
    else if calls.direct.Some? then ParseResponse(lib, calls.direct.value)
    else data
  }

  /** Whether a back-end hands its parsed reply to the translator: Groq on language alone, the others also need a Groq client. */
  predicate TranslationAttempted(backend: Backend, cfg: Config, language: string) {
    NeedsTranslation(language) && (backend == Groq || Configured(cfg.groqApiKey))
  }

  /** The data a back-end returns for a reply: the parsed reply, translated when it is attempted. */
  function Structured(backend: Backend, cfg: Config, lib: Lib, language: string, reply: string, calls: TranslationCalls): (r: Value)
    ensures !TranslationAttempted(backend, cfg, language) ==> r == ParseResponse(lib, reply)
    ensures TranslationAttempted(backend, cfg, language) ==> r == Translate(lib, cfg, ParseResponse(lib, reply), calls)
  {
    var parsed := ParseResponse(lib, reply);
    if TranslationAttempted(backend, cfg, language) then Translate(lib, cfg, parsed, calls) else parsed
  }

  /** A document declared to be in English is returned as parsed, whatever the back-end and the translator do. */
  lemma EnglishIsNeverTranslated(backend: Backend, cfg: Config, lib: Lib, language: string, reply: string, calls: TranslationCalls)
    requires Lower(language) == "english"
    ensures Structured(backend, cfg, lib, language, reply, calls) == ParseResponse(lib, reply)
  {
  }

  /** Without a Groq key no back-end changes the parsed reply, even when translation is asked for. */
  lemma NoGroqKeyMeansNoTranslation(backend: Backend, cfg: Config, lib: Lib, language: string, reply: string, calls: TranslationCalls)
    requires !Configured(cfg.groqApiKey)
    ensures Structured(backend, cfg, lib, language, reply, calls) == ParseResponse(lib, reply)
  {
  }

  // ---------------------------------------------------------------- result records

  /** How the vision call for one back-end ended: the model's reply text, or the text of the exception raised. */
  datatype CallOutcome = Content(text: string) | Raised(error: string)

  /** The dict every extractor returns. */
  datatype Outcome = Outcome(
    success: bool,
    filename: string,
    extractedData: Option<Value>,
    error: Option<string>,
    message: string)

  /** Success records carry data and no error; error records carry an error and no data. */
  predicate WellShaped(r: Outcome) {
    (r.success ==> r.extractedData.Some? && r.error.None?) &&
    (!r.success ==> r.extractedData.None? && r.error.Some?)
  }

  const HfMissingError: string := "HuggingFace token not configured"
  const HfMissingMessage: string := "HF_TOKEN environment variable not set"
  const HfSuccessBase: string := "Handwriting extracted successfully using HuggingFace"
  const TranslatedSuffix: string := " and translated to English"

  function SuccessMessage(backend: Backend, language: string): string {
    match backend
    case Groq => "Handwriting extracted successfully using Groq Vision"
    case Ollama => "Handwriting extracted successfully using Ollama"
    case HuggingFace =>
      HfSuccessBase + (if NeedsTranslation(language) then TranslatedSuffix else "")
  }

  function FailureMessage(backend: Backend): string {
    match backend
    case Groq => "Failed to extract handwriting using Groq"
    case Ollama => "Failed to extract handwriting using Ollama"
    case HuggingFace => "Failed to extract handwriting using HuggingFace"
  }

  /**
   * `extract_handwriting_groq`, `extract_handwriting_ollama` and
   * `extract_handwriting_huggingface`: the HuggingFace one first refuses when its
   * client is missing; otherwise the record follows the vision call's outcome.
   */
  function ExtractWith(backend: Backend, cfg: Config, lib: Lib, filename: string, language: string,
                       call: CallOutcome, calls: TranslationCalls): (r: Outcome)
    ensures WellShaped(r) && r.filename == filename
    ensures r.success <==> call.Content? && (backend != HuggingFace || Configured(cfg.hfToken))
    ensures r.success ==>
      r.extractedData == Some(Structured(backend, cfg, lib, language, call.text, calls)) &&
      r.message == SuccessMessage(backend, language)
    ensures backend == HuggingFace && !Configured(cfg.hfToken) ==>
      r.error == Some(HfMissingError) && r.message == HfMissingMessage
    ensures (backend != HuggingFace || Configured(cfg.hfToken)) && call.Raised? ==>
      r.error == Some(call.error) && r.message == FailureMessage(backend)
  {
    if backend == HuggingFace && !Configured(cfg.hfToken) then
      Outcome(false, filename, None, Some(HfMissingError), HfMissingMessage)
    else
      match call
      case Content(text) =>
        Outcome(true, filename, Some(Structured(backend, cfg, lib, language, text, calls)), None, SuccessMessage(backend, language))
      case Raised(e) => Outcome(false, filename, None, Some(e), FailureMessage(backend))
  }

  /** `extract_handwriting`: the chosen back-end's record. */
  function ExtractHandwriting(cfg: Config, lib: Lib, filename: string, language: string,
                              call: CallOutcome, calls: TranslationCalls): (r: Outcome)
    ensures WellShaped(r) && r.filename == filename
    ensures r.success <==> call.Content?
    ensures r.success ==> r.message == SuccessMessage(ChooseBackend(cfg), language)
    ensures !r.success ==> r.error == Some(call.error) && r.message == FailureMessage(ChooseBackend(cfg))
  {
    ExtractWith(ChooseBackend(cfg), cfg, lib, filename, language, call, calls)
  }

  /** No success or failure message of a back-end is the missing-token message. */
  lemma {:induction false} MessagesDifferFromMissingToken(backend: Backend, language: string)
    ensures SuccessMessage(backend, language) != HfMissingMessage
    ensures FailureMessage(backend) != HfMissingMessage
  {
    assert HfMissingMessage[0] == 'H' && HfMissingMessage[1] == 'F';
    match backend {
      case Groq =>
      case Ollama =>
      case HuggingFace =>
        assert SuccessMessage(backend, language)[1] == HfSuccessBase[1];
    }
  }

  /** Through the dispatcher the missing-token record never appears: a reply always yields a success record. */
  lemma {:induction false} DispatchNeverReportsMissingToken(cfg: Config, lib: Lib, filename: string, language: string,
                                         call: CallOutcome, calls: TranslationCalls)
    ensures ExtractHandwriting(cfg, lib, filename, language, call, calls).success <==> call.Content?
    ensures ExtractHandwriting(cfg, lib, filename, language, call, calls).message != HfMissingMessage
  {
    var b := ChooseBackend(cfg);
    var r := ExtractWith(b, cfg, lib, filename, language, call, calls);
    assert b != HuggingFace || Configured(cfg.hfToken);
    MessagesDifferFromMissingToken(b, language);
  }

  /**
   * The HuggingFace success message says the data was translated whenever the
   * language is not English, yet without a Groq key the data is the parsed reply
   * untouched.
   */
  lemma {:induction false} HfMessageClaimsTranslationWithoutGroq(cfg: Config, lib: Lib, filename: string,
                                                   language: string, reply: string, calls: TranslationCalls)
    requires Configured(cfg.hfToken) && !Configured(cfg.groqApiKey) && NeedsTranslation(language)
    ensures ExtractHandwriting(cfg, lib, filename, language, Content(reply), calls).message ==
      HfSuccessBase + TranslatedSuffix
    ensures ExtractHandwriting(cfg, lib, filename, language, Content(reply), calls).extractedData ==
      Some(ParseResponse(lib, reply))
  {
    assert ChooseBackend(cfg) == HuggingFace;
    var r := ExtractWith(HuggingFace, cfg, lib, filename, language, Content(reply), calls);
    assert r.extractedData == Some(Structured(HuggingFace, cfg, lib, language, reply, calls));
    assert !TranslationAttempted(HuggingFace, cfg, language);
  }

  /** The `response` text of Ollama's JSON reply, `"{}"` when absent; `None` where the code would raise. */
  function OllamaContent(body: Value): (r: Option<string>)
    ensures body.Obj? && !HasKey(body.entries, "response") ==> r == Some("{}")
    ensures body.Obj? && HasKey(body.entries, "response") && Get(body.entries, "response").Str? ==>
      r == Some(Get(body.entries, "response").s)
    ensures r.None? <==> !body.Obj? || (HasKey(body.entries, "response") && !Get(body.entries, "response").Str?)
  {
    if !body.Obj? then None
    else if !HasKey(body.entries, "response") then Some("{}")
    else match Get(body.entries, "response")
      case Str(s) => Some(s)
      case _ => None
  }

  /** The Ollama call as `extract_handwriting_ollama` sees it: the `response` text, or what reading it raised. */
  function OllamaCall(body: Value, raised: string): (r: CallOutcome)
    ensures r.Content? <==> OllamaContent(body).Some?
    ensures r.Content? ==> r.text == OllamaContent(body).value
    ensures r.Raised? ==> r.error == raised
  {
    match OllamaContent(body)
    case Some(text) => Content(text)
    case None => Raised(raised)
  }

  /** An Ollama reply with no `response` key is extracted as the text `"{}"`, and the extraction succeeds. */
  lemma OllamaReplyWithoutResponse(cfg: Config, lib: Lib, filename: string, language: string,
                                   body: Value, raised: string, calls: TranslationCalls)
    requires ChooseBackend(cfg) == Ollama && body.Obj? && !HasKey(body.entries, "response")
    ensures var r := ExtractHandwriting(cfg, lib, filename, language, OllamaCall(body, raised), calls);
      r.success && r.extractedData == Some(Structured(Ollama, cfg, lib, language, "{}", calls))
  {
    assert OllamaCall(body, raised) == Content("{}");
  }
}

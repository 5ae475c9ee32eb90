/**
 * The result viewer: shows the file name, the stored-record badge, and the
 * extracted payload as syntax-highlighted JSON. Only the rule that gives each
 * highlighted token its class is modelled; the regular expression that cuts the
 * text into tokens is described by the token shapes below.
 */
module ResultDisplay {
  import opened Wrappers
  import opened Text
  import opened Json

  /** The upload endpoint's success body as the front-end reads it. */
  datatype ExtractionResult = ExtractionResult(
    filename: Option<string>,
    savedToDatabase: Value,
    formId: Value,
    extractedData: Value)

  datatype TokenClass = Key | StringToken | BooleanToken | NullToken | NumberToken

  /** The class `formatJSON`'s replace callback gives a matched token. */
  function Classify(token: string): TokenClass {
    if StartsWith(token, "\"") then
      if EndsWith(token, ":") then Key else StringToken
    else if Contains(token, "true") || Contains(token, "false") then BooleanToken
    else if Contains(token, "null") then NullToken
    else NumberToken
  }

  /** A quoted key followed by optional whitespace and a colon is classed `key`. */
  lemma KeyTokenIsKey(body: string, space: string)
    ensures Classify("\"" + body + "\"" + space + ":") == Key
  {
    var t := "\"" + body + "\"" + space + ":";
    assert t[..1] == "\"";
    assert t[|t| - 1..] == ":";
  }

  /** A quoted string not followed by a colon is classed `string`, whatever it contains. */
  lemma StringTokenIsString(body: string)
    ensures Classify("\"" + body + "\"") == StringToken
  {
    var t := "\"" + body + "\"";
    assert t[..1] == "\"";
    assert t[|t| - 1] == '"';
    assert t[|t| - 1..] != ":" by { assert t[|t| - 1..][0] == '"'; }
  }

  /** The three bare literals get their own classes. */
  lemma LiteralTokens()
    ensures Classify("true") == BooleanToken
    ensures Classify("false") == BooleanToken
    ensures Classify("null") == NullToken
  {
    assert !StartsWith("true", "\"") by { assert "true"[..1][0] == 't'; }
    assert !StartsWith("false", "\"") by { assert "false"[..1][0] == 'f'; }
    assert !StartsWith("null", "\"") by { assert "null"[..1][0] == 'n'; }
    assert OccursAt("true", "true", 0);
    assert OccursAt("false", "false", 0);
    assert !Contains("null", "true") by {
      forall i | 0 <= i <= 0 ensures !OccursAt("null", "true", i) { assert "null"[0] != 't'; }
    }
    assert !Contains("null", "false") by {
      assert |"false"| > |"null"|;
    }
    assert OccursAt("null", "null", 0);
  }

  /** The characters of a number token: `-?\d+(\.\d*)?([eE][+-]?\d+)?`. */
  predicate IsNumberChar(c: char) {
    IsDigit(c) || c == '-' || c == '+' || c == '.' || c == 'e' || c == 'E'
  }

  /** Any number token is classed `number`: it neither starts with a quote nor spells a literal. */
  lemma NumberTokenIsNumber(token: string)
    requires forall k :: 0 <= k < |token| ==> IsNumberChar(token[k])
    ensures Classify(token) == NumberToken
  {
    assert !StartsWith(token, "\"") by {
      if |token| > 0 { assert token[..1][0] == token[0]; }
    }
    NoWordInNumber(token, "true");
    NoWordInNumber(token, "false");
    NoWordInNumber(token, "null");
  }

  lemma NoWordInNumber(token: string, word: string)
    requires forall k :: 0 <= k < |token| ==> IsNumberChar(token[k])
    requires word != [] && !IsNumberChar(word[0])
    ensures !Contains(token, word)
  {
    forall i | 0 <= i <= |token| - |word| ensures !OccursAt(token, word, i) {
      assert token[i..i + |word|][0] == token[i];
    }
  }

  /** The text that is highlighted: a string payload as it is, anything else pretty-printed. */
  function HighlightSource(data: Value, lib: Lib): (r: string)
    ensures data.Str? ==> r == data.s
    ensures !data.Str? ==> r == lib.pretty(data)
  {
    if data.Str? then data.s else lib.pretty(data)
  }

  /** The highlighted text of a non-string result reads back as the result; a string is shown verbatim. */
  lemma HighlightSourceRoundTrip(data: Value, lib: Lib)
    requires PrettyRoundTrips(lib)
    ensures !data.Str? ==> lib.parse(HighlightSource(data, lib)) == Parsed(data)
    ensures data.Str? ==> HighlightSource(data, lib) == data.s
  {
    if !data.Str? {
      assert lib.parse(lib.pretty(data)) == Parsed(data);
    }
  }

  const DefaultFilename: string := "document.jpg"

  /** `result.filename || 'document.jpg'`. */
  function DisplayFilename(result: ExtractionResult): (r: string)
    ensures r != ""
    ensures result.filename.Some? && result.filename.value != "" ==> r == result.filename.value
    ensures result.filename.None? || result.filename.value == "" ==> r == DefaultFilename
  {
    if result.filename.Some? && result.filename.value != "" then result.filename.value else DefaultFilename
  }

  /** The ID badge is rendered iff `saved_to_database` is truthy. */
  predicate ShowsIdBadge(result: ExtractionResult) {
    Truthy(result.savedToDatabase)
  }
}

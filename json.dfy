/**
 * The JSON values the front-end and the back-end pass around, with the parts of
 * JavaScript's and Python's value semantics the modelled code depends on:
 * truthiness, JavaScript's `String(v)`, `Object.entries`, and key lookup.
 *
 * Parsing and serialising JSON (`JSON.parse`, `JSON.stringify`, `json.loads`)
 * are library calls the model does not implement: they arrive as the arrow
 * fields of a `Lib` value that every operation needing them takes as a
 * parameter, so every property proved holds for whatever those functions do.
 */
module Json {
  import opened Text

  /** A JSON value. Numbers are integers; an object is its entries in enumeration order. */
  datatype Value =
    | Null
    | Bool(b: bool)
    | Num(n: int)
    | Str(s: string)
    | Arr(items: seq<Value>)
    | Obj(entries: seq<(string, Value)>)

  /** What a JSON parser reports: the value, or the text of its decode error. */
  datatype Parsed = Parsed(value: Value) | Malformed(message: string)

  /** The JSON library calls, supplied from outside the model. */
  datatype Lib = Lib(
    parse: string -> Parsed,      // JSON.parse / json.loads
    stringify: Value -> string,   // JSON.stringify(v)
    pretty: Value -> string,      // JSON.stringify(v, null, 2) / json.dumps(v, indent=2)
    pyStr: Value -> string        // Python's str() of a list or dict
  )

  predicate ValidJson(lib: Lib, text: string) {
    lib.parse(text).Parsed?
  }

  /** The library's pretty printer reads back: parsing what it prints gives the value printed. */
  ghost predicate PrettyRoundTrips(lib: Lib) {
    forall v :: lib.parse(lib.pretty(v)) == Parsed(v)
  }

  /** JavaScript truthiness: `null`, `false`, `0` and `""` are falsy; arrays and objects are truthy. */
  predicate Truthy(v: Value) {
    match v
    case Null => false
    case Bool(b) => b
    case Num(n) => n != 0
    case Str(s) => s != ""
    case Arr(_) => true
    case Obj(_) => true
  }

  /** JavaScript's `String(v)`: an array is joined with `,` (null items give ""), an object is `[object Object]`. */
  function JsString(v: Value): string
    decreases v
  {
    match v
    case Null => "null"
    case Bool(b) => if b then "true" else "false"
    case Num(n) => IntToString(n)
    case Str(s) => s
    case Arr(items) =>
      JoinComma(seq(|items|, i requires 0 <= i < |items| =>
        if items[i].Null? then "" else JsString(items[i])))
    case Obj(_) => "[object Object]"
  }

  function JoinComma(parts: seq<string>): string {
    if parts == [] then ""
    else if |parts| == 1 then parts[0]
    else parts[0] + "," + JoinComma(parts[1..])
  }

  /** JavaScript `typeof v === 'object'` for a non-null value (arrays included). */
  predicate IsObjectLike(v: Value) {
    v.Arr? || v.Obj?
  }

  /** JavaScript `Object.entries(v)` for an object or an array (array indices become string keys). */
  function Entries(v: Value): (r: seq<(string, Value)>)
    requires IsObjectLike(v)
    ensures v.Obj? ==> r == v.entries
    ensures v.Arr? ==> |r| == |v.items| && forall i :: 0 <= i < |r| ==> r[i] == (IntToString(i), v.items[i])
  {
    if v.Obj? then v.entries
    else seq(|v.items|, i requires 0 <= i < |v.items| => (IntToString(i), v.items[i]))
  }

  predicate HasKey(entries: seq<(string, Value)>, key: string) {
    exists i | 0 <= i < |entries| :: entries[i].0 == key
  }

  /** The position of the first entry named `key`. */
  function IndexOf(entries: seq<(string, Value)>, key: string): (k: nat)
    requires HasKey(entries, key)
    ensures k < |entries| && entries[k].0 == key
    ensures forall j :: 0 <= j < k ==> entries[j].0 != key
  {
    if entries[0].0 == key then 0
    else
      assert HasKey(entries[1..], key) by {
        var i :| 0 <= i < |entries| && entries[i].0 == key;
        assert entries[1..][i - 1].0 == key;
      }
      1 + IndexOf(entries[1..], key)
  }

  /** `d[key]` / `d.get(key)` on an object's entries. */
  function Get(entries: seq<(string, Value)>, key: string): Value
    requires HasKey(entries, key)
  {
    entries[IndexOf(entries, key)].1
  }

  /** `d[key] = v` on an existing key: the entry keeps its position. */
  function Set(entries: seq<(string, Value)>, key: string, v: Value): (r: seq<(string, Value)>)
    requires HasKey(entries, key)
    ensures |r| == |entries|
    ensures HasKey(r, key) && Get(r, key) == v
    ensures IndexOf(r, key) == IndexOf(entries, key)
    ensures forall i :: 0 <= i < |r| && i != IndexOf(entries, key) ==> r[i] == entries[i]
  {
    var k := IndexOf(entries, key);
    var r := entries[k := (key, v)];
    assert IndexOf(r, key) == k by {
      assert r[k].0 == key;
      IndexOfUnique(r, key, k);
    }
    r
  }

  lemma IndexOfUnique(entries: seq<(string, Value)>, key: string, k: nat)
    requires k < |entries| && entries[k].0 == key
    requires forall j :: 0 <= j < k ==> entries[j].0 != key
    ensures HasKey(entries, key) && IndexOf(entries, key) == k
  {
  }

  /** A `{"label": ..., "value": ...}` field record as the back-end builds it. */
  function Field(caption: string, value: string): Value {
    Obj([("label", Str(caption)), ("value", Str(value))])
  }

  /** A `{"fields": [...]}` document. */
  function FieldsDoc(fields: seq<Value>): Value {
    Obj([("fields", Arr(fields))])
  }

  /** The value has a `fields` key whose value is a list. */
  predicate HasFieldList(v: Value) {
    v.Obj? && HasKey(v.entries, "fields") && Get(v.entries, "fields").Arr?
  }
}

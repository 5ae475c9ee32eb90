/**
 * The record manager view: the list of stored extraction records, the
 * client-side search over it, the view/edit/delete modals, and the helpers that
 * render a record's payload as a key/value table.
 *
 * Calls to the record service are recorded in `calls`, and their outcome is an
 * argument of the handler that awaits them.
 */
module FormManager {
  import opened Wrappers
  import opened Text
  import opened Json

  /** A parsed value other than a string: a string payload always arrives as text. */
  type NonString = v: Value | !v.Str? witness Null

  /** A record's payload: stored either as JSON text or as an already parsed value. */
  datatype Payload = TextData(text: string) | ObjectData(value: NonString)

  /** A stored record as the list endpoint returns it. */
  datatype Form = Form(id: int, formName: Option<string>, data: Payload, createdAt: string)

  // ---------------------------------------------------------------------------
  // Order-preserving filtering (`Array.prototype.filter`)

  function Filter<T>(s: seq<T>, keep: T -> bool): (r: seq<T>)
    ensures |r| <= |s|
  {
    if s == [] then [] else (if keep(s[0]) then [s[0]] else []) + Filter(s[1..], keep)
  }

  /** `a` is `b` with some elements left out and the rest in their original order. */
  ghost predicate IsSubsequence<T>(a: seq<T>, b: seq<T>)
    decreases |b|
  {
    a == [] || (b != [] && ((a[0] == b[0] && IsSubsequence(a[1..], b[1..])) || IsSubsequence(a, b[1..])))
  }

  lemma {:induction false} FilterIsSubsequence<T>(s: seq<T>, keep: T -> bool)
    ensures IsSubsequence(Filter(s, keep), s)
  {
    if s != [] {
      FilterIsSubsequence(s[1..], keep);
      var rest := Filter(s[1..], keep);
      if keep(s[0]) {
        assert Filter(s, keep) == [s[0]] + rest;
        assert ([s[0]] + rest)[1..] == rest;
      } else {
        assert Filter(s, keep) == rest;
      }
    }
  }

  lemma {:induction false} FilterMembership<T>(s: seq<T>, keep: T -> bool, x: T)
    ensures x in Filter(s, keep) <==> x in s && keep(x)
  {
    if s != [] {
      FilterMembership(s[1..], keep, x);
      assert s == [s[0]] + s[1..];
    }
  }

  lemma FilterMembershipAll<T>(s: seq<T>, keep: T -> bool)
    ensures forall x :: x in Filter(s, keep) <==> x in s && keep(x)
  {
    forall x ensures x in Filter(s, keep) <==> x in s && keep(x) {
      FilterMembership(s, keep, x);
    }
  }

  lemma {:induction false} FilterKeepsAll<T>(s: seq<T>, keep: T -> bool)
    requires forall i :: 0 <= i < |s| ==> keep(s[i])
    ensures Filter(s, keep) == s
  {
    if s != [] {
      FilterKeepsAll(s[1..], keep);
    }
  }

  lemma {:induction false} FilterKeepsNone<T>(s: seq<T>, keep: T -> bool)
    requires forall i :: 0 <= i < |s| ==> !keep(s[i])
    ensures Filter(s, keep) == []
  {
    if s != [] {
      FilterKeepsNone(s[1..], keep);
    }
  }

  // ---------------------------------------------------------------------------
  // Search (`filteredForms`)

  /** `form.form_name || ''`. */
  function NameOrEmpty(form: Form): string {
    if form.formName.Some? then form.formName.value else ""
  }

  /** The text searched: the payload string itself, or `JSON.stringify` of a parsed payload. */
  function SearchableData(form: Form, lib: Lib): string {
    match form.data
    case TextData(s) => s
    case ObjectData(v) => lib.stringify(v)
  }

  /** The lower-cased term occurs in the lower-cased name or in the lower-cased payload text. */
  function Matches(form: Form, term: string, lib: Lib): (r: bool)
    ensures term == "" ==> r
  {
    assert term == "" ==> OccursAt(Lower(NameOrEmpty(form)), Lower(term), 0);
    Contains(Lower(NameOrEmpty(form)), Lower(term)) || Contains(Lower(SearchableData(form, lib)), Lower(term))
  }

  /** `filteredForms`: every record for an empty term, else those the term matches. */
  function FilteredForms(forms: seq<Form>, searchTerm: string, lib: Lib): (r: seq<Form>)
    ensures |r| <= |forms|
    ensures forall f :: f in r <==> f in forms && Matches(f, searchTerm, lib)
  {
    if searchTerm == "" then forms
    else
      FilterMembershipAll(forms, f => Matches(f, searchTerm, lib));
      Filter(forms, f => Matches(f, searchTerm, lib))
  }

  /** An empty search term shows the whole list. */
  lemma EmptySearchShowsAll(forms: seq<Form>, lib: Lib)
    ensures FilteredForms(forms, "", lib) == forms
  {
  }

  /** The search result keeps the list's order, and a record is in it iff the term matches it. */
  lemma SearchKeepsExactlyMatches(forms: seq<Form>, term: string, lib: Lib, f: Form)
    ensures IsSubsequence(FilteredForms(forms, term, lib), forms)
    ensures f in FilteredForms(forms, term, lib) <==> f in forms && (term == "" || Matches(f, term, lib))
  {
    if term == "" {
      FilterKeepsAll(forms, (g: Form) => true);
      FilterIsSubsequence(forms, (g: Form) => true);
    } else {
      FilterIsSubsequence(forms, g => Matches(g, term, lib));
      FilterMembership(forms, g => Matches(g, term, lib), f);
    }
  }

  /** The early return for an empty term changes nothing: the empty string matches every record. */
  lemma EmptyTermMatchesEverything(forms: seq<Form>, lib: Lib)
    ensures Filter(forms, f => Matches(f, "", lib)) == forms
  {
    forall i | 0 <= i < |forms| ensures Matches(forms[i], "", lib) {
      assert OccursAt(Lower(NameOrEmpty(forms[i])), Lower(""), 0);
    }
    FilterKeepsAll(forms, f => Matches(f, "", lib));
  }

  /** A term found in no record's name or payload leaves nothing to show. */
  lemma UnmatchedTermShowsNothing(forms: seq<Form>, term: string, lib: Lib)
    requires term != ""
    requires forall i :: 0 <= i < |forms| ==> !Matches(forms[i], term, lib)
    ensures FilteredForms(forms, term, lib) == []
  {
    FilterKeepsNone(forms, f => Matches(f, term, lib));
  }

  /** Searching "invoice" finds a record named "Invoice_2024.pdf": matching ignores case. */
  lemma SearchIgnoresCase(form: Form, lib: Lib)
    requires form.formName == Some("Invoice_2024.pdf")
    ensures Matches(form, "invoice", lib)
  {
    assert Lower("Invoice_2024.pdf")[0..7] == "invoice";
    assert OccursAt(Lower(NameOrEmpty(form)), Lower("invoice"), 0);
  }

  // ---------------------------------------------------------------------------
  // Update and delete on the local list

  /** The record with its name and payload replaced by the edited text (`{...f, form_name, data}`). */
  function Edited(f: Form, name: string, data: string): (r: Form)
    ensures r.id == f.id && r.createdAt == f.createdAt
    ensures r.formName == Some(name) && r.data == TextData(data)
  {
    f.(formName := Some(name), data := TextData(data))
  }

  /** `forms.map(f => f.id === id ? {...f, form_name: name, data} : f)`. */
  function ReplaceById(forms: seq<Form>, id: int, name: string, data: string): (r: seq<Form>)
    ensures |r| == |forms|
    ensures forall i :: 0 <= i < |forms| && forms[i].id == id ==> r[i] == Edited(forms[i], name, data)
    ensures forall i :: 0 <= i < |forms| && forms[i].id != id ==> r[i] == forms[i]
  {
    if forms == [] then []
    else [if forms[0].id == id then Edited(forms[0], name, data) else forms[0]]
         + ReplaceById(forms[1..], id, name, data)
  }

  /** An edit keeps every record's id and creation time, so the list's ids are unchanged. */
  lemma ReplaceKeepsIds(forms: seq<Form>, id: int, name: string, data: string)
    ensures forall i :: 0 <= i < |forms| ==>
      ReplaceById(forms, id, name, data)[i].id == forms[i].id &&
      ReplaceById(forms, id, name, data)[i].createdAt == forms[i].createdAt
  {
  }

  /** `forms.filter(f => f.id !== id)`. */
  function RemoveById(forms: seq<Form>, id: int): (r: seq<Form>)
    ensures |r| <= |forms|
    ensures forall f :: f in r <==> f in forms && f.id != id
  {
    FilterMembershipAll(forms, (f: Form) => f.id != id);
    Filter(forms, (f: Form) => f.id != id)
  }

  /** Delete removes exactly the records with the target id and keeps the others in order. */
  lemma RemoveExactlyTarget(forms: seq<Form>, id: int, f: Form)
    ensures IsSubsequence(RemoveById(forms, id), forms)
    ensures f in RemoveById(forms, id) <==> f in forms && f.id != id
  {
    FilterIsSubsequence(forms, (g: Form) => g.id != id);
    FilterMembership(forms, (g: Form) => g.id != id, f);
  }

  /** Deleting an id that no record has leaves the list as it was. */
  lemma RemoveAbsentIdKeepsList(forms: seq<Form>, id: int)
    requires forall i :: 0 <= i < |forms| ==> forms[i].id != id
    ensures RemoveById(forms, id) == forms
  {
    FilterKeepsAll(forms, (f: Form) => f.id != id);
  }

  // ---------------------------------------------------------------------------
  // Flattening a payload for the full table (`flattenObject`)

  const Arrow: string := " → "

  /** `prefix ? `${prefix} → ${key}` : key`. */
  function FullKey(prefix: string, key: string): string {
    if prefix != "" then prefix + Arrow + key else key
  }

  /** `flattenObject(obj, prefix)`: nested plain objects are walked, every other value is one row. */
  function Flatten(obj: Value, prefix: string): seq<(string, string)>
    requires IsObjectLike(obj)
    decreases obj, 1
  {
    FlattenFirst(obj, prefix, |Entries(obj)|)
  }

  /** The rows produced by the first `n` entries of `obj`. */
  function FlattenFirst(obj: Value, prefix: string, n: nat): seq<(string, string)>
    requires IsObjectLike(obj) && n <= |Entries(obj)|
    decreases obj, 0, n
  {
    if n == 0 then []
    else
      var key := Entries(obj)[n - 1].0;
      var value := Entries(obj)[n - 1].1;
      assert value < obj by {
        if obj.Obj? { assert obj.entries[n - 1].1 == value; } else { assert obj.items[n - 1] == value; }
      }
      FlattenFirst(obj, prefix, n - 1) +
        (if value.Obj? then Flatten(value, FullKey(prefix, key)) else [(FullKey(prefix, key), JsString(value))])
  }

  /** The nested helper of `renderFullTableData`: builds the rows by pushing inside a loop. */
  method FlattenObject(obj: Value, prefix: string) returns (flattened: seq<(string, string)>)
    requires IsObjectLike(obj)
    ensures flattened == Flatten(obj, prefix)
    decreases obj
  {
    flattened := [];
    var entries := Entries(obj);
    for i := 0 to |entries|
      invariant flattened == FlattenFirst(obj, prefix, i)
    {
      var key, value := entries[i].0, entries[i].1;
      var fullKey := FullKey(prefix, key);
      if value.Obj? {
        assert value < obj by {
          if obj.Obj? { assert obj.entries[i].1 == value; } else { assert obj.items[i] == value; }
        }
        var nested := FlattenObject(value, fullKey);
        flattened := flattened + nested;
      } else {
        flattened := flattened + [(fullKey, JsString(value))];
      }
    }
  }

  /** The number of non-object values reachable through nested plain objects. */
  function LeafCount(obj: Value): nat
    requires IsObjectLike(obj)
    decreases obj, 1
  {
    LeafCountFirst(obj, |Entries(obj)|)
  }

  function LeafCountFirst(obj: Value, n: nat): nat
    requires IsObjectLike(obj) && n <= |Entries(obj)|
    decreases obj, 0, n
  {
    if n == 0 then 0
    else
      var value := Entries(obj)[n - 1].1;
      assert value < obj by {
        if obj.Obj? { assert obj.entries[n - 1].1 == value; } else { assert obj.items[n - 1] == value; }
      }
      LeafCountFirst(obj, n - 1) + (if value.Obj? then LeafCount(value) else 1)
  }

  /** Every leaf becomes exactly one row. */
  lemma {:induction false} FlattenLengthIsLeafCount(obj: Value, prefix: string)
    requires IsObjectLike(obj)
    ensures |Flatten(obj, prefix)| == LeafCount(obj)
    decreases obj, 1
  {
    FlattenFirstLength(obj, prefix, |Entries(obj)|);
  }

  lemma {:induction false} FlattenFirstLength(obj: Value, prefix: string, n: nat)
    requires IsObjectLike(obj) && n <= |Entries(obj)|
    ensures |FlattenFirst(obj, prefix, n)| == LeafCountFirst(obj, n)
    decreases obj, 0, n
  {
    if n > 0 {
      FlattenFirstLength(obj, prefix, n - 1);
      var key, value := Entries(obj)[n - 1].0, Entries(obj)[n - 1].1;
      if value.Obj? {
        assert value < obj by {
          if obj.Obj? { assert obj.entries[n - 1].1 == value; } else { assert obj.items[n - 1] == value; }
        }
        FlattenLengthIsLeafCount(value, FullKey(prefix, key));
      }
    }
  }

  /** Under a non-empty prefix every row's key starts with `prefix → `. */
  lemma {:induction false} FlattenKeysCarryPrefix(obj: Value, prefix: string)
    requires IsObjectLike(obj) && prefix != ""
    ensures forall k :: 0 <= k < |Flatten(obj, prefix)| ==> StartsWith(Flatten(obj, prefix)[k].0, prefix + Arrow)
    decreases obj, 1
  {
    FlattenFirstKeysCarryPrefix(obj, prefix, |Entries(obj)|);
  }

  lemma {:induction false} FlattenFirstKeysCarryPrefix(obj: Value, prefix: string, n: nat)
    requires IsObjectLike(obj) && prefix != "" && n <= |Entries(obj)|
    ensures forall k :: 0 <= k < |FlattenFirst(obj, prefix, n)| ==>
      StartsWith(FlattenFirst(obj, prefix, n)[k].0, prefix + Arrow)
    decreases obj, 0, n
  {
    if n > 0 {
      FlattenFirstKeysCarryPrefix(obj, prefix, n - 1);
      var key, value := Entries(obj)[n - 1].0, Entries(obj)[n - 1].1;
      var fullKey := FullKey(prefix, key);
      assert StartsWith(fullKey, prefix + Arrow) by {
        assert fullKey == (prefix + Arrow) + key;
      }
      if value.Obj? {
        assert value < obj by {
          if obj.Obj? { assert obj.entries[n - 1].1 == value; } else { assert obj.items[n - 1] == value; }
        }
        FlattenKeysCarryPrefix(value, fullKey);
        forall k | 0 <= k < |Flatten(value, fullKey)|
          ensures StartsWith(Flatten(value, fullKey)[k].0, prefix + Arrow)
        {
          var row := Flatten(value, fullKey)[k].0;
          assert StartsWith(row, fullKey + Arrow);
          assert row[..|prefix + Arrow|] == (fullKey + Arrow)[..|prefix + Arrow|];
        }
      }
    }
  }

  /** An object without nested objects gives one row per entry, its key and `String(value)`. */
  lemma {:induction false} FlattenShallow(obj: Value, n: nat)
    requires obj.Obj? && n <= |obj.entries|
    requires forall i :: 0 <= i < |obj.entries| ==> !obj.entries[i].1.Obj?
    ensures FlattenFirst(obj, "", n) == seq(n, i requires 0 <= i < n => (obj.entries[i].0, JsString(obj.entries[i].1)))
  {
    if n > 0 {
      FlattenShallow(obj, n - 1);
    }
  }

  // ---------------------------------------------------------------------------
  // Rendering a payload as a table

  /** A value cell of the preview table: at most 20 characters, then `...`. */
  function Truncate(s: string): (r: string)
    ensures |r| <= 23
    ensures |s| <= 20 ==> r == s
    ensures |s| > 20 ==> StartsWith(r, s[..20]) && EndsWith(r, "...")
  {
    if |s| > 20 then s[..20] + "..." else s
  }

  /** What the table helpers render for a payload. */
  datatype Rendered =
    | InvalidFormat
    | PlainText(text: string)
    | Rows(rows: seq<(string, string)>, moreFields: Option<nat>)

  /** The payload as a JavaScript value: string payloads are parsed, `None` when they are not JSON. */
  function PayloadValue(data: Payload, lib: Lib): Option<Value> {
    match data
    case TextData(s) => if lib.parse(s).Parsed? then Some(lib.parse(s).value) else None
    case ObjectData(v) => Some(v)
  }

  /** Both table helpers draw rows exactly for a truthy object or array; anything else is shown as text. */
  predicate TableShaped(v: Option<Value>) {
    v.Some? && Truthy(v.value) && IsObjectLike(v.value)
  }

  /** `renderTableData`: the first three entries with values truncated, and a `+n more fields` count. */
  function PreviewTable(data: Payload, lib: Lib): (r: Rendered)
    ensures PayloadValue(data, lib).None? <==> r == InvalidFormat
    ensures r.Rows? <==> TableShaped(PayloadValue(data, lib))
    ensures r.PlainText? ==> r.text == JsString(PayloadValue(data, lib).value)
    ensures r.Rows? ==>
      var obj := PayloadValue(data, lib).value;
      && IsObjectLike(obj)
      && |r.rows| == (if |Entries(obj)| < 3 then |Entries(obj)| else 3)
      && (forall i :: 0 <= i < |r.rows| ==>
            r.rows[i] == (Entries(obj)[i].0, Truncate(JsString(Entries(obj)[i].1))))
      && (r.moreFields.Some? <==> |Entries(obj)| > 3)
      && (r.moreFields.Some? ==> r.moreFields.value == |Entries(obj)| - 3)
  {
    match PayloadValue(data, lib)
    case None => InvalidFormat
    case Some(obj) =>
      if !Truthy(obj) || !IsObjectLike(obj) then PlainText(JsString(obj))
      else
        var entries := Entries(obj);
        var shown := if |entries| < 3 then entries else entries[..3];
        Rows(seq(|shown|, i requires 0 <= i < |shown| => (shown[i].0, Truncate(JsString(shown[i].1)))),
             if |entries| > 3 then Some(|entries| - 3) else None)
  }

  /** `renderFullTableData`: every leaf of the payload as one row. */
  function FullTable(data: Payload, lib: Lib): (r: Rendered)
    ensures PayloadValue(data, lib).None? <==> r == InvalidFormat
    ensures r.Rows? <==> TableShaped(PayloadValue(data, lib))
    ensures r.PlainText? ==> r.text == JsString(PayloadValue(data, lib).value)
    ensures r.Rows? ==>
      && r.moreFields.None? && IsObjectLike(PayloadValue(data, lib).value)
      && r.rows == Flatten(PayloadValue(data, lib).value, "")
      && |r.rows| == LeafCount(PayloadValue(data, lib).value)
  {
    match PayloadValue(data, lib)
    case None => InvalidFormat
    case Some(obj) =>
      if !Truthy(obj) || !IsObjectLike(obj) then PlainText(JsString(obj))
      else
        FlattenLengthIsLeafCount(obj, "");
        Rows(Flatten(obj, ""), None)
  }

  /** The text the edit box starts with: the payload pretty-printed when it is (or parses as) JSON. */
  function EditText(data: Payload, lib: Lib): (r: string)
    ensures data.TextData? && !ValidJson(lib, data.text) ==> r == data.text
    ensures PayloadValue(data, lib).Some? ==> r == lib.pretty(PayloadValue(data, lib).value)
  {
    match data
    case TextData(s) => if lib.parse(s).Parsed? then lib.pretty(lib.parse(s).value) else s
    case ObjectData(v) => lib.pretty(v)
  }

  /**
   * Opening the editor and saving unchanged passes `handleUpdate`'s JSON check exactly when
   * the payload was JSON, and the saved text reads back as the payload's value.
   */
  lemma EditTextRoundTrip(data: Payload, lib: Lib)
    requires PrettyRoundTrips(lib)
    ensures ValidJson(lib, EditText(data, lib)) <==> PayloadValue(data, lib).Some?
    ensures PayloadValue(data, lib).Some? ==> lib.parse(EditText(data, lib)) == Parsed(PayloadValue(data, lib).value)
  {
    match PayloadValue(data, lib)
    case Some(v) =>
      assert lib.parse(lib.pretty(v)) == Parsed(v);
    case None =>
  }

  /** The empty-list message. */
  datatype EmptyState = NoRecords | NoMatchingRecords | NoMessage

  function EmptyStateOf(formCount: nat, filteredCount: nat, loading: bool): (r: EmptyState)
    ensures loading ==> r == NoMessage
    ensures r == NoRecords <==> formCount == 0 && !loading
    ensures r == NoMatchingRecords <==> formCount > 0 && filteredCount == 0 && !loading
  {
    if formCount == 0 && !loading then NoRecords
    else if filteredCount == 0 && !loading then NoMatchingRecords
    else NoMessage
  }

  // ---------------------------------------------------------------------------
  // The view's state

  datatype Modal = Closed | Viewing | Editing
  datatype Kind = Success | Failure
  datatype Popup = Popup(text: string, kind: Kind)
  datatype ServiceCall = UpdateCall(id: int, name: string, data: string) | DeleteCall(id: int)

  const InvalidJsonAlert: string := "Invalid JSON format"

  /** JavaScript truthiness of a record id held in `showDeleteConfirm`. */
  predicate PendingTruthy(pending: Option<int>) {
    pending.Some? && pending.value != 0
  }

  class Manager {
    var forms: seq<Form>
    var loading: bool
    var selectedForm: Option<Form>
    var modalType: Modal
    var editData: string
    var editName: string
    /** The id awaiting delete confirmation (`showDeleteConfirm`). */
    var pendingDelete: Option<int>
    var popup: Option<Popup>
    var searchTerm: string
    var alerts: seq<string>
    var calls: seq<ServiceCall>

    constructor ()
      ensures forms == [] && !loading && selectedForm == None && modalType == Closed
      ensures editData == "" && editName == "" && pendingDelete == None && popup == None
      ensures searchTerm == "" && alerts == [] && calls == []
    {
      forms, loading, selectedForm, modalType := [], false, None, Closed;
      editData, editName, pendingDelete, popup := "", "", None, None;
      searchTerm, alerts, calls := "", [], [];
    }

    /** `fetchForms` once the list request settled: a reply replaces the list, a failure keeps it. */
    method FetchForms(reply: Result<seq<Form>, string>)
      modifies this`forms, this`loading
      ensures forms == (if reply.Ok? then reply.value else old(forms))
      ensures !loading
    {
      loading := true;
      if reply.Ok? {
        forms := reply.value;
      }
      loading := false;
    }

    method HandleOpenView(form: Form)
      modifies this`selectedForm, this`modalType
      ensures selectedForm == Some(form) && modalType == Viewing
    {
      selectedForm := Some(form);
      modalType := Viewing;
    }

    /** `handleOpenEdit`: the edit box holds the record's name (or '') and its payload as text. */
    method HandleOpenEdit(form: Form, lib: Lib)
      modifies this`selectedForm, this`modalType, this`editName, this`editData
      ensures selectedForm == Some(form) && modalType == Editing
      ensures editName == NameOrEmpty(form) && editData == EditText(form.data, lib)
    {
      selectedForm := Some(form);
      editName := NameOrEmpty(form);
      var dataStr: string;
      match form.data {
        case ObjectData(v) => dataStr := lib.pretty(v);
        case TextData(s) =>
          dataStr := s;
          var parsed := lib.parse(s);
          if parsed.Parsed? {
            dataStr := lib.pretty(parsed.value);
          }
      }
      editData := dataStr;
      modalType := Editing;
    }

    /** `handleCloseModal`: every modal field back to its initial value. */
    method HandleCloseModal()
      modifies this`selectedForm, this`modalType, this`editData, this`editName
      ensures selectedForm == None && modalType == Closed && editData == "" && editName == ""
    {
      selectedForm := None;
      modalType := Closed;
      editData := "";
      editName := "";
    }

    /**
     * `handleUpdate`: invalid JSON raises an alert before any service call; a
     * successful update replaces the edited record and closes the modal; a failed
     * one shows the error popup and leaves the list and the modal open.
     */
    method HandleUpdate(lib: Lib, serviceOk: bool)
      modifies this`forms, this`popup, this`alerts, this`calls, this`selectedForm,
               this`modalType, this`editData, this`editName
      ensures old(selectedForm).None? ==>
        forms == old(forms) && popup == old(popup) && alerts == old(alerts) && calls == old(calls) &&
        selectedForm == old(selectedForm) && modalType == old(modalType) &&
        editData == old(editData) && editName == old(editName)
      ensures old(selectedForm).Some? && !ValidJson(lib, old(editData)) ==>
        alerts == old(alerts) + [InvalidJsonAlert] &&
        forms == old(forms) && popup == old(popup) && calls == old(calls) &&
        selectedForm == old(selectedForm) && modalType == old(modalType) &&
        editData == old(editData) && editName == old(editName)
      ensures old(selectedForm).Some? && ValidJson(lib, old(editData)) ==>
        alerts == old(alerts) &&
        calls == old(calls) + [UpdateCall(old(selectedForm).value.id, old(editName), old(editData))]
      ensures old(selectedForm).Some? && ValidJson(lib, old(editData)) && serviceOk ==>
        forms == ReplaceById(old(forms), old(selectedForm).value.id, old(editName), old(editData)) &&
        popup == Some(Popup("Record updated successfully", Success)) &&
        selectedForm == None && modalType == Closed && editData == "" && editName == ""
      ensures old(selectedForm).Some? && ValidJson(lib, old(editData)) && !serviceOk ==>
        forms == old(forms) && popup == Some(Popup("Failed to update form", Failure)) &&
        selectedForm == old(selectedForm) && modalType == old(modalType) &&
        editData == old(editData) && editName == old(editName)
    {
      if selectedForm.None? {
        return;
      }
      if !lib.parse(editData).Parsed? {
        alerts := alerts + [InvalidJsonAlert];
        return;
      }
      var id := selectedForm.value.id;
      calls := calls + [UpdateCall(id, editName, editData)];
      if serviceOk {
        forms := ReplaceById(forms, id, editName, editData);
        popup := Some(Popup("Record updated successfully", Success));
        HandleCloseModal();
      } else {
        popup := Some(Popup("Failed to update form", Failure));
      }
    }

    /** `handleDeleteClick`: asks for confirmation of deleting `id`. */
    method HandleDeleteClick(id: int)
      modifies this`pendingDelete
      ensures pendingDelete == Some(id)
    {
      pendingDelete := Some(id);
    }

    /** The confirmation modal's cancel button and overlay. */
    method CancelDelete()
      modifies this`pendingDelete
      ensures pendingDelete == None
    {
      pendingDelete := None;
    }

    /**
     * `confirmDelete`: a falsy pending id does nothing; otherwise the service is
     * asked to delete it, a success drops every record with that id, and the
     * pending id is cleared whatever the outcome.
     */
    method ConfirmDelete(serviceOk: bool)
      modifies this`forms, this`popup, this`calls, this`pendingDelete
      ensures !PendingTruthy(old(pendingDelete)) ==>
        forms == old(forms) && popup == old(popup) && calls == old(calls) && pendingDelete == old(pendingDelete)
      ensures PendingTruthy(old(pendingDelete)) ==>
        pendingDelete == None && calls == old(calls) + [DeleteCall(old(pendingDelete).value)]
      ensures PendingTruthy(old(pendingDelete)) && serviceOk ==>
        forms == RemoveById(old(forms), old(pendingDelete).value) &&
        popup == Some(Popup("Record deleted successfully", Success))
      ensures PendingTruthy(old(pendingDelete)) && !serviceOk ==>
        forms == old(forms) && popup == Some(Popup("Failed to delete record", Failure))
    {
      if !PendingTruthy(pendingDelete) {
        return;
      }
      var id := pendingDelete.value;
      calls := calls + [DeleteCall(id)];
      if serviceOk {
        forms := RemoveById(forms, id);
        popup := Some(Popup("Record deleted successfully", Success));
      } else {
        popup := Some(Popup("Failed to delete record", Failure));
      }
      pendingDelete := None;
    }

    method SetSearchTerm(term: string)
      modifies this`searchTerm
      ensures searchTerm == term
    {
      searchTerm := term;
    }

    /** The records the list shows. */
    function Visible(lib: Lib): seq<Form>
      reads this
    {
      FilteredForms(forms, searchTerm, lib)
    }

    /** The empty-list message currently shown. */
    function Empty(lib: Lib): EmptyState
      reads this
    {
      EmptyStateOf(|forms|, |Visible(lib)|, loading)
    }
  }
}

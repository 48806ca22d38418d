/** The affected-dates handling of the task edit form
    (frontend/src/components/TaskTable/EditTaskModal.js): the rewrite of a
    loaded list into a comma-separated string, the text the field shows, its
    validity check, and the text written on save. The field's value is a
    `JsValue`; a value without the string or array method the source calls on
    it makes that code throw. */
module EditTaskModal {
  import opened Strings
  import opened AffectedDates
  import JsonList
  import TaskTableView

  // ---------------------------------------------------------------------
  // Validity

  /** One date passes when it is blank or a `YYYY-MM-DD` date once trimmed. */
  predicate DateOk(d: string) { d == "" || TaskTableView.IsIsoDate(Trim(d)) }

  predicate AllDatesOk(ds: seq<string>) { forall k :: 0 <= k < |ds| ==> DateOk(ds[k]) }

  /** `isValidDateInput(value)`: an empty value passes; a string passes when
      each of its comma tokens is a date; an array when each entry is blank or
      a date; any other value fails, because calling `trim` on it throws and
      the handler answers false. */
  function IsValidDateInput(v: JsValue): (ok: bool)
  {
    match v
    case Text(s) => s == "" || AllDatesOk(CommaTokens(s))
    case List(items) => AllDatesOk(items)
    case Other(truthy) => !truthy
    case _ => true
  }

  /** The check's cases: empty values pass, numbers and objects fail, and a
      string passes exactly when each of its comma tokens is a date. */
  lemma ValidDateInputRules(v: JsValue)
    ensures !IsTruthy(v) ==> IsValidDateInput(v)
    ensures v.Other? && v.truthy ==> !IsValidDateInput(v)
    ensures v.Text? && v.s != "" ==>
              (IsValidDateInput(v) <==> forall k :: 0 <= k < |CommaTokens(v.s)| ==> TaskTableView.IsIsoDate(CommaTokens(v.s)[k]))
  {
    if v.Text? {
      CommaTokensAreListTokens(v.s);
    }
  }

  lemma {:induction false} IsoTokensAll(ts: seq<string>)
    requires forall k :: 0 <= k < |ts| ==> IsListToken(ts[k])
    ensures TaskTableView.IsoTokens(ts) == ts <==> forall k :: 0 <= k < |ts| ==> TaskTableView.IsIsoDate(ts[k])
  {
    if forall k :: 0 <= k < |ts| ==> TaskTableView.IsIsoDate(ts[k]) {
      TaskTableView.IsoTokensKeepDates(ts);
    }
  }

  /** The edit form marks a non-empty string valid exactly when the add form's
      parsing of the same string would keep every one of its tokens. */
  lemma ValidIffAddFormKeepsAll(s: string)
    requires s != ""
    ensures IsValidDateInput(Text(s)) <==> TaskTableView.AddFormDates(s) == CommaTokens(s)
  {
    var ts := CommaTokens(s);
    CommaTokensAreListTokens(s);
    TaskTableView.IsoTokensOfTrimmed(Split(s, ','));
    IsoTokensAll(ts);
  }

  // ---------------------------------------------------------------------
  // The text the field shows

  predicate IsNotBracket(c: char) { c != '[' && c != ']' }

  /** `value.replace(/[[\]]/g, '')`. */
  function RemoveBrackets(s: string): (r: string)
    ensures '[' !in r && ']' !in r
    ensures forall c :: c in r <==> c in s && IsNotBracket(c)
  {
    Filter(s, IsNotBracket)
  }

  /** Brackets are removed one by one, wherever they are: every other
      character stays in its place, and removing them from a concatenation
      removes them from each piece. */
  lemma RemoveBracketsPiecewise(a: string, b: string, c: char)
    ensures RemoveBrackets([]) == []
    ensures RemoveBrackets([c]) == if IsNotBracket(c) then [c] else []
    ensures RemoveBrackets(a + b) == RemoveBrackets(a) + RemoveBrackets(b)
  {
    FilterAppend(a, b, IsNotBracket);
    assert [c][1..] == [];
  }

  /** `getAffectedDatesString()`; `None` is the `TypeError` a truthy value
      that is neither a string nor an array raises. */
  function AffectedDatesString(v: JsValue): (r: Option<string>)
  {
    if !IsTruthy(v) then Some("")
    else match v
      case Text(s) =>
        if StartsWith(Trim(s), "[") then
          match JsonList.Parse(s)
          case Some(items) => Some(Join(items, ", "))
          case None => Some(RemoveBrackets(s))
        else Some(s)
      case List(items) => Some(Join(items, ", "))
      case _ => None
  }

  /** The shown text's cases: blank for an empty value, the list joined for a
      JSON list text or an array, the text without brackets for a text that
      looks like a list but does not parse, and any other text as it is. */
  lemma AffectedDatesStringRules(v: JsValue)
    ensures !IsTruthy(v) ==> AffectedDatesString(v) == Some("")
    ensures AffectedDatesString(v).None? <==> v.Other? && v.truthy
    ensures v.List? ==> AffectedDatesString(v) == Some(Join(v.items, ", "))
    ensures v.Text? && v.s != "" && StartsWith(Trim(v.s), "[") && JsonList.Parse(v.s).Some? ==>
              AffectedDatesString(v) == Some(Join(JsonList.Parse(v.s).value, ", "))
    ensures v.Text? && v.s != "" && StartsWith(Trim(v.s), "[") && JsonList.Parse(v.s).None? ==>
              AffectedDatesString(v) == Some(RemoveBrackets(v.s)) && '[' !in AffectedDatesString(v).value
    ensures v.Text? && !StartsWith(Trim(v.s), "[") ==> AffectedDatesString(v) == Some(v.s)
  {
  }

  // ---------------------------------------------------------------------
  // The rewrite when a task is loaded

  /** What the load effect does to the field. */
  datatype LoadEffect =
    | Unchanged            // nothing is written
    | Rewritten(text: string)  // `onInputChange('affected_dates', text)`
    | Throws               // `startsWith` is called on a value without it

  /** The effect at the top of the form, for the loaded value `v`. It throws
      exactly for a truthy value that is neither a string nor an array, and a
      rewrite writes exactly the text the field would show for `v`. */
  function LoadAffectedDates(v: JsValue): (e: LoadEffect)
    ensures !IsTruthy(v) ==> e == Unchanged
    ensures e.Throws? <==> v.Other? && v.truthy
    ensures e.Rewritten? ==> AffectedDatesString(v) == Some(e.text)
  {
    if !IsTruthy(v) then Unchanged
    else match v
      case List(items) => Rewritten(Join(items, ", "))
      case Text(s) =>
        if StartsWith(s, "[") then
          TrimmedBracket(s);
          match JsonList.Parse(s)
          case Some(items) => Rewritten(Join(items, ", "))
          case None => Unchanged
        else Unchanged
      case _ => Throws
  }

  // ---------------------------------------------------------------------
  // Saving

  /** The `affected_dates` text `handleSaveClick` sends; `None` is the
      `TypeError` of calling `trim` on an array or another non-string. */
  function SaveAffectedDates(v: JsValue): (r: Option<string>)
  {
    if !IsTruthy(v) then Some(JsonList.Stringify([]))
    else match v
      case Text(s) =>
        if Trim(s) == "" then Some(JsonList.Stringify([]))
        else if !StartsWith(s, "[") then Some(JsonList.Stringify(CommaTokens(s)))
        else Some(s)
      case _ => None
  }

  /** Saving writes `"[]"` for a blank field, a text that starts with `[`
      unchanged, and any other text as the JSON list of its comma tokens,
      which reads back as those tokens. */
  lemma SaveAffectedDatesRules(v: JsValue)
    ensures !IsTruthy(v) ==> SaveAffectedDates(v) == Some("[]")
    ensures v.Text? && Trim(v.s) == "" ==> SaveAffectedDates(v) == Some("[]")
    ensures SaveAffectedDates(v).None? <==> v.List? || (v.Other? && v.truthy)
    ensures v.Text? && Trim(v.s) != "" && StartsWith(v.s, "[") ==> SaveAffectedDates(v) == Some(v.s)
    ensures v.Text? && Trim(v.s) != "" && !StartsWith(v.s, "[")
            && (forall k :: 0 <= k < |CommaTokens(v.s)| ==> JsonList.IsPlain(CommaTokens(v.s)[k]))
            ==> JsonList.Parse(SaveAffectedDates(v).value) == Some(CommaTokens(v.s))
  {
    if v.Text? && Trim(v.s) != "" && !StartsWith(v.s, "[")
       && (forall k :: 0 <= k < |CommaTokens(v.s)| ==> JsonList.IsPlain(CommaTokens(v.s)[k])) {
      JsonList.StringifyRoundTrip(CommaTokens(v.s));
    }
  }

  // ---------------------------------------------------------------------
  // Round trips

  /** A list of dates that may be written in the field: trimmed, non-empty,
      comma-free and quote-free tokens, the first not starting with `[`. */
  predicate Writable(ds: seq<string>) {
    (forall k :: 0 <= k < |ds| ==> IsListToken(ds[k]) && JsonList.IsPlain(ds[k]))
    && (ds != [] ==> ds[0][0] != '[')
  }

  lemma TrimKeepsFirst(s: string)
    requires s != [] && !IsSpace(s[0])
    ensures Trim(s) != [] && Trim(s)[0] == s[0]
  {
    assert TrimStart(s) == s;
  }

  lemma {:induction false} JoinStartsWithFirst(ds: seq<string>, sep: string)
    requires ds != [] && ds[0] != []
    ensures Join(ds, sep) != [] && Join(ds, sep)[0] == ds[0][0]
  {
  }

  /** The joined text of a writable non-empty list starts with its first
      date's first character, which is neither blank nor `[`. */
  lemma JoinedStart(ds: seq<string>)
    requires Writable(ds) && ds != []
    ensures var text := Join(ds, ", ");
            text != [] && !IsSpace(text[0]) && text[0] != '['
            && Trim(text) != [] && Trim(text)[0] == text[0]
  {
    JoinStartsWithFirst(ds, ", ");
    var t := ds[0];
    assert IsListToken(t);
    assert !IsSpace(t[0]) by {
      assert Trim(t) == t && t != [];
    }
    TrimKeepsFirst(Join(ds, ", "));
  }

  /** A list written as `"d1, d2, ..."` is saved as the JSON list of exactly
      those dates. */
  lemma SaveOfJoin(ds: seq<string>)
    requires Writable(ds)
    ensures SaveAffectedDates(Text(Join(ds, ", "))) == Some(JsonList.Stringify(ds))
  {
    var text := Join(ds, ", ");
    if ds == [] {
      assert text == "";
    } else {
      JoinedStart(ds);
      assert !StartsWith(text, "[");
      forall k | 0 <= k < |ds|
        ensures IsListToken(ds[k])
      {
      }
      CommaTokensOfJoin(ds);
    }
  }

  /** A stored list parses back as itself. */
  lemma StoredListParses(ds: seq<string>)
    requires Writable(ds)
    ensures JsonList.Parse(JsonList.Stringify(ds)) == Some(ds)
  {
    assert forall k :: 0 <= k < |ds| ==> JsonList.IsPlain(ds[k]);
    JsonList.StringifyRoundTrip(ds);
  }

  /** A text that starts with `[` still does once trimmed. */
  lemma TrimmedBracket(s: string)
    requires StartsWith(s, "[")
    ensures StartsWith(Trim(s), "[")
  {
    assert s[0] == '[';
    TrimKeepsFirst(s);
  }

  /** Loading a stored list rewrites the field to the dates joined by
      `", "`, which is also the text the field shows for it. */
  lemma LoadShowsStoredList(ds: seq<string>)
    requires Writable(ds)
    ensures LoadAffectedDates(Text(JsonList.Stringify(ds))) == Rewritten(Join(ds, ", "))
    ensures AffectedDatesString(Text(JsonList.Stringify(ds))) == Some(Join(ds, ", "))
  {
    var stored := JsonList.Stringify(ds);
    StoredListParses(ds);
    TrimmedBracket(stored);
    assert IsTruthy(Text(stored));
  }

  /** The rewritten field shows as it is, and a second run of the effect
      leaves it alone. */
  lemma JoinedListStays(ds: seq<string>)
    requires Writable(ds) && ds != []
    ensures AffectedDatesString(Text(Join(ds, ", "))) == Some(Join(ds, ", "))
    ensures LoadAffectedDates(Text(Join(ds, ", "))) == Unchanged
  {
    var text := Join(ds, ", ");
    JoinedStart(ds);
    NotBracketFirst(text);
    NotBracketFirst(Trim(text));
  }

  lemma NotBracketFirst(t: string)
    requires t != [] && t[0] != '['
    ensures !StartsWith(t, "[")
  {
  }

  /** Opening a task and saving it without touching the field writes back
      the stored list unchanged. */
  lemma EditWithoutChangeKeepsList(ds: seq<string>)
    requires Writable(ds)
    ensures AffectedDatesString(Text(JsonList.Stringify(ds))).Some?
    ensures SaveAffectedDates(Text(AffectedDatesString(Text(JsonList.Stringify(ds))).value))
            == Some(JsonList.Stringify(ds))
  {
    var stored := JsonList.Stringify(ds);
    var text := Join(ds, ", ");
    LoadShowsStoredList(ds);
    assert AffectedDatesString(Text(stored)).value == text;
    SaveOfJoin(ds);
    assert SaveAffectedDates(Text(text)) == Some(stored);
  }
}

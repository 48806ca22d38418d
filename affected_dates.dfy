/** The `affected_dates` of an aircraft task: the list of flight dates one
    request covers. Clients send it as a comma-separated string, as a JSON
    list text, or as an array; the database stores it as a JSON list text.
    This module holds the normalisation the backend applies on create and on
    update (backend/src/routes/tasks.js) and the comma-list helpers the
    frontend shares with it. Date parsing (`new Date(d).toISOString()`) is a
    parameter: `parseDate(d)` is the `YYYY-MM-DD` part of the parsed date, or
    `None` when JavaScript finds the date invalid. */
module AffectedDates {
  import opened Strings
  import JsonList

  /** The shapes a request body's `affected_dates` field may take. `Other`
      stands for any number, boolean or object, with its truthiness. */
  datatype JsValue =
    | Undefined
    | Null
    | Text(s: string)
    | List(items: seq<string>)
    | Other(truthy: bool)

  predicate IsTruthy(v: JsValue) {
    match v
    case Undefined => false
    case Null => false
    case Text(s) => s != ""
    case List(_) => true
    case Other(t) => t
  }

  // ---------------------------------------------------------------------
  // Comma-separated lists

  /** `parts.map(p => p.trim()).filter(p => p)`. */
  function TrimmedNonEmpty(parts: seq<string>): (r: seq<string>)
    ensures |r| <= |parts|
    ensures forall k :: 0 <= k < |r| ==> r[k] != []
  {
    if parts == [] then []
    else
      var t := Trim(parts[0]);
      (if t == [] then [] else [t]) + TrimmedNonEmpty(parts[1..])
  }

  /** `s.split(',').map(d => d.trim()).filter(d => d)`: the non-blank
      comma-separated tokens of `s`, trimmed. */
  function CommaTokens(s: string): (r: seq<string>)
    ensures forall k :: 0 <= k < |r| ==> r[k] != []
  {
    TrimmedNonEmpty(Split(s, ','))
  }

  /** Every comma token is a list token: non-empty, comma-free and trimmed. */
  lemma CommaTokensAreListTokens(s: string)
    ensures forall k :: 0 <= k < |CommaTokens(s)| ==> IsListToken(CommaTokens(s)[k])
  {
    TrimmedNonEmptyTokens(Split(s, ','));
  }

  lemma {:induction false} TrimmedNonEmptyTokens(parts: seq<string>)
    requires forall k :: 0 <= k < |parts| ==> ',' !in parts[k]
    ensures forall k :: 0 <= k < |TrimmedNonEmpty(parts)| ==> IsListToken(TrimmedNonEmpty(parts)[k])
  {
    if parts != [] {
      TrimmedNonEmptyTokens(parts[1..]);
      var t := Trim(parts[0]);
      TrimmedPartToken(parts[0]);
      var head := if t == [] then [] else [t];
      var rest := TrimmedNonEmpty(parts[1..]);
      var all := TrimmedNonEmpty(parts);
      assert all == head + rest;
      forall k | 0 <= k < |all|
        ensures IsListToken(all[k])
      {
        if k >= |head| {
          assert all[k] == rest[k - |head|];
        }
      }
    }
  }

  /** A comma-free part, trimmed, is a list token unless it is blank. */
  lemma TrimmedPartToken(p: string)
    requires ',' !in p
    ensures Trim(p) != [] ==> IsListToken(Trim(p))
  {
    var t := Trim(p);
    if t != [] {
      TrimChars(p);
      assert ',' !in t;
      TrimNoSpace(t);
    }
  }

  /** Trimming only removes characters. */
  lemma TrimChars(p: string)
    ensures forall c :: c in Trim(p) ==> c in p
  {
    var u := TrimStart(p);
    var t := TrimEnd(u);
    assert t == Trim(p);
    forall c | c in t
      ensures c in p
    {
      var i :| 0 <= i < |t| && t[i] == c;
      assert t[i] == u[i];
      assert u[i] == p[|p| - |u| + i];
    }
  }

  /** A list element that survives a join with `", "` and a re-split intact. */
  predicate IsListToken(x: string) {
    x != [] && ',' !in x && Trim(x) == x
  }

  lemma TrimAfterSpace(s: string)
    ensures Trim([' '] + s) == Trim(s)
  {
    assert ([' '] + s)[1..] == s;
  }

  lemma SplitAfterPlainChar(c: char, s: string, sep: char)
    requires c != sep
    ensures Split([c] + s, sep) == [[c] + Split(s, sep)[0]] + Split(s, sep)[1..]
  {
    assert ([c] + s)[1..] == s;
  }

  lemma TrimmedNonEmptyHead(p: string, q: string, rest: seq<string>)
    requires Trim(p) == Trim(q)
    ensures TrimmedNonEmpty([p] + rest) == TrimmedNonEmpty([q] + rest)
  {
    assert ([p] + rest)[1..] == rest;
    assert ([q] + rest)[1..] == rest;
  }

  /** Joining tokens with `", "` and reading them back with `CommaTokens`
      gives the same tokens. */
  lemma {:induction false} CommaTokensOfJoin(xs: seq<string>)
    requires forall k :: 0 <= k < |xs| ==> IsListToken(xs[k])
    ensures CommaTokens(Join(xs, ", ")) == xs
  {
    if xs == [] {
      assert Split([], ',') == [[]];
      assert Trim([]) == [];
    } else {
      JoinedTokensSplit(xs);
    }
  }

  /** `TrimmedNonEmpty` of the split of a joined list, by induction on the list. */
  lemma {:induction false} JoinedTokensSplit(xs: seq<string>)
    requires |xs| >= 1
    requires forall k :: 0 <= k < |xs| ==> IsListToken(xs[k])
    ensures TrimmedNonEmpty(Split(Join(xs, ", "), ',')) == xs
  {
    var x := xs[0];
    TrimNoSpace(x);
    if |xs| == 1 {
      SplitNoSeparator(x, ',');
      assert TrimmedNonEmpty([x]) == [x] + TrimmedNonEmpty([]);
    } else {
      JoinedTokensSplit(xs[1..]);
      JoinedTokensStep(xs);
    }
  }

  lemma JoinedTokensStep(xs: seq<string>)
    requires |xs| >= 2 && IsListToken(xs[0])
    ensures TrimmedNonEmpty(Split(Join(xs, ", "), ','))
            == [xs[0]] + TrimmedNonEmpty(Split(Join(xs[1..], ", "), ','))
  {
    var ps := Split(Join(xs[1..], ", "), ',');
    SplitOfJoinStep(xs);
    TrimmedNonEmptyStep(xs[0], ps);
  }

  lemma SplitOfJoinStep(xs: seq<string>)
    requires |xs| >= 2 && ',' !in xs[0]
    ensures var ps := Split(Join(xs[1..], ", "), ',');
            Split(Join(xs, ", "), ',') == [xs[0]] + ([[' '] + ps[0]] + ps[1..])
  {
    var tail := Join(xs[1..], ", ");
    JoinCommaSpace(xs);
    SplitAfterPart(xs[0], ',', [' '] + tail);
    SplitAfterPlainChar(' ', tail, ',');
  }

  lemma JoinCommaSpace(xs: seq<string>)
    requires |xs| >= 2
    ensures Join(xs, ", ") == xs[0] + [','] + ([' '] + Join(xs[1..], ", "))
  {
  }

  lemma TrimmedNonEmptyStep(x: string, ps: seq<string>)
    requires x != [] && Trim(x) == x && |ps| >= 1
    ensures TrimmedNonEmpty([x] + ([[' '] + ps[0]] + ps[1..])) == [x] + TrimmedNonEmpty(ps)
  {
    var spaced := [[' '] + ps[0]] + ps[1..];
    TrimmedNonEmptyCons(x, spaced);
    TrimAfterSpace(ps[0]);
    TrimmedNonEmptyHead([' '] + ps[0], ps[0], ps[1..]);
    HeadTail(ps);
    assert TrimmedNonEmpty(spaced) == TrimmedNonEmpty(ps);
  }

  lemma HeadTail(ps: seq<string>)
    requires |ps| >= 1
    ensures [ps[0]] + ps[1..] == ps
  {
  }

  lemma TrimmedNonEmptyCons(x: string, rest: seq<string>)
    requires x != [] && Trim(x) == x
    ensures TrimmedNonEmpty([x] + rest) == [x] + TrimmedNonEmpty(rest)
  {
    assert ([x] + rest)[1..] == rest;
  }

  // ---------------------------------------------------------------------
  // Date parsing

  /** `dates.map(parse).filter(d => d)`: the parsed form of every date the
      parser accepts, in order. */
  function ParsedDates(dates: seq<string>, parseDate: string -> Option<string>): (r: seq<string>)
    ensures |r| <= |dates|
    ensures forall k :: 0 <= k < |r| ==> r[k] != []
  {
    if dates == [] then []
    else
      var p := parseDate(dates[0]);
      (if p.Some? && p.value != [] then [p.value] else []) + ParsedDates(dates[1..], parseDate)
  }

  /** Every parsed date is the parse of some input date. */
  lemma {:induction false} ParsedDatesFrom(dates: seq<string>, parseDate: string -> Option<string>, k: nat)
    requires k < |ParsedDates(dates, parseDate)|
    ensures exists j :: 0 <= j < |dates| && parseDate(dates[j]) == Some(ParsedDates(dates, parseDate)[k])
  {
    var p := parseDate(dates[0]);
    var head := if p.Some? && p.value != [] then [p.value] else [];
    if k < |head| {
      assert parseDate(dates[0]) == Some(ParsedDates(dates, parseDate)[k]);
    } else {
      ParsedDatesFrom(dates[1..], parseDate, k - |head|);
      var j :| 0 <= j < |dates[1..]| && parseDate(dates[1..][j]) == Some(ParsedDates(dates[1..], parseDate)[k - |head|]);
      assert dates[1..][j] == dates[j + 1];
    }
  }

  /** Every date the parser accepts survives. */
  lemma {:induction false} ParsedDatesKeep(dates: seq<string>, parseDate: string -> Option<string>, j: nat)
    requires j < |dates| && parseDate(dates[j]).Some? && parseDate(dates[j]).value != []
    ensures parseDate(dates[j]).value in ParsedDates(dates, parseDate)
  {
    if j > 0 {
      ParsedDatesKeep(dates[1..], parseDate, j - 1);
    }
  }

  // ---------------------------------------------------------------------
  // Create (backend/src/routes/tasks.js, POST /)

  /** The raw dates of a create request, before parsing. */
  function CreateCandidates(v: JsValue): seq<string> {
    if !IsTruthy(v) then []
    else match v
      case Text(s) =>
        if StartsWith(s, "[") then
          (match JsonList.Parse(s) case Some(items) => items case None => [])
        else CommaTokens(s)
      case List(items) => items
      case _ => []
  }

  /** The dates a create request covers: every valid date it names, or the
      flight date alone when it names none. */
  function CreateDates(v: JsValue, dateOfFlight: string, parseDate: string -> Option<string>): (dates: seq<string>)
    ensures |dates| >= 1
    ensures ParsedDates(CreateCandidates(v), parseDate) == [] ==> dates == [dateOfFlight]
    ensures ParsedDates(CreateCandidates(v), parseDate) != [] ==> dates == ParsedDates(CreateCandidates(v), parseDate)
  {
    var parsed := ParsedDates(CreateCandidates(v), parseDate);
    if parsed == [] then [dateOfFlight] else parsed
  }

  // ---------------------------------------------------------------------
  // Update (backend/src/routes/tasks.js, PUT /:id)

  /** The raw dates of an update request, before the blank filter and parsing. */
  function UpdateCandidates(v: JsValue): seq<string> {
    match v
    case Text(s) =>
      if StartsWith(s, "[") then
        (match JsonList.Parse(s) case Some(items) => items case None => [])
      else Split(s, ',')
    case List(items) => items
    case _ => []
  }

  /** `dates.filter(d => d)` after trimming: the non-blank candidates. */
  function NonEmpty(dates: seq<string>): (r: seq<string>)
    ensures forall k :: 0 <= k < |r| ==> r[k] != []
  {
    if dates == [] then []
    else (if dates[0] != [] then [dates[0]] else []) + NonEmpty(dates[1..])
  }

  function UpdateDateList(v: JsValue, parseDate: string -> Option<string>): seq<string> {
    var raw := UpdateCandidates(v);
    var cands := if v.Text? && !StartsWith(v.s, "[") then TrimmedNonEmpty(raw) else NonEmpty(raw);
    ParsedDates(cands, parseDate)
  }

  /** The stored text an update writes for `affected_dates`: nothing when the
      field is absent, `"[]"` for the empty string, and otherwise the JSON list
      of the valid dates it names. */
  function UpdateDatesText(v: JsValue, parseDate: string -> Option<string>): (r: Option<string>)
    ensures v.Undefined? <==> r.None?
    ensures v == Text("") ==> r == Some("[]")
  {
    if v.Undefined? then None
    else if v == Text("") then Some(JsonList.Stringify([]))
    else Some(JsonList.Stringify(UpdateDateList(v, parseDate)))
  }

  /** The text an update stores reads back as the list of valid dates it
      named (the empty list for `""`), when the parser yields plain strings. */
  lemma UpdateDatesReadBack(v: JsValue, parseDate: string -> Option<string>)
    requires !v.Undefined?
    requires forall k :: 0 <= k < |UpdateDateList(v, parseDate)| ==> JsonList.IsPlain(UpdateDateList(v, parseDate)[k])
    ensures JsonList.Parse(UpdateDatesText(v, parseDate).value)
            == Some(if v == Text("") then [] else UpdateDateList(v, parseDate))
  {
    if v == Text("") {
      JsonList.ParseEmptyArray();
    } else {
      JsonList.StringifyRoundTrip(UpdateDateList(v, parseDate));
    }
  }
}

/** `JSON.stringify` and `JSON.parse` for the one JSON shape the
    application stores in a text column: an array of strings (the
    `affected_dates` list). Elements are plain strings — no quote,
    backslash or control character — so no escape sequences occur. */
module JsonList {
  import opened Strings

  /** The whitespace JSON allows between tokens. */
  predicate IsJsonSpace(c: char) { c == ' ' || c == '\t' || c == '\n' || c == '\r' }

  /** A character that may stand unescaped inside a JSON string. */
  predicate IsPlainChar(c: char) { c != '"' && c != '\\' && c >= ' ' }

  predicate IsPlain(s: string) { forall i :: 0 <= i < |s| ==> IsPlainChar(s[i]) }

  function SkipSpace(s: string): (r: string)
    ensures |r| <= |s| && r == s[|s| - |r|..]
    ensures r == [] || !IsJsonSpace(r[0])
  {
    if s != [] && IsJsonSpace(s[0]) then SkipSpace(s[1..]) else s
  }

  /** The longest prefix of `s` made of plain characters. */
  function TakePlain(s: string): (r: string)
    ensures IsPlain(r) && StartsWith(s, r)
    ensures |r| < |s| ==> !IsPlainChar(s[|r|])
  {
    if s != [] && IsPlainChar(s[0]) then [s[0]] + TakePlain(s[1..]) else []
  }

  function Quote(x: string): string { ['"'] + x + ['"'] }

  /** The text after the opening bracket of a non-empty array. */
  function ElementsText(xs: seq<string>): (text: string)
    requires |xs| >= 1
    ensures text != [] && text[0] == '"'
  {
    if |xs| == 1 then Quote(xs[0]) + "]" else Quote(xs[0]) + "," + ElementsText(xs[1..])
  }

  /** `JSON.stringify(xs)` for an array of strings, in its compact form. */
  function Stringify(xs: seq<string>): (text: string)
    ensures StartsWith(text, "[")
  {
    if xs == [] then "[]" else "[" + ElementsText(xs)
  }

  /** `JSON.parse(text)` where the result must be an array of plain strings;
      `None` stands for the `SyntaxError` the source catches. */
  function Parse(text: string): (r: Option<seq<string>>)
  {
    var t := SkipSpace(text);
    if t == [] || t[0] != '[' then None else ParseArrayBody(SkipSpace(t[1..]))
  }

  /** The array after its opening bracket: empty, or elements. */
  function ParseArrayBody(u: string): (r: Option<seq<string>>)
  {
    if u != [] && u[0] == ']' then
      if SkipSpace(u[1..]) == [] then Some([]) else None
    else ParseElements(u)
  }

  /** A JSON string token at the start of `s`: its text and what follows
      the closing quote. */
  function ParseString(s: string): (r: Option<(string, string)>)
    ensures r.Some? ==> |r.value.1| < |s|
  {
    if s == [] || s[0] != '"' then None
    else
      var body := TakePlain(s[1..]);
      var after := s[1 + |body|..];
      if after == [] || after[0] != '"' then None else Some((body, after[1..]))
  }

  /** Parses `"x", "y", ... ]` followed only by whitespace. */
  function ParseElements(s: string): (r: Option<seq<string>>)
    decreases |s|, 1
  {
    match ParseString(s)
    case None => None
    case Some(token) => ParseAfterElement(token.0, SkipSpace(token.1))
  }

  /** What may follow an element: the closing bracket, or a comma and more. */
  function ParseAfterElement(body: string, r: string): (result: Option<seq<string>>)
    decreases |r|, 0
  {
    if r == [] then None
    else if r[0] == ']' then
      if SkipSpace(r[1..]) == [] then Some([body]) else None
    else if r[0] == ',' then Prepend(body, ParseElements(SkipSpace(r[1..])))
    else None
  }

  function Prepend(body: string, rest: Option<seq<string>>): Option<seq<string>> {
    match rest
    case None => None
    case Some(items) => Some([body] + items)
  }

  lemma {:induction false} TakePlainStopsAtQuote(x: string, rest: string)
    requires IsPlain(x)
    ensures TakePlain(x + ['"'] + rest) == x
    decreases |x|
  {
    var s := x + ['"'] + rest;
    if x != [] {
      assert s[1..] == x[1..] + ['"'] + rest;
      TakePlainStopsAtQuote(x[1..], rest);
      assert [x[0]] + x[1..] == x;
    }
  }

  lemma {:induction false} ParseQuoted(x: string, tail: string)
    requires IsPlain(x)
    ensures ParseString(Quote(x) + tail) == Some((x, tail))
  {
    var s := Quote(x) + tail;
    assert s[1..] == x + ['"'] + tail;
    TakePlainStopsAtQuote(x, tail);
    assert s[1 + |x|..] == ['"'] + tail;
  }

  lemma ParseLastElement(x: string)
    requires IsPlain(x)
    ensures ParseElements(Quote(x) + "]") == Some([x])
  {
    var tail := "]";
    assert tail[0] == ']' && tail[1..] == [];
    SkipSpaceAtBracket(tail);
    assert ParseAfterElement(x, tail) == Some([x]);
    ParseQuoted(x, tail);
    ElementThenRest(x, tail, [x]);
  }

  lemma ParseNextElement(x: string, rest: string, ys: seq<string>)
    requires IsPlain(x) && rest != [] && rest[0] == '"'
    requires ParseElements(rest) == Some(ys)
    ensures ParseElements(Quote(x) + "," + rest) == Some([x] + ys)
  {
    var tail := "," + rest;
    AppendAssoc(Quote(x), ",", rest);
    ParseQuoted(x, tail);
    SkipCommaFirst(rest);
    AfterComma(x, rest, ys);
    ElementThenRest(x, tail, [x] + ys);
  }

  lemma AppendAssoc(a: string, b: string, c: string)
    ensures a + b + c == a + (b + c)
  {
  }

  lemma SkipCommaFirst(rest: string)
    ensures SkipSpace("," + rest) == "," + rest
  {
  }

  lemma AfterComma(x: string, rest: string, ys: seq<string>)
    requires rest != [] && rest[0] == '"'
    requires ParseElements(rest) == Some(ys)
    ensures ParseAfterElement(x, "," + rest) == Some([x] + ys)
  {
    var t := "," + rest;
    assert t[0] == ',' && t[1..] == rest;
    assert SkipSpace(rest) == rest;
    assert Prepend(x, ParseElements(rest)) == Some([x] + ys);
  }

  lemma ElementThenRest(x: string, tail: string, ys: seq<string>)
    requires ParseString(Quote(x) + tail) == Some((x, tail))
    requires SkipSpace(tail) == tail
    requires ParseAfterElement(x, tail) == Some(ys)
    ensures ParseElements(Quote(x) + tail) == Some(ys)
  {
  }

  lemma {:induction false} ParseElementsText(xs: seq<string>)
    requires |xs| >= 1 && forall k :: 0 <= k < |xs| ==> IsPlain(xs[k])
    ensures ParseElements(ElementsText(xs)) == Some(xs)
  {
    if |xs| == 1 {
      ParseLastElement(xs[0]);
      assert xs == [xs[0]];
    } else {
      var rest := ElementsText(xs[1..]);
      ElementsTextStep(xs);
      ParseElementsText(xs[1..]);
      ParseNextElement(xs[0], rest, xs[1..]);
      assert [xs[0]] + xs[1..] == xs;
    }
  }

  lemma ElementsTextStep(xs: seq<string>)
    requires |xs| >= 2
    ensures ElementsText(xs) == Quote(xs[0]) + "," + ElementsText(xs[1..])
  {
  }

  lemma ParseOpenBracket(t: string)
    requires t != [] && t[0] == '"'
    ensures Parse("[" + t) == ParseElements(t)
  {
    var text := "[" + t;
    assert SkipSpace(text) == text;
    assert text[1..] == t;
    assert SkipSpace(t) == t;
  }

  lemma SkipSpaceAtBracket(t: string)
    requires t != [] && (t[0] == '[' || t[0] == ']')
    ensures SkipSpace(t) == t
  {
  }

  lemma ArrayBodyEmpty()
    ensures ParseArrayBody("]") == Some([])
  {
    assert SkipSpace("]"[1..]) == [];
  }

  lemma ParseEmptyArray()
    ensures Parse("[]") == Some([])
  {
    SkipSpaceAtBracket("[]");
    assert "[]"[1..] == "]";
    SkipSpaceAtBracket("]");
    ArrayBodyEmpty();
  }

  /** Parsing what `Stringify` wrote gives back the same list. */
  lemma StringifyRoundTrip(xs: seq<string>)
    requires forall k :: 0 <= k < |xs| ==> IsPlain(xs[k])
    ensures Parse(Stringify(xs)) == Some(xs)
  {
    if xs == [] {
      ParseEmptyArray();
    } else {
      ParseElementsText(xs);
      ParseOpenBracket(ElementsText(xs));
    }
  }
}

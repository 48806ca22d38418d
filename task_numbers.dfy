/** Task numbers (backend/src/routes/tasks.js). A non-confirmed task is
    numbered `PREFIX/MON/YY`; a confirmed one `NNN/MON/YY`, where `NNN` is one
    more than the highest sequence already confirmed in the current month.
    The month and year always come from the clock, which is a parameter
    here, never from the flight date. */
module TaskNumbers {
  import opened Strings

  type Month = m: int | 1 <= m <= 12 witness 1

  /** The wall clock at the moment a number is generated. */
  datatype Clock = Clock(month: Month, year: nat)

  /** `toLocaleString('default', { month: 'short' }).toUpperCase()` in an
      English locale. */
  function MonthToken(m: Month): (t: string)
    ensures |t| == 3 && forall i :: 0 <= i < 3 ==> IsAsciiUpper(t[i])
  {
    ["JAN", "FEB", "MAR", "APR", "MAY", "JUN", "JUL", "AUG", "SEP", "OCT", "NOV", "DEC"][m - 1]
  }

  /** `getFullYear().toString().slice(-2)`. */
  function YearToken(y: nat): (t: string)
    ensures 1 <= |t| <= 2 && AllDigits(t)
  {
    var s := NatToString(y);
    if |s| <= 2 then s else s[|s| - 2..]
  }

  predicate IsMonthYearToken(t: string) {
    t != [] && '/' !in t
  }

  lemma TokensHaveNoSlash(clock: Clock)
    ensures IsMonthYearToken(MonthToken(clock.month)) && IsMonthYearToken(YearToken(clock.year))
  {
    var m, y := MonthToken(clock.month), YearToken(clock.year);
    assert forall i :: 0 <= i < |m| ==> m[i] != '/';
    assert forall i :: 0 <= i < |y| ==> y[i] != '/';
  }

  /** The properties every object literal inherits from `Object.prototype`:
      `prefixMap[status]` finds them too, and each is truthy. */
  const InheritedKeys: set<string> :=
    {"constructor", "__proto__", "hasOwnProperty", "isPrototypeOf", "propertyIsEnumerable",
     "toString", "toLocaleString", "valueOf",
     "__defineGetter__", "__defineSetter__", "__lookupGetter__", "__lookupSetter__"}

  predicate IsInheritedKey(key: string) { key in InheritedKeys }

  /** The keys of `prefixMap` itself. */
  predicate IsPrefixKey(status: string) {
    status == "provisional" || status == "military" || status == "civil"
  }

  /** The text an inherited property turns into inside a template string:
      `__proto__` is `Object.prototype` itself, `constructor` is `Object`,
      the rest are built-in methods printed by name. */
  function InheritedText(key: string): string {
    if key == "__proto__" then "[object Object]"
    else if key == "constructor" then "function Object() { [native code] }"
    else "function " + key + "() { [native code] }"
  }

  lemma InheritedKeyNoSlash(key: string)
    requires IsInheritedKey(key)
    ensures '/' !in key
  {
    if key == "constructor" {} else if key == "__proto__" {} else if key == "hasOwnProperty" {}
    else if key == "isPrototypeOf" {} else if key == "propertyIsEnumerable" {}
    else if key == "toString" {} else if key == "toLocaleString" {} else if key == "valueOf" {}
    else if key == "__defineGetter__" {} else if key == "__defineSetter__" {}
    else if key == "__lookupGetter__" {} else {}
  }

  /** No inherited property's text holds a `/`, so a number minted from it
      still splits into three parts. */
  lemma InheritedTextNoSlash(key: string)
    requires IsInheritedKey(key)
    ensures InheritedText(key) != [] && '/' !in InheritedText(key)
  {
    InheritedKeyNoSlash(key);
    if key != "__proto__" && key != "constructor" {
      assert '/' !in "function ";
      assert '/' !in "() { [native code] }";
    }
  }

  /** `prefixMap[status]` when it is truthy: the three prefixes of the map's own
      keys, the text of an inherited property, and `None` for any other status. */
  function PrefixFor(status: string): (p: Option<string>)
    ensures p.Some? <==> IsPrefixKey(status) || IsInheritedKey(status)
    ensures p.Some? ==> p.value != [] && '/' !in p.value
    ensures IsInheritedKey(status) ==> p == Some(InheritedText(status))
  {
    if status == "provisional" then Some("PROV")
    else if status == "military" then Some("MIL")
    else if status == "civil" then Some("CIV")
    else if IsInheritedKey(status) then InheritedTextNoSlash(status); Some(InheritedText(status))
    else None
  }

  /** `generateTaskNumber(prefix)`: `PREFIX/MON/YY` for the clock's month.
      A prefix without `/` reads back from the number as its first part,
      followed by the clock's month and year. */
  function GenerateTaskNumber(prefix: string, clock: Clock): (r: string)
    ensures '/' !in prefix ==> Split(r, '/') == [prefix, MonthToken(clock.month), YearToken(clock.year)]
  {
    var r := prefix + "/" + MonthToken(clock.month) + "/" + YearToken(clock.year);
    if '/' in prefix then r
    else SlashParts(prefix, clock); r
  }

  /** The three parts of a prefix number, joined at `/` and split again. */
  lemma SlashParts(prefix: string, clock: Clock)
    requires '/' !in prefix
    ensures Split(prefix + "/" + MonthToken(clock.month) + "/" + YearToken(clock.year), '/')
            == [prefix, MonthToken(clock.month), YearToken(clock.year)]
  {
    var parts := [prefix, MonthToken(clock.month), YearToken(clock.year)];
    TokensHaveNoSlash(clock);
    SplitJoin(parts, '/');
    Join3(prefix, MonthToken(clock.month), YearToken(clock.year), "/");
  }

  /** The number of a status that names an inherited property: its text,
      then the clock's month and year. `constructor` gives
      `function Object() { [native code] }/MON/YY`. */
  lemma InheritedStatusNumber(status: string, clock: Clock, confirmed: set<string>)
    requires IsInheritedKey(status)
    ensures NumberFor(status, clock, confirmed).Some?
    ensures Split(NumberFor(status, clock, confirmed).value, '/')
            == [InheritedText(status), MonthToken(clock.month), YearToken(clock.year)]
    ensures status == "constructor"
            ==> Split(NumberFor(status, clock, confirmed).value, '/')[0] == "function Object() { [native code] }"
  {
    InheritedTextNoSlash(status);
    var text := InheritedText(status);
    assert status != "confirmed" && PrefixFor(status) == Some(text);
    assert NumberFor(status, clock, confirmed) == Some(GenerateTaskNumber(text, clock));
  }

  // ---------------------------------------------------------------------
  // The confirmed sequence

  /** The candidate filter of `generateConfirmedTaskNumber`: exactly three
      `/`-separated parts, month and year equal to the clock's, and some
      digit in the first part. */
  predicate Counted(number: string, clock: Clock) {
    var parts := Split(number, '/');
    |parts| == 3 && parts[1] == MonthToken(clock.month) && parts[2] == YearToken(clock.year)
    && Filter(parts[0], IsDigit) != []
  }

  /** The sequence a counted number carries: the digits of its first part,
      read as one decimal number (`parseInt(parts[0].replace(/\D+/g, ''))`). */
  function SequenceOf(number: string): nat {
    var parts := Split(number, '/');
    DigitsValue(Filter(parts[0], IsDigit))
  }

  /** `max+1` zero-padded to three digits, then `/MON/YY`. The number is
      counted for the clock's month and carries `sequence` back. */
  function ConfirmedNumber(sequence: nat, clock: Clock): (r: string)
    ensures Counted(r, clock) && SequenceOf(r) == sequence
  {
    var head := PadStart(NatToString(sequence), 3, '0');
    SequenceHead(sequence);
    assert Split(GenerateTaskNumber(head, clock), '/') == [head, MonthToken(clock.month), YearToken(clock.year)];
    head + "/" + MonthToken(clock.month) + "/" + YearToken(clock.year)
  }

  /** The highest sequence among the counted candidates, 0 if there is none
      (`MaxSequenceIsMax` states it). */
  ghost function MaxSequence(candidates: set<string>, clock: Clock): nat
    decreases |candidates|
  {
    if candidates == {} then 0
    else
      var n :| n in candidates;
      var rest := MaxSequence(candidates - {n}, clock);
      if Counted(n, clock) && SequenceOf(n) > rest then SequenceOf(n) else rest
  }

  /** `MaxSequence` bounds every counted candidate's sequence and is one of
      them, or 0 when no candidate is counted. */
  lemma {:induction false} MaxSequenceIsMax(candidates: set<string>, clock: Clock)
    ensures forall n :: n in candidates && Counted(n, clock) ==> SequenceOf(n) <= MaxSequence(candidates, clock)
    ensures MaxSequence(candidates, clock) == 0
            || exists n :: n in candidates && Counted(n, clock) && SequenceOf(n) == MaxSequence(candidates, clock)
    decreases |candidates|
  {
    if candidates != {} {
      var n :| n in candidates && MaxSequence(candidates, clock)
        == (var rest := MaxSequence(candidates - {n}, clock);
            if Counted(n, clock) && SequenceOf(n) > rest then SequenceOf(n) else rest);
      MaxSequenceIsMax(candidates - {n}, clock);
      var rest := MaxSequence(candidates - {n}, clock);
      if rest != 0 {
        var w :| w in candidates - {n} && Counted(w, clock) && SequenceOf(w) == rest;
        assert w in candidates;
      }
    }
  }

  /** An upper bound that is attained (or 0 with nothing counted) is the maximum. */
  lemma MaxSequenceUnique(candidates: set<string>, clock: Clock, m: nat)
    requires forall n :: n in candidates && Counted(n, clock) ==> SequenceOf(n) <= m
    requires m == 0 || exists n :: n in candidates && Counted(n, clock) && SequenceOf(n) == m
    ensures MaxSequence(candidates, clock) == m
  {
    MaxSequenceIsMax(candidates, clock);
  }

  /** Adding one candidate raises the maximum to its sequence when that is higher. */
  lemma MaxSequenceAdd(seen: set<string>, n: string, clock: Clock)
    ensures MaxSequence(seen + {n}, clock)
            == if Counted(n, clock) && SequenceOf(n) > MaxSequence(seen, clock)
               then SequenceOf(n) else MaxSequence(seen, clock)
  {
    MaxSequenceIsMax(seen, clock);
    var prev := MaxSequence(seen, clock);
    var m := if Counted(n, clock) && SequenceOf(n) > prev then SequenceOf(n) else prev;
    if prev != 0 {
      var w :| w in seen && Counted(w, clock) && SequenceOf(w) == prev;
      assert w in seen + {n};
    }
    MaxSequenceUnique(seen + {n}, clock, m);
  }

  /** The body of the scan for one candidate: split at `/`, compare month
      and year, and read the digits of the first part when there are any. */
  method ReadSequence(candidate: string, clock: Clock) returns (counted: bool, num: nat)
    ensures counted == Counted(candidate, clock)
    ensures counted ==> num == SequenceOf(candidate)
  {
    var parts := Split(candidate, '/');
    counted, num := false, 0;
    if |parts| == 3 && parts[1] == MonthToken(clock.month) && parts[2] == YearToken(clock.year) {
      var numericPart := Filter(parts[0], IsDigit);
      if numericPart != [] {
        counted, num := true, DigitsValue(numericPart);
      }
    }
  }

  /** `generateConfirmedTaskNumber`: scans the confirmed numbers of the
      current month for the highest sequence and returns the next one. The
      database query hands over the candidates; their order does not matter. */
  method GenerateConfirmedTaskNumber(candidates: set<string>, clock: Clock) returns (number: string)
    ensures number == ConfirmedNumber(MaxSequence(candidates, clock) + 1, clock)
  {
    var maxNumber := HighestSequence(candidates, clock);
    number := ConfirmedNumber(maxNumber + 1, clock);
  }

  /** The scan of `generateConfirmedTaskNumber`: the highest sequence among
      the counted candidates, 0 when none is counted. */
  method HighestSequence(candidates: set<string>, clock: Clock) returns (maxNumber: nat)
    ensures maxNumber == MaxSequence(candidates, clock)
  {
    maxNumber := 0;
    var remaining := candidates;
    ghost var seen: set<string> := {};
    while remaining != {}
      invariant seen + remaining == candidates && seen !! remaining
      invariant maxNumber == MaxSequence(seen, clock)
      decreases |remaining|
    {
      var candidate :| candidate in remaining;
      var counted, num := ReadSequence(candidate, clock);
      if counted && num > maxNumber {
        maxNumber := num;
      }
      MaxSequenceAdd(seen, candidate, clock);
      seen := seen + {candidate};
      remaining := remaining - {candidate};
    }
    assert seen == candidates;
  }

  /** The zero-padded sequence is a non-empty run of digits with that value. */
  lemma SequenceHead(sequence: nat)
    ensures var head := PadStart(NatToString(sequence), 3, '0');
            head != [] && '/' !in head && Filter(head, IsDigit) == head && DigitsValue(head) == sequence
  {
    var head := PadStart(NatToString(sequence), 3, '0');
    PadStartValue(sequence, 3);
    assert forall i :: 0 <= i < |head| ==> head[i] != '/';
    FilterKeepsAll(head, IsDigit);
  }

  /** The minted number is new: it is none of the candidates it was computed
      from, and its sequence exceeds every counted candidate's. */
  lemma MintedNumberIsFresh(candidates: set<string>, clock: Clock, sequence: nat)
    requires sequence == MaxSequence(candidates, clock) + 1
    ensures ConfirmedNumber(sequence, clock) !in candidates
    ensures forall n :: n in candidates && Counted(n, clock)
              ==> SequenceOf(n) < SequenceOf(ConfirmedNumber(sequence, clock))
  {
    MaxSequenceIsMax(candidates, clock);
  }

  /** A prefix number is never counted as a confirmed sequence: its first part has no digit. */
  lemma PrefixNumberNotCounted(prefix: string, clock: Clock)
    requires prefix in {"PROV", "MIL", "CIV"}
    ensures !Counted(GenerateTaskNumber(prefix, clock), clock)
  {
    assert forall i :: 0 <= i < |prefix| ==> !IsDigit(prefix[i]);
  }

  // ---------------------------------------------------------------------
  // getTaskNumber

  /** The number `getTaskNumber(status)` produces, given the confirmed numbers
      in the table; `None` stands for the `Invalid task status` error. */
  ghost function NumberFor(status: string, clock: Clock, confirmed: set<string>): (r: Option<string>)
    ensures r.None? <==> !IsPrefixKey(status) && status != "confirmed" && !IsInheritedKey(status)
  {
    if status == "confirmed" then Some(ConfirmedNumber(MaxSequence(confirmed, clock) + 1, clock))
    else match PrefixFor(status)
      case Some(prefix) => Some(GenerateTaskNumber(prefix, clock))
      case None => None
  }

  /** `getTaskNumber`: the confirmed sequence for `confirmed`, the prefix
      number for every other status `prefixMap` answers. */
  method GetTaskNumber(status: string, clock: Clock, confirmed: set<string>) returns (r: Option<string>)
    ensures r == NumberFor(status, clock, confirmed)
  {
    if status == "confirmed" {
      var number := GenerateConfirmedTaskNumber(confirmed, clock);
      return Some(number);
    }
    match PrefixFor(status) {
      case Some(prefix) => r := Some(GenerateTaskNumber(prefix, clock));
      case None => r := None;
    }
  }

  /** Whatever the status, a number's month and year are the clock's: it
      splits into three parts, the last two being the clock's tokens. */
  lemma NumberUsesClock(status: string, clock: Clock, confirmed: set<string>)
    requires NumberFor(status, clock, confirmed).Some?
    ensures var parts := Split(NumberFor(status, clock, confirmed).value, '/');
            |parts| == 3 && parts[1] == MonthToken(clock.month) && parts[2] == YearToken(clock.year)
  {
    if status != "confirmed" {
      assert '/' !in PrefixFor(status).value;
    }
  }

  /** The number of each non-confirmed status starts with its own prefix. */
  lemma PrefixNumbers(clock: Clock, confirmed: set<string>)
    ensures Split(NumberFor("provisional", clock, confirmed).value, '/')[0] == "PROV"
    ensures Split(NumberFor("military", clock, confirmed).value, '/')[0] == "MIL"
    ensures Split(NumberFor("civil", clock, confirmed).value, '/')[0] == "CIV"
  {
    assert '/' !in "PROV" && '/' !in "MIL" && '/' !in "CIV";
  }

  /** With no counted confirmed number this month, the sequence starts at `001`. */
  lemma FirstConfirmedOfMonth(clock: Clock, confirmed: set<string>)
    requires forall n :: n in confirmed ==> !Counted(n, clock)
    ensures NumberFor("confirmed", clock, confirmed)
            == Some("001/" + MonthToken(clock.month) + "/" + YearToken(clock.year))
  {
    MaxSequenceUnique(confirmed, clock, 0);
    assert NatToString(1) == "1";
    assert PadStart("1", 3, '0') == Repeat('0', 2) + "1";
    assert Repeat('0', 2) == "00";
    assert PadStart(NatToString(1), 3, '0') + "/" == "001/";
  }
}

/** The two training-flight forms (frontend/src/components/TrainingFlights/
    AddTrgModal.js and EditTrgModal.js): the `HH:MM` check `validateTime`,
    the keystroke cleaning of the departure and arrival times, loading a
    stored flight into the edit form, and submit gating. */
module TrainingForms {
  import opened Strings
  import Training

  // ---------------------------------------------------------------------
  // validateTime

  /** `[01]?[0-9]|2[0-3]`. */
  predicate IsHourToken(h: string) {
    (|h| == 1 && IsDigit(h[0]))
    || (|h| == 2 && (h[0] == '0' || h[0] == '1') && IsDigit(h[1]))
    || (|h| == 2 && h[0] == '2' && '0' <= h[1] <= '3')
  }

  /** `[0-5][0-9]`. */
  predicate IsMinuteToken(m: string) {
    |m| == 2 && '0' <= m[0] <= '5' && IsDigit(m[1])
  }

  /** `^([01]?[0-9]|2[0-3]):[0-5][0-9]$`. */
  predicate MatchesTime24(t: string) {
    (|t| == 4 || |t| == 5) && IsHourToken(t[..|t| - 3]) && t[|t| - 3] == ':' && IsMinuteToken(t[|t| - 2..])
  }

  /** `validateTime(time)`: the empty time, or a 24-hour `H:MM`/`HH:MM`. A
      valid time is at most five digits and colons, so the keystroke cleaning
      below can produce it. */
  predicate ValidateTime(t: string)
    ensures ValidateTime(t) ==> |t| <= 5 && AllTimeChars(t)
  {
    t == "" || MatchesTime24(t)
  }

  lemma HourTokenValue(h: string)
    requires |h| == 1 || |h| == 2
    ensures IsHourToken(h) <==> AllDigits(h) && DigitsValue(h) <= 23
  {
    if AllDigits(h) {
      if |h| == 1 {
        OneDigitValue(h);
      } else {
        TwoDigitsValue(h);
      }
    }
  }

  lemma MinuteTokenValue(m: string)
    requires |m| == 2
    ensures IsMinuteToken(m) <==> AllDigits(m) && DigitsValue(m) <= 59
  {
    if AllDigits(m) {
      TwoDigitsValue(m);
    }
  }

  /** The forms and the backend accept the same non-empty times: a time
      passes `validateTime` exactly when `formatTimeForDB` can store it. */
  lemma ValidTimeIffStorable(t: string)
    ensures (t != "" && ValidateTime(t)) <==> Training.FormatTimeForDB(Some(t)).Some?
  {
    if |t| == 4 || |t| == 5 {
      HourTokenValue(t[..|t| - 3]);
      MinuteTokenValue(t[|t| - 2..]);
      if Training.IsClockText(t) {
        assert !IsSpace(t[0]);
        assert Trim(t) != "";
      }
    }
  }

  // ---------------------------------------------------------------------
  // Keystroke cleaning

  predicate IsTimeChar(c: char) { IsDigit(c) || c == ':' }

  predicate AllTimeChars(s: string) { forall i :: 0 <= i < |s| ==> IsTimeChar(s[i]) }

  /** `value.replace(/[^0-9:]/g, '')`. */
  function KeepTimeChars(value: string): (r: string)
    ensures AllTimeChars(r)
    ensures forall c :: c in r <==> c in value && IsTimeChar(c)
  {
    Filter(value, IsTimeChar)
  }

  /** The cleaning works character by character: a digit or colon stays in
      its place, anything else is removed, and cleaning a concatenation
      cleans each piece. */
  lemma KeepTimeCharsPiecewise(a: string, b: string, c: char)
    ensures KeepTimeChars([]) == []
    ensures KeepTimeChars([c]) == if IsTimeChar(c) then [c] else []
    ensures KeepTimeChars(a + b) == KeepTimeChars(a) + KeepTimeChars(b)
  {
    FilterAppend(a, b, IsTimeChar);
    assert [c][1..] == [];
  }

  /** `s.split(':')[0]` of a cleaned time: the digits before the first colon. */
  function HoursText(s: string): (h: string)
    requires AllTimeChars(s)
    ensures AllDigits(h) && h == BeforeFirst(s, ':')
  {
    var h := BeforeFirst(s, ':');
    assert forall i :: 0 <= i < |h| ==> h[i] == s[i] && h[i] != ':';
    h
  }

  /** The part before the first colon, when the first colon is at `k`. */
  lemma {:induction false} BeforeFirstAt(s: string, k: nat)
    requires k < |s| && s[k] == ':' && forall i :: 0 <= i < k ==> s[i] != ':'
    ensures BeforeFirst(s, ':') == s[..k]
    decreases k
  {
    if k > 0 {
      BeforeFirstAt(s[1..], k - 1);
      assert [s[0]] + s[1..][..k - 1] == s[..k];
    }
  }

  lemma DigitsValueBelowTen(s: string)
    requires |s| <= 1 && AllDigits(s)
    ensures DigitsValue(s) <= 9
  {
    if |s| == 1 {
      OneDigitValue(s);
    }
  }

  /** The hours of a valid time are the digits before its colon. */
  lemma ValidTimeHours(t: string)
    requires t != "" && ValidateTime(t) && AllTimeChars(t)
    ensures HoursText(t) == t[..|t| - 3] && DigitsValue(HoursText(t)) <= 23
  {
    BeforeFirstAt(t, |t| - 3);
    HourTokenValue(t[..|t| - 3]);
  }

  // The add form (frontend/src/components/TrainingFlights/AddTrgModal.js, handleChange)

  /** The kept characters, with a colon after two bare digits, cut to five. */
  function AddTimeCut(value: string): (cut: string)
    ensures |cut| <= 5 && AllTimeChars(cut)
  {
    var kept := KeepTimeChars(value);
    var withColon := if |kept| == 2 && ':' !in kept then kept + ":" else kept;
    Prefix(withColon, 5)
  }

  /** `parseInt(cleaned.split(':')[0]) > 23`: false for `NaN`, the empty hours. */
  predicate AddHoursOver23(cut: string)
    requires AllTimeChars(cut)
  {
    HoursText(cut) != [] && DigitsValue(HoursText(cut)) > 23
  }

  /** What the add form keeps of a typed departure or arrival time: at most
      five digits and colons, the same length as the cut; capping rewrites
      only the first two characters, to `23`, and only when the leading
      hours exceed 23. */
  function AddTimeCleaned(value: string): (r: string)
    ensures |r| == |AddTimeCut(value)| && |r| <= 5 && AllTimeChars(r)
    ensures r != AddTimeCut(value)
            ==> |r| >= 2 && r[..2] == "23" && r[2..] == AddTimeCut(value)[2..] && AddHoursOver23(AddTimeCut(value))
    ensures |AddTimeCut(value)| >= 2 && AddHoursOver23(AddTimeCut(value))
            ==> r == "23" + AddTimeCut(value)[2..]
    ensures !(|AddTimeCut(value)| >= 2 && AddHoursOver23(AddTimeCut(value))) ==> r == AddTimeCut(value)
  {
    var cut := AddTimeCut(value);
    if |cut| >= 2 && AddHoursOver23(cut) then
      var r := "23" + cut[2..];
      assert r[..2] == "23" && r[2..] == cut[2..];
      assert forall i :: 2 <= i < |r| ==> r[i] == cut[i];
      r
    else cut
  }

  /** Typing a second bare digit adds the colon: `"08"` becomes `"08:"`,
      and hours above 23 become `"23:"`. */
  lemma AddTimeAutoColon(value: string)
    requires var kept := KeepTimeChars(value); |kept| == 2 && ':' !in kept
    ensures AllDigits(KeepTimeChars(value))
    ensures AddTimeCleaned(value)
            == if DigitsValue(KeepTimeChars(value)) > 23 then "23:" else KeepTimeChars(value) + ":"
  {
    var kept := KeepTimeChars(value);
    var withColon := kept + ":";
    assert forall i :: 0 <= i < 2 ==> withColon[i] == kept[i] && kept[i] != ':';
    BeforeFirstAt(withColon, 2);
    assert withColon[..2] == kept;
    assert AddTimeCut(value) == withColon;
  }

  /** Capped two-digit hours read back as `23`: `"25:30"` becomes `"23:30"`. */
  lemma AddCappedHours(value: string)
    requires var cut := AddTimeCut(value); |cut| >= 3 && cut[2] == ':' && AddHoursOver23(cut)
    ensures AddTimeCleaned(value)[2..] == AddTimeCut(value)[2..]
    ensures HoursText(AddTimeCleaned(value)) == "23"
  {
    var r := AddTimeCleaned(value);
    assert r[0] == '2' && r[1] == '3' && r[2] == ':';
    BeforeFirstAt(r, 2);
  }

  /** A valid time typed or pasted whole passes through unchanged. */
  lemma AddKeepsValidTime(value: string)
    requires KeepTimeChars(value) != "" && ValidateTime(KeepTimeChars(value))
    ensures AddTimeCleaned(value) == KeepTimeChars(value)
  {
    var kept := KeepTimeChars(value);
    assert AddTimeCut(value) == kept;
    ValidTimeHours(kept);
  }

  // The edit form (frontend/src/components/TrainingFlights/EditTrgModal.js, handleChange)

  /** The kept characters, with a colon after the first two of three or more
      bare digits, cut to five. */
  function EditTimeCut(value: string): (cut: string)
    ensures |cut| <= 5 && AllTimeChars(cut)
  {
    var kept := KeepTimeChars(value);
    var withColon := if |kept| > 2 && ':' !in kept then kept[..2] + ":" + kept[2..] else kept;
    assert AllTimeChars(withColon);
    Prefix(withColon, 5)
  }

  /** `parseInt(hoursStr, 10) || 0`. */
  function HoursOrZero(s: string): nat
    requires AllTimeChars(s)
  {
    if HoursText(s) == [] then 0 else DigitsValue(HoursText(s))
  }

  /** `s.split(':')[1] || '00'` for a string that has a colon: the run between
      the first and the second colon, or `"00"` when that run is empty. */
  function MinutesOrZeros(s: string): (m: string)
    requires AllTimeChars(s) && ':' in s
    ensures AllTimeChars(m)
    ensures |m| <= 2 || |m| < |s| - |HoursText(s)|
  {
    var rest := s[|HoursText(s)| + 1..];
    var m := BeforeFirst(rest, ':');
    assert forall i :: 0 <= i < |m| ==> m[i] == rest[i];
    if m == [] then "00" else m
  }

  /** What the edit form keeps of a typed departure or arrival time: at most
      five digits and colons, and once there is a colon the hours before it
      are at most 23. */
  function EditTimeCleaned(value: string): (r: string)
    ensures |r| <= 5 && AllTimeChars(r)
    ensures ':' in r ==> HoursOrZero(r) <= 23
  {
    var cut := EditTimeCut(value);
    if ':' in cut && HoursOrZero(cut) > 23 then
      assert |HoursText(cut)| >= 2 by {
        if |HoursText(cut)| <= 1 {
          DigitsValueBelowTen(HoursText(cut));
        }
      }
      HoursOf23(MinutesOrZeros(cut));
      "23:" + MinutesOrZeros(cut)
    else cut
  }

  lemma HoursOf23(tail: string)
    requires AllTimeChars(tail)
    ensures AllTimeChars("23:" + tail) && HoursOrZero("23:" + tail) == 23
  {
    var r := "23:" + tail;
    assert r[0] == '2' && r[1] == '3' && r[2] == ':';
    BeforeFirstAt(r, 2);
    assert r[..2] == "23";
    TwoDigitsValue("23");
  }

  /** The cap as the source writes it: with a colon and hours above 23, the
      text becomes `23:` followed by `cleaned.split(':')[1]`, or `23:00` when
      that part is empty; otherwise the cut text is kept. */
  lemma EditTimeCapRule(value: string)
    ensures var cut := EditTimeCut(value);
      ':' in cut && HoursOrZero(cut) > 23
      ==> |Split(cut, ':')| >= 2
          && EditTimeCleaned(value) == "23:" + (if Split(cut, ':')[1] == "" then "00" else Split(cut, ':')[1])
    ensures var cut := EditTimeCut(value);
      !(':' in cut && HoursOrZero(cut) > 23) ==> EditTimeCleaned(value) == cut
  {
    var cut := EditTimeCut(value);
    if ':' in cut {
      var h := HoursText(cut);
      var rest := cut[|h| + 1..];
      assert cut == h + [':'] + rest;
      SplitAfterPart(h, ':', rest);
      BeforeFirstIsFirstPart(rest, ':');
    }
  }

  /** Three or more bare digits get a colon after the first two. */
  lemma EditTimeAutoColon(value: string)
    requires var kept := KeepTimeChars(value); |kept| > 2 && ':' !in kept
    ensures |EditTimeCleaned(value)| >= 3 && EditTimeCleaned(value)[2] == ':'
  {
    var cut := EditTimeCut(value);
    assert cut[2] == ':';
  }

  /** A valid time typed or pasted whole passes through unchanged. */
  lemma EditKeepsValidTime(value: string)
    requires KeepTimeChars(value) != "" && ValidateTime(KeepTimeChars(value))
    ensures EditTimeCleaned(value) == KeepTimeChars(value)
  {
    var kept := KeepTimeChars(value);
    assert kept[|kept| - 3] == ':';
    assert EditTimeCut(value) == kept;
    ValidTimeHours(kept);
  }

  // ---------------------------------------------------------------------
  // Loading a stored flight into the edit form

  /** `t?.substring(0, 5) || ''`: the first five characters of a stored
      time, or all of a shorter one; blank when there is none. */
  function LoadTime(t: Option<string>): (r: string)
    ensures t.None? ==> r == ""
    ensures t.Some? ==> |r| == (if |t.value| < 5 then |t.value| else 5) && r == t.value[..|r|]
  {
    if t.None? then "" else Prefix(t.value, 5)
  }

  /** `d?.split('T')[0] || ''`: the stored date up to its first `T`, or all
      of it when it has none; blank when there is none. */
  function LoadDate(d: Option<string>): (r: string)
    ensures 'T' !in r
    ensures d.None? ==> r == ""
    ensures d.Some? ==> StartsWith(d.value, r) && (|r| == |d.value| || d.value[|r|] == 'T')
  {
    if d.None? then "" else BeforeFirst(d.value, 'T')
  }

  /** A stored `HH:MM:00` loads into the edit form as a valid time that
      formats back to the same stored value. */
  lemma LoadedStoredTime(s: string)
    requires Training.IsStoredTime(s)
    ensures LoadTime(Some(s)) != "" && ValidateTime(LoadTime(Some(s)))
    ensures Training.FormatTimeForDB(Some(LoadTime(Some(s)))) == Some(s)
  {
    Training.StoredTimeReformats(s);
    ValidTimeIffStorable(s[..5]);
  }

  // ---------------------------------------------------------------------
  // The forms

  datatype Submission = Blocked | Sent(atd: Option<string>, ata: Option<string>)

  /** The add-training form's `newTraining` state, keyed by field name. */
  class AddTrainingForm {
    var values: map<string, string>

    ghost predicate Valid()
      reads this
    {
      "atd" in values && "ata" in values
    }

    /** The empty form, dated `today`. */
    constructor(today: string)
      ensures Valid()
      ensures values == map["date_of_flight" := today, "call_sign" := "", "aircraft_type" := "", "atd" := "",
                            "route" := "", "ata" := "", "duty" := "", "crew" := ""]
    {
      values := map["date_of_flight" := today, "call_sign" := "", "aircraft_type" := "", "atd" := "",
                    "route" := "", "ata" := "", "duty" := "", "crew" := ""];
    }

    /** `handleChange(field, value)`: times are cleaned, other fields stored verbatim. */
    method HandleChange(field: string, value: string)
      requires Valid()
      modifies this
      ensures Valid()
      ensures field != "atd" && field != "ata" ==> values == old(values)[field := value]
      ensures field == "atd" || field == "ata" ==> values == old(values)[field := AddTimeCleaned(value)]
    {
      if field == "atd" || field == "ata" {
        var cleaned := AddTimeCleaned(value);
        values := values[field := cleaned];
      } else {
        values := values[field := value];
      }
    }

    /** `handleSubmit`: blocked on an invalid non-empty time; empty times are
        sent as `null`. What it sends, the backend accepts. */
    method Submit() returns (s: Submission)
      requires Valid()
      ensures s.Sent? <==> ValidateTime(values["atd"]) && ValidateTime(values["ata"])
      ensures s.Sent? ==> s.atd == OrNull(Some(values["atd"])) && s.ata == OrNull(Some(values["ata"]))
      ensures s.Sent? ==> !(Truthy(s.atd) && Training.FormatTimeForDB(s.atd).None?)
                          && !(Truthy(s.ata) && Training.FormatTimeForDB(s.ata).None?)
    {
      var atd, ata := values["atd"], values["ata"];
      var atdValid := ValidateTime(atd);
      var ataValid := ValidateTime(ata);
      if (atd != "" && !atdValid) || (ata != "" && !ataValid) {
        return Blocked;
      }
      ValidTimeIffStorable(atd);
      ValidTimeIffStorable(ata);
      s := Sent(OrNull(Some(atd)), OrNull(Some(ata)));
    }
  }

  /** The edit-training form's `editedFlight` state, keyed by field name. */
  class EditTrainingForm {
    var values: map<string, string>

    ghost predicate Valid()
      reads this
    {
      "atd" in values && "ata" in values
    }

    constructor()
      ensures Valid()
      ensures values == map["date_of_flight" := "", "call_sign" := "", "aircraft_type" := "", "atd" := "",
                            "route" := "", "ata" := "", "duty" := "", "crew" := ""]
    {
      values := map["date_of_flight" := "", "call_sign" := "", "aircraft_type" := "", "atd" := "",
                    "route" := "", "ata" := "", "duty" := "", "crew" := ""];
    }

    /** The effect that loads a flight: its other fields as they are, the
        date cut before `T`, the times cut to five characters. */
    method Load(others: map<string, string>, date: Option<string>, atd: Option<string>, ata: Option<string>)
      modifies this
      ensures Valid()
      ensures values == others["date_of_flight" := LoadDate(date)]["atd" := LoadTime(atd)]["ata" := LoadTime(ata)]
    {
      values := others["date_of_flight" := LoadDate(date)]["atd" := LoadTime(atd)]["ata" := LoadTime(ata)];
    }

    /** `handleChange(field, value)`: times are cleaned, other fields stored verbatim. */
    method HandleChange(field: string, value: string)
      requires Valid()
      modifies this
      ensures Valid()
      ensures field != "atd" && field != "ata" ==> values == old(values)[field := value]
      ensures field == "atd" || field == "ata" ==> values == old(values)[field := EditTimeCleaned(value)]
    {
      if field == "atd" || field == "ata" {
        var cleaned := EditTimeCleaned(value);
        values := values[field := cleaned];
      } else {
        values := values[field := value];
      }
    }

    /** `handleSubmit`: blocked on an invalid non-empty time; times are sent
        as they stand. What it sends, the backend accepts. */
    method Submit() returns (s: Submission)
      requires Valid()
      ensures s.Sent? <==> ValidateTime(values["atd"]) && ValidateTime(values["ata"])
      ensures s.Sent? ==> s.atd == Some(values["atd"]) && s.ata == Some(values["ata"])
      ensures s.Sent? ==> !(Truthy(s.atd) && Training.FormatTimeForDB(s.atd).None?)
                          && !(Truthy(s.ata) && Training.FormatTimeForDB(s.ata).None?)
    {
      var atd, ata := values["atd"], values["ata"];
      var atdValid := ValidateTime(atd);
      var ataValid := ValidateTime(ata);
      if (!atdValid && atd != "") || (!ataValid && ata != "") {
        return Blocked;
      }
      ValidTimeIffStorable(atd);
      ValidTimeIffStorable(ata);
      s := Sent(Some(atd), Some(ata));
    }
  }
}

/** How a movement row shows a time (frontend/src/components/MovementsTable/
    MovementsRow.js, `formatTime`): an exact `HH:MM` as it is, anything else
    as the placeholder `--:--`. */
module MovementsRow {
  import opened Strings

  const Placeholder: string := "--:--"

  /** `^\d{2}:\d{2}$`. */
  predicate IsHourMinute(t: string) {
    |t| == 5 && IsDigit(t[0]) && IsDigit(t[1]) && t[2] == ':' && IsDigit(t[3]) && IsDigit(t[4])
  }

  /** `formatTime(timeValue)`. */
  function FormatTime(time: Option<string>): (r: string)
    ensures |r| == 5
    ensures r == Placeholder || (time.Some? && r == time.value)
  {
    if !Truthy(time) then Placeholder
    else if IsHourMinute(time.value) then time.value
    else Placeholder
  }

  /** A time is shown as it is exactly when it is `HH:MM`; a time with
      seconds, such as a stored `HH:MM:SS`, shows the placeholder. */
  lemma FormatTimeShows(t: string)
    ensures FormatTime(Some(t)) == t <==> IsHourMinute(t) || t == Placeholder
    ensures |t| == 8 ==> FormatTime(Some(t)) == Placeholder
  {
  }
}

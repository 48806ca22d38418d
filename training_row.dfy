/** How a training-flight row shows a time (frontend/src/components/
    TrainingFlights/TrainingRow.js, `formatTimeDisplay`): the leading
    `HH:MM` of a time, or the text as it is when it does not start so. */
module TrainingRow {
  import opened Strings
  import Training

  /** `^(\d{2}):(\d{2})`: the text starts with two digits, a colon, two digits. */
  predicate StartsWithHourMinute(t: string) {
    |t| >= 5 && IsDigit(t[0]) && IsDigit(t[1]) && t[2] == ':' && IsDigit(t[3]) && IsDigit(t[4])
  }

  /** `formatTimeDisplay(timeString)`. */
  function FormatTimeDisplay(time: Option<string>): (r: string)
    ensures !Truthy(time) ==> r == ""
    ensures Truthy(time) && StartsWithHourMinute(time.value) ==> r == time.value[..5]
    ensures Truthy(time) && !StartsWithHourMinute(time.value) ==> r == time.value
  {
    if !Truthy(time) then ""
    else if StartsWithHourMinute(time.value) then time.value[..2] + ":" + time.value[3..5]
    else time.value
  }

  /** Showing a shown time again changes nothing. */
  lemma FormatTimeDisplayIdempotent(time: Option<string>)
    ensures FormatTimeDisplay(Some(FormatTimeDisplay(time))) == FormatTimeDisplay(time)
  {
  }

  /** A stored `HH:MM:00` is shown as its `HH:MM`, which is exactly the time
      that formats back to it. */
  lemma StoredTimeShown(s: string)
    requires Training.IsStoredTime(s)
    ensures FormatTimeDisplay(Some(s)) == s[..5]
    ensures Training.FormatTimeForDB(Some(FormatTimeDisplay(Some(s)))) == Some(s)
  {
    Training.StoredTimeReformats(s);
  }
}

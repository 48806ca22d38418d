/** How one task row is displayed (frontend/src/components/TaskTable/TaskRow.js):
    its status label, the badge style of its occurrence status, and whether it
    offers a Confirm button; and the file's own date helper `formatDate`. The
    row itself renders the date with the `formatDate` prop it receives from
    the table body, which shadows that helper and is not part of this model. */
module TaskRow {
  import opened Strings
  import TaskStore

  /** The file's `formatDate(dateStr)` helper: the date part of a timestamp.
      The row's rendering does not call it (the prop of the same name wins). */
  function FormatDate(date: Option<string>): (r: string)
    ensures 'T' !in r
    ensures Truthy(date) ==> StartsWith(date.value, r)
    ensures Truthy(date) && 'T' !in date.value ==> r == date.value
  {
    if !Truthy(date) then ""
    else if 'T' in date.value then
      BeforeFirstIsFirstPart(date.value, 'T');
      Split(date.value, 'T')[0]
    else date.value
  }

  /** The shown date is the part before the first `T`, and showing it again
      changes nothing. */
  lemma FormatDateIsDatePart(date: string)
    requires date != ""
    ensures FormatDate(Some(date)) == BeforeFirst(date, 'T')
    ensures FormatDate(Some(FormatDate(Some(date)))) == FormatDate(Some(date))
  {
    BeforeFirstIsFirstPart(date, 'T');
  }

  /** The four statuses a task can have. */
  predicate IsKnownStatus(status: string) {
    status == "provisional" || status == "military" || status == "civil" || status == "confirmed"
  }

  /** `displayStatus(status)`. */
  function DisplayStatus(status: string): string {
    match status
    case "provisional" => "Provisional"
    case "military" => "Military"
    case "civil" => "Civil"
    case "confirmed" => "Confirmed"
    case _ => status
  }

  /** A known status is shown with its first letter capitalised and the rest
      as stored; any other value is shown as it is. */
  lemma DisplayStatusCapitalises(status: string)
    ensures IsKnownStatus(status) ==>
      (var shown := DisplayStatus(status);
       |shown| == |status| && IsAsciiUpper(shown[0]) && LowerChar(shown[0]) == status[0]
       && shown[1..] == status[1..])
    ensures !IsKnownStatus(status) ==> DisplayStatus(status) == status
  {
  }

  const PendingStyle: string := "bg-orange-100 text-orange-800 rounded-full px-3 py-1"
  const UndertakenStyle: string := "bg-green-100 text-green-800 rounded-full px-3 py-1"
  const CancelledStyle: string := "bg-red-100 text-red-800 rounded-full px-3 py-1"

  /** `getOccurrenceStatusStyle(status)`. */
  function OccurrenceStyle(status: string): string {
    match ToLower(status)
    case "pending" => PendingStyle
    case "undertaken" => UndertakenStyle
    case "cancelled" => CancelledStyle
    case _ => ""
  }

  lemma {:induction false} ToLowerIdempotent(s: string)
    ensures ToLower(ToLower(s)) == ToLower(s)
  {
    var once := ToLower(s);
    forall i | 0 <= i < |s|
      ensures ToLower(once)[i] == once[i]
    {
      assert once[i] == LowerChar(s[i]);
    }
  }

  /** The style ignores letter case, and only the three known occurrence
      statuses get one. */
  lemma OccurrenceStyleRules(status: string)
    ensures OccurrenceStyle(status) == OccurrenceStyle(ToLower(status))
    ensures OccurrenceStyle(status) != "" <==>
              ToLower(status) == "pending" || ToLower(status) == "undertaken" || ToLower(status) == "cancelled"
  {
    ToLowerIdempotent(status);
  }

  /** A task created without an occurrence status shows the pending badge. */
  lemma DefaultOccurrenceStyled()
    ensures OccurrenceStyle(OrDefault(None, TaskStore.DefaultOccurrence)) == PendingStyle
  {
    assert ToLower("Pending") == "pending";
  }

  /** The Confirm button's condition. */
  predicate ShowConfirmButton(status: string) {
    status == "provisional" || status == "military"
  }

  /** The button appears exactly for the rows the server agrees to confirm. */
  lemma ConfirmButtonMatchesServer(status: string)
    ensures ShowConfirmButton(status) <==> TaskStore.CanConfirm(status)
  {
  }
}

/** The report endpoint's request checks (backend/src/routes/reports.js): the
    module must be one of the three tables, both dates must be given, and the
    start may not come after the end; a valid request selects the module's
    table, with a flight-duration column for training flights only. Parsing a
    date (`new Date(d)`) is a parameter: `time(d)` is its timestamp, or `None`
    for an invalid date, which compares as neither earlier nor later. */
module Reports {
  import opened Strings

  /** The query string of a report request; `section` is its `module` parameter. */
  datatype Query = Query(section: Option<string>, startDate: Option<string>, endDate: Option<string>)

  /** The outcome: a 400 for each failed check, or the query to run. */
  datatype Report =
    | InvalidModule
    | MissingDates
    | StartAfterEnd
    | Select(table: string, withDuration: bool)

  /** `validModules.includes(module)`. */
  predicate IsValidModule(section: Option<string>) {
    section == Some("tasks") || section == Some("movements") || section == Some("training")
  }

  /** `tableMap[module]`. */
  function TableFor(section: string): string {
    match section
    case "tasks" => "aircraft_tasks"
    case "movements" => "aircraft_movements"
    case _ => "training_flights"
  }

  /** `new Date(startDate) > new Date(endDate)`. */
  predicate StartsAfter(start: string, end: string, time: string -> Option<int>) {
    time(start).Some? && time(end).Some? && time(start).value > time(end).value
  }

  /** The handler's checks, in order, and the query it runs. */
  function Validate(q: Query, time: string -> Option<int>): (r: Report)
  {
    if !IsValidModule(q.section) then InvalidModule
    else if !Truthy(q.startDate) || !Truthy(q.endDate) then MissingDates
    else if StartsAfter(q.startDate.value, q.endDate.value, time) then StartAfterEnd
    else Select(TableFor(q.section.value), q.section.value == "training")
  }

  /** The module is checked first and the dates second; a report is produced
      exactly when all three checks pass, from the module's own table, and
      only training reports carry the duration column. */
  lemma ValidateRules(q: Query, time: string -> Option<int>)
    ensures !IsValidModule(q.section) ==> Validate(q, time) == InvalidModule
    ensures IsValidModule(q.section) && (!Truthy(q.startDate) || !Truthy(q.endDate))
            ==> Validate(q, time) == MissingDates
    ensures Validate(q, time).Select? <==>
              IsValidModule(q.section) && Truthy(q.startDate) && Truthy(q.endDate)
              && !StartsAfter(q.startDate.value, q.endDate.value, time)
    ensures Validate(q, time).Select? ==>
              (Validate(q, time).withDuration <==> q.section == Some("training"))
              && Validate(q, time).table == TableFor(q.section.value)
  {
  }

  /** A report over a single day is accepted. */
  lemma SameDayAccepted(section: string, day: string, time: string -> Option<int>)
    requires IsValidModule(Some(section)) && day != ""
    ensures Validate(Query(Some(section), Some(day), Some(day)), time).Select?
  {
  }

  /** The three modules read three different tables. */
  lemma TablesDistinct(a: string, b: string)
    requires IsValidModule(Some(a)) && IsValidModule(Some(b)) && a != b
    ensures TableFor(a) != TableFor(b)
  {
  }
}

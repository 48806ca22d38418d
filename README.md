# Aircraft tasks, movements and training flights — a Dafny model

The system records aircraft tasks, aircraft movements and training flights.
It is an Express back end over three MySQL tables with a React front end.
This project models the parts of it that carry rules:

- **Task numbers.** A task carries a number of the form `PREFIX/MON/YY`:
  `PROV`, `MIL` or `CIV` for a provisional, military or civil task. A
  confirmed task instead carries `NNN/MON/YY`. The `NNN` is one more than the
  highest sequence among the confirmed numbers of the current month, padded
  to three digits. The month and year always come from the clock, never from
  the flight date.
- **The task table.** Creating a task inserts one row per affected date. All
  of those rows share one number and one stored date list, and they get a
  group id when there is more than one date. Confirming a provisional or
  military task renumbers it and its whole group. Updating overwrites the
  columns named in the request and renumbers the row on a change to another
  non-confirmed status. Deleting removes one row.
- **Training flights.** Departure and arrival times are stored as
  `HH:MM:00`, and a request with a time that cannot be stored is refused.
  The two training forms clean every keystroke of a time field and refuse to
  submit a time that the back end would refuse.
- **The e-mail limiter.** It keeps a sliding window of fifteen minutes and
  allows at most one hundred e-mails per address in that window.
- **Reports and movements.** The report query's validation chain. The
  movements handlers' required fields, null filling and delete.
- **The task screen.** The search, the date filter, the local copy of a
  group confirmation and the pager. The edit form's conversion of the
  affected dates between the stored JSON list and the comma-separated text
  the user edits. The add form's handling of status and date changes.

There is one Dafny module per source file, plus two modules of JavaScript
built-ins:

- `Strings`: `split`, `join`, `trim`, `includes`, digits, `padStart`, and
  `toLowerCase` restricted to the ASCII letters `A`–`Z` (see "Left out").
- `JsonList`: `JSON.stringify` and `JSON.parse` of arrays of strings.

The clock, the millisecond stamp of a group id and JavaScript's date parsing
are parameters. The database tables are `map<int, Row>` fields of classes
whose methods are the route handlers. The add form, the two training forms
and the e-mail limiter are classes whose fields are their state.

## Model

| member | source | states |
|---|---|---|
| TaskNumbers.MonthToken | backend/src/routes/tasks.js:19 | the month token is three upper-case letters |
| TaskNumbers.PrefixFor | backend/src/routes/tasks.js:78-88 | `prefixMap[status]` is truthy exactly for provisional, military, civil and the names of the properties an object inherits from `Object.prototype`; an inherited name gives that property's text; no prefix holds a `/` |
| TaskNumbers.GenerateTaskNumber | backend/src/routes/tasks.js:59-65 | a number minted from a prefix without `/` splits at `/` into the prefix, the clock's month token and its two-digit year |
| TaskNumbers.InheritedStatusNumber | backend/src/routes/tasks.js:86-88 | a status naming an inherited property is numbered with that property's text, so `constructor` gives `function Object() { [native code] }/MON/YY` |
| TaskNumbers.MaxSequenceIsMax | backend/src/routes/tasks.js:30-45 | the highest counted sequence bounds every counted candidate and is attained by one of them, or is 0 when none is counted |
| TaskNumbers.MaxSequenceAdd | backend/src/routes/tasks.js:33-45 | one more candidate raises the maximum exactly when it is counted and its sequence is higher |
| TaskNumbers.ReadSequence | backend/src/routes/tasks.js:34-43 | one candidate is counted exactly when it has three parts, the clock's month and year and a digit in its first part, and then yields the value of those digits |
| TaskNumbers.HighestSequence | backend/src/routes/tasks.js:30-45 | the loop over the confirmed numbers keeps the highest counted sequence seen so far and ends with the highest over all candidates, 0 when none is counted |
| TaskNumbers.GenerateConfirmedTaskNumber | backend/src/routes/tasks.js:16-50 | the result is max+1 over the counted candidates, padded to three digits, with the clock's month and year |
| TaskNumbers.ConfirmedNumber | backend/src/routes/tasks.js:47-49 | a minted number is itself counted for its month, and its sequence reads back as the one minted |
| TaskNumbers.MintedNumberIsFresh | backend/src/routes/tasks.js:47-49 | the minted number is in no snapshot it was minted from, and its sequence is above every counted one |
| TaskNumbers.PrefixNumberNotCounted | backend/src/routes/tasks.js:35-38 | PROV/MIL/CIV numbers are never counted as confirmed sequences |
| TaskNumbers.NumberFor | backend/src/routes/tasks.js:77-92 | a number exists exactly for the four statuses and the inherited property names; any other status is the thrown error |
| TaskNumbers.GetTaskNumber | backend/src/routes/tasks.js:77-92 | the method returns exactly `NumberFor` of the status: the max-scan number for confirmed, the `prefixMap` number when the lookup is truthy, none otherwise |
| TaskNumbers.NumberUsesClock | backend/src/routes/tasks.js:59-65 | every number has three parts, and its month and year are the clock's |
| TaskNumbers.PrefixNumbers | backend/src/routes/tasks.js:78-88 | provisional, military and civil numbers start with PROV, MIL and CIV |
| TaskNumbers.FirstConfirmedOfMonth | backend/src/routes/tasks.js:47-49 | with no counted number this month, confirmed gives `001/MON/YY` |
| AffectedDates.CommaTokens | backend/src/routes/tasks.js:187-190 | comma splitting, trimming and dropping blanks leaves only non-empty tokens |
| AffectedDates.CommaTokensAreListTokens | backend/src/routes/tasks.js:187-190 | every token is trimmed, non-empty and free of commas |
| AffectedDates.CommaTokensOfJoin | backend/src/routes/tasks.js:187-190 | splitting a `", "`-joined list of such tokens gives the list back |
| AffectedDates.ParsedDatesFrom | backend/src/routes/tasks.js:198-211 | every normalised date comes from some candidate |
| AffectedDates.ParsedDatesKeep | backend/src/routes/tasks.js:198-211 | every candidate that parses to a non-empty date is kept |
| AffectedDates.CreateDates | backend/src/routes/tasks.js:173-216 | the dates to insert are the parsed candidates, or `[date_of_flight]` when none parses; never empty |
| AffectedDates.UpdateDatesText | backend/src/routes/tasks.js:373-411 | an absent value leaves the column alone, and `''` is stored as `"[]"` |
| AffectedDates.UpdateDatesReadBack | backend/src/routes/tasks.js:373-411 | the stored text parses back to the normalised list (`[]` for `''`) |
| JsonList.StringifyRoundTrip | backend/src/routes/tasks.js:178-184 | parsing a stringified list of plain strings gives the list back |
| TaskStore.StatusCode | backend/src/routes/tasks.js:167-456 | 201 exactly for a creation; 200 exactly for confirm, update and delete |
| TaskStore.GroupFor | backend/src/routes/tasks.js:218 | a group id exists exactly when there is more than one date |
| TaskStore.RowsFor | backend/src/routes/tasks.js:226-266 | one row per date, in order, each with the shared number, date list and group id |
| TaskStore.Inserted | backend/src/routes/tasks.js:226-248 | the new ids hold the new rows in order, and every other row is unchanged |
| TaskStore.InsertedGroupsAgree | backend/src/routes/tasks.js:218-248 | inserting rows that share number, status and a fresh group id keeps every group on one number and status |
| TaskStore.CreatedGroupsAgree | backend/src/routes/tasks.js:218-248 | the rows of one creation keep the groups in agreement |
| TaskStore.ConfirmationKeepsGroups | backend/src/routes/tasks.js:304-317 | the target and its group become confirmed with the new number, every other row is unchanged, and groups stay in agreement |
| TaskStore.EffectivePatch | backend/src/routes/tasks.js:355-364 | a status change to another non-confirmed status replaces the number by the fresh prefix number; a status whose `prefixMap` lookup is falsy is the thrown error; otherwise the request is unchanged |
| TaskStore.MergeDetails | backend/src/routes/tasks.js:414 | each descriptive column the request names is written with its value, each one it leaves out keeps the stored value |
| TaskStore.Merge | backend/src/routes/tasks.js:414 | every column the request names (status, number, flight date, aircraft type, occurrence status, affected dates, each descriptive column) is written with its value, every column it leaves out keeps its value, and the group id is never touched |
| TaskStore.UpdateRules | backend/src/routes/tasks.js:355-411 | renumbering on a non-confirmed status change, no renumbering to confirmed, `''` dates stored as `"[]"`, absent dates kept |
| TaskStore.UpdateSplitsGroup | backend/src/routes/tasks.js:355-414 | a status change on one group member leaves its sibling on the old number and status |
| TaskStore.DeletionKeepsGroups | backend/src/routes/tasks.js:449-456 | deletion keeps groups in agreement and every other row unchanged |
| TaskStore.TaskTable.constructor | backend/src/routes/tasks.js:152 | an empty table whose first id is 1 |
| TaskStore.TaskTable.InsertCreated | backend/src/routes/tasks.js:220-266 | the rows of an accepted request, one per date with the shared number, stored list and group id, are inserted under consecutive fresh ids, and the groups stay in agreement |
| TaskStore.TaskTable.InsertAll | backend/src/routes/tasks.js:226-248 | the loop inserts the rows under consecutive fresh ids and returns those ids |
| TaskStore.TaskTable.Create | backend/src/routes/tasks.js:152-279 | 400 and no change without status, date or aircraft type; 500 for a status that is neither one of the four nor an inherited property name; otherwise, and exactly then, 201 with one row per date with the shared number, and the groups stay in agreement |
| TaskStore.TaskTable.WriteConfirmation | backend/src/routes/tasks.js:304-317 | the two UPDATE statements give the confirmation of the target and its group |
| TaskStore.TaskTable.Confirm | backend/src/routes/tasks.js:283-338 | 404 for a missing id; 400 and no change unless provisional or military; otherwise the group is confirmed with a number not among the confirmed numbers |
| TaskStore.TaskTable.Update | backend/src/routes/tasks.js:341-433 | 404 exactly for a missing id; otherwise only that row changes, to the merge of the effective request |
| TaskStore.TaskTable.Delete | backend/src/routes/tasks.js:436-456 | 404 for a missing id; otherwise only that row is removed, and groups stay in agreement |
| Training.FormatTimeForDB | backend/src/routes/training.js:6-22 | null for a missing, blank or ill-formed time or one out of range; a well-formed time in range is always stored, as `HH:MM:00` with the same hours and minutes |
| Training.StoredTimeParts | backend/src/routes/training.js:21 | the padded text is two digits, a colon, two digits and `:00`, and reads back as the hours and minutes |
| Training.FormatRoundTrip | backend/src/routes/training.js:15-21 | formatting the first five characters of a stored time gives the same stored time |
| Training.StoredTimeReformats | backend/src/routes/training.js:10-21 | every stored time's first five characters format back to it |
| Training.FlightRow | backend/src/routes/training.js:71-80 | stored times are `HH:MM:00` or null; empty optional fields are null; date, call sign and type are kept |
| Training.FormatRequest | backend/src/routes/training.js:60-68 | the request is refused exactly when a non-empty time does not format |
| Training.TrainingTable.Post | backend/src/routes/training.js:56-99 | 400 and no change for a bad time; otherwise the row is inserted under a fresh id |
| Training.TrainingTable.Put | backend/src/routes/training.js:102-138 | 400 for a bad time, 404 for a missing id, otherwise only that row is replaced |
| Training.TrainingTable.Delete | backend/src/routes/training.js:43-49 | 404 for a missing id; otherwise only that row is removed |
| TrainingForms.ValidateTime | frontend/src/components/TrainingFlights/AddTrgModal.js:44-47 | a valid time has at most five characters, all digits and colons, so the cleaning can produce it |
| TrainingForms.ValidTimeIffStorable | frontend/src/components/TrainingFlights/AddTrgModal.js:44-47 | a non-empty time passes the form's check exactly when the back end can store it |
| TrainingForms.KeepTimeChars | frontend/src/components/TrainingFlights/AddTrgModal.js:79 | the cleaned text has only digits and colons, and keeps every such character of the input |
| TrainingForms.KeepTimeCharsPiecewise | frontend/src/components/TrainingFlights/AddTrgModal.js:79 | the cleaning goes character by character: a digit or colon stays in place, anything else goes, and cleaning a concatenation cleans each piece, so order and multiplicity are kept |
| TrainingForms.AddTimeCleaned | frontend/src/components/TrainingFlights/AddTrgModal.js:79-95 | at most five time characters; with at least two characters and hours over 23 the result is exactly `23` followed by the cut's third character on, otherwise exactly the cut, so `2500` becomes `2300` |
| TrainingForms.AddCappedHours | frontend/src/components/TrainingFlights/AddTrgModal.js:89-95 | capped two-digit hours before a colon read back as `23`, the minutes untouched |
| TrainingForms.AddTimeAutoColon | frontend/src/components/TrainingFlights/AddTrgModal.js:82-84 | two digits get a colon appended (hours over 23 capped to `23:`) |
| TrainingForms.AddKeepsValidTime | frontend/src/components/TrainingFlights/AddTrgModal.js:76-95 | a valid time is kept as typed |
| TrainingForms.EditTimeCleaned | frontend/src/components/TrainingFlights/EditTrgModal.js:34-46 | at most five time characters, and with a colon the hours are at most 23 |
| TrainingForms.EditTimeCapRule | frontend/src/components/TrainingFlights/EditTrgModal.js:42-46 | with a colon and hours over 23 the text becomes `23:` and the part after the first colon, or `23:00` when that part is empty; otherwise the cut text is kept |
| TrainingForms.EditTimeAutoColon | frontend/src/components/TrainingFlights/EditTrgModal.js:36-38 | more than two digits without a colon get one after the second |
| TrainingForms.EditKeepsValidTime | frontend/src/components/TrainingFlights/EditTrgModal.js:32-46 | a valid time is kept as typed |
| TrainingForms.LoadTime | frontend/src/components/TrainingFlights/EditTrgModal.js:21-22 | a loaded time is the first five characters of the stored one (all of a shorter one), and `''` when there is none |
| TrainingForms.LoadDate | frontend/src/components/TrainingFlights/EditTrgModal.js:20 | a loaded date is the stored text up to its first `T` (all of it without one), and `''` when there is none |
| TrainingForms.LoadedStoredTime | frontend/src/components/TrainingFlights/EditTrgModal.js:16-30 | a stored time loads as a valid time that the back end stores back unchanged |
| TrainingForms.AddTrainingForm.constructor | frontend/src/components/TrainingFlights/AddTrgModal.js:10-19 | today's date and every other field empty |
| TrainingForms.AddTrainingForm.HandleChange | frontend/src/components/TrainingFlights/AddTrgModal.js:76-100 | time fields get the cleaned value, other fields the value as typed, nothing else changes |
| TrainingForms.AddTrainingForm.Submit | frontend/src/components/TrainingFlights/AddTrgModal.js:49-74 | sent exactly when both times pass; empty times are sent as null; a sent time is never one the back end refuses |
| TrainingForms.EditTrainingForm.constructor | frontend/src/components/TrainingFlights/EditTrgModal.js:4-13 | every field empty |
| TrainingForms.EditTrainingForm.Load | frontend/src/components/TrainingFlights/EditTrgModal.js:16-25 | the flight with its date cut before `T` and its times cut to five characters |
| TrainingForms.EditTrainingForm.HandleChange | frontend/src/components/TrainingFlights/EditTrgModal.js:32-52 | time fields get the cleaned value, other fields the value as typed |
| TrainingForms.EditTrainingForm.Submit | frontend/src/components/TrainingFlights/EditTrgModal.js:54-78 | sent exactly when both times pass; empty times are sent as `''`; a sent time is never refused |
| TrainingRow.FormatTimeDisplay | frontend/src/components/TrainingFlights/TrainingRow.js:3-13 | empty for a falsy time, the first five characters of a time starting `dd:dd`, otherwise unchanged |
| TrainingRow.FormatTimeDisplayIdempotent | frontend/src/components/TrainingFlights/TrainingRow.js:3-13 | displaying a displayed time changes nothing |
| TrainingRow.StoredTimeShown | frontend/src/components/TrainingFlights/TrainingRow.js:7-10 | a stored time shows as `HH:MM`, which the back end stores back unchanged |
| MovementsRow.FormatTime | frontend/src/components/MovementsTable/MovementsRow.js:20-28 | always five characters: the placeholder or the time itself |
| MovementsRow.FormatTimeShows | frontend/src/components/MovementsTable/MovementsRow.js:23-27 | a time is shown as itself exactly when it is `dd:dd` (or the placeholder); `HH:MM:SS` shows the placeholder |
| EmailLimiter.RecordKey | backend/src/services/emailService.js:167 | the key starts with the address |
| EmailLimiter.FreshRules | backend/src/services/emailService.js:149-153 | pruning keeps exactly the entries at most fifteen minutes old, unchanged, and is idempotent |
| EmailLimiter.LongerAddressCounted | backend/src/services/emailService.js:158 | the keys of a longer address that shares the prefix are counted for the shorter one |
| EmailLimiter.RecordCount | backend/src/services/emailService.js:166-169 | recording adds one counted key, or none when the key already exists |
| EmailLimiter.Limiter.constructor | backend/src/services/emailService.js:144 | no e-mails recorded |
| EmailLimiter.Limiter.IsRateLimited | backend/src/services/emailService.js:146-164 | prunes to the window and reports limited exactly when at least 100 remaining keys start with the address |
| EmailLimiter.Limiter.Prune | backend/src/services/emailService.js:148-153 | the deleting loop leaves exactly the fresh entries |
| EmailLimiter.Limiter.CountFrom | backend/src/services/emailService.js:156-161 | the counting loop returns the number of keys starting with the address |
| EmailLimiter.Limiter.RecordEmail | backend/src/services/emailService.js:166-169 | sets exactly one key `ip:now` |
| EmailLimiter.Limiter.Middleware | backend/src/services/emailService.js:171-184 | refuses exactly when limited and then records nothing; otherwise records once, leaving at most 100 keys for the address |
| Pagination.PageCount | frontend/src/components/TaskTable/Pagination.js:7 | the page count is the ceiling of total over page size, and 0 exactly for no items |
| Pagination.PageNumbers | frontend/src/components/TaskTable/Pagination.js:4-9 | the loop builds exactly `1..pageCount` |
| Pagination.NavigationInRange | frontend/src/components/TaskTable/Pagination.js:12-23 | previous and next move by one only when there is a page to go to, and stay in range |
| Pagination.ShowingRange | frontend/src/components/TaskTable/Pagination.js:31-34 | the shown range is non-empty, within the total and at most one page long |
| Pagination.ItemsOnPager | frontend/src/components/TaskTable/Pagination.js:55-80 | a button exactly for first, last and pages within two; ellipses three pages away; nothing otherwise |
| TaskTableView.SearchKey | frontend/src/components/TaskTable/TaskTable.js:69-74 | null gives `''`; the key has no hyphen or whitespace |
| TaskTableView.SearchKeyCons | frontend/src/components/TaskTable/TaskTable.js:69-74 | the key is built one character at a time: a hyphen or whitespace is dropped, any other character is kept in place, lower-cased |
| TaskTableView.SearchKeyIdempotent | frontend/src/components/TaskTable/TaskTable.js:69-74 | normalising twice is normalising once |
| TaskTableView.Keep | frontend/src/components/TaskTable/TaskTable.js:85-95 | a filter keeps every occurrence of a matching item and nothing else |
| TaskTableView.InsertKeepsOrder | frontend/src/components/TaskTable/TaskTable.js:96-99 | inserting into a newest-first list keeps it newest first |
| TaskTableView.SortByDate | frontend/src/components/TaskTable/TaskTable.js:96-99 | the sort is a newest-first permutation |
| TaskTableView.SearchTasksResult | frontend/src/components/TaskTable/TaskTable.js:82-99 | the search result is a permutation of the tasks matching on one of the seven fields, newest first |
| TaskTableView.BlankTermKeepsAll | frontend/src/components/TaskTable/TaskTable.js:82-95 | a blank term keeps every task |
| TaskTableView.FilterByDate | frontend/src/components/TaskTable/TaskTable.js:153-159 | keeps exactly the tasks whose date before `T` is the chosen date |
| TaskTableView.FilterComparesDatePart | frontend/src/components/TaskTable/TaskTable.js:155-156 | the filter compares the chosen date with the flight date cut before its first `T`, which is the whole text when there is no `T` |
| TaskTableView.ConfirmLocally | frontend/src/components/TaskTable/TaskTable.js:274-282 | same length and ids; the target and its group become confirmed with the returned number (or keep theirs); others unchanged |
| TaskTableView.ConfirmMirrorsServer | frontend/src/components/TaskTable/TaskTable.js:274-282 | the local list after a confirmation shows exactly the server's confirmed table |
| TaskTableView.AddFormDates | frontend/src/components/TaskTable/TaskTable.js:332-343 | only `YYYY-MM-DD` tokens; empty input gives none |
| TaskTableView.IsoTokensKeepDates | frontend/src/components/TaskTable/TaskTable.js:336-342 | a list of dates passes the filter unchanged |
| TaskTableView.AddFormDatesOfJoin | frontend/src/components/TaskTable/TaskTable.js:332-343 | dates joined with `", "` parse back to the same dates |
| TaskTableView.PageSliceShowing | frontend/src/components/TaskTable/TaskTable.js:395-397 | the visible slice is exactly the items of the pager's "showing" range |
| TaskTableView.ItemOnItsPage | frontend/src/components/TaskTable/TaskTable.js:395-397 | every item is on page i/10+1 at position i mod 10 |
| Helpers.NormalizeText | frontend/src/utils/helpers.js:1-8 | null gives `''`; the result has only `[a-z0-9]` |
| Helpers.NormalizeCons | frontend/src/utils/helpers.js:3-7 | for ASCII text, each character contributes its lower-case form when it is a letter or digit and nothing otherwise, in order |
| Helpers.NormalizeAppend | frontend/src/utils/helpers.js:3-7 | normalising works character by character, so it distributes over concatenation |
| Helpers.NormalizeIdempotent | frontend/src/utils/helpers.js:3-7 | normalising twice is normalising once |
| Helpers.KeysNormaliseToThemselves | frontend/src/utils/helpers.js:3-7 | a text of `[a-z0-9]` is its own key |
| TaskRow.FormatDate | frontend/src/components/TaskTable/TaskRow.js:4-7 | no `T` in the result; a prefix of the input; the input itself when it has no `T` |
| TaskRow.FormatDateIsDatePart | frontend/src/components/TaskTable/TaskRow.js:4-7 | the part before the first `T`, and idempotent |
| TaskRow.DisplayStatusCapitalises | frontend/src/components/TaskTable/TaskRow.js:9-22 | the four statuses are shown capitalised, anything else as is |
| TaskRow.OccurrenceStyleRules | frontend/src/components/TaskTable/TaskRow.js:35-46 | the style ignores case and is non-empty exactly for pending, undertaken and cancelled |
| TaskRow.DefaultOccurrenceStyled | frontend/src/components/TaskTable/TaskRow.js:37-38 | the back end's default occurrence status gets the pending style |
| TaskRow.ConfirmButtonMatchesServer | frontend/src/components/TaskTable/TaskRow.js:82-89 | the button is shown exactly when the server would confirm |
| EditTaskModal.ValidDateInputRules | frontend/src/components/TaskTable/EditTaskModal.js:82-99 | empty passes, a non-string non-array fails, and text passes exactly when every token is `YYYY-MM-DD` |
| EditTaskModal.ValidIffAddFormKeepsAll | frontend/src/components/TaskTable/EditTaskModal.js:82-99 | text passes exactly when the add form's date filter keeps all of its tokens |
| EditTaskModal.RemoveBrackets | frontend/src/components/TaskTable/EditTaskModal.js:49 | no brackets remain, and every other character does |
| EditTaskModal.RemoveBracketsPiecewise | frontend/src/components/TaskTable/EditTaskModal.js:49 | brackets are removed one by one: every other character stays in its place, and a concatenation loses the brackets of each piece, so order and multiplicity are kept |
| EditTaskModal.AffectedDatesStringRules | frontend/src/components/TaskTable/EditTaskModal.js:41-57 | JSON list text is joined, unparseable bracket text loses its brackets, plain text is kept, an array is joined, falsy gives `''` |
| EditTaskModal.LoadAffectedDates | frontend/src/components/TaskTable/EditTaskModal.js:11-24 | a falsy value is left alone; the effect throws exactly for a truthy value that is neither text nor array; a rewrite writes exactly the text the field shows for the value |
| EditTaskModal.SaveAffectedDatesRules | frontend/src/components/TaskTable/EditTaskModal.js:68-76 | blank becomes `"[]"`, bracket text is kept, other text becomes the JSON list of its tokens; an array throws |
| EditTaskModal.SaveOfJoin | frontend/src/components/TaskTable/EditTaskModal.js:71-76 | saving a `", "`-joined list stores the list's JSON |
| EditTaskModal.LoadShowsStoredList | frontend/src/components/TaskTable/EditTaskModal.js:11-57 | a stored list loads and displays as its `", "`-joined text |
| EditTaskModal.JoinedListStays | frontend/src/components/TaskTable/EditTaskModal.js:11-57 | joined text is displayed as is and not rewritten again |
| EditTaskModal.EditWithoutChangeKeepsList | frontend/src/components/TaskTable/EditTaskModal.js:11-76 | loading a stored list and saving it unedited stores the same list |
| AddTaskModal.PrefixText | frontend/src/components/TaskTable/AddTaskModal.js:17-36 | PROV, MIL, CIV for the three statuses, never a `/` |
| AddTaskModal.Apply | frontend/src/components/TaskTable/TaskTable.js:475 | applying writes adds exactly their keys |
| AddTaskModal.ApplyStale | frontend/src/components/TaskTable/TaskTable.js:475 | as written, the writes of one handler leave the draft as the last write alone would |
| AddTaskModal.StatusChangeRules | frontend/src/components/TaskTable/AddTaskModal.js:16-45 | confirmed sets only the status when accepted and nothing when declined; otherwise status, and the prefix number when a date is set |
| AddTaskModal.DateChangeRules | frontend/src/components/TaskTable/AddTaskModal.js:47-68 | a new date while not confirmed also regenerates the number with the status, or provisional; otherwise only the date |
| AddTaskModal.StaleStatusChangeLosesStatus | frontend/src/components/TaskTable/AddTaskModal.js:16-68 | as written, a draft set to confirmed, then given a date, then set to military keeps the confirmed status with a MIL number; applying every write gives military |
| AddTaskModal.StaleDateChangeHarmless | frontend/src/components/TaskTable/AddTaskModal.js:62-78 | as written, the lost date write does not change what is submitted straight after the date change |
| AddTaskModal.StaleDateThenStatus | frontend/src/components/TaskTable/AddTaskModal.js:16-68 | as written, a provisional draft given a date and then set to military keeps the PROV number and loses the date; applying every write gives the MIL number and the date |
| AddTaskModal.AddTaskForm.constructor | frontend/src/components/TaskTable/AddTaskModal.js:3-12 | the parent's draft and its date |
| AddTaskModal.AddTaskForm.HandleStatusChange | frontend/src/components/TaskTable/AddTaskModal.js:16-45 | the draft gets the status writes in order; confirmed keeps the number; the chosen status is set unless declined |
| AddTaskModal.AddTaskForm.HandleDateChange | frontend/src/components/TaskTable/AddTaskModal.js:47-68 | the form's date and the draft's date are set; the number is regenerated exactly when not confirmed and the date is non-empty |
| AddTaskModal.AddTaskForm.Submit | frontend/src/components/TaskTable/AddTaskModal.js:71-78 | the draft with the form's date, every other field unchanged |
| Reports.ValidateRules | backend/src/routes/reports.js:19-54 | invalid module first, then missing dates, then start after end; otherwise the module's table, with the duration column exactly for training |
| Reports.SameDayAccepted | backend/src/routes/reports.js:27-29 | equal start and end dates are accepted |
| Reports.TablesDistinct | backend/src/routes/reports.js:5-31 | the three modules read three different tables |
| Movements.PostRow | backend/src/routes/movements.js:86-98 | the four required fields as given; each optional field as given when non-empty and null otherwise; the occurrence status as given when non-empty, `In Progress` otherwise |
| Movements.PutRow | backend/src/routes/movements.js:143-147 | empty times become null and set times are kept; every other field the request carries is written as given, and every field it leaves out keeps its stored value |
| Movements.PutKeepsRequired | backend/src/routes/movements.js:136-147 | an accepted update leaves every required field set |
| Movements.MovementTable.constructor | backend/src/routes/movements.js:48 | an empty table whose first id is 1 |
| Movements.MovementTable.Post | backend/src/routes/movements.js:48-110 | 400 and no change without a required field; otherwise the row is inserted under a fresh id |
| Movements.MovementTable.Put | backend/src/routes/movements.js:131-154 | 400 and no change without a required field; otherwise 200, and only the named row changes |
| Movements.MovementTable.Delete | backend/src/routes/movements.js:113-120 | 404 for a missing id; otherwise only that row is removed |

## Left out

- Sending e-mail: the notification builder, nodemailer and the delayed `sendNotification` calls. These are I/O.
- SQL, the connection pool and Express routing. Tables are maps, and replies are datatypes.
- The GET endpoints: they only read.
- The race between concurrent confirmations. Each handler is modelled as one atomic step.
- The date comparisons in the search sort and in the report validation. The search sorts by an injected key function, so invalid dates (NaN in JavaScript) are not modelled. The reports take an injected parser.
- `new Date(...)` / `toISOString` in the normalisation of affected dates. This is an injected `parseDate`.
- `Date.now()`. The clock month and year, the group stamp and the limiter's clock are parameters.
- `toLocaleString`: month tokens assume English abbreviations.
- TaskTableView.SearchKey: lower-cases only the ASCII letters `A`–`Z`. JavaScript's `toLowerCase` also lower-cases other letters (the Kelvin sign U+212A becomes `k`, `É` becomes `é`), and can lengthen a string; the key of such text is not modelled.
- TaskRow.OccurrenceStyleRules: the case folding is ASCII-only as in the search key, so an occurrence status spelled with a non-ASCII letter that `toLowerCase` folds to `pending`, `undertaken` or `cancelled` gets no style in the model.
- The date a task row shows: the row renders `date_of_flight` with the `formatDate` prop the table body passes (frontend/src/components/TaskTable/TaskTableBody.js:12-16, `toLocaleDateString('en-GB')`), which shadows the helper of the same name in TaskRow.js. Locale date formatting is not modelled; TaskRow.FormatDate models the shadowed helper only.
- The task router runs the e-mail limiter's middleware before every handler (backend/src/routes/tasks.js:7). A task request may therefore be answered 429 with nothing changed, and every accepted one records a key. EmailLimiter.Limiter.Middleware models that step on its own; the task handlers are modelled as if it let the request through.
- Helpers.NormalizeText: is stated for ASCII input only. Unicode NFD decomposition and diacritic removal are not modelled.
- `JSON.parse` and `JSON.stringify` cover arrays of strings without escapes. A list that holds other values, or a string with escapes, counts as unparseable.
- EditTaskModal.AffectedDatesString: it treats stored JSON that is not an array of plain strings as unparseable, so it shows the bracket-stripped text where JavaScript would join the values.
- A call that throws a TypeError (such as `trim` or `startsWith` on a non-string) is modelled as `None` or `Throws`. What React does with the exception is not modelled.
- TaskStore.TaskTable.Delete: the second 404, for a delete that affects no row after the row was read, cannot happen without concurrency and is not modelled.
- TaskStore.Merge: an update request's `id` and `group_id` keys, and keys that are not columns, are not modelled. A request is a fixed record of optional columns, so explicit `null`s are not distinguished from absent keys.
- Training.TrainingTable.Put: the `id` key of the request body is ignored, as is the SELECT after the update.
- Movements.MovementTable.Put: an id with no row answers 200 and changes nothing. An explicit JSON `null` in a request field is not distinguished from an absent field. `SET ?` writes every key of the body: an `id` key would rewrite the row's primary key, and a key that is no column makes the query fail with 500; the request is a fixed record of the columns, so neither is modelled.
- `parseInt` limits: the sequence numbers and hours are unbounded naturals.
- The limiter's `skip`, which always answers false. Its branch is left out of the middleware.
- `middleware/emailLimiter.js`, a wrapper over express-rate-limit.
- The React effects that choose between search and date filter, page resets and rendering. The handlers' pure parts are modelled.

## Findings

| source | as written | input that shows it | evidently intended | confidence | as-written member | corrected member |
|---|---|---|---|---|---|---|
| frontend/src/components/TaskTable/AddTaskModal.js:39-40 with frontend/src/components/TaskTable/TaskTable.js:475 | each `onInputChange` spreads the same stale `newTask`, so of the two writes in one handler only the last survives | starting from the empty draft, choose confirmed (accepted), then a date (the status is confirmed, so one write), then military: the draft keeps `task_status: confirmed` with a `MIL/MON/YY` number, and the submitted task is a confirmed one | the status and the number are both written | not executed | AddTaskModal.StaleStatusChangeLosesStatus | AddTaskModal.AddTaskForm.HandleStatusChange |

Every group stays on one number through a creation, a confirmation and a
deletion: TaskStore.CreatedGroupsAgree, TaskStore.ConfirmationKeepsGroups and
TaskStore.DeletionKeepsGroups. An update renumbers only the row it names, so
a status change on one member of a group leaves its siblings on the old
number; TaskStore.UpdateSplitsGroup exhibits the split.

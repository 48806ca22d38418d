/** The task list screen (frontend/src/components/TaskTable/TaskTable.js): the
    search key `normalizeText`, `searchTasks` and its newest-first sort,
    `filterTasksByDate`, the local update after a confirmation, the date list
    sent by the add form, and the page slice. The rows the screen holds are
    the server's rows with their ids. Parsing a flight date for the sort
    (`new Date(d)`) is a parameter `dateKey` giving its timestamp. */
module TaskTableView {
  import opened Strings
  import opened AffectedDates
  import Pagination
  import TaskStore

  /** A row as the screen holds it. */
  datatype Listed = Listed(id: int, task: TaskStore.Task)

  /** `tasksPerPage`. */
  const TasksPerPage: nat := 10

  // ---------------------------------------------------------------------
  // Search

  predicate IsDropped(c: char) { c == '-' || IsSpace(c) }

  predicate IsKept(c: char) { !IsDropped(c) }

  /** This screen's own `normalizeText`: lower case, without hyphens or
      whitespace; `None` is `null` or `undefined`. */
  function SearchKey(text: Option<string>): (r: string)
    ensures text.None? ==> r == ""
    ensures forall i :: 0 <= i < |r| ==> !IsDropped(r[i])
  {
    if text.None? then "" else Filter(ToLower(text.value), IsKept)
  }

  /** A search key is its own key. */
  lemma SearchKeyIdempotent(text: Option<string>)
    ensures SearchKey(Some(SearchKey(text))) == SearchKey(text)
  {
    var r := SearchKey(text);
    assert forall i :: 0 <= i < |r| ==> LowerChar(r[i]) == r[i] by {
      forall i | 0 <= i < |r|
        ensures LowerChar(r[i]) == r[i]
      {
        if text.Some? {
          assert r[i] in ToLower(text.value);
          var j :| 0 <= j < |text.value| && ToLower(text.value)[j] == r[i];
          assert r[i] == LowerChar(text.value[j]);
        }
      }
    }
    assert ToLower(r) == r;
    FilterKeepsAll(r, IsKept);
  }

  /** The key is built one character at a time: a hyphen or whitespace is
      dropped, any other character is kept, lower-cased, in its place. */
  lemma SearchKeyCons(c: char, s: string)
    ensures SearchKey(Some([c] + s)) == (if IsDropped(c) then "" else [LowerChar(c)]) + SearchKey(Some(s))
  {
    assert ([c] + s)[1..] == s;
    var lowered := ToLower([c] + s);
    assert lowered == [LowerChar(c)] + ToLower(s);
    assert lowered[1..] == ToLower(s);
    assert IsDropped(LowerChar(c)) == IsDropped(c);
  }

  /** One field's test: its key contains the term's key. */
  predicate Hit(field: Option<string>, key: string) {
    Includes(SearchKey(field), key)
  }

  /** The seven fields `searchTasks` looks in. */
  predicate Matches(term: string, x: Listed) {
    var key := SearchKey(Some(term));
    Hit(Some(x.task.number), key) || Hit(Some(x.task.aircraftType), key) || Hit(x.task.details.route, key)
    || Hit(x.task.details.purpose, key) || Hit(x.task.details.crew, key) || Hit(x.task.details.authority, key)
    || Hit(Some(x.task.status), key)
  }

  /** `xs.filter(p)`: the elements that satisfy `p`, each as often as in `xs`. */
  function Keep<T(==,!new)>(xs: seq<T>, p: T -> bool): (r: seq<T>)
    ensures |r| <= |xs|
    ensures forall x :: x in r <==> x in xs && p(x)
    ensures forall x :: multiset(r)[x] == if p(x) then multiset(xs)[x] else 0
  {
    if xs == [] then []
    else
      assert xs == [xs[0]] + xs[1..];
      (if p(xs[0]) then [xs[0]] else []) + Keep(xs[1..], p)
  }

  function DateKey(x: Listed, dateKey: string -> int): int {
    dateKey(x.task.dateOfFlight)
  }

  /** Newest flight first. */
  predicate NewestFirst(xs: seq<Listed>, dateKey: string -> int) {
    forall i, j :: 0 <= i < j < |xs| ==> DateKey(xs[i], dateKey) >= DateKey(xs[j], dateKey)
  }

  /** Places `x` before the first row whose flight is no newer. */
  function InsertByDate(x: Listed, xs: seq<Listed>, dateKey: string -> int): (r: seq<Listed>)
    ensures multiset(r) == multiset(xs) + multiset{x}
  {
    if xs == [] then [x]
    else if DateKey(x, dateKey) >= DateKey(xs[0], dateKey) then [x] + xs
    else
      assert xs == [xs[0]] + xs[1..];
      [xs[0]] + InsertByDate(x, xs[1..], dateKey)
  }

  /** Every row of `xs` flies no later than `key`. */
  predicate NoNewerThan(xs: seq<Listed>, key: int, dateKey: string -> int) {
    forall j :: 0 <= j < |xs| ==> DateKey(xs[j], dateKey) <= key
  }

  lemma {:induction false} InsertNoNewer(x: Listed, xs: seq<Listed>, key: int, dateKey: string -> int)
    requires NoNewerThan(xs, key, dateKey) && DateKey(x, dateKey) <= key
    ensures NoNewerThan(InsertByDate(x, xs, dateKey), key, dateKey)
  {
    if xs != [] && DateKey(x, dateKey) < DateKey(xs[0], dateKey) {
      InsertNoNewer(x, xs[1..], key, dateKey);
    }
  }

  /** Inserting into a newest-first list keeps it newest first. */
  lemma {:induction false} InsertKeepsOrder(x: Listed, xs: seq<Listed>, dateKey: string -> int)
    requires NewestFirst(xs, dateKey)
    ensures NewestFirst(InsertByDate(x, xs, dateKey), dateKey)
  {
    if xs != [] && DateKey(x, dateKey) < DateKey(xs[0], dateKey) {
      var head := DateKey(xs[0], dateKey);
      InsertKeepsOrder(x, xs[1..], dateKey);
      assert NoNewerThan(xs[1..], head, dateKey);
      InsertNoNewer(x, xs[1..], head, dateKey);
    }
  }

  /** `.sort((a, b) => new Date(b.date_of_flight) - new Date(a.date_of_flight))`. */
  function SortByDate(xs: seq<Listed>, dateKey: string -> int): (r: seq<Listed>)
    ensures NewestFirst(r, dateKey)
    ensures multiset(r) == multiset(xs)
  {
    if xs == [] then []
    else
      assert xs == [xs[0]] + xs[1..];
      var sorted := SortByDate(xs[1..], dateKey);
      InsertKeepsOrder(xs[0], sorted, dateKey);
      InsertByDate(xs[0], sorted, dateKey)
  }

  /** `searchTasks(term, tasks)`. */
  function SearchTasks(term: string, tasks: seq<Listed>, dateKey: string -> int): (r: seq<Listed>)
  {
    SortByDate(Keep(tasks, x => Matches(term, x)), dateKey)
  }

  /** The result holds every matching row as often as the list does and no
      other row, newest flight first. */
  lemma SearchTasksResult(term: string, tasks: seq<Listed>, dateKey: string -> int)
    ensures forall x :: multiset(SearchTasks(term, tasks, dateKey))[x]
                          == if Matches(term, x) then multiset(tasks)[x] else 0
    ensures NewestFirst(SearchTasks(term, tasks, dateKey), dateKey)
  {
    var kept := Keep(tasks, x => Matches(term, x));
    assert multiset(SearchTasks(term, tasks, dateKey)) == multiset(kept);
  }

  /** A term with no letters or digits left after normalising (the empty
      term, blanks, hyphens) keeps every row. */
  lemma BlankTermKeepsAll(term: string, tasks: seq<Listed>, dateKey: string -> int)
    requires SearchKey(Some(term)) == ""
    ensures multiset(SearchTasks(term, tasks, dateKey)) == multiset(tasks)
  {
    forall x | true
      ensures Matches(term, x)
    {
      assert StartsWith(SearchKey(Some(x.task.number)), "");
    }
    var kept := Keep(tasks, x => Matches(term, x));
    assert multiset(kept) == multiset(tasks);
  }

  // ---------------------------------------------------------------------
  // Date filter

  /** `task.date_of_flight.split('T')[0] === date`. */
  predicate OnDate(date: string, x: Listed) {
    Split(x.task.dateOfFlight, 'T')[0] == date
  }

  /** `filterTasksByDate(date, tasks)`. */
  function FilterByDate(date: string, tasks: seq<Listed>): (r: seq<Listed>)
    ensures forall x :: multiset(r)[x] == if OnDate(date, x) then multiset(tasks)[x] else 0
  {
    Keep(tasks, x => OnDate(date, x))
  }

  /** A row passes the filter for `date` exactly when the part of its flight
      date before the first `T` is `date`: the whole stored text when it has
      no `T`, and otherwise the text up to that `T`. */
  lemma FilterComparesDatePart(date: string, x: Listed)
    ensures OnDate(date, x) <==> BeforeFirst(x.task.dateOfFlight, 'T') == date
    ensures 'T' !in x.task.dateOfFlight ==> (OnDate(date, x) <==> x.task.dateOfFlight == date)
    ensures OnDate(date, x) ==> StartsWith(x.task.dateOfFlight, date)
  {
    BeforeFirstIsFirstPart(x.task.dateOfFlight, 'T');
  }

  // ---------------------------------------------------------------------
  // Local update after a confirmation

  /** Whether row `t` is updated with `target`: the target itself, or a row of
      its group. */
  predicate ConfirmsWith(t: Listed, target: Listed) {
    (Truthy(target.task.groupId) && t.task.groupId == target.task.groupId) || t.id == target.id
  }

  /** The `tasks.map` in `handleConfirmTask`: the target and its group become
      confirmed with the returned number (or keep theirs when none came back). */
  function ConfirmLocally(tasks: seq<Listed>, target: Listed, number: Option<string>): (r: seq<Listed>)
    ensures |r| == |tasks|
    ensures forall i :: 0 <= i < |tasks| ==> r[i].id == tasks[i].id
    ensures forall i :: 0 <= i < |tasks| && !ConfirmsWith(tasks[i], target) ==> r[i] == tasks[i]
    ensures forall i :: 0 <= i < |tasks| && ConfirmsWith(tasks[i], target) ==>
              r[i].task.status == "confirmed" && r[i].task.groupId == tasks[i].task.groupId
              && (Truthy(number) ==> r[i].task.number == number.value)
              && (!Truthy(number) ==> r[i].task.number == tasks[i].task.number)
  {
    seq(|tasks|, i requires 0 <= i < |tasks| =>
      var t := tasks[i];
      if ConfirmsWith(t, target) then
        Listed(t.id, t.task.(status := "confirmed", number := if Truthy(number) then number.value else t.task.number))
      else t)
  }

  /** The list is a faithful listing of the table: every row is the stored row
      of its id. */
  predicate Lists(tasks: seq<Listed>, rows: map<int, TaskStore.Task>) {
    forall i :: 0 <= i < |tasks| ==> tasks[i].id in rows && rows[tasks[i].id] == tasks[i].task
  }

  /** When the screen listed the table faithfully, its local update after a
      confirmation lists the table the server wrote. */
  lemma ConfirmMirrorsServer(tasks: seq<Listed>, rows: map<int, TaskStore.Task>, target: Listed, number: string)
    requires Lists(tasks, rows) && target.id in rows && rows[target.id] == target.task && number != ""
    ensures Lists(ConfirmLocally(tasks, target, Some(number)), TaskStore.Confirmation(rows, target.id, number))
  {
  }

  // ---------------------------------------------------------------------
  // Dates sent by the add form

  /** `^\d{4}-\d{2}-\d{2}$`: a calendar date in the form `YYYY-MM-DD` of
      ISO 8601:2004 section 4.1.2.2. */
  predicate IsIsoDate(d: string) {
    |d| == 10 && AllDigits(d[..4]) && d[4] == '-' && AllDigits(d[5..7]) && d[7] == '-' && AllDigits(d[8..])
  }

  /** The trimmed parts that are dates. */
  function IsoTokens(parts: seq<string>): (r: seq<string>)
    ensures |r| <= |parts|
    ensures forall k :: 0 <= k < |r| ==> IsIsoDate(r[k])
  {
    if parts == [] then []
    else
      var t := Trim(parts[0]);
      var rest := IsoTokens(parts[1..]);
      if IsIsoDate(t) then DatesCons(t, rest); [t] + rest
      else rest
  }

  lemma DatesCons(t: string, ds: seq<string>)
    requires IsIsoDate(t) && forall k :: 0 <= k < |ds| ==> IsIsoDate(ds[k])
    ensures forall k :: 0 <= k < |[t] + ds| ==> IsIsoDate(([t] + ds)[k])
  {
    assert forall k :: 1 <= k < |[t] + ds| ==> ([t] + ds)[k] == ds[k - 1];
  }

  /** The `affected_dates` array `handleAddTask` sends: the comma-separated
      tokens that are dates, trimmed, and none for an empty field. */
  function AddFormDates(text: string): (r: seq<string>)
    ensures forall k :: 0 <= k < |r| ==> IsIsoDate(r[k])
    ensures text == "" ==> r == []
  {
    if text == "" then [] else IsoTokens(Split(text, ','))
  }

  lemma IsoDateIsListToken(d: string)
    requires IsIsoDate(d)
    ensures IsListToken(d)
  {
    forall i | 0 <= i < |d|
      ensures d[i] != ','
    {
      if i < 4 {
        assert d[..4][i] == d[i];
      } else if 5 <= i < 7 {
        assert d[5..7][i - 5] == d[i];
      } else if 8 <= i {
        assert d[8..][i - 8] == d[i];
      }
    }
    assert d[..4][0] == d[0] && d[8..][1] == d[9];
    TrimNoSpace(d);
  }

  /** Keeping the date tokens is keeping the date tokens among the trimmed
      non-blank ones. */
  lemma {:induction false} IsoTokensOfTrimmed(parts: seq<string>)
    ensures IsoTokens(parts) == IsoTokens(TrimmedNonEmpty(parts))
  {
    if parts != [] {
      IsoTokensOfTrimmed(parts[1..]);
      var t := Trim(parts[0]);
      var rest := TrimmedNonEmpty(parts[1..]);
      assert IsoTokens(parts) == (if IsIsoDate(t) then [t] else []) + IsoTokens(parts[1..]);
      if t == [] {
        assert TrimmedNonEmpty(parts) == rest;
        assert IsoTokens(parts) == IsoTokens(parts[1..]);
      } else {
        assert TrimmedNonEmpty(parts) == [t] + rest;
        TrimNoSpace(t);
        var all := [t] + rest;
        assert all[0] == t && all[1..] == rest;
        assert IsoTokens(all) == (if IsIsoDate(t) then [t] else []) + IsoTokens(rest);
      }
    }
  }

  lemma {:induction false} IsoTokensKeepDates(ds: seq<string>)
    requires forall k :: 0 <= k < |ds| ==> IsIsoDate(ds[k])
    ensures IsoTokens(ds) == ds
  {
    if ds != [] {
      IsoTokensKeepDates(ds[1..]);
      IsoDateIsListToken(ds[0]);
    }
  }

  /** Dates written as `"d1, d2, ..."` reach the server as exactly that list. */
  lemma AddFormDatesOfJoin(ds: seq<string>)
    requires forall k :: 0 <= k < |ds| ==> IsIsoDate(ds[k])
    ensures AddFormDates(Join(ds, ", ")) == ds
  {
    forall k | 0 <= k < |ds|
      ensures IsListToken(ds[k])
    {
      IsoDateIsListToken(ds[k]);
    }
    CommaTokensOfJoin(ds);
    IsoTokensOfTrimmed(Split(Join(ds, ", "), ','));
    IsoTokensKeepDates(ds);
    if ds == [] {
      assert Join(ds, ", ") == "";
    }
  }

  // ---------------------------------------------------------------------
  // Page slice

  /** `filteredTasks.slice((page - 1) * perPage, page * perPage)`. */
  function PageSlice<T>(xs: seq<T>, page: int, perPage: nat): (r: seq<T>)
    requires page >= 1
  {
    var first := (page - 1) * perPage;
    var last := if page * perPage < |xs| then page * perPage else |xs|;
    if first >= |xs| then [] else xs[first..last]
  }

  /** On every page the pager offers, the slice holds exactly the items the
      "Showing x to y" text names. */
  lemma PageSliceShowing<T>(xs: seq<T>, page: int, perPage: nat)
    requires perPage > 0 && 1 <= page <= Pagination.PageCount(|xs|, perPage)
    ensures |PageSlice(xs, page, perPage)|
            == Pagination.ShowingTo(page, perPage, |xs|) - Pagination.ShowingFrom(page, perPage) + 1
    ensures forall k :: 0 <= k < |PageSlice(xs, page, perPage)| ==>
              PageSlice(xs, page, perPage)[k] == xs[Pagination.ShowingFrom(page, perPage) - 1 + k]
  {
    Pagination.ShowingRange(page, perPage, |xs|);
  }

  /** Every item is on page `i / perPage + 1`, at place `i % perPage`, and
      that page is one the pager offers. */
  lemma ItemOnItsPage<T>(xs: seq<T>, i: nat, perPage: nat)
    requires perPage > 0 && i < |xs|
    ensures 1 <= i / perPage + 1 <= Pagination.PageCount(|xs|, perPage)
    ensures i % perPage < |PageSlice(xs, i / perPage + 1, perPage)|
    ensures PageSlice(xs, i / perPage + 1, perPage)[i % perPage] == xs[i]
  {
    var q, r := i / perPage, i % perPage;
    assert i == q * perPage + r;
    var n := Pagination.PageCount(|xs|, perPage);
    assert q < n by {
      if q >= n {
        MulMonotone(n, q, perPage);
      }
    }
    assert (q + 1 - 1) * perPage == q * perPage;
    assert (q + 1) * perPage == q * perPage + perPage;
  }

  lemma MulMonotone(a: nat, b: nat, c: nat)
    requires a <= b
    ensures a * c <= b * c
  {
  }
}

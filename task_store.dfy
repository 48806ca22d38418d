/** The `aircraft_tasks` table and the four handlers that change it
    (backend/src/routes/tasks.js): create, confirm, update and delete. The
    table is a map from row id to row; ids come from an auto-increment
    counter. The clock, the millisecond stamp of a group id and date parsing
    are parameters. */
module TaskStore {
  import opened Strings
  import opened TaskNumbers
  import opened AffectedDates
  import JsonList

  /** The descriptive columns a task carries through unchanged. */
  datatype Details = Details(
    departure: Option<string>,
    route: Option<string>,
    purpose: Option<string>,
    crew: Option<string>,
    pax: Option<string>,
    authority: Option<string>)

  /** One row of `aircraft_tasks`. `affectedDates` is the stored JSON text. */
  datatype Task = Task(
    status: string,
    number: string,
    dateOfFlight: string,
    aircraftType: string,
    details: Details,
    occurrenceStatus: string,
    affectedDates: string,
    groupId: Option<string>)

  /** The body of a create request. */
  datatype NewTask = NewTask(
    status: Option<string>,
    dateOfFlight: Option<string>,
    aircraftType: Option<string>,
    details: Details,
    occurrenceStatus: Option<string>,
    affectedDates: JsValue)

  /** The body of an update request: each present field overwrites its column. */
  datatype Patch = Patch(
    status: Option<string>,
    number: Option<string>,
    dateOfFlight: Option<string>,
    aircraftType: Option<string>,
    details: Details,
    occurrenceStatus: Option<string>,
    affectedDates: JsValue)

  /** A patch's descriptive columns when it names none of them. */
  const NoDetails: Details := Details(None, None, None, None, None, None)

  /** The handlers' replies. */
  datatype Reply =
    | Created(ids: seq<int>)
    | Confirmed(number: string)
    | Updated
    | Deleted
    | BadRequest
    | NotFound
    | ServerError

  function StatusCode(r: Reply): (code: int)
    ensures r.Created? <==> code == 201
    ensures code == 200 <==> r.Confirmed? || r.Updated? || r.Deleted?
  {
    match r
    case Created(_) => 201
    case Confirmed(_) => 200
    case Updated => 200
    case Deleted => 200
    case BadRequest => 400
    case NotFound => 404
    case ServerError => 500
  }

  // ---------------------------------------------------------------------
  // Groups

  /** `t` is in the same group as `target`: `target` has a non-empty group id
      and `t` has the same one. */
  predicate InGroupOf(t: Task, target: Task) {
    Truthy(target.groupId) && t.groupId == target.groupId
  }

  /** Rows of one group agree on their number and their status. */
  predicate GroupsAgree(rows: map<int, Task>) {
    forall a, b :: a in rows && b in rows && InGroupOf(rows[a], rows[b])
      ==> rows[a].number == rows[b].number && rows[a].status == rows[b].status
  }

  /** No row uses group id `g`. */
  predicate GroupUnused(rows: map<int, Task>, g: string) {
    forall a :: a in rows ==> rows[a].groupId != Some(g)
  }

  // ---------------------------------------------------------------------
  // Create

  /** The occurrence status a new task gets when the request leaves it empty. */
  const DefaultOccurrence: string := "Pending"

  /** `GRP-<stamp>` when there are several dates, no group otherwise. */
  function GroupFor(dates: seq<string>, stamp: nat): (g: Option<string>)
    ensures g.Some? <==> |dates| > 1
    ensures g.Some? ==> Truthy(g)
  {
    if |dates| > 1 then Some("GRP-" + NatToString(stamp)) else None
  }

  /** The row inserted for one date of a create request. */
  function NewRow(req: NewTask, number: string, date: string, datesText: string, groupId: Option<string>): Task
    requires req.status.Some? && req.aircraftType.Some?
  {
    Task(req.status.value, number, date, req.aircraftType.value, req.details,
         OrDefault(req.occurrenceStatus, DefaultOccurrence), datesText, groupId)
  }

  /** The rows a create request inserts, one per date, in order. */
  function RowsFor(req: NewTask, number: string, dates: seq<string>, datesText: string, groupId: Option<string>): (r: seq<Task>)
    requires req.status.Some? && req.aircraftType.Some?
    ensures |r| == |dates|
    ensures forall k :: 0 <= k < |dates| ==> r[k] == NewRow(req, number, dates[k], datesText, groupId)
  {
    if dates == [] then []
    else RowsFor(req, number, dates[..|dates| - 1], datesText, groupId)
         + [NewRow(req, number, dates[|dates| - 1], datesText, groupId)]
  }

  /** `rows` with `added` inserted under consecutive ids from `first`. */
  function Inserted(rows: map<int, Task>, first: int, added: seq<Task>): (r: map<int, Task>)
    ensures forall id :: id in r <==> id in rows || first <= id < first + |added|
    ensures forall k :: 0 <= k < |added| ==> r[first + k] == added[k]
    ensures forall id :: id in rows && !(first <= id < first + |added|) ==> r[id] == rows[id]
  {
    if added == [] then rows
    else Inserted(rows, first, added[..|added| - 1])[first + |added| - 1 := added[|added| - 1]]
  }

  /** Inserting rows that all share one number, one status and a fresh group
      id keeps every group in agreement. */
  lemma InsertedGroupsAgree(rows: map<int, Task>, first: int, added: seq<Task>)
    requires GroupsAgree(rows)
    requires forall id :: id in rows ==> id < first
    requires forall k, j :: 0 <= k < |added| && 0 <= j < |added|
               ==> added[k].number == added[j].number && added[k].status == added[j].status
                   && added[k].groupId == added[j].groupId
    requires forall k :: 0 <= k < |added| && Truthy(added[k].groupId) ==> GroupUnused(rows, added[k].groupId.value)
    ensures GroupsAgree(Inserted(rows, first, added))
  {
    var r := Inserted(rows, first, added);
    forall a, b | a in r && b in r && InGroupOf(r[a], r[b])
      ensures r[a].number == r[b].number && r[a].status == r[b].status
    {
      var newA, newB := first <= a < first + |added|, first <= b < first + |added|;
      if newA {
        assert r[a] == added[a - first];
      }
      if newB {
        assert r[b] == added[b - first];
      }
    }
  }

  /** The rows of one create request, inserted above every id in use under a
      group id no row has yet, keep every group in agreement. */
  lemma CreatedGroupsAgree(rows: map<int, Task>, first: int, req: NewTask, number: string,
                           dates: seq<string>, datesText: string, groupId: Option<string>)
    requires req.status.Some? && req.aircraftType.Some?
    requires GroupsAgree(rows) && forall id :: id in rows ==> id < first
    requires forall g :: groupId == Some(g) ==> GroupUnused(rows, g)
    ensures GroupsAgree(Inserted(rows, first, RowsFor(req, number, dates, datesText, groupId)))
  {
    InsertedGroupsAgree(rows, first, RowsFor(req, number, dates, datesText, groupId));
  }

  // ---------------------------------------------------------------------
  // Confirm

  /** Only a provisional or military task can be confirmed. */
  predicate CanConfirm(status: string) {
    status == "provisional" || status == "military"
  }

  /** The table after confirming row `id` with `number`: that row and every
      row of its group become confirmed with the number. */
  function Confirmation(rows: map<int, Task>, id: int, number: string): (r: map<int, Task>)
    requires id in rows
    ensures r.Keys == rows.Keys
  {
    map a | a in rows :: if a == id || InGroupOf(rows[a], rows[id])
                         then rows[a].(status := "confirmed", number := number)
                         else rows[a]
  }

  /** Confirming keeps every group in agreement, and leaves every row outside
      the target's group exactly as it was. */
  lemma ConfirmationKeepsGroups(rows: map<int, Task>, id: int, number: string)
    requires id in rows && GroupsAgree(rows)
    ensures GroupsAgree(Confirmation(rows, id, number))
    ensures forall a :: a in rows && a != id && !InGroupOf(rows[a], rows[id])
              ==> Confirmation(rows, id, number)[a] == rows[a]
    ensures forall a :: a in rows && (a == id || InGroupOf(rows[a], rows[id]))
              ==> Confirmation(rows, id, number)[a].status == "confirmed"
                  && Confirmation(rows, id, number)[a].number == number
                  && Confirmation(rows, id, number)[a].groupId == rows[a].groupId
  {
    var r := Confirmation(rows, id, number);
    forall a, b | a in r && b in r && InGroupOf(r[a], r[b])
      ensures r[a].number == r[b].number && r[a].status == r[b].status
    {
    }
  }

  // ---------------------------------------------------------------------
  // Update

  /** The status of an update renumbers the task: it is set, differs from
      the current one, and is not `confirmed`. */
  predicate Renumbers(current: Task, patch: Patch) {
    Truthy(patch.status) && patch.status.value != current.status && patch.status.value != "confirmed"
  }

  /** The patch as it is written: with the regenerated number when the
      status change renumbers, `None` when that status is invalid. */
  function EffectivePatch(current: Task, patch: Patch, clock: Clock): (r: Option<Patch>)
    ensures r.None? <==> Renumbers(current, patch) && PrefixFor(patch.status.value).None?
    ensures (r.Some? && Renumbers(current, patch))
              ==> r.value.number == Some(GenerateTaskNumber(PrefixFor(patch.status.value).value, clock))
    ensures r.Some? && !Renumbers(current, patch) ==> r.value == patch
    ensures r.Some? ==> r.value.(number := patch.number) == patch
  {
    if Renumbers(current, patch) then
      match PrefixFor(patch.status.value)
      case Some(prefix) => Some(patch.(number := Some(GenerateTaskNumber(prefix, clock))))
      case None => None
    else Some(patch)
  }

  function Choose<T>(v: Option<T>, otherwise: T): T {
    if v.Some? then v.value else otherwise
  }

  /** A column of `SET ?`: the request's value when it names the column,
      the stored value otherwise. */
  predicate SetColumn<T(==)>(v: Option<T>, stored: T, m: T) {
    (v.Some? ==> m == v.value) && (v.None? ==> m == stored)
  }

  /** The same for a nullable column, whose stored value is itself optional. */
  predicate SetNullable(v: Option<string>, stored: Option<string>, m: Option<string>) {
    (v.Some? ==> m == v) && (v.None? ==> m == stored)
  }

  /** The descriptive columns after `SET ?`: each one the patch names is
      written, the others are kept. */
  function MergeDetails(d: Details, p: Details): (r: Details)
    ensures SetNullable(p.departure, d.departure, r.departure) && SetNullable(p.route, d.route, r.route)
    ensures SetNullable(p.purpose, d.purpose, r.purpose) && SetNullable(p.crew, d.crew, r.crew)
    ensures SetNullable(p.pax, d.pax, r.pax) && SetNullable(p.authority, d.authority, r.authority)
  {
    Details(Named(p.departure, d.departure), Named(p.route, d.route), Named(p.purpose, d.purpose),
            Named(p.crew, d.crew), Named(p.pax, d.pax), Named(p.authority, d.authority))
  }

  /** A nullable column the patch names replaces the stored one. */
  function Named(v: Option<string>, stored: Option<string>): Option<string> {
    if v.Some? then v else stored
  }

  /** The row after `UPDATE ... SET ?` with the patch and the stored dates
      text: every column the patch names is written, every other column and
      the group id are kept. */
  function Merge(t: Task, p: Patch, datesText: Option<string>): (r: Task)
    ensures r.groupId == t.groupId
    ensures SetColumn(p.status, t.status, r.status) && SetColumn(p.number, t.number, r.number)
    ensures SetColumn(p.dateOfFlight, t.dateOfFlight, r.dateOfFlight)
    ensures SetColumn(p.aircraftType, t.aircraftType, r.aircraftType)
    ensures SetColumn(p.occurrenceStatus, t.occurrenceStatus, r.occurrenceStatus)
    ensures SetColumn(datesText, t.affectedDates, r.affectedDates)
    ensures r.details == MergeDetails(t.details, p.details)
    ensures p.details == NoDetails ==> r.details == t.details
  {
    Task(Choose(p.status, t.status), Choose(p.number, t.number), Choose(p.dateOfFlight, t.dateOfFlight),
         Choose(p.aircraftType, t.aircraftType), MergeDetails(t.details, p.details),
         Choose(p.occurrenceStatus, t.occurrenceStatus), Choose(datesText, t.affectedDates), t.groupId)
  }

  /** A patch that names no column at all: its `SET` clause is empty, which
      the database rejects. */
  predicate NamesNoColumn(p: Patch, datesText: Option<string>) {
    p.status.None? && p.number.None? && p.dateOfFlight.None? && p.aircraftType.None?
    && p.details == NoDetails && p.occurrenceStatus.None? && datesText.None?
  }

  /** What an update does to one row. */
  lemma UpdateRules(t: Task, patch: Patch, clock: Clock, parseDate: string -> Option<string>)
    requires EffectivePatch(t, patch, clock).Some?
    ensures var r := Merge(t, EffectivePatch(t, patch, clock).value, UpdateDatesText(patch.affectedDates, parseDate));
      && (Renumbers(t, patch) ==>
            r.status == patch.status.value && r.number == GenerateTaskNumber(PrefixFor(patch.status.value).value, clock))
      && (patch.status == Some("confirmed") ==> r.status == "confirmed" && r.number == Choose(patch.number, t.number))
      && (patch.affectedDates == Text("") ==> r.affectedDates == "[]")
      && (patch.affectedDates.Undefined? ==> r.affectedDates == t.affectedDates)
      && r.groupId == t.groupId
  {
  }

  /** An update renumbers only the row it names, so a status edit takes that
      row away from its group's shared number and status. */
  lemma UpdateSplitsGroup()
    ensures var clock := Clock(1, 2025);
      var t := Task("provisional", "PROV/JAN/25", "2025-01-10", "C130", Details(None, None, None, None, None, None),
                    "Pending", "[\"2025-01-10\",\"2025-01-11\"]", Some("GRP-1"));
      var sibling := t.(dateOfFlight := "2025-01-11");
      var patch := Patch(Some("military"), None, None, None, NoDetails, None, Undefined);
      var edited := Merge(t, EffectivePatch(t, patch, clock).value, UpdateDatesText(Undefined, s => None));
      GroupsAgree(map[1 := t, 2 := sibling])
      && !GroupsAgree(map[1 := edited, 2 := sibling])
  {
    var clock := Clock(1, 2025);
    var t := Task("provisional", "PROV/JAN/25", "2025-01-10", "C130", Details(None, None, None, None, None, None),
                  "Pending", "[\"2025-01-10\",\"2025-01-11\"]", Some("GRP-1"));
    var sibling := t.(dateOfFlight := "2025-01-11");
    var patch := Patch(Some("military"), None, None, None, NoDetails, None, Undefined);
    var edited := Merge(t, EffectivePatch(t, patch, clock).value, UpdateDatesText(Undefined, s => None));
    assert edited.status == "military";
    var after := map[1 := edited, 2 := sibling];
    assert InGroupOf(after[1], after[2]) && after[1].status != after[2].status;
  }

  // ---------------------------------------------------------------------
  // Delete

  /** Deleting a row keeps every group in agreement and changes no other row. */
  lemma DeletionKeepsGroups(rows: map<int, Task>, id: int)
    requires GroupsAgree(rows)
    ensures GroupsAgree(rows - {id})
    ensures forall a :: a in rows && a != id ==> a in rows - {id} && (rows - {id})[a] == rows[a]
  {
  }

  // ---------------------------------------------------------------------
  // The table

  class TaskTable {
    var rows: map<int, Task>
    var nextId: int

    ghost predicate Valid()
      reads this
    {
      nextId >= 1 && forall id :: id in rows ==> 1 <= id < nextId
    }

    constructor()
      ensures Valid() && rows == map[] && nextId == 1
    {
      rows := map[];
      nextId := 1;
    }

    /** The numbers of the confirmed rows: the candidates of the confirmed sequence. */
    function ConfirmedNumbers(): set<string>
      reads this
    {
      set id | id in rows && rows[id].status == "confirmed" :: rows[id].number
    }

    /** The insert loop of `POST /`: one row per element, under fresh ids. */
    method InsertAll(added: seq<Task>) returns (ids: seq<int>)
      requires Valid()
      modifies this
      ensures Valid()
      ensures rows == Inserted(old(rows), old(nextId), added)
      ensures nextId == old(nextId) + |added|
      ensures |ids| == |added| && forall k :: 0 <= k < |added| ==> ids[k] == old(nextId) + k
    {
      ids := [];
      var i := 0;
      while i < |added|
        invariant 0 <= i <= |added|
        invariant nextId == old(nextId) + i
        invariant |ids| == i && forall k :: 0 <= k < i ==> ids[k] == old(nextId) + k
        invariant rows == Inserted(old(rows), old(nextId), added[..i])
      {
        assert added[..i + 1] == added[..i] + [added[i]];
        rows := rows[nextId := added[i]];
        ids := ids + [nextId];
        nextId := nextId + 1;
        i := i + 1;
      }
      assert added[..|added|] == added;
    }

    /** `POST /`: insert one row per date of the request, all sharing one
        number, one stored date list and (with several dates) one group id. */
    method Create(req: NewTask, clock: Clock, stamp: nat, parseDate: string -> Option<string>)
      returns (reply: Reply)
      requires Valid()
      modifies this
      ensures Valid()
      ensures (!Truthy(req.status) || !Truthy(req.dateOfFlight) || !Truthy(req.aircraftType))
                ==> reply == BadRequest
      ensures (Truthy(req.status) && Truthy(req.dateOfFlight) && Truthy(req.aircraftType)
                && NumberFor(req.status.value, clock, old(ConfirmedNumbers())).None?)
                ==> reply == ServerError
      ensures (Truthy(req.status) && Truthy(req.dateOfFlight) && Truthy(req.aircraftType)
                && NumberFor(req.status.value, clock, old(ConfirmedNumbers())).Some?)
                ==> reply.Created?
      ensures !reply.Created? ==> rows == old(rows) && nextId == old(nextId)
      ensures reply.Created? ==>
                Truthy(req.status) && Truthy(req.dateOfFlight) && Truthy(req.aircraftType)
                && NumberFor(req.status.value, clock, old(ConfirmedNumbers())).Some?
                && var dates := CreateDates(req.affectedDates, req.dateOfFlight.value, parseDate);
                   var added := RowsFor(req, NumberFor(req.status.value, clock, old(ConfirmedNumbers())).value,
                                        dates, JsonList.Stringify(dates), GroupFor(dates, stamp));
                   rows == Inserted(old(rows), old(nextId), added)
                   && nextId == old(nextId) + |dates|
                   && |reply.ids| == |dates|
                   && forall k :: 0 <= k < |dates| ==> reply.ids[k] == old(nextId) + k
      ensures (reply.Created? && old(GroupsAgree(rows))
                && (forall g :: GroupFor(CreateDates(req.affectedDates, req.dateOfFlight.value, parseDate), stamp) == Some(g)
                      ==> GroupUnused(old(rows), g)))
                ==> GroupsAgree(rows)
    {
      if !Truthy(req.status) || !Truthy(req.dateOfFlight) || !Truthy(req.aircraftType) {
        return BadRequest;
      }
      var dates := CreateDates(req.affectedDates, req.dateOfFlight.value, parseDate);
      var groupId := GroupFor(dates, stamp);
      var number := GetTaskNumber(req.status.value, clock, ConfirmedNumbers());
      assert number == NumberFor(req.status.value, clock, old(ConfirmedNumbers()));
      if number.None? {
        return ServerError;
      }
      var ids := InsertCreated(req, number.value, dates, groupId);
      reply := Created(ids);
    }

    /** The insert loop of `POST /` for a request that passed its checks: one
        row per date, sharing the number, the stored list and the group id. */
    method InsertCreated(req: NewTask, number: string, dates: seq<string>, groupId: Option<string>)
      returns (ids: seq<int>)
      requires Valid() && req.status.Some? && req.aircraftType.Some?
      modifies this
      ensures Valid()
      ensures rows == Inserted(old(rows), old(nextId), RowsFor(req, number, dates, JsonList.Stringify(dates), groupId))
      ensures nextId == old(nextId) + |dates|
      ensures |ids| == |dates| && forall k :: 0 <= k < |dates| ==> ids[k] == old(nextId) + k
      ensures (old(GroupsAgree(rows)) && forall g :: groupId == Some(g) ==> GroupUnused(old(rows), g))
              ==> GroupsAgree(rows)
    {
      var added := RowsFor(req, number, dates, JsonList.Stringify(dates), groupId);
      if GroupsAgree(rows) && (forall g :: groupId == Some(g) ==> GroupUnused(rows, g)) {
        CreatedGroupsAgree(rows, nextId, req, number, dates, JsonList.Stringify(dates), groupId);
      }
      ids := InsertAll(added);
    }

    /** The two `UPDATE` statements of a confirmation: first the target row,
        then the other rows of its group. */
    method WriteConfirmation(id: int, number: string)
      requires Valid() && id in rows
      modifies this
      ensures Valid() && nextId == old(nextId)
      ensures rows == Confirmation(old(rows), id, number)
    {
      ghost var before := rows;
      var task := rows[id];
      rows := rows[id := task.(status := "confirmed", number := number)];
      if Truthy(task.groupId) {
        rows := map a | a in rows :: if a != id && rows[a].groupId == task.groupId
                                     then rows[a].(status := "confirmed", number := number)
                                     else rows[a];
      }
      var expected := Confirmation(before, id, number);
      assert rows.Keys == before.Keys == expected.Keys;
      assert forall a :: a in rows ==> rows[a] == expected[a];
    }

    /** `POST /:id/confirm`: give a provisional or military task, and every
        task of its group, the next confirmed number of the month. */
    method Confirm(id: int, clock: Clock) returns (reply: Reply)
      requires Valid()
      modifies this
      ensures Valid() && nextId == old(nextId)
      ensures id !in old(rows) ==> reply == NotFound && rows == old(rows)
      ensures id in old(rows) && !CanConfirm(old(rows)[id].status) ==> reply == BadRequest && rows == old(rows)
      ensures id in old(rows) && CanConfirm(old(rows)[id].status) ==>
                reply == Confirmed(ConfirmedNumber(MaxSequence(old(ConfirmedNumbers()), clock) + 1, clock))
                && rows == Confirmation(old(rows), id, reply.number)
      ensures reply.Confirmed? ==> reply.number !in old(ConfirmedNumbers())
      ensures old(GroupsAgree(rows)) ==> GroupsAgree(rows)
    {
      if id !in rows {
        return NotFound;
      }
      var task := rows[id];
      if !CanConfirm(task.status) {
        return BadRequest;
      }
      ghost var before := rows;
      var number := GenerateConfirmedTaskNumber(ConfirmedNumbers(), clock);
      MintedNumberIsFresh(ConfirmedNumbers(), clock, MaxSequence(ConfirmedNumbers(), clock) + 1);
      WriteConfirmation(id, number);
      if GroupsAgree(before) {
        ConfirmationKeepsGroups(before, id, number);
      }
      reply := Confirmed(number);
    }

    /** `PUT /:id`: write the patch over one row, renumbering it on a change to
        another non-confirmed status and normalising `affected_dates`. */
    method Update(id: int, patch: Patch, clock: Clock, parseDate: string -> Option<string>) returns (reply: Reply)
      requires Valid()
      modifies this
      ensures Valid() && nextId == old(nextId)
      ensures reply == NotFound <==> id !in old(rows)
      ensures reply != Updated ==> rows == old(rows)
      ensures id in old(rows) ==>
                var text := UpdateDatesText(patch.affectedDates, parseDate);
                match EffectivePatch(old(rows)[id], patch, clock)
                case None => reply == ServerError
                case Some(p) =>
                  if NamesNoColumn(p, text) then reply == ServerError
                  else reply == Updated && rows == old(rows)[id := Merge(old(rows)[id], p, text)]
    {
      if id !in rows {
        return NotFound;
      }
      var current := rows[id];
      var p := patch;
      if Truthy(patch.status) && patch.status.value != current.status && patch.status.value != "confirmed" {
        var number := GetTaskNumber(patch.status.value, clock, ConfirmedNumbers());
        if number.None? {
          return ServerError;
        }
        p := p.(number := number);
      }
      var text := UpdateDatesText(patch.affectedDates, parseDate);
      if NamesNoColumn(p, text) {
        return ServerError;
      }
      rows := rows[id := Merge(current, p, text)];
      reply := Updated;
    }

    /** `DELETE /:id`: remove one row; its group siblings keep their number
        and group id. */
    method Delete(id: int) returns (reply: Reply)
      requires Valid()
      modifies this
      ensures Valid() && nextId == old(nextId)
      ensures id !in old(rows) ==> reply == NotFound && rows == old(rows)
      ensures id in old(rows) ==> reply == Deleted && rows == old(rows) - {id}
      ensures old(GroupsAgree(rows)) ==> GroupsAgree(rows)
    {
      if id !in rows {
        return NotFound;
      }
      if GroupsAgree(rows) {
        DeletionKeepsGroups(rows, id);
      }
      rows := rows - {id};
      reply := Deleted;
    }
  }
}

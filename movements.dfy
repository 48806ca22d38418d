/** The `aircraft_movements` backend (backend/src/routes/movements.js): the
    insert, update and delete handlers over a table of rows. Absent or empty
    optional fields are stored as `NULL`; an update overwrites the fields the
    request carries and always rewrites both times. */
module Movements {
  import opened Strings

  /** The fields of a movement; `None` is an absent field (or `NULL`). */
  datatype Movement = Movement(
    date: Option<string>,
    taskNumber: Option<string>,
    callSign: Option<string>,
    aircraftType: Option<string>,
    deptAerod: Option<string>,
    atd: Option<string>,
    enrouteEstimates: Option<string>,
    destAerod: Option<string>,
    purpose: Option<string>,
    ata: Option<string>,
    occurrenceStatus: Option<string>,
    remarks: Option<string>)

  datatype Reply = Created(id: int, occurrenceStatus: string) | Ok | BadRequest | NotFound

  /** `!date_of_flight || !task_number || !aircraft_type || !purpose`. */
  predicate MissingRequired(req: Movement) {
    !Truthy(req.date) || !Truthy(req.taskNumber) || !Truthy(req.aircraftType) || !Truthy(req.purpose)
  }

  /** The departure time is `NULL` or a non-empty string. */
  predicate DepartureNullOrSet(m: Movement) {
    m.atd.None? || Truthy(m.atd)
  }

  /** The arrival time is `NULL` or a non-empty string. */
  predicate ArrivalNullOrSet(m: Movement) {
    m.ata.None? || Truthy(m.ata)
  }

  /** The occurrence status a new movement gets when the request leaves it empty. */
  const DefaultOccurrence: string := "In Progress"

  /** `v || null` stored into `m`: a non-empty value as given, `NULL` otherwise. */
  predicate StoredOrNull(v: Option<string>, m: Option<string>) {
    (Truthy(v) ==> m == v) && (!Truthy(v) ==> m.None?)
  }

  /** The row a `POST /` inserts: the four required fields as given, every
      optional field as given when non-empty and `NULL` otherwise, and the
      occurrence status as given or `'In Progress'`. */
  function PostRow(req: Movement): (m: Movement)
    ensures m.date == req.date && m.taskNumber == req.taskNumber
    ensures m.aircraftType == req.aircraftType && m.purpose == req.purpose
    ensures StoredOrNull(req.callSign, m.callSign) && StoredOrNull(req.deptAerod, m.deptAerod)
    ensures StoredOrNull(req.atd, m.atd) && StoredOrNull(req.enrouteEstimates, m.enrouteEstimates)
    ensures StoredOrNull(req.destAerod, m.destAerod) && StoredOrNull(req.ata, m.ata)
    ensures StoredOrNull(req.remarks, m.remarks)
    ensures Truthy(req.occurrenceStatus) ==> m.occurrenceStatus == req.occurrenceStatus
    ensures !Truthy(req.occurrenceStatus) ==> m.occurrenceStatus == Some(DefaultOccurrence)
    ensures DepartureNullOrSet(m) && ArrivalNullOrSet(m)
    ensures forall f :: f in [m.callSign, m.deptAerod, m.enrouteEstimates, m.destAerod, m.remarks] ==> f.None? || Truthy(f)
  {
    Movement(req.date, req.taskNumber, OrNull(req.callSign), req.aircraftType, OrNull(req.deptAerod),
             OrNull(req.atd), OrNull(req.enrouteEstimates), OrNull(req.destAerod), req.purpose,
             OrNull(req.ata), Some(OrDefault(req.occurrenceStatus, DefaultOccurrence)), OrNull(req.remarks))
  }

  /** A field an update carries replaces the stored one. */
  function Present(v: Option<string>, stored: Option<string>): Option<string> {
    if v.Some? then v else stored
  }

  /** A column of `SET ?`: the request's value when it carries the key, the
      stored value otherwise. */
  predicate Overwritten(v: Option<string>, stored: Option<string>, m: Option<string>) {
    (v.Some? ==> m == v) && (v.None? ==> m == stored)
  }

  /** The row after a `PUT /:id`: the request's fields over the stored ones,
      with both times rewritten (`NULL` when absent or empty). */
  function PutRow(stored: Movement, req: Movement): (m: Movement)
    ensures DepartureNullOrSet(m) && ArrivalNullOrSet(m)
    ensures StoredOrNull(req.atd, m.atd) && StoredOrNull(req.ata, m.ata)
    ensures Overwritten(req.date, stored.date, m.date) && Overwritten(req.taskNumber, stored.taskNumber, m.taskNumber)
    ensures Overwritten(req.callSign, stored.callSign, m.callSign)
    ensures Overwritten(req.aircraftType, stored.aircraftType, m.aircraftType)
    ensures Overwritten(req.deptAerod, stored.deptAerod, m.deptAerod)
    ensures Overwritten(req.enrouteEstimates, stored.enrouteEstimates, m.enrouteEstimates)
    ensures Overwritten(req.destAerod, stored.destAerod, m.destAerod)
    ensures Overwritten(req.purpose, stored.purpose, m.purpose)
    ensures Overwritten(req.occurrenceStatus, stored.occurrenceStatus, m.occurrenceStatus)
    ensures Overwritten(req.remarks, stored.remarks, m.remarks)
  {
    Movement(Present(req.date, stored.date), Present(req.taskNumber, stored.taskNumber),
             Present(req.callSign, stored.callSign), Present(req.aircraftType, stored.aircraftType),
             Present(req.deptAerod, stored.deptAerod), OrNull(req.atd),
             Present(req.enrouteEstimates, stored.enrouteEstimates), Present(req.destAerod, stored.destAerod),
             Present(req.purpose, stored.purpose), OrNull(req.ata),
             Present(req.occurrenceStatus, stored.occurrenceStatus), Present(req.remarks, stored.remarks))
  }

  /** An update that passes the required-field check leaves the four required
      fields set. */
  lemma PutKeepsRequired(stored: Movement, req: Movement)
    requires !MissingRequired(req)
    ensures !MissingRequired(PutRow(stored, req))
  {
  }

  class MovementTable {
    var rows: map<int, Movement>
    var nextId: int

    /** Ids below `nextId` have been handed out, and no stored time is the
        empty string. */
    ghost predicate Valid()
      reads this
    {
      (forall id :: id in rows ==> id < nextId)
      && (forall id :: id in rows ==> DepartureNullOrSet(rows[id]) && ArrivalNullOrSet(rows[id]))
    }

    constructor()
      ensures Valid() && rows == map[] && nextId == 1
    {
      rows := map[];
      nextId := 1;
    }

    /** `POST /`. */
    method Post(req: Movement) returns (reply: Reply)
      requires Valid()
      modifies this
      ensures Valid()
      ensures MissingRequired(req) ==> reply == BadRequest && rows == old(rows) && nextId == old(nextId)
      ensures !MissingRequired(req) ==>
                reply == Created(old(nextId), OrDefault(req.occurrenceStatus, DefaultOccurrence))
                && old(nextId) !in old(rows)
                && rows == old(rows)[old(nextId) := PostRow(req)] && nextId == old(nextId) + 1
    {
      if MissingRequired(req) {
        return BadRequest;
      }
      var id := nextId;
      rows := rows[id := PostRow(req)];
      nextId := nextId + 1;
      reply := Created(id, OrDefault(req.occurrenceStatus, DefaultOccurrence));
    }

    /** `PUT /:id`. An id with no row changes nothing and still answers 200. */
    method Put(id: int, req: Movement) returns (reply: Reply)
      requires Valid()
      modifies this
      ensures Valid() && nextId == old(nextId)
      ensures MissingRequired(req) ==> reply == BadRequest && rows == old(rows)
      ensures !MissingRequired(req) ==> reply == Ok
      ensures !MissingRequired(req) && id !in old(rows) ==> rows == old(rows)
      ensures !MissingRequired(req) && id in old(rows) ==> rows == old(rows)[id := PutRow(old(rows)[id], req)]
    {
      if MissingRequired(req) {
        return BadRequest;
      }
      if id in rows {
        rows := rows[id := PutRow(rows[id], req)];
      }
      reply := Ok;
    }

    /** `DELETE /:id`. */
    method Delete(id: int) returns (reply: Reply)
      requires Valid()
      modifies this
      ensures Valid() && nextId == old(nextId)
      ensures id !in old(rows) ==> reply == NotFound && rows == old(rows)
      ensures id in old(rows) ==> reply == Ok && rows == old(rows) - {id}
    {
      if id !in rows {
        return NotFound;
      }
      rows := rows - {id};
      reply := Ok;
    }
  }
}

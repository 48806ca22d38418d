/** The `training_flights` backend (backend/src/routes/training.js): the
    time-of-day normalisation `formatTimeForDB` and the insert, update and
    delete handlers. A stored time is `HH:MM:00`, the extended format of
    ISO 8601:2004 section 4.2.2.2 with zero seconds. */
module Training {
  import opened Strings

  /** `^(\d{1,2}):(\d{2})$`: one or two digits, a colon, two digits. */
  predicate IsClockText(t: string) {
    (|t| == 4 || |t| == 5) && AllDigits(t[..|t| - 3]) && t[|t| - 3] == ':' && AllDigits(t[|t| - 2..])
  }

  function HoursOf(t: string): (h: nat)
    requires IsClockText(t)
  {
    DigitsValue(t[..|t| - 3])
  }

  function MinutesOf(t: string): (m: nat)
    requires IsClockText(t)
  {
    DigitsValue(t[|t| - 2..])
  }

  /** A time as the database receives it: `HH:MM:00` with `HH` at most 23 and
      `MM` at most 59. */
  predicate IsStoredTime(s: string) {
    |s| == 8 && AllDigits(s[..2]) && s[2] == ':' && AllDigits(s[3..5]) && s[5..] == ":00"
    && DigitsValue(s[..2]) <= 23 && DigitsValue(s[3..5]) <= 59
  }

  /** `formatTimeForDB(time)`: `HH:MM:00` for a valid `H:MM` or `HH:MM`,
      `None` (SQL `NULL`) otherwise. */
  function FormatTimeForDB(time: Option<string>): (r: Option<string>)
    ensures !Truthy(time) ==> r.None?
    ensures time.Some? && !IsClockText(time.value) ==> r.None?
    ensures (time.Some? && IsClockText(time.value) && (HoursOf(time.value) > 23 || MinutesOf(time.value) > 59))
              ==> r.None?
    ensures (time.Some? && IsClockText(time.value) && HoursOf(time.value) <= 23 && MinutesOf(time.value) <= 59)
              ==> r.Some?
    ensures r.Some? ==> IsClockText(time.value) && IsStoredTime(r.value)
                        && DigitsValue(r.value[..2]) == HoursOf(time.value)
                        && DigitsValue(r.value[3..5]) == MinutesOf(time.value)
  {
    if !Truthy(time) then None
    else
      ClockTextNotBlank(time.value);
      if Trim(time.value) == "" then None
      else if !IsClockText(time.value) then None
      else
        var t := time.value;
        var hours, minutes := HoursOf(t), MinutesOf(t);
        if hours > 23 || minutes > 59 then None
        else
          var s := PadStart(NatToString(hours), 2, '0') + ":" + PadStart(NatToString(minutes), 2, '0') + ":00";
          StoredTimeParts(hours, minutes);
          Some(s)
  }

  /** A clock text holds a colon, so trimming never leaves it blank. */
  lemma ClockTextNotBlank(t: string)
    ensures IsClockText(t) ==> Trim(t) != ""
  {
    if IsClockText(t) {
      assert !IsSpace(t[|t| - 3]);
    }
  }

  lemma StoredTimeParts(hours: nat, minutes: nat)
    requires hours <= 23 && minutes <= 59
    ensures var s := PadStart(NatToString(hours), 2, '0') + ":" + PadStart(NatToString(minutes), 2, '0') + ":00";
            s == TwoDigits(hours) + ":" + TwoDigits(minutes) + ":00"
            && IsStoredTime(s) && DigitsValue(s[..2]) == hours && DigitsValue(s[3..5]) == minutes
  {
    PadTwoDigits(hours);
    PadTwoDigits(minutes);
    var s := TwoDigits(hours) + ":" + TwoDigits(minutes) + ":00";
    assert s[..2] == TwoDigits(hours);
    assert s[3..5] == TwoDigits(minutes);
  }

  /** Formatting is idempotent on its own output: the first five characters
      of a stored time format back to the same stored time. */
  lemma FormatRoundTrip(time: Option<string>)
    requires FormatTimeForDB(time).Some?
    ensures FormatTimeForDB(Some(FormatTimeForDB(time).value[..5])) == FormatTimeForDB(time)
  {
    StoredTimeReformats(FormatTimeForDB(time).value);
  }

  /** A stored time is what its first five characters format to. */
  lemma StoredTimeReformats(s: string)
    requires IsStoredTime(s)
    ensures IsClockText(s[..5]) && FormatTimeForDB(Some(s[..5])) == Some(s)
  {
    StoredClockText(s);
    var hours, minutes := DigitsValue(s[..2]), DigitsValue(s[3..5]);
    TwoDigitsOf(s[..2]);
    TwoDigitsOf(s[3..5]);
    StoredTimeParts(hours, minutes);
    StoredTimeShape(s);
  }

  /** The first five characters of a stored time are a clock text with the
      same hours and minutes. */
  lemma StoredClockText(s: string)
    requires IsStoredTime(s)
    ensures IsClockText(s[..5]) && Trim(s[..5]) != ""
    ensures HoursOf(s[..5]) == DigitsValue(s[..2]) && MinutesOf(s[..5]) == DigitsValue(s[3..5])
  {
    var t := s[..5];
    assert t[..2] == s[..2] && t[3..] == s[3..5];
    assert !IsSpace(t[0]);
  }

  lemma StoredTimeShape(s: string)
    requires IsStoredTime(s)
    ensures s == s[..2] + ":" + s[3..5] + ":00"
  {
  }

  // ---------------------------------------------------------------------
  // The table

  /** The fields of a create or update request. */
  datatype FlightRequest = FlightRequest(
    date: Option<string>,
    callSign: Option<string>,
    aircraftType: Option<string>,
    atd: Option<string>,
    route: Option<string>,
    ata: Option<string>,
    duty: Option<string>,
    crew: Option<string>)

  /** One row of `training_flights`. */
  datatype Flight = Flight(
    date: Option<string>,
    callSign: Option<string>,
    aircraftType: Option<string>,
    atd: Option<string>,
    route: Option<string>,
    ata: Option<string>,
    duty: Option<string>,
    crew: Option<string>)

  datatype Reply = Created(id: int) | Ok | BadRequest | NotFound

  /** A non-empty departure or arrival time that does not format. */
  predicate TimesRejected(req: FlightRequest) {
    (Truthy(req.atd) && FormatTimeForDB(req.atd).None?)
    || (Truthy(req.ata) && FormatTimeForDB(req.ata).None?)
  }

  /** The row written for a request: formatted times, and `NULL` for an
      empty route, duty or crew. */
  function FlightRow(req: FlightRequest): (f: Flight)
    ensures f.atd.None? || IsStoredTime(f.atd.value)
    ensures f.ata.None? || IsStoredTime(f.ata.value)
    ensures !TimesRejected(req) ==> (f.atd.None? <==> !Truthy(req.atd)) && (f.ata.None? <==> !Truthy(req.ata))
    ensures f.route.None? || Truthy(f.route)
    ensures f.duty.None? || Truthy(f.duty)
    ensures f.crew.None? || Truthy(f.crew)
    ensures f.date == req.date && f.callSign == req.callSign && f.aircraftType == req.aircraftType
  {
    Flight(req.date, req.callSign, req.aircraftType, FormatTimeForDB(req.atd), OrNull(req.route),
           FormatTimeForDB(req.ata), OrNull(req.duty), OrNull(req.crew))
  }

  /** The time formatting both handlers start with: whether a time is
      rejected, and the row the request would write. */
  method FormatRequest(req: FlightRequest) returns (rejected: bool, flight: Flight)
    ensures rejected == TimesRejected(req)
    ensures flight == FlightRow(req)
  {
    var formattedAtd := FormatTimeForDB(req.atd);
    var formattedAta := FormatTimeForDB(req.ata);
    rejected := (Truthy(req.atd) && formattedAtd.None?) || (Truthy(req.ata) && formattedAta.None?);
    flight := Flight(req.date, req.callSign, req.aircraftType, formattedAtd, OrNull(req.route),
                     formattedAta, OrNull(req.duty), OrNull(req.crew));
  }

  class TrainingTable {
    var rows: map<int, Flight>
    var nextId: int

    ghost predicate Valid()
      reads this
    {
      nextId >= 1 && forall id :: id in rows ==> 1 <= id < nextId
    }

    constructor()
      ensures Valid() && rows == map[] && nextId == 1
    {
      rows := map[];
      nextId := 1;
    }

    /** `POST /`: reject a bad time with 400, otherwise insert the row. */
    method Post(req: FlightRequest) returns (reply: Reply)
      requires Valid()
      modifies this
      ensures Valid()
      ensures TimesRejected(req) ==> reply == BadRequest && rows == old(rows) && nextId == old(nextId)
      ensures !TimesRejected(req) ==>
                reply == Created(old(nextId)) && old(nextId) !in old(rows)
                && rows == old(rows)[old(nextId) := FlightRow(req)] && nextId == old(nextId) + 1
    {
      var rejected, flight := FormatRequest(req);
      if rejected {
        return BadRequest;
      }
      rows := rows[nextId := flight];
      reply := Created(nextId);
      nextId := nextId + 1;
    }

    /** `PUT /:id`: the time check comes first, then 404 when no row has the
        id, otherwise every column is rewritten from the request. */
    method Put(id: int, req: FlightRequest) returns (reply: Reply)
      requires Valid()
      modifies this
      ensures Valid() && nextId == old(nextId)
      ensures TimesRejected(req) ==> reply == BadRequest && rows == old(rows)
      ensures !TimesRejected(req) && id !in old(rows) ==> reply == NotFound && rows == old(rows)
      ensures !TimesRejected(req) && id in old(rows) ==> reply == Ok && rows == old(rows)[id := FlightRow(req)]
    {
      var rejected, flight := FormatRequest(req);
      if rejected {
        return BadRequest;
      }
      if id !in rows {
        return NotFound;
      }
      rows := rows[id := flight];
      reply := Ok;
    }

    /** `DELETE /:id`: 404 when no row has the id, otherwise remove that row only. */
    method Delete(id: int) returns (reply: Reply)
      requires Valid()
      modifies this
      ensures Valid() && nextId == old(nextId)
      ensures id !in old(rows) ==> reply == NotFound && rows == old(rows)
      ensures id in old(rows) ==> reply == Ok && rows == old(rows) - {id}
    {
      if id !in rows {
        return NotFound;
      }
      rows := rows - {id};
      reply := Ok;
    }
  }
}

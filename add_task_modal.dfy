/** The draft task of the add form (frontend/src/components/TaskTable/AddTaskModal.js).
    The draft is the parent's `newTask` record, a map from field name to text
    (a missing field reads as empty); the form also keeps its own copy of the
    flight date. Choosing a status or a date rewrites the draft number to
    `PREFIX/MON/YY` for the clock's month, the clock being a parameter. Each
    change is a list of field writes. As written, the parent builds every
    write from the same stale draft, so only the last one of a handler
    survives (`ApplyStale`); `Apply` performs them in order, as intended. */
module AddTaskModal {
  import opened Strings
  import TaskNumbers

  const StatusField: string := "task_status"
  const NumberField: string := "task_number"
  const DateField: string := "date_of_flight"

  /** A field of the draft; `undefined` reads as the empty string. */
  function Field(task: map<string, string>, key: string): string {
    if key in task then task[key] else ""
  }

  /** `prefixMap[status]` inside a template string: a status the lookup does
      not find gives the text `undefined`. */
  function PrefixText(status: string): (p: string)
    ensures status == "provisional" ==> p == "PROV"
    ensures status == "military" ==> p == "MIL"
    ensures status == "civil" ==> p == "CIV"
    ensures '/' !in p
  {
    match TaskNumbers.PrefixFor(status)
    case Some(prefix) => prefix
    case None => "undefined"
  }

  /** The calls to `onInputChange` one handler makes, in order. */
  type Writes = seq<(string, string)>

  /** The writes of `handleStatusChange(status)`; `accepted` is the answer to
      the confirmation dialog, asked only for the confirmed status. */
  function StatusWrites(task: map<string, string>, status: string, accepted: bool, clock: TaskNumbers.Clock): Writes {
    if status == "confirmed" then
      if accepted then [(StatusField, status)] else []
    else if Field(task, DateField) != "" then
      [(StatusField, status), (NumberField, TaskNumbers.GenerateTaskNumber(PrefixText(status), clock))]
    else [(StatusField, status)]
  }

  /** The status the date handler numbers with: the current one, or
      provisional when none is chosen. */
  function EffectiveStatus(task: map<string, string>): string {
    if Field(task, StatusField) != "" then Field(task, StatusField) else "provisional"
  }

  /** The writes of `handleDateChange` for the date `newDate`. */
  function DateWrites(task: map<string, string>, newDate: string, clock: TaskNumbers.Clock): Writes {
    if Field(task, StatusField) != "confirmed" && newDate != "" then
      [(DateField, newDate), (NumberField, TaskNumbers.GenerateTaskNumber(PrefixText(EffectiveStatus(task)), clock))]
    else [(DateField, newDate)]
  }

  /** The writes applied one after the other, each to the result of the last. */
  function Apply(task: map<string, string>, writes: Writes): (r: map<string, string>)
    ensures r.Keys == task.Keys + set k | k in writes :: k.0
    decreases |writes|
  {
    if writes == [] then task
    else Apply(task[writes[0].0 := writes[0].1], writes[1..])
  }

  /** The writes as the parent performs them: each one is
      `setNewTask({ ...newTask, [key]: value })` over the same `newTask` of
      the render the handler belongs to, so only the last one survives. */
  function ApplyStale(task: map<string, string>, writes: Writes): (r: map<string, string>)
    ensures writes == [] ==> r == task
    ensures writes != [] ==> r == Apply(task, [writes[|writes| - 1]])
  {
    if writes == [] then task
    else
      var w := writes[|writes| - 1];
      assert [w][1..] == [];
      task[w.0 := w.1]
  }

  /** A single write is the same either way. */
  lemma OneWriteAgrees(task: map<string, string>, w: (string, string))
    ensures ApplyStale(task, [w]) == Apply(task, [w]) == task[w.0 := w.1]
  {
    assert [w][1..] == [];
  }

  lemma TwoWrites(task: map<string, string>, a: (string, string), b: (string, string))
    ensures Apply(task, [a, b]) == task[a.0 := a.1][b.0 := b.1]
  {
    assert [a, b][1..] == [b];
    OneWriteAgrees(task[a.0 := a.1], b);
  }

  /** Choosing a status: confirmed, once accepted, sets only the status and
      keeps the number; declined, nothing changes; any other status with a
      flight date set sets the status and the generated number; without a
      date, only the status. */
  lemma StatusChangeRules(task: map<string, string>, status: string, accepted: bool, clock: TaskNumbers.Clock)
    ensures var r := Apply(task, StatusWrites(task, status, accepted, clock));
            && (status == "confirmed" && accepted ==> r == task[StatusField := status])
            && (status == "confirmed" && !accepted ==> r == task)
            && (status != "confirmed" && Field(task, DateField) != "" ==>
                  r == task[StatusField := status][NumberField := TaskNumbers.GenerateTaskNumber(PrefixText(status), clock)])
            && (status != "confirmed" && Field(task, DateField) == "" ==> r == task[StatusField := status])
  {
    var writes := StatusWrites(task, status, accepted, clock);
    if |writes| == 1 {
      OneWriteAgrees(task, writes[0]);
    } else if |writes| == 2 {
      TwoWrites(task, writes[0], writes[1]);
    }
  }

  /** Choosing a date: while not confirmed, a non-empty date is stored and
      the number regenerated with the current status (provisional when none);
      otherwise only the date changes. */
  lemma DateChangeRules(task: map<string, string>, newDate: string, clock: TaskNumbers.Clock)
    ensures var r := Apply(task, DateWrites(task, newDate, clock));
            && (Field(task, StatusField) != "confirmed" && newDate != "" ==>
                  r == task[DateField := newDate][NumberField := TaskNumbers.GenerateTaskNumber(PrefixText(EffectiveStatus(task)), clock)])
            && (Field(task, StatusField) == "confirmed" || newDate == "" ==> r == task[DateField := newDate])
  {
    var writes := DateWrites(task, newDate, clock);
    if |writes| == 1 {
      OneWriteAgrees(task, writes[0]);
    } else {
      TwoWrites(task, writes[0], writes[1]);
    }
  }

  /** As written, a new draft that is set to confirmed, given a date and
      then set to military shows the military number but keeps the confirmed
      status, so it is submitted as a confirmed task; applying every write
      gives the military status the user chose. */
  lemma StaleStatusChangeLosesStatus(initial: map<string, string>, date: string, clock: TaskNumbers.Clock)
    requires date != ""
    ensures var t1 := ApplyStale(initial, StatusWrites(initial, "confirmed", true, clock));
            var t2 := ApplyStale(t1, DateWrites(t1, date, clock));
            var stale := ApplyStale(t2, StatusWrites(t2, "military", true, clock));
            && Field(stale, StatusField) == "confirmed"
            && Field(stale, DateField) == date
            && Field(stale, NumberField) == TaskNumbers.GenerateTaskNumber("MIL", clock)
    ensures var t1 := Apply(initial, StatusWrites(initial, "confirmed", true, clock));
            var t2 := Apply(t1, DateWrites(t1, date, clock));
            var applied := Apply(t2, StatusWrites(t2, "military", true, clock));
            && Field(applied, StatusField) == "military"
            && Field(applied, DateField) == date
            && Field(applied, NumberField) == TaskNumbers.GenerateTaskNumber("MIL", clock)
  {
    var t1 := ApplyStale(initial, StatusWrites(initial, "confirmed", true, clock));
    StatusChangeRules(initial, "confirmed", true, clock);
    assert t1 == initial[StatusField := "confirmed"];
    var t2 := ApplyStale(t1, DateWrites(t1, date, clock));
    DateChangeRules(t1, date, clock);
    assert t2 == t1[DateField := date];
    StatusChangeRules(t2, "military", true, clock);
    assert Field(t2, DateField) != "";
  }

  /** As written, a date change with a regenerated number drops the date from
      the draft; submitted straight away, the record is still the same,
      because submission takes the form's own copy of the date. */
  lemma StaleDateChangeHarmless(task: map<string, string>, newDate: string, clock: TaskNumbers.Clock)
    ensures ApplyStale(task, DateWrites(task, newDate, clock))[DateField := newDate]
            == Apply(task, DateWrites(task, newDate, clock))[DateField := newDate]
  {
    DateChangeRules(task, newDate, clock);
  }

  /** The lost date is not harmless once another status is chosen: in a
      provisional draft without a date, a date and then military leave the
      draft, as written, on the provisional number, because the status
      handler no longer sees a date; applying every write gives the military
      number. The server mints its own number on creation, so the stored
      task is the same either way. */
  lemma StaleDateThenStatus(initial: map<string, string>, date: string, clock: TaskNumbers.Clock)
    requires Field(initial, StatusField) == "provisional" && Field(initial, DateField) == "" && date != ""
    ensures var t1 := ApplyStale(initial, DateWrites(initial, date, clock));
            var stale := ApplyStale(t1, StatusWrites(t1, "military", true, clock));
            && Field(stale, StatusField) == "military"
            && Field(stale, DateField) == ""
            && Field(stale, NumberField) == TaskNumbers.GenerateTaskNumber("PROV", clock)
    ensures var t1 := Apply(initial, DateWrites(initial, date, clock));
            var applied := Apply(t1, StatusWrites(t1, "military", true, clock));
            && Field(applied, StatusField) == "military"
            && Field(applied, DateField) == date
            && Field(applied, NumberField) == TaskNumbers.GenerateTaskNumber("MIL", clock)
    ensures TaskNumbers.GenerateTaskNumber("PROV", clock) != TaskNumbers.GenerateTaskNumber("MIL", clock)
  {
    assert PrefixText("provisional") == "PROV" && PrefixText("military") == "MIL";
    var s1 := ApplyStale(initial, DateWrites(initial, date, clock));
    DateChangeRules(initial, date, clock);
    assert s1 == initial[NumberField := TaskNumbers.GenerateTaskNumber("PROV", clock)];
    StatusChangeRules(s1, "military", true, clock);
    var a1 := Apply(initial, DateWrites(initial, date, clock));
    StatusChangeRules(a1, "military", true, clock);
    assert '/' !in "PROV" && '/' !in "MIL";
    assert Split(TaskNumbers.GenerateTaskNumber("PROV", clock), '/')[0] == "PROV";
    assert Split(TaskNumbers.GenerateTaskNumber("MIL", clock), '/')[0] == "MIL";
  }

  /** The form with every write of a handler applied in order: the corrected
      behaviour. The code as written is `ApplyStale`. */
  class AddTaskForm {
    /** The parent's `newTask`. */
    var task: map<string, string>
    /** `localDate`. */
    var localDate: string

    constructor(initial: map<string, string>)
      ensures task == initial && localDate == Field(initial, DateField)
    {
      task := initial;
      localDate := Field(initial, DateField);
    }

    /** `handleStatusChange(status)`, with the writes applied in order. */
    method HandleStatusChange(status: string, accepted: bool, clock: TaskNumbers.Clock)
      modifies this
      ensures task == Apply(old(task), StatusWrites(old(task), status, accepted, clock))
      ensures status == "confirmed" ==> Field(task, NumberField) == Field(old(task), NumberField)
      ensures status == "confirmed" && !accepted ==> task == old(task)
      ensures status != "confirmed" || accepted ==> Field(task, StatusField) == status
      ensures localDate == old(localDate)
    {
      StatusChangeRules(task, status, accepted, clock);
      if status == "confirmed" {
        if !accepted {
          return;
        }
        task := task[StatusField := status];
      } else if Field(task, DateField) != "" {
        var number := TaskNumbers.GenerateTaskNumber(PrefixText(status), clock);
        task := task[StatusField := status];
        task := task[NumberField := number];
      } else {
        task := task[StatusField := status];
      }
    }

    /** `handleDateChange`: the form's date is set, and the draft gets the
        writes in order. */
    method HandleDateChange(newDate: string, clock: TaskNumbers.Clock)
      modifies this
      ensures localDate == newDate
      ensures task == Apply(old(task), DateWrites(old(task), newDate, clock))
      ensures Field(task, DateField) == newDate
      ensures Field(old(task), StatusField) != "confirmed" && newDate != "" ==>
                Field(task, NumberField) == TaskNumbers.GenerateTaskNumber(PrefixText(EffectiveStatus(old(task))), clock)
      ensures Field(old(task), StatusField) == "confirmed" || newDate == "" ==>
                Field(task, NumberField) == Field(old(task), NumberField)
    {
      localDate := newDate;
      DateChangeRules(task, newDate, clock);
      if Field(task, StatusField) != "confirmed" && newDate != "" {
        var number := TaskNumbers.GenerateTaskNumber(PrefixText(EffectiveStatus(task)), clock);
        task := task[DateField := newDate];
        task := task[NumberField := number];
      } else {
        task := task[DateField := newDate];
      }
    }

    /** `handleSubmit`: the draft with the form's date. */
    method Submit() returns (sent: map<string, string>)
      ensures sent == task[DateField := localDate]
      ensures Field(sent, DateField) == localDate
      ensures forall k :: k in task && k != DateField ==> k in sent && sent[k] == task[k]
    {
      sent := task[DateField := localDate];
    }
  }
}

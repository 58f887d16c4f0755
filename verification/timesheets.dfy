/** The timesheet record and how it is derived: `composeEntry` merges a
    validated body over the previous record, recomputes the derived minutes
    and the search text and stamps the author; `stripInternalFields` and
    `buildMovementPayload` are the two views of a stored record that leave
    the server. */
module Timesheets {
  import opened Common
  import opened Strings
  import opened Json
  import opened Schemas
  import opened TimeOfDay
  import opened Permissions

  /** The user a record is booked for, as `resolveOwner` returns it. */
  datatype Owner = Owner(userId: string, username: string, displayName: string)

  /** The fields `composeEntry` writes. A date or time that neither the body
      nor the previous record supplies is ''; instants are milliseconds. */
  datatype Entry = Entry(
    userId: string,
    userDisplayName: string,
    username: string,
    date: string,
    startTime: string,
    endTime: string,
    startMinutes: Option<int>,
    durationMinutes: int,
    nightMinutes: int,
    holidayMinutes: int,
    isHoliday: bool,
    client: string,
    task: string,
    workOrder: string,
    updatedAt: int,
    updatedBy: string,
    updatedByName: string,
    searchText: string)

  /** A stored document: the entry plus the creation stamps, which only the
      create and update handlers write. */
  datatype Record = Record(entry: Entry, createdAt: Option<int>, createdBy: string, createdByName: string)

  /** A document with its id, as `serializeDoc` returns it. */
  datatype Doc = Doc(id: string, record: Record)

  /** `previous = {}`: every field reads as missing. */
  const NoPrevious := Entry("", "", "", "", "", "", None, 0, 0, 0, false, "", "", "", 0, "", "", "")

  /** The seven fields `composeEntry` merges before deriving anything. */
  datatype Base = Base(
    date: string,
    startTime: string,
    endTime: string,
    client: string,
    task: string,
    workOrder: string,
    isHoliday: bool)

  /** Each field of the body wins when present (`??`), otherwise the previous
      record's, otherwise '' or false. */
  function MergeBase(previous: Option<Entry>, input: TimesheetInput): Base {
    var p := if previous.Some? then previous.value else NoPrevious;
    Base(
      input.date.GetOr(p.date),
      input.startTime.GetOr(p.startTime),
      input.endTime.GetOr(p.endTime),
      input.client.GetOr(p.client),
      input.task.GetOr(p.task),
      input.workOrder.GetOr(p.workOrder),
      input.isHoliday.GetOr(p.isHoliday))
  }

  /** `actor.displayName || actor.username || 'Sistema'`. */
  function ActorName(actor: Principal): (r: string)
    ensures r != ""
  {
    OrElse(OrElse(actor.displayName, actor.username), "Sistema")
  }

  /** `lower(value)`: trimmed, then lower-cased. */
  function LowerTrim(s: string): string {
    Lower(Trim(s))
  }

  /** `buildSearchText`: the six fields joined by single spaces, trimmed and
      lower-cased. */
  function SearchText(date: string, client: string, task: string, workOrder: string,
                      userDisplayName: string, username: string): string
  {
    LowerTrim(Join([date, client, task, workOrder, userDisplayName, username], " "))
  }

  function SearchTextOf(e: Entry): string {
    SearchText(e.date, e.client, e.task, e.workOrder, e.userDisplayName, e.username)
  }

  /** What every composed entry satisfies: both times parse, the derived
      minutes are the ones the clock functions give for them, the text
      fields are trimmed and the search text is built from the entry. */
  predicate Derived(e: Entry) {
    var s := ParseTimeToMinutes(e.startTime);
    var t := ParseTimeToMinutes(e.endTime);
    s.Some? && t.Some?
    && e.startMinutes == s
    && e.durationMinutes == ComputeDuration(s.value, t.value)
    && e.nightMinutes == NightMinutes(s.value, t.value)
    && e.holidayMinutes == (if e.isHoliday then e.durationMinutes else 0)
    && Trim(e.client) == e.client && Trim(e.task) == e.task && Trim(e.workOrder) == e.workOrder
    && e.searchText == SearchTextOf(e)
  }

  /** The derivation half of `composeEntry`, on the merged fields: parse both
      times ('Horarios invalidos' when one does not parse), derive duration,
      night and holiday minutes, trim the text fields, stamp the author and
      build the search text. */
  function Derive(base: Base, owner: Owner, actor: Principal, now: int): (r: Result<Entry, string>)
    ensures r.Ok? <==> ParseTimeToMinutes(base.startTime).Some? && ParseTimeToMinutes(base.endTime).Some?
    ensures r.Err? ==> r.error == "Horarios invalidos"
    ensures r.Ok? ==>
      Derived(r.value)
      && r.value.userId == owner.userId && r.value.username == owner.username
      && r.value.userDisplayName == owner.displayName
      && r.value.date == base.date && r.value.startTime == base.startTime && r.value.endTime == base.endTime
      && r.value.isHoliday == base.isHoliday
      && r.value.client == Trim(base.client) && r.value.task == Trim(base.task)
      && r.value.workOrder == Trim(base.workOrder)
      && r.value.updatedAt == now && r.value.updatedBy == actor.uid && r.value.updatedByName == ActorName(actor)
  {
    var startMinutes := ParseTimeToMinutes(base.startTime);
    var endMinutes := ParseTimeToMinutes(base.endTime);
    if startMinutes.None? || endMinutes.None? then Err("Horarios invalidos")
    else
      var durationMinutes := ComputeDuration(startMinutes.value, endMinutes.value);
      if durationMinutes <= 0 then Err("La duracion debe ser mayor a 0")
      else
        var client := Trim(base.client);
        var task := Trim(base.task);
        var workOrder := Trim(base.workOrder);
        TrimIdempotent(base.client);
        TrimIdempotent(base.task);
        TrimIdempotent(base.workOrder);
        Ok(Entry(
          owner.userId, owner.displayName, owner.username,
          base.date, base.startTime, base.endTime,
          startMinutes, durationMinutes, NightMinutes(startMinutes.value, endMinutes.value),
          if base.isHoliday then durationMinutes else 0,
          base.isHoliday, client, task, workOrder,
          now, actor.uid, ActorName(actor),
          SearchText(base.date, client, task, workOrder, owner.displayName, owner.username)))
  }

  /** `composeEntry`: the body merged over the previous record, then derived. */
  function Compose(previous: Option<Entry>, input: TimesheetInput, owner: Owner, actor: Principal, now: int): Result<Entry, string> {
    Derive(MergeBase(previous, input), owner, actor, now)
  }

  /** The derived minutes of a composed entry are in range: a shift lasts 1
      to 1440 minutes, its night minutes are at most its length, and its
      holiday minutes are all of it or nothing. */
  lemma DerivedBounds(e: Entry)
    requires Derived(e)
    ensures 1 <= e.durationMinutes <= DayMinutes
    ensures 0 <= e.nightMinutes <= e.durationMinutes
    ensures e.holidayMinutes == 0 || e.holidayMinutes == e.durationMinutes
    ensures e.startMinutes.Some? && 0 <= e.startMinutes.value < DayMinutes
  {
    var s := ParseTimeToMinutes(e.startTime).value;
    var t := ParseTimeToMinutes(e.endTime).value;
    DurationProperties(s, t);
    NightMinutesCountsNight(s, t);
  }

  /** The guard 'La duracion debe ser mayor a 0' never fires: whenever both
      times parse, the composition succeeds. */
  lemma DurationGuardUnreachable(previous: Option<Entry>, input: TimesheetInput, owner: Owner, actor: Principal, now: int)
    requires ParseTimeToMinutes(MergeBase(previous, input).startTime).Some?
    requires ParseTimeToMinutes(MergeBase(previous, input).endTime).Some?
    ensures Compose(previous, input, owner, actor, now).Ok?
  {
  }

  /** Every body the create schema accepts composes without error, since an
      accepted clock string always parses. */
  lemma CreateBodyComposes(body: seq<(string, Value)>, owner: Owner, actor: Principal, now: int)
    requires ValidateTimesheet(body).Ok?
    ensures Compose(None, ValidateTimesheet(body).value, owner, actor, now).Ok?
  {
    var v := ValidateTimesheet(body).value;
    assert TimePattern(v.startTime.value) && TimePattern(v.endTime.value);
    PatternTimesCompose(v, owner, actor, now);
  }

  lemma PatternTimesCompose(v: TimesheetInput, owner: Owner, actor: Principal, now: int)
    requires v.startTime.Some? && v.endTime.Some?
    requires TimePattern(v.startTime.value) && TimePattern(v.endTime.value)
    ensures Compose(None, v, owner, actor, now).Ok?
  {
    var b := MergeBase(None, v);
    assert b.startTime == v.startTime.value && b.endTime == v.endTime.value;
    ParseAcceptedTime(b.startTime);
    ParseAcceptedTime(b.endTime);
  }

  /** Composing again over a composed entry, with nothing supplied and the
      same owner, reproduces it except for the new stamps. */
  lemma ComposeStable(e: Entry, actor: Principal, now: int)
    requires Derived(e)
    ensures Compose(Some(e), NoInput, Owner(e.userId, e.username, e.userDisplayName), actor, now)
            == Ok(e.(updatedAt := now, updatedBy := actor.uid, updatedByName := ActorName(actor)))
  {
  }

  /** An update body that omits client, task, workOrder and isHoliday still
      carries the schema's defaults (`EmptyUpdateBodyDefaults`), so they
      replace the previous values:
      the entry loses its client, task and work order and stops being a
      holiday, while date and times are inherited. */
  lemma UpdateDefaultsOverwrite(previous: Entry, owner: Owner, actor: Principal, now: int)
    requires ParseTimeToMinutes(previous.startTime).Some? && ParseTimeToMinutes(previous.endTime).Some?
    ensures var r := Compose(Some(previous), UpdateDefaults, owner, actor, now);
      r.Ok? && r.value.client == "" && r.value.task == "" && r.value.workOrder == ""
      && !r.value.isHoliday && r.value.holidayMinutes == 0
      && r.value.date == previous.date && r.value.startTime == previous.startTime
      && r.value.endTime == previous.endTime
  {
    var empty := "";
    var b := Base(previous.date, previous.startTime, previous.endTime, empty, empty, empty, false);
    assert MergeBase(Some(previous), UpdateDefaults) == b;
    assert Trim(empty) == empty;
    var r := Derive(b, owner, actor, now);
    assert r.Ok? && Derived(r.value);
  }

  // ---------------------------------------------------------------- outgoing views

  /** A stored document as a plain object: its id, then the entry's fields
      in the order `composeEntry` writes them, then the creation stamps. */
  function DocFields(d: Doc): seq<(string, Value)> {
    var e := d.record.entry;
    [("id", JStr(d.id)),
     ("userId", JStr(e.userId)), ("userDisplayName", JStr(e.userDisplayName)), ("username", JStr(e.username)),
     ("date", JStr(e.date)), ("startTime", JStr(e.startTime)), ("endTime", JStr(e.endTime))]
    + (if e.startMinutes.Some? then [("startMinutes", JNum(e.startMinutes.value))] else [])
    + [("durationMinutes", JNum(e.durationMinutes)), ("nightMinutes", JNum(e.nightMinutes)),
       ("holidayMinutes", JNum(e.holidayMinutes)), ("isHoliday", JBool(e.isHoliday)),
       ("client", JStr(e.client)), ("task", JStr(e.task)), ("workOrder", JStr(e.workOrder)),
       ("updatedAt", JNum(e.updatedAt)), ("updatedBy", JStr(e.updatedBy)),
       ("updatedByName", JStr(e.updatedByName)), ("searchText", JStr(e.searchText))]
    + (if d.record.createdAt.Some? then [("createdAt", JNum(d.record.createdAt.value))] else [])
    + [("createdBy", JStr(d.record.createdBy)), ("createdByName", JStr(d.record.createdByName))]
  }

  /** `stripInternalFields`: the object without `searchText` and
      `startMinutes`, every other pair kept in order. */
  function StripInternalFields(fields: seq<(string, Value)>): (r: seq<(string, Value)>)
    ensures |r| <= |fields|
    ensures Get(r, "searchText").None? && Get(r, "startMinutes").None?
    ensures forall p :: p in r ==> p in fields
  {
    GetRemove(Remove(fields, "searchText"), "startMinutes", "searchText");
    GetRemove(fields, "searchText", "searchText");
    Remove(Remove(fields, "searchText"), "startMinutes")
  }

  /** Stripping hides exactly the two internal fields. */
  lemma StripHidesInternal(fields: seq<(string, Value)>, k: string)
    ensures Get(StripInternalFields(fields), k)
            == if k == "searchText" || k == "startMinutes" then None else Get(fields, k)
  {
    GetRemove(Remove(fields, "searchText"), "startMinutes", k);
    GetRemove(fields, "searchText", k);
  }

  /** The thirteen fixed fields of `buildMovementPayload`, with the record
      id already chosen. */
  function PayloadBase(d: Doc, timesheetId: Value): (r: seq<(string, Value)>)
    ensures |r| == 13
    ensures forall i :: 0 <= i < 13 ==> r[i].0 == PayloadKeys[i]
  {
    var e := d.record.entry;
    [("timesheetId", timesheetId),
     ("userId", JStr(e.userId)),
     ("userDisplayName", JStr(OrElse(e.userDisplayName, e.username))),
     ("username", JStr(e.username)),
     ("date", JStr(e.date)),
     ("startTime", JStr(e.startTime)),
     ("endTime", JStr(e.endTime)),
     ("client", JStr(e.client)),
     ("task", JStr(e.task)),
     ("workOrder", JStr(e.workOrder)),
     ("durationMinutes", JNum(e.durationMinutes)),
     ("nightMinutes", JNum(e.nightMinutes)),
     ("isHoliday", JBool(e.isHoliday))]
  }

  const PayloadKeys: seq<string> := [
    "timesheetId", "userId", "userDisplayName", "username", "date", "startTime", "endTime",
    "client", "task", "workOrder", "durationMinutes", "nightMinutes", "isHoliday"]

  /** `buildMovementPayload(entry, overrides)`: the fixed fields, the id
      taken from a truthy `overrides.timesheetId` or else the record, and the
      overrides spread last. */
  function MovementPayload(d: Doc, overrides: seq<(string, Value)>): seq<(string, Value)> {
    var given := Get(overrides, "timesheetId");
    Spread(PayloadBase(d, if given.Some? && Truthy(given.value) then given.value else JStr(d.id)), overrides)
  }

  lemma PayloadBaseKeys(d: Doc, v: Value)
    ensures "searchText" !in Keys(PayloadBase(d, v))
    ensures "startMinutes" !in Keys(PayloadBase(d, v))
  {
    var base := PayloadBase(d, v);
    forall i | 0 <= i < |base|
      ensures base[i].0 != "searchText" && base[i].0 != "startMinutes"
    {
      assert base[i].0 == PayloadKeys[i];
    }
  }

  /** The audit payload never carries the search text or the start minute
      unless an override puts them there. */
  lemma PayloadHidesInternal(d: Doc, overrides: seq<(string, Value)>)
    requires UniqueKeys(overrides)
    requires "searchText" !in Keys(overrides) && "startMinutes" !in Keys(overrides)
    ensures Get(MovementPayload(d, overrides), "searchText") == None
    ensures Get(MovementPayload(d, overrides), "startMinutes") == None
  {
    var given := Get(overrides, "timesheetId");
    var id := if given.Some? && Truthy(given.value) then given.value else JStr(d.id);
    var base := PayloadBase(d, id);
    assert MovementPayload(d, overrides) == Spread(base, overrides);
    PayloadBaseKeys(d, id);
    GetSpread(base, overrides, "searchText");
    GetSpread(base, overrides, "startMinutes");
  }

  /** Without overrides, as every handler calls it, the payload names the
      record by its own id and the user by display name, falling back to
      the username. */
  lemma PayloadWithoutOverrides(d: Doc)
    ensures Get(MovementPayload(d, []), "timesheetId") == Some(JStr(d.id))
    ensures Get(MovementPayload(d, []), "userDisplayName")
            == Some(JStr(OrElse(d.record.entry.userDisplayName, d.record.entry.username)))
  {
    var base := PayloadBase(d, JStr(d.id));
    assert MovementPayload(d, []) == base;
    var name := JStr(OrElse(d.record.entry.userDisplayName, d.record.entry.username));
    assert base[0] == ("timesheetId", JStr(d.id));
    assert base[1].0 == "userId" != "userDisplayName";
    assert base[2] == ("userDisplayName", name);
    assert Get(base[2..], "userDisplayName") == Some(name);
    assert base[1..][1..] == base[2..];
    assert Get(base[1..], "userDisplayName") == Some(name);
  }
}

/** The write side of the timesheets collection: `createTimesheetEntry`,
    `updateTimesheetEntry` and `deleteTimesheetEntry`. The collection is a
    map from document id to stored record, the audit log a sequence of
    movements; both live in a `Store` object the three handlers update in
    place. Each handler is proved against a specification function that
    says what it writes, and the authority rules are lemmas about those
    functions. */
module TimesheetStore {
  import opened Common
  import opened Strings
  import opened Json
  import opened Schemas
  import opened TimeOfDay
  import opened Permissions
  import opened Timesheets
  import opened Http

  // ---------------------------------------------------------------- the audit log

  /** An audit-log document as `logMovement` writes it (`author` is its `by`
      field); `at` is the server time of the write. */
  datatype Movement = Movement(
    entity: string,
    entityId: string,
    kind: string,
    payload: seq<(string, Value)>,
    author: string,
    at: int)

  /** The log entry a handler writes for record `id`. */
  function Logged(kind: string, d: Doc, actor: Principal, now: int): Movement {
    Movement("timesheets", d.id, kind, MovementPayload(d, []), actor.username, now)
  }

  /** What a handler answers with a record: the document without its
      internal fields. */
  function Visible(d: Doc): Value {
    JObj(StripInternalFields(DocFields(d)))
  }

  // ---------------------------------------------------------------- owner and authority

  /** A stored user document; a missing field is ''. */
  datatype UserDoc = UserDoc(username: string, displayName: string)

  /** `resolveOwner(userId, actor)`: the target is the given id or else the
      actor's. The actor resolves to itself when it has a username; any
      other target must have a user document. Names fall back to the id
      and to 'Usuario'. */
  function ResolveOwner(userId: string, actor: Principal, users: map<string, UserDoc>): (r: Result<Owner, string>)
    ensures r.Err? ==> r.error == "Usuario no encontrado"
    ensures r.Ok? <==>
      OrElse(userId, actor.uid) != ""
      && ((OrElse(userId, actor.uid) == actor.uid && actor.username != "") || OrElse(userId, actor.uid) in users)
    ensures r.Ok? ==>
      r.value.userId == OrElse(userId, actor.uid)
      && r.value.userId != "" && r.value.username != "" && r.value.displayName != ""
  {
    var target := OrElse(userId, actor.uid);
    if target == "" then Err("Usuario no encontrado")
    else if target == actor.uid && actor.username != "" then
      Ok(Owner(actor.uid, actor.username, OrElse(OrElse(actor.displayName, actor.username), "Usuario")))
    else if target !in users then Err("Usuario no encontrado")
    else
      var u := users[target];
      Ok(Owner(target, OrElse(u.username, target), OrElse(OrElse(u.displayName, u.username), "Usuario")))
  }

  /** The `timesheets.manage` flag: the only thing that lifts the owner and
      window rules. */
  predicate CanManage(actor: Principal) {
    HasPermission(actor.permissions, ManageFlag)
  }

  const ManageFlag := "timesheets.manage"

  /** Days from 1970-01-01 to a proleptic Gregorian date; a day past the
      end of its month runs on into the next one. */
  function DaysFromCivil(y: int, m: int, d: int): int
    requires 1 <= m <= 12
  {
    var y' := if m <= 2 then y - 1 else y;
    var era := y' / 400;
    var yoe := y' - era * 400;
    var mp := if m > 2 then m - 3 else m + 9;
    var doy := (153 * mp + 2) / 5 + d - 1;
    var doe := yoe * 365 + yoe / 4 - yoe / 100 + doy;
    era * 146097 + doe - 719468
  }

  /** `new Date(date + 'T00:00:00Z').getTime()` for a date of the form
      YYYY-MM-DD: midnight UTC in milliseconds when the month is 1-12 and
      the day 1-31, and an invalid date (None) otherwise. */
  function MidnightMs(date: string): Option<int> {
    if !DatePattern(date) then None
    else
      var y := DigitValue(date[0]) * 1000 + DigitValue(date[1]) * 100 + DigitValue(date[2]) * 10 + DigitValue(date[3]);
      var m := DigitValue(date[5]) * 10 + DigitValue(date[6]);
      var d := DigitValue(date[8]) * 10 + DigitValue(date[9]);
      if 1 <= m <= 12 && 1 <= d <= 31 then Some(DaysFromCivil(y, m, d) * DayMs) else None
  }

  /** The instant the 24-hour window starts from: `createdAt`, else the
      record's date at 00:00 UTC, else nothing. */
  datatype Anchor = NoAnchor | InvalidDate | At(ms: int)

  function EditAnchor(r: Record): Anchor {
    if r.createdAt.Some? then At(r.createdAt.value)
    else if r.entry.date == "" then NoAnchor
    else match MidnightMs(r.entry.date)
      case Some(t) => At(t)
      case None => InvalidDate
  }

  /** The window test of the update handler: refused without an anchor or
      when more than a day has passed; an invalid date compares as NaN, so
      the test `now - t > DAY_IN_MS` is false and the edit goes through. */
  predicate WithinWindow(r: Record, now: int) {
    match EditAnchor(r)
    case NoAnchor => false
    case InvalidDate => true
    case At(t) => now - t <= DayMs
  }

  // ---------------------------------------------------------------- specifications of the handlers

  /** The record `createTimesheetEntry` stores, or why it refuses. */
  function CreateSpec(actor: Principal, body: seq<(string, Value)>, users: map<string, UserDoc>, now: int): Result<Record, Failure> {
    var v := ValidateTimesheet(body);
    if v.Err? then Err(Failure(400, v.error.field))
    else CreateFor(v.value, actor, users, now)
  }

  /** The create handler once the body is validated: a manager books for the
      user the body names, anybody else for themselves. */
  function CreateFor(v: TimesheetInput, actor: Principal, users: map<string, UserDoc>, now: int): Result<Record, Failure> {
    var target := if CanManage(actor) then v.userId.GetOr("") else actor.uid;
    var owner := ResolveOwner(target, actor, users);
    if owner.Err? then Err(Failure(400, owner.error))
    else CreateRecord(v, owner.value, actor, now)
  }

  /** The create handler once the owner is resolved: the composed entry,
      stamped with the creation instant and the actor. */
  function CreateRecord(v: TimesheetInput, owner: Owner, actor: Principal, now: int): Result<Record, Failure> {
    var data := Compose(None, v, owner, actor, now);
    if data.Err? then Err(Failure(400, data.error))
    else Ok(Record(data.value, Some(now), actor.uid, ActorName(actor)))
  }

  /** The record `updateTimesheetEntry` writes over `existing`, or why it
      refuses. */
  function UpdateSpec(existing: Record, actor: Principal, body: seq<(string, Value)>, users: map<string, UserDoc>, now: int): Result<Record, Failure> {
    if !CanManage(actor) && existing.entry.userId != actor.uid then
      Err(Failure(403, "No podes editar este registro"))
    else if !CanManage(actor) && !WithinWindow(existing, now) then
      Err(Failure(403, "Solo podes editar durante las primeras 24 horas"))
    else
      var v := ValidateTimesheetUpdate(body);
      if v.Err? then Err(Failure(400, v.error.field))
      else UpdateFor(existing, v.value, actor, users, now)
  }

  /** The update handler once the body is validated: only a manager may move
      the record to another user. */
  function UpdateFor(existing: Record, v: TimesheetInput, actor: Principal, users: map<string, UserDoc>, now: int): Result<Record, Failure> {
    var target := if CanManage(actor) then OrElse(v.userId.GetOr(""), existing.entry.userId) else existing.entry.userId;
    var owner := ResolveOwner(target, actor, users);
    if owner.Err? then Err(Failure(400, owner.error))
    else UpdateRecord(existing, v, owner.value, actor, now)
  }

  /** The update handler once the owner is resolved: the entry composed over
      the stored one, with the creation stamps kept or filled in. */
  function UpdateRecord(existing: Record, v: TimesheetInput, owner: Owner, actor: Principal, now: int): Result<Record, Failure> {
    var data := Compose(Some(existing.entry), v, owner, actor, now);
    if data.Err? then Err(Failure(400, data.error))
    else Ok(Record(data.value,
                   Some(existing.createdAt.GetOr(now)),
                   OrElse(existing.createdBy, owner.userId),
                   OrElse(existing.createdByName, owner.displayName)))
  }

  /** Whether `deleteTimesheetEntry` may remove `existing`: managers always,
      others only their own records, at any time. */
  predicate MayDelete(existing: Record, actor: Principal) {
    CanManage(actor) || existing.entry.userId == actor.uid
  }

  /** A record as the handlers leave it: composed, with a date of the
      schema's shape. */
  predicate Consistent(r: Record) {
    Derived(r.entry) && DatePattern(r.entry.date)
  }

  // ---------------------------------------------------------------- the collection

  class Store {
    var records: map<string, Record>
    var movements: seq<Movement>

    /** Every stored record is well formed. */
    predicate Valid()
      reads this
    {
      forall id {:trigger Consistent(records[id])} :: id in records ==> Consistent(records[id])
    }

    /** A collection holding `initial` (records written earlier, possibly
        without creation stamps) and an empty log. */
    constructor (initial: map<string, Record>)
      requires forall id {:trigger Consistent(initial[id])} :: id in initial ==> Consistent(initial[id])
      ensures Valid()
      ensures records == initial && movements == []
    {
      records := initial;
      movements := [];
    }

    /** Writes `d` to the collection and appends its movement to the log,
        which is how every successful write handler ends. */
    method Save(d: Doc, kind: string, actor: Principal, now: int)
      requires Valid() && Consistent(d.record)
      modifies this
      ensures Valid()
      ensures records == old(records)[d.id := d.record]
      ensures movements == old(movements) + [Logged(kind, d, actor, now)]
    {
      records := records[d.id := d.record];
      movements := movements + [Logged(kind, d, actor, now)];
    }

    /** `createTimesheetEntry`, storing under the fresh id `newId`. */
    method Create(actor: Principal, body: seq<(string, Value)>, users: map<string, UserDoc>, now: int, newId: string)
      returns (reply: Reply)
      requires Valid() && newId !in records
      modifies this
      ensures Valid()
      ensures CreateSpec(actor, body, users, now).Err? ==>
        reply == Failed(CreateSpec(actor, body, users, now).error)
        && records == old(records) && movements == old(movements)
      ensures CreateSpec(actor, body, users, now).Ok? ==>
        var d := Doc(newId, CreateSpec(actor, body, users, now).value);
        reply == Reply(201, Visible(d))
        && records == old(records)[newId := d.record]
        && movements == old(movements) + [Logged("create", d, actor, now)]
    {
      var v := ValidateTimesheet(body);
      if v.Err? {
        reply := Failed(Failure(400, v.error.field));
        return;
      }
      var canManage := CanManage(actor);
      assert CreateSpec(actor, body, users, now) == CreateFor(v.value, actor, users, now);
      var owner := ResolveOwner(if canManage then v.value.userId.GetOr("") else actor.uid, actor, users);
      if owner.Err? {
        reply := Failed(Failure(400, owner.error));
        return;
      }
      assert CreateFor(v.value, actor, users, now) == CreateRecord(v.value, owner.value, actor, now);
      var data := Compose(None, v.value, owner.value, actor, now);
      if data.Err? {
        reply := Failed(Failure(400, data.error));
        return;
      }
      var created := Doc(newId, Record(data.value, Some(now), actor.uid, ActorName(actor)));
      assert CreateSpec(actor, body, users, now) == Ok(created.record);
      CreateConsistent(actor, body, users, now);
      Save(created, "create", actor, now);
      reply := Reply(201, Visible(created));
    }

    /** `updateTimesheetEntry` on document `id`. */
    method Update(actor: Principal, id: string, body: seq<(string, Value)>, users: map<string, UserDoc>, now: int)
      returns (reply: Reply)
      requires Valid()
      modifies this
      ensures Valid()
      ensures id !in old(records) ==>
        reply == Failed(Failure(404, "Registro no encontrado"))
        && records == old(records) && movements == old(movements)
      ensures id in old(records) && UpdateSpec(old(records)[id], actor, body, users, now).Err? ==>
        reply == Failed(UpdateSpec(old(records)[id], actor, body, users, now).error)
        && records == old(records) && movements == old(movements)
      ensures id in old(records) && UpdateSpec(old(records)[id], actor, body, users, now).Ok? ==>
        var d := Doc(id, UpdateSpec(old(records)[id], actor, body, users, now).value);
        reply == Reply(200, Visible(d))
        && records == old(records)[id := d.record]
        && movements == old(movements) + [Logged("update", d, actor, now)]
    {
      if id !in records {
        reply := Failed(Failure(404, "Registro no encontrado"));
        return;
      }
      var existing := records[id];
      var canManage := CanManage(actor);
      if !canManage {
        if existing.entry.userId != actor.uid {
          reply := Failed(Failure(403, "No podes editar este registro"));
          return;
        }
        if !WithinWindow(existing, now) {
          reply := Failed(Failure(403, "Solo podes editar durante las primeras 24 horas"));
          return;
        }
      }
      var v := ValidateTimesheetUpdate(body);
      if v.Err? {
        assert UpdateSpec(existing, actor, body, users, now) == Err(Failure(400, v.error.field));
        reply := Failed(Failure(400, v.error.field));
        return;
      }
      assert UpdateSpec(existing, actor, body, users, now) == UpdateFor(existing, v.value, actor, users, now);
      var target := if canManage then OrElse(v.value.userId.GetOr(""), existing.entry.userId) else existing.entry.userId;
      var owner := ResolveOwner(target, actor, users);
      if owner.Err? {
        assert UpdateFor(existing, v.value, actor, users, now) == Err(Failure(400, owner.error));
        reply := Failed(Failure(400, owner.error));
        return;
      }
      assert UpdateFor(existing, v.value, actor, users, now) == UpdateRecord(existing, v.value, owner.value, actor, now);
      var data := Compose(Some(existing.entry), v.value, owner.value, actor, now);
      if data.Err? {
        assert UpdateRecord(existing, v.value, owner.value, actor, now) == Err(Failure(400, data.error));
        reply := Failed(Failure(400, data.error));
        return;
      }
      var updated := Doc(id, Record(data.value,
                                    Some(existing.createdAt.GetOr(now)),
                                    OrElse(existing.createdBy, owner.value.userId),
                                    OrElse(existing.createdByName, owner.value.displayName)));
      assert UpdateSpec(existing, actor, body, users, now) == Ok(updated.record);
      UpdateConsistent(existing, actor, body, users, now);
      Save(updated, "update", actor, now);
      reply := Reply(200, Visible(updated));
    }

    /** `deleteTimesheetEntry` on document `id`. */
    method Delete(actor: Principal, id: string, now: int) returns (reply: Reply)
      requires Valid()
      modifies this
      ensures Valid()
      ensures id !in old(records) ==>
        reply == Failed(Failure(404, "Registro no encontrado"))
        && records == old(records) && movements == old(movements)
      ensures id in old(records) && !MayDelete(old(records)[id], actor) ==>
        reply == Failed(Failure(403, "No podes eliminar este registro"))
        && records == old(records) && movements == old(movements)
      ensures id in old(records) && MayDelete(old(records)[id], actor) ==>
        reply == Reply(200, OkBody)
        && records == old(records) - {id}
        && movements == old(movements) + [Logged("delete", Doc(id, old(records)[id]), actor, now)]
    {
      if id !in records {
        reply := Failed(Failure(404, "Registro no encontrado"));
        return;
      }
      var existing := Doc(id, records[id]);
      if !CanManage(actor) && existing.record.entry.userId != actor.uid {
        reply := Failed(Failure(403, "No podes eliminar este registro"));
        return;
      }
      records := records - {id};
      movements := movements + [Logged("delete", existing, actor, now)];
      reply := Reply(200, OkBody);
    }
  }

  // ---------------------------------------------------------------- what the handlers promise

  /** A created record is composed, dated in the schema's shape, and stamped
      with the creation instant and the actor as its creator. */
  lemma CreateConsistent(actor: Principal, body: seq<(string, Value)>, users: map<string, UserDoc>, now: int)
    ensures var r := CreateSpec(actor, body, users, now);
      r.Ok? ==>
        Consistent(r.value)
        && r.value.createdAt == Some(now) && r.value.createdBy == actor.uid
        && r.value.createdByName == ActorName(actor)
        && r.value.entry.updatedBy == actor.uid && r.value.entry.updatedAt == now
  {
    var r := CreateSpec(actor, body, users, now);
    if r.Ok? {
      var v := ValidateTimesheet(body).value;
      assert r == CreateFor(v, actor, users, now);
      var owner := ResolveOwner(if CanManage(actor) then v.userId.GetOr("") else actor.uid, actor, users).value;
      assert r == CreateRecord(v, owner, actor, now);
    }
  }

  /** Without the manage flag a record is always created for the actor; a
      manager may book it for the user named in the body. */
  lemma CreateOwner(actor: Principal, body: seq<(string, Value)>, users: map<string, UserDoc>, now: int)
    ensures var r := CreateSpec(actor, body, users, now);
      r.Ok? ==>
        r.value.entry.userId
          == (if CanManage(actor) then OrElse(ValidateTimesheet(body).value.userId.GetOr(""), actor.uid) else actor.uid)
  {
  }

  /** A body the create schema accepts, sent by an actor with an id and a
      username and without the manage flag, is always stored. */
  lemma CreateAcceptsValidBody(actor: Principal, body: seq<(string, Value)>, users: map<string, UserDoc>, now: int)
    requires ValidateTimesheet(body).Ok?
    requires !CanManage(actor) && actor.uid != "" && actor.username != ""
    ensures CreateSpec(actor, body, users, now).Ok?
  {
    var v := ValidateTimesheet(body).value;
    var owner := ResolveOwner(actor.uid, actor, users);
    assert owner.Ok?;
    CreateBodyComposes(body, owner.value, actor, now);
  }

  /** Every refusal of the create handler is a 400. */
  lemma CreateRefusalsAre400(actor: Principal, body: seq<(string, Value)>, users: map<string, UserDoc>, now: int)
    ensures CreateSpec(actor, body, users, now).Err? ==> CreateSpec(actor, body, users, now).error.status == 400
  {
  }

  /** An update keeps a well-formed record well formed. */
  lemma UpdateConsistent(existing: Record, actor: Principal, body: seq<(string, Value)>, users: map<string, UserDoc>, now: int)
    requires Consistent(existing)
    ensures var r := UpdateSpec(existing, actor, body, users, now);
      r.Ok? ==> Consistent(r.value)
  {
    var r := UpdateSpec(existing, actor, body, users, now);
    if r.Ok? {
      var v := ValidateTimesheetUpdate(body).value;
      assert r == UpdateFor(existing, v, actor, users, now);
      var target := if CanManage(actor) then OrElse(v.userId.GetOr(""), existing.entry.userId) else existing.entry.userId;
      var owner := ResolveOwner(target, actor, users).value;
      assert r == UpdateRecord(existing, v, owner, actor, now);
    }
  }

  /** Without the manage flag another user's record is refused with 403, and
      so is the owner's own record outside the window; the owner inside the
      window, like a manager, is refused only with a 400. */
  lemma UpdateAuthority(existing: Record, actor: Principal, body: seq<(string, Value)>, users: map<string, UserDoc>, now: int)
    ensures var r := UpdateSpec(existing, actor, body, users, now);
      (!CanManage(actor) && r.Ok? ==> existing.entry.userId == actor.uid && WithinWindow(existing, now))
      && (!CanManage(actor) && existing.entry.userId != actor.uid ==> r == Err(Failure(403, "No podes editar este registro")))
      && (!CanManage(actor) && existing.entry.userId == actor.uid && !WithinWindow(existing, now) ==>
            r == Err(Failure(403, "Solo podes editar durante las primeras 24 horas")))
      && (!CanManage(actor) && existing.entry.userId == actor.uid && WithinWindow(existing, now) && r.Err? ==>
            r.error.status == 400)
      && (CanManage(actor) && r.Err? ==> r.error.status == 400)
  {
  }

  /** The creation stamps survive an update: a stored `createdAt`,
      `createdBy` or `createdByName` is written back unchanged, and a
      missing one is filled in (the instant of the update, the owner). */
  lemma UpdatePreservesCreation(existing: Record, actor: Principal, body: seq<(string, Value)>, users: map<string, UserDoc>, now: int)
    ensures var r := UpdateSpec(existing, actor, body, users, now);
      r.Ok? ==>
        r.value.createdAt.Some?
        && (existing.createdAt.Some? ==> r.value.createdAt == existing.createdAt)
        && (existing.createdBy != "" ==> r.value.createdBy == existing.createdBy)
        && (existing.createdByName != "" ==> r.value.createdByName == existing.createdByName)
  {
    var r := UpdateSpec(existing, actor, body, users, now);
    if r.Ok? {
      var v := ValidateTimesheetUpdate(body).value;
      assert r == UpdateFor(existing, v, actor, users, now);
      var target := if CanManage(actor) then OrElse(v.userId.GetOr(""), existing.entry.userId) else existing.entry.userId;
      var owner := ResolveOwner(target, actor, users).value;
      assert r == UpdateRecord(existing, v, owner, actor, now);
    }
  }

  /** The owner of a record changes only when a manager names another user
      in the body. */
  lemma UpdateKeepsOwner(existing: Record, actor: Principal, body: seq<(string, Value)>, users: map<string, UserDoc>, now: int)
    ensures var r := UpdateSpec(existing, actor, body, users, now);
      (r.Ok? && (!CanManage(actor) || ValidateTimesheetUpdate(body).value.userId.None?) && existing.entry.userId != "")
      ==> r.value.entry.userId == existing.entry.userId
  {
    var r := UpdateSpec(existing, actor, body, users, now);
    if r.Ok? {
      var v := ValidateTimesheetUpdate(body).value;
      assert r == UpdateFor(existing, v, actor, users, now);
      var target := if CanManage(actor) then OrElse(v.userId.GetOr(""), existing.entry.userId) else existing.entry.userId;
      var owner := ResolveOwner(target, actor, users).value;
      assert r == UpdateRecord(existing, v, owner, actor, now);
    }
  }

  /** The window is closed-ended: exactly 24 hours after the anchor an edit
      is still allowed, one millisecond later it is not. */
  lemma WindowBoundary(r: Record, t: int)
    requires r.createdAt == Some(t)
    ensures WithinWindow(r, t + DayMs)
    ensures !WithinWindow(r, t + DayMs + 1)
  {
  }

  /** A record without `createdAt` whose date names no real month (it still
      matches the schema's pattern) has an invalid anchor, and the window
      never closes for it. */
  lemma InvalidDateNeverCloses(r: Record, now: int)
    requires r.createdAt.None? && r.entry.date == "2024-13-01"
    ensures WithinWindow(r, now)
  {
    var m := DigitValue('1') * 10 + DigitValue('3');
    assert m == 13;
  }

  /** A record without `createdAt` is anchored at its date's midnight UTC:
      1970-01-02 starts at one day's worth of milliseconds. */
  lemma DateAnchorExample(r: Record)
    requires r.createdAt.None? && r.entry.date == "1970-01-02"
    ensures EditAnchor(r) == At(DayMs)
    ensures WithinWindow(r, 2 * DayMs) && !WithinWindow(r, 2 * DayMs + 1)
  {
    assert DatePattern(r.entry.date);
    assert DaysFromCivil(1970, 1, 2) == 1;
  }
}

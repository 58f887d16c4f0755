/** The request-body schemas of the server: the clock and date patterns, the
    timesheet schema and its update variant (date and times made optional),
    and the user and role schemas. Validation stops at the first failing
    field, in the order the schema declares its keys; the library's error
    text is represented by the field name and a reason. */
module Schemas {
  import opened Common
  import opened Strings
  import opened Json

  /** `/^([01]\d|2[0-3]):[0-5]\d$/`: two-digit hours 00-23, ':', two-digit
      minutes 00-59, and nothing else. */
  predicate TimePattern(t: string) {
    |t| == 5 && t[2] == ':'
    && ((('0' <= t[0] <= '1') && IsDigit(t[1])) || (t[0] == '2' && '0' <= t[1] <= '3'))
    && '0' <= t[3] <= '5' && IsDigit(t[4])
  }

  /** `/^\d{4}-\d{2}-\d{2}$/`: the shape of a date only; month and day ranges
      are not checked. */
  predicate DatePattern(d: string) {
    |d| == 10 && d[4] == '-' && d[7] == '-'
    && forall k :: 0 <= k < 10 && k != 4 && k != 7 ==> IsDigit(d[k])
  }

  datatype Reason =
    | Required        // the key is missing
    | NotAString
    | NotABoolean
    | NotAnArray
    | NotAnObject
    | Empty           // '' where the schema does not allow it
    | TooShort
    | TooLong
    | PatternMismatch
    | NotAllowed      // a key the schema does not declare

  datatype FieldError = FieldError(field: string, reason: Reason)

  /** `Joi.string()` with its options: a missing key is an error only when
      required; `trim` converts before checking; '' is refused unless allowed. */
  function StringField(v: Option<Value>, required: bool, allowEmpty: bool, trim: bool): (r: Result<Option<string>, Reason>)
    ensures r.Ok? && r.value.Some? ==> v.Some? && v.value.JStr?
    ensures r.Ok? && r.value.Some? && !allowEmpty ==> r.value.value != ""
    ensures r.Ok? && r.value.None? <==> v.None? && !required
    ensures r.Ok? && r.value.Some? && !trim ==> r.value == TextOf(v)
    ensures v.Some? && v.value.JStr? && (allowEmpty || (if trim then Trim(v.value.s) else v.value.s) != "") ==> r.Ok?
  {
    match v
    case None => if required then Err(Required) else Ok(None)
    case Some(JStr(s)) =>
      var t := if trim then Trim(s) else s;
      if t == "" && !allowEmpty then Err(Empty) else Ok(Some(t))
    case Some(_) => Err(NotAString)
  }

  /** `.min(lo).max(hi)` applied after the type check, in that order. */
  function Length(r: Result<Option<string>, Reason>, lo: nat, hi: nat): (r': Result<Option<string>, Reason>)
    ensures r'.Ok? && r'.value.Some? ==> lo <= |r'.value.value| <= hi
    ensures r'.Ok? ==> r' == r
  {
    match r
    case Ok(Some(s)) => if |s| < lo then Err(TooShort) else if |s| > hi then Err(TooLong) else r
    case _ => r
  }

  /** `.pattern(p)` for one of the two patterns above. */
  function Pattern(r: Result<Option<string>, Reason>, isTime: bool): (r': Result<Option<string>, Reason>)
    ensures r'.Ok? && r'.value.Some? ==> if isTime then TimePattern(r'.value.value) else DatePattern(r'.value.value)
    ensures r'.Ok? ==> r' == r
  {
    match r
    case Ok(Some(s)) =>
      if (if isTime then TimePattern(s) else DatePattern(s)) then r else Err(PatternMismatch)
    case _ => r
  }

  /** `Joi.boolean()`: a boolean, or the strings 'true'/'false' in any case. */
  function BooleanField(v: Option<Value>): (r: Result<Option<bool>, Reason>)
    ensures r.Ok? <==> HolidayOk(v)
    ensures r.Ok? && v.None? ==> r.value == None
    ensures r.Ok? && v.Some? && v.value.JBool? ==> r.value == Some(v.value.b)
  {
    match v
    case None => Ok(None)
    case Some(JBool(b)) => Ok(Some(b))
    case Some(JStr(s)) =>
      if Lower(s) == "true" then Ok(Some(true))
      else if Lower(s) == "false" then Ok(Some(false))
      else Err(NotABoolean)
    case Some(_) => Err(NotABoolean)
  }

  // ---------------------------------------------------------------- timesheets

  /** A validated timesheet body. A field is None when the key was absent and
      the schema has no default for it. */
  datatype TimesheetInput = TimesheetInput(
    userId: Option<string>,
    date: Option<string>,
    startTime: Option<string>,
    endTime: Option<string>,
    client: Option<string>,
    task: Option<string>,
    workOrder: Option<string>,
    isHoliday: Option<bool>)

  /** The body with every key missing, as `composeEntry` reads an absent
      field: used when nothing is supplied. */
  const NoInput := TimesheetInput(None, None, None, None, None, None, None, None)

  /** A free-text field: a string, '' allowed, trimmed, defaulting to ''. */
  function TextField(v: Option<Value>): (r: Result<string, Reason>)
    ensures r.Ok? ==> Trim(r.value) == r.value
    ensures r.Ok? && v.Some? ==> v.value.JStr? && r.value == Trim(v.value.s)
    ensures r.Ok? <==> TextOk(v)
    ensures r.Ok? && v.None? ==> r.value == ""
  {
    var f := StringField(v, false, true, true);
    if f.Err? then Err(f.error)
    else if f.value.None? then Ok("")
    else
      TrimIdempotent(v.value.s);
      Ok(f.value.value)
  }

  /** A date or clock field: a string matching its pattern, required or not. */
  function PatternField(v: Option<Value>, required: bool, isTime: bool): (r: Result<Option<string>, Reason>)
    ensures r.Ok? && required ==> r.value.Some?
    ensures r.Ok? && r.value.Some? ==> if isTime then TimePattern(r.value.value) else DatePattern(r.value.value)
    ensures r.Ok? ==> (r.value.Some? <==> v.Some?)
    ensures r.Ok? <==> PatternOk(v, required, isTime)
    ensures r.Ok? ==> r.value == TextOf(v)
  {
    Pattern(StringField(v, required, false, false), isTime)
  }

  /** The text of a value, when it is a string. */
  function TextOf(v: Option<Value>): Option<string> {
    if v.Some? && v.value.JStr? then Some(v.value.s) else None
  }

  /** The text sent under a key, when it is a string. */
  function Sent(body: seq<(string, Value)>, k: string): Option<string> {
    TextOf(Get(body, k))
  }

  /** Absent, or a string. */
  predicate TextOk(v: Option<Value>) {
    v.None? || v.value.JStr?
  }

  /** A string matching the date or clock pattern, or absent when optional. */
  predicate PatternOk(v: Option<Value>, required: bool, isTime: bool) {
    if v.None? then !required
    else (v.value.JStr? && (if isTime then TimePattern(v.value.s) else DatePattern(v.value.s)))
  }

  /** What the schema accepts for `isHoliday`: nothing, a boolean, or the
      words 'true' and 'false' in any case. */
  predicate HolidayOk(v: Option<Value>) {
    match v
    case None => true
    case Some(JBool(_)) => true
    case Some(JStr(s)) => Lower(s) == "true" || Lower(s) == "false"
    case Some(_) => false
  }

  /** A body the timesheet schema accepts: `userId` absent or a non-empty
      string, date and times matching their patterns (and present when
      required), the free-text fields strings when present, and a readable
      `isHoliday`. Keys the schema does not declare are ignored. */
  predicate TimesheetBodyOk(body: seq<(string, Value)>, required: bool) {
    var userId := Get(body, "userId");
    (userId.None? || (userId.value.JStr? && userId.value.s != ""))
    && PatternOk(Get(body, "date"), required, false)
    && PatternOk(Get(body, "startTime"), required, true)
    && PatternOk(Get(body, "endTime"), required, true)
    && TextOk(Get(body, "client")) && TextOk(Get(body, "task")) && TextOk(Get(body, "workOrder"))
    && HolidayOk(Get(body, "isHoliday"))
  }

  /** `timesheetSchema` (`required` true) and `timesheetUpdateSchema`
      (`required` false), both with unknown keys stripped. A body is accepted
      exactly when it is well formed; the accepted value carries the date,
      times and user id as sent, the free-text fields trimmed (or '' when
      absent), and `isHoliday` as sent (or false). */
  function ValidateTimesheetBody(body: seq<(string, Value)>, required: bool): (r: Result<TimesheetInput, FieldError>)
    ensures r.Ok? <==> TimesheetBodyOk(body, required)
    ensures r.Ok? ==> var v := r.value;
      (required ==> v.date.Some? && v.startTime.Some? && v.endTime.Some?)
      && (v.date.Some? ==> DatePattern(v.date.value))
      && (v.startTime.Some? ==> TimePattern(v.startTime.value))
      && (v.endTime.Some? ==> TimePattern(v.endTime.value))
      && (v.userId.Some? ==> v.userId.value != "")
      && v.client.Some? && v.task.Some? && v.workOrder.Some? && v.isHoliday.Some?
      && Trim(v.client.value) == v.client.value
      && Trim(v.task.value) == v.task.value
      && Trim(v.workOrder.value) == v.workOrder.value
  {
    var userId := StringField(Get(body, "userId"), false, false, false);
    var date := PatternField(Get(body, "date"), required, false);
    var start := PatternField(Get(body, "startTime"), required, true);
    var end := PatternField(Get(body, "endTime"), required, true);
    var client := TextField(Get(body, "client"));
    var task := TextField(Get(body, "task"));
    var workOrder := TextField(Get(body, "workOrder"));
    var holiday := BooleanField(Get(body, "isHoliday"));
    if userId.Ok? && date.Ok? && start.Ok? && end.Ok? && client.Ok? && task.Ok? && workOrder.Ok? && holiday.Ok? then
      Ok(TimesheetInput(
        userId.value, date.value, start.value, end.value,
        Some(client.value), Some(task.value), Some(workOrder.value), Some(holiday.value.GetOr(false))))
    else
      Err(FirstFieldError(userId, date, start, end, client, task, workOrder, holiday))
  }

  /** The first failing field, in the order the schema declares them. */
  function FirstFieldError(userId: Result<Option<string>, Reason>, date: Result<Option<string>, Reason>,
                           start: Result<Option<string>, Reason>, end: Result<Option<string>, Reason>,
                           client: Result<string, Reason>, task: Result<string, Reason>,
                           workOrder: Result<string, Reason>, holiday: Result<Option<bool>, Reason>): FieldError
  {
    if userId.Err? then FieldError("userId", userId.error)
    else if date.Err? then FieldError("date", date.error)
    else if start.Err? then FieldError("startTime", start.error)
    else if end.Err? then FieldError("endTime", end.error)
    else if client.Err? then FieldError("client", client.error)
    else if task.Err? then FieldError("task", task.error)
    else if workOrder.Err? then FieldError("workOrder", workOrder.error)
    else if holiday.Err? then FieldError("isHoliday", holiday.error)
    else FieldError("", Required)
  }

  /** An accepted body keeps the date, the times and the user id as sent,
      the free-text fields trimmed ('' when absent), and `isHoliday` as sent
      (false when absent). */
  lemma ValidateTimesheetValues(body: seq<(string, Value)>, required: bool)
    requires ValidateTimesheetBody(body, required).Ok?
    ensures var v := ValidateTimesheetBody(body, required).value;
      v.userId == Sent(body, "userId") && v.date == Sent(body, "date")
      && v.startTime == Sent(body, "startTime") && v.endTime == Sent(body, "endTime")
      && v.client == Some(if Sent(body, "client").Some? then Trim(Sent(body, "client").value) else "")
      && v.task == Some(if Sent(body, "task").Some? then Trim(Sent(body, "task").value) else "")
      && v.workOrder == Some(if Sent(body, "workOrder").Some? then Trim(Sent(body, "workOrder").value) else "")
      && (Get(body, "isHoliday").None? ==> v.isHoliday == Some(false))
      && (Get(body, "isHoliday").Some? && Get(body, "isHoliday").value.JBool? ==> v.isHoliday == Some(Get(body, "isHoliday").value.b))
  {
  }

  function ValidateTimesheet(body: seq<(string, Value)>): Result<TimesheetInput, FieldError> {
    ValidateTimesheetBody(body, true)
  }

  function ValidateTimesheetUpdate(body: seq<(string, Value)>): Result<TimesheetInput, FieldError> {
    ValidateTimesheetBody(body, false)
  }

  /** The update schema is a loosening of the create schema: whatever the
      create schema accepts, the update schema accepts with the same value;
      and an update body carrying all three of date, startTime and endTime is
      judged exactly as a create body. */
  lemma UpdateSchemaLoosens(body: seq<(string, Value)>)
    ensures ValidateTimesheet(body).Ok? ==> ValidateTimesheetUpdate(body) == ValidateTimesheet(body)
    ensures "date" in Keys(body) && "startTime" in Keys(body) && "endTime" in Keys(body)
            ==> ValidateTimesheetUpdate(body) == ValidateTimesheet(body)
  {
  }

  /** What the update schema makes of an empty body. */
  const UpdateDefaults := TimesheetInput(None, None, None, None, Some(""), Some(""), Some(""), Some(false))

  /** An empty update body is accepted, and the defaults of the schema then
      supply '' for client, task and workOrder and false for isHoliday, while
      date and times stay absent. */
  lemma EmptyUpdateBodyDefaults()
    ensures ValidateTimesheetUpdate([]) == Ok(UpdateDefaults)
  {
    assert Trim("") == "";
  }

  /** The create schema refuses a body without a date, start or end time. */
  lemma CreateNeedsDateAndTimes(body: seq<(string, Value)>)
    requires "date" !in Keys(body) || "startTime" !in Keys(body) || "endTime" !in Keys(body)
    ensures ValidateTimesheet(body).Err?
  {
  }

  // ---------------------------------------------------------------- users and roles

  datatype UserInput = UserInput(
    username: string,
    displayName: string,
    password: string,
    roles: seq<string>,
    avatarUrl: Option<Value>)

  /** `Joi.array().items(Joi.string())`: every element a non-empty string. */
  function StringArray(v: Option<Value>): (r: Result<seq<string>, Reason>)
    ensures r.Ok? ==> forall i :: 0 <= i < |r.value| ==> r.value[i] != ""
  {
    match v
    case None => Ok([])
    case Some(JArr(items)) =>
      if forall i :: 0 <= i < |items| ==> items[i].JStr? && items[i].s != ""
      then Ok(seq(|items|, i requires 0 <= i < |items| => items[i].s))
      else Err(NotAString)
    case Some(_) => Err(NotAnArray)
  }

  /** The first key of `body` outside `declared`, if any. */
  function FirstUnknown(body: seq<(string, Value)>, declared: set<string>): (r: Option<string>)
    ensures r.None? <==> forall i :: 0 <= i < |body| ==> body[i].0 in declared
    ensures r.Some? ==> r.value !in declared
  {
    if |body| == 0 then None
    else if body[0].0 !in declared then Some(body[0].0)
    else FirstUnknown(body[1..], declared)
  }

  const UserFields: set<string> := {"username", "displayName", "password", "roles", "avatarUrl"}

  /** `userSchema`: username 3-40 characters, displayName 1-80, password
      4-128, roles a list of strings defaulting to [], avatarUrl a string, ''
      or null; no other key. */
  function ValidateUser(body: seq<(string, Value)>): (r: Result<UserInput, FieldError>)
    ensures r.Ok? ==> 3 <= |r.value.username| <= 40 && 1 <= |r.value.displayName| <= 80
                      && 4 <= |r.value.password| <= 128
    ensures r.Ok? ==> r.value.avatarUrl.None? || r.value.avatarUrl.value.JNull? || r.value.avatarUrl.value.JStr?
  {
    var username := Length(StringField(Get(body, "username"), true, false, false), 3, 40);
    var displayName := Length(StringField(Get(body, "displayName"), true, false, false), 1, 80);
    var password := Length(StringField(Get(body, "password"), true, false, false), 4, 128);
    var roles := StringArray(Get(body, "roles"));
    var avatar := Get(body, "avatarUrl");
    var unknown := FirstUnknown(body, UserFields);
    if username.Err? then Err(FieldError("username", username.error))
    else if displayName.Err? then Err(FieldError("displayName", displayName.error))
    else if password.Err? then Err(FieldError("password", password.error))
    else if roles.Err? then Err(FieldError("roles", roles.error))
    else if avatar.Some? && !avatar.value.JNull? && !avatar.value.JStr? then Err(FieldError("avatarUrl", NotAString))
    else if unknown.Some? then Err(FieldError(unknown.value, NotAllowed))
    else Ok(UserInput(username.value.value, displayName.value.value, password.value.value, roles.value, avatar))
  }

  /** An accepted user body has no key outside the five declared ones. */
  lemma ValidateUserOnlyDeclared(body: seq<(string, Value)>)
    ensures ValidateUser(body).Ok? ==> forall i :: 0 <= i < |body| ==> body[i].0 in UserFields
  {
  }

  datatype RoleInput = RoleInput(name: string, permissions: seq<(string, Value)>)

  /** `roleSchema`: a name of 2-40 characters and a permissions object. */
  function ValidateRole(body: seq<(string, Value)>): (r: Result<RoleInput, FieldError>)
    ensures r.Ok? ==> 2 <= |r.value.name| <= 40
    ensures r.Ok? ==> Get(body, "permissions") == Some(JObj(r.value.permissions))
    ensures "permissions" !in Keys(body) ==> r.Err?
  {
    var name := Length(StringField(Get(body, "name"), true, false, false), 2, 40);
    var perms := Get(body, "permissions");
    var unknown := FirstUnknown(body, {"name", "permissions"});
    if name.Err? then Err(FieldError("name", name.error))
    else if perms.None? then Err(FieldError("permissions", Required))
    else if !perms.value.JObj? then Err(FieldError("permissions", NotAnObject))
    else if unknown.Some? then Err(FieldError(unknown.value, NotAllowed))
    else Ok(RoleInput(name.value.value, perms.value.fields))
  }

  /** A user body is accepted exactly when each declared field meets its
      constraint and no other key is present. */
  lemma ValidateUserAccepts(username: string, displayName: string, password: string)
    requires 3 <= |username| <= 40 && 1 <= |displayName| <= 80 && 4 <= |password| <= 128
    ensures ValidateUser([("username", JStr(username)), ("displayName", JStr(displayName)), ("password", JStr(password))])
            == Ok(UserInput(username, displayName, password, [], None))
  {
    RequiredText(username, 3, 40);
    RequiredText(displayName, 1, 80);
    RequiredText(password, 4, 128);
    UserBodyFields(username, displayName, password);
  }

  /** What `ValidateUser` reads from a body with the three required keys. */
  lemma UserBodyFields(username: string, displayName: string, password: string)
    ensures var body := [("username", JStr(username)), ("displayName", JStr(displayName)), ("password", JStr(password))];
      && Get(body, "username") == Some(JStr(username))
      && Get(body, "displayName") == Some(JStr(displayName))
      && Get(body, "password") == Some(JStr(password))
      && Get(body, "roles") == None
      && Get(body, "avatarUrl") == None
      && FirstUnknown(body, UserFields) == None
  {
    var body := [("username", JStr(username)), ("displayName", JStr(displayName)), ("password", JStr(password))];
    assert Get(body, "displayName") == Some(JStr(displayName));
    assert Get(body, "password") == Some(JStr(password));
    assert Get(body, "roles") == None;
    assert Get(body, "avatarUrl") == None;
  }
  /** A required, untrimmed text within its bounds is accepted as it is. */
  lemma RequiredText(s: string, lo: nat, hi: nat)
    requires 1 <= lo <= |s| <= hi
    ensures Length(StringField(Some(JStr(s)), true, false, false), lo, hi) == Ok(Some(s))
  {
  }
}

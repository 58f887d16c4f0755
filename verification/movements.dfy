/** The audit log ("movements"). Every change elsewhere is recorded as a
    movement naming an entity, a type, who made it and a payload. The listing
    reads the newest stored movements, adds a history built from the
    timesheets themselves when the log holds no timesheet movement, filters
    by entity and author, and gives each movement a one-line summary. Only
    administrators may delete a movement. */
module Movements {
  import opened Common
  import opened Strings
  import opened Json
  import opened Http
  import Lists
  import Permissions

  /** A stored movement: `entity`, `type` and `by` may be absent. The time
      and metadata it also carries are passed through unchanged and are not
      modelled. */
  datatype Movement = Movement(
    id: string, entity: Option<string>, kind: Option<string>, author: Option<string>, payload: Value)

  /** `isTimesheetEntity`: lower-cased, one of three names. */
  predicate IsTimesheetEntity(value: Option<string>) {
    Lower(value.GetOr("")) in {"timesheets", "timesheet", "hours"}
  }

  /** The spelling does not matter, other names are not timesheet entities. */
  lemma TimesheetEntityExamples()
    ensures IsTimesheetEntity(Some("Hours")) && IsTimesheetEntity(Some("TIMESHEETS"))
    ensures !IsTimesheetEntity(Some("workorders")) && !IsTimesheetEntity(None)
  {
    assert Lower("Hours") == "hours";
    assert Lower("TIMESHEETS") == "timesheets";
    assert Lower("workorders") == "workorders";
    assert Lower("") == "";
  }

  // ---------------------------------------------------------------- the timesheet fallback

  /** What the fallback reads from a timesheet document: its id, the two
      instants as milliseconds (0 when missing or unparsable), the three
      names `by` may come from, and the projected payload. */
  datatype TimesheetSource = TimesheetSource(
    id: string, createdMillis: int, updatedMillis: int,
    updatedByName: string, createdByName: string, username: string, payload: Value)

  const FallbackPrefix := "ts-fallback-"

  /** `mapTimesheetToMovement`. */
  function MovementOf(doc: TimesheetSource): (m: Movement)
    ensures m.entity == Some("timesheets") && m.id == FallbackPrefix + doc.id
  {
    var kind := if doc.updatedMillis != 0 && doc.createdMillis != 0 && doc.updatedMillis != doc.createdMillis
                then "update" else "create";
    var author := OrElse(doc.updatedByName, OrElse(doc.createdByName, OrElse(doc.username, "Sistema")));
    Movement(FallbackPrefix + doc.id, Some("timesheets"), Some(kind), Some(author), doc.payload)
  }

  /** A fallback movement is an update exactly when both instants are known
      and differ; its author is the first non-blank of the updater's name,
      the creator's name and the username, else "Sistema"; and its id gives
      back the timesheet's id. */
  lemma MovementOfProperties(doc: TimesheetSource)
    ensures var m := MovementOf(doc);
      (m.kind == Some("update") <==> doc.createdMillis != 0 && doc.updatedMillis != 0 && doc.createdMillis != doc.updatedMillis)
      && (m.kind == Some("create") <==> !(doc.createdMillis != 0 && doc.updatedMillis != 0 && doc.createdMillis != doc.updatedMillis))
      && m.author.Some? && m.author.value != ""
      && (doc.updatedByName != "" ==> m.author == Some(doc.updatedByName))
      && (doc.updatedByName == "" && doc.createdByName != "" ==> m.author == Some(doc.createdByName))
      && (doc.updatedByName == "" && doc.createdByName == "" && doc.username != "" ==> m.author == Some(doc.username))
      && (doc.updatedByName == "" && doc.createdByName == "" && doc.username == "" ==> m.author == Some("Sistema"))
      && IsPrefix(FallbackPrefix, m.id) && m.id[|FallbackPrefix|..] == doc.id
      && IsTimesheetEntity(m.entity)
  {
    var m := MovementOf(doc);
    assert m.id[..|FallbackPrefix|] == FallbackPrefix;
    assert Lower("timesheets") == "timesheets";
  }

  // ---------------------------------------------------------------- filters

  /** `String(i.entity)`: an absent entity reads "undefined". */
  function EntityText(m: Movement): string {
    if m.entity.Some? then m.entity.value else "undefined"
  }

  /** The entity filter of `applyFilters`: exact equality with `String(i.entity)`,
      not applied when the parameter is empty. */
  predicate KeepEntity(m: Movement, entity: string) {
    entity == "" || EntityText(m) == entity
  }

  /** The author filter: case-insensitive equality (not substring), not
      applied when the parameter is empty. */
  predicate KeepAuthor(m: Movement, author: string) {
    author == "" || Lower(m.author.GetOr("")) == Lower(author)
  }

  /** The two filters of `applyFilters` that the model covers. */
  predicate KeptBy(m: Movement, entity: string, author: string) {
    KeepEntity(m, entity) && KeepAuthor(m, author)
  }

  /** `applyFilters(items, { entity, by })`: the list is narrowed one filter
      at a time, each pass only when its parameter is given. */
  method ApplyFilters(items: seq<Movement>, entity: string, author: string) returns (filtered: seq<Movement>)
    ensures filtered == Lists.Filter(items, m => KeptBy(m, entity, author))
    ensures forall m :: m in filtered <==> m in items && KeptBy(m, entity, author)
  {
    filtered := items;
    if entity != "" {
      filtered := Lists.Filter(filtered, m => KeepEntity(m, entity));
    } else {
      Lists.FilterAll(items, m => KeepEntity(m, entity));
    }
    if author != "" {
      filtered := Lists.Filter(filtered, m => KeepAuthor(m, author));
    } else {
      Lists.FilterAll(filtered, m => KeepAuthor(m, author));
    }
    FiltersCompose(items, entity, author);
  }

  /** The two passes keep what the combined test keeps, in order. */
  lemma {:induction false} FiltersCompose(items: seq<Movement>, entity: string, author: string)
    ensures Lists.Filter(Lists.Filter(items, m => KeepEntity(m, entity)), m => KeepAuthor(m, author))
            == Lists.Filter(items, m => KeptBy(m, entity, author))
  {
    if |items| > 0 {
      FiltersCompose(items[1..], entity, author);
    }
  }

  /** The author filter compares whole names: "ana" does not keep "Mariana",
      but keeps "ANA". */
  lemma ByIsEquality()
    ensures !KeptBy(Movement("1", None, None, Some("Mariana"), JNull), "", "ana")
    ensures KeptBy(Movement("1", None, None, Some("ANA"), JNull), "", "ana")
  {
    assert Lower("ANA") == "ana";
    assert |Lower("Mariana")| != |Lower("ana")|;
  }

  // ---------------------------------------------------------------- summaries

  /** `a ?? b`. */
  function Nullish(a: Option<Value>, b: Value): Value {
    if a.Some? && a.value != JNull then a.value else b
  }

  /** `${a}` of a property that may be absent. */
  function Text(a: Option<Value>): string {
    if a.Some? then ToStr(a.value) else "undefined"
  }

  /** `v?.[k]` along a chain that may already be absent. */
  function Path(v: Option<Value>, k: string): Option<Value> {
    if v.Some? then Member(v.value, k) else None
  }

  /** `Object.keys(v || {})`. */
  function KeysOf(v: Option<Value>): seq<string> {
    Keys(Permissions.Entries(Or(v, JObj([]))))
  }

  function Is(kind: Option<string>, name: string): bool {
    kind == Some(name)
  }

  /** `summarizeMaterial`: a text for each of the six material types and
      nothing for any other type. */
  function SummarizeMaterial(kind: Option<string>, payload: Value): (r: string)
    ensures r == "" <==> kind !in {Some("create"), Some("update"), Some("delete"), Some("stock_in"), Some("stock_out"), Some("transfer")}
    ensures kind == Some("create") && Member(payload, "data").None? ==> r == "Alta de material: nuevo registro"
    ensures kind == Some("update") && Member(payload, "data").None? ==> r == "Actualizacion de material"
    ensures kind == Some("delete") ==> r == "Baja de material"
  {
    var data := Member(payload, "data");
    if Is(kind, "create") then "Alta de material: " + ToStr(Or(Path(data, "Descripcion"), JStr("nuevo registro")))
    else if Is(kind, "update") then
      var fields := KeysOf(data);
      if |fields| > 0 then "Actualizacion de material (" + Join(fields, ", ") + ")" else "Actualizacion de material"
    else if Is(kind, "delete") then "Baja de material"
    else if Is(kind, "stock_in") then
      "Ingreso de stock (+" + ToStr(Nullish(Member(payload, "delta"), Nullish(Member(payload, "cantidad"), JStr("")))) + ")"
    else if Is(kind, "stock_out") then
      "Salida de stock (-" + ToStr(Nullish(Member(payload, "delta"), Nullish(Member(payload, "cantidad"), JStr("")))) + ")"
    else if Is(kind, "transfer") then
      "Transferencia de stock (" + ToStr(Nullish(Member(payload, "cantidad"), JStr(""))) + ") hacia "
      + ToStr(Or(Member(payload, "destino"), JStr("destino desconocido")))
    else ""
  }

  /** `summarizeTool`: a text for create, update and delete, nothing for any
      other type. */
  function SummarizeTool(kind: Option<string>, payload: Value): (r: string)
    ensures r == "" <==> kind !in {Some("create"), Some("update"), Some("delete")}
    ensures kind == Some("create") ==> "Alta de herramienta: " <= r
    ensures kind == Some("create") && Member(payload, "data").None? ==> r == "Alta de herramienta: nuevo registro"
    ensures kind == Some("update") ==> "Actualizacion de herramienta" <= r
    ensures kind == Some("update") && Member(payload, "data").None? ==> r == "Actualizacion de herramienta"
    ensures kind == Some("delete") ==> r == "Baja de herramienta"
  {
    var data := Member(payload, "data");
    if Is(kind, "create") then "Alta de herramienta: " + ToStr(Or(Path(data, "Nombre"), JStr("nuevo registro")))
    else if Is(kind, "update") then
      var fields := KeysOf(data);
      if |fields| > 0 then "Actualizacion de herramienta (" + Join(fields, ", ") + ")" else "Actualizacion de herramienta"
    else if Is(kind, "delete") then "Baja de herramienta"
    else ""
  }

  /** `summarizeTimesheet`: a text naming the user (or "Usuario") and the
      date when there is one, for create, update and delete only. */
  function SummarizeTimesheet(kind: Option<string>, payload: Value): (r: string)
    ensures r == "" <==> kind !in {Some("create"), Some("update"), Some("delete")}
    ensures kind == Some("create") ==> "Carga de horas de " <= r
    ensures kind == Some("update") ==> "Actualizacion de horas de " <= r
    ensures kind == Some("delete") ==> "Eliminacion de horas de " <= r
    ensures kind == Some("create") && payload == JObj([]) ==> r == "Carga de horas de Usuario"
  {
    var user := ToStr(Or(Member(payload, "userDisplayName"), Or(Member(payload, "username"), JStr("Usuario"))));
    var date := Member(payload, "date");
    var when := if date.Some? && Truthy(date.value) then " (" + ToStr(date.value) + ")" else "";
    if Is(kind, "create") then "Carga de horas de " + user + when
    else if Is(kind, "update") then "Actualizacion de horas de " + user + when
    else if Is(kind, "delete") then "Eliminacion de horas de " + user + when
    else ""
  }

  /** `summarizeWorkOrder`: a text naming the client (when given) and the
      order (or "OT"), for create, update and delete only. */
  function SummarizeWorkOrder(kind: Option<string>, payload: Value): (r: string)
    ensures r == "" <==> kind !in {Some("create"), Some("update"), Some("delete")}
    ensures kind == Some("create") ==> "Alta de OT " <= r
    ensures kind == Some("update") ==> "Actualizacion de OT " <= r
    ensures kind == Some("delete") ==> "Eliminacion de OT " <= r
    ensures kind == Some("delete") && payload == JObj([]) ==> r == "Eliminacion de OT OT"
  {
    var client := Member(payload, "client");
    var prefix := if client.Some? && Truthy(client.value) then ToStr(client.value) + " - " else "";
    var before := Or(Member(payload, "before"), JObj([]));
    var after := Or(Member(payload, "after"), JObj([]));
    var name := ToStr(Or(Member(payload, "name"), Or(Member(after, "name"), Or(Member(before, "name"), JStr("OT")))));
    if Is(kind, "create") then "Alta de OT " + prefix + name
    else if Is(kind, "update") then "Actualizacion de OT " + prefix + name
    else if Is(kind, "delete") then "Eliminacion de OT " + prefix + name
    else ""
  }

  /** `summarizeGeneric`: nothing for no type and no payload keys, the type
      alone without keys, and "type: k1, k2" otherwise (an absent type is
      spelt "undefined"). */
  function SummarizeGeneric(kind: Option<string>, payload: Value): (r: string)
    ensures r == "" <==> (kind.None? || kind == Some("")) && |KeysOf(Some(payload))| == 0
    ensures |KeysOf(Some(payload))| == 0 && kind.Some? ==> r == kind.value
    ensures |KeysOf(Some(payload))| > 0 ==>
      r == (if kind.Some? then kind.value else "undefined") + ": " + Join(KeysOf(Some(payload)), ", ")
  {
    var details := KeysOf(Some(payload));
    var typeless := kind.None? || kind == Some("");
    if typeless && |details| == 0 then ""
    else if |details| == 0 then kind.value
    else (if kind.Some? then kind.value else "undefined") + ": " + Join(details, ", ")
  }

  /** `enrichSummary`: the entity picks the summary by exact name, and the
      generic one is used whenever that gives nothing. */
  function Summary(m: Movement): (r: string)
    ensures var specific := SpecificSummary(m);
      (specific != "" ==> r == specific) && (specific == "" ==> r == SummarizeGeneric(m.kind, m.payload))
  {
    var specific := SpecificSummary(m);
    if specific != "" then specific else SummarizeGeneric(m.kind, m.payload)
  }

  /** Only the four known entities have a summary of their own. */
  function SpecificSummary(m: Movement): (r: string)
    ensures r != "" ==> m.entity in {Some("material"), Some("tool"), Some("timesheets"), Some("workorders")}
  {
    if m.entity == Some("material") then SummarizeMaterial(m.kind, m.payload)
    else if m.entity == Some("tool") then SummarizeTool(m.kind, m.payload)
    else if m.entity == Some("timesheets") then SummarizeTimesheet(m.kind, m.payload)
    else if m.entity == Some("workorders") then SummarizeWorkOrder(m.kind, m.payload)
    else ""
  }

  /** Each specific summary is empty exactly for the types it does not know,
      so the generic one takes over only for those and for other entities. */
  lemma SpecificSummaryEmptyIff(m: Movement)
    ensures SpecificSummary(m) == "" <==>
      (m.entity == Some("material") ==> m.kind !in {Some("create"), Some("update"), Some("delete"), Some("stock_in"), Some("stock_out"), Some("transfer")})
      && (m.entity == Some("tool") ==> m.kind !in {Some("create"), Some("update"), Some("delete")})
      && (m.entity == Some("timesheets") ==> m.kind !in {Some("create"), Some("update"), Some("delete")})
      && (m.entity == Some("workorders") ==> m.kind !in {Some("create"), Some("update"), Some("delete")})
  {
  }

  /** The entity names are compared exactly: "Material" falls to the generic
      summary. */
  lemma EntityDispatchIsExact(payload: Value)
    ensures Summary(Movement("1", Some("Material"), Some("delete"), None, payload)) == SummarizeGeneric(Some("delete"), payload)
    ensures Summary(Movement("1", Some("material"), Some("delete"), None, payload)) == "Baja de material"
  {
  }

  // ---------------------------------------------------------------- listMovements

  /** A listed movement with its summary. */
  datatype Summarized = Summarized(item: Movement, summary: string)

  /** The fallback is added when the request asks for no entity or a
      timesheet-like one, and no stored movement is timesheet-like. */
  predicate WantsFallback(stored: seq<Movement>, entity: string) {
    (entity == "" || IsTimesheetEntity(Some(entity)))
    && !exists i :: 0 <= i < |stored| && IsTimesheetEntity(stored[i].entity)
  }

  /** The movements `loadTimesheetFallback` builds, one per timesheet. */
  function Fallback(timesheets: seq<TimesheetSource>): (r: seq<Movement>)
    ensures |r| == |timesheets| && forall k :: 0 <= k < |r| ==> r[k] == MovementOf(timesheets[k])
  {
    if |timesheets| == 0 then [] else [MovementOf(timesheets[0])] + Fallback(timesheets[1..])
  }

  /** Each movement with its summary, in order. */
  function Annotate(items: seq<Movement>): (r: seq<Summarized>)
    ensures |r| == |items| && forall k :: 0 <= k < |r| ==> r[k] == Summarized(items[k], Summary(items[k]))
  {
    if |items| == 0 then [] else [Summarized(items[0], Summary(items[0]))] + Annotate(items[1..])
  }

  /** What `listMovements` reads before filtering. */
  function Candidates(stored: seq<Movement>, timesheets: seq<TimesheetSource>, entity: string): seq<Movement> {
    if WantsFallback(stored, entity) then stored + Fallback(timesheets) else stored
  }

  /** `listMovements`: `stored` are the newest stored movements and
      `timesheets` the newest timesheets, both in the order the store returns
      them; the search text filter is not modelled. */
  function ListMovements(stored: seq<Movement>, timesheets: seq<TimesheetSource>, entity: string, author: string): (r: seq<Summarized>)
    ensures |r| <= |stored| + (if WantsFallback(stored, entity) then |timesheets| else 0)
    ensures !WantsFallback(stored, entity) ==> forall k :: 0 <= k < |r| ==> r[k].item in stored
  {
    Annotate(Lists.Filter(Candidates(stored, timesheets, entity), m => KeptBy(m, entity, author)))
  }

  /** A listed movement is a stored one or, only when the fallback is wanted,
      one made from a timesheet; every listed movement passes the filters and
      carries its summary. */
  lemma ListMovementsSources(stored: seq<Movement>, timesheets: seq<TimesheetSource>, entity: string, author: string, k: nat)
    requires k < |ListMovements(stored, timesheets, entity, author)|
    ensures var s := ListMovements(stored, timesheets, entity, author)[k];
      KeptBy(s.item, entity, author) && s.summary == Summary(s.item)
      && (s.item in stored
          || (WantsFallback(stored, entity) && exists j :: 0 <= j < |timesheets| && s.item == MovementOf(timesheets[j])))
  {
    var filtered := Lists.Filter(Candidates(stored, timesheets, entity), m => KeptBy(m, entity, author));
    var m := filtered[k];
    assert m in Candidates(stored, timesheets, entity);
    if m !in stored {
      var j :| 0 <= j < |Fallback(timesheets)| && Fallback(timesheets)[j] == m;
    }
  }

  /** Asking for the entity "hours" loads the fallback, but the fallback
      movements are named "timesheets", so the exact entity filter then drops
      every one of them. */
  lemma HoursFilterDropsFallback(timesheets: seq<TimesheetSource>)
    ensures WantsFallback([], "hours")
    ensures ListMovements([], timesheets, "hours", "") == []
  {
    HoursWantsFallback();
    var fallback := Fallback(timesheets);
    assert Candidates([], timesheets, "hours") == fallback;
    FallbackFilteredOut(fallback, "hours");
  }

  lemma HoursWantsFallback()
    ensures WantsFallback([], "hours")
  {
    assert Lower("hours") == "hours";
  }

  /** Movements named "timesheets" all fail an entity filter on another name. */
  lemma FallbackFilteredOut(fallback: seq<Movement>, entity: string)
    requires entity != "timesheets" && entity != ""
    requires forall k :: 0 <= k < |fallback| ==> fallback[k].entity == Some("timesheets")
    ensures Lists.Filter(fallback, m => KeptBy(m, entity, "")) == []
  {
    Lists.FilterNone(fallback, m => KeptBy(m, entity, ""));
  }

  // ---------------------------------------------------------------- deleteMovement

  /** The `movements` collection. */
  class MovementLog {
    var docs: seq<Movement>

    constructor(initial: seq<Movement>)
      ensures docs == initial
    {
      docs := initial;
    }

    /** `deleteMovement`: only the admin role may delete; an empty id gives
        400 and an unknown one 404. */
    method Delete(roles: seq<string>, id: string) returns (reply: Reply)
      modifies this
      ensures "admin" !in roles ==> reply == Failed(Failure(403, "Solo administradores pueden eliminar movimientos")) && docs == old(docs)
      ensures "admin" in roles && id == "" ==> reply == Failed(Failure(400, "ID requerido")) && docs == old(docs)
      ensures "admin" in roles && id != "" && (forall i :: 0 <= i < |old(docs)| ==> old(docs)[i].id != id) ==>
        reply == Failed(Failure(404, "Movimiento no encontrado")) && docs == old(docs)
      ensures "admin" in roles && id != "" && (exists i :: 0 <= i < |old(docs)| && old(docs)[i].id == id) ==>
        reply == Reply(200, OkBody) && docs == Lists.Filter(old(docs), (m: Movement) => m.id != id)
    {
      if "admin" !in roles {
        return Failed(Failure(403, "Solo administradores pueden eliminar movimientos"));
      }
      if id == "" {
        return Failed(Failure(400, "ID requerido"));
      }
      var exists_ := exists i :: 0 <= i < |docs| && docs[i].id == id;
      if !exists_ {
        return Failed(Failure(404, "Movimiento no encontrado"));
      }
      docs := Lists.Filter(docs, (m: Movement) => m.id != id);
      reply := Reply(200, OkBody);
    }
  }
}

/** The tool loan page of the client: the normalisation of stored loans,
    the merge of the server's loans with those kept on the device, the
    marking of a return, the removal of a return record, the tools that may
    be lent, and the checks made before a loan is registered. */
module ToolMovement {
  import opened Common
  import opened Strings
  import opened Sorting
  import opened Json
  import Lists
  import Text
  import Options

  // ---------------------------------------------------------------- normalisation

  /** A loan as stored on the server or on the device; absent text fields
      are "", and the dates are already in their `YYYY-MM-DD` form, "" when
      absent or unreadable. */
  datatype RawMovement = RawMovement(
    id: string, localId: string, toolId: string, toolName: string, responsable: string, motivo: string,
    estado: Value, fecha: string, createdAt: string, devuelve: string, cliente: string, workOrder: string,
    devuelto: bool, devueltoEstado: Value)

  /** A loan as the page shows it. */
  datatype Movement = Movement(
    id: string, toolId: string, toolName: string, responsable: string, motivo: string, estado: Value,
    fecha: string, devuelve: string, cliente: string, workOrder: string, devuelto: bool, devueltoEstado: Value)

  /** The id of a loan without one: tool, person, dates ("nf" when absent)
      and work order. */
  function KeyBase(toolId: string, responsable: string, fecha: string, devuelve: string, workOrder: string): string {
    toolId + "-" + responsable + "-" + OrElse(fecha, "nf") + "-" + OrElse(devuelve, "nf") + "-" + workOrder
  }

  /** One item of `normalizeMovementList`: dropped when absent or without
      a tool or a person; text sanitised, states normalised, the date
      defaulting to the creation date, the tool's name to its id, and the id
      to the local id, then to the key base of the normalised loan. */
  function NormalizeOne(item: Option<RawMovement>): (r: Option<Movement>)
    ensures r.Some? <==> item.Some? && Text.Sanitize(item.value.toolId) != "" && Text.Sanitize(item.value.responsable) != ""
    ensures r.Some? ==> r.value.id != "" && r.value.toolId != "" && r.value.toolName != "" && r.value.responsable != ""
    ensures r.Some? && Text.Sanitize(item.value.toolName) == "" ==> r.value.toolName == r.value.toolId
    ensures r.Some? && Text.Sanitize(item.value.toolName) != "" ==> r.value.toolName == Text.Sanitize(item.value.toolName)
    ensures r.Some? && item.value.id != "" ==> r.value.id == item.value.id
    ensures r.Some? && item.value.id == "" && item.value.localId != "" ==> r.value.id == item.value.localId
    ensures r.Some? && item.value.id == "" && item.value.localId == "" ==>
      r.value.id == KeyBase(r.value.toolId, r.value.responsable, r.value.fecha, r.value.devuelve, r.value.workOrder)
    ensures r.Some? ==> (r.value.toolId == Text.Sanitize(item.value.toolId)
      && r.value.responsable == Text.Sanitize(item.value.responsable)
      && r.value.motivo == Text.Sanitize(item.value.motivo) && r.value.cliente == Text.Sanitize(item.value.cliente)
      && r.value.workOrder == Text.Sanitize(item.value.workOrder))
    ensures r.Some? ==> (r.value.estado == Options.NormalizeEstado(item.value.estado)
      && r.value.devueltoEstado == Options.NormalizeEstado(item.value.devueltoEstado)
      && r.value.devuelto == item.value.devuelto && r.value.devuelve == item.value.devuelve)
    ensures r.Some? && item.value.fecha != "" ==> r.value.fecha == item.value.fecha
    ensures r.Some? && item.value.fecha == "" ==> r.value.fecha == item.value.createdAt
  {
    if item.None? then None
    else
      var it := item.value;
      var toolId := Text.Sanitize(it.toolId);
      var responsable := Text.Sanitize(it.responsable);
      if toolId == "" || responsable == "" then None
      else
        var fecha := OrElse(it.fecha, it.createdAt);
        var workOrder := Text.Sanitize(it.workOrder);
        var keyBase := KeyBase(toolId, responsable, fecha, it.devuelve, workOrder);
        Some(Movement(
          OrElse(it.id, OrElse(it.localId, keyBase)), toolId, OrElse(Text.Sanitize(it.toolName), toolId),
          responsable, Text.Sanitize(it.motivo), Options.NormalizeEstado(it.estado), fecha, it.devuelve,
          Text.Sanitize(it.cliente), workOrder, it.devuelto, Options.NormalizeEstado(it.devueltoEstado)))
  }

  /** `normalizeMovementList(list)`. */
  function NormalizeList(list: seq<Option<RawMovement>>): seq<Movement> {
    Lists.FilterMap(list, (_: nat, x: Option<RawMovement>) => NormalizeOne(x))
  }

  /** How a shown loan is written to the device. */
  function AsRaw(m: Movement): RawMovement {
    RawMovement(m.id, "", m.toolId, m.toolName, m.responsable, m.motivo, m.estado, m.fecha, "", m.devuelve,
                m.cliente, m.workOrder, m.devuelto, m.devueltoEstado)
  }

  /** Normalising a normalised loan again gives it back. */
  lemma NormalizeOneStable(item: Option<RawMovement>)
    requires NormalizeOne(item).Some?
    ensures NormalizeOne(Some(AsRaw(NormalizeOne(item).value))) == NormalizeOne(item)
  {
    var it := item.value;
    Text.SanitizeIdempotent(it.toolId);
    Text.SanitizeIdempotent(it.toolName);
    Text.SanitizeIdempotent(it.responsable);
    Text.SanitizeIdempotent(it.motivo);
    Text.SanitizeIdempotent(it.cliente);
    Text.SanitizeIdempotent(it.workOrder);
    Options.NormalizersProperties(it.estado);
    Options.NormalizersProperties(it.devueltoEstado);
  }

  /** Every normalised loan is the normalisation of one item of the list,
      and every item that has a tool and a person gives one. */
  lemma NormalizeListProperties(list: seq<Option<RawMovement>>)
    ensures forall m :: m in NormalizeList(list) ==> exists j :: 0 <= j < |list| && NormalizeOne(list[j]) == Some(m)
    ensures forall j :: 0 <= j < |list| && NormalizeOne(list[j]).Some? ==> NormalizeOne(list[j]).value in NormalizeList(list)
  {
    var f := (_: nat, x: Option<RawMovement>) => NormalizeOne(x);
    var r := NormalizeList(list);
    Lists.FilterMapSources(list, f, 0);
    forall m | m in r
      ensures exists j :: 0 <= j < |list| && NormalizeOne(list[j]) == Some(m)
    {
      var k :| 0 <= k < |r| && r[k] == m;
      var j :| 0 <= j < |list| && f(j, list[j]) == Some(m);
    }
    forall j | 0 <= j < |list| && NormalizeOne(list[j]).Some?
      ensures NormalizeOne(list[j]).value in r
    {
      Lists.FilterMapKeeps(list, f, 0, j);
    }
  }

  /** What the page writes to the device. */
  function Persisted(ms: seq<Movement>): seq<Option<RawMovement>> {
    seq(|ms|, i requires 0 <= i < |ms| => Some(AsRaw(ms[i])))
  }

  /** Writing a normalised list to the device and reading it back gives
      the same list. */
  lemma NormalizeListStable(list: seq<Option<RawMovement>>)
    ensures NormalizeList(Persisted(NormalizeList(list))) == NormalizeList(list)
  {
    var r := NormalizeList(list);
    var p := Persisted(r);
    var f := (_: nat, x: Option<RawMovement>) => NormalizeOne(x);
    NormalizeListProperties(list);
    forall i | 0 <= i < |p|
      ensures f(i, p[i]) == Some(r[i])
    {
      var j :| 0 <= j < |list| && NormalizeOne(list[j]) == Some(r[i]);
      NormalizeOneStable(list[j]);
    }
    Lists.FilterMapTotal(p, f, 0);
  }

  // ---------------------------------------------------------------- loading

  /** The key that identifies a loan when the two sources are merged. */
  function DedupKey(m: Movement): string {
    m.toolId + "-" + m.responsable + "-" + m.fecha + "-" + m.devuelve + "-" + m.workOrder
  }

  function KeysOf(s: seq<Movement>): set<string> {
    set m | m in s :: DedupKey(m)
  }

  /** The loans of `s` whose key has not been seen before, in order. */
  function Dedup(s: seq<Movement>): seq<Movement>
    decreases |s|
  {
    if |s| == 0 then []
    else
      var d := Dedup(s[..|s| - 1]);
      var m := s[|s| - 1];
      if DedupKey(m) in KeysOf(d) then d else d + [m]
  }

  /** The merged list keeps loans of the input only, with every key of
      the input. */
  lemma {:induction false} DedupSubset(s: seq<Movement>)
    ensures forall m :: m in Dedup(s) ==> m in s
    ensures KeysOf(Dedup(s)) == KeysOf(s)
    decreases |s|
  {
    if |s| > 0 {
      var init := s[..|s| - 1];
      var m := s[|s| - 1];
      DedupSubset(init);
      assert s == init + [m];
      assert KeysOf(s) == KeysOf(init) + {DedupKey(m)};
      if DedupKey(m) !in KeysOf(Dedup(init)) {
        assert KeysOf(Dedup(s)) == KeysOf(Dedup(init)) + {DedupKey(m)};
      }
    }
  }

  /** Each key is kept once. */
  lemma {:induction false} DedupDistinct(s: seq<Movement>)
    ensures forall i, j :: 0 <= i < j < |Dedup(s)| ==> DedupKey(Dedup(s)[i]) != DedupKey(Dedup(s)[j])
    decreases |s|
  {
    if |s| > 0 {
      var d := Dedup(s[..|s| - 1]);
      DedupDistinct(s[..|s| - 1]);
      if DedupKey(s[|s| - 1]) !in KeysOf(d) {
        forall i | 0 <= i < |d| ensures DedupKey(d[i]) != DedupKey(s[|s| - 1]) {
          assert d[i] in d;
        }
      }
    }
  }

  /** Adding a loan keeps everything kept before. */
  lemma DedupGrows(s: seq<Movement>)
    requires |s| > 0
    ensures forall x :: x in Dedup(s[..|s| - 1]) ==> x in Dedup(s)
  {
  }

  /** A loan whose key is new is kept. */
  lemma DedupKeepsNew(s: seq<Movement>)
    requires |s| > 0
    requires forall j :: 0 <= j < |s| - 1 ==> DedupKey(s[j]) != DedupKey(s[|s| - 1])
    ensures s[|s| - 1] in Dedup(s)
  {
    var init := s[..|s| - 1];
    var m := s[|s| - 1];
    DedupSubset(init);
    forall x | x in init
      ensures DedupKey(x) != DedupKey(m)
    {
      var j :| 0 <= j < |init| && init[j] == x;
    }
    assert DedupKey(m) !in KeysOf(init);
  }

  /** The first loan of each key is the one kept. */
  lemma {:induction false} DedupKeepsFirst(s: seq<Movement>)
    ensures forall i :: 0 <= i < |s| && (forall j :: 0 <= j < i ==> DedupKey(s[j]) != DedupKey(s[i])) ==> s[i] in Dedup(s)
    decreases |s|
  {
    if |s| > 0 {
      var init := s[..|s| - 1];
      DedupKeepsFirst(init);
      DedupGrows(s);
      forall i | 0 <= i < |s| && (forall j :: 0 <= j < i ==> DedupKey(s[j]) != DedupKey(s[i]))
        ensures s[i] in Dedup(s)
      {
        if i < |init| {
          assert forall j :: 0 <= j < i ==> DedupKey(init[j]) != DedupKey(init[i]);
          assert init[i] in Dedup(init);
        } else {
          DedupKeepsNew(s);
        }
      }
    }
  }

  /** `(a.devuelve || "").localeCompare(b.devuelve || "") <= 0`. */
  predicate DevuelveLe(a: Movement, b: Movement) {
    LexLe(a.devuelve, b.devuelve)
  }

  lemma DevuelveLeTotalPreorder()
    ensures TotalPreorder(DevuelveLe)
  {
    forall a: Movement, b: Movement ensures DevuelveLe(a, b) || DevuelveLe(b, a) {
      LexLeTotal(a.devuelve, b.devuelve);
    }
    forall a: Movement, b: Movement, c: Movement | DevuelveLe(a, b) && DevuelveLe(b, c)
      ensures DevuelveLe(a, c)
    {
      LexLeTrans(a.devuelve, b.devuelve, c.devuelve);
    }
  }

  /** The list `loadMovements` shows: server loans before local ones,
      duplicates dropped, sorted by due date. */
  function Merged(server: seq<Movement>, local: seq<Movement>): seq<Movement> {
    SortBy(Dedup(server + local), DevuelveLe)
  }

  /** The merge of `loadMovements` as written: a `seen` set and a list
      that grows item by item, then sorted. */
  method MergeMovements(server: seq<Movement>, local: seq<Movement>) returns (combined: seq<Movement>)
    ensures combined == Merged(server, local)
  {
    var all := server + local;
    var seen: set<string> := {};
    combined := [];
    for i := 0 to |all|
      invariant combined == Dedup(all[..i])
      invariant seen == KeysOf(combined)
    {
      assert all[..i + 1][..i] == all[..i];
      var item := all[i];
      var key := DedupKey(item);
      if key !in seen {
        seen := seen + {key};
        combined := combined + [item];
        assert KeysOf(combined) == KeysOf(combined[..|combined| - 1]) + {key};
      }
    }
    assert all[..|all|] == all;
    combined := SortBy(combined, DevuelveLe);
  }

  /** Loans without a due date come first. */
  lemma EmptyDueFirst(s: seq<Movement>, i: nat, j: nat)
    requires SortedBy(s, DevuelveLe) && i < j < |s| && s[j].devuelve == ""
    ensures s[i].devuelve == ""
  {
    assert DevuelveLe(s[i], s[j]);
  }

  /** The merged list is the deduplicated list (one loan per key, see
      `DedupDistinct`) sorted by due date, and holds loans of the two
      sources only. */
  lemma MergedProperties(server: seq<Movement>, local: seq<Movement>)
    ensures SortedBy(Merged(server, local), DevuelveLe)
    ensures multiset(Merged(server, local)) == multiset(Dedup(server + local))
    ensures forall m :: m in Merged(server, local) <==> m in Dedup(server + local)
    ensures forall m :: m in Merged(server, local) ==> m in server || m in local
  {
    var all := server + local;
    DedupSubset(all);
    DevuelveLeTotalPreorder();
    SortBySorted(Dedup(all), DevuelveLe);
    var r := Merged(server, local);
    forall m ensures m in r <==> m in Dedup(all) {
      assert m in r <==> m in multiset(r);
      assert m in Dedup(all) <==> m in multiset(Dedup(all));
    }
  }

  /** The merged list holds every key of both sources, and a server loan
      wins over a local one with the same key. */
  lemma MergedKeepsServer(server: seq<Movement>, local: seq<Movement>)
    ensures KeysOf(Merged(server, local)) == KeysOf(server) + KeysOf(local)
    ensures forall i :: 0 <= i < |server| && (forall j :: 0 <= j < i ==> DedupKey(server[j]) != DedupKey(server[i])) ==>
      server[i] in Merged(server, local)
  {
    var all := server + local;
    MergedProperties(server, local);
    DedupSubset(all);
    DedupKeepsFirst(all);
    var r := Merged(server, local);
    assert KeysOf(r) == KeysOf(Dedup(all));
    assert KeysOf(all) == KeysOf(server) + KeysOf(local);
    forall i | 0 <= i < |server| && (forall j :: 0 <= j < i ==> DedupKey(server[j]) != DedupKey(server[i]))
      ensures server[i] in r
    {
      assert all[i] == server[i];
      assert forall j :: 0 <= j < i ==> all[j] == server[j];
    }
  }

  // ---------------------------------------------------------------- returns

  /** The first loan with the id, as `find` gives it. */
  function FindById(ms: seq<Movement>, id: string): (r: Option<Movement>)
    ensures r.Some? ==> r.value in ms && r.value.id == id
    ensures r.None? ==> forall m :: m in ms ==> m.id != id
  {
    if |ms| == 0 then None else if ms[0].id == id then Some(ms[0]) else FindById(ms[1..], id)
  }

  /** The loan once returned: marked returned, its due date kept or set to
      today, and the state chosen at return (`answer`, "" when the prompt
      was dismissed) normalised with "Operativo" as default. */
  function Returned(target: Movement, today: string, answer: string): Movement {
    target.(devuelto := true, devuelve := OrElse(target.devuelve, today),
            devueltoEstado := Options.NormalizeEstado(JStr(OrElse(answer, "Operativo"))))
  }

  /** `handleDeleteMovement`: every loan with the id becomes the returned
      form of the first of them; nothing changes when there is none. */
  function MarkReturned(ms: seq<Movement>, id: string, today: string, answer: string): (r: seq<Movement>)
    ensures |r| == |ms|
    ensures forall i :: 0 <= i < |ms| && ms[i].id != id ==> r[i] == ms[i]
    ensures FindById(ms, id).None? ==> r == ms
  {
    match FindById(ms, id)
    case None => ms
    case Some(target) =>
      seq(|ms|, i requires 0 <= i < |ms| => if ms[i].id == id then Returned(target, today, answer) else ms[i])
  }

  /** With unique ids, the target alone changes, and only in the three
      return fields: it is returned, keeps a due date it had, else gets
      today, and carries a state. */
  lemma MarkReturnedTarget(ms: seq<Movement>, id: string, today: string, answer: string, i: nat)
    requires i < |ms| && ms[i].id == id
    requires forall j, k :: 0 <= j < k < |ms| ==> ms[j].id != ms[k].id
    ensures var r := MarkReturned(ms, id, today, answer)[i];
      r.devuelto && r.devuelve == (if ms[i].devuelve != "" then ms[i].devuelve else today)
      && Truthy(r.devueltoEstado)
      && r.(devuelto := ms[i].devuelto, devuelve := ms[i].devuelve, devueltoEstado := ms[i].devueltoEstado) == ms[i]
  {
    var t := FindById(ms, id).value;
    var j :| 0 <= j < |ms| && ms[j] == t;
    assert j == i;
    Options.NormalizersProperties(JStr(OrElse(answer, "Operativo")));
  }

  /** A tool of the inventory, as this page reads it. */
  datatype ToolRow = ToolRow(id: string, nombre: string, numero: string, estado: Value)

  /** The returned tool takes the state chosen at return. */
  function ReturnTool(tools: seq<ToolRow>, toolId: string, estado: Value): (r: seq<ToolRow>)
    ensures |r| == |tools|
    ensures forall i :: 0 <= i < |tools| ==> r[i] == if tools[i].id == toolId then tools[i].(estado := estado) else tools[i]
  {
    seq(|tools|, i requires 0 <= i < |tools| => if tools[i].id == toolId then tools[i].(estado := estado) else tools[i])
  }

  /** `handleDeleteReturnRecord`: only an administrator removes, and then
      exactly the loans with that id. */
  function DeleteReturnRecord(isAdmin: bool, ms: seq<Movement>, id: string): (r: seq<Movement>)
    ensures !isAdmin ==> r == ms
    ensures isAdmin ==> forall m :: m in r <==> m in ms && m.id != id
  {
    if !isAdmin || FindById(ms, id).None? then ms
    else Lists.Filter(ms, (m: Movement) => m.id != id)
  }

  // ---------------------------------------------------------------- tools that may be lent

  predicate Operative(t: ToolRow) {
    Options.NormalizeEstado(t.estado) == JStr("Operativo")
  }

  /** A loan that keeps its tool busy: not returned, with a tool, and not
      overdue; `past(d)` says that the due date `d` reads as a day before
      today. */
  predicate Busy(m: Movement, past: string -> bool) {
    !m.devuelto && m.toolId != "" && !past(m.devuelve)
  }

  /** The search on name and internal number. */
  predicate Matches(t: ToolRow, term: string) {
    term == "" || Contains(Lower(t.nombre), term) || Contains(Lower(t.numero), term)
  }

  /** The ids of the tools a shown, unreturned loan keeps busy. */
  function ActiveIds(ms: seq<Movement>, past: string -> bool): set<string> {
    var visible := Lists.Filter(ms, (m: Movement) => !m.devuelto);
    set m | m in visible && Busy(m, past) :: m.toolId
  }

  lemma ActiveIdsIff(ms: seq<Movement>, past: string -> bool, id: string)
    ensures id in ActiveIds(ms, past) <==> exists m :: m in ms && Busy(m, past) && m.toolId == id
  {
    var visible := Lists.Filter(ms, (m: Movement) => !m.devuelto);
    if exists m :: m in ms && Busy(m, past) && m.toolId == id {
      var m :| m in ms && Busy(m, past) && m.toolId == id;
      assert m in visible;
    }
  }

  /** `filteredTools`. */
  function FilteredTools(tools: seq<ToolRow>, ms: seq<Movement>, search: string, past: string -> bool): seq<ToolRow> {
    var available := Lists.Filter(tools, Operative);
    var activeIds := ActiveIds(ms, past);
    var pool := Lists.Filter(available, (t: ToolRow) => t.id !in activeIds);
    var term := Lower(Trim(search));
    if term == "" then pool else Lists.Filter(pool, (t: ToolRow) => Matches(t, term))
  }

  /** A tool may be lent exactly when it is in the inventory, operative,
      matches the search, and no loan keeps it busy. */
  lemma FilteredToolsIff(tools: seq<ToolRow>, ms: seq<Movement>, search: string, past: string -> bool, t: ToolRow)
    ensures t in FilteredTools(tools, ms, search, past) <==>
      t in tools && Operative(t) && Matches(t, Lower(Trim(search)))
      && forall m :: m in ms && Busy(m, past) ==> m.toolId != t.id
  {
    ActiveIdsIff(ms, past, t.id);
  }

  /** An overdue loan does not keep its tool: a tool whose every loan is
      returned or overdue is offered when operative and matching. */
  lemma OverdueFreesTool(tools: seq<ToolRow>, ms: seq<Movement>, search: string, past: string -> bool, t: ToolRow)
    requires t in tools && Operative(t) && Matches(t, Lower(Trim(search)))
    requires forall m :: m in ms && m.toolId == t.id ==> m.devuelto || past(m.devuelve)
    ensures t in FilteredTools(tools, ms, search, past)
  {
    FilteredToolsIff(tools, ms, search, past, t);
  }

  // ---------------------------------------------------------------- registering a loan

  /** The loan form; `dias` is `None` when the field is not a number. */
  datatype LoanForm = LoanForm(toolId: string, responsable: string, motivo: string, dias: Option<int>,
                               cliente: string, workOrderId: string)

  /** A work order offered for the client. */
  datatype OrderChoice = OrderChoice(id: string, caption: string)

  /** The body of the loan; dates are day numbers. */
  datatype LoanPayload = LoanPayload(toolId: string, responsable: string, motivo: string, dias: int, estado: string,
                                     fecha: int, devuelve: int, cliente: string, workOrderId: string, workOrder: string)

  /** The order at `k` is the first one with the id. */
  predicate FirstWithId(orders: seq<OrderChoice>, id: string, k: int) {
    0 <= k < |orders| && orders[k].id == id && forall j :: 0 <= j < k ==> orders[j].id != id
  }

  /** The label of the chosen work order: that of the first order with the
      id, "" when it is not offered. */
  function OrderLabel(orders: seq<OrderChoice>, id: string): (r: string)
    ensures (forall o :: o in orders ==> o.id != id) ==> r == ""
    ensures forall k :: FirstWithId(orders, id, k) ==> r == orders[k].caption
  {
    if |orders| == 0 then ""
    else if orders[0].id == id then orders[0].caption
    else
      assert forall k :: FirstWithId(orders, id, k) ==> FirstWithId(orders[1..], id, k - 1);
      OrderLabel(orders[1..], id)
  }

  /** `handleSubmit`'s checks and payload; `today` is today's day number. */
  function SubmitLoan(form: LoanForm, orders: seq<OrderChoice>, today: int): (r: Result<LoanPayload, string>)
    ensures r.Ok? <==> form.toolId != "" && Trim(form.responsable) != "" && form.dias.GetOr(0) >= 0
    ensures form.toolId == "" ==> r == Err("Selecciona una herramienta")
    ensures form.toolId != "" && Trim(form.responsable) == "" ==> r == Err("Responsable es obligatorio")
    ensures r.Ok? ==> (r.value.devuelve == r.value.fecha + r.value.dias && r.value.dias >= 0 && r.value.fecha == today
      && r.value.responsable == Trim(form.responsable) && r.value.estado == "Operativo" && r.value.toolId == form.toolId)
    ensures r.Ok? ==> r.value.dias == form.dias.GetOr(0) && r.value.devuelve == today + form.dias.GetOr(0)
    ensures r.Ok? ==> (r.value.motivo == Trim(form.motivo) && r.value.cliente == Trim(form.cliente)
      && r.value.workOrderId == form.workOrderId && r.value.workOrder == OrderLabel(orders, form.workOrderId))
  {
    if form.toolId == "" then Err("Selecciona una herramienta")
    else
      var responsable := Trim(form.responsable);
      var dias := form.dias.GetOr(0);
      if responsable == "" then Err("Responsable es obligatorio")
      else if dias < 0 then Err("El tiempo acordado debe ser mayor o igual a 0")
      else Ok(LoanPayload(form.toolId, responsable, Trim(form.motivo), dias, "Operativo", today, today + dias,
                          Trim(form.cliente), form.workOrderId, OrderLabel(orders, form.workOrderId)))
  }

  /** A negative number of days is refused with its own message. */
  lemma NegativeDaysRefused(form: LoanForm, orders: seq<OrderChoice>, today: int)
    requires form.toolId != "" && Trim(form.responsable) != "" && form.dias.Some? && form.dias.value < 0
    ensures SubmitLoan(form, orders, today) == Err("El tiempo acordado debe ser mayor o igual a 0")
  {
  }

  /** The message shown when loading fails: none when the server says the
      route is not found, whatever its case, and the message itself
      otherwise. */
  function LoadError(message: string): (r: string)
    ensures r == "" <==> message == "" || Contains(Lower(message), "no encontrada")
    ensures r != "" ==> r == message
  {
    if Contains(Lower(message), "no encontrada") then "" else message
  }

  // ---------------------------------------------------------------- the page's state

  /** The loans and tools the page holds. */
  class LoanBoard {
    var movements: seq<Movement>
    var tools: seq<ToolRow>

    constructor ()
      ensures movements == [] && tools == []
    {
      movements := [];
      tools := [];
    }

    /** `loadMovements` after a successful request. */
    method Load(serverList: seq<Option<RawMovement>>, localList: seq<Option<RawMovement>>)
      modifies this
      ensures movements == Merged(NormalizeList(serverList), NormalizeList(localList))
      ensures tools == old(tools)
    {
      movements := MergeMovements(NormalizeList(serverList), NormalizeList(localList));
    }

    /** `loadMovements` when the request fails: the device's loans alone,
        normalised but neither merged nor sorted; the message shown is
        returned. */
    method LoadFailed(localList: seq<Option<RawMovement>>, message: string) returns (shown: string)
      modifies this
      ensures movements == NormalizeList(localList)
      ensures tools == old(tools)
      ensures shown == LoadError(message)
    {
      movements := NormalizeList(localList);
      shown := if Contains(Lower(message), "no encontrada") then "" else message;
    }

    /** `handleDeleteMovement`: the loan is marked returned and its tool
        takes the state chosen at return. */
    method MarkReturn(id: string, today: string, answer: string)
      modifies this
      ensures movements == MarkReturned(old(movements), id, today, answer)
      ensures FindById(old(movements), id).None? ==> tools == old(tools)
      ensures FindById(old(movements), id).Some? ==>
        tools == ReturnTool(old(tools), FindById(old(movements), id).value.toolId,
                            Returned(FindById(old(movements), id).value, today, answer).devueltoEstado)
    {
      var target := FindById(movements, id);
      if target.Some? {
        var updated := Returned(target.value, today, answer);
        movements := MarkReturned(movements, id, today, answer);
        tools := ReturnTool(tools, target.value.toolId, updated.devueltoEstado);
      }
    }

    /** `handleDeleteReturnRecord`. */
    method DeleteRecord(isAdmin: bool, id: string)
      modifies this
      ensures movements == DeleteReturnRecord(isAdmin, old(movements), id)
      ensures tools == old(tools)
    {
      movements := DeleteReturnRecord(isAdmin, movements, id);
    }
  }
}

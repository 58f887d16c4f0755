/** The stock ledger. A material is a record of text fields and a quantity
    (`Cantidad`). Creating a material that equals an existing one on the
    eleven match fields adds to its quantity instead of storing a second
    record. A stock operation takes quantity in ('in'), out to a site and a
    person ('out'), or moves it to another site ('transfer'); stock never
    goes below zero and a transfer conserves the total. */
module Materials {
  import opened Common
  import opened Strings
  import opened Json
  import opened Http
  import TimeOfDay
  import Lists

  const DefaultPageSize: nat := 120

  /** A stored material. */
  datatype Material = Material(
    descripcion: string,
    cantidad: int,
    unidad: string,
    rubro: string,
    marca: string,
    material: string,
    ubicacion: string,
    proveedor: string,
    comprador: string,
    observaciones: string,
    condicion: string,
    obra: string,
    fecha: string)

  /** A request body: the text fields (an absent field is the empty string)
      and the raw `Cantidad`. */
  datatype MaterialBody = MaterialBody(
    descripcion: string,
    cantidad: Value,
    unidad: string,
    rubro: string,
    marca: string,
    material: string,
    ubicacion: string,
    proveedor: string,
    comprador: string,
    observaciones: string,
    condicion: string,
    obra: string,
    fecha: string)

  /** `Number(v)` on the values the model covers: numbers, `null` (0),
      booleans (1 or 0) and digit strings; anything else is NaN (None). */
  function JsNumber(v: Value): Option<int> {
    match v
    case JNum(n) => Some(n)
    case JNull => Some(0)
    case JBool(b) => Some(if b then 1 else 0)
    case JStr(s) => if TimeOfDay.NumberOf(s).Some? then Some(TimeOfDay.NumberOf(s).value) else None
    case _ => None
  }

  // ---------------------------------------------------------------- normalize

  /** `Number(Cantidad || 0)`, NaN read as 0. */
  function Quantity(v: Value): int {
    JsNumber(if Truthy(v) then v else JNum(0)).GetOr(0)
  }

  /** Absent, empty and non-numeric quantities are 0; numbers and digit
      strings are read as they are. */
  lemma QuantityExamples()
    ensures Quantity(JNull) == 0 && Quantity(JStr("")) == 0 && Quantity(JStr("doce")) == 0
    ensures Quantity(JNum(7)) == 7 && Quantity(JNum(-2)) == -2 && Quantity(JStr("12")) == 12
  {
    assert !IsDigit("doce"[0]);
    assert Trim("doce") == "doce" by {
      TrimStartNoop("doce");
      TrimEndNoop("doce");
    }
    assert AllDigits("12");
    assert DigitsValue("12") == 12 by {
      assert "12"[..1] == "1";
    }
  }

  /** `normalize(body)`: every text field trimmed and `Number(Cantidad || 0)`
      with NaN read as 0; a blank Descripcion, Rubro or Condicion (checked in
      that order) is an error. */
  function Normalize(b: MaterialBody): (r: Result<Material, string>)
    ensures r.Ok? <==> Trim(b.descripcion) != "" && Trim(b.rubro) != "" && Trim(b.condicion) != ""
    ensures r.Err? ==> r.error == (if Trim(b.descripcion) == "" then "Descripcion requerida"
                                   else if Trim(b.rubro) == "" then "Rubro requerido"
                                   else "Condicion requerida")
    ensures r.Ok? ==> Normalized(r.value) && r.value.cantidad == Quantity(b.cantidad)
    ensures r.Ok? ==> (r.value.descripcion == Trim(b.descripcion) && r.value.unidad == Trim(b.unidad)
      && r.value.rubro == Trim(b.rubro) && r.value.marca == Trim(b.marca) && r.value.material == Trim(b.material)
      && r.value.ubicacion == Trim(b.ubicacion) && r.value.proveedor == Trim(b.proveedor)
      && r.value.comprador == Trim(b.comprador) && r.value.observaciones == Trim(b.observaciones)
      && r.value.condicion == Trim(b.condicion) && r.value.obra == Trim(b.obra) && r.value.fecha == Trim(b.fecha))
  {
    var out := Material(
      Trim(b.descripcion), Quantity(b.cantidad), Trim(b.unidad), Trim(b.rubro), Trim(b.marca),
      Trim(b.material), Trim(b.ubicacion), Trim(b.proveedor), Trim(b.comprador),
      Trim(b.observaciones), Trim(b.condicion), Trim(b.obra), Trim(b.fecha));
    TrimIdempotentAll(b);
    if out.descripcion == "" then Err("Descripcion requerida")
    else if out.rubro == "" then Err("Rubro requerido")
    else if out.condicion == "" then Err("Condicion requerida")
    else Ok(out)
  }

  lemma TrimIdempotentAll(b: MaterialBody)
    ensures Trim(Trim(b.descripcion)) == Trim(b.descripcion) && Trim(Trim(b.unidad)) == Trim(b.unidad)
    ensures Trim(Trim(b.rubro)) == Trim(b.rubro) && Trim(Trim(b.marca)) == Trim(b.marca)
    ensures Trim(Trim(b.material)) == Trim(b.material) && Trim(Trim(b.ubicacion)) == Trim(b.ubicacion)
    ensures Trim(Trim(b.proveedor)) == Trim(b.proveedor) && Trim(Trim(b.comprador)) == Trim(b.comprador)
    ensures Trim(Trim(b.observaciones)) == Trim(b.observaciones) && Trim(Trim(b.condicion)) == Trim(b.condicion)
    ensures Trim(Trim(b.obra)) == Trim(b.obra) && Trim(Trim(b.fecha)) == Trim(b.fecha)
  {
    TrimIdempotent(b.descripcion);
    TrimIdempotent(b.unidad);
    TrimIdempotent(b.rubro);
    TrimIdempotent(b.marca);
    TrimIdempotent(b.material);
    TrimIdempotent(b.ubicacion);
    TrimIdempotent(b.proveedor);
    TrimIdempotent(b.comprador);
    TrimIdempotent(b.observaciones);
    TrimIdempotent(b.condicion);
    TrimIdempotent(b.obra);
    TrimIdempotent(b.fecha);
  }

  /** What `normalize` produces: trimmed text and the three required fields
      present. */
  predicate Normalized(m: Material) {
    Trim(m.descripcion) == m.descripcion && Trim(m.unidad) == m.unidad && Trim(m.rubro) == m.rubro
    && Trim(m.marca) == m.marca && Trim(m.material) == m.material && Trim(m.ubicacion) == m.ubicacion
    && Trim(m.proveedor) == m.proveedor && Trim(m.comprador) == m.comprador
    && Trim(m.observaciones) == m.observaciones && Trim(m.condicion) == m.condicion
    && Trim(m.obra) == m.obra && Trim(m.fecha) == m.fecha
    && m.descripcion != "" && m.rubro != "" && m.condicion != ""
  }

  /** The body a client would send for a material. */
  function BodyOf(m: Material): MaterialBody {
    MaterialBody(m.descripcion, JNum(m.cantidad), m.unidad, m.rubro, m.marca, m.material,
      m.ubicacion, m.proveedor, m.comprador, m.observaciones, m.condicion, m.obra, m.fecha)
  }

  /** Normalising a normalised material's body gives it back. */
  lemma NormalizeRoundTrip(m: Material)
    requires Normalized(m)
    ensures Normalize(BodyOf(m)) == Ok(m)
  {
  }

  // ---------------------------------------------------------------- matching

  /** `MATERIAL_MATCH_FIELDS`: every field except the quantity and the date. */
  function MatchKey(m: Material): seq<string> {
    [m.descripcion, m.rubro, m.unidad, m.condicion, m.obra, m.marca, m.material,
     m.ubicacion, m.proveedor, m.comprador, m.observaciones]
  }

  predicate Matches(a: Material, b: Material) {
    MatchKey(a) == MatchKey(b)
  }

  /** Two materials match exactly when they differ at most in quantity and
      date. */
  lemma MatchesIff(a: Material, b: Material)
    ensures Matches(a, b) <==> a.(cantidad := 0, fecha := "") == b.(cantidad := 0, fecha := "")
  {
    if Matches(a, b) {
      var ka, kb := MatchKey(a), MatchKey(b);
      assert ka[0] == kb[0] && ka[1] == kb[1] && ka[2] == kb[2] && ka[3] == kb[3];
      assert ka[4] == kb[4] && ka[5] == kb[5] && ka[6] == kb[6] && ka[7] == kb[7];
      assert ka[8] == kb[8] && ka[9] == kb[9] && ka[10] == kb[10];
    }
  }

  /** A stored material and its document id. */
  datatype MaterialDoc = MaterialDoc(id: string, data: Material)

  /** `findExistingMaterial(value)`: the first document, in store order, that
      matches `value`. */
  function FindExisting(docs: seq<MaterialDoc>, value: Material, i: nat): (r: Option<nat>)
    requires i <= |docs|
    ensures r.Some? ==> (i <= r.value < |docs| && Matches(docs[r.value].data, value)
      && forall j :: i <= j < r.value ==> !Matches(docs[j].data, value))
    ensures r.None? ==> forall j :: i <= j < |docs| ==> !Matches(docs[j].data, value)
    decreases |docs| - i
  {
    if i == |docs| then None
    else if Matches(docs[i].data, value) then Some(i)
    else FindExisting(docs, value, i + 1)
  }

  /** The document with id `id`. */
  function FindId(docs: seq<MaterialDoc>, id: string, i: nat): (r: Option<nat>)
    requires i <= |docs|
    ensures r.Some? ==> (i <= r.value < |docs| && docs[r.value].id == id)
    ensures r.None? ==> forall j :: i <= j < |docs| ==> docs[j].id != id
    decreases |docs| - i
  {
    if i == |docs| then None
    else if docs[i].id == id then Some(i)
    else FindId(docs, id, i + 1)
  }

  /** The total quantity in stock. */
  function Total(docs: seq<MaterialDoc>): int {
    if |docs| == 0 then 0 else Total(docs[..|docs| - 1]) + docs[|docs| - 1].data.cantidad
  }

  lemma {:induction false} TotalAppend(docs: seq<MaterialDoc>, d: MaterialDoc)
    ensures Total(docs + [d]) == Total(docs) + d.data.cantidad
  {
    assert (docs + [d])[..|docs|] == docs;
  }

  /** Changing one quantity changes the total by the same amount. */
  lemma {:induction false} TotalAdd(docs: seq<MaterialDoc>, i: nat, delta: int)
    requires i < |docs|
    ensures Total(docs[i := AddQuantity(docs[i], delta)]) == Total(docs) + delta
    decreases |docs|
  {
    var docs' := docs[i := AddQuantity(docs[i], delta)];
    var n := |docs|;
    if i == n - 1 {
      assert docs'[..n - 1] == docs[..n - 1];
    } else {
      assert docs'[..n - 1] == docs[..n - 1][i := AddQuantity(docs[i], delta)];
      TotalAdd(docs[..n - 1], i, delta);
    }
  }

  /** `FieldValue.increment(delta)` on the quantity. */
  function AddQuantity(d: MaterialDoc, delta: int): MaterialDoc {
    d.(data := d.data.(cantidad := d.data.cantidad + delta))
  }

  // ---------------------------------------------------------------- createMaterial

  datatype Outcome = Outcome(reply: Reply, docs: seq<MaterialDoc>)

  function CreatedBody(id: string, merged: bool): Value {
    JObj([("id", JStr(id)), ("merged", JBool(merged))])
  }

  /** `createMaterial(body)`: a body `normalize` refuses gives 400 with its
      message; otherwise the normalised material is stored. */
  function CreateSpec(docs: seq<MaterialDoc>, body: MaterialBody, newId: string): Outcome {
    match Normalize(body)
    case Err(e) => Outcome(Failed(Failure(400, e)), docs)
    case Ok(value) => CreateWith(docs, value, newId)
  }

  /** Storing a normalised material: one matching an existing material adds
      its quantity to that material's (merged); otherwise it is stored under
      the fresh id `newId`. */
  function CreateWith(docs: seq<MaterialDoc>, value: Material, newId: string): Outcome {
    match FindExisting(docs, value, 0)
    case Some(i) => Outcome(Reply(200, CreatedBody(docs[i].id, true)), docs[i := AddQuantity(docs[i], value.cantidad)])
    case None => Outcome(Reply(200, CreatedBody(newId, false)), docs + [MaterialDoc(newId, value)])
  }

  /** No two stored materials match each other. */
  predicate NoTwins(docs: seq<MaterialDoc>) {
    forall i, j :: 0 <= i < j < |docs| ==> !Matches(docs[i].data, docs[j].data)
  }

  /** A created material merges exactly when a stored one matches it, and
      the total grows by its quantity either way. */
  lemma CreateMergesOrAppends(docs: seq<MaterialDoc>, value: Material, newId: string)
    ensures var o := CreateWith(docs, value, newId);
      (Member(o.reply.body, "merged") == Some(JBool(true)) <==> exists i :: 0 <= i < |docs| && Matches(docs[i].data, value))
      && (Member(o.reply.body, "merged") == Some(JBool(true)) <==> |o.docs| == |docs|)
      && Total(o.docs) == Total(docs) + value.cantidad
  {
    match FindExisting(docs, value, 0)
    case Some(i) =>
      TotalAdd(docs, i, value.cantidad);
    case None =>
      TotalAppend(docs, MaterialDoc(newId, value));
  }

  /** After a create some stored material matches the created one, and when
      no two materials matched each other before, none do after. */
  lemma CreateKeepsNoTwins(docs: seq<MaterialDoc>, value: Material, newId: string)
    ensures var o := CreateWith(docs, value, newId);
      FindExisting(o.docs, value, 0).Some? && (NoTwins(docs) ==> NoTwins(o.docs))
  {
    var o := CreateWith(docs, value, newId);
    match FindExisting(docs, value, 0)
    case Some(i) =>
      assert Matches(o.docs[i].data, value);
      FindExistingFinds(o.docs, value, i);
      forall a | 0 <= a < |o.docs| ensures MatchKey(o.docs[a].data) == MatchKey(docs[a].data) {
      }
    case None =>
      assert Matches(o.docs[|docs|].data, value);
      FindExistingFinds(o.docs, value, |docs|);
      if NoTwins(docs) {
        forall a, c | 0 <= a < c < |o.docs| ensures !Matches(o.docs[a].data, o.docs[c].data) {
          if c == |docs| {
            assert !Matches(docs[a].data, value);
          } else {
            assert o.docs[a] == docs[a] && o.docs[c] == docs[c];
          }
        }
      }
  }

  lemma FindExistingFinds(docs: seq<MaterialDoc>, value: Material, i: nat)
    requires i < |docs| && Matches(docs[i].data, value)
    ensures FindExisting(docs, value, 0).Some?
  {
  }

  // ---------------------------------------------------------------- stockOperation

  /** The fields `stockOperation` reads from the body; absent text fields are
      the empty string. */
  datatype StockRequest = StockRequest(
    action: string, cantidad: Value, motivo: string, destino: string, entregadoA: string, detalle: string)

  /** `stockOperation` on material `id`:
      - an action other than 'in', 'out' and 'transfer' gives 400;
      - a quantity that is NaN, zero or negative gives 400;
      - an 'out' without destination or recipient (after trim) gives 400;
      - an unknown material gives 404;
      - 'out' and 'transfer' taking more than the stock give 400;
      otherwise the material's quantity moves by the quantity, and a transfer
      to a destination adds the quantity to the material that matches the
      source with `Obra` set to the destination, or stores such a material
      under the fresh id `newId`. The reply carries the new quantity and the
      destination's id. */
  function StockSpec(docs: seq<MaterialDoc>, id: string, req: StockRequest, newId: string): Outcome {
    var qty := JsNumber(req.cantidad);
    var destino := Trim(req.destino);
    if req.action !in {"in", "out", "transfer"} then Outcome(Failed(Failure(400, "accion invalida")), docs)
    else if qty.None? || qty.value <= 0 then Outcome(Failed(Failure(400, "cantidad invalida")), docs)
    else if req.action == "out" && (destino == "" || Trim(req.entregadoA) == "") then
      Outcome(Failed(Failure(400, "Destino y responsable requeridos para egreso")), docs)
    else
      match FindId(docs, id, 0)
      case None => Outcome(Failed(Failure(404, "Material no encontrado")), docs)
      case Some(i) => StockAt(docs, i, req.action, qty.value, destino, newId)
  }

  /** An accepted request on the material at position `i`: moving `q` units
      in or out, then to the destination `destino` on a transfer. */
  function StockAt(docs: seq<MaterialDoc>, i: nat, action: string, q: int, destino: string, newId: string): Outcome
    requires i < |docs|
  {
    var data := docs[i].data;
    if action != "in" && data.cantidad - q < 0 then Outcome(Failed(Failure(400, "No hay stock suficiente")), docs)
    else
      var delta := if action == "in" then q else -q;
      var dest := Destination(docs, i, action, q, destino, newId);
      Outcome(Reply(200, StockBody(data.cantidad + delta, dest.0)), dest.1)
  }

  /** The source moved by the quantity, then the transfer's destination
      when there is one; the destination's id comes first. */
  function Destination(docs: seq<MaterialDoc>, i: nat, action: string, q: int, destino: string, newId: string): (Option<string>, seq<MaterialDoc>)
    requires i < |docs|
  {
    var moved := docs[i := AddQuantity(docs[i], if action == "in" then q else -q)];
    if action == "transfer" && destino != "" then TransferTo(moved, docs[i].data.(obra := destino), q, newId) else (None, moved)
  }

  /** The destination of a transfer: the material matching `target` gains
      `q`, or a new one holding `q` is stored under `newId`; the id of the
      destination comes first. */
  function TransferTo(docs: seq<MaterialDoc>, target: Material, q: int, newId: string): (Option<string>, seq<MaterialDoc>) {
    match FindExisting(docs, target, 0)
    case Some(j) => (Some(docs[j].id), docs[j := AddQuantity(docs[j], q)])
    case None => (Some(newId), docs + [MaterialDoc(newId, target.(cantidad := q))])
  }

  function StockBody(cantidad: int, destinoId: Option<string>): Value {
    JObj([("ok", JBool(true)), ("cantidad", JNum(cantidad)),
          ("destinoId", if destinoId.Some? then JStr(destinoId.value) else JNull)])
  }

  /** An accepted 'out' or 'transfer' never leaves the source below zero, and
      the reply carries the source's new quantity: raised by the quantity for
      'in', lowered by it otherwise. */
  lemma StockNeverNegative(docs: seq<MaterialDoc>, i: nat, action: string, q: int, destino: string, newId: string)
    requires i < |docs|
    requires StockAt(docs, i, action, q, destino, newId).reply.status == 200
    ensures var o := StockAt(docs, i, action, q, destino, newId);
      var c := docs[i].data.cantidad;
      Member(o.reply.body, "cantidad") == Some(JNum(if action == "in" then c + q else c - q))
      && (action != "in" ==> c - q >= 0)
  {
    var c := docs[i].data.cantidad;
    var n := if action == "in" then c + q else c - q;
    StockAtReply(docs, i, action, q, destino, newId);
    StockBodyCantidad(n, Destination(docs, i, action, q, destino, newId).0);
  }

  lemma StockAtReply(docs: seq<MaterialDoc>, i: nat, action: string, q: int, destino: string, newId: string)
    requires i < |docs|
    requires StockAt(docs, i, action, q, destino, newId).reply.status == 200
    ensures action != "in" ==> docs[i].data.cantidad - q >= 0
    ensures StockAt(docs, i, action, q, destino, newId).reply.body
      == StockBody(if action == "in" then docs[i].data.cantidad + q else docs[i].data.cantidad - q,
                   Destination(docs, i, action, q, destino, newId).0)
  {
  }

  lemma StockBodyCantidad(c: int, d: Option<string>)
    ensures Member(StockBody(c, d), "cantidad") == Some(JNum(c))
  {
    var fields := StockBody(c, d).fields;
    assert fields[0].0 == "ok" && fields[1].0 == "cantidad";
    assert Get(fields, "cantidad") == Get(fields[1..], "cantidad");
  }

  /** The total stock moves by the quantity for 'in' and 'out', and a
      transfer to a destination conserves it; a transfer without destination
      only takes from the source. */
  lemma StockConservation(docs: seq<MaterialDoc>, i: nat, action: string, q: int, destino: string, newId: string)
    requires i < |docs|
    requires StockAt(docs, i, action, q, destino, newId).reply.status == 200
    ensures Total(StockAt(docs, i, action, q, destino, newId).docs) == Total(docs) + (
        if action == "in" then q
        else if action == "transfer" && destino != "" then 0
        else -q)
  {
    var delta := if action == "in" then q else -q;
    var moved := docs[i := AddQuantity(docs[i], delta)];
    TotalAdd(docs, i, delta);
    if action == "transfer" && destino != "" {
      var target := docs[i].data.(obra := destino);
      match FindExisting(moved, target, 0)
      case Some(j) =>
        TotalAdd(moved, j, q);
      case None =>
        TotalAppend(moved, MaterialDoc(newId, target.(cantidad := q)));
    }
  }

  /** A transfer to a destination leaves a material matching the source with
      the destination's `Obra`, and that material holds exactly `q` more than
      before (or `q`, when it is new). */
  lemma TransferReachesDestination(docs: seq<MaterialDoc>, i: nat, q: int, destino: string, newId: string)
    requires i < |docs| && destino != ""
    requires StockAt(docs, i, "transfer", q, destino, newId).reply.status == 200
    ensures var target := docs[i].data.(obra := destino);
      var moved := docs[i := AddQuantity(docs[i], -q)];
      var after := StockAt(docs, i, "transfer", q, destino, newId).docs;
      match FindExisting(moved, target, 0)
      case Some(j) => Matches(after[j].data, target) && after[j].data.cantidad == moved[j].data.cantidad + q
      case None => |after| == |docs| + 1 && Matches(after[|docs|].data, target) && after[|docs|].data.cantidad == q
  {
  }

  /** Every refusal leaves the stock as it was, and the request is refused
      exactly in the listed cases. */
  lemma StockRefusals(docs: seq<MaterialDoc>, id: string, req: StockRequest, newId: string)
    ensures var o := StockSpec(docs, id, req, newId);
      o.reply.status != 200 ==> o.docs == docs
    ensures var o := StockSpec(docs, id, req, newId);
      var qty := JsNumber(req.cantidad);
      (o.reply.status == 200 <==>
            req.action in {"in", "out", "transfer"} && qty.Some? && qty.value > 0
            && (req.action == "out" ==> Trim(req.destino) != "" && Trim(req.entregadoA) != "")
            && FindId(docs, id, 0).Some?
            && (req.action != "in" ==> docs[FindId(docs, id, 0).value].data.cantidad >= qty.value))
  {
  }

  // ---------------------------------------------------------------- listing

  /** `parseLimit`: NaN or a value not above zero gives the default page size,
      anything else is clamped to [20, 500]. */
  function ParseLimit(p: Option<string>): (r: nat)
    ensures 20 <= r <= 500
    ensures p.None? || TimeOfDay.NumberOf(p.value).None? || TimeOfDay.NumberOf(p.value).value <= 0 ==> r == DefaultPageSize
    ensures p.Some? && TimeOfDay.NumberOf(p.value).Some? && 0 < TimeOfDay.NumberOf(p.value).value < 20 ==> r == 20
    ensures p.Some? && TimeOfDay.NumberOf(p.value).Some? && TimeOfDay.NumberOf(p.value).value > 500 ==> r == 500
    ensures p.Some? && TimeOfDay.NumberOf(p.value).Some? && 20 <= TimeOfDay.NumberOf(p.value).value <= 500 ==>
      r == TimeOfDay.NumberOf(p.value).value
  {
    var num := if p.None? then None else TimeOfDay.NumberOf(p.value);
    if num.None? || num.value <= 0 then DefaultPageSize
    else Min(Max(num.value, 20), 500)
  }

  /** A limit already in range is kept; a missing or unparsable one is the
      default. */
  lemma ParseLimitKeepsRange(n: nat)
    requires 20 <= n <= 500
    ensures ParseLimit(Some(NatToString(n))) == n
    ensures ParseLimit(None) == DefaultPageSize
    ensures ParseLimit(Some("0")) == DefaultPageSize
  {
    DigitsValueOfNatToString(n);
    assert AllDigits("0");
  }

  /** One page of the listing: `limit + 1` documents are fetched from the
      cursor on, the first `limit` are returned, and the next cursor is taken
      from the last returned one only when more existed. */
  datatype Page<T> = Page(items: seq<T>, nextCursor: Option<string>)

  function ListPage<T>(after: seq<T>, limit: nat, cursorOf: T -> Option<string>): (r: Page<T>)
    requires limit > 0
    ensures |r.items| <= limit && |r.items| <= |after| && r.items == after[..|r.items|]
    ensures r.nextCursor.Some? ==> |after| > limit
  {
    var fetched := after[..Min(limit + 1, |after|)];
    var hasMore := |fetched| > limit;
    var slice := if hasMore then fetched[..limit] else fetched;
    Page(slice, if hasMore then cursorOf(slice[|slice| - 1]) else None)
  }

  /** A page holds `min(limit, n)` documents; when more exist it is full and
      the cursor comes from its last document, and the documents not shown
      are exactly the ones after it. */
  lemma ListPageSplits<T>(after: seq<T>, limit: nat, cursorOf: T -> Option<string>)
    requires limit > 0
    ensures var p := ListPage(after, limit, cursorOf);
      |p.items| == Min(limit, |after|)
      && (|after| > limit ==> p.nextCursor == cursorOf(after[limit - 1]) && after == p.items + after[limit..])
      && (|after| <= limit ==> p.items == after && p.nextCursor.None?)
  {
  }

  // ---------------------------------------------------------------- the collection

  /** The `materials` collection, in store order. */
  class MaterialCollection {
    var docs: seq<MaterialDoc>

    constructor(initial: seq<MaterialDoc>)
      ensures docs == initial
    {
      docs := initial;
    }

    /** `createMaterial`. */
    method Create(body: MaterialBody, newId: string) returns (reply: Reply)
      modifies this
      ensures Outcome(reply, docs) == CreateSpec(old(docs), body, newId)
    {
      var normalized := Normalize(body);
      if normalized.Err? {
        return Failed(Failure(400, normalized.error));
      }
      var value := normalized.value;
      assert CreateSpec(docs, body, newId) == CreateWith(docs, value, newId);
      var found := FindExisting(docs, value, 0);
      if found.Some? {
        var i := found.value;
        docs := docs[i := AddQuantity(docs[i], value.cantidad)];
        return Reply(200, CreatedBody(docs[i].id, true));
      }
      docs := docs + [MaterialDoc(newId, value)];
      reply := Reply(200, CreatedBody(newId, false));
    }

    /** `stockOperation`: the new quantity is worked out step by step, the
        source is written, then the destination. */
    method StockOperation(id: string, req: StockRequest, newId: string) returns (reply: Reply)
      modifies this
      ensures Outcome(reply, docs) == StockSpec(old(docs), id, req, newId)
    {
      var qty := JsNumber(req.cantidad);
      if req.action !in {"in", "out", "transfer"} {
        return Failed(Failure(400, "accion invalida"));
      }
      if qty.None? || qty.value <= 0 {
        return Failed(Failure(400, "cantidad invalida"));
      }
      var destino := Trim(req.destino);
      var entregadoA := Trim(req.entregadoA);
      if req.action == "out" && (destino == "" || entregadoA == "") {
        return Failed(Failure(400, "Destino y responsable requeridos para egreso"));
      }
      var found := FindId(docs, id, 0);
      if found.None? {
        return Failed(Failure(404, "Material no encontrado"));
      }
      reply := MoveStock(found.value, req.action, qty.value, destino, newId);
    }

    /** The accepted part of `stockOperation` on the material at position
        `i`. */
    method MoveStock(i: nat, action: string, q: int, destino: string, newId: string) returns (reply: Reply)
      requires i < |docs| && action in {"in", "out", "transfer"}
      modifies this
      ensures Outcome(reply, docs) == StockAt(old(docs), i, action, q, destino, newId)
    {
      var data := docs[i].data;
      var nueva := data.cantidad;
      if action == "in" {
        nueva := nueva + q;
      }
      if action == "out" || action == "transfer" {
        if data.cantidad - q < 0 {
          return Failed(Failure(400, "No hay stock suficiente"));
        }
        nueva := nueva - q;
      }
      docs := docs[i := docs[i].(data := data.(cantidad := nueva))];
      assert docs[i] == AddQuantity(old(docs)[i], if action == "in" then q else -q);
      var destinoId: Option<string> := None;
      if action == "transfer" && destino != "" {
        var target := data.(obra := destino);
        var match_ := FindExisting(docs, target, 0);
        if match_.Some? {
          var j := match_.value;
          destinoId := Some(docs[j].id);
          docs := docs[j := AddQuantity(docs[j], q)];
        } else {
          docs := docs + [MaterialDoc(newId, target.(cantidad := q))];
          destinoId := Some(newId);
        }
      }
      reply := Reply(200, StockBody(nueva, destinoId));
    }

    /** `deleteMaterial`: removes the document; deleting a missing one is
        not an error. */
    method Delete(id: string) returns (reply: Reply)
      modifies this
      ensures reply == Reply(200, OkBody)
      ensures docs == Lists.Filter(old(docs), (d: MaterialDoc) => d.id != id)
    {
      docs := Lists.Filter(docs, (d: MaterialDoc) => d.id != id);
      reply := Reply(200, OkBody);
    }
  }
}

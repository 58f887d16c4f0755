/** The tool register. A tool is a record of eleven text fields. Creating a
    tool whose name and non-empty internal number equal a stored tool's
    overwrites that tool instead of storing a second one. */
module Tools {
  import opened Common
  import opened Strings
  import opened Json
  import opened Http

  /** A tool, as stored and as received (absent fields are the empty
      string). */
  datatype Tool = Tool(
    nombre: string,
    fechaCompra: string,
    numeroInterno: string,
    ubicacion: string,
    designacion: string,
    descripcion: string,
    marca: string,
    modelo: string,
    proveedor: string,
    estado: string,
    observaciones: string)

  /** The four states the tool schema accepts, in its order. */
  const ToolStates: seq<string> := ["Operativo", "En reparacion", "Danado", "Baja"]

  /** The tool with each of its eleven fields trimmed. */
  function TrimAll(b: Tool): Tool {
    Tool(Trim(b.nombre), Trim(b.fechaCompra), Trim(b.numeroInterno), Trim(b.ubicacion),
      Trim(b.designacion), Trim(b.descripcion), Trim(b.marca), Trim(b.modelo),
      Trim(b.proveedor), Trim(b.estado), Trim(b.observaciones))
  }

  /** Every field is already trimmed. */
  predicate Trimmed(t: Tool) {
    TrimAll(t) == t
  }

  /** `normalize(body)`: every field trimmed; a blank Nombre, then a blank
      Estado, is an error. */
  function Normalize(b: Tool): (r: Result<Tool, string>)
    ensures r.Ok? <==> Trim(b.nombre) != "" && Trim(b.estado) != ""
    ensures r.Err? ==> r.error == (if Trim(b.nombre) == "" then "Nombre requerido" else "Estado requerido")
    ensures r.Ok? ==> Trimmed(r.value) && r.value == TrimAll(b)
  {
    var out := TrimAll(b);
    TrimAllIdempotent(b);
    if out.nombre == "" then Err("Nombre requerido")
    else if out.estado == "" then Err("Estado requerido")
    else Ok(out)
  }

  lemma TrimAllIdempotent(b: Tool)
    ensures TrimAll(TrimAll(b)) == TrimAll(b)
  {
    TrimIdempotent(b.nombre);
    TrimIdempotent(b.fechaCompra);
    TrimIdempotent(b.numeroInterno);
    TrimIdempotent(b.ubicacion);
    TrimIdempotent(b.designacion);
    TrimIdempotent(b.descripcion);
    TrimIdempotent(b.marca);
    TrimIdempotent(b.modelo);
    TrimIdempotent(b.proveedor);
    TrimIdempotent(b.estado);
    TrimIdempotent(b.observaciones);
  }

  /** Normalising is idempotent: a normalised tool comes back unchanged. */
  lemma NormalizeIdempotent(b: Tool)
    requires Normalize(b).Ok?
    ensures Normalize(Normalize(b).value) == Normalize(b)
  {
    var v := Normalize(b).value;
    assert TrimAll(v) == v;
  }

  // ---------------------------------------------------------------- createTool

  datatype ToolDoc = ToolDoc(id: string, data: Tool)

  /** The same name and the same internal number. */
  predicate SameTool(a: Tool, b: Tool) {
    a.nombre == b.nombre && a.numeroInterno == b.numeroInterno
  }

  /** The first stored tool, in store order, with the name and internal
      number of `value`. */
  function FindSame(docs: seq<ToolDoc>, value: Tool, i: nat): (r: Option<nat>)
    requires i <= |docs|
    ensures r.Some? ==> (i <= r.value < |docs| && SameTool(docs[r.value].data, value)
      && forall j :: i <= j < r.value ==> !SameTool(docs[j].data, value))
    ensures r.None? ==> forall j :: i <= j < |docs| ==> !SameTool(docs[j].data, value)
    decreases |docs| - i
  {
    if i == |docs| then None
    else if SameTool(docs[i].data, value) then Some(i)
    else FindSame(docs, value, i + 1)
  }

  datatype Outcome = Outcome(reply: Reply, docs: seq<ToolDoc>)

  function CreatedBody(id: string, merged: bool): Value {
    JObj([("id", JStr(id)), ("merged", JBool(merged))])
  }

  /** `createTool(body)`: a body `normalize` refuses gives 400 with its
      message; a tool with an internal number that matches a stored tool on
      name and number overwrites it (merged); any other tool is stored under
      the fresh id `newId`. */
  function CreateSpec(docs: seq<ToolDoc>, body: Tool, newId: string): Outcome {
    match Normalize(body)
    case Err(e) => Outcome(Failed(Failure(400, e)), docs)
    case Ok(value) => CreateWith(docs, value, newId)
  }

  /** Storing a normalised tool. */
  function CreateWith(docs: seq<ToolDoc>, value: Tool, newId: string): Outcome {
      var existing := if value.numeroInterno != "" then FindSame(docs, value, 0) else None;
      match existing
      case Some(i) => Outcome(Reply(200, CreatedBody(docs[i].id, true)), docs[i := ToolDoc(docs[i].id, value)])
      case None => Outcome(Reply(200, CreatedBody(newId, false)), docs + [ToolDoc(newId, value)])
  }

  /** No two stored tools with an internal number share name and number. */
  predicate Unique(docs: seq<ToolDoc>) {
    forall i, j :: 0 <= i < j < |docs| && docs[i].data.numeroInterno != "" ==> !SameTool(docs[i].data, docs[j].data)
  }

  /** A create overwrites exactly when the tool has an internal number and a
      stored tool has its name and number; then the count is unchanged, the
      reply carries the stored id and only that tool changes. Otherwise one
      tool is added under the new id. Either way uniqueness is kept. */
  lemma CreateUpserts(docs: seq<ToolDoc>, value: Tool, newId: string)
    ensures var o := CreateWith(docs, value, newId);
      var merged := value.numeroInterno != "" && exists i :: 0 <= i < |docs| && SameTool(docs[i].data, value);
      (merged ==> (|o.docs| == |docs|
         && exists i :: 0 <= i < |docs| && o.reply.body == CreatedBody(docs[i].id, true)
              && o.docs == docs[i := ToolDoc(docs[i].id, value)]))
      && (!merged ==> o.reply.body == CreatedBody(newId, false) && o.docs == docs + [ToolDoc(newId, value)])
      && (Unique(docs) ==> Unique(o.docs))
  {
    var o := CreateWith(docs, value, newId);
    if value.numeroInterno != "" && exists i :: 0 <= i < |docs| && SameTool(docs[i].data, value) {
      var i := FindSame(docs, value, 0).value;
      assert o.docs == docs[i := ToolDoc(docs[i].id, value)];
      if Unique(docs) {
        forall a, c | 0 <= a < c < |o.docs| && o.docs[a].data.numeroInterno != ""
          ensures !SameTool(o.docs[a].data, o.docs[c].data)
        {
          assert SameTool(o.docs[a].data, o.docs[c].data) ==> SameTool(docs[a].data, docs[c].data);
        }
      }
    } else if Unique(docs) {
      forall a, c | 0 <= a < c < |o.docs| && o.docs[a].data.numeroInterno != ""
        ensures !SameTool(o.docs[a].data, o.docs[c].data)
      {
        if c == |docs| {
          assert !SameTool(docs[a].data, value);
        }
      }
    }
  }

  /** Without an internal number a tool is always added, even beside one with
      the same name. */
  lemma NoNumberAlwaysAdds(docs: seq<ToolDoc>, body: Tool, newId: string)
    requires Normalize(body).Ok? && Trim(body.numeroInterno) == ""
    ensures CreateSpec(docs, body, newId).docs == docs + [ToolDoc(newId, Normalize(body).value)]
  {
  }

  /** The `tools` collection, in store order. */
  class ToolCollection {
    var docs: seq<ToolDoc>

    constructor(initial: seq<ToolDoc>)
      ensures docs == initial
    {
      docs := initial;
    }

    /** `createTool`. */
    method Create(body: Tool, newId: string) returns (reply: Reply)
      modifies this
      ensures Outcome(reply, docs) == CreateSpec(old(docs), body, newId)
    {
      var normalized := Normalize(body);
      if normalized.Err? {
        return Failed(Failure(400, normalized.error));
      }
      var value := normalized.value;
      assert CreateSpec(docs, body, newId) == CreateWith(docs, value, newId);
      var existing: Option<nat> := None;
      if value.numeroInterno != "" {
        existing := FindSame(docs, value, 0);
      }
      if existing.Some? {
        var i := existing.value;
        docs := docs[i := ToolDoc(docs[i].id, value)];
        return Reply(200, CreatedBody(docs[i].id, true));
      }
      docs := docs + [ToolDoc(newId, value)];
      reply := Reply(200, CreatedBody(newId, false));
    }
  }
}

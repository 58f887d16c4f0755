/** The work-order handlers: `listWorkOrders`, `createWorkOrder`,
    `updateWorkOrder` and `deleteWorkOrder`. The `workOrders` collection is a
    map from document id (the normalised client name) to client document,
    held by a `WorkOrderCollection` object the three writing handlers update
    in place. Each handler is proved against a specification function, and
    what the handlers promise is proved about those functions. */
module WorkOrderStore {
  import opened Common
  import opened Strings
  import opened Json
  import opened Sorting
  import Lists
  import opened Permissions
  import opened Http
  import opened WorkOrders

  /** A client document: the display name (`client`, '' when absent) and the
      raw `items` array. */
  datatype ClientDoc = ClientDoc(client: string, items: RawList<RawItem>)

  /** The request-body fields the handlers read; absent fields are ''. */
  datatype OrderBody = OrderBody(client: string, name: string, code: string, task: string, tasks: RawList<RawTask>)

  /** The random ids a handler draws: `rawId` for a new work order, `read(j, i)`
      while cleaning task `i` of stored element `j`, `tasks(i)` while
      normalising task `i` of the body. */
  datatype Draws = Draws(rawId: string, read: (nat, nat) -> string, tasks: nat -> string)

  // ---------------------------------------------------------------- uniqueness

  /** Some work order other than the one at `skip` has this (trimmed) name,
      compared case-insensitively. */
  predicate NameTaken(items: seq<WorkOrder>, name: string, skip: int) {
    exists i :: 0 <= i < |items| && i != skip && Lower(Trim(items[i].name)) == Lower(name)
  }

  /** The same for codes. */
  predicate CodeTaken(items: seq<WorkOrder>, code: string, skip: int) {
    exists i :: 0 <= i < |items| && i != skip && Lower(Trim(items[i].code)) == Lower(code)
  }

  /** No two work orders of a client share a name or a code, ignoring case
      and surrounding blanks. */
  predicate Distinct(items: seq<WorkOrder>) {
    forall i, j :: 0 <= i < j < |items| ==>
      Lower(Trim(items[i].name)) != Lower(Trim(items[j].name))
      && Lower(Trim(items[i].code)) != Lower(Trim(items[j].code))
  }

  // ---------------------------------------------------------------- create

  /** `sanitizeItems(data.items, client)` for the document at `key`; a missing
      document has no items. */
  function ItemsAt(docs: map<string, ClientDoc>, key: string, client: string, read: (nat, nat) -> string): seq<WorkOrder> {
    SanitizeItems(if key in docs then docs[key].items else None, client, read)
  }

  datatype Created = Created(key: string, doc: ClientDoc, item: WorkOrder)

  /** `createWorkOrder`: 403 unless the caller manages work orders; 400 when
      client, name or code is blank; 409 when the client already has a work
      order with that name or code; otherwise the document at the client key
      is set to the client name and the old items plus the new one. */
  function CreateSpec(actor: Principal, body: OrderBody, docs: map<string, ClientDoc>, draws: Draws): Result<Created, Failure> {
    if !CanManageWorkOrders(actor) then Err(Failure(403, "Permiso denegado"))
    else
      var client := Trim(body.client);
      var name := Trim(body.name);
      var code := Trim(body.code);
      if client == "" || name == "" || code == "" then Err(Failure(400, "Cliente, nombre y codigo requeridos"))
      else
        var key := NormalizeKey(client);
        if key == "" then Err(InvalidClient)
        else CreateIn(key, client, name, code, Trim(body.task), body.tasks, ItemsAt(docs, key, client, draws.read), draws)
  }

  const InvalidClient := Failure(400, "Cliente invalido")

  function CreateIn(key: string, client: string, name: string, code: string, fallback: string,
                    tasks: RawList<RawTask>, items: seq<WorkOrder>, draws: Draws): Result<Created, Failure> {
    if NameTaken(items, name, -1) then Err(Failure(409, "Ya existe una OT con ese nombre"))
    else if CodeTaken(items, code, -1) then Err(Failure(409, "Ya existe una OT con ese codigo"))
    else
      var item := WorkOrder(CompositeId(key, draws.rawId), name, code, client, NormalizeTasksInput(key, tasks, fallback, draws.tasks));
      Ok(Created(key, ClientDoc(client, StoreItems(items + [item])), item))
  }

  /** The 201 body: `{ id, client, name }`. */
  function CreatedBody(item: WorkOrder): Value {
    JObj([("id", JStr(item.id)), ("client", JStr(item.client)), ("name", JStr(item.name))])
  }

  // ---------------------------------------------------------------- update

  function FindIdFrom(items: seq<WorkOrder>, id: string, from: nat): (r: Option<nat>)
    requires from <= |items|
    ensures r.Some? ==> from <= r.value < |items| && items[r.value].id == id
    ensures r.Some? ==> forall k :: from <= k < r.value ==> items[k].id != id
    ensures r.None? ==> forall k :: from <= k < |items| ==> items[k].id != id
    decreases |items| - from
  {
    if from == |items| then None
    else if items[from].id == id then Some(from)
    else FindIdFrom(items, id, from + 1)
  }

  /** `items.findIndex((item) => item.id === id)`. */
  function FindId(items: seq<WorkOrder>, id: string): (r: Option<nat>)
    ensures r.Some? ==> r.value < |items| && items[r.value].id == id && forall k :: 0 <= k < r.value ==> items[k].id != id
    ensures r.None? <==> forall k :: 0 <= k < |items| ==> items[k].id != id
  {
    FindIdFrom(items, id, 0)
  }

  /** The work orders the update and delete handlers start from: the
      document's items, cleaned under its client name or else its key. */
  function Current(docs: map<string, ClientDoc>, key: string, read: (nat, nat) -> string): seq<WorkOrder>
    requires key in docs
  {
    SanitizeItems(docs[key].items, OrElse(docs[key].client, key), read)
  }

  datatype Updated = Updated(key: string, doc: ClientDoc, index: nat, after: WorkOrder)

  /** `updateWorkOrder`: 403 unless the caller manages work orders; 400 when
      the id does not parse or name or code is blank; 404 when the client
      document or the work order is missing; 409 when another work order has
      the name or the code; otherwise the work order takes the new name, code
      and tasks and the whole array is written back. */
  function UpdateSpec(actor: Principal, id: string, body: OrderBody, docs: map<string, ClientDoc>, draws: Draws): Result<Updated, Failure> {
    if !CanManageWorkOrders(actor) then Err(Failure(403, "Permiso denegado"))
    else
      var name := Trim(body.name);
      var code := Trim(body.code);
      var parsed := ParseCompositeId(id);
      if parsed.None? || name == "" || code == "" then Err(Failure(400, "Datos incompletos"))
      else if parsed.value.clientKey !in docs then Err(Failure(404, "OT no encontrada"))
      else
        var key := parsed.value.clientKey;
        UpdateIn(key, docs[key], Current(docs, key, draws.read), id, name, code, Trim(body.task), body.tasks, draws)
  }

  function UpdateIn(key: string, doc: ClientDoc, items: seq<WorkOrder>, id: string, name: string, code: string,
                    fallback: string, tasks: RawList<RawTask>, draws: Draws): Result<Updated, Failure> {
    match FindId(items, id)
    case None => Err(Failure(404, "OT no encontrada"))
    case Some(index) =>
      if NameTaken(items, name, index) then Err(Failure(409, "Ya existe una OT con ese nombre"))
      else if CodeTaken(items, code, index) then Err(Failure(409, "Ya existe una OT con ese codigo"))
      else
        var after := items[index].(name := name, code := code, tasks := NormalizeTasksInput(key, tasks, fallback, draws.tasks));
        Ok(Updated(key, doc.(items := StoreItems(items[index := after])), index, after))
  }

  // ---------------------------------------------------------------- delete

  function NotId(id: string): WorkOrder -> bool {
    (w: WorkOrder) => w.id != id
  }

  datatype Deleted = Deleted(key: string, doc: ClientDoc)

  /** `deleteWorkOrder`: 403 unless the caller manages work orders; 400 when
      the id does not parse; 404 when the client document is missing or no
      work order has the id; otherwise every work order with the id is
      removed. */
  function DeleteSpec(actor: Principal, id: string, docs: map<string, ClientDoc>, read: (nat, nat) -> string): Result<Deleted, Failure> {
    if !CanManageWorkOrders(actor) then Err(Failure(403, "Permiso denegado"))
    else
      var parsed := ParseCompositeId(id);
      if parsed.None? then Err(Failure(400, "ID invalido"))
      else if parsed.value.clientKey !in docs then Err(Failure(404, "OT no encontrada"))
      else
        var key := parsed.value.clientKey;
        DeleteIn(key, docs[key], Current(docs, key, read), id)
  }

  function DeleteIn(key: string, doc: ClientDoc, items: seq<WorkOrder>, id: string): Result<Deleted, Failure> {
    var next := Lists.Filter(items, NotId(id));
    if |next| == |items| then Err(Failure(404, "OT no encontrada"))
    else Ok(Deleted(key, doc.(items := StoreItems(next))))
  }

  // ---------------------------------------------------------------- list

  /** `listWorkOrders` for one client: the response items of the client's
      document, named after the stored client name or else the query. */
  function ListForClient(client: string, docs: map<string, ClientDoc>, read: (nat, nat) -> string, legacy: nat -> string): seq<WorkOrder> {
    var key := NormalizeKey(client);
    if key == "" || key !in docs then []
    else ResponseItems(docs[key].items, OrElse(docs[key].client, client), read, legacy)
  }

  /** `listWorkOrders` without a client: the response items of each document
      in turn, named after the stored client name or else the document id. */
  function ListAll(snapshot: seq<(string, ClientDoc)>, read: (nat, nat) -> string, legacy: nat -> string): seq<WorkOrder>
    decreases |snapshot|
  {
    if |snapshot| == 0 then []
    else
      var (id, doc) := snapshot[0];
      ResponseItems(doc.items, OrElse(doc.client, id), read, legacy) + ListAll(snapshot[1..], read, legacy)
  }

  /** `listWorkOrders(query.client)`; `snapshot` is the collection in document
      id order, of which the first 200 documents are read. */
  function ListWorkOrders(query: string, docs: map<string, ClientDoc>, snapshot: seq<(string, ClientDoc)>,
                          read: (nat, nat) -> string, legacy: nat -> string): (r: seq<WorkOrder>)
    ensures Trim(query) != "" && NormalizeKey(Trim(query)) !in docs ==> r == []
    ensures Trim(query) == "" && |snapshot| == 0 ==> r == []
  {
    var client := Trim(query);
    if client == "" then ListAll(if |snapshot| <= 200 then snapshot else snapshot[..200], read, legacy)
    else ListForClient(client, docs, read, legacy)
  }

  // ---------------------------------------------------------------- what create promises

  /** What a successful create consists of, step by step. */
  lemma CreateSteps(actor: Principal, body: OrderBody, docs: map<string, ClientDoc>, draws: Draws, c: Created)
    requires CreateSpec(actor, body, docs, draws) == Ok(c)
    ensures Trim(body.client) != "" && Trim(body.name) != "" && Trim(body.code) != ""
    ensures c.key == NormalizeKey(body.client) && c.key != ""
    ensures !NameTaken(ItemsAt(docs, c.key, Trim(body.client), draws.read), Trim(body.name), -1)
    ensures !CodeTaken(ItemsAt(docs, c.key, Trim(body.client), draws.read), Trim(body.code), -1)
    ensures c.item == WorkOrder(CompositeId(c.key, draws.rawId), Trim(body.name), Trim(body.code), Trim(body.client),
                                NormalizeTasksInput(c.key, body.tasks, Trim(body.task), draws.tasks))
    ensures c.doc == ClientDoc(Trim(body.client), StoreItems(ItemsAt(docs, c.key, Trim(body.client), draws.read) + [c.item]))
  {
    var client := Trim(body.client);
    TrimIdempotent(body.client);
    assert CreateSpec(actor, body, docs, draws)
      == CreateIn(NormalizeKey(client), client, Trim(body.name), Trim(body.code), Trim(body.task), body.tasks,
                  ItemsAt(docs, NormalizeKey(client), client, draws.read), draws);
  }

  /** A created work order is appended after the client's existing ones: its
      id is the client key and the drawn id, its fields are the trimmed body
      fields, and the document reads back as the old items plus the new one,
      whoever reads it. */
  lemma CreateAppends(actor: Principal, body: OrderBody, docs: map<string, ClientDoc>, draws: Draws, c: Created,
                      client': string, read': (nat, nat) -> string)
    requires CreateSpec(actor, body, docs, draws) == Ok(c)
    ensures c.key == NormalizeKey(body.client)
    ensures c.item.id == CompositeId(c.key, draws.rawId)
    ensures c.item.name == Trim(body.name) && c.item.code == Trim(body.code) && c.item.client == Trim(body.client)
    ensures c.doc.client == Trim(body.client)
    ensures SanitizeItems(c.doc.items, client', read') == ItemsAt(docs, c.key, Trim(body.client), draws.read) + [c.item]
  {
    CreateSteps(actor, body, docs, draws, c);
    assert Shaped(c.item);
    AppendedShaped(docs, c.key, Trim(body.client), draws.read, c.item);
    ItemsRoundTrip(ItemsAt(docs, c.key, Trim(body.client), draws.read) + [c.item], client', read');
  }

  /** The existing items read back from storage and a new shaped item are
      all shaped. */
  lemma AppendedShaped(docs: map<string, ClientDoc>, key: string, client: string, read: (nat, nat) -> string, item: WorkOrder)
    requires client != "" && Shaped(item)
    ensures forall k :: 0 <= k < |ItemsAt(docs, key, client, read) + [item]| ==> Shaped((ItemsAt(docs, key, client, read) + [item])[k])
  {
    SanitizeItemsShaped(if key in docs then docs[key].items else None, client, read);
  }

  lemma TrimLower(s: string)
    ensures Lower(Trim(Trim(s))) == Lower(Trim(s))
  {
    TrimIdempotent(s);
  }

  /** Create keeps names and codes distinct within a client. */
  lemma CreateKeepsDistinct(actor: Principal, body: OrderBody, docs: map<string, ClientDoc>, draws: Draws, c: Created,
                            client': string, read': (nat, nat) -> string)
    requires CreateSpec(actor, body, docs, draws) == Ok(c)
    requires Distinct(ItemsAt(docs, c.key, Trim(body.client), draws.read))
    ensures Distinct(SanitizeItems(c.doc.items, client', read'))
  {
    CreateAppends(actor, body, docs, draws, c, client', read');
    CreateSteps(actor, body, docs, draws, c);
    var items := ItemsAt(docs, c.key, Trim(body.client), draws.read);
    TrimIdempotent(body.name);
    TrimIdempotent(body.code);
    var all := items + [c.item];
    forall i, j | 0 <= i < j < |all|
      ensures Lower(Trim(all[i].name)) != Lower(Trim(all[j].name)) && Lower(Trim(all[i].code)) != Lower(Trim(all[j].code))
    {
      if j == |items| {
        assert all[i] == items[i];
      }
    }
  }

  /** For a manager with client, name and code filled in, create is refused
      exactly when the name or the code is taken, and then with 409; the
      "invalid client" refusal cannot happen. */
  lemma CreateConflicts(actor: Principal, body: OrderBody, docs: map<string, ClientDoc>, draws: Draws)
    requires CanManageWorkOrders(actor)
    requires Trim(body.client) != "" && Trim(body.name) != "" && Trim(body.code) != ""
    ensures var items := ItemsAt(docs, NormalizeKey(body.client), Trim(body.client), draws.read);
      CreateSpec(actor, body, docs, draws).Err? <==> NameTaken(items, Trim(body.name), -1) || CodeTaken(items, Trim(body.code), -1)
    ensures CreateSpec(actor, body, docs, draws).Err? ==> CreateSpec(actor, body, docs, draws).error.status == 409
  {
    TrimIdempotent(body.client);
    assert NormalizeKey(Trim(body.client)) == NormalizeKey(body.client);
    assert |NormalizeKey(body.client)| == |Trim(body.client)|;
  }

  // ---------------------------------------------------------------- what update promises

  /** What a successful update consists of, step by step. */
  lemma UpdateSteps(actor: Principal, id: string, body: OrderBody, docs: map<string, ClientDoc>, draws: Draws, u: Updated)
    requires UpdateSpec(actor, id, body, docs, draws) == Ok(u)
    ensures ParseCompositeId(id).Some? && u.key == ParseCompositeId(id).value.clientKey && u.key in docs
    ensures Trim(body.name) != "" && Trim(body.code) != ""
    ensures FindId(Current(docs, u.key, draws.read), id) == Some(u.index)
    ensures !NameTaken(Current(docs, u.key, draws.read), Trim(body.name), u.index)
    ensures !CodeTaken(Current(docs, u.key, draws.read), Trim(body.code), u.index)
    ensures u.after == Current(docs, u.key, draws.read)[u.index].(name := Trim(body.name), code := Trim(body.code),
                                                                 tasks := NormalizeTasksInput(u.key, body.tasks, Trim(body.task), draws.tasks))
    ensures u.doc == docs[u.key].(items := StoreItems(Current(docs, u.key, draws.read)[u.index := u.after]))
  {
    var key := ParseCompositeId(id).value.clientKey;
    assert UpdateSpec(actor, id, body, docs, draws)
      == UpdateIn(key, docs[key], Current(docs, key, draws.read), id, Trim(body.name), Trim(body.code), Trim(body.task), body.tasks, draws);
  }

  /** An update rewrites exactly one work order, the first with the id: it
      takes the trimmed name and code and the normalised tasks and keeps its
      id and client; every other work order and the client name stay as they
      were. */
  lemma UpdateChangesOnlyTarget(actor: Principal, id: string, body: OrderBody, docs: map<string, ClientDoc>, draws: Draws,
                                u: Updated, client': string, read': (nat, nat) -> string)
    requires UpdateSpec(actor, id, body, docs, draws) == Ok(u)
    ensures ParseCompositeId(id).Some? && u.key == ParseCompositeId(id).value.clientKey && u.key in docs
    ensures u.doc.client == docs[u.key].client
    ensures var before := Current(docs, u.key, draws.read);
      var now := SanitizeItems(u.doc.items, client', read');
      u.index < |before| && before[u.index].id == id
      && (forall k :: 0 <= k < u.index ==> before[k].id != id)
      && |now| == |before|
      && (forall k :: 0 <= k < |before| && k != u.index ==> now[k] == before[k])
      && now[u.index] == before[u.index].(name := Trim(body.name), code := Trim(body.code),
                                            tasks := NormalizeTasksInput(u.key, body.tasks, Trim(body.task), draws.tasks))
  {
    UpdateSteps(actor, id, body, docs, draws, u);
    var before := Current(docs, u.key, draws.read);
    SanitizeItemsShaped(docs[u.key].items, OrElse(docs[u.key].client, u.key), draws.read);
    TrimIdempotent(body.name);
    assert Shaped(u.after);
    var written := before[u.index := u.after];
    assert forall k :: 0 <= k < |written| ==> Shaped(written[k]);
    ItemsRoundTrip(written, client', read');
  }

  /** Update keeps names and codes distinct within a client. */
  lemma UpdateKeepsDistinct(actor: Principal, id: string, body: OrderBody, docs: map<string, ClientDoc>, draws: Draws,
                            u: Updated, client': string, read': (nat, nat) -> string)
    requires UpdateSpec(actor, id, body, docs, draws) == Ok(u)
    requires u.key in docs && Distinct(Current(docs, u.key, draws.read))
    ensures Distinct(SanitizeItems(u.doc.items, client', read'))
  {
    UpdateChangesOnlyTarget(actor, id, body, docs, draws, u, client', read');
    UpdateSteps(actor, id, body, docs, draws, u);
    var before := Current(docs, u.key, draws.read);
    var now := SanitizeItems(u.doc.items, client', read');
    TrimIdempotent(body.name);
    TrimIdempotent(body.code);
    forall i, j | 0 <= i < j < |now|
      ensures Lower(Trim(now[i].name)) != Lower(Trim(now[j].name)) && Lower(Trim(now[i].code)) != Lower(Trim(now[j].code))
    {
    }
  }

  /** For a manager with a well-formed id naming an existing client and with
      name and code filled in, update answers 404 exactly when no work order
      has the id. */
  lemma UpdateNotFound(actor: Principal, id: string, body: OrderBody, docs: map<string, ClientDoc>, draws: Draws)
    requires CanManageWorkOrders(actor) && Trim(body.name) != "" && Trim(body.code) != ""
    requires ParseCompositeId(id).Some? && ParseCompositeId(id).value.clientKey in docs
    ensures UpdateSpec(actor, id, body, docs, draws) == Err(Failure(404, "OT no encontrada"))
      <==> forall k :: 0 <= k < |Current(docs, ParseCompositeId(id).value.clientKey, draws.read)| ==>
             Current(docs, ParseCompositeId(id).value.clientKey, draws.read)[k].id != id
  {
    var key := ParseCompositeId(id).value.clientKey;
    assert UpdateSpec(actor, id, body, docs, draws)
      == UpdateIn(key, docs[key], Current(docs, key, draws.read), id, Trim(body.name), Trim(body.code), Trim(body.task), body.tasks, draws);
  }

  // ---------------------------------------------------------------- what delete promises

  /** A delete removes every work order with the id, at least one, and keeps
      all the others and the client name. */
  lemma DeleteRemoves(actor: Principal, id: string, docs: map<string, ClientDoc>, read: (nat, nat) -> string,
                      d: Deleted, client': string, read': (nat, nat) -> string)
    requires DeleteSpec(actor, id, docs, read) == Ok(d)
    ensures ParseCompositeId(id).Some? && d.key == ParseCompositeId(id).value.clientKey && d.key in docs
    ensures d.doc.client == docs[d.key].client
    ensures var before := Current(docs, d.key, read);
      var now := SanitizeItems(d.doc.items, client', read');
      |now| < |before|
      && (forall k :: 0 <= k < |now| ==> now[k].id != id && now[k] in before)
      && (forall w :: w in before && w.id != id ==> w in now)
  {
    var key := ParseCompositeId(id).value.clientKey;
    var before := Current(docs, key, read);
    assert DeleteSpec(actor, id, docs, read) == DeleteIn(key, docs[key], before, id);
    var next := Lists.Filter(before, NotId(id));
    SanitizeItemsShaped(docs[key].items, OrElse(docs[key].client, key), read);
    assert forall k :: 0 <= k < |next| ==> Shaped(next[k]) by {
      forall k | 0 <= k < |next| ensures Shaped(next[k]) {
        assert next[k] in before;
      }
    }
    ItemsRoundTrip(next, client', read');
    forall w | w in before && w.id != id ensures w in next {
      assert NotId(id)(w);
    }
  }

  /** For a manager with a well-formed id naming an existing client, delete
      answers 404 exactly when no work order has the id. */
  lemma DeleteNotFound(actor: Principal, id: string, docs: map<string, ClientDoc>, read: (nat, nat) -> string)
    requires CanManageWorkOrders(actor)
    requires ParseCompositeId(id).Some? && ParseCompositeId(id).value.clientKey in docs
    ensures DeleteSpec(actor, id, docs, read) == Err(Failure(404, "OT no encontrada"))
      <==> forall k :: 0 <= k < |Current(docs, ParseCompositeId(id).value.clientKey, read)| ==>
             Current(docs, ParseCompositeId(id).value.clientKey, read)[k].id != id
  {
    var key := ParseCompositeId(id).value.clientKey;
    var before := Current(docs, key, read);
    assert DeleteSpec(actor, id, docs, read) == DeleteIn(key, docs[key], before, id);
    Lists.FilterKeepsAll(before, NotId(id));
    assert (forall k :: 0 <= k < |before| ==> NotId(id)(before[k])) <==> (forall k :: 0 <= k < |before| ==> before[k].id != id);
  }

  // ---------------------------------------------------------------- round trips

  /** A created work order is listed for its client, among the client's
      earlier work orders, in name order. */
  lemma CreateThenList(actor: Principal, body: OrderBody, docs: map<string, ClientDoc>, draws: Draws, c: Created,
                       snapshot: seq<(string, ClientDoc)>, read: (nat, nat) -> string, legacy: nat -> string)
    requires CreateSpec(actor, body, docs, draws) == Ok(c)
    ensures var listed := ListWorkOrders(body.client, docs[c.key := c.doc], snapshot, read, legacy);
      multiset(listed) == multiset(ItemsAt(docs, c.key, Trim(body.client), draws.read) + [c.item])
      && SortedBy(listed, NameLe)
      && c.item in listed
  {
    CreateSteps(actor, body, docs, draws, c);
    TrimIdempotent(body.client);
    var ws := ItemsAt(docs, c.key, Trim(body.client), draws.read) + [c.item];
    assert Shaped(c.item);
    AppendedShaped(docs, c.key, Trim(body.client), draws.read, c.item);
    var docs' := docs[c.key := c.doc];
    var listed := ListWorkOrders(body.client, docs', snapshot, read, legacy);
    assert listed == ResponseItems(c.doc.items, OrElse(c.doc.client, Trim(body.client)), read, legacy);
    ResponseOfStored(ws, OrElse(c.doc.client, Trim(body.client)), read, legacy);
    NameLeTotalPreorder();
    SortBySorted(ws, NameLe);
    assert c.item in multiset(ws);
  }

  /** A created work order can be deleted again by its id when the client key
      reads back intact and the drawn id is new: the client document is left
      with exactly the work orders it held before. */
  lemma CreateThenDelete(actor: Principal, body: OrderBody, docs: map<string, ClientDoc>, draws: Draws, c: Created,
                         read: (nat, nat) -> string)
    requires CreateSpec(actor, body, docs, draws) == Ok(c)
    requires ParsableKey(c.key) && draws.rawId != "" && !HasSep(draws.rawId)
    requires forall k :: 0 <= k < |ItemsAt(docs, c.key, Trim(body.client), draws.read)| ==>
               ItemsAt(docs, c.key, Trim(body.client), draws.read)[k].id != c.item.id
    ensures DeleteSpec(actor, c.item.id, docs[c.key := c.doc], read)
      == Ok(Deleted(c.key, c.doc.(items := StoreItems(ItemsAt(docs, c.key, Trim(body.client), draws.read)))))
  {
    CreateAppends(actor, body, docs, draws, c, Trim(body.client), read);
    CreateSteps(actor, body, docs, draws, c);
    var items := ItemsAt(docs, c.key, Trim(body.client), draws.read);
    var docs' := docs[c.key := c.doc];
    ParseBuild(c.key, draws.rawId);
    assert Current(docs', c.key, read) == items + [c.item];
    assert DeleteSpec(actor, c.item.id, docs', read) == DeleteIn(c.key, c.doc, items + [c.item], c.item.id);
    DeleteLast(c.key, c.doc, items, c.item);
  }

  /** Deleting the id of the last work order, held by no other, leaves the
      ones before it. */
  lemma DeleteLast(key: string, doc: ClientDoc, items: seq<WorkOrder>, item: WorkOrder)
    requires forall k :: 0 <= k < |items| ==> items[k].id != item.id
    ensures DeleteIn(key, doc, items + [item], item.id) == Ok(Deleted(key, doc.(items := StoreItems(items))))
  {
    var p := NotId(item.id);
    Lists.FilterConcat(items, [item], p);
    forall k | 0 <= k < |items| ensures p(items[k]) {
      assert items[k].id != item.id;
    }
    Lists.FilterAll(items, p);
    assert !p(item) && [item][1..] == [];
    assert Lists.Filter([item], p) == Lists.Filter([], p) == [];
    var next := Lists.Filter(items + [item], p);
    assert next == items;
  }

  /** A client name containing "::" gives a work order that no later request
      can reach: its id parses to another client key, so update and delete
      look in another document. */
  lemma SeparatorInClientUnreachable(actor: Principal, body: OrderBody, docs: map<string, ClientDoc>, draws: Draws,
                                     c: Created, read: (nat, nat) -> string)
    requires CreateSpec(actor, body, docs, draws) == Ok(c)
    requires HasSep(Trim(body.client))
    ensures ParseCompositeId(c.item.id).None? || ParseCompositeId(c.item.id).value.clientKey != c.key
    ensures DeleteSpec(actor, c.item.id, docs[c.key := c.doc], read).Ok? ==>
              DeleteSpec(actor, c.item.id, docs[c.key := c.doc], read).value.key != c.key
  {
    CreateSteps(actor, body, docs, draws, c);
    TrimIdempotent(body.client);
    var t := Trim(body.client);
    var i :| 0 <= i < |t| && SepAt(t, i);
    assert SepAt(c.key, i);
  }

  /** The smallest such client, "a::b": the id built from its key reads back
      as client "a" and raw id "b". */
  lemma SeparatorClientExample()
    ensures ParseCompositeId(CompositeId("a::b", "x1")) == Some(IdParts("a", "b"))
  {
    var s := CompositeId("a::b", "x1");
    assert SepAt(s, 1) && !SepAt(s, 0);
    assert FindSep(s) == Some(1);
    var rest := s[3..];
    assert rest == "b::x1";
    assert SepAt(rest, 1) && !SepAt(rest, 0);
    assert FindSep(rest) == Some(1);
    assert s[..1] == "a" && rest[..1] == "b";
  }


  // ---------------------------------------------------------------- the collection

  /** The `workOrders` collection. Each writing handler runs its checks in the
      handler's order and then writes one client document. */
  class WorkOrderCollection {
    var docs: map<string, ClientDoc>

    constructor(initial: map<string, ClientDoc>)
      ensures docs == initial
    {
      docs := initial;
    }

    /** `createWorkOrder`; the reply is 201 with `{ id, client, name }`. */
    method Create(actor: Principal, body: OrderBody, draws: Draws) returns (reply: Reply)
      modifies this
      ensures match CreateSpec(actor, body, old(docs), draws)
        case Ok(c) => docs == old(docs)[c.key := c.doc] && reply == Reply(201, CreatedBody(c.item))
        case Err(f) => docs == old(docs) && reply == Failed(f)
    {
      if !CanManageWorkOrders(actor) {
        return Failed(Failure(403, "Permiso denegado"));
      }
      var client := Trim(body.client);
      var name := Trim(body.name);
      var code := Trim(body.code);
      var fallback := Trim(body.task);
      if client == "" || name == "" || code == "" {
        return Failed(Failure(400, "Cliente, nombre y codigo requeridos"));
      }
      var key := NormalizeKey(client);
      if key == "" {
        // Unreachable: a non-blank client has a non-blank key.
        return Failed(InvalidClient);
      }
      var items := ItemsAt(docs, key, client, draws.read);
      if NameTaken(items, name, -1) {
        return Failed(Failure(409, "Ya existe una OT con ese nombre"));
      }
      if CodeTaken(items, code, -1) {
        return Failed(Failure(409, "Ya existe una OT con ese codigo"));
      }
      var item := WorkOrder(CompositeId(key, draws.rawId), name, code, client, NormalizeTasksInput(key, body.tasks, fallback, draws.tasks));
      docs := docs[key := ClientDoc(client, StoreItems(items + [item]))];
      reply := Reply(201, CreatedBody(item));
    }

    /** `updateWorkOrder`; the reply is 200 with `{ ok: true }`. */
    method Update(actor: Principal, id: string, body: OrderBody, draws: Draws) returns (reply: Reply)
      modifies this
      ensures match UpdateSpec(actor, id, body, old(docs), draws)
        case Ok(u) => docs == old(docs)[u.key := u.doc] && reply == Reply(200, OkBody)
        case Err(f) => docs == old(docs) && reply == Failed(f)
    {
      if !CanManageWorkOrders(actor) {
        return Failed(Failure(403, "Permiso denegado"));
      }
      var name := Trim(body.name);
      var code := Trim(body.code);
      var fallback := Trim(body.task);
      var parsed := ParseCompositeId(id);
      if parsed.None? || name == "" || code == "" {
        return Failed(Failure(400, "Datos incompletos"));
      }
      var key := parsed.value.clientKey;
      if key !in docs {
        return Failed(Failure(404, "OT no encontrada"));
      }
      var doc := docs[key];
      var items := SanitizeItems(doc.items, OrElse(doc.client, key), draws.read);
      var found := FindId(items, id);
      if found.None? {
        return Failed(Failure(404, "OT no encontrada"));
      }
      var index := found.value;
      if NameTaken(items, name, index) {
        return Failed(Failure(409, "Ya existe una OT con ese nombre"));
      }
      if CodeTaken(items, code, index) {
        return Failed(Failure(409, "Ya existe una OT con ese codigo"));
      }
      var tasks := NormalizeTasksInput(key, body.tasks, fallback, draws.tasks);
      var after := items[index].(name := name, code := code, tasks := tasks);
      docs := docs[key := doc.(items := StoreItems(items[index := after]))];
      reply := Reply(200, OkBody);
    }

    /** `deleteWorkOrder`; the reply is 200 with `{ ok: true }`. */
    method Delete(actor: Principal, id: string, read: (nat, nat) -> string) returns (reply: Reply)
      modifies this
      ensures match DeleteSpec(actor, id, old(docs), read)
        case Ok(d) => docs == old(docs)[d.key := d.doc] && reply == Reply(200, OkBody)
        case Err(f) => docs == old(docs) && reply == Failed(f)
    {
      if !CanManageWorkOrders(actor) {
        return Failed(Failure(403, "Permiso denegado"));
      }
      var parsed := ParseCompositeId(id);
      if parsed.None? {
        return Failed(Failure(400, "ID invalido"));
      }
      var key := parsed.value.clientKey;
      if key !in docs {
        return Failed(Failure(404, "OT no encontrada"));
      }
      var doc := docs[key];
      var items := SanitizeItems(doc.items, OrElse(doc.client, key), read);
      var next := Lists.Filter(items, NotId(id));
      if |next| == |items| {
        return Failed(Failure(404, "OT no encontrada"));
      }
      docs := docs[key := doc.(items := StoreItems(next))];
      reply := Reply(200, OkBody);
    }
  }
}

/** Work orders ("OT"): one document per client, keyed by the normalised
    client name, holding the client's work orders in an `items` array. A work
    order is addressed from outside by the composite id `clientKey::rawId`;
    each carries a list of tasks with ids of the same form. Stored data is
    cleaned on every read (`sanitizeItems`), and the create, update and
    delete handlers rewrite the whole array. */
module WorkOrders {
  import opened Common
  import opened Strings
  import opened Json
  import opened Sorting
  import Lists
  import opened Permissions
  import opened HoursRoles
  import opened Http

  // ---------------------------------------------------------------- composite ids

  /** `normalizeKey`: trimmed, then lower-cased. */
  function NormalizeKey(s: string): string {
    Lower(Trim(s))
  }

  /** `buildCompositeId(clientKey, rawId)`. */
  function CompositeId(clientKey: string, rawId: string): string {
    clientKey + "::" + rawId
  }

  /** The separator "::" starts at index `i` of `s`. */
  predicate SepAt(s: string, i: int) {
    0 <= i && i + 1 < |s| && s[i] == ':' && s[i + 1] == ':'
  }

  /** `s.includes('::')`. */
  predicate HasSep(s: string) {
    exists i :: 0 <= i < |s| && SepAt(s, i)
  }

  function FindSepFrom(s: string, from: nat): (r: Option<nat>)
    requires from <= |s|
    ensures r.Some? ==> from <= r.value && SepAt(s, r.value)
    ensures r.Some? ==> forall j :: from <= j < r.value ==> !SepAt(s, j)
    ensures r.None? ==> forall j :: from <= j ==> !SepAt(s, j)
    decreases |s| - from
  {
    if from + 1 >= |s| then None
    else if s[from] == ':' && s[from + 1] == ':' then Some(from)
    else FindSepFrom(s, from + 1)
  }

  /** `s.indexOf('::')`: the first separator, if any. */
  function FindSep(s: string): (r: Option<nat>)
    ensures r.Some? ==> SepAt(s, r.value) && forall j :: 0 <= j < r.value ==> !SepAt(s, j)
    ensures r.None? <==> !HasSep(s)
  {
    FindSepFrom(s, 0)
  }

  datatype IdParts = IdParts(clientKey: string, rawId: string)

  /** `parseCompositeId`: null without a separator; otherwise the first two
      pieces of `value.split('::')`, and null when either is empty. A third
      piece, if any, is ignored. */
  function ParseCompositeId(value: string): (r: Option<IdParts>)
    ensures !HasSep(value) ==> r.None?
    ensures r.Some? ==> r.value.clientKey != "" && r.value.rawId != ""
    ensures r.Some? ==> !HasSep(r.value.clientKey) && !HasSep(r.value.rawId)
    ensures r.Some? ==> IsPrefix(CompositeId(r.value.clientKey, r.value.rawId), value)
  {
    match FindSep(value)
    case None => None
    case Some(i) =>
      var clientKey := value[..i];
      var rest := value[i + 2..];
      var rawId := match FindSep(rest) case None => rest case Some(j) => rest[..j];
      assert !HasSep(clientKey) by {
        forall j | SepAt(clientKey, j) ensures false {
          assert SepAt(value, j);
        }
      }
      assert !HasSep(rawId) by {
        forall j | SepAt(rawId, j) ensures false {
          assert SepAt(rest, j);
        }
      }
      assert value[i + 2..i + 2 + |rawId|] == rawId;
      assert value[i..i + 2] == "::";
      assert value[..i + 2 + |rawId|] == value[..i] + value[i..i + 2] + value[i + 2..i + 2 + |rawId|];
      if clientKey == "" || rawId == "" then None else Some(IdParts(clientKey, rawId))
  }

  lemma CompositeHasSep(clientKey: string, rawId: string)
    ensures SepAt(CompositeId(clientKey, rawId), |clientKey|)
    ensures HasSep(CompositeId(clientKey, rawId))
  {
    assert SepAt(CompositeId(clientKey, rawId), |clientKey|);
  }

  /** A client key the composite id gives back intact: non-empty, free of
      "::" and not ending in ':'. */
  predicate ParsableKey(clientKey: string) {
    clientKey != "" && !HasSep(clientKey) && clientKey[|clientKey| - 1] != ':'
  }

  /** Building and parsing are inverse when both parts are non-empty, free of
      "::", and the client key does not end in ':'. */
  lemma ParseBuild(clientKey: string, rawId: string)
    requires clientKey != "" && rawId != ""
    requires !HasSep(clientKey) && !HasSep(rawId)
    requires clientKey[|clientKey| - 1] != ':'
    ensures ParseCompositeId(CompositeId(clientKey, rawId)) == Some(IdParts(clientKey, rawId))
  {
    var s := CompositeId(clientKey, rawId);
    CompositeHasSep(clientKey, rawId);
    forall j | 0 <= j < |clientKey| ensures !SepAt(s, j) {
      if j + 1 < |clientKey| {
        assert !SepAt(clientKey, j);
      }
    }
    assert FindSep(s) == Some(|clientKey|);
    assert s[..|clientKey|] == clientKey;
    assert s[|clientKey| + 2..] == rawId;
    assert FindSep(rawId) == None;
  }

  /** A client key ending in ':' moves that ':' into the raw id: the id built
      from "acme:" and "x1" reads back as "acme" and ":x1". */
  lemma ColonEndingKeyMisparsed()
    ensures ParseCompositeId(CompositeId("acme:", "x1")) == Some(IdParts("acme", ":x1"))
  {
    var s := CompositeId("acme:", "x1");
    assert !SepAt(s, 0) && !SepAt(s, 1) && !SepAt(s, 2) && !SepAt(s, 3) && SepAt(s, 4);
    assert FindSep(s) == Some(4);
    var rest := s[6..];
    assert rest == ":x1";
    assert !SepAt(rest, 0) && !SepAt(rest, 1);
    assert FindSep(rest) == None;
    assert s[..4] == "acme";
  }

  // ---------------------------------------------------------------- tasks

  /** An array as read from a document or a request body: None when the
      value is not an array; a None element is one that is not an object. */
  type RawList<T> = Option<seq<Option<T>>>

  function Elements<T>(l: RawList<T>): seq<Option<T>> {
    if l.Some? then l.value else []
  }

  /** A task object as stored or received; absent fields are ''. */
  datatype RawTask = RawTask(id: string, labelText: string, name: string, task: string)

  datatype Task = Task(id: string, labelText: string)

  /** `normalizeText(task.label || task.name || task.task)`. */
  function TaskLabel(t: RawTask): string {
    Trim(OrElse(OrElse(t.labelText, t.name), t.task))
  }

  /** What every cleaned task looks like: an id and a trimmed, non-blank
      label. */
  predicate TaskShaped(t: Task) {
    t.id != "" && t.labelText != "" && Trim(t.labelText) == t.labelText
  }

  /** One element of `sanitizeStoredTasks`: dropped when it is not an object
      or has no label; a missing id becomes `task::<fresh id>`. */
  function StoredTask(o: Option<RawTask>, freshId: string): (r: Option<Task>)
    ensures r.Some? <==> o.Some? && TaskLabel(o.value) != ""
    ensures r.Some? ==> TaskShaped(r.value) && r.value.labelText == TaskLabel(o.value)
    ensures r.Some? && o.value.id != "" ==> r.value.id == o.value.id
  {
    if o.None? then None
    else
      var text := TaskLabel(o.value);
      if text == "" then None
      else
        TrimIdempotent(OrElse(OrElse(o.value.labelText, o.value.name), o.value.task));
        Some(Task(OrElse(o.value.id, CompositeId("task", freshId)), text))
  }

  function StoredTaskAt(draw: nat -> string): (nat, Option<RawTask>) -> Option<Task> {
    (i: nat, o: Option<RawTask>) => StoredTask(o, draw(i))
  }

  lemma StoredTasksShaped(s: seq<Option<RawTask>>, draw: nat -> string)
    ensures forall k :: 0 <= k < |Lists.FilterMap(s, StoredTaskAt(draw))| ==> TaskShaped(Lists.FilterMap(s, StoredTaskAt(draw))[k])
  {
    var f := StoredTaskAt(draw);
    var r := Lists.FilterMap(s, f);
    Lists.FilterMapSources(s, f, 0);
    forall k | 0 <= k < |r| ensures TaskShaped(r[k]) {
      var j :| 0 <= j < |s| && f(j, s[j]) == Some(r[k]);
      assert f(j, s[j]) == StoredTask(s[j], draw(j));
    }
  }

  /** `sanitizeStoredTasks(tasks)`; `draw(i)` is the random id drawn for
      element `i` when it lacks one. */
  function SanitizeStoredTasks(tasks: RawList<RawTask>, draw: nat -> string): (r: seq<Task>)
    ensures |r| <= |Elements(tasks)|
    ensures forall k :: 0 <= k < |r| ==> TaskShaped(r[k])
  {
    StoredTasksShaped(Elements(tasks), draw);
    Lists.FilterMap(Elements(tasks), StoredTaskAt(draw))
  }

  /** The array a list of clean tasks is written back as. */
  function StoreTasks(ts: seq<Task>): (r: RawList<RawTask>)
    ensures |Elements(r)| == |ts|
  {
    Some(seq(|ts|, k requires 0 <= k < |ts| => Some(RawTask(ts[k].id, ts[k].labelText, "", ""))))
  }

  /** Every usable task survives cleaning. */
  lemma SanitizeStoredTasksKeeps(tasks: RawList<RawTask>, draw: nat -> string, j: nat)
    requires j < |Elements(tasks)| && Elements(tasks)[j].Some? && TaskLabel(Elements(tasks)[j].value) != ""
    ensures StoredTask(Elements(tasks)[j], draw(j)).value in SanitizeStoredTasks(tasks, draw)
  {
    assert StoredTaskAt(draw)(j, Elements(tasks)[j]) == StoredTask(Elements(tasks)[j], draw(j));
    Lists.FilterMapKeeps(Elements(tasks), StoredTaskAt(draw), 0, j);
  }

  /** Clean tasks written back read back unchanged, whatever ids the read
      would draw. */
  lemma TasksRoundTrip(ts: seq<Task>, draw: nat -> string)
    requires forall k :: 0 <= k < |ts| ==> TaskShaped(ts[k])
    ensures SanitizeStoredTasks(StoreTasks(ts), draw) == ts
  {
    var s := Elements(StoreTasks(ts));
    var f := StoredTaskAt(draw);
    forall j | 0 <= j < |s| ensures f(j, s[j]) == Some(ts[j]) {
      TrimIdempotent(ts[j].labelText);
      assert TaskLabel(s[j].value) == Trim(ts[j].labelText);
    }
    Lists.FilterMapTotal(s, f, 0);
  }

  /** One element of `normalizeTasksInput`: an id already holding "::" is
      kept; otherwise the id (or a fresh one) is prefixed with the client
      key. */
  function InputTask(clientKey: string, o: Option<RawTask>, freshId: string): (r: Option<Task>)
    ensures r.Some? <==> o.Some? && TaskLabel(o.value) != ""
    ensures r.Some? ==> TaskShaped(r.value) && HasSep(r.value.id) && r.value.labelText == TaskLabel(o.value)
    ensures r.Some? && HasSep(o.value.id) ==> r.value.id == o.value.id
  {
    if o.None? then None
    else
      var text := TaskLabel(o.value);
      if text == "" then None
      else
        TrimIdempotent(OrElse(OrElse(o.value.labelText, o.value.name), o.value.task));
        var id := if o.value.id != "" && HasSep(o.value.id) then o.value.id
                  else CompositeId(clientKey, OrElse(o.value.id, freshId));
        CompositeHasSep(clientKey, OrElse(o.value.id, freshId));
        Some(Task(id, text))
  }

  lemma InputTasksShaped(clientKey: string, s: seq<Option<RawTask>>, draw: nat -> string)
    ensures forall k :: 0 <= k < |Lists.FilterMap(s, InputTaskAt(clientKey, draw))| ==>
      TaskShaped(Lists.FilterMap(s, InputTaskAt(clientKey, draw))[k]) && HasSep(Lists.FilterMap(s, InputTaskAt(clientKey, draw))[k].id)
  {
    var f := InputTaskAt(clientKey, draw);
    var r := Lists.FilterMap(s, f);
    Lists.FilterMapSources(s, f, 0);
    forall k | 0 <= k < |r| ensures TaskShaped(r[k]) && HasSep(r[k].id) {
      var j :| 0 <= j < |s| && f(j, s[j]) == Some(r[k]);
      assert f(j, s[j]) == InputTask(clientKey, s[j], draw(j));
    }
  }

  function InputTaskAt(clientKey: string, draw: nat -> string): (nat, Option<RawTask>) -> Option<Task> {
    (i: nat, o: Option<RawTask>) => InputTask(clientKey, o, draw(i))
  }

  /** `normalizeTasksInput(clientKey, tasks, fallbackTask)`: the usable tasks
      of the body; when there are none, the fallback task name, if not blank,
      becomes the single task. `draw(i)` is the id drawn for element `i`,
      `draw(|tasks|)` the one for the fallback. */
  function NormalizeTasksInput(clientKey: string, tasks: RawList<RawTask>, fallback: string, draw: nat -> string): (r: seq<Task>)
    ensures forall k :: 0 <= k < |r| ==> TaskShaped(r[k]) && HasSep(r[k].id)
  {
    InputTasksShaped(clientKey, Elements(tasks), draw);
    var entries := Lists.FilterMap(Elements(tasks), InputTaskAt(clientKey, draw));
    if |entries| == 0 && fallback != "" then
      var text := Trim(fallback);
      if text != "" then
        TrimIdempotent(fallback);
        CompositeHasSep(clientKey, draw(|Elements(tasks)|));
        [Task(CompositeId(clientKey, draw(|Elements(tasks)|)), text)]
      else []
    else entries
  }

  /** When every element is a usable task, each becomes one task, in order,
      and the fallback is ignored. */
  lemma NormalizeKeepsEveryTask(clientKey: string, tasks: RawList<RawTask>, fallback: string, draw: nat -> string)
    requires |Elements(tasks)| > 0
    requires forall j :: 0 <= j < |Elements(tasks)| ==>
      Elements(tasks)[j].Some? && TaskLabel(Elements(tasks)[j].value) != ""
    ensures |NormalizeTasksInput(clientKey, tasks, fallback, draw)| == |Elements(tasks)|
    ensures forall k :: 0 <= k < |Elements(tasks)| ==>
      NormalizeTasksInput(clientKey, tasks, fallback, draw)[k] == InputTask(clientKey, Elements(tasks)[k], draw(k)).value
  {
    InputTasksTotal(clientKey, Elements(tasks), draw);
    NormalizeUsesEntries(clientKey, tasks, fallback, draw);
  }

  lemma InputTasksTotal(clientKey: string, s: seq<Option<RawTask>>, draw: nat -> string)
    requires forall j :: 0 <= j < |s| ==> s[j].Some? && TaskLabel(s[j].value) != ""
    ensures |Lists.FilterMap(s, InputTaskAt(clientKey, draw))| == |s|
    ensures forall k :: 0 <= k < |s| ==> Lists.FilterMap(s, InputTaskAt(clientKey, draw))[k] == InputTask(clientKey, s[k], draw(k)).value
  {
    var f := InputTaskAt(clientKey, draw);
    forall j | 0 <= j < |s| ensures f(j, s[j]).Some? {
      InputTaskAtApplies(clientKey, draw, j, s[j]);
    }
    Lists.FilterMapTotal(s, f, 0);
    forall k | 0 <= k < |s| ensures Lists.FilterMap(s, f)[k] == InputTask(clientKey, s[k], draw(k)).value {
      InputTaskAtApplies(clientKey, draw, k, s[k]);
      Lists.FilterMapTotalAt(s, f, k);
    }
  }

  lemma InputTaskAtApplies(clientKey: string, draw: nat -> string, j: nat, o: Option<RawTask>)
    ensures InputTaskAt(clientKey, draw)(j, o) == InputTask(clientKey, o, draw(j))
  {
  }

  /** With at least one usable task, the fallback plays no part. */
  lemma NormalizeUsesEntries(clientKey: string, tasks: RawList<RawTask>, fallback: string, draw: nat -> string)
    requires |Lists.FilterMap(Elements(tasks), InputTaskAt(clientKey, draw))| > 0
    ensures NormalizeTasksInput(clientKey, tasks, fallback, draw) == Lists.FilterMap(Elements(tasks), InputTaskAt(clientKey, draw))
  {
  }

  /** Without a usable task, the fallback name alone decides: one task when
      it is not blank, none otherwise. */
  lemma NormalizeFallback(clientKey: string, tasks: RawList<RawTask>, fallback: string, draw: nat -> string)
    requires forall j :: 0 <= j < |Elements(tasks)| ==>
      Elements(tasks)[j].None? || TaskLabel(Elements(tasks)[j].value) == ""
    ensures Trim(fallback) != "" ==>
      NormalizeTasksInput(clientKey, tasks, fallback, draw) == [Task(CompositeId(clientKey, draw(|Elements(tasks)|)), Trim(fallback))]
    ensures Trim(fallback) == "" ==> NormalizeTasksInput(clientKey, tasks, fallback, draw) == []
  {
    var s := Elements(tasks);
    var f := InputTaskAt(clientKey, draw);
    forall j | 0 <= j < |s| ensures f(j, s[j]).None? {
      assert f(j, s[j]) == InputTask(clientKey, s[j], draw(j));
    }
    Lists.FilterMapNone(s, f, 0);
    if fallback == "" {
      assert Trim(fallback) == "";
    }
  }

  // ---------------------------------------------------------------- work orders

  /** A stored work-order object; absent fields are ''. `task` is the single
      task name of the older format. */
  datatype RawItem = RawItem(id: string, name: string, code: string, client: string, tasks: RawList<RawTask>, task: string)

  datatype WorkOrder = WorkOrder(id: string, name: string, code: string, client: string, tasks: seq<Task>)

  /** What every work order cleaned under a non-empty client name looks like. */
  predicate Shaped(w: WorkOrder) {
    w.id != "" && w.name != "" && w.client != "" && forall k :: 0 <= k < |w.tasks| ==> TaskShaped(w.tasks[k])
  }

  /** The ids drawn while cleaning the tasks of stored element `j`. */
  function Row(read: (nat, nat) -> string, j: nat): nat -> string {
    (i: nat) => read(j, i)
  }

  /** One element of `sanitizeItems`: kept when it is an object with an id and
      a name; the code defaults to '', the client to the document's, and the
      tasks are cleaned. */
  function SanitizeItem(o: Option<RawItem>, client: string, draw: nat -> string): (r: Option<WorkOrder>)
    ensures r.Some? <==> o.Some? && o.value.id != "" && o.value.name != ""
    ensures r.Some? ==> r.value.id == o.value.id && r.value.name == o.value.name && r.value.code == o.value.code
    ensures r.Some? && client != "" ==> Shaped(r.value)
  {
    if o.None? || o.value.id == "" || o.value.name == "" then None
    else Some(WorkOrder(o.value.id, o.value.name, o.value.code, OrElse(o.value.client, client), SanitizeStoredTasks(o.value.tasks, draw)))
  }

  function SanitizeItemAt(client: string, read: (nat, nat) -> string): (nat, Option<RawItem>) -> Option<WorkOrder> {
    (j: nat, o: Option<RawItem>) => SanitizeItem(o, client, Row(read, j))
  }

  /** `sanitizeItems(items, client)`; `read(j, i)` is the id drawn for task
      `i` of element `j` when it lacks one. */
  function SanitizeItems(items: RawList<RawItem>, client: string, read: (nat, nat) -> string): (r: seq<WorkOrder>)
    ensures |r| <= |Elements(items)|
  {
    Lists.FilterMap(Elements(items), SanitizeItemAt(client, read))
  }

  /** Under a non-empty client name every cleaned work order is well formed. */
  lemma SanitizeItemsShaped(items: RawList<RawItem>, client: string, read: (nat, nat) -> string)
    requires client != ""
    ensures forall k :: 0 <= k < |SanitizeItems(items, client, read)| ==> Shaped(SanitizeItems(items, client, read)[k])
  {
    var s := Elements(items);
    var f := SanitizeItemAt(client, read);
    var r := SanitizeItems(items, client, read);
    Lists.FilterMapSources(s, f, 0);
    forall k | 0 <= k < |r| ensures Shaped(r[k]) {
      var j :| 0 <= j < |s| && f(j, s[j]) == Some(r[k]);
      assert f(j, s[j]) == SanitizeItem(s[j], client, Row(read, j));
    }
  }

  /** Every element with an id and a name survives cleaning. */
  lemma SanitizeItemsKeeps(items: RawList<RawItem>, client: string, read: (nat, nat) -> string, j: nat)
    requires j < |Elements(items)| && Elements(items)[j].Some?
    requires Elements(items)[j].value.id != "" && Elements(items)[j].value.name != ""
    ensures SanitizeItem(Elements(items)[j], client, Row(read, j)).value in SanitizeItems(items, client, read)
  {
    assert SanitizeItemAt(client, read)(j, Elements(items)[j]) == SanitizeItem(Elements(items)[j], client, Row(read, j));
    Lists.FilterMapKeeps(Elements(items), SanitizeItemAt(client, read), 0, j);
  }

  /** The object a clean work order is written back as. */
  function StoreItem(w: WorkOrder): RawItem {
    RawItem(w.id, w.name, w.code, w.client, StoreTasks(w.tasks), "")
  }

  /** The `items` array a list of clean work orders is written back as. */
  function StoreItems(ws: seq<WorkOrder>): (r: RawList<RawItem>)
    ensures |Elements(r)| == |ws|
  {
    Some(seq(|ws|, k requires 0 <= k < |ws| => Some(StoreItem(ws[k]))))
  }

  /** Well-formed work orders written back read back unchanged, under any
      client name and whatever ids the read would draw. */
  lemma ItemsRoundTrip(ws: seq<WorkOrder>, client: string, read: (nat, nat) -> string)
    requires forall k :: 0 <= k < |ws| ==> Shaped(ws[k])
    ensures SanitizeItems(StoreItems(ws), client, read) == ws
  {
    var s := Elements(StoreItems(ws));
    var f := SanitizeItemAt(client, read);
    forall j | 0 <= j < |s| ensures f(j, s[j]) == Some(ws[j]) {
      TasksRoundTrip(ws[j].tasks, Row(read, j));
      assert f(j, s[j]) == SanitizeItem(Some(StoreItem(ws[j])), client, Row(read, j));
    }
    Lists.FilterMapTotal(s, f, 0);
  }

  // ---------------------------------------------------------------- responses

  /** `items[index]?.task` on the raw array. */
  function LegacyTask(items: RawList<RawItem>, index: nat): string {
    var e := Elements(items);
    if index < |e| && e[index].Some? then e[index].value.task else ""
  }

  function Constantly(id: string): nat -> string {
    (i: nat) => id
  }

  /** Two versions of the same work order: same id, name, code and client. */
  predicate SameOrder(a: WorkOrder, b: WorkOrder) {
    a.id == b.id && a.name == b.name && a.code == b.code && a.client == b.client
  }

  /** The `map` step of `responseItems`: a work order without tasks whose
      legacy task name is set gets that single task, with id
      `clientKey::<freshId>`. */
  function WithLegacyTask(w: WorkOrder, legacy: string, clientKey: string, freshId: string): (r: WorkOrder)
    ensures SameOrder(r, w)
    ensures legacy == "" ==> r == w
  {
    if |w.tasks| == 0 && legacy != "" then
      var raw := RawTask(CompositeId(clientKey, freshId), legacy, "", "");
      w.(tasks := SanitizeStoredTasks(Some([Some(raw)]), Constantly(freshId)))
    else w
  }

  /** The `sort` comparator of `responseItems`: by name. */
  predicate NameLe(a: WorkOrder, b: WorkOrder) {
    LexLe(a.name, b.name)
  }

  lemma NameLeTotalPreorder()
    ensures TotalPreorder(NameLe)
  {
    forall a: WorkOrder, b: WorkOrder ensures NameLe(a, b) || NameLe(b, a) {
      LexLeTotal(a.name, b.name);
    }
    forall a: WorkOrder, b: WorkOrder, c: WorkOrder | NameLe(a, b) && NameLe(b, c)
      ensures NameLe(a, c)
    {
      LexLeTrans(a.name, b.name, c.name);
    }
  }

  /** The cleaned work orders with their legacy tasks, before sorting. The
      legacy name is read at position `k` of the RAW array although `k` counts
      the cleaned ones. */
  function WithLegacyTasks(items: RawList<RawItem>, client: string, read: (nat, nat) -> string, legacy: nat -> string): (r: seq<WorkOrder>)
    ensures |r| == |SanitizeItems(items, client, read)|
  {
    var s := SanitizeItems(items, client, read);
    seq(|s|, k requires 0 <= k < |s| => WithLegacyTask(s[k], LegacyTask(items, k), NormalizeKey(client), legacy(k)))
  }

  lemma WithLegacyTasksAt(items: RawList<RawItem>, client: string, read: (nat, nat) -> string, legacy: nat -> string, k: nat)
    requires k < |SanitizeItems(items, client, read)|
    ensures SameOrder(WithLegacyTasks(items, client, read, legacy)[k], SanitizeItems(items, client, read)[k])
    ensures LegacyTask(items, k) == "" ==> WithLegacyTasks(items, client, read, legacy)[k] == SanitizeItems(items, client, read)[k]
    ensures WithLegacyTasks(items, client, read, legacy)[k]
      == WithLegacyTask(SanitizeItems(items, client, read)[k], LegacyTask(items, k), NormalizeKey(client), legacy(k))
  {
    var s := SanitizeItems(items, client, read);
    var r := WithLegacyTasks(items, client, read, legacy);
    assert r[k] == WithLegacyTask(s[k], LegacyTask(items, k), NormalizeKey(client), legacy(k));
  }

  /** `responseItems(items, client)`: the cleaned work orders, legacy tasks
      filled in, sorted by name. `legacy(k)` is the id drawn for the k-th. */
  function ResponseItems(items: RawList<RawItem>, client: string, read: (nat, nat) -> string, legacy: nat -> string): (r: seq<WorkOrder>)
    ensures |r| == |SanitizeItems(items, client, read)|
  {
    SortBy(WithLegacyTasks(items, client, read, legacy), NameLe)
  }

  /** The response is ordered by name. */
  lemma ResponseItemsSorted(items: RawList<RawItem>, client: string, read: (nat, nat) -> string, legacy: nat -> string)
    ensures SortedBy(ResponseItems(items, client, read, legacy), NameLe)
  {
    NameLeTotalPreorder();
    SortBySorted(WithLegacyTasks(items, client, read, legacy), NameLe);
  }

  /** The response lists every cleaned work order, with its id, name, code and
      client, and nothing else. */
  lemma ResponseItemsListsEach(items: RawList<RawItem>, client: string, read: (nat, nat) -> string, legacy: nat -> string,
                               s: seq<WorkOrder>, r: seq<WorkOrder>)
    requires s == SanitizeItems(items, client, read) && r == ResponseItems(items, client, read, legacy)
    ensures forall k :: 0 <= k < |s| ==> exists m :: 0 <= m < |r| && SameOrder(r[m], s[k])
    ensures forall m :: 0 <= m < |r| ==> exists k :: 0 <= k < |s| && SameOrder(r[m], s[k])
  {
    var w := WithLegacyTasks(items, client, read, legacy);
    forall k | 0 <= k < |s| ensures SameOrder(w[k], s[k]) {
      WithLegacyTasksAt(items, client, read, legacy, k);
    }
    ListedOnce(s, w, r);
  }

  lemma ListedOnce(s: seq<WorkOrder>, w: seq<WorkOrder>, r: seq<WorkOrder>)
    requires |w| == |s| && forall k :: 0 <= k < |s| ==> SameOrder(w[k], s[k])
    requires multiset(r) == multiset(w)
    ensures forall k :: 0 <= k < |s| ==> exists m :: 0 <= m < |r| && SameOrder(r[m], s[k])
    ensures forall m :: 0 <= m < |r| ==> exists k :: 0 <= k < |s| && SameOrder(r[m], s[k])
  {
    forall k | 0 <= k < |s| ensures exists m :: 0 <= m < |r| && SameOrder(r[m], s[k]) {
      assert w[k] in multiset(r);
      var m :| 0 <= m < |r| && r[m] == w[k];
      assert SameOrder(r[m], s[k]);
    }
    forall m | 0 <= m < |r| ensures exists k :: 0 <= k < |s| && SameOrder(r[m], s[k]) {
      assert r[m] in multiset(w);
      var k :| 0 <= k < |w| && w[k] == r[m];
      assert SameOrder(r[m], s[k]);
    }
  }


  /** Work orders written back by the handlers are answered as they were
      written, sorted by name: they carry no legacy task name. */
  lemma ResponseOfStored(ws: seq<WorkOrder>, client: string, read: (nat, nat) -> string, legacy: nat -> string)
    requires forall k :: 0 <= k < |ws| ==> Shaped(ws[k])
    ensures ResponseItems(StoreItems(ws), client, read, legacy) == SortBy(ws, NameLe)
  {
    var items := StoreItems(ws);
    ItemsRoundTrip(ws, client, read);
    var w := WithLegacyTasks(items, client, read, legacy);
    forall k | 0 <= k < |ws| ensures w[k] == ws[k] {
      StoredHasNoLegacyTask(ws, k);
      WithLegacyTasksAt(items, client, read, legacy, k);
    }
    assert w == ws;
    assert ResponseItems(items, client, read, legacy) == SortBy(w, NameLe);
  }

  /** Work orders written back carry no legacy task. */
  lemma StoredHasNoLegacyTask(ws: seq<WorkOrder>, k: nat)
    ensures LegacyTask(StoreItems(ws), k) == ""
  {
    if k < |ws| {
      assert Elements(StoreItems(ws))[k] == Some(StoreItem(ws[k]));
    }
  }

  /** The legacy task is looked up at the cleaned position in the raw array:
      when an unusable element precedes it, a work order loses its legacy
      task. */
  lemma LegacyTaskMisplaced(read: (nat, nat) -> string, legacy: nat -> string)
    ensures var legacyItem := RawItem("acme::1", "Montaje", "", "", None, "Soldar");
      ResponseItems(Some([None, Some(legacyItem)]), "acme", read, legacy) == [WorkOrder("acme::1", "Montaje", "", "acme", [])]
  {
    var legacyItem := RawItem("acme::1", "Montaje", "", "", None, "Soldar");
    var items := Some([None, Some(legacyItem)]);
    var s := Elements(items);
    var f := SanitizeItemAt("acme", read);
    var w := WorkOrder("acme::1", "Montaje", "", "acme", []);
    assert f(0, s[0]) == None;
    assert f(1, s[1]) == Some(w);
    assert Lists.FilterMapFrom(s, f, 2) == [];
    assert Lists.FilterMapFrom(s, f, 1) == [w];
    assert Lists.FilterMapFrom(s, f, 0) == [w];
    assert SanitizeItems(items, "acme", read) == [w];
    assert LegacyTask(items, 0) == "";
    WithLegacyTasksAt(items, "acme", read, legacy, 0);
    assert WithLegacyTasks(items, "acme", read, legacy) == [w];
  }

  /** The same work order in first position does get its legacy task. */
  lemma LegacyTaskFirst(read: (nat, nat) -> string, legacy: nat -> string)
    ensures var legacyItem := RawItem("acme::1", "Montaje", "", "", None, "Soldar");
      ResponseItems(Some([Some(legacyItem)]), "acme", read, legacy)
        == [WorkOrder("acme::1", "Montaje", "", "acme", [Task(CompositeId("acme", legacy(0)), "Soldar")])]
  {
    var legacyItem := RawItem("acme::1", "Montaje", "", "", None, "Soldar");
    var items := Some([Some(legacyItem)]);
    var s := Elements(items);
    var f := SanitizeItemAt("acme", read);
    var w := WorkOrder("acme::1", "Montaje", "", "acme", []);
    assert f(0, s[0]) == Some(w);
    assert SanitizeItems(items, "acme", read) == [w];
    TrimStartNoop("acme");
    TrimEndNoop("acme");
    TrimStartNoop("Soldar");
    TrimEndNoop("Soldar");
    assert NormalizeKey("acme") == "acme";
    var raw := RawTask(CompositeId("acme", legacy(0)), "Soldar", "", "");
    var g := StoredTaskAt(Constantly(legacy(0)));
    assert TaskLabel(raw) == "Soldar";
    assert StoredTask(Some(raw), legacy(0)) == Some(Task(CompositeId("acme", legacy(0)), "Soldar"));
    assert g(0, Some(raw)) == Some(Task(CompositeId("acme", legacy(0)), "Soldar"));
    assert Lists.FilterMapFrom([Some(raw)], g, 1) == [];
    assert SanitizeStoredTasks(Some([Some(raw)]), Constantly(legacy(0))) == [Task(CompositeId("acme", legacy(0)), "Soldar")];
    WithLegacyTasksAt(items, "acme", read, legacy, 0);
    assert WithLegacyTasks(items, "acme", read, legacy) == [w.(tasks := [Task(CompositeId("acme", legacy(0)), "Soldar")])];
  }

  // ---------------------------------------------------------------- who may manage

  /** `canManageWorkOrders(user)`: the admin role, an hours-manager role, or
      one of the flags `timesheets.manage` and `hours.workorders`. Unlike the
      route gate, the admin role alone suffices here. */
  predicate CanManageWorkOrders(user: Principal)
    ensures "admin" in user.roles || HasHoursManagerRole(Some(user.roles)) ==> CanManageWorkOrders(user)
    ensures (!Truthy(user.permissions) || user.permissions == JObj([]) ==>
      (CanManageWorkOrders(user) <==> "admin" in user.roles || HasHoursManagerRole(Some(user.roles))))
  {
    EmptyPermissionsHoldNothing("timesheets.manage");
    EmptyPermissionsHoldNothing("hours.workorders");
    var perms := if Truthy(user.permissions) then user.permissions else JObj([]);
    "admin" in user.roles || HasHoursManagerRole(Some(user.roles))
    || HasPermission(perms, "timesheets.manage") || HasPermission(perms, "hours.workorders")
  }

  /** Here the admin role alone is enough, while the route gate refuses an
      admin whose permissions lack the flag. */
  lemma AdminManagesWithoutFlags(uid: string, username: string, displayName: string)
    ensures CanManageWorkOrders(Principal(uid, username, displayName, ["admin"], JObj([])))
    ensures Permit(["admin"], Some(JObj([])), ["hours.workorders"], map[]) == Deny("Permiso denegado")
  {
    AdminRoleGrantsNothing("hours", "workorders");
    assert "hours" + "." + "workorders" == "hours.workorders";
  }

  /** An hours-manager role, however spelt, is enough. */
  lemma HoursManagerManages(uid: string, username: string, displayName: string)
    ensures CanManageWorkOrders(Principal(uid, username, displayName, [" Gestor Horas "], JNull))
  {
    ManagerRoleIgnoresCaseAndBlanks();
  }

  /** Empty permissions hold no path. */
  lemma {:induction false} EmptyPermissionsHoldNothing(path: string)
    ensures !HasPermission(JObj([]), path)
  {
    var segs := Split(path, '.');
    assert Walk(Some(JObj([])), segs) == Walk(None, segs[1..]);
    WalkUndefined(segs[1..]);
  }

  /** Without roles and without permission flags nobody manages work orders. */
  lemma NobodyWithoutRolesOrFlags(uid: string, username: string, displayName: string, permissions: Value)
    requires permissions == JNull || permissions == JObj([])
    ensures !CanManageWorkOrders(Principal(uid, username, displayName, [], permissions))
  {
    NoRolesNoManager();
    EmptyPermissionsHoldNothing("timesheets.manage");
    EmptyPermissionsHoldNothing("hours.workorders");
  }
}

/** The hours entry page of the client: the work orders of the form's
    client, the flattening of work orders into one choice per task, who may
    still edit a registered entry, the blank form and the chaining of start
    times, and the entries of the day grouped by user. */
module HoursEntry {
  import opened Common
  import opened Strings
  import opened Sorting
  import Lists
  import ManageWorkOrders

  type RawOrder = ManageWorkOrders.RawOrder
  type RawTask = ManageWorkOrders.RawTask

  /** `normalizeClientKey`. */
  function ClientKey(s: string): string {
    Lower(Trim(s))
  }

  // ---------------------------------------------------------------- work orders by client

  /** One work order of the form's drop-down. */
  datatype MapItem = MapItem(id: string, name: string, client: string, code: string, task: string)

  /** The orders of one client, under its first-seen spelling. */
  datatype MapGroup = MapGroup(client: string, items: seq<MapItem>)

  /** An order the map keeps: present, with a name, a client and a key. */
  predicate Kept(o: Option<RawOrder>) {
    o.Some? && Trim(o.value.name) != "" && Trim(o.value.client) != "" && ClientKey(Trim(o.value.client)) != ""
  }

  function KeyOf(o: RawOrder): string {
    ClientKey(Trim(o.client))
  }

  /** The entry of an order: the id defaults to "key-name" and the task to
      the order's name. */
  function MapItemOf(o: RawOrder): (r: MapItem)
    ensures r.name == Trim(o.name) && r.client == Trim(o.client)
    ensures o.task == "" ==> r.task == Trim(o.name)
    ensures o.id == "" ==> r.id == KeyOf(o) + "-" + Trim(o.name)
    ensures o.task != "" ==> r.task == Trim(o.task)
    ensures o.id != "" ==> r.id == o.id
    ensures r.code == o.code
  {
    var name := Trim(o.name);
    TrimIdempotent(o.name);
    MapItem(if o.id != "" then o.id else KeyOf(o) + "-" + name, name, Trim(o.client), o.code,
            Trim(OrElse(o.task, name)))
  }

  /** The `reduce` of `buildWorkOrderMap`. */
  function WorkOrderMap(items: seq<Option<RawOrder>>): map<string, MapGroup>
    decreases |items|
  {
    if |items| == 0 then map[]
    else
      var acc := WorkOrderMap(items[..|items| - 1]);
      var o := items[|items| - 1];
      if !Kept(o) then acc
      else
        var key := KeyOf(o.value);
        var group := if key in acc then acc[key] else MapGroup(Trim(o.value.client), []);
        acc[key := MapGroup(group.client, group.items + [MapItemOf(o.value)])]
  }

  /** `buildWorkOrderMap(items)` as written: `acc` is updated entry by
      entry. */
  method BuildWorkOrderMap(items: seq<Option<RawOrder>>) returns (acc: map<string, MapGroup>)
    ensures acc == WorkOrderMap(items)
  {
    acc := map[];
    for i := 0 to |items|
      invariant acc == WorkOrderMap(items[..i])
    {
      assert items[..i + 1][..i] == items[..i];
      var o := items[i];
      if Kept(o) {
        var key := KeyOf(o.value);
        var group := if key in acc then acc[key] else MapGroup(Trim(o.value.client), []);
        acc := acc[key := MapGroup(group.client, group.items + [MapItemOf(o.value)])];
      }
    }
    assert items[..|items|] == items;
  }

  /** The entries of the kept orders of client `key`, in list order. */
  function ItemsFor(items: seq<Option<RawOrder>>, key: string): seq<MapItem>
    decreases |items|
  {
    if |items| == 0 then []
    else
      var o := items[|items| - 1];
      ItemsFor(items[..|items| - 1], key) + (if Kept(o) && KeyOf(o.value) == key then [MapItemOf(o.value)] else [])
  }

  /** The trimmed client of the first kept order of client `key`. */
  function FirstClient(items: seq<Option<RawOrder>>, key: string): string
    decreases |items|
  {
    if |items| == 0 then ""
    else
      var init := items[..|items| - 1];
      var o := items[|items| - 1];
      if ItemsFor(init, key) != [] then FirstClient(init, key)
      else if Kept(o) && KeyOf(o.value) == key then Trim(o.value.client)
      else ""
  }

  /** A client has entries exactly when one of its orders is kept. */
  lemma {:induction false} ItemsForEmpty(items: seq<Option<RawOrder>>, key: string)
    ensures ItemsFor(items, key) == [] <==> forall j :: 0 <= j < |items| ==> !(Kept(items[j]) && KeyOf(items[j].value) == key)
    decreases |items|
  {
    if |items| > 0 {
      var init := items[..|items| - 1];
      ItemsForEmpty(init, key);
      assert forall j :: 0 <= j < |init| ==> init[j] == items[j];
    }
  }

  /** The map has a client exactly when it has entries, and holds its
      first spelling and its entries in list order. */
  lemma {:induction false} WorkOrderMapGroups(items: seq<Option<RawOrder>>)
    ensures forall k :: k in WorkOrderMap(items) <==> ItemsFor(items, k) != []
    ensures forall k :: k in WorkOrderMap(items) ==> WorkOrderMap(items)[k] == MapGroup(FirstClient(items, k), ItemsFor(items, k))
    decreases |items|
  {
    if |items| > 0 {
      WorkOrderMapGroups(items[..|items| - 1]);
    }
  }

  /** The first kept order of a client gives its spelling. */
  lemma {:induction false} FirstClientAt(items: seq<Option<RawOrder>>, key: string, i: nat)
    requires i < |items| && Kept(items[i]) && KeyOf(items[i].value) == key
    requires forall j :: 0 <= j < i ==> !(Kept(items[j]) && KeyOf(items[j].value) == key)
    ensures FirstClient(items, key) == Trim(items[i].value.client)
    decreases |items|
  {
    var init := items[..|items| - 1];
    ItemsForEmpty(init, key);
    if i < |items| - 1 {
      FirstClientAt(init, key, i);
      assert init[i] == items[i];
    } else {
      assert forall j :: 0 <= j < |init| ==> init[j] == items[j];
    }
  }

  /** Every entry of a client's group has that client's key, a name, and
      the client as spelled on its own order. */
  lemma {:induction false} ItemsForKey(items: seq<Option<RawOrder>>, key: string)
    ensures forall x :: x in ItemsFor(items, key) ==> ClientKey(x.client) == key && x.name != "" && x.client != ""
    decreases |items|
  {
    if |items| > 0 {
      ItemsForKey(items[..|items| - 1], key);
      var o := items[|items| - 1];
      if Kept(o) {
        TrimIdempotent(o.value.client);
      }
    }
  }

  /** A client key is present exactly when some kept order has it; its
      group carries the spelling of the first such order and the entries of
      all of them. */
  lemma WorkOrderMapProperties(items: seq<Option<RawOrder>>, key: string)
    ensures key in WorkOrderMap(items) <==> exists j :: 0 <= j < |items| && Kept(items[j]) && KeyOf(items[j].value) == key
    ensures key in WorkOrderMap(items) ==>
      WorkOrderMap(items)[key].client == FirstClient(items, key)
      && WorkOrderMap(items)[key].items == ItemsFor(items, key)
      && forall x :: x in WorkOrderMap(items)[key].items ==> ClientKey(x.client) == key && x.name != ""
  {
    WorkOrderMapGroups(items);
    ItemsForEmpty(items, key);
    ItemsForKey(items, key);
  }

  // ---------------------------------------------------------------- one choice per task

  /** One task choice of the form. */
  datatype FlatItem = FlatItem(id: string, name: string, client: string, code: string, task: string)

  /** The label of a task: its label, else its name, else its task,
      trimmed. */
  function TaskLabel(t: RawTask): string {
    Trim(OrElse(t.caption, OrElse(t.name, t.task)))
  }

  /** A task of an order, kept when it has a label; its id defaults to
      "baseId-label". */
  function FlatTaskOf(baseId: string, name: string, client: string, code: string, t: Option<RawTask>): (r: Option<FlatItem>)
    ensures r.Some? <==> t.Some? && TaskLabel(t.value) != ""
    ensures r.Some? ==> r.value.task == TaskLabel(t.value) && r.value.client == client && r.value.name == name
  {
    if t.None? then None
    else if TaskLabel(t.value) == "" then None
    else Some(FlatItem(if t.value.id != "" then t.value.id else baseId + "-" + TaskLabel(t.value), name, client, code, TaskLabel(t.value)))
  }

  /** The choices of an order's task list. */
  function TaskChoices(tasks: seq<Option<RawTask>>, baseId: string, name: string, client: string, code: string): seq<FlatItem> {
    Lists.FilterMap(tasks, (_: nat, t: Option<RawTask>) => FlatTaskOf(baseId, name, client, code, t))
  }

  /** Every choice comes from a labelled task, under the order's client;
      every labelled task gives a choice. */
  lemma TaskChoicesProperties(tasks: seq<Option<RawTask>>, baseId: string, name: string, client: string, code: string)
    ensures forall x :: x in TaskChoices(tasks, baseId, name, client, code) ==>
      x.client == client && x.task != ""
      && exists j :: 0 <= j < |tasks| && tasks[j].Some? && x.task == TaskLabel(tasks[j].value)
    ensures forall j :: 0 <= j < |tasks| && tasks[j].Some? && TaskLabel(tasks[j].value) != "" ==>
      exists x :: x in TaskChoices(tasks, baseId, name, client, code) && x.task == TaskLabel(tasks[j].value)
  {
    var f := (_: nat, t: Option<RawTask>) => FlatTaskOf(baseId, name, client, code, t);
    var r := Lists.FilterMap(tasks, f);
    Lists.FilterMapSources(tasks, f, 0);
    forall x | x in r
      ensures x.client == client && x.task != ""
      ensures exists j :: 0 <= j < |tasks| && tasks[j].Some? && x.task == TaskLabel(tasks[j].value)
    {
      var k :| 0 <= k < |r| && r[k] == x;
      var j :| 0 <= j < |tasks| && f(j, tasks[j]) == Some(x);
    }
    forall j | 0 <= j < |tasks| && tasks[j].Some? && TaskLabel(tasks[j].value) != ""
      ensures exists x :: x in r && x.task == TaskLabel(tasks[j].value)
    {
      Lists.FilterMapKeeps(tasks, f, 0, j);
      assert f(j, tasks[j]).value in r;
    }
  }

  /** The client an order is filed under: its own, else the fallback. */
  function FlatClient(o: RawOrder, fallbackClient: string): string {
    Trim(OrElse(o.client, fallbackClient))
  }

  /** The base of the ids: the order's id, else "key-name", with `stamp`
      (standing for `Date.now()`) for a missing name. */
  function BaseId(o: RawOrder, client: string, stamp: string): string {
    if o.id != "" then o.id else ClientKey(client) + "-" + (if Trim(o.name) != "" then Trim(o.name) else stamp)
  }

  /** The choices of one order. */
  function FlattenOne(o: Option<RawOrder>, fallbackClient: string, stamp: string): seq<FlatItem> {
    if o.None? then []
    else
      var client := FlatClient(o.value, fallbackClient);
      if client == "" then []
      else if |o.value.tasks| == 0 then
        var fallbackTask := Trim(o.value.task);
        if fallbackTask == "" then []
        else [FlatItem(BaseId(o.value, client, stamp), Trim(o.value.name), client, Trim(o.value.code), fallbackTask)]
      else
        TaskChoices(o.value.tasks, BaseId(o.value, client, stamp), Trim(o.value.name), client, Trim(o.value.code))
  }

  /** An order without a client gives nothing; one without tasks gives
      one choice exactly when its own task is not blank; otherwise the
      choices are those of its labelled tasks. */
  lemma FlattenOneProperties(o: Option<RawOrder>, fallbackClient: string, stamp: string)
    ensures o.None? || FlatClient(o.value, fallbackClient) == "" ==> FlattenOne(o, fallbackClient, stamp) == []
    ensures o.Some? && FlatClient(o.value, fallbackClient) != "" && |o.value.tasks| == 0 ==>
      (FlattenOne(o, fallbackClient, stamp) != [] <==> Trim(o.value.task) != "")
      && |FlattenOne(o, fallbackClient, stamp)| <= 1
    ensures forall x :: x in FlattenOne(o, fallbackClient, stamp) ==>
      o.Some? && x.client == FlatClient(o.value, fallbackClient) && x.client != "" && x.task != ""
    ensures o.Some? && FlatClient(o.value, fallbackClient) != "" && |o.value.tasks| > 0 ==>
      (forall x :: x in FlattenOne(o, fallbackClient, stamp) ==>
        exists j :: 0 <= j < |o.value.tasks| && o.value.tasks[j].Some? && x.task == TaskLabel(o.value.tasks[j].value))
      && (forall j :: 0 <= j < |o.value.tasks| && o.value.tasks[j].Some? && TaskLabel(o.value.tasks[j].value) != "" ==>
        exists x :: x in FlattenOne(o, fallbackClient, stamp) && x.task == TaskLabel(o.value.tasks[j].value))
  {
    if o.Some? && FlatClient(o.value, fallbackClient) != "" && |o.value.tasks| > 0 {
      var client := FlatClient(o.value, fallbackClient);
      TaskChoicesProperties(o.value.tasks, BaseId(o.value, client, stamp), Trim(o.value.name), client, Trim(o.value.code));
    }
  }

  /** `flattenTaskEntries(items, fallbackClient)`: the choices of every
      order, in order. */
  function Flatten(items: seq<Option<RawOrder>>, fallbackClient: string, stamp: string): seq<FlatItem> {
    Lists.FlatMap(items, (o: Option<RawOrder>) => FlattenOne(o, fallbackClient, stamp))
  }

  /** Every choice comes from one order, has that order's client and a
      task; the choices of a joined list are those of its parts. */
  lemma FlattenProperties(items: seq<Option<RawOrder>>, more: seq<Option<RawOrder>>, fallbackClient: string, stamp: string)
    ensures forall x :: x in Flatten(items, fallbackClient, stamp) <==>
      exists i :: 0 <= i < |items| && x in FlattenOne(items[i], fallbackClient, stamp)
    ensures forall x :: x in Flatten(items, fallbackClient, stamp) ==> x.client != "" && x.task != ""
    ensures Flatten(items + more, fallbackClient, stamp) == Flatten(items, fallbackClient, stamp) + Flatten(more, fallbackClient, stamp)
  {
    var f := (o: Option<RawOrder>) => FlattenOne(o, fallbackClient, stamp);
    forall x
      ensures x in Flatten(items, fallbackClient, stamp) <==> exists i :: 0 <= i < |items| && x in FlattenOne(items[i], fallbackClient, stamp)
    {
      Lists.FlatMapMembers(items, f, x);
    }
    forall x | x in Flatten(items, fallbackClient, stamp)
      ensures x.client != "" && x.task != ""
    {
      var i :| 0 <= i < |items| && x in FlattenOne(items[i], fallbackClient, stamp);
      FlattenOneProperties(items[i], fallbackClient, stamp);
    }
    Lists.FlatMapConcat(items, more, f);
  }

  // ---------------------------------------------------------------- who may edit

  /** `EDIT_WINDOW_MS`: one day. */
  const EditWindowMs := 24 * 60 * 60 * 1000

  /** `canOverrideEditLimit`. */
  function CanOverride(isAdmin: bool, canManageTimesheets: bool): bool {
    isAdmin || canManageTimesheets
  }

  /** `canEditEntry`: `entryDate` is the entry's date (`None` when there is
      no entry), `today` and `now` stand for the clock, `createdAt` is the
      entry's creation instant when it can be read, and `dateStart` the
      instant of midnight UTC of its date (`None` when that does not
      parse). */
  function CanEditEntry(entryDate: Option<string>, canOverride: bool, today: string, now: int,
                        createdAt: Option<int>, dateStart: Option<int>): (r: bool)
    ensures r <==> (entryDate.Some? &&
      (canOverride || (entryDate.value != "" && entryDate.value == today)
       || (createdAt.Some? && now - createdAt.value <= EditWindowMs)
       || (createdAt.None? && entryDate.value != "" && dateStart.Some? && now - dateStart.value <= EditWindowMs)))
  {
    if entryDate.None? then false
    else if canOverride then true
    else if entryDate.value != "" && entryDate.value == today then true
    else
      var created := if createdAt.Some? then createdAt else if entryDate.value != "" then dateStart else None;
      if created.None? then false
      else now - created.value <= EditWindowMs
  }

  /** The edit window only closes: what can be edited now could be edited
      at any earlier instant. */
  lemma EditWindowCloses(entryDate: Option<string>, canOverride: bool, today: string, earlier: int, later: int,
                         createdAt: Option<int>, dateStart: Option<int>)
    requires earlier <= later
    requires CanEditEntry(entryDate, canOverride, today, later, createdAt, dateStart)
    ensures CanEditEntry(entryDate, canOverride, today, earlier, createdAt, dateStart)
  {
  }

  /** Without the override, an entry of another day created more than a
      day ago is closed. */
  lemma OldEntryClosed(entryDate: string, today: string, now: int, createdAt: int, dateStart: Option<int>)
    requires entryDate != today && now - createdAt > EditWindowMs
    ensures !CanEditEntry(Some(entryDate), false, today, now, Some(createdAt), dateStart)
  {
  }

  // ---------------------------------------------------------------- the form

  /** The entry form; `id` is "" for a new entry. */
  datatype Form = Form(id: string, date: string, startTime: string, endTime: string,
                       client: string, task: string, workOrder: string, isHoliday: bool)

  /** The fields given to `createEmptyForm` to override. */
  datatype Overrides = Overrides(id: Option<string>, date: Option<string>, startTime: Option<string>,
                                 endTime: Option<string>, client: Option<string>, task: Option<string>,
                                 workOrder: Option<string>, isHoliday: Option<bool>)

  const NoOverrides := Overrides(None, None, None, None, None, None, None, None)

  /** `createEmptyForm(date, overrides)`: blank fields, the given date or
      today, with the overrides applied last. */
  function EmptyForm(date: string, today: string, ov: Overrides): Form {
    Form(ov.id.GetOr(""), ov.date.GetOr(OrElse(date, today)), ov.startTime.GetOr(""), ov.endTime.GetOr(""),
         ov.client.GetOr(""), ov.task.GetOr(""), ov.workOrder.GetOr(""), ov.isHoliday.GetOr(false))
  }

  /** With nothing to override the form is blank and dated. */
  lemma EmptyFormBlank(date: string, today: string)
    ensures var f := EmptyForm(date, today, NoOverrides);
      f.id == "" && f.startTime == "" && f.endTime == "" && f.client == "" && f.task == ""
      && f.workOrder == "" && !f.isHoliday
      && f.date == (if date != "" then date else today)
  {
  }

  /** Every given override wins. */
  lemma EmptyFormOverrides(date: string, today: string, ov: Overrides)
    ensures var f := EmptyForm(date, today, ov);
      (ov.id.Some? ==> f.id == ov.id.value) && (ov.date.Some? ==> f.date == ov.date.value)
      && (ov.startTime.Some? ==> f.startTime == ov.startTime.value) && (ov.endTime.Some? ==> f.endTime == ov.endTime.value)
      && (ov.client.Some? ==> f.client == ov.client.value) && (ov.task.Some? ==> f.task == ov.task.value)
      && (ov.workOrder.Some? ==> f.workOrder == ov.workOrder.value) && (ov.isHoliday.Some? ==> f.isHoliday == ov.isHoliday.value)
  {
  }

  /** The form after a successful save: a new entry's end time becomes the
      next start time; after an update the form is blank. */
  function AfterSave(saved: Form, pageDate: string, today: string): Form {
    var nextStart := if saved.id == "" then saved.endTime else "";
    EmptyForm(pageDate, today, if nextStart != "" then NoOverrides.(startTime := Some(nextStart)) else NoOverrides)
  }

  /** Registering entries one after another chains them: each new form
      starts where the saved one ended, and is otherwise blank. */
  lemma AfterSaveChains(saved: Form, pageDate: string, today: string)
    ensures var f := AfterSave(saved, pageDate, today);
      f.id == "" && f.endTime == "" && f.client == "" && f.task == "" && f.workOrder == "" && !f.isHoliday
      && f.date == OrElse(pageDate, today)
      && f.startTime == (if saved.id == "" then saved.endTime else "")
  {
  }

  // ---------------------------------------------------------------- entries of the day

  /** An entry of the day as listed for a manager. */
  datatype DailyEntry = DailyEntry(id: string, username: string, userId: string, userDisplayName: string)

  /** The entries of one user. */
  datatype DailySection = DailySection(username: string, displayName: string, items: seq<DailyEntry>)

  /** The group of an entry: its username, else its user id, else
      "sin-usuario". */
  function DailyKey(e: DailyEntry): string {
    OrElse(e.username, OrElse(e.userId, "sin-usuario"))
  }

  /** The heading of a new section. */
  function SectionFor(e: DailyEntry): DailySection {
    DailySection(e.username, OrElse(e.userDisplayName, OrElse(e.username, "Usuario")), [])
  }

  /** The grouping `reduce`: the sections by key, and the keys in the order
      they first appear. */
  function Grouped(entries: seq<DailyEntry>): (map<string, DailySection>, seq<string>)
    decreases |entries|
  {
    if |entries| == 0 then (map[], [])
    else
      var (acc, keys) := Grouped(entries[..|entries| - 1]);
      var e := entries[|entries| - 1];
      var key := DailyKey(e);
      var section := if key in acc then acc[key] else SectionFor(e);
      (acc[key := section.(items := section.items + [e])], if key in acc then keys else keys + [key])
  }

  predicate InGroup(e: DailyEntry, key: string) {
    DailyKey(e) == key
  }

  /** The keys are those that occur, each once, and they are the keys of
      the sections. */
  lemma {:induction false} GroupedKeys(entries: seq<DailyEntry>)
    ensures forall k :: k in Grouped(entries).0 <==> k in Grouped(entries).1
    ensures forall k :: k in Grouped(entries).0 <==> exists j :: 0 <= j < |entries| && DailyKey(entries[j]) == k
    ensures Lists.NoRepeats(Grouped(entries).1)
    decreases |entries|
  {
    if |entries| > 0 {
      var init := entries[..|entries| - 1];
      GroupedKeys(init);
      assert forall j :: 0 <= j < |init| ==> init[j] == entries[j];
    }
  }

  /** Appending an entry appends it to its own key's selection only. */
  lemma FilterSnocDaily(init: seq<DailyEntry>, e: DailyEntry, k: string)
    ensures Lists.Filter(init + [e], (x: DailyEntry) => InGroup(x, k))
      == Lists.Filter(init, (x: DailyEntry) => InGroup(x, k)) + (if DailyKey(e) == k then [e] else [])
  {
    Lists.FilterConcat(init, [e], (x: DailyEntry) => InGroup(x, k));
  }

  /** Each section holds the entries of its key, in order. */
  lemma {:induction false} GroupedItems(entries: seq<DailyEntry>)
    ensures forall k :: k in Grouped(entries).0 ==> Grouped(entries).0[k].items == Lists.Filter(entries, (e: DailyEntry) => InGroup(e, k))
    decreases |entries|
  {
    if |entries| > 0 {
      var init := entries[..|entries| - 1];
      var e := entries[|entries| - 1];
      GroupedItems(init);
      GroupedKeys(init);
      assert init + [e] == entries;
      forall k | k in Grouped(entries).0
        ensures Grouped(entries).0[k].items == Lists.Filter(entries, (x: DailyEntry) => InGroup(x, k))
      {
        FilterSnocDaily(init, e, k);
        if k == DailyKey(e) && k !in Grouped(init).0 {
          MembersNoneDaily(init, k);
        }
      }
    }
  }

  /** Both halves of the grouping's specification. */
  lemma GroupedSpec(entries: seq<DailyEntry>)
    ensures forall k :: k in Grouped(entries).0 <==> k in Grouped(entries).1
    ensures forall k :: k in Grouped(entries).0 <==> exists j :: 0 <= j < |entries| && DailyKey(entries[j]) == k
    ensures forall k :: k in Grouped(entries).0 ==> Grouped(entries).0[k].items == Lists.Filter(entries, (e: DailyEntry) => InGroup(e, k))
    ensures Lists.NoRepeats(Grouped(entries).1)
  {
    GroupedKeys(entries);
    GroupedItems(entries);
  }

  /** A key that no entry has selects no entry. */
  lemma {:induction false} MembersNoneDaily(entries: seq<DailyEntry>, key: string)
    requires forall j :: 0 <= j < |entries| ==> DailyKey(entries[j]) != key
    ensures Lists.Filter(entries, (e: DailyEntry) => InGroup(e, key)) == []
  {
    Lists.FilterNone(entries, (e: DailyEntry) => InGroup(e, key));
  }

  predicate SectionLe(a: DailySection, b: DailySection) {
    LexLe(a.displayName, b.displayName)
  }

  lemma SectionLeTotalPreorder()
    ensures TotalPreorder(SectionLe)
  {
    forall a: DailySection, b: DailySection ensures SectionLe(a, b) || SectionLe(b, a) {
      LexLeTotal(a.displayName, b.displayName);
    }
    forall a: DailySection, b: DailySection, c: DailySection | SectionLe(a, b) && SectionLe(b, c)
      ensures SectionLe(a, c)
    {
      LexLeTrans(a.displayName, b.displayName, c.displayName);
    }
  }

  /** The sections in first-appearance order, before sorting. */
  function Unsorted(entries: seq<DailyEntry>): seq<DailySection> {
    var (acc, keys) := Grouped(entries);
    GroupedSpec(entries);
    seq(|keys|, i requires 0 <= i < |keys| => acc[keys[i]])
  }

  /** The sections of the day, sorted by display name. */
  function DailySections(entries: seq<DailyEntry>): seq<DailySection> {
    SortBy(Unsorted(entries), SectionLe)
  }

  /** `renderDailySection`'s grouping as written: `acc` and the key order
      grow entry by entry, then the sections are sorted. */
  method GroupDaily(entries: seq<DailyEntry>) returns (sections: seq<DailySection>)
    ensures sections == DailySections(entries)
  {
    var acc: map<string, DailySection> := map[];
    var keys: seq<string> := [];
    for i := 0 to |entries|
      invariant (acc, keys) == Grouped(entries[..i])
    {
      assert entries[..i + 1][..i] == entries[..i];
      var e := entries[i];
      var key := DailyKey(e);
      var section := if key in acc then acc[key] else SectionFor(e);
      if key !in acc {
        keys := keys + [key];
      }
      acc := acc[key := section.(items := section.items + [e])];
    }
    assert entries[..|entries|] == entries;
    GroupedSpec(entries);
    var values := seq(|keys|, i requires 0 <= i < |keys| => acc[keys[i]]);
    sections := SortBy(values, SectionLe);
  }

  /** Before sorting: section `i` holds the entries of key `i`, and every
      entry's key has its section. */
  lemma UnsortedSections(entries: seq<DailyEntry>)
    ensures |Unsorted(entries)| == |Grouped(entries).1|
    ensures forall i :: 0 <= i < |Unsorted(entries)| ==>
      Unsorted(entries)[i].items == Lists.Filter(entries, (e: DailyEntry) => InGroup(e, Grouped(entries).1[i]))
    ensures forall j :: 0 <= j < |entries| ==>
      exists i :: 0 <= i < |Unsorted(entries)| && Grouped(entries).1[i] == DailyKey(entries[j])
  {
    GroupedSpec(entries);
    var (acc, keys) := Grouped(entries);
    forall j | 0 <= j < |entries|
      ensures exists i :: 0 <= i < |keys| && keys[i] == DailyKey(entries[j])
    {
      assert DailyKey(entries[j]) in acc;
    }
  }

  /** The sections are sorted by display name, there is one per user key
      that occurs, and each holds exactly that key's entries in order. */
  lemma DailySectionsProperties(entries: seq<DailyEntry>)
    ensures SortedBy(DailySections(entries), SectionLe)
    ensures |DailySections(entries)| == |Grouped(entries).1|
    ensures forall s :: s in DailySections(entries) ==>
      exists k :: k in Grouped(entries).1 && s.items == Lists.Filter(entries, (e: DailyEntry) => InGroup(e, k))
    ensures forall j :: 0 <= j < |entries| ==>
      exists s :: s in DailySections(entries) && s.items == Lists.Filter(entries, (e: DailyEntry) => InGroup(e, DailyKey(entries[j])))
  {
    SectionLeTotalPreorder();
    var u := Unsorted(entries);
    var keys := Grouped(entries).1;
    SortBySorted(u, SectionLe);
    UnsortedSections(entries);
    forall s | s in DailySections(entries)
      ensures exists k :: k in keys && s.items == Lists.Filter(entries, (e: DailyEntry) => InGroup(e, k))
    {
      assert s in multiset(u);
      var i :| 0 <= i < |u| && u[i] == s;
      assert keys[i] in keys;
    }
    forall j | 0 <= j < |entries|
      ensures exists s :: s in DailySections(entries) && s.items == Lists.Filter(entries, (e: DailyEntry) => InGroup(e, DailyKey(entries[j])))
    {
      var i :| 0 <= i < |u| && keys[i] == DailyKey(entries[j]);
      assert u[i] in multiset(DailySections(entries));
    }
  }
}

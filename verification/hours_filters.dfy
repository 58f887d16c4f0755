/** What the two hours reports of the client share: the query string built
    from the filter form, the lookup of work orders by client that feeds the
    filter's drop-downs, and the removal of a deleted entry from the list on
    screen. */
module HoursFilters {
  import opened Common
  import opened Strings
  import opened Sorting
  import Lists
  import ManageWorkOrders
  // ---------------------------------------------------------------- query strings

  /** The filter form; `dayType` is "", "true", "false" or "night". */
  datatype Filters = Filters(
    from: string, to: string, client: string, task: string, workOrder: string,
    user: string, q: string, dayType: string)

  /** Query parameters in the order they are appended (their URL encoding
      is left out). */
  type Params = seq<(string, string)>

  /** The parameters for the text fields, given as (name, value) pairs in
      the order they are tested: one per non-empty value. */
  function TextParams(fields: Params): (r: Params)
    ensures forall p :: p in r ==> p in fields && p.1 != ""
  {
    if |fields| == 0 then []
    else (if fields[0].1 != "" then [fields[0]] else []) + TextParams(fields[1..])
  }

  /** The day-type parameter: "true" and "false" go as `isHoliday`, "night"
      as `nightOnly=true`, anything else adds nothing. */
  function DayParams(dayType: string): Params {
    if dayType == "true" then [("isHoliday", "true")]
    else if dayType == "false" then [("isHoliday", "false")]
    else if dayType == "night" then [("nightOnly", "true")]
    else []
  }

  /** The value of the first parameter named `key`. */
  function Find(params: Params, key: string): (r: Option<string>)
    ensures r.Some? <==> exists p :: p in params && p.0 == key
    ensures r.Some? ==> (key, r.value) in params
  {
    if |params| == 0 then None
    else if params[0].0 == key then Some(params[0].1)
    else Find(params[1..], key)
  }

  lemma {:induction false} FindConcat(a: Params, b: Params, key: string)
    ensures Find(a + b, key) == if Find(a, key).Some? then Find(a, key) else Find(b, key)
  {
    if |a| > 0 {
      assert (a + b)[1..] == a[1..] + b;
      FindConcat(a[1..], b, key);
    } else {
      assert a + b == b;
    }
  }

  predicate DistinctNames(fields: Params) {
    forall i, j :: 0 <= i < j < |fields| ==> fields[i].0 != fields[j].0
  }

  /** With distinct names, each name carries its value exactly when the
      value is not empty; no other name appears. */
  lemma {:induction false} TextParamsFind(fields: Params, key: string)
    requires DistinctNames(fields)
    ensures (forall i :: 0 <= i < |fields| ==> fields[i].0 != key) ==> Find(TextParams(fields), key) == None
    ensures forall i :: 0 <= i < |fields| && fields[i].0 == key ==>
      Find(TextParams(fields), key) == if fields[i].1 != "" then Some(fields[i].1) else None
  {
    if |fields| > 0 {
      var rest := fields[1..];
      assert DistinctNames(rest) by {
        forall i, j | 0 <= i < j < |rest| ensures rest[i].0 != rest[j].0 {
          assert rest[i] == fields[i + 1] && rest[j] == fields[j + 1];
        }
      }
      TextParamsFind(rest, key);
      FindConcat(if fields[0].1 != "" then [fields[0]] else [], TextParams(rest), key);
      if forall i :: 0 <= i < |fields| ==> fields[i].0 != key {
        assert forall i :: 0 <= i < |rest| ==> rest[i].0 != key by {
          forall i | 0 <= i < |rest| ensures rest[i].0 != key {
            assert rest[i] == fields[i + 1];
          }
        }
      }
      forall i | 0 <= i < |fields| && fields[i].0 == key
        ensures Find(TextParams(fields), key) == if fields[i].1 != "" then Some(fields[i].1) else None
      {
        if i > 0 {
          assert rest[i - 1] == fields[i];
          assert fields[0].0 != key;
        }
      }
    }
  }

  /** How often a parameter is sent depends only on how often the field is
      given, not on where. */
  lemma {:induction false} TextParamsCount(fields: Params)
    ensures forall x :: multiset(TextParams(fields))[x] == if x.1 != "" then multiset(fields)[x] else 0
  {
    if |fields| > 0 {
      TextParamsCount(fields[1..]);
      assert fields == [fields[0]] + fields[1..];
    }
  }

  function DateFields(f: Filters): Params {
    [("from", f.from), ("to", f.to)]
  }

  function WorkFields(f: Filters): Params {
    [("client", f.client), ("task", f.task), ("workOrder", f.workOrder)]
  }

  /** The fields of the inventory page in their order. */
  function InventoryFields(f: Filters): Params {
    DateFields(f) + WorkFields(f) + [("user", f.user), ("q", f.q)]
  }

  /** `buildQueryString(filters)` of the inventory page. */
  function InventoryQuery(f: Filters): Params {
    TextParams(InventoryFields(f)) + DayParams(f.dayType)
  }

  /** The fields of the summary page in their order: `user` comes third. */
  function SummaryFields(f: Filters): Params {
    DateFields(f) + [("user", f.user)] + WorkFields(f) + [("q", f.q)]
  }

  /** `buildQuery(filters)` of the summary page. */
  function SummaryQuery(f: Filters): Params {
    TextParams(SummaryFields(f)) + DayParams(f.dayType)
  }

  lemma InventoryNamesDistinct(f: Filters)
    ensures DistinctNames(InventoryFields(f))
    ensures forall i :: 0 <= i < 7 ==> InventoryFields(f)[i].0 != "isHoliday" && InventoryFields(f)[i].0 != "nightOnly"
  {
    var k := InventoryFields(f);
    assert k[0].0[0] == 'f' && k[1].0[0] == 't' && k[2].0[0] == 'c' && k[3].0[0] == 't' && k[4].0[0] == 'w' && k[5].0[0] == 'u' && k[6].0[0] == 'q';
    assert |k[1].0| == 2 && |k[3].0| == 4;
    assert "isHoliday"[0] == 'i' && "nightOnly"[0] == 'n';
  }

  /** Every text filter is sent exactly when it is not empty, with its
      value; the day type gives `isHoliday` for "true"/"false" and
      `nightOnly=true` for "night", so the two are never both sent. */
  lemma InventoryQueryProperties(f: Filters)
    ensures forall i :: 0 <= i < 7 ==>
      var (name, value) := InventoryFields(f)[i];
      Find(InventoryQuery(f), name) == if value != "" then Some(value) else None
    ensures Find(InventoryQuery(f), "isHoliday") ==
      (if f.dayType == "true" || f.dayType == "false" then Some(f.dayType) else None)
    ensures Find(InventoryQuery(f), "nightOnly") == (if f.dayType == "night" then Some("true") else None)
    ensures !(Find(InventoryQuery(f), "isHoliday").Some? && Find(InventoryQuery(f), "nightOnly").Some?)
  {
    var fields := InventoryFields(f);
    InventoryNamesDistinct(f);
    forall i | 0 <= i < 7
      ensures Find(InventoryQuery(f), fields[i].0) == if fields[i].1 != "" then Some(fields[i].1) else None
    {
      TextParamsFind(fields, fields[i].0);
      FindConcat(TextParams(fields), DayParams(f.dayType), fields[i].0);
    }
    TextParamsFind(fields, "isHoliday");
    TextParamsFind(fields, "nightOnly");
    FindConcat(TextParams(fields), DayParams(f.dayType), "isHoliday");
    FindConcat(TextParams(fields), DayParams(f.dayType), "nightOnly");
    assert "isHoliday" != "nightOnly";
  }

  /** Reordering the fields reorders the parameters. */
  lemma TextParamsPermuted(a: Params, b: Params)
    requires multiset(a) == multiset(b)
    ensures multiset(TextParams(a)) == multiset(TextParams(b))
  {
    TextParamsCount(a);
    TextParamsCount(b);
    assert forall x :: multiset(TextParams(a))[x] == multiset(TextParams(b))[x];
  }

  lemma FieldsPermuted(f: Filters)
    ensures multiset(SummaryFields(f)) == multiset(InventoryFields(f))
  {
    assert [("user", f.user), ("q", f.q)] == [("user", f.user)] + [("q", f.q)];
  }

  /** The summary page sends the same parameters as the inventory page,
      only in another order. */
  lemma SummaryMatchesInventory(f: Filters)
    ensures multiset(SummaryQuery(f)) == multiset(InventoryQuery(f))
  {
    FieldsPermuted(f);
    TextParamsPermuted(SummaryFields(f), InventoryFields(f));
  }

  // ---------------------------------------------------------------- work orders by client

  /** A work order as the server lists it for the filters; absent text
      fields are "" and a `tasks` value that is not a list is []. */
  datatype Entry = Entry(id: string, client: string, name: string, code: string, tasks: seq<Option<ManageWorkOrders.RawTask>>)

  /** A work order of the drop-down. */
  datatype LookupOrder = LookupOrder(id: string, name: string, code: string, tasks: seq<ManageWorkOrders.Task>)

  /** The orders of one client, under the client's first-seen spelling. */
  datatype ClientGroup = ClientGroup(client: string, orders: seq<LookupOrder>)

  /** `normalizeClientKey`. */
  function ClientKey(s: string): string {
    Lower(Trim(s))
  }

  /** An entry the lookup keeps: present, with a client and a name after
      trimming. */
  predicate Kept(e: Option<Entry>) {
    e.Some? && Trim(e.value.client) != "" && Trim(e.value.name) != ""
  }

  function KeyOf(e: Entry): string {
    ClientKey(Trim(e.client))
  }

  /** The order id: the entry's own, else "key-name". */
  function OrderId(e: Entry): string {
    if e.id != "" then e.id else KeyOf(e) + "-" + Trim(e.name)
  }

  /** One task of an entry: dropped without a label; the id defaults to
      "orderId-label". */
  function LookupTaskOf(e: Entry, t: Option<ManageWorkOrders.RawTask>): (r: Option<ManageWorkOrders.Task>)
    ensures r.Some? ==> ManageWorkOrders.Clean(r.value.caption)
  {
    if t.None? then None
    else
      var caption := Trim(OrElse(t.value.caption, OrElse(t.value.name, t.value.task)));
      TrimIdempotent(OrElse(t.value.caption, OrElse(t.value.name, t.value.task)));
      if caption == "" then None
      else Some(ManageWorkOrders.Task(if t.value.id != "" then t.value.id else OrderId(e) + "-" + caption, caption))
  }

  function LookupOrderOf(e: Entry): LookupOrder {
    LookupOrder(OrderId(e), Trim(e.name), e.code, SortBy(LookupTasks(e), ManageWorkOrders.TaskLe))
  }

  /** The order's tasks before sorting: the labelled ones, in list order. */
  function LookupTasks(e: Entry): seq<ManageWorkOrders.Task> {
    Lists.FilterMap(e.tasks, (_: nat, t: Option<ManageWorkOrders.RawTask>) => LookupTaskOf(e, t))
  }

  lemma LookupTasksClean(e: Entry)
    ensures forall t :: t in LookupTasks(e) ==> ManageWorkOrders.Clean(t.caption)
  {
    var f := (_: nat, t: Option<ManageWorkOrders.RawTask>) => LookupTaskOf(e, t);
    var mapped := Lists.FilterMap(e.tasks, f);
    Lists.FilterMapSources(e.tasks, f, 0);
    forall t | t in mapped
      ensures ManageWorkOrders.Clean(t.caption)
    {
      var k :| 0 <= k < |mapped| && mapped[k] == t;
      var j :| 0 <= j < |e.tasks| && f(j, e.tasks[j]) == Some(t);
    }
  }

  /** The tasks of an order are sorted by label and all have a trimmed,
      non-empty label. */
  lemma LookupOrderTasks(e: Entry)
    ensures SortedBy(LookupOrderOf(e).tasks, ManageWorkOrders.TaskLe)
    ensures forall t :: t in LookupOrderOf(e).tasks ==> ManageWorkOrders.Clean(t.caption)
  {
    var mapped := LookupTasks(e);
    ManageWorkOrders.TaskLeTotalPreorder();
    SortBySorted(mapped, ManageWorkOrders.TaskLe);
    LookupTasksClean(e);
    forall t | t in LookupOrderOf(e).tasks
      ensures ManageWorkOrders.Clean(t.caption)
    {
      assert t in multiset(SortBy(mapped, ManageWorkOrders.TaskLe));
    }
  }

  /** The entry is kept and belongs to client `key`. */
  predicate Selects(o: Option<Entry>, key: string) {
    Kept(o) && KeyOf(o.value) == key
  }

  /** The orders of the kept entries of client `key`, in list order. */
  function OrdersFor(items: seq<Option<Entry>>, key: string): seq<LookupOrder>
    decreases |items|
  {
    if |items| == 0 then []
    else
      var last := items[|items| - 1];
      OrdersFor(items[..|items| - 1], key) + (if Selects(last, key) then [LookupOrderOf(last.value)] else [])
  }

  /** A client has orders exactly when one of its entries is kept. */
  lemma OrdersForEmpty(items: seq<Option<Entry>>, key: string)
    ensures OrdersFor(items, key) == [] <==> forall j :: 0 <= j < |items| ==> !Selects(items[j], key)
  {
    if forall j :: 0 <= j < |items| ==> !Selects(items[j], key) {
      OrdersForNone(items, key);
    } else {
      var j :| 0 <= j < |items| && Selects(items[j], key);
      OrdersForSome(items, key, j);
    }
  }

  lemma {:induction false} OrdersForNone(items: seq<Option<Entry>>, key: string)
    requires forall j :: 0 <= j < |items| ==> !Selects(items[j], key)
    ensures OrdersFor(items, key) == []
    decreases |items|
  {
    if |items| > 0 {
      var init := items[..|items| - 1];
      assert forall j :: 0 <= j < |init| ==> init[j] == items[j];
      OrdersForNone(init, key);
    }
  }

  lemma {:induction false} OrdersForSome(items: seq<Option<Entry>>, key: string, j: nat)
    requires j < |items| && Selects(items[j], key)
    ensures OrdersFor(items, key) != []
    decreases |items|
  {
    var init := items[..|items| - 1];
    if j < |init| {
      assert init[j] == items[j];
      OrdersForSome(init, key, j);
    }
  }

  /** The trimmed client of the first kept entry of client `key`. */
  function FirstClient(items: seq<Option<Entry>>, key: string): string
    decreases |items|
  {
    if |items| == 0 then ""
    else
      var init := items[..|items| - 1];
      var last := items[|items| - 1];
      if OrdersFor(init, key) != [] then FirstClient(init, key)
      else if Selects(last, key) then Trim(last.value.client)
      else ""
  }

  /** The `reduce` of `buildWorkOrderLookup`, before the orders are sorted. */
  function Collect(items: seq<Option<Entry>>): map<string, ClientGroup>
    decreases |items|
  {
    if |items| == 0 then map[]
    else
      var acc := Collect(items[..|items| - 1]);
      var e := items[|items| - 1];
      if !Kept(e) then acc
      else
        var key := KeyOf(e.value);
        var group := if key in acc then acc[key] else ClientGroup(Trim(e.value.client), []);
        acc[key := ClientGroup(group.client, group.orders + [LookupOrderOf(e.value)])]
  }

  /** A client is in the lookup exactly when it has an order, and holds
      its first spelling and its orders in list order. */
  lemma {:induction false} CollectSpec(items: seq<Option<Entry>>)
    ensures forall k :: k in Collect(items) <==> OrdersFor(items, k) != []
    ensures forall k :: k in Collect(items) ==> Collect(items)[k] == ClientGroup(FirstClient(items, k), OrdersFor(items, k))
    decreases |items|
  {
    if |items| > 0 {
      CollectSpec(items[..|items| - 1]);
    }
  }

  /** The first kept entry of a client gives its spelling. */
  lemma {:induction false} FirstClientAt(items: seq<Option<Entry>>, key: string, i: nat)
    requires i < |items| && Selects(items[i], key)
    requires forall j :: 0 <= j < i ==> !Selects(items[j], key)
    ensures FirstClient(items, key) == Trim(items[i].value.client)
    decreases |items|
  {
    var init := items[..|items| - 1];
    OrdersForEmpty(init, key);
    if i < |items| - 1 {
      FirstClientAt(init, key, i);
      assert init[i] == items[i];
    } else {
      assert forall j :: 0 <= j < |init| ==> init[j] == items[j];
    }
  }

  predicate OrderNameLe(a: LookupOrder, b: LookupOrder) {
    LexLe(a.name, b.name)
  }

  lemma OrderNameLeTotalPreorder()
    ensures TotalPreorder(OrderNameLe)
  {
    forall a: LookupOrder, b: LookupOrder ensures OrderNameLe(a, b) || OrderNameLe(b, a) {
      LexLeTotal(a.name, b.name);
    }
    forall a: LookupOrder, b: LookupOrder, c: LookupOrder | OrderNameLe(a, b) && OrderNameLe(b, c)
      ensures OrderNameLe(a, c)
    {
      LexLeTrans(a.name, b.name, c.name);
    }
  }

  /** `buildWorkOrderLookup(items)`: the groups with their orders sorted by
      name. */
  function BuildLookup(items: seq<Option<Entry>>): map<string, ClientGroup> {
    var acc := Collect(items);
    map k | k in acc :: ClientGroup(acc[k].client, SortBy(acc[k].orders, OrderNameLe))
  }

  /** `buildWorkOrderLookup` as written: the `reduce` over the entries,
      then each group's orders sorted in place. */
  method BuildWorkOrderLookup(items: seq<Option<Entry>>) returns (lookup: map<string, ClientGroup>)
    ensures lookup == BuildLookup(items)
  {
    var acc: map<string, ClientGroup> := map[];
    for i := 0 to |items|
      invariant acc == Collect(items[..i])
    {
      assert items[..i + 1][..i] == items[..i];
      var e := items[i];
      if Kept(e) {
        var key := KeyOf(e.value);
        var group := if key in acc then acc[key] else ClientGroup(Trim(e.value.client), []);
        acc := acc[key := ClientGroup(group.client, group.orders + [LookupOrderOf(e.value)])];
      }
    }
    assert items[..|items|] == items;
    lookup := map k | k in acc :: ClientGroup(acc[k].client, SortBy(acc[k].orders, OrderNameLe));
  }

  /** A client key is present exactly when some kept entry has it; its
      group carries the spelling of the first such entry and exactly the
      orders of its entries, sorted by name. */
  lemma LookupProperties(items: seq<Option<Entry>>, key: string)
    ensures key in BuildLookup(items) <==> exists j :: 0 <= j < |items| && Selects(items[j], key)
    ensures key in BuildLookup(items) ==>
      var g := BuildLookup(items)[key];
      g.client == FirstClient(items, key)
      && SortedBy(g.orders, OrderNameLe)
      && multiset(g.orders) == multiset(OrdersFor(items, key))
  {
    CollectSpec(items);
    OrdersForEmpty(items, key);
    OrderNameLeTotalPreorder();
    if key in Collect(items) {
      SortBySorted(Collect(items)[key].orders, OrderNameLe);
    }
  }

  // ---------------------------------------------------------------- removing a deleted entry

  /** The list after a successful delete: every entry with that id goes and
      the rest keep their order. */
  function RemoveEntry<T(!new)>(entries: seq<T>, idOf: T -> string, id: string): (r: seq<T>)
    ensures forall e :: e in r <==> e in entries && idOf(e) != id
  {
    Lists.Filter(entries, (e: T) => idOf(e) != id)
  }

  /** Removing an id that is not listed changes nothing. */
  lemma RemoveAbsent<T(!new)>(entries: seq<T>, idOf: T -> string, id: string)
    requires forall e :: e in entries ==> idOf(e) != id
    ensures RemoveEntry(entries, idOf, id) == entries
  {
    Lists.FilterAll(entries, (e: T) => idOf(e) != id);
  }
}

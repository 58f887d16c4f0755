/** The page where managers keep the work orders of a client and their task
    lists: the clean-up of what the server sends, the search box, the task
    list being edited and the guard of the save button. */
module ManageWorkOrders {
  import opened Common
  import opened Strings
  import opened Sorting
  import Lists

  // ---------------------------------------------------------------- cleaning what the server sends

  /** A task as received; absent text fields are "". */
  datatype RawTask = RawTask(id: string, caption: string, name: string, task: string)

  /** A task of the page; `caption` is its label. */
  datatype Task = Task(id: string, caption: string)

  /** A work order as received; `tasks` is [] when absent. */
  datatype RawOrder = RawOrder(id: string, name: string, code: string, client: string, tasks: seq<Option<RawTask>>, task: string)

  /** A work order of the page. */
  datatype Order = Order(id: string, name: string, code: string, client: string, tasks: seq<Task>)

  /** A trimmed, non-empty text. */
  predicate Clean(s: string) {
    s != "" && Trim(s) == s
  }

  /** The mapping step of `sanitizeTasks` for the task at position `i`
      (`null` tasks are `None`). The label is the trimmed first non-empty of
      label, name and task; a task without an id gets the temporary id
      `tempId(i)`, which the page draws at random. */
  function TaskOf(tempId: nat -> string, i: nat, t: Option<RawTask>): (r: Option<Task>)
    ensures r.Some? <==> t.Some? && Trim(OrElse(t.value.caption, OrElse(t.value.name, t.value.task))) != ""
    ensures r.Some? ==> Clean(r.value.caption)
    ensures r.Some? ==> r.value.caption == Trim(OrElse(t.value.caption, OrElse(t.value.name, t.value.task)))
    ensures r.Some? && t.value.id != "" ==> r.value.id == t.value.id
    ensures r.Some? && t.value.id == "" ==> r.value.id == tempId(i)
  {
    if t.None? then None
    else
      var caption := Trim(OrElse(t.value.caption, OrElse(t.value.name, t.value.task)));
      TrimIdempotent(OrElse(t.value.caption, OrElse(t.value.name, t.value.task)));
      if caption == "" then None
      else Some(Task(if t.value.id != "" then t.value.id else tempId(i), caption))
  }

  predicate TaskLe(a: Task, b: Task) {
    LexLe(a.caption, b.caption)
  }

  lemma TaskLeTotalPreorder()
    ensures TotalPreorder(TaskLe)
  {
    forall a: Task, b: Task ensures TaskLe(a, b) || TaskLe(b, a) {
      LexLeTotal(a.caption, b.caption);
    }
    forall a: Task, b: Task, c: Task | TaskLe(a, b) && TaskLe(b, c)
      ensures TaskLe(a, c)
    {
      LexLeTrans(a.caption, b.caption, c.caption);
    }
  }

  /** `sanitizeTasks(tasks)`. */
  function SanitizeTasks(tempId: nat -> string, tasks: seq<Option<RawTask>>): seq<Task> {
    SortBy(Lists.FilterMap(tasks, (i: nat, t: Option<RawTask>) => TaskOf(tempId, i, t)), TaskLe)
  }

  /** The clean tasks are sorted by label and are exactly the tasks that
      have a label, each as often as it is given. */
  lemma SanitizeTasksSorted(tempId: nat -> string, tasks: seq<Option<RawTask>>)
    ensures SortedBy(SanitizeTasks(tempId, tasks), TaskLe)
    ensures multiset(SanitizeTasks(tempId, tasks)) == multiset(Lists.FilterMap(tasks, (i: nat, t: Option<RawTask>) => TaskOf(tempId, i, t)))
  {
    TaskLeTotalPreorder();
    SortBySorted(Lists.FilterMap(tasks, (i: nat, t: Option<RawTask>) => TaskOf(tempId, i, t)), TaskLe);
  }

  /** Every task kept before sorting has a trimmed non-empty label. */
  lemma KeptTasksClean(tempId: nat -> string, tasks: seq<Option<RawTask>>)
    ensures forall t :: t in Lists.FilterMap(tasks, (i: nat, t: Option<RawTask>) => TaskOf(tempId, i, t)) ==> Clean(t.caption)
  {
    var f := (i: nat, t: Option<RawTask>) => TaskOf(tempId, i, t);
    var mapped := Lists.FilterMap(tasks, f);
    Lists.FilterMapSources(tasks, f, 0);
    forall k | 0 <= k < |mapped| ensures Clean(mapped[k].caption) {
      var j :| 0 <= j < |tasks| && f(j, tasks[j]) == Some(mapped[k]);
    }
  }

  /** Every clean task has a trimmed non-empty label. */
  lemma SanitizeTasksClean(tempId: nat -> string, tasks: seq<Option<RawTask>>)
    ensures forall t :: t in SanitizeTasks(tempId, tasks) ==> Clean(t.caption)
  {
    var mapped := Lists.FilterMap(tasks, (i: nat, t: Option<RawTask>) => TaskOf(tempId, i, t));
    KeptTasksClean(tempId, tasks);
    forall t | t in SanitizeTasks(tempId, tasks)
      ensures Clean(t.caption)
    {
      assert t in multiset(mapped);
    }
  }

  /** The tasks of a work order: its task list when non-empty, otherwise
      its legacy single `task`, otherwise none. */
  function TasksOf(tempId: nat -> string, item: RawOrder): seq<Task> {
    if |item.tasks| > 0 then SanitizeTasks(tempId, item.tasks)
    else if item.task != "" then SanitizeTasks(tempId, [Some(RawTask("", item.task, "", ""))])
    else []
  }

  /** The mapping step of `sanitizeWorkOrders`: `null` items and items
      without a trimmed name are dropped; the client defaults to the one
      asked for and the id to "client-name". */
  function OrderOf(tempId: nat -> string, client: string, item: Option<RawOrder>): (r: Option<Order>)
    ensures r.Some? <==> item.Some? && Trim(item.value.name) != ""
    ensures r.Some? ==> Clean(r.value.name) && r.value.code == Trim(r.value.code)
    ensures r.Some? ==> (r.value.name == Trim(item.value.name) && r.value.code == Trim(item.value.code)
      && r.value.client == OrElse(item.value.client, client) && r.value.tasks == TasksOf(tempId, item.value))
    ensures r.Some? && item.value.id != "" ==> r.value.id == item.value.id
    ensures r.Some? && item.value.id == "" ==> r.value.id == Trim(OrElse(item.value.client, client)) + "-" + Trim(item.value.name)
  {
    if item.None? then None
    else
      var name := Trim(item.value.name);
      TrimIdempotent(item.value.name);
      TrimIdempotent(item.value.code);
      if name == "" then None
      else
        var clientName := OrElse(item.value.client, client);
        Some(Order(
          if item.value.id != "" then item.value.id else Trim(clientName) + "-" + name,
          name, Trim(item.value.code), clientName, TasksOf(tempId, item.value)))
  }

  predicate OrderLe(a: Order, b: Order) {
    LexLe(a.name, b.name)
  }

  lemma OrderLeTotalPreorder()
    ensures TotalPreorder(OrderLe)
  {
    forall a: Order, b: Order ensures OrderLe(a, b) || OrderLe(b, a) {
      LexLeTotal(a.name, b.name);
    }
    forall a: Order, b: Order, c: Order | OrderLe(a, b) && OrderLe(b, c)
      ensures OrderLe(a, c)
    {
      LexLeTrans(a.name, b.name, c.name);
    }
  }

  /** `sanitizeWorkOrders(items, client)`. */
  function SanitizeWorkOrders(tempId: nat -> string, items: seq<Option<RawOrder>>, client: string): seq<Order> {
    SortBy(Lists.FilterMap(items, (_: nat, item: Option<RawOrder>) => OrderOf(tempId, client, item)), OrderLe)
  }

  /** The clean orders are sorted by name and are exactly the orders that
      have a name, each as often as it is given. */
  lemma SanitizeWorkOrdersSorted(tempId: nat -> string, items: seq<Option<RawOrder>>, client: string)
    ensures SortedBy(SanitizeWorkOrders(tempId, items, client), OrderLe)
    ensures multiset(SanitizeWorkOrders(tempId, items, client))
      == multiset(Lists.FilterMap(items, (_: nat, item: Option<RawOrder>) => OrderOf(tempId, client, item)))
  {
    OrderLeTotalPreorder();
    SortBySorted(Lists.FilterMap(items, (_: nat, item: Option<RawOrder>) => OrderOf(tempId, client, item)), OrderLe);
  }

  /** Every clean order has a trimmed non-empty name and a trimmed code. */
  lemma SanitizeWorkOrdersClean(tempId: nat -> string, items: seq<Option<RawOrder>>, client: string)
    ensures forall o :: o in SanitizeWorkOrders(tempId, items, client) ==> Clean(o.name) && o.code == Trim(o.code)
  {
    var f := (_: nat, item: Option<RawOrder>) => OrderOf(tempId, client, item);
    var mapped := Lists.FilterMap(items, f);
    Lists.FilterMapSources(items, f, 0);
    forall o | o in SanitizeWorkOrders(tempId, items, client)
      ensures Clean(o.name) && o.code == Trim(o.code)
    {
      assert o in multiset(mapped);
      var k :| 0 <= k < |mapped| && mapped[k] == o;
      var j :| 0 <= j < |items| && f(j, items[j]) == Some(o);
    }
  }

  /** An order with a list of tasks keeps its clean tasks; one with only the
      legacy `task` gets that one task when it is not blank. */
  lemma LegacyTask(tempId: nat -> string, item: RawOrder)
    requires |item.tasks| == 0 && Trim(item.task) != ""
    ensures TasksOf(tempId, item) == [Task(tempId(0), Trim(item.task))]
  {
    var f := (i: nat, t: Option<RawTask>) => TaskOf(tempId, i, t);
    var single := [Some(RawTask("", item.task, "", ""))];
    assert OrElse("", item.task) == item.task;
    assert Lists.FilterMap(single, f) == [Task(tempId(0), Trim(item.task))] by {
      assert Lists.FilterMapFrom(single, f, 1) == [];
    }
  }

  // ---------------------------------------------------------------- the search box

  /** `filteredWorkOrders`: all orders for a blank term, otherwise those
      whose name or code contains the term, ignoring case. */
  function Filtered(orders: seq<Order>, search: string): seq<Order> {
    var term := Lower(Trim(search));
    if term == "" then orders
    else Lists.Filter(orders, (o: Order) => Contains(Lower(o.name), term) || Contains(Lower(o.code), term))
  }

  /** A blank search shows everything; otherwise exactly the orders whose
      name or code contains the lower-cased term, in their order. */
  lemma FilteredProperties(orders: seq<Order>, search: string)
    ensures Trim(search) == "" ==> Filtered(orders, search) == orders
    ensures Trim(search) != "" ==>
      forall o :: o in Filtered(orders, search) <==>
        o in orders && (Contains(Lower(o.name), Lower(Trim(search))) || Contains(Lower(o.code), Lower(Trim(search))))
  {
  }

  /** The case of the search term does not matter. */
  lemma FilteredIgnoresCase(orders: seq<Order>, search: string)
    ensures Filtered(orders, Lower(search)) == Filtered(orders, search)
  {
    TrimLowerCommute(search);
    LowerIdempotent(Trim(search));
  }

  // ---------------------------------------------------------------- the task list being edited

  /** `editingTaskId` used as a condition: `null` and "" are false. */
  predicate Editing(editing: Option<string>) {
    editing.Some? && editing.value != ""
  }

  /** The task list after `handleAddTask`: a blank draft changes nothing;
      while a task is being edited every task with that id takes the
      trimmed draft as label; otherwise a task with the new id is
      appended. */
  function AddTask(tasks: seq<Task>, draft: string, editing: Option<string>, freshId: string): seq<Task> {
    var caption := Trim(draft);
    if caption == "" then tasks
    else if Editing(editing) then
      seq(|tasks|, k requires 0 <= k < |tasks| => if tasks[k].id == editing.value then Task(tasks[k].id, caption) else tasks[k])
    else tasks + [Task(freshId, caption)]
  }

  function Ids(tasks: seq<Task>): seq<string> {
    seq(|tasks|, k requires 0 <= k < |tasks| => tasks[k].id)
  }

  /** Editing keeps the length and every id and changes only the labels of
      the edited task; adding appends exactly one task. */
  lemma AddTaskProperties(tasks: seq<Task>, draft: string, editing: Option<string>, freshId: string)
    ensures var r := AddTask(tasks, draft, editing, freshId);
      (Trim(draft) == "" ==> r == tasks)
      && (Trim(draft) != "" && Editing(editing) ==>
            Ids(r) == Ids(tasks)
            && forall k :: 0 <= k < |r| ==> r[k].caption == (if tasks[k].id == editing.value then Trim(draft) else tasks[k].caption))
      && (Trim(draft) != "" && !Editing(editing) ==> |r| == |tasks| + 1 && r[..|tasks|] == tasks && r[|tasks|] == Task(freshId, Trim(draft)))
  {
  }

  /** Editing a task that is no longer in the list changes nothing. */
  lemma EditMissingTask(tasks: seq<Task>, draft: string, id: string, freshId: string)
    requires id != "" && id !in Ids(tasks)
    ensures AddTask(tasks, draft, Some(id), freshId) == tasks
  {
    if Trim(draft) != "" {
      forall k | 0 <= k < |tasks| ensures tasks[k].id != id {
        assert Ids(tasks)[k] == tasks[k].id;
      }
    }
  }

  /** `handleDeleteTask(id)`: every task with that id goes. */
  function DeleteTask(tasks: seq<Task>, id: string): (r: seq<Task>)
    ensures id !in Ids(r)
    ensures forall t :: t in r <==> t in tasks && t.id != id
  {
    var r := Lists.Filter(tasks, (t: Task) => t.id != id);
    assert forall k :: 0 <= k < |r| ==> Ids(r)[k] != id;
    r
  }

  /** Adding a task with a fresh id and deleting it again gives the list
      back. */
  lemma AddThenDelete(tasks: seq<Task>, draft: string, freshId: string)
    requires Trim(draft) != "" && freshId !in Ids(tasks)
    ensures DeleteTask(AddTask(tasks, draft, None, freshId), freshId) == tasks
  {
    var p := (t: Task) => t.id != freshId;
    forall k | 0 <= k < |tasks| ensures p(tasks[k]) {
      assert Ids(tasks)[k] == tasks[k].id;
    }
    Lists.FilterAll(tasks, p);
    Lists.FilterConcat(tasks, [Task(freshId, Trim(draft))], p);
    assert Lists.Filter([Task(freshId, Trim(draft))], p) == [];
  }

  /** The task list, the draft and the task being edited. */
  class TaskEditor {
    var tasks: seq<Task>
    var draft: string
    var editing: Option<string>

    constructor()
      ensures tasks == [] && draft == "" && editing == None
    {
      tasks := [];
      draft := "";
      editing := None;
    }

    /** `handleSelectOt(ot)`: the order's tasks, nothing being edited. */
    method Select(order: Order)
      modifies this
      ensures tasks == order.tasks && draft == "" && editing == None
    {
      tasks := order.tasks;
      draft := "";
      editing := None;
    }

    /** `handleNewOt`: an empty task list, nothing being edited. */
    method NewOrder()
      modifies this
      ensures tasks == [] && draft == "" && editing == None
    {
      tasks := [];
      draft := "";
      editing := None;
    }

    /** Typing in the task field replaces the draft. */
    method TypeDraft(text: string)
      modifies this
      ensures tasks == old(tasks) && draft == text && editing == old(editing)
    {
      draft := text;
    }

    /** `handleEditTask(task)`: the draft takes its label. */
    method StartEdit(t: Task)
      modifies this
      ensures tasks == old(tasks) && draft == t.caption && editing == Some(t.id)
    {
      draft := t.caption;
      editing := Some(t.id);
    }

    /** `handleCancelTaskEdit`. */
    method CancelEdit()
      modifies this
      ensures tasks == old(tasks) && draft == "" && editing == None
    {
      draft := "";
      editing := None;
    }

    /** `handleAddTask`: a blank draft is ignored; otherwise the list takes
        the draft and the edit state is cleared. */
    method Add(freshId: string)
      modifies this
      ensures tasks == AddTask(old(tasks), old(draft), old(editing), freshId)
      ensures Trim(old(draft)) == "" ==> draft == old(draft) && editing == old(editing)
      ensures Trim(old(draft)) != "" ==> draft == "" && editing == None
    {
      var caption := Trim(draft);
      if caption == "" {
        return;
      }
      tasks := AddTask(tasks, draft, editing, freshId);
      draft := "";
      editing := None;
    }

    /** `handleDeleteTask(id)`: the edit state is cleared when that task was
        being edited. */
    method Delete(id: string)
      modifies this
      ensures tasks == DeleteTask(old(tasks), id)
      ensures old(editing) == Some(id) ==> draft == "" && editing == None
      ensures old(editing) != Some(id) ==> draft == old(draft) && editing == old(editing)
    {
      tasks := DeleteTask(tasks, id);
      if editing == Some(id) {
        editing := None;
        draft := "";
      }
    }
  }

  // ---------------------------------------------------------------- saving

  /** The body sent for a work order. */
  datatype Payload = Payload(client: string, name: string, code: string, tasks: seq<Task>)

  /** The request of `handleSaveOt`: an update of the selected order, or a
      new one when none is selected. */
  datatype SaveCall = Update(id: string, body: Payload) | Create(body: Payload)

  /** `handleSaveOt`: nothing is sent when the client, name or code is blank
      after trimming; otherwise the trimmed fields and the labelled tasks
      sorted by label. */
  function Save(selectedId: string, client: string, name: string, code: string, tasks: seq<Task>): (r: Option<SaveCall>)
    ensures r.None? <==> Trim(client) == "" || Trim(name) == "" || Trim(code) == ""
  {
    var body := Payload(Trim(client), Trim(name), Trim(code),
      Lists.Filter(SortBy(tasks, TaskLe), (t: Task) => t.caption != ""));
    if Trim(client) == "" || Trim(name) == "" || Trim(code) == "" then None
    else if selectedId != "" then Some(Update(selectedId, body))
    else Some(Create(body))
  }

  /** A request carries the trimmed fields and exactly the labelled tasks of
      the list, sorted by label; it updates exactly when an order is
      selected. */
  lemma SaveProperties(selectedId: string, client: string, name: string, code: string, tasks: seq<Task>)
    requires Save(selectedId, client, name, code, tasks).Some?
    ensures var call := Save(selectedId, client, name, code, tasks).value;
      call.Update? == (selectedId != "")
      && Clean(call.body.client) && Clean(call.body.name) && Clean(call.body.code)
      && call.body.client == Trim(client) && call.body.name == Trim(name)
      && call.body.code == Trim(code)
      && SortedBy(call.body.tasks, TaskLe)
      && forall t :: t in call.body.tasks ==> t in tasks && t.caption != ""
    ensures multiset(Save(selectedId, client, name, code, tasks).value.body.tasks)
      == multiset(Lists.Filter(tasks, (t: Task) => t.caption != ""))
  {
    Lists.FilterPermutation(SortBy(tasks, TaskLe), tasks, (t: Task) => t.caption != "");
    TrimIdempotent(client);
    TrimIdempotent(name);
    TrimIdempotent(code);
    TaskLeTotalPreorder();
    SortBySorted(tasks, TaskLe);
    FilterSorted(SortBy(tasks, TaskLe), (t: Task) => t.caption != "", TaskLe);
    forall t | t in Save(selectedId, client, name, code, tasks).value.body.tasks
      ensures t in tasks
    {
      assert t in multiset(SortBy(tasks, TaskLe));
    }
  }
}

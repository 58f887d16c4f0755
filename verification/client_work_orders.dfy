/** The client's helpers for choosing a client and a work order on the hours
    pages: the label of a work order, the list of clients with its fallback,
    and the work orders of one client as options sorted by label. */
module WorkOrderOptions {
  import opened Common
  import opened Strings
  import opened Sorting
  import Lists

  /** `formatWorkOrderLabel({ name, code })`: "code - name" when both are
      non-blank, otherwise whichever is non-blank, otherwise "". Absent
      fields are "". */
  function FormatLabel(name: string, code: string): (r: string)
    ensures r == "" <==> Trim(name) == "" && Trim(code) == ""
    ensures Trim(name) != "" && Trim(code) != "" ==> r == Trim(code) + " - " + Trim(name)
    ensures Trim(name) != "" && Trim(code) == "" ==> r == Trim(name)
    ensures Trim(name) == "" && Trim(code) != "" ==> r == Trim(code)
  {
    var n := Trim(name);
    var c := Trim(code);
    if n != "" && c != "" then c + " - " + n else OrElse(n, c)
  }

  /** `fetchClientList()`: `response` is the server's list (`None` when the
      request fails or the answer is not a list) and `defaults` the built-in
      client names. The non-empty names of the answer are used when there
      are any, otherwise the defaults, sorted either way. */
  function ClientList(response: Option<seq<string>>, defaults: seq<string>): seq<string> {
    var list := if response.Some? then Lists.Filter(response.value, (n: string) => n != "") else [];
    if |list| > 0 then SortBy(list, LexLe) else SortBy(defaults, LexLe)
  }

  /** The list is sorted; it holds exactly the non-empty names of a
      successful answer when there are any, and the defaults otherwise. */
  lemma ClientListCases(response: Option<seq<string>>, defaults: seq<string>)
    ensures SortedBy(ClientList(response, defaults), LexLe)
    ensures var list := if response.Some? then Lists.Filter(response.value, (n: string) => n != "") else [];
      (|list| > 0 ==> multiset(ClientList(response, defaults)) == multiset(list))
      && (|list| == 0 ==> multiset(ClientList(response, defaults)) == multiset(defaults))
    ensures response.None? ==> multiset(ClientList(response, defaults)) == multiset(defaults)
  {
    LexLeTotalPreorder();
    var list := if response.Some? then Lists.Filter(response.value, (n: string) => n != "") else [];
    SortBySorted(list, LexLe);
    SortBySorted(defaults, LexLe);
  }

  /** A work order as the server lists it (absent fields are ""). */
  datatype RawWorkOrder = RawWorkOrder(id: string, name: string, code: string)

  /** A selectable work order. */
  datatype WorkOrderOption = WorkOrderOption(id: string, client: string, name: string, code: string, caption: string)

  /** The mapping step of `fetchWorkOrdersByClient` for one item: `None` when
      its label is empty. */
  function OptionOf(client: string, item: RawWorkOrder): Option<WorkOrderOption> {
    var name := Trim(item.name);
    var code := Trim(item.code);
    var caption := FormatLabel(name, code);
    if caption == "" then None
    else Some(WorkOrderOption(if item.id != "" then item.id else client + "-" + OrElse(code, name), client, name, code, caption))
  }

  predicate LabelLe(a: WorkOrderOption, b: WorkOrderOption) {
    LexLe(a.caption, b.caption)
  }

  lemma LabelLeTotalPreorder()
    ensures TotalPreorder(LabelLe)
  {
    forall a: WorkOrderOption, b: WorkOrderOption ensures LabelLe(a, b) || LabelLe(b, a) {
      LexLeTotal(a.caption, b.caption);
    }
    forall a: WorkOrderOption, b: WorkOrderOption, c: WorkOrderOption | LabelLe(a, b) && LabelLe(b, c)
      ensures LabelLe(a, c)
    {
      LexLeTrans(a.caption, b.caption, c.caption);
    }
  }

  /** `fetchWorkOrdersByClient(clientName)`: `response` is the server's list
      for the trimmed client, `None` when the request fails or the answer is
      not a list. */
  function WorkOrdersByClient(clientName: string, response: Option<seq<RawWorkOrder>>): seq<WorkOrderOption> {
    var client := Trim(clientName);
    if client == "" || response.None? then []
    else SortBy(Lists.FilterMap(response.value, (_, item) => OptionOf(client, item)), LabelLe)
  }

  /** One item gives an option exactly when its trimmed name or code is
      non-blank; the option carries the client, the trimmed name and code and
      their label, and the item's id or else "client-code", or "client-name"
      without a code. */
  lemma OptionOfProperties(client: string, item: RawWorkOrder)
    ensures OptionOf(client, item).Some? <==> Trim(item.name) != "" || Trim(item.code) != ""
    ensures OptionOf(client, item).Some? ==>
      var o := OptionOf(client, item).value;
      o.client == client && o.name == Trim(item.name) && o.code == Trim(item.code)
      && o.caption != "" && o.caption == FormatLabel(o.name, o.code)
      && o.name == Trim(o.name) && o.code == Trim(o.code)
    ensures OptionOf(client, item).Some? && item.id != "" ==> OptionOf(client, item).value.id == item.id
    ensures OptionOf(client, item).Some? && item.id == "" && Trim(item.code) != "" ==>
      OptionOf(client, item).value.id == client + "-" + Trim(item.code)
    ensures OptionOf(client, item).Some? && item.id == "" && Trim(item.code) == "" ==>
      OptionOf(client, item).value.id == client + "-" + Trim(item.name)
  {
    TrimIdempotent(item.name);
    TrimIdempotent(item.code);
  }

  /** A blank client or a failed request gives no options. Otherwise the
      options are sorted by label and are exactly the options of the items
      that have one, each option as often as the items give it. */
  lemma WorkOrdersByClientProperties(clientName: string, response: Option<seq<RawWorkOrder>>)
    ensures Trim(clientName) == "" || response.None? ==> WorkOrdersByClient(clientName, response) == []
    ensures SortedBy(WorkOrdersByClient(clientName, response), LabelLe)
    ensures Trim(clientName) != "" && response.Some? ==>
      multiset(WorkOrdersByClient(clientName, response))
        == multiset(Lists.FilterMap(response.value, (_, item) => OptionOf(Trim(clientName), item)))
  {
    var client := Trim(clientName);
    if client != "" && response.Some? {
      var mapped := Lists.FilterMap(response.value, (_, item) => OptionOf(client, item));
      LabelLeTotalPreorder();
      SortBySorted(mapped, LabelLe);
    }
  }

  /** Every option comes from an item of the answer, and every item with a
      non-blank name or code gives its option. */
  lemma WorkOrdersByClientSources(clientName: string, items: seq<RawWorkOrder>)
    requires Trim(clientName) != ""
    ensures forall o :: o in WorkOrdersByClient(clientName, Some(items)) ==>
      exists j :: 0 <= j < |items| && OptionOf(Trim(clientName), items[j]) == Some(o)
    ensures forall j :: 0 <= j < |items| && OptionOf(Trim(clientName), items[j]).Some? ==>
      OptionOf(Trim(clientName), items[j]).value in WorkOrdersByClient(clientName, Some(items))
  {
    var client := Trim(clientName);
    var f := (_, item) => OptionOf(client, item);
    var mapped := Lists.FilterMap(items, f);
    var r := WorkOrdersByClient(clientName, Some(items));
    assert r == SortBy(mapped, LabelLe);
    Lists.FilterMapSources(items, f, 0);
    forall o | o in r
      ensures exists j :: 0 <= j < |items| && OptionOf(client, items[j]) == Some(o)
    {
      assert o in multiset(mapped);
      var k :| 0 <= k < |mapped| && mapped[k] == o;
    }
    forall j | 0 <= j < |items| && OptionOf(client, items[j]).Some?
      ensures OptionOf(client, items[j]).value in r
    {
      Lists.FilterMapKeeps(items, f, 0, j);
      assert OptionOf(client, items[j]).value in multiset(r);
    }
  }

  /** For example, an item of client "ACME" without an id or a code, named
      "Pintura", gets the id "ACME-Pintura" and the label "Pintura". */
  lemma DefaultIdExample()
    ensures OptionOf("ACME", RawWorkOrder("", "Pintura", "")) ==
      Some(WorkOrderOption("ACME-Pintura", "ACME", "Pintura", "", "Pintura"))
  {
    TrimStartNoop("Pintura");
    TrimEndNoop("Pintura");
    assert Trim("Pintura") == "Pintura";
    assert Trim("") == "";
    assert FormatLabel("Pintura", "") == "Pintura";
    assert "ACME" + "-" + "Pintura" == "ACME-Pintura";
  }
}

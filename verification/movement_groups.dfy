/** The entity groups of the audit log as the client shows them: four
    groups, each with a value, a label and the other entity names that
    belong to it; the filter options, the alias lists a filter accepts, the
    label of every entity name, and the body the client posts to record a
    movement. */
module MovementGroups {
  import opened Common
  import opened Json
  import ClientAuth

  datatype Group = Group(value: string, caption: string, aliases: seq<string>)

  const Groups: seq<Group> := [
    Group("materials", "Materiales", ["material"]),
    Group("tools", "Herramientas", ["tool"]),
    Group("timesheets", "Horas", ["hours", "timesheet", "horas"]),
    Group("workorders", "Gestion OT", ["workorder", "work-orders", "ot"])]

  /** The names that belong to a group: its value, then its aliases. */
  function Names(g: Group): seq<string> {
    [g.value] + g.aliases
  }

  /** `MOVEMENT_FILTERS`: value and label of every group, in order. */
  function Filters(groups: seq<Group>): (r: seq<(string, string)>)
    ensures |r| == |groups| && forall i :: 0 <= i < |r| ==> r[i] == (groups[i].value, groups[i].caption)
  {
    if |groups| == 0 then [] else [(groups[0].value, groups[0].caption)] + Filters(groups[1..])
  }

  // ---------------------------------------------------------------- aliases

  /** What the `reduce` building `MOVEMENT_FILTER_ALIASES` holds after the
      first `|groups|` groups. */
  function AliasesOf(groups: seq<Group>): map<string, seq<string>> {
    if |groups| == 0 then map[]
    else
      var g := groups[|groups| - 1];
      AliasesOf(groups[..|groups| - 1])[g.value := Names(g)]
  }

  /** `MOVEMENT_FILTER_ALIASES`: every group's value maps to its names. */
  method BuildAliases(groups: seq<Group>) returns (acc: map<string, seq<string>>)
    ensures acc == AliasesOf(groups)
  {
    acc := map[];
    for i := 0 to |groups|
      invariant acc == AliasesOf(groups[..i])
    {
      assert groups[..i + 1][..i] == groups[..i];
      acc := acc[groups[i].value := Names(groups[i])];
    }
    assert groups[..|groups|] == groups;
  }

  lemma AliasesSnoc(groups: seq<Group>, g: Group)
    ensures AliasesOf(groups + [g]) == AliasesOf(groups)[g.value := Names(g)]
  {
    assert (groups + [g])[..|groups|] == groups;
  }

  /** Each filter accepts its own value followed by its aliases; there is no
      list for any other name. */
  lemma AliasTable()
    ensures AliasesOf(Groups) == map[
      "materials" := ["materials", "material"],
      "tools" := ["tools", "tool"],
      "timesheets" := ["timesheets", "hours", "timesheet", "horas"],
      "workorders" := ["workorders", "workorder", "work-orders", "ot"]]
  {
    var g0, g1, g2, g3 := Groups[0], Groups[1], Groups[2], Groups[3];
    AliasesSnoc([], g0);
    AliasesSnoc([g0], g1);
    AliasesSnoc([g0, g1], g2);
    AliasesSnoc([g0, g1, g2], g3);
    assert [g0] == [] + [g0] && [g0, g1] == [g0] + [g1] && [g0, g1, g2] == [g0, g1] + [g2];
    assert Groups == [g0, g1, g2] + [g3];
    assert Names(g0) == ["materials", "material"];
    assert Names(g1) == ["tools", "tool"];
    assert Names(g2) == ["timesheets", "hours", "timesheet", "horas"];
    assert Names(g3) == ["workorders", "workorder", "work-orders", "ot"];
  }

  // ---------------------------------------------------------------- labels

  /** Every one of `names` set to `caption`, in order. */
  function SetAll(m: map<string, string>, names: seq<string>, caption: string): map<string, string>
    decreases |names|
  {
    if |names| == 0 then m
    else SetAll(m[names[0] := caption], names[1..], caption)
  }

  /** What the `reduce` building `MOVEMENT_ENTITY_LABELS` holds after the
      first `|groups|` groups. */
  function LabelsOf(groups: seq<Group>): map<string, string> {
    if |groups| == 0 then map[]
    else
      var g := groups[|groups| - 1];
      SetAll(LabelsOf(groups[..|groups| - 1]), Names(g), g.caption)
  }

  /** Setting names adds exactly those names. */
  lemma {:induction false} SetAllKeys(m: map<string, string>, names: seq<string>, caption: string)
    ensures SetAll(m, names, caption).Keys == m.Keys + set k | k in names
    decreases |names|
  {
    if |names| > 0 {
      SetAllKeys(m[names[0] := caption], names[1..], caption);
      assert (set k | k in names) == {names[0]} + set k | k in names[1..];
    }
  }

  /** Reading after `SetAll`: a set name holds the caption, any other name
      what it held before. */
  lemma {:induction false} SetAllLookup(m: map<string, string>, names: seq<string>, caption: string, k: string)
    requires k in names || k in m
    ensures k in SetAll(m, names, caption)
    ensures SetAll(m, names, caption)[k] == if k in names then caption else m[k]
    decreases |names|
  {
    if |names| > 0 {
      SetAllLookup(m[names[0] := caption], names[1..], caption, k);
      if k !in names[1..] && k in names {
        assert k == names[0];
      }
    }
  }

  /** A name takes the label of the last group it belongs to. */
  lemma {:induction false} LabelsOfAt(groups: seq<Group>, i: nat, k: string)
    requires i < |groups| && k in Names(groups[i])
    requires forall j :: i < j < |groups| ==> k !in Names(groups[j])
    ensures k in LabelsOf(groups) && LabelsOf(groups)[k] == groups[i].caption
  {
    var init := groups[..|groups| - 1];
    var g := groups[|groups| - 1];
    if i < |init| {
      assert init[i] == groups[i];
      assert forall j :: i < j < |init| ==> init[j] == groups[j];
      LabelsOfAt(init, i, k);
    }
    SetAllLookup(LabelsOf(init), Names(g), g.caption, k);
  }

  /** A name is labelled exactly when it belongs to one of the groups. */
  lemma {:induction false} LabelsOfKeys(groups: seq<Group>, k: string)
    ensures k in LabelsOf(groups) <==> exists i :: 0 <= i < |groups| && k in Names(groups[i])
  {
    if |groups| > 0 {
      var init := groups[..|groups| - 1];
      var g := groups[|groups| - 1];
      LabelsOfKeys(init, k);
      SetAllKeys(LabelsOf(init), Names(g), g.caption);
      if k in Names(g) {
        assert k in Names(groups[|groups| - 1]);
      }
      if exists i :: 0 <= i < |init| && k in Names(init[i]) {
        var i :| 0 <= i < |init| && k in Names(init[i]);
        assert groups[i] == init[i];
      }
      if exists i :: 0 <= i < |groups| && k in Names(groups[i]) {
        var i :| 0 <= i < |groups| && k in Names(groups[i]);
        if i < |init| {
          assert groups[i] == init[i];
        }
      }
    }
  }

  /** `MOVEMENT_ENTITY_LABELS`: the value and then each alias of every group
      set to the group's label. */
  method BuildLabels(groups: seq<Group>) returns (acc: map<string, string>)
    ensures acc == LabelsOf(groups)
  {
    acc := map[];
    for i := 0 to |groups|
      invariant acc == LabelsOf(groups[..i])
    {
      var g := groups[i];
      assert groups[..i + 1][..i] == groups[..i];
      acc := acc[g.value := g.caption];
      for j := 0 to |g.aliases|
        invariant SetAll(acc, g.aliases[j..], g.caption) == LabelsOf(groups[..i + 1])
      {
        assert g.aliases[j..][1..] == g.aliases[j + 1..];
        acc := acc[g.aliases[j] := g.caption];
      }
      assert g.aliases[|g.aliases|..] == [];
    }
    assert groups[..|groups|] == groups;
  }

  lemma LabelsSnoc(groups: seq<Group>, g: Group)
    ensures LabelsOf(groups + [g]) == SetAll(LabelsOf(groups), Names(g), g.caption)
  {
    assert (groups + [g])[..|groups|] == groups;
  }

  /** Every value and every alias is labelled with its own group's label,
      and nothing else is labelled. */
  lemma LabelTable()
    ensures LabelsOf(Groups) == map[
      "materials" := "Materiales", "material" := "Materiales",
      "tools" := "Herramientas", "tool" := "Herramientas",
      "timesheets" := "Horas", "hours" := "Horas", "timesheet" := "Horas", "horas" := "Horas",
      "workorders" := "Gestion OT", "workorder" := "Gestion OT", "work-orders" := "Gestion OT", "ot" := "Gestion OT"]
  {
    var g0, g1, g2, g3 := Groups[0], Groups[1], Groups[2], Groups[3];
    LabelsSnoc([], g0);
    LabelsSnoc([g0], g1);
    LabelsSnoc([g0, g1], g2);
    LabelsSnoc([g0, g1, g2], g3);
    assert [g0] == [] + [g0] && [g0, g1] == [g0] + [g1] && [g0, g1, g2] == [g0, g1] + [g2];
    assert Groups == [g0, g1, g2] + [g3];
    var m1 := SetAll(map[], Names(g0), g0.caption);
    assert m1 == map["materials" := "Materiales", "material" := "Materiales"];
    var m2 := SetAll(m1, Names(g1), g1.caption);
    assert m2 == m1["tools" := "Herramientas"]["tool" := "Herramientas"];
    var m3 := SetAll(m2, Names(g2), g2.caption);
    assert m3 == m2["timesheets" := "Horas"]["hours" := "Horas"]["timesheet" := "Horas"]["horas" := "Horas"];
  }

  // ---------------------------------------------------------------- logMovement

  /** The keys of the body `logMovement` posts, in order. */
  const LogKeys: seq<string> := ["entity", "type", "summary", "payload", "metadata", "by", "userId"]

  /** An object with the keys `LogKeys` holding `vals`. */
  function Record(vals: seq<Value>): (r: seq<(string, Value)>)
    requires |vals| == |LogKeys|
    ensures |r| == |LogKeys| && forall i :: 0 <= i < |r| ==> r[i] == (LogKeys[i], vals[i])
  {
    seq(|LogKeys|, i requires 0 <= i < |LogKeys| => (LogKeys[i], vals[i]))
  }

  /** Each key of the record reads its own value. */
  lemma RecordGet(vals: seq<Value>, i: nat)
    requires |vals| == |LogKeys| && i < |LogKeys|
    ensures Get(Record(vals), LogKeys[i]) == Some(vals[i])
  {
    var fields := Record(vals);
    assert forall j :: 0 <= j < i ==> LogKeys[j][0] != LogKeys[i][0];
    GetAt(fields, i);
  }

  /** The record has exactly the keys `LogKeys`, in that order. */
  lemma RecordKeys(vals: seq<Value>)
    requires |vals| == |LogKeys|
    ensures Keys(Record(vals)) == LogKeys
  {
    var ks := Keys(Record(vals));
    assert |ks| == |LogKeys|;
    assert forall i :: 0 <= i < |ks| ==> ks[i] == LogKeys[i];
  }

  /** The body `logMovement` posts for the signed-in `user`. Absent inputs
      are `None`. */
  function LogBody(entity: Value, action: Value, summary: Option<Value>, payload: Option<Value>,
                   metadata: Option<Value>, user: Option<ClientAuth.ClientUser>): Value
  {
    JObj(Record(LogValues(entity, action, summary, payload, metadata, user)))
  }

  /** The values of the log body, in the order of `LogKeys`. */
  function LogValues(entity: Value, action: Value, summary: Option<Value>, payload: Option<Value>,
                     metadata: Option<Value>, user: Option<ClientAuth.ClientUser>): (r: seq<Value>)
    ensures |r| == |LogKeys|
  {
    var userId := if user.Some? then Or(user.value.uid, JNull) else JNull;
    [entity, action, Or(summary, JStr("")), Or(payload, JObj([])), Or(metadata, JObj([])), ClientAuth.DisplayName(user), userId]
  }

  /** The body names the entity and the action as its type; the summary,
      payload and metadata are kept when given and otherwise default to "",
      {} and {}; the author is the user's display name, and the user id is
      the user's when given and otherwise `null`. */
  lemma LogBodyFields(entity: Value, action: Value, summary: Option<Value>, payload: Option<Value>,
                      metadata: Option<Value>, user: Option<ClientAuth.ClientUser>)
    ensures var body := LogBody(entity, action, summary, payload, metadata, user);
      body.JObj? && Keys(body.fields) == LogKeys
      && Get(body.fields, "entity") == Some(entity) && Get(body.fields, "type") == Some(action)
      && Get(body.fields, "by") == Some(ClientAuth.DisplayName(user))
      && (user.Some? && Given(user.value.uid) ==> Get(body.fields, "userId") == user.value.uid)
      && (!(user.Some? && Given(user.value.uid)) ==> Get(body.fields, "userId") == Some(JNull))
      && (Given(summary) ==> Get(body.fields, "summary") == summary)
      && (!Given(summary) ==> Get(body.fields, "summary") == Some(JStr("")))
      && (Given(payload) ==> Get(body.fields, "payload") == payload)
      && (!Given(payload) ==> Get(body.fields, "payload") == Some(JObj([])))
      && (Given(metadata) ==> Get(body.fields, "metadata") == metadata)
      && (!Given(metadata) ==> Get(body.fields, "metadata") == Some(JObj([])))
  {
    var vals := LogValues(entity, action, summary, payload, metadata, user);
    RecordKeys(vals);
    RecordGet(vals, 0);
    RecordGet(vals, 1);
    RecordGet(vals, 2);
    RecordGet(vals, 3);
    RecordGet(vals, 4);
    RecordGet(vals, 5);
    RecordGet(vals, 6);
  }
}

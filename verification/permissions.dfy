/** The permission algebra of the server: role documents carry nested
    `{ group: { key: flag } }` objects; a principal's effective permissions
    are the union of the truthy flags of its roles; a dotted path such as
    "timesheets.manage" holds only when it leads to the value `true` exactly;
    and a route gate lets a principal through when any of its paths holds. */
module Permissions {
  import opened Common
  import opened Strings
  import opened Json

  // ---------------------------------------------------------------- property access

  /** A canonical array index ("0", "1", ... without leading zeros). */
  function ArrayIndex(seg: string): Option<nat> {
    if |seg| > 0 && AllDigits(seg) && (seg == "0" || seg[0] != '0') then Some(DigitsValue(seg)) else None
  }

  /** `v?.[seg]` over own data properties: object members, array elements and
      string characters by index, and the `length` of arrays and strings. */
  function Property(v: Value, seg: string): Option<Value> {
    match v
    case JObj(fields) => Get(fields, seg)
    case JArr(items) =>
      var i := ArrayIndex(seg);
      if i.Some? && i.value < |items| then Some(items[i.value])
      else if seg == "length" then Some(JNum(|items|)) else None
    case JStr(s) =>
      var i := ArrayIndex(seg);
      if i.Some? && i.value < |s| then Some(JStr([s[i.value]]))
      else if seg == "length" then Some(JNum(|s|)) else None
    case _ => None
  }

  /** `segs.reduce((acc, seg) => acc?.[seg], v)`; None is `undefined`. */
  function Walk(v: Option<Value>, segs: seq<string>): Option<Value>
    decreases |segs|
  {
    if |segs| == 0 then v
    else Walk(if v.None? then None else Property(v.value, segs[0]), segs[1..])
  }

  lemma {:induction false} WalkUndefined(segs: seq<string>)
    ensures Walk(None, segs) == None
    decreases |segs|
  {
    if |segs| > 0 {
      WalkUndefined(segs[1..]);
    }
  }

  /** `hasPermission(permissions, path)` (also the client's `hasPermissionPath`):
      false for an empty path, otherwise whether the dotted path leads to the
      value `true` exactly. */
  predicate HasPermission(permissions: Value, path: string)
    ensures HasPermission(permissions, path) ==> path != ""
  {
    path != "" && Walk(Some(permissions), Split(path, '.')) == Some(JBool(true))
  }

  // ---------------------------------------------------------------- Object.entries

  /** `Object.entries(v)` for the values a role document can hold: the members
      of an object, the indexed elements of an array, the indexed characters
      of a string, and nothing for the other values. */
  function Entries(v: Value): (es: seq<(string, Value)>)
    ensures v.JObj? ==> es == v.fields
  {
    match v
    case JObj(fields) => fields
    case JArr(items) => seq(|items|, i requires 0 <= i < |items| => (NatToString(i), items[i]))
    case JStr(s) => seq(|s|, i requires 0 <= i < |s| => (NatToString(i), JStr([s[i]])))
    case _ => []
  }

  // ---------------------------------------------------------------- merged permission trees

  /** A merged permission object: every group, in insertion order, with the
      keys set to `true` in it, in insertion order. `mergeObjects` only ever
      writes objects and the value `true`, so this is every shape it builds. */
  type FlagTree = seq<(string, seq<string>)>

  /** Group names are distinct, as object keys are. */
  predicate WellFormed(t: FlagTree) {
    forall i, j :: 0 <= i < j < |t| ==> t[i].0 != t[j].0
  }

  predicate HasGroup(t: FlagTree, g: string) {
    exists i :: 0 <= i < |t| && t[i].0 == g
  }

  /** `t[g][k] === true`. */
  predicate Flag(t: FlagTree, g: string, k: string) {
    exists i :: 0 <= i < |t| && t[i].0 == g && k in t[i].1
  }

  function GroupIndex(t: FlagTree, g: string): (r: Option<nat>)
    ensures r.Some? ==> r.value < |t| && t[r.value].0 == g
    ensures r.Some? ==> forall i :: 0 <= i < r.value ==> t[i].0 != g
    ensures r.None? <==> !HasGroup(t, g)
  {
    if |t| == 0 then None
    else if t[0].0 == g then Some(0)
    else
      var r := GroupIndex(t[1..], g);
      if r.None? then
        assert forall i :: 1 <= i < |t| ==> t[i].0 == t[1..][i - 1].0;
        None
      else Some(r.value + 1)
  }

  /** The value the tree stands for, as a JavaScript object. */
  function ToValue(t: FlagTree): Value {
    JObj(seq(|t|, i requires 0 <= i < |t| => (t[i].0, KeysValue(t[i].1))))
  }

  function KeysValue(keys: seq<string>): Value {
    JObj(seq(|keys|, j requires 0 <= j < |keys| => (keys[j], JBool(true))))
  }

  /** `if (!target[group]) target[group] = {}`. */
  function EnsureGroup(t: FlagTree, g: string): (r: FlagTree)
    ensures HasGroup(r, g)
    ensures |r| >= |t| && r[..|t|] == t
  {
    if HasGroup(t, g) then t
    else
      var r := t + [(g, [])];
      assert r[|t|].0 == g;
      r
  }

  lemma EnsureGroupFacts(t: FlagTree, g: string, g': string, k: string)
    ensures HasGroup(EnsureGroup(t, g), g') <==> HasGroup(t, g') || g' == g
    ensures Flag(EnsureGroup(t, g), g', k) <==> Flag(t, g', k)
    ensures WellFormed(t) ==> WellFormed(EnsureGroup(t, g))
  {
    var r := EnsureGroup(t, g);
    if HasGroup(t, g') {
      var i :| 0 <= i < |t| && t[i].0 == g';
      assert r[i] == t[i];
    }
    if Flag(t, g', k) {
      var i :| 0 <= i < |t| && t[i].0 == g' && k in t[i].1;
      assert r[i] == t[i];
    }
    if Flag(r, g', k) {
      var i :| 0 <= i < |r| && r[i].0 == g' && k in r[i].1;
      assert i < |t| && r[i] == t[i];
    }
  }

  /** `target[group][key] = true` on an existing group. */
  function SetFlag(t: FlagTree, g: string, k: string): (r: FlagTree)
    requires HasGroup(t, g)
    ensures |r| == |t| && forall i :: 0 <= i < |t| ==> r[i].0 == t[i].0
  {
    var i := GroupIndex(t, g).value;
    var keys := if k in t[i].1 then t[i].1 else t[i].1 + [k];
    t[i := (g, keys)]
  }

  lemma SetFlagFacts(t: FlagTree, g: string, k: string, g': string, k': string)
    requires HasGroup(t, g)
    ensures Flag(SetFlag(t, g, k), g', k') <==> Flag(t, g', k') || (g' == g && k' == k)
  {
    var r := SetFlag(t, g, k);
    var gi := GroupIndex(t, g).value;
    if Flag(t, g', k') {
      var j :| 0 <= j < |t| && t[j].0 == g' && k' in t[j].1;
      assert r[j].0 == g' && k' in r[j].1;
    }
    if g' == g && k' == k {
      assert r[gi].0 == g && k in r[gi].1;
    }
    if Flag(r, g', k') {
      var j :| 0 <= j < |r| && r[j].0 == g' && k' in r[j].1;
      if j != gi { assert r[j] == t[j]; }
    }
  }

  /** Some pair of `keys` has key `k` and a truthy value. */
  predicate KeyTruthy(keys: seq<(string, Value)>, k: string) {
    exists j :: 0 <= j < |keys| && keys[j].0 == k && Truthy(keys[j].1)
  }

  /** The inner loop of `mergeObjects`: every truthy value sets its key. */
  function MergeGroup(t: FlagTree, g: string, keys: seq<(string, Value)>): (r: FlagTree)
    requires HasGroup(t, g)
    ensures |r| == |t| && forall i :: 0 <= i < |t| ==> r[i].0 == t[i].0
  {
    if |keys| == 0 then t
    else
      var p := MergeGroup(t, g, keys[..|keys| - 1]);
      assert HasGroup(p, g) by { var i := GroupIndex(t, g).value; assert p[i].0 == g; }
      if Truthy(keys[|keys| - 1].1) then SetFlag(p, g, keys[|keys| - 1].0) else p
  }

  /** `mergeObjects(target, source)` given `Object.entries(source)`. */
  function MergeSource(t: FlagTree, es: seq<(string, Value)>): FlagTree
  {
    if |es| == 0 then t
    else
      var p := MergeSource(t, es[..|es| - 1]);
      var (g, perms) := es[|es| - 1];
      if g == "" then p else MergeGroup(EnsureGroup(p, g), g, Entries(perms))
  }

  /** `mergePermissions(...sources)`: the merge of each source in turn into
      an initially empty object. */
  function MergeAll(sources: seq<Value>): FlagTree {
    if |sources| == 0 then []
    else MergeSource(MergeAll(sources[..|sources| - 1]), Entries(sources[|sources| - 1]))
  }

  /** `mergeObjects`: the nested loops over the source's groups and each
      group's keys, updating the target. */
  method MergeObjects(target: FlagTree, source: Value) returns (result: FlagTree)
    ensures result == MergeSource(target, Entries(source))
  {
    result := target;
    var entries := Entries(source);
    var i := 0;
    while i < |entries|
      invariant 0 <= i <= |entries|
      invariant result == MergeSource(target, entries[..i])
    {
      var group := entries[i].0;
      var perms := entries[i].1;
      assert entries[..i + 1][..i] == entries[..i];
      if group != "" {
        if !HasGroup(result, group) {
          result := result + [(group, [])];
          assert result[|result| - 1].0 == group;
        }
        assert HasGroup(result, group);
        result := MergeGroupInto(result, group, Entries(perms));
      }
      i := i + 1;
    }
    assert entries[..i] == entries;
  }

  /** The inner `forEach` of `mergeObjects`: every truthy key of one source
      group set to true in the target's group. */
  method MergeGroupInto(start: FlagTree, group: string, keys: seq<(string, Value)>) returns (result: FlagTree)
    requires HasGroup(start, group)
    ensures result == MergeGroup(start, group, keys)
  {
    result := start;
    var j := 0;
    while j < |keys|
      invariant 0 <= j <= |keys|
      invariant result == MergeGroup(start, group, keys[..j])
    {
      assert keys[..j + 1][..j] == keys[..j];
      if Truthy(keys[j].1) {
        result := SetFlag(result, group, keys[j].0);
      }
      j := j + 1;
    }
    assert keys[..j] == keys;
  }

  /** `mergePermissions`: `reduce` of `mergeObjects` from `{}`. */
  method MergePermissions(sources: seq<Value>) returns (result: FlagTree)
    ensures result == MergeAll(sources)
  {
    result := [];
    var i := 0;
    while i < |sources|
      invariant 0 <= i <= |sources|
      invariant result == MergeAll(sources[..i])
    {
      assert sources[..i + 1][..i] == sources[..i];
      result := MergeObjects(result, sources[i]);
      i := i + 1;
    }
    assert sources[..i] == sources;
  }

  // ---------------------------------------------------------------- union semantics

  lemma {:induction false} MergeGroupFlag(t: FlagTree, g: string, keys: seq<(string, Value)>, g': string, k: string)
    requires HasGroup(t, g)
    ensures Flag(MergeGroup(t, g, keys), g', k) <==> Flag(t, g', k) || (g' == g && KeyTruthy(keys, k))
  {
    if |keys| > 0 {
      var init := keys[..|keys| - 1];
      var last := keys[|keys| - 1];
      MergeGroupFlag(t, g, init, g', k);
      var p := MergeGroup(t, g, init);
      assert HasGroup(p, g) by { var i := GroupIndex(t, g).value; assert p[i].0 == g; }
      if Truthy(last.1) {
        SetFlagFacts(p, g, last.0, g', k);
      }
      if KeyTruthy(keys, k) {
        var j :| 0 <= j < |keys| && keys[j].0 == k && Truthy(keys[j].1);
        if j < |keys| - 1 { assert init[j] == keys[j]; }
      }
      if KeyTruthy(init, k) {
        var j :| 0 <= j < |init| && init[j].0 == k && Truthy(init[j].1);
        assert keys[j] == init[j];
      }
    }
  }

  lemma {:induction false} MergeGroupKeepsGroups(t: FlagTree, g: string, keys: seq<(string, Value)>, g': string)
    requires HasGroup(t, g)
    ensures HasGroup(MergeGroup(t, g, keys), g') <==> HasGroup(t, g')
    ensures WellFormed(t) ==> WellFormed(MergeGroup(t, g, keys))
  {
    var r := MergeGroup(t, g, keys);
    if HasGroup(t, g') { var i :| 0 <= i < |t| && t[i].0 == g'; assert r[i].0 == g'; }
    if HasGroup(r, g') { var i :| 0 <= i < |r| && r[i].0 == g'; assert t[i].0 == g'; }
  }

  /** The pairs of `es` give `k` a truthy value under the non-empty group `g`. */
  predicate EntriesFlag(es: seq<(string, Value)>, g: string, k: string) {
    g != "" && exists i :: 0 <= i < |es| && es[i].0 == g && KeyTruthy(Entries(es[i].1), k)
  }

  /** The pairs of `es` name the non-empty group `g`. */
  predicate EntriesGroup(es: seq<(string, Value)>, g: string) {
    g != "" && exists i :: 0 <= i < |es| && es[i].0 == g
  }

  /** The flag of a source: a non-empty group name and a truthy value under
      the key. */
  predicate SourceFlag(source: Value, g: string, k: string) {
    EntriesFlag(Entries(source), g, k)
  }

  /** A group a source mentions under a non-empty name. */
  predicate SourceGroup(source: Value, g: string) {
    EntriesGroup(Entries(source), g)
  }

  lemma {:induction false} MergeSourceFlag(t: FlagTree, es: seq<(string, Value)>, g: string, k: string)
    ensures Flag(MergeSource(t, es), g, k) <==> Flag(t, g, k) || EntriesFlag(es, g, k)
  {
    if |es| > 0 {
      var init := es[..|es| - 1];
      var g0 := es[|es| - 1].0;
      var perms := es[|es| - 1].1;
      MergeSourceFlag(t, init, g, k);
      var p := MergeSource(t, init);
      if g0 != "" {
        EnsureGroupFacts(p, g0, g, k);
        MergeGroupFlag(EnsureGroup(p, g0), g0, Entries(perms), g, k);
      }
      EntriesFlagSnoc(es, g, k);
    }
  }

  lemma EntriesFlagSnoc(es: seq<(string, Value)>, g: string, k: string)
    requires |es| > 0
    ensures EntriesFlag(es, g, k) <==>
      EntriesFlag(es[..|es| - 1], g, k) || (g != "" && es[|es| - 1].0 == g && KeyTruthy(Entries(es[|es| - 1].1), k))
  {
    var init := es[..|es| - 1];
    if EntriesFlag(es, g, k) {
      var i :| 0 <= i < |es| && es[i].0 == g && KeyTruthy(Entries(es[i].1), k);
      if i < |es| - 1 { assert init[i] == es[i]; }
    }
    if EntriesFlag(init, g, k) {
      var i :| 0 <= i < |init| && init[i].0 == g && KeyTruthy(Entries(init[i].1), k);
      assert es[i] == init[i];
    }
  }

  lemma {:induction false} MergeSourceGroup(t: FlagTree, es: seq<(string, Value)>, g: string)
    ensures HasGroup(MergeSource(t, es), g) <==> HasGroup(t, g) || EntriesGroup(es, g)
  {
    if |es| > 0 {
      var init := es[..|es| - 1];
      var g0 := es[|es| - 1].0;
      var perms := es[|es| - 1].1;
      MergeSourceGroup(t, init, g);
      var p := MergeSource(t, init);
      if g0 != "" {
        EnsureGroupFacts(p, g0, g, "");
        MergeGroupKeepsGroups(EnsureGroup(p, g0), g0, Entries(perms), g);
      }
      EntriesGroupSnoc(es, g);
    }
  }

  lemma EntriesGroupSnoc(es: seq<(string, Value)>, g: string)
    requires |es| > 0
    ensures EntriesGroup(es, g) <==> EntriesGroup(es[..|es| - 1], g) || (g != "" && es[|es| - 1].0 == g)
  {
    var init := es[..|es| - 1];
    if EntriesGroup(es, g) {
      var i :| 0 <= i < |es| && es[i].0 == g;
      if i < |es| - 1 { assert init[i] == es[i]; }
    }
    if EntriesGroup(init, g) {
      var i :| 0 <= i < |init| && init[i].0 == g;
      assert es[i] == init[i];
    }
  }

  lemma {:induction false} MergeSourceWellFormed(t: FlagTree, es: seq<(string, Value)>)
    requires WellFormed(t)
    ensures WellFormed(MergeSource(t, es))
  {
    if |es| > 0 {
      var init := es[..|es| - 1];
      var g0 := es[|es| - 1].0;
      MergeSourceWellFormed(t, init);
      var p := MergeSource(t, init);
      if g0 != "" {
        EnsureGroupFacts(p, g0, g0, "");
        MergeGroupKeepsGroups(EnsureGroup(p, g0), g0, Entries(es[|es| - 1].1), g0);
      }
    }
  }

  /** Some source among `sources` has the flag g.k. */
  predicate AnySourceFlag(sources: seq<Value>, g: string, k: string) {
    exists i :: 0 <= i < |sources| && SourceFlag(sources[i], g, k)
  }

  predicate AnySourceGroup(sources: seq<Value>, g: string) {
    exists i :: 0 <= i < |sources| && SourceGroup(sources[i], g)
  }

  /** `mergePermissions` is a union: a flag is set in the result exactly when
      some source has it truthy under a non-empty group name. */
  lemma {:induction false} MergeAllFlag(sources: seq<Value>, g: string, k: string)
    ensures Flag(MergeAll(sources), g, k) <==> AnySourceFlag(sources, g, k)
  {
    if |sources| > 0 {
      var init := sources[..|sources| - 1];
      var last := sources[|sources| - 1];
      MergeAllFlag(init, g, k);
      MergeSourceFlag(MergeAll(init), Entries(last), g, k);
      AnySourceFlagSnoc(sources, g, k);
    }
  }

  lemma AnySourceFlagSnoc(sources: seq<Value>, g: string, k: string)
    requires |sources| > 0
    ensures AnySourceFlag(sources, g, k) <==>
      AnySourceFlag(sources[..|sources| - 1], g, k) || SourceFlag(sources[|sources| - 1], g, k)
  {
    var init := sources[..|sources| - 1];
    var last := sources[|sources| - 1];
    assert sources == init + [last];
    AnySourceFlagConcat(init, [last], g, k);
    if SourceFlag(last, g, k) {
      assert [last][0] == last;
    }
  }

  /** A group is present in the result exactly when some source names it,
      even when none of its values is truthy. */
  lemma {:induction false} MergeAllGroup(sources: seq<Value>, g: string)
    ensures HasGroup(MergeAll(sources), g) <==> AnySourceGroup(sources, g)
  {
    if |sources| > 0 {
      var init := sources[..|sources| - 1];
      var last := sources[|sources| - 1];
      MergeAllGroup(init, g);
      MergeSourceGroup(MergeAll(init), Entries(last), g);
      AnySourceGroupSnoc(sources, g);
    }
  }

  lemma AnySourceGroupSnoc(sources: seq<Value>, g: string)
    requires |sources| > 0
    ensures AnySourceGroup(sources, g) <==> AnySourceGroup(sources[..|sources| - 1], g) || SourceGroup(sources[|sources| - 1], g)
  {
    var init := sources[..|sources| - 1];
    var last := sources[|sources| - 1];
    assert sources == init + [last];
    AnySourceGroupConcat(init, [last], g);
    if SourceGroup(last, g) {
      assert [last][0] == last;
    }
  }

  lemma {:induction false} MergeAllWellFormed(sources: seq<Value>)
    ensures WellFormed(MergeAll(sources))
  {
    if |sources| > 0 {
      MergeAllWellFormed(sources[..|sources| - 1]);
      MergeSourceWellFormed(MergeAll(sources[..|sources| - 1]), Entries(sources[|sources| - 1]));
    }
  }

  lemma AnySourceFlagConcat(a: seq<Value>, b: seq<Value>, g: string, k: string)
    ensures AnySourceFlag(a + b, g, k) <==> AnySourceFlag(a, g, k) || AnySourceFlag(b, g, k)
  {
    if AnySourceFlag(a + b, g, k) {
      var i :| 0 <= i < |a + b| && SourceFlag((a + b)[i], g, k);
      if i < |a| { assert (a + b)[i] == a[i]; } else { assert (a + b)[i] == b[i - |a|]; }
    }
    if AnySourceFlag(a, g, k) {
      var i :| 0 <= i < |a| && SourceFlag(a[i], g, k);
      assert (a + b)[i] == a[i];
    }
    if AnySourceFlag(b, g, k) {
      var i :| 0 <= i < |b| && SourceFlag(b[i], g, k);
      assert (a + b)[|a| + i] == b[i];
    }
  }

  lemma AnySourceGroupConcat(a: seq<Value>, b: seq<Value>, g: string)
    ensures AnySourceGroup(a + b, g) <==> AnySourceGroup(a, g) || AnySourceGroup(b, g)
  {
    if AnySourceGroup(a + b, g) {
      var i :| 0 <= i < |a + b| && SourceGroup((a + b)[i], g);
      if i < |a| { assert (a + b)[i] == a[i]; } else { assert (a + b)[i] == b[i - |a|]; }
    }
    if AnySourceGroup(a, g) {
      var i :| 0 <= i < |a| && SourceGroup(a[i], g);
      assert (a + b)[i] == a[i];
    }
    if AnySourceGroup(b, g) {
      var i :| 0 <= i < |b| && SourceGroup(b[i], g);
      assert (a + b)[|a| + i] == b[i];
    }
  }

  /** The union does not depend on the order of the sources, and merging a
      source twice is merging it once. */
  lemma MergeAllOrderAndDuplicates(a: seq<Value>, b: seq<Value>, g: string, k: string)
    ensures Flag(MergeAll(a + b), g, k) <==> Flag(MergeAll(b + a), g, k)
    ensures Flag(MergeAll(a + a), g, k) <==> Flag(MergeAll(a), g, k)
    ensures HasGroup(MergeAll(a + b), g) <==> HasGroup(MergeAll(b + a), g)
  {
    MergeAllFlag(a + b, g, k);
    MergeAllFlag(b + a, g, k);
    MergeAllFlag(a + a, g, k);
    MergeAllFlag(a, g, k);
    AnySourceFlagConcat(a, b, g, k);
    AnySourceFlagConcat(b, a, g, k);
    AnySourceFlagConcat(a, a, g, k);
    MergeAllGroup(a + b, g);
    MergeAllGroup(b + a, g);
    AnySourceGroupConcat(a, b, g);
    AnySourceGroupConcat(b, a, g);
  }

  // ---------------------------------------------------------------- lookups in a merged tree

  lemma {:induction false} GetKeysValue(keys: seq<string>, k: string)
    ensures Get(KeysValue(keys).fields, k) == if k in keys then Some(JBool(true)) else None
  {
    if |keys| > 0 {
      GetKeysValue(keys[1..], k);
      assert KeysValue(keys).fields[1..] == KeysValue(keys[1..]).fields;
    }
  }

  lemma {:induction false} GetToValue(t: FlagTree, g: string)
    ensures Get(ToValue(t).fields, g) == if HasGroup(t, g) then Some(KeysValue(t[GroupIndex(t, g).value].1)) else None
  {
    if |t| > 0 {
      GetToValue(t[1..], g);
      assert ToValue(t).fields[1..] == ToValue(t[1..]).fields;
      if t[0].0 != g && HasGroup(t, g) {
        var i :| 0 <= i < |t| && t[i].0 == g;
        assert t[1..][i - 1].0 == g;
      }
    }
  }

  /** In a merged tree a dotted path holds exactly when it names a group and a
      key set in it: "g.k" holds iff the flag is set, and any path with fewer
      or more than two segments fails. */
  lemma HasPermissionInTree(t: FlagTree, path: string)
    requires WellFormed(t)
    ensures HasPermission(ToValue(t), path) <==>
              path != "" && |Split(path, '.')| == 2 && Flag(t, Split(path, '.')[0], Split(path, '.')[1])
  {
    var segs := Split(path, '.');
    var v := ToValue(t);
    if |segs| >= 1 {
      var g := segs[0];
      GetToValue(t, g);
      var w := Walk(Some(v), segs[..1]);
      if |segs| == 1 {
        assert Walk(Some(v), segs) == Walk(Property(v, g), segs[1..]);
      } else {
        assert Walk(Some(v), segs) == Walk(Property(v, g), segs[1..]);
        if HasGroup(t, g) {
          WalkInGroup(t, segs);
        } else {
          WalkUndefined(segs[1..]);
        }
      }
    }
  }

  /** Two or more segments whose first names a group: the walk ends on true
      exactly when there are two and the second is a key of the group. */
  lemma WalkInGroup(t: FlagTree, segs: seq<string>)
    requires WellFormed(t) && |segs| >= 2 && HasGroup(t, segs[0])
    ensures Walk(Property(ToValue(t), segs[0]), segs[1..]) == Some(JBool(true)) <==> |segs| == 2 && Flag(t, segs[0], segs[1])
  {
    var g := segs[0];
    GetToValue(t, g);
    var gi := GroupIndex(t, g).value;
    assert Walk(Property(ToValue(t), g), segs[1..]) == Walk(Property(KeysValue(t[gi].1), segs[1]), segs[2..]);
    WalkKeys(t[gi].1, segs[1], segs[2..]);
    FlagAtGroup(t, g, segs[1]);
  }

  /** Below a group's object, a walk ends on true exactly when it stops at
      one of the group's keys. */
  lemma WalkKeys(keys: seq<string>, k: string, rest: seq<string>)
    ensures Walk(Property(KeysValue(keys), k), rest) == Some(JBool(true)) <==> rest == [] && k in keys
  {
    GetKeysValue(keys, k);
    if |rest| > 0 {
      WalkUndefined(rest[1..]);
    }
  }

  /** In a well-formed tree a flag is a key of the group's one entry. */
  lemma FlagAtGroup(t: FlagTree, g: string, k: string)
    requires WellFormed(t) && HasGroup(t, g)
    ensures Flag(t, g, k) <==> k in t[GroupIndex(t, g).value].1
  {
    if Flag(t, g, k) {
      var i :| 0 <= i < |t| && t[i].0 == g && k in t[i].1;
      assert i == GroupIndex(t, g).value;
    }
  }

  /** For group and key names without '.', "g.k" holds in the merged
      permissions of some sources exactly when one of the sources has a truthy
      value at g.k. */
  lemma MergedPermissionHolds(sources: seq<Value>, g: string, k: string)
    requires g != "" && '.' !in g && '.' !in k
    ensures HasPermission(ToValue(MergeAll(sources)), g + "." + k) <==> AnySourceFlag(sources, g, k)
  {
    MergeAllFlag(sources, g, k);
    MergeAllWellFormed(sources);
    assert forall j :: 0 <= j < |g| ==> g[j] != '.';
    assert forall j :: 0 <= j < |k| ==> k[j] != '.';
    SplitJoin([g, k], '.');
    assert Join([g, k], ".") == g + "." + k;
    HasPermissionInTree(MergeAll(sources), g + "." + k);
  }

  // ---------------------------------------------------------------- roles and the route gate

  /** `collectPermissions(roleNames)`: a missing or empty role list gives {};
      otherwise the permissions of each role that has a stored document, in
      role order (a document without permissions counts as {}), are merged.
      `roleDocs` maps a role name to its stored document. */
  function CollectPermissions(roleNames: Option<seq<string>>, roleDocs: map<string, Value>): (r: FlagTree)
    ensures roleNames.None? || |roleNames.value| == 0 ==> r == []
  {
    if roleNames.None? || |roleNames.value| == 0 then []
    else MergeAll(RolePermissionSets(roleNames.value, roleDocs))
  }

  /** The permission objects of the roles that have a document. */
  function RolePermissionSets(roles: seq<string>, roleDocs: map<string, Value>): (sets: seq<Value>)
    ensures |sets| <= |roles|
  {
    if |roles| == 0 then []
    else
      var rest := RolePermissionSets(roles[..|roles| - 1], roleDocs);
      var r := roles[|roles| - 1];
      if r in roleDocs then
        var p := Member(roleDocs[r], "permissions");
        rest + [if p.Some? && Truthy(p.value) then p.value else JObj([])]
      else rest
  }

  /** A role without a stored document contributes nothing. */
  lemma CollectIgnoresMissingRole(roles: seq<string>, r: string, roleDocs: map<string, Value>)
    requires |roles| > 0 && r !in roleDocs
    ensures CollectPermissions(Some(roles + [r]), roleDocs) == CollectPermissions(Some(roles), roleDocs)
  {
    assert (roles + [r])[..|roles|] == roles;
  }

  /** A principal's flags are the union of its roles' flags. */
  lemma CollectIsUnionOfRoles(roles: seq<string>, roleDocs: map<string, Value>, g: string, k: string)
    ensures Flag(CollectPermissions(Some(roles), roleDocs), g, k) <==> AnySourceFlag(RolePermissionSets(roles, roleDocs), g, k)
  {
    MergeAllFlag(RolePermissionSets(roles, roleDocs), g, k);
    if |roles| == 0 {
      assert RolePermissionSets(roles, roleDocs) == [];
    }
  }

  /** The authenticated principal as the server sees it. */
  datatype Principal = Principal(
    uid: string,
    username: string,
    displayName: string,
    roles: seq<string>,
    permissions: Value)

  datatype Gate = Allow | Deny(error: string)

  /** The permissions `permit` checks: those the request carries when they
      are truthy, otherwise those collected from the roles. */
  function Effective(roles: seq<string>, permissions: Option<Value>, roleDocs: map<string, Value>): (r: Value)
    ensures Given(permissions) ==> r == permissions.value
  {
    if Given(permissions) then permissions.value else ToValue(CollectPermissions(Some(roles), roleDocs))
  }

  /** `permit(...paths)`: a principal without roles is refused with 'Sin rol';
      a route with no required path lets everyone else through; otherwise
      the principal passes when at least one path holds in its permissions
      (computed from the roles when the request carries none or a falsy
      value). There is no
      role-based override. */
  function Permit(roles: seq<string>, permissions: Option<Value>, paths: seq<string>, roleDocs: map<string, Value>): (r: Gate)
    ensures |roles| == 0 ==> r == Deny("Sin rol")
    ensures r.Deny? ==> r.error == "Sin rol" || r.error == "Permiso denegado"
  {
    var required := Filter(paths);
    if |roles| == 0 then Deny("Sin rol")
    else if |required| == 0 then Allow
    else
      var perms := Effective(roles, permissions, roleDocs);
      if exists i :: 0 <= i < |required| && HasPermission(perms, required[i]) then Allow
      else Deny("Permiso denegado")
  }

  /** `.filter(Boolean)` on the required paths. */
  function Filter(paths: seq<string>): (r: seq<string>)
    ensures forall p :: p in r <==> p in paths && p != ""
  {
    if |paths| == 0 then []
    else if paths[0] == "" then Filter(paths[1..])
    else [paths[0]] + Filter(paths[1..])
  }

  /** With roles, the gate is an any-of test: it allows exactly when no
      non-empty path is required or one of them holds. */
  lemma PermitIsAnyOf(roles: seq<string>, permissions: Option<Value>, paths: seq<string>, roleDocs: map<string, Value>)
    requires |roles| > 0
    ensures Permit(roles, permissions, paths, roleDocs) == Allow <==>
              (forall p :: p in paths ==> p == "")
              || exists p :: p in paths && HasPermission(Effective(roles, permissions, roleDocs), p)
  {
    var required := Filter(paths);
    if |required| == 0 {
      assert forall p :: p in paths ==> p == "";
    } else {
      assert required[0] in paths && required[0] != "";
      if exists p :: p in paths && HasPermission(Effective(roles, permissions, roleDocs), p) {
        var p :| p in paths && HasPermission(Effective(roles, permissions, roleDocs), p);
        assert p in required;
        var i :| 0 <= i < |required| && required[i] == p;
      }
    }
  }

  /** The admin role alone opens nothing: an admin without the flag is
      refused. */
  lemma AdminRoleGrantsNothing(g: string, k: string)
    requires g != "" && '.' !in g && '.' !in k
    ensures Permit(["admin"], Some(JObj([])), [g + "." + k], map[]) == Deny("Permiso denegado")
  {
    var path := g + "." + k;
    assert Filter([path]) == [path];
    MergedPermissionHolds([], g, k);
    assert ToValue(MergeAll([])) == JObj([]);
  }
}

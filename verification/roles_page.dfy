/** The role editor of the client: the matrix of permission flags shown as
    check boxes, filled from a stored role, toggled one box at a time, and
    turned into the permission object that is saved with the role. */
module RolesPage {
  import opened Common
  import opened Strings
  import opened Json
  import Permissions

  /** The flags of one group, in insertion order. */
  type Flags = seq<(string, bool)>

  /** The matrix: every group with its flags, in insertion order. */
  type Matrix = seq<(string, Flags)>

  /** `PERMISSION_GROUPS`: the groups and keys the editor shows. */
  const PermissionGroups: seq<(string, seq<string>)> := [
    ("users", ["manage"]),
    ("roles", ["manage"]),
    ("materials", ["read", "create", "update", "delete"]),
    ("tools", ["read", "create", "update", "delete"]),
    ("timesheets", ["submit", "read", "viewAll", "manage"]),
    ("hours", ["workorders", "clients"])]

  // ---------------------------------------------------------------- lookups

  /** The position of the first entry named `k`: a group of the matrix or
      a key of a group. */
  function FindName<V>(s: seq<(string, V)>, k: string): (r: Option<nat>)
    ensures r.Some? ==> r.value < |s| && s[r.value].0 == k && forall j :: 0 <= j < r.value ==> s[j].0 != k
    ensures r.None? ==> forall j :: 0 <= j < |s| ==> s[j].0 != k
  {
    if |s| == 0 then None
    else if s[0].0 == k then Some(0)
    else
      var r := FindName(s[1..], k);
      if r.None? then None else Some(r.value + 1)
  }

  /** `permissions[g]?.[k]`: `None` when the group or the key is missing. */
  function Lookup(m: Matrix, g: string, k: string): Option<bool> {
    match FindName(m, g)
    case None => None
    case Some(i) =>
      match FindName(m[i].1, k)
      case None => None
      case Some(j) => Some(m[i].1[j].1)
  }

  /** Object keys are distinct: group names, and the keys inside each group. */
  predicate WellFormed(m: Matrix) {
    (forall i, j :: 0 <= i < j < |m| ==> m[i].0 != m[j].0)
    && (forall i :: 0 <= i < |m| ==> DistinctKeys(m[i].1))
  }

  predicate DistinctKeys(f: Flags) {
    forall i, j :: 0 <= i < j < |f| ==> f[i].0 != f[j].0
  }

  // ---------------------------------------------------------------- writing one flag

  /** `flags[k] = b`: an existing key keeps its place, a new one goes last. */
  function PutFlag(f: Flags, k: string, b: bool): (r: Flags)
    ensures FindName(f, k).Some? ==> r == f[FindName(f, k).value := (k, b)]
    ensures FindName(f, k).None? ==> r == f + [(k, b)]
  {
    match FindName(f, k)
    case Some(j) => f[j := (k, b)]
    case None => f + [(k, b)]
  }

  /** `if (!m[g]) m[g] = {}; m[g][k] = b`. */
  function SetFlag(m: Matrix, g: string, k: string, b: bool): Matrix {
    match FindName(m, g)
    case Some(i) => m[i := (g, PutFlag(m[i].1, k, b))]
    case None => m + [(g, [(k, b)])]
  }

  /** Only the names decide where a name is found. */
  lemma {:induction false} FindNameSameNames<V>(f: seq<(string, V)>, f': seq<(string, V)>, k: string)
    requires |f| == |f'| && forall i :: 0 <= i < |f| ==> f[i].0 == f'[i].0
    ensures FindName(f, k) == FindName(f', k)
  {
    if |f| > 0 && f[0].0 != k {
      FindNameSameNames(f[1..], f'[1..], k);
    }
  }

  /** An entry added last is found only when no earlier entry has its name. */
  lemma {:induction false} FindNameSnoc<V>(f: seq<(string, V)>, e: (string, V), k: string)
    ensures FindName(f + [e], k) ==
      if FindName(f, k).Some? then FindName(f, k) else if e.0 == k then Some(|f|) else None
  {
    if |f| > 0 && f[0].0 != k {
      assert (f + [e])[1..] == f[1..] + [e];
      FindNameSnoc(f[1..], e, k);
    }
  }

  lemma FindKeyAfterPut(f: Flags, k: string, b: bool, k': string)
    ensures FindName(PutFlag(f, k, b), k') ==
      if FindName(f, k').Some? then FindName(f, k') else if k' == k then Some(|f|) else None
  {
    match FindName(f, k)
    case Some(j) =>
      FindNameSameNames(f, f[j := (k, b)], k');
    case None =>
      FindNameSnoc(f, (k, b), k');
  }

  /** Reading a flag after writing one. */
  lemma FlagAfterPut(f: Flags, k: string, b: bool, k': string)
    ensures var r := PutFlag(f, k, b);
      (FindName(r, k').Some? <==> FindName(f, k').Some? || k' == k)
      && (k' == k ==> r[FindName(r, k').value].1 == b)
      && (k' != k && FindName(f, k').Some? ==> r[FindName(r, k').value].1 == f[FindName(f, k').value].1)
  {
    FindKeyAfterPut(f, k, b, k');
  }

  /** Writing a flag sets that flag and leaves every other one as it was. */
  lemma {:induction false} LookupAfterSet(m: Matrix, g: string, k: string, b: bool, g': string, k': string)
    ensures Lookup(SetFlag(m, g, k, b), g', k') == if g' == g && k' == k then Some(b) else Lookup(m, g', k')
  {
    var r := SetFlag(m, g, k, b);
    match FindName(m, g)
    case Some(i) =>
      FindNameSameNames(m, r, g');
      if g' == g {
        FlagAfterPut(m[i].1, k, b, k');
      }
    case None =>
      FindNameSnoc(m, (g, [(k, b)]), g');
  }

  /** Writing a flag keeps the keys distinct. */
  lemma SetFlagWellFormed(m: Matrix, g: string, k: string, b: bool)
    requires WellFormed(m)
    ensures WellFormed(SetFlag(m, g, k, b))
  {
    match FindName(m, g)
    case Some(i) =>
      PutFlagDistinct(m[i].1, k, b);
    case None =>
      assert DistinctKeys([(k, b)]);
  }

  /** Setting a flag keeps the keys of a group distinct. */
  lemma PutFlagDistinct(f: Flags, k: string, b: bool)
    requires DistinctKeys(f)
    ensures DistinctKeys(PutFlag(f, k, b))
  {
    var f' := PutFlag(f, k, b);
    if FindName(f, k).None? {
      forall x, y | 0 <= x < y < |f'| ensures f'[x].0 != f'[y].0 {
        if y == |f| {
          assert f'[x] == f[x];
        }
      }
    }
  }

  // ---------------------------------------------------------------- the empty matrix

  /** The false flags of one group. */
  function FalseFlags(keys: seq<string>): (r: Flags)
    ensures |r| == |keys| && forall j :: 0 <= j < |r| ==> r[j] == (keys[j], false)
  {
    if |keys| == 0 then [] else [(keys[0], false)] + FalseFlags(keys[1..])
  }

  /** `createEmptyPermissions()`: every declared key of every declared group,
      set to false. */
  function EmptyMatrix(): (r: Matrix)
    ensures |r| == |PermissionGroups|
    ensures forall i :: 0 <= i < |r| ==> r[i] == (PermissionGroups[i].0, FalseFlags(PermissionGroups[i].1))
  {
    seq(|PermissionGroups|, i requires 0 <= i < |PermissionGroups| => (PermissionGroups[i].0, FalseFlags(PermissionGroups[i].1)))
  }

  /** Whether `PERMISSION_GROUPS` declares key `k` in group `g`. */
  predicate Declared(g: string, k: string) {
    exists i :: 0 <= i < |PermissionGroups| && PermissionGroups[i].0 == g && k in PermissionGroups[i].1
  }

  lemma DeclaredDistinct()
    ensures forall i, j :: 0 <= i < j < |PermissionGroups| ==> PermissionGroups[i].0 != PermissionGroups[j].0
    ensures forall i :: 0 <= i < |PermissionGroups| ==>
      forall x, y :: 0 <= x < y < |PermissionGroups[i].1| ==> PermissionGroups[i].1[x] != PermissionGroups[i].1[y]
  {
  }

  /** The empty matrix is well formed and holds false exactly at the
      declared flags. */
  lemma EmptyMatrixLookup(g: string, k: string)
    ensures WellFormed(EmptyMatrix())
    ensures Lookup(EmptyMatrix(), g, k) == if Declared(g, k) then Some(false) else None
  {
    var m := EmptyMatrix();
    DeclaredDistinct();
    var gi := FindName(m, g);
    if gi.Some? {
      var i := gi.value;
      var ki := FindName(m[i].1, k);
      if k in PermissionGroups[i].1 {
        var x :| 0 <= x < |PermissionGroups[i].1| && PermissionGroups[i].1[x] == k;
        assert m[i].1[x].0 == k;
      }
      if Declared(g, k) {
        var i' :| 0 <= i' < |PermissionGroups| && PermissionGroups[i'].0 == g && k in PermissionGroups[i'].1;
        assert i' == i;
      }
    }
  }

  // ---------------------------------------------------------------- mergePermissions

  /** `perms || {}`. */
  function OrEmpty(v: Value): Value {
    if Truthy(v) then v else JObj([])
  }

  /** The inner `forEach` of `mergePermissions` over the first `|keys|`
      entries of one group. */
  function MergeKeys(m: Matrix, g: string, keys: seq<(string, Value)>): Matrix {
    if |keys| == 0 then m
    else
      var last := keys[|keys| - 1];
      SetFlag(MergeKeys(m, g, keys[..|keys| - 1]), g, last.0, Truthy(last.1))
  }

  /** The outer `forEach` over the first `|groups|` entries. */
  function MergeGroups(m: Matrix, groups: seq<(string, Value)>): Matrix {
    if |groups| == 0 then m
    else
      var last := groups[|groups| - 1];
      MergeKeys(MergeGroups(m, groups[..|groups| - 1]), last.0, Permissions.Entries(OrEmpty(last.1)))
  }

  /** `mergePermissions(perm)` for a role's stored permissions (`JNull` when
      absent). */
  function MergeSpec(perm: Value): Matrix {
    MergeGroups(EmptyMatrix(), Permissions.Entries(OrEmpty(perm)))
  }

  /** `mergePermissions`, with its two `forEach` loops. */
  method MergePermissions(perm: Value) returns (base: Matrix)
    ensures base == MergeSpec(perm)
  {
    base := MergeAllGroups(EmptyMatrix(), Permissions.Entries(OrEmpty(perm)));
  }

  /** The outer `forEach` of `mergePermissions`: the groups in order. */
  method MergeAllGroups(start: Matrix, groups: seq<(string, Value)>) returns (base: Matrix)
    ensures base == MergeGroups(start, groups)
  {
    base := start;
    var i := 0;
    while i < |groups|
      invariant 0 <= i <= |groups|
      invariant base == MergeGroups(start, groups[..i])
    {
      base := MergeGroupKeys(base, groups[i].0, Permissions.Entries(OrEmpty(groups[i].1)));
      assert groups[..i + 1][..i] == groups[..i];
      i := i + 1;
    }
    assert groups[..|groups|] == groups;
  }

  /** The inner `forEach` of `mergePermissions`: one group's keys. */
  method MergeGroupKeys(start: Matrix, group: string, keys: seq<(string, Value)>) returns (base: Matrix)
    ensures base == MergeKeys(start, group, keys)
  {
    base := start;
    var j := 0;
    while j < |keys|
      invariant 0 <= j <= |keys|
      invariant base == MergeKeys(start, group, keys[..j])
    {
      assert keys[..j + 1][..j] == keys[..j];
      base := SetFlag(base, group, keys[j].0, Truthy(keys[j].1));
      j := j + 1;
    }
    assert keys[..|keys|] == keys;
  }

  /** The value the last entry for `k` gives, if any. */
  function Provided(keys: seq<(string, Value)>, k: string): Option<bool> {
    if |keys| == 0 then None
    else if keys[|keys| - 1].0 == k then Some(Truthy(keys[|keys| - 1].1))
    else Provided(keys[..|keys| - 1], k)
  }

  /** The value the last group entry that sets `g.k` gives, if any. */
  function ProvidedIn(groups: seq<(string, Value)>, g: string, k: string): Option<bool> {
    if |groups| == 0 then None
    else
      var last := groups[|groups| - 1];
      var p := Provided(Permissions.Entries(OrEmpty(last.1)), k);
      if last.0 == g && p.Some? then p else ProvidedIn(groups[..|groups| - 1], g, k)
  }

  lemma {:induction false} MergeKeysLookup(m: Matrix, g: string, keys: seq<(string, Value)>, g': string, k': string)
    ensures Lookup(MergeKeys(m, g, keys), g', k') ==
      if g' == g && Provided(keys, k').Some? then Provided(keys, k') else Lookup(m, g', k')
  {
    if |keys| > 0 {
      var last := keys[|keys| - 1];
      MergeKeysLookup(m, g, keys[..|keys| - 1], g', k');
      LookupAfterSet(MergeKeys(m, g, keys[..|keys| - 1]), g, last.0, Truthy(last.1), g', k');
    }
  }

  lemma {:induction false} MergeGroupsLookup(m: Matrix, groups: seq<(string, Value)>, g: string, k: string)
    ensures Lookup(MergeGroups(m, groups), g, k) ==
      if ProvidedIn(groups, g, k).Some? then ProvidedIn(groups, g, k) else Lookup(m, g, k)
  {
    if |groups| > 0 {
      var last := groups[|groups| - 1];
      MergeGroupsLookup(m, groups[..|groups| - 1], g, k);
      MergeKeysLookup(MergeGroups(m, groups[..|groups| - 1]), last.0, Permissions.Entries(OrEmpty(last.1)), g, k);
    }
  }

  /** Reading a merged matrix: a flag the stored permissions set reads as
      the truthiness of the last value given for it, even in a group or
      under a key the editor does not declare; any other declared flag reads
      false; anything else is absent. */
  lemma MergeLookup(perm: Value, g: string, k: string)
    ensures var p := ProvidedIn(Permissions.Entries(OrEmpty(perm)), g, k);
      Lookup(MergeSpec(perm), g, k) == if p.Some? then p else if Declared(g, k) then Some(false) else None
  {
    MergeGroupsLookup(EmptyMatrix(), Permissions.Entries(OrEmpty(perm)), g, k);
    EmptyMatrixLookup(g, k);
  }

  lemma {:induction false} MergeKeysWellFormed(m: Matrix, g: string, keys: seq<(string, Value)>)
    requires WellFormed(m)
    ensures WellFormed(MergeKeys(m, g, keys))
  {
    if |keys| > 0 {
      var last := keys[|keys| - 1];
      MergeKeysWellFormed(m, g, keys[..|keys| - 1]);
      SetFlagWellFormed(MergeKeys(m, g, keys[..|keys| - 1]), g, last.0, Truthy(last.1));
    }
  }

  lemma {:induction false} MergeGroupsWellFormed(m: Matrix, groups: seq<(string, Value)>)
    requires WellFormed(m)
    ensures WellFormed(MergeGroups(m, groups))
  {
    if |groups| > 0 {
      var last := groups[|groups| - 1];
      MergeGroupsWellFormed(m, groups[..|groups| - 1]);
      MergeKeysWellFormed(MergeGroups(m, groups[..|groups| - 1]), last.0, Permissions.Entries(OrEmpty(last.1)));
    }
  }

  /** A merged matrix has distinct groups and keys. */
  lemma MergeWellFormed(perm: Value)
    ensures WellFormed(MergeSpec(perm))
  {
    EmptyMatrixLookup("", "");
    MergeGroupsWellFormed(EmptyMatrix(), Permissions.Entries(OrEmpty(perm)));
  }

  // ---------------------------------------------------------------- onToggle

  /** `onToggle(g, k)`: the flag becomes the negation of what it was (a
      missing key counts as unset). The group must exist: the editor only
      shows declared groups, which every matrix it builds contains. */
  function Toggle(m: Matrix, g: string, k: string): Matrix
    requires FindName(m, g).Some?
  {
    SetFlag(m, g, k, Lookup(m, g, k) != Some(true))
  }

  /** Toggling flips exactly one flag. */
  lemma ToggleLookup(m: Matrix, g: string, k: string, g': string, k': string)
    requires FindName(m, g).Some?
    ensures Lookup(Toggle(m, g, k), g', k') ==
      if g' == g && k' == k then Some(Lookup(m, g, k) != Some(true)) else Lookup(m, g', k')
  {
    LookupAfterSet(m, g, k, Lookup(m, g, k) != Some(true), g', k');
  }

  /** Toggling a flag that is present twice gives back the same matrix. */
  lemma ToggleTwice(m: Matrix, g: string, k: string)
    requires Lookup(m, g, k).Some?
    ensures FindName(Toggle(m, g, k), g).Some?
    ensures Toggle(Toggle(m, g, k), g, k) == m
  {
    var i := FindName(m, g).value;
    var f := m[i].1;
    var j := FindName(f, k).value;
    var b := f[j].1;
    var m1 := Toggle(m, g, k);
    assert m1 == m[i := (g, f[j := (k, !b)])];
    FindNameSameNames(m, m1, g);
    var f1 := f[j := (k, !b)];
    assert FindName(f1, k) == Some(j) by {
      FindKeyAfterPut(f, k, !b, k);
    }
    assert Lookup(m1, g, k) == Some(!b);
    assert f1[j := (k, b)] == f;
    assert m1[i := (g, f)] == m;
  }

  // ---------------------------------------------------------------- payload

  /** The keys set in one group, in order. */
  function TrueKeys(f: Flags): seq<string> {
    if |f| == 0 then []
    else TrueKeys(f[..|f| - 1]) + (if f[|f| - 1].1 then [f[|f| - 1].0] else [])
  }

  /** The groups with at least one key set, with those keys. */
  function Enabled(m: Matrix): Permissions.FlagTree {
    if |m| == 0 then []
    else
      var keys := TrueKeys(m[|m| - 1].1);
      Enabled(m[..|m| - 1]) + (if |keys| > 0 then [(m[|m| - 1].0, keys)] else [])
  }

  /** `payload`: only set flags, only groups with one, as the object the
      server stores for the role. */
  function Payload(m: Matrix): Value {
    Permissions.ToValue(Enabled(m))
  }

  /** The `payload` memo, with its `forEach` and `reduce` loops. */
  method BuildPayload(m: Matrix) returns (r: Value)
    ensures r == Payload(m)
  {
    var clean: Permissions.FlagTree := [];
    for i := 0 to |m|
      invariant clean == Enabled(m[..i])
    {
      var flags := m[i].1;
      var enabled: seq<string> := [];
      for j := 0 to |flags|
        invariant enabled == TrueKeys(flags[..j])
      {
        assert flags[..j + 1][..j] == flags[..j];
        if flags[j].1 {
          enabled := enabled + [flags[j].0];
        }
      }
      assert flags[..|flags|] == flags;
      assert m[..i + 1][..i] == m[..i];
      if |enabled| > 0 {
        clean := clean + [(m[i].0, enabled)];
      }
    }
    assert m[..|m|] == m;
    r := Permissions.ToValue(clean);
  }

  lemma {:induction false} TrueKeysIff(f: Flags, k: string)
    requires DistinctKeys(f)
    ensures k in TrueKeys(f) <==> FindName(f, k).Some? && f[FindName(f, k).value].1
  {
    if |f| > 0 {
      var init := f[..|f| - 1];
      assert DistinctKeys(init);
      TrueKeysIff(init, k);
      var a := FindName(f, k);
      var b := FindName(init, k);
      if b.Some? {
        assert f[b.value] == init[b.value];
        assert a == b;
      } else if f[|f| - 1].0 == k {
        assert a == Some(|f| - 1);
      } else {
        assert a.None?;
      }
    }
  }

  /** Every enabled group has a key and is a group of the matrix, and the
      enabled groups are distinct when the matrix groups are. */
  lemma {:induction false} EnabledShape(m: Matrix)
    ensures forall i :: 0 <= i < |Enabled(m)| ==> |Enabled(m)[i].1| > 0
    ensures forall i :: 0 <= i < |Enabled(m)| ==> exists j :: 0 <= j < |m| && m[j].0 == Enabled(m)[i].0
    ensures WellFormed(m) ==> Permissions.WellFormed(Enabled(m))
  {
    if |m| > 0 {
      var init := m[..|m| - 1];
      var last := m[|m| - 1];
      EnabledShape(init);
      var e := Enabled(init);
      var keys := TrueKeys(last.1);
      var r := Enabled(m);
      assert r == e + (if |keys| > 0 then [(last.0, keys)] else []);
      forall i | 0 <= i < |r|
        ensures exists j :: 0 <= j < |m| && m[j].0 == r[i].0
      {
        if i < |e| {
          var j :| 0 <= j < |init| && init[j].0 == e[i].0;
          assert m[j] == init[j] && r[i] == e[i];
        } else {
          assert m[|m| - 1].0 == r[i].0;
        }
      }
      if WellFormed(m) {
        assert WellFormed(init);
        forall x, y | 0 <= x < y < |r| ensures r[x].0 != r[y].0 {
          if y == |e| {
            var j :| 0 <= j < |init| && init[j].0 == e[x].0;
            assert m[j].0 == r[x].0;
          }
        }
      }
    } else {
      assert Enabled(m) == [];
    }
  }

  lemma FlagSnoc(t: Permissions.FlagTree, e: (string, seq<string>), g: string, k: string)
    ensures Permissions.Flag(t + [e], g, k) <==> Permissions.Flag(t, g, k) || (e.0 == g && k in e.1)
  {
    var r := t + [e];
    if Permissions.Flag(r, g, k) {
      var i :| 0 <= i < |r| && r[i].0 == g && k in r[i].1;
      if i < |t| {
        assert t[i] == r[i];
      }
    }
    if Permissions.Flag(t, g, k) {
      var i :| 0 <= i < |t| && t[i].0 == g && k in t[i].1;
      assert r[i] == t[i];
    }
    if e.0 == g && k in e.1 {
      assert r[|t|] == e;
    }
  }

  lemma LookupSnoc(init: Matrix, last: (string, Flags), g: string, k: string)
    ensures Lookup(init + [last], g, k) ==
      if FindName(init, g).Some? then Lookup(init, g, k)
      else if last.0 == g then (if FindName(last.1, k).Some? then Some(last.1[FindName(last.1, k).value].1) else None)
      else None
  {
    FindNameSnoc(init, last, g);
    if FindName(init, g).Some? {
      assert (init + [last])[FindName(init, g).value] == init[FindName(init, g).value];
    }
  }

  /** A flag is in the enabled tree exactly when it is set in the matrix. */
  lemma {:induction false} EnabledFlag(m: Matrix, g: string, k: string)
    requires WellFormed(m)
    ensures Permissions.Flag(Enabled(m), g, k) <==> Lookup(m, g, k) == Some(true)
  {
    if |m| > 0 {
      var init := m[..|m| - 1];
      var last := m[|m| - 1];
      assert init + [last] == m;
      assert WellFormed(init);
      EnabledFlag(init, g, k);
      var e := Enabled(init);
      var keys := TrueKeys(last.1);
      TrueKeysIff(last.1, k);
      LookupSnoc(init, last, g, k);
      if |keys| > 0 {
        FlagSnoc(e, (last.0, keys), g, k);
      } else {
        assert Enabled(m) == e;
      }
      if FindName(init, g).Some? {
        assert last.0 != g by {
          var i := FindName(init, g).value;
          assert m[i].0 == g && i < |m| - 1;
        }
      }
    }
  }

  /** The saved role grants "g.k" exactly when box k of group g is ticked
      (for group and key names without '.'). A group with nothing ticked is
      left out of the payload. */
  lemma PayloadGrants(m: Matrix, g: string, k: string)
    requires WellFormed(m)
    requires g != "" && '.' !in g && '.' !in k
    ensures Permissions.HasPermission(Payload(m), g + "." + k) <==> Lookup(m, g, k) == Some(true)
    ensures forall i :: 0 <= i < |Enabled(m)| ==> |Enabled(m)[i].1| > 0
  {
    EnabledShape(m);
    EnabledFlag(m, g, k);
    assert forall j :: 0 <= j < |g| ==> g[j] != '.';
    assert forall j :: 0 <= j < |k| ==> k[j] != '.';
    SplitJoin([g, k], '.');
    assert Join([g, k], ".") == g + "." + k;
    Permissions.HasPermissionInTree(Enabled(m), g + "." + k);
  }

  lemma {:induction false} TrueKeysNone(f: Flags)
    requires forall j :: 0 <= j < |f| ==> !f[j].1
    ensures TrueKeys(f) == []
  {
    if |f| > 0 {
      TrueKeysNone(f[..|f| - 1]);
    }
  }

  lemma {:induction false} EnabledNone(m: Matrix)
    requires forall i :: 0 <= i < |m| ==> forall j :: 0 <= j < |m[i].1| ==> !m[i].1[j].1
    ensures Enabled(m) == []
  {
    if |m| > 0 {
      EnabledNone(m[..|m| - 1]);
      TrueKeysNone(m[|m| - 1].1);
    }
  }

  /** A new role with nothing ticked saves the empty object. */
  lemma EmptyPayload()
    ensures Payload(EmptyMatrix()) == JObj([])
  {
    EnabledNone(EmptyMatrix());
  }

  lemma {:induction false} ProvidedKeys(keys: seq<string>, k: string)
    ensures Provided(Permissions.KeysValue(keys).fields, k) == if k in keys then Some(true) else None
  {
    if |keys| > 0 {
      var init := keys[..|keys| - 1];
      assert Permissions.KeysValue(keys).fields[..|keys| - 1] == Permissions.KeysValue(init).fields;
      ProvidedKeys(init, k);
      assert keys == init + [keys[|keys| - 1]];
    }
  }

  lemma {:induction false} ProvidedInTree(t: Permissions.FlagTree, g: string, k: string)
    ensures ProvidedIn(Permissions.ToValue(t).fields, g, k) == if Permissions.Flag(t, g, k) then Some(true) else None
  {
    if |t| > 0 {
      var init := t[..|t| - 1];
      var last := t[|t| - 1];
      assert Permissions.ToValue(t).fields[..|t| - 1] == Permissions.ToValue(init).fields;
      ProvidedInTree(init, g, k);
      ProvidedKeys(last.1, k);
      FlagSnoc(init, last, g, k);
      assert init + [last] == t;
    }
  }

  /** Opening a saved role again ticks exactly the boxes that were ticked
      when it was saved; every other declared box shows unticked. */
  lemma ReopenSaved(m: Matrix, g: string, k: string)
    requires WellFormed(m)
    ensures Lookup(MergeSpec(Payload(m)), g, k) == Some(true) <==> Lookup(m, g, k) == Some(true)
    ensures Lookup(m, g, k) != Some(true) && Declared(g, k) ==> Lookup(MergeSpec(Payload(m)), g, k) == Some(false)
  {
    MergeLookup(Payload(m), g, k);
    ProvidedInTree(Enabled(m), g, k);
    EnabledFlag(m, g, k);
  }

  // ---------------------------------------------------------------- saving

  /** `onSave`: a blank name is refused with a message and nothing is sent;
      otherwise the trimmed name and the payload are posted. */
  function Save(formName: string, m: Matrix): (r: Result<(string, Value), string>)
    ensures r.Err? <==> Trim(formName) == ""
    ensures r.Err? ==> r.error == "Indica un nombre para el rol"
    ensures r.Ok? ==> r.value.0 == Trim(formName) && r.value.0 != "" && r.value.0 == Trim(r.value.0) && r.value.1 == Payload(m)
  {
    var name := Trim(formName);
    if name == "" then Err("Indica un nombre para el rol")
    else
      TrimIdempotent(formName);
      Ok((name, Payload(m)))
  }
}

/** The home page of the client: the shortcut actions a user may open,
    grouped in sections shown in a fixed order, and the first name used in
    the greeting. */
module Dashboard {
  import opened Common
  import opened Strings
  import opened Sorting
  import opened Json
  import Lists
  import ClientAuth

  /** A shortcut of the home page; `caption` is its label (the description is
      left out). */
  datatype Action = Action(key: string, caption: string, path: string, perm: string, section: string)

  /** A section as the page shows it. */
  datatype Section = Section(name: string, items: seq<Action>)

  /** The shortcuts in declaration order. */
  const Actions: seq<Action> := [
    Action("materials.new", "Ingresar material", "/stock/nuevo", "materials.create", "Stock"),
    Action("materials.egress", "Egreso de material", "/stock/egreso", "materials.update", "Stock"),
    Action("tools.new", "Ingresar herramienta", "/tools/nueva", "tools.create", "Herramientas"),
    Action("tools.movement", "Movimiento de herramienta", "/tools/movimiento", "tools.read", "Herramientas"),
    Action("hours.entry", "Carga Horaria", "/horas/carga", "timesheets.submit", "Horas"),
    Action("hours.inventory", "Inventario General horas", "/horas/inventario", "timesheets.read", "Horas"),
    Action("hours.summary", "Horas Trabajadas", "/horas/usuarios", "timesheets.read", "Horas"),
    Action("admin.users", "Gestion usuarios", "/admin/usuarios", "users.manage", "Administracion"),
    Action("admin.roles", "Gestion roles", "/admin/roles", "roles.manage", "Administracion"),
    Action("movements", "Movimientos", "/movimientos", "admin", "Administracion")
  ]

  const SectionOrder: seq<string> := ["Stock", "Herramientas", "Horas", "Administracion"]

  /** The keys the visibility rule always lets through. */
  const BaseKeys: seq<string> := ["materials.egress", "tools.movement", "hours.inventory", "hours.summary", "hours.entry"]

  // ---------------------------------------------------------------- which actions are shown

  /** The permission test: the pseudo-permission "admin" asks for the
      administrator role, any other path goes to `userHasPermission`.
      `admin` and `has` are those two answers for the signed-in user. */
  predicate PermissionPasses(a: Action, admin: bool, has: string -> bool) {
    if a.perm == "admin" then admin else has(a.perm)
  }

  /** The visibility rule by key. */
  predicate RulePasses(key: string, has: string -> bool) {
    if key in BaseKeys then true
    else if key == "materials.new" then has("materials.create") && !has("materials.read")
    else if key == "materials.egress" then has("materials.update") || has("materials.read")
    else if key == "tools.new" then has("tools.create") && !has("tools.read")
    else false
  }

  /** The two filters of the page, in order. */
  function Allowed(actions: seq<Action>, admin: bool, has: string -> bool): (r: seq<Action>)
    ensures forall a :: a in r <==> a in actions && PermissionPasses(a, admin, has) && RulePasses(a.key, has)
    ensures |r| <= |actions|
  {
    var permitted := Lists.Filter(actions, (a: Action) => PermissionPasses(a, admin, has));
    Lists.Filter(permitted, (a: Action) => RulePasses(a.key, has))
  }

  /** The two creation pages are offered only to users who may create and
      may not read; the base pages only need their permission. */
  lemma CreationNeedsNoRead(actions: seq<Action>, admin: bool, has: string -> bool, a: Action)
    requires a in Allowed(actions, admin, has)
    ensures a.key == "materials.new" ==> has("materials.create") && !has("materials.read")
    ensures a.key == "tools.new" ==> has("tools.create") && !has("tools.read")
  {
    assert "materials.new"[10] != "materials.egress"[10];
    assert "materials.new" !in BaseKeys;
    assert "tools.new" !in BaseKeys;
  }

  /** A base action is shown exactly when its permission passes. */
  lemma BaseKeyShown(admin: bool, has: string -> bool, a: Action)
    requires a in Actions && a.key in BaseKeys
    ensures a in Allowed(Actions, admin, has) <==> PermissionPasses(a, admin, has)
  {
  }

  /** No administration shortcut passes the visibility rule, so the
      "Administracion" section is never shown, whatever the user holds. */
  lemma AdministrationNeverShown(admin: bool, has: string -> bool)
    ensures forall a :: a in Allowed(Actions, admin, has) ==> a.section != "Administracion"
  {
    forall a | a in Actions && a.section == "Administracion"
      ensures !RulePasses(a.key, has)
    {
      var i :| 0 <= i < |Actions| && Actions[i] == a;
      assert 7 <= i;
      assert a.key[0] != 'h' && a.key[0] != 't';
      assert a.key !in BaseKeys;
    }
  }

  // ---------------------------------------------------------------- grouping by section

  /** `action.section || "General"`. */
  function SectionOf(a: Action): string {
    if a.section != "" then a.section else "General"
  }

  /** The actions of one section, in order. */
  function Members(s: seq<Action>, name: string): (r: seq<Action>)
    ensures forall a :: a in r <==> a in s && SectionOf(a) == name
    decreases |s|
  {
    if |s| == 0 then []
    else Members(s[..|s| - 1], name) + (if SectionOf(s[|s| - 1]) == name then [s[|s| - 1]] else [])
  }

  /** The position of a section among the groups built so far. */
  function IndexOf(groups: seq<(string, seq<Action>)>, name: string): (r: Option<nat>)
    ensures r.Some? ==> r.value < |groups| && groups[r.value].0 == name
    ensures r.None? ==> forall i :: 0 <= i < |groups| ==> groups[i].0 != name
  {
    if |groups| == 0 then None
    else if groups[0].0 == name then Some(0)
    else match IndexOf(groups[1..], name)
      case None => None
      case Some(i) => Some(i + 1)
  }

  /** One step of the `reduce`: the action joins its section, which is
      opened at the end when it is new. */
  function AddAction(groups: seq<(string, seq<Action>)>, a: Action): seq<(string, seq<Action>)> {
    match IndexOf(groups, SectionOf(a))
    case Some(i) => groups[i := (groups[i].0, groups[i].1 + [a])]
    case None => groups + [(SectionOf(a), [a])]
  }

  /** The `reduce` into an object; its entries come in insertion order. */
  function Group(s: seq<Action>): seq<(string, seq<Action>)>
    decreases |s|
  {
    if |s| == 0 then [] else AddAction(Group(s[..|s| - 1]), s[|s| - 1])
  }

  /** Each section appears once. */
  predicate DistinctNames(g: seq<(string, seq<Action>)>) {
    forall i, j :: 0 <= i < j < |g| ==> g[i].0 != g[j].0
  }

  /** Each section holds exactly the actions of `s` of that section. */
  predicate HoldMembers(s: seq<Action>, g: seq<(string, seq<Action>)>) {
    forall i :: 0 <= i < |g| ==> g[i].1 == Members(s, g[i].0) && g[i].1 != []
  }

  /** Every action of `s` has its section. */
  ghost predicate Covers(s: seq<Action>, g: seq<(string, seq<Action>)>) {
    forall a :: a in s ==> exists i :: 0 <= i < |g| && g[i].0 == SectionOf(a)
  }

  /** What `Group` promises about the groups of `s`. */
  ghost predicate GroupedBy(s: seq<Action>, g: seq<(string, seq<Action>)>) {
    DistinctNames(g) && HoldMembers(s, g) && Covers(s, g)
  }

  lemma MembersSnoc(s: seq<Action>, a: Action, n: string)
    ensures Members(s + [a], n) == Members(s, n) + (if SectionOf(a) == n then [a] else [])
  {
    assert (s + [a])[..|s|] == s;
  }

  lemma {:induction false} MembersNone(s: seq<Action>, n: string)
    requires forall a :: a in s ==> SectionOf(a) != n
    ensures Members(s, n) == []
    decreases |s|
  {
    if |s| > 0 {
      MembersNone(s[..|s| - 1], n);
    }
  }

  lemma KnownMembers(s: seq<Action>, g: seq<(string, seq<Action>)>, a: Action, i: nat)
    requires DistinctNames(g) && HoldMembers(s, g)
    requires i < |g| && g[i].0 == SectionOf(a)
    ensures HoldMembers(s + [a], g[i := (g[i].0, g[i].1 + [a])])
  {
    var g' := g[i := (g[i].0, g[i].1 + [a])];
    forall k | 0 <= k < |g'|
      ensures g'[k].1 == Members(s + [a], g'[k].0) && g'[k].1 != []
    {
      MembersSnoc(s, a, g'[k].0);
    }
  }

  lemma KnownCovers(s: seq<Action>, g: seq<(string, seq<Action>)>, a: Action, i: nat)
    requires Covers(s, g)
    requires i < |g| && g[i].0 == SectionOf(a)
    ensures Covers(s + [a], g[i := (g[i].0, g[i].1 + [a])])
  {
    var g' := g[i := (g[i].0, g[i].1 + [a])];
    forall x | x in s + [a]
      ensures exists k :: 0 <= k < |g'| && g'[k].0 == SectionOf(x)
    {
      if x != a {
        assert x in s;
        var k :| 0 <= k < |g| && g[k].0 == SectionOf(x);
        assert g'[k].0 == g[k].0;
      } else {
        assert g'[i].0 == SectionOf(x);
      }
    }
  }

  /** An action of a known section joins it. */
  lemma AddToKnown(s: seq<Action>, g: seq<(string, seq<Action>)>, a: Action, i: nat)
    requires GroupedBy(s, g)
    requires i < |g| && g[i].0 == SectionOf(a)
    ensures GroupedBy(s + [a], g[i := (g[i].0, g[i].1 + [a])])
  {
    KnownMembers(s, g, a, i);
    KnownCovers(s, g, a, i);
  }

  lemma NewMembers(s: seq<Action>, g: seq<(string, seq<Action>)>, a: Action)
    requires HoldMembers(s, g) && Covers(s, g)
    requires forall i :: 0 <= i < |g| ==> g[i].0 != SectionOf(a)
    ensures HoldMembers(s + [a], g + [(SectionOf(a), [a])])
  {
    var g' := g + [(SectionOf(a), [a])];
    forall x | x in s
      ensures SectionOf(x) != SectionOf(a)
    {
      var k :| 0 <= k < |g| && g[k].0 == SectionOf(x);
    }
    MembersNone(s, SectionOf(a));
    forall k | 0 <= k < |g'|
      ensures g'[k].1 == Members(s + [a], g'[k].0) && g'[k].1 != []
    {
      MembersSnoc(s, a, g'[k].0);
    }
  }

  lemma NewCovers(s: seq<Action>, g: seq<(string, seq<Action>)>, a: Action)
    requires Covers(s, g)
    ensures Covers(s + [a], g + [(SectionOf(a), [a])])
  {
    var g' := g + [(SectionOf(a), [a])];
    forall x | x in s + [a]
      ensures exists k :: 0 <= k < |g'| && g'[k].0 == SectionOf(x)
    {
      if x != a {
        assert x in s;
        var k :| 0 <= k < |g| && g[k].0 == SectionOf(x);
        assert g'[k] == g[k];
      } else {
        assert g'[|g|].0 == SectionOf(x);
      }
    }
  }

  /** An action of a new section opens it at the end. */
  lemma AddToNew(s: seq<Action>, g: seq<(string, seq<Action>)>, a: Action)
    requires GroupedBy(s, g)
    requires forall i :: 0 <= i < |g| ==> g[i].0 != SectionOf(a)
    ensures GroupedBy(s + [a], g + [(SectionOf(a), [a])])
  {
    NewMembers(s, g, a);
    NewCovers(s, g, a);
  }

  /** Each section appears once, holds exactly the actions of that section
      in their order, and every action has its section. */
  lemma {:induction false} GroupSpec(s: seq<Action>)
    ensures GroupedBy(s, Group(s))
    decreases |s|
  {
    if |s| > 0 {
      var init := s[..|s| - 1];
      var a := s[|s| - 1];
      GroupSpec(init);
      assert s == init + [a];
      match IndexOf(Group(init), SectionOf(a))
      case Some(i) => AddToKnown(init, Group(init), a, i);
      case None => AddToNew(init, Group(init), a);
    }
  }

  // ---------------------------------------------------------------- ordering

  /** `list.indexOf(x)`. */
  function Position(list: seq<string>, x: string): (r: int)
    ensures -1 <= r < |list|
    ensures r == -1 <==> x !in list
    ensures r >= 0 ==> list[r] == x && x !in list[..r]
  {
    if |list| == 0 then -1
    else if list[0] == x then 0
    else
      var p := Position(list[1..], x);
      assert p >= 0 ==> list[1..][..p] == list[1..p + 1];
      if p == -1 then -1 else p + 1
  }

  /** The section comparator: known sections in their fixed order, then the
      others alphabetically. */
  predicate SectionLe(a: string, b: string) {
    var ai := Position(SectionOrder, a);
    var bi := Position(SectionOrder, b);
    if ai == -1 && bi == -1 then LexLe(a, b)
    else if ai == -1 then false
    else if bi == -1 then true
    else ai <= bi
  }

  predicate GroupLe(x: (string, seq<Action>), y: (string, seq<Action>)) {
    SectionLe(x.0, y.0)
  }

  lemma GroupLeTotalPreorder()
    ensures TotalPreorder(GroupLe)
  {
    forall x: (string, seq<Action>), y: (string, seq<Action>) ensures GroupLe(x, y) || GroupLe(y, x) {
      LexLeTotal(x.0, y.0);
    }
    forall x: (string, seq<Action>), y: (string, seq<Action>), z: (string, seq<Action>) | GroupLe(x, y) && GroupLe(y, z)
      ensures GroupLe(x, z)
    {
      if LexLe(x.0, y.0) && LexLe(y.0, z.0) {
        LexLeTrans(x.0, y.0, z.0);
      }
    }
  }

  /** The fixed key order of a section, when it has one. */
  function ItemOrder(name: string): Option<seq<string>> {
    if name == "Stock" then Some(["materials.new", "materials.egress"])
    else if name == "Herramientas" then Some(["tools.new", "tools.movement"])
    else None
  }

  /** The rank of a key in a fixed order, missing keys last. */
  function Rank(order: seq<string>, key: string): nat {
    var p := Position(order, key);
    if p == -1 then |order| else p
  }

  /** The item comparator: by fixed rank and then label where the section
      has an order, by label alone otherwise. */
  predicate ItemLe(order: Option<seq<string>>, x: Action, y: Action) {
    match order
    case None => LexLe(x.caption, y.caption)
    case Some(o) => Rank(o, x.key) < Rank(o, y.key) || (Rank(o, x.key) == Rank(o, y.key) && LexLe(x.caption, y.caption))
  }

  function ItemLeOf(name: string): (Action, Action) -> bool {
    (x: Action, y: Action) => ItemLe(ItemOrder(name), x, y)
  }

  lemma ItemLeTotalPreorder(name: string)
    ensures TotalPreorder(ItemLeOf(name))
  {
    var le := ItemLeOf(name);
    forall x: Action, y: Action ensures le(x, y) || le(y, x) {
      LexLeTotal(x.caption, y.caption);
    }
    forall x: Action, y: Action, z: Action | le(x, y) && le(y, z)
      ensures le(x, z)
    {
      if LexLe(x.caption, y.caption) && LexLe(y.caption, z.caption) {
        LexLeTrans(x.caption, y.caption, z.caption);
      }
    }
  }

  /** The groups of the shown actions, in section order. */
  function OrderedGroups(actions: seq<Action>, admin: bool, has: string -> bool): seq<(string, seq<Action>)> {
    SortBy(Group(Allowed(actions, admin, has)), GroupLe)
  }

  /** Reordering the groups keeps what `Group` promises. */
  lemma ReorderedGroups(s: seq<Action>, g: seq<(string, seq<Action>)>, groups: seq<(string, seq<Action>)>)
    requires GroupedBy(s, g) && multiset(groups) == multiset(g)
    ensures GroupedBy(s, groups)
  {
    assert forall i :: 0 <= i < |groups| ==> groups[i] in multiset(g);
    assert Lists.NoRepeats(g) by {
      forall i, j | 0 <= i < j < |g| ensures g[i] != g[j] {
        assert g[i].0 != g[j].0;
      }
    }
    Lists.NoRepeatsPermutation(g, groups);
    forall i, j | 0 <= i < j < |groups|
      ensures groups[i].0 != groups[j].0
    {
      assert groups[i] in multiset(g) && groups[j] in multiset(g);
      assert groups[i] != groups[j];
    }
    forall a | a in s
      ensures exists i :: 0 <= i < |groups| && groups[i].0 == SectionOf(a)
    {
      var k :| 0 <= k < |g| && g[k].0 == SectionOf(a);
      assert g[k] in multiset(groups);
      var i :| 0 <= i < |groups| && groups[i] == g[k];
    }
  }

  /** The ordered groups are the groups in section order: each appears once
      and holds exactly the shown actions of its section. */
  lemma OrderedGroupsSpec(actions: seq<Action>, admin: bool, has: string -> bool)
    ensures SortedBy(OrderedGroups(actions, admin, has), GroupLe)
    ensures GroupedBy(Allowed(actions, admin, has), OrderedGroups(actions, admin, has))
  {
    var allowed := Allowed(actions, admin, has);
    var g := Group(allowed);
    GroupSpec(allowed);
    GroupLeTotalPreorder();
    SortBySorted(g, GroupLe);
    ReorderedGroups(allowed, g, SortBy(g, GroupLe));
  }

  /** The sections of the page for the given answers of the two permission
      tests. */
  function Sections(actions: seq<Action>, admin: bool, has: string -> bool): seq<Section> {
    var groups := OrderedGroups(actions, admin, has);
    seq(|groups|, i requires 0 <= i < |groups| => Section(groups[i].0, SortBy(groups[i].1, ItemLeOf(groups[i].0))))
  }

  /** Sections come in the fixed order (unknown ones after, alphabetically)
      and each appears once; every shown action is in its section and each
      section holds exactly its shown actions, in its item order. */
  lemma SectionsProperties(actions: seq<Action>, admin: bool, has: string -> bool)
    ensures var r := Sections(actions, admin, has);
      (forall i, j :: 0 <= i < j < |r| ==> SectionLe(r[i].name, r[j].name) && r[i].name != r[j].name)
      && (forall i :: 0 <= i < |r| ==>
            SortedBy(r[i].items, ItemLeOf(r[i].name)) && r[i].items != []
            && multiset(r[i].items) == multiset(Members(Allowed(actions, admin, has), r[i].name)))
      && (forall a :: a in Allowed(actions, admin, has) ==> exists i :: 0 <= i < |r| && r[i].name == SectionOf(a))
  {
    OrderedGroupsSpec(actions, admin, has);
    var groups := OrderedGroups(actions, admin, has);
    var r := Sections(actions, admin, has);
    forall i, j | 0 <= i < j < |r|
      ensures SectionLe(r[i].name, r[j].name) && r[i].name != r[j].name
    {
      assert GroupLe(groups[i], groups[j]);
    }
    forall i | 0 <= i < |r|
      ensures SortedBy(r[i].items, ItemLeOf(r[i].name)) && r[i].items != []
      ensures multiset(r[i].items) == multiset(Members(Allowed(actions, admin, has), r[i].name))
    {
      ItemLeTotalPreorder(groups[i].0);
      SortBySorted(groups[i].1, ItemLeOf(groups[i].0));
      assert |r[i].items| == |groups[i].1|;
    }
    forall a | a in Allowed(actions, admin, has)
      ensures exists i :: 0 <= i < |r| && r[i].name == SectionOf(a)
    {
      var i :| 0 <= i < |groups| && groups[i].0 == SectionOf(a);
      assert r[i].name == SectionOf(a);
    }
  }

  /** The sections for the signed-in user; `None` when the roles value makes
      the permission helpers throw. */
  function SectionsFor(user: Option<ClientAuth.ClientUser>): (r: Option<seq<Section>>)
    ensures r.None? <==> ClientAuth.UserIsAdmin(user).None?
  {
    match ClientAuth.UserIsAdmin(user)
    case None => None
    case Some(admin) => Some(Sections(Actions, admin, (p: string) => ClientAuth.UserHasPermission(p, user) == Some(true)))
  }

  // ---------------------------------------------------------------- greeting

  /** `displayName.split(" ")[0]`; `None` when the display name is not a
      string and `split` throws. */
  function FirstName(user: Option<ClientAuth.ClientUser>): Option<string> {
    var name := ClientAuth.DisplayName(user);
    if name.JStr? then Some(Split(name.s, ' ')[0]) else None
  }

  /** The first piece of a split runs up to the first separator. */
  lemma {:induction false} SplitFirst(s: string, sep: char)
    ensures var f := Split(s, sep)[0];
      |f| <= |s| && f == s[..|f|] && (|f| == |s| || s[|f|] == sep)
  {
    if |s| > 0 && s[0] != sep {
      SplitFirst(s[1..], sep);
    }
  }

  /** The first name is the display name up to its first space; without a
      user it is "Usuario". */
  lemma FirstNameProperties(user: Option<ClientAuth.ClientUser>)
    ensures user.None? ==> FirstName(user) == Some("Usuario")
    ensures ClientAuth.DisplayName(user).JStr? ==>
      var s := ClientAuth.DisplayName(user).s;
      var f := FirstName(user).value;
      ' ' !in f && |f| <= |s| && f == s[..|f|] && (|f| == |s| || s[|f|] == ' ')
  {
    if user.None? {
      SplitNoSep("Usuario", ' ');
    }
    var name := ClientAuth.DisplayName(user);
    if name.JStr? {
      SplitFirst(name.s, ' ');
      var f := Split(name.s, ' ')[0];
      assert forall k :: 0 <= k < |f| ==> f[k] != ' ';
    }
  }
}

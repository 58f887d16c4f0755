/** The browser's view of the signed-in user: the user read from the stored
    token, and the permission predicates the pages use to show or hide
    actions. An administrator passes every check; anyone else needs the
    dotted path to lead to `true` in their permission tree. */
module ClientAuth {
  import opened Common
  import opened Strings
  import opened Json
  import Permissions

  /** The user object the pages see. The raw properties of the token payload
      are kept as values because nothing checks their types. */
  datatype ClientUser = ClientUser(
    uid: Option<Value>, username: Option<Value>, displayName: Option<Value>,
    roles: Value, permissions: Value)


  /** `user?.displayName || user?.username || "Usuario"`: the name the
      pages show for the user and the author the log records. */
  function DisplayName(user: Option<ClientUser>): (r: Value)
    ensures Truthy(r)
    ensures user.None? ==> r == JStr("Usuario")
    ensures user.Some? && Given(user.value.displayName) ==> r == user.value.displayName.value
    ensures user.Some? && !Given(user.value.displayName) && Given(user.value.username) ==> r == user.value.username.value
    ensures user.Some? && !Given(user.value.displayName) && !Given(user.value.username) ==> r == JStr("Usuario")
  {
    if user.None? then JStr("Usuario")
    else Or(user.value.displayName, Or(user.value.username, JStr("Usuario")))
  }

  /** `getUserFromToken()`: `token` is the stored token ("" when there is
      none) and `decoded` the JSON its payload decodes to, `None` when the
      payload is missing or does not decode or parse. A payload of `null`
      also gives no user, because reading a property of it throws. Missing
      roles become `[]` and missing permissions `{}`. */
  function UserFromToken(token: string, decoded: Option<Value>): (r: Option<ClientUser>)
    ensures r.Some? <==> token != "" && decoded.Some? && decoded.value != JNull
    ensures r.Some? ==>
      (Truthy(r.value.roles) || r.value.roles == JArr([])) && (Truthy(r.value.permissions) || r.value.permissions == JObj([]))
  {
    if token == "" then None
    else match decoded
      case None => None
      case Some(data) =>
        if data == JNull then None
        else Some(ClientUser(
          Member(data, "uid"), Member(data, "username"), Member(data, "displayName"),
          Or(Member(data, "roles"), JArr([])), Or(Member(data, "permissions"), JObj([]))))
  }

  /** `list.includes(x)` where `list` may be any value: arrays compare their
      elements, strings search for a substring, anything else throws
      (`None`). */
  function Includes(list: Value, x: string): Option<bool> {
    match list
    case JArr(items) => Some(JStr(x) in items)
    case JStr(s) => Some(Contains(s, x))
    case _ => None
  }

  /** `(user.roles || []).includes('admin')`. */
  function RolesIncludeAdmin(u: ClientUser): Option<bool> {
    Includes(Or(Some(u.roles), JArr([])), "admin")
  }

  /** `userIsAdmin(user)`; `None` when the roles value throws. */
  function UserIsAdmin(user: Option<ClientUser>): Option<bool> {
    if user.None? then Some(false) else RolesIncludeAdmin(user.value)
  }

  /** `userHasPermission(path, user)`; `None` when the roles value throws.
      The path test is the server's `hasPermission`, which the client's
      `hasPermissionPath` repeats line for line. */
  function UserHasPermission(path: string, user: Option<ClientUser>): Option<bool> {
    if user.None? then Some(false)
    else match RolesIncludeAdmin(user.value)
      case None => None
      case Some(admin) =>
        if admin then Some(true)
        else if path == "" then Some(false)
        else Some(Permissions.HasPermission(Or(Some(user.value.permissions), JObj([])), path))
  }

  /** No user holds nothing; an administrator holds every path, even the
      empty one; anyone else holds no empty path and otherwise exactly the
      paths that lead to `true`. */
  lemma UserHasPermissionCases(path: string, user: Option<ClientUser>)
    ensures user.None? ==> UserHasPermission(path, user) == Some(false)
    ensures UserIsAdmin(user) == Some(true) ==> UserHasPermission(path, user) == Some(true)
    ensures UserIsAdmin(user) == Some(false) && path == "" ==> UserHasPermission(path, user) == Some(false)
    ensures UserIsAdmin(user) == Some(false) && user.Some? ==>
      UserHasPermission(path, user) == Some(Permissions.HasPermission(Or(Some(user.value.permissions), JObj([])), path))
    ensures UserIsAdmin(user).None? <==> UserHasPermission(path, user).None?
  {
  }

  /** For a user read from a token whose roles are a list, being an
      administrator is having the role "admin". */
  lemma AdminIffRole(token: string, decoded: Option<Value>, items: seq<Value>)
    requires UserFromToken(token, decoded).Some?
    requires UserFromToken(token, decoded).value.roles == JArr(items)
    ensures UserIsAdmin(UserFromToken(token, decoded)) == Some(JStr("admin") in items)
  {
  }

  /** A roles string is searched as text, so "superadmin" counts as an
      administrator. */
  lemma RolesStringIsSearched()
    ensures UserIsAdmin(Some(ClientUser(None, None, None, JStr("superadmin"), JObj([])))) == Some(true)
  {
    assert "superadmin"[5..] == "admin";
    assert Contains("superadmin", "admin") by {
      ContainsIff("superadmin", "admin");
      assert OccursAt("superadmin", "admin", 5);
    }
  }
}

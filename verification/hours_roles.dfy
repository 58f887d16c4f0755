/** The "hours manager" roles: a role whose name, trimmed and lower-cased, is
    one of five fixed spellings lets its holder manage work orders. The server
    keeps the spellings in a `Set`, the client in an array; both are modelled
    and shown to hold the same names. */
module HoursRoles {
  import opened Common
  import opened Strings

  /** The server's `HOURS_MANAGER_ROLES` set. */
  const ServerManagerRoles: set<string> :=
    {"gestor de horas", "gestor-horas", "gestor_de_horas", "gestor horas", "gestorhoras"}

  /** The client's `HOURS_MANAGER_ROLES` array. */
  const ClientManagerRoles: seq<string> :=
    ["gestor de horas", "gestor-horas", "gestor_de_horas", "gestor horas", "gestorhoras"]

  /** `normalizeRoleName`: trimmed, then lower-cased. */
  function NormalizeRoleName(name: string): string {
    Lower(Trim(name))
  }

  predicate IsManagerRole(name: string) {
    NormalizeRoleName(name) in ServerManagerRoles
  }

  /** `hasHoursManagerRole(roles)`: false when `roles` is not an array (None),
      otherwise whether some role normalises to one of the listed names. */
  predicate HasHoursManagerRole(roles: Option<seq<string>>)
    ensures HasHoursManagerRole(roles) ==> roles.Some? && |roles.value| > 0
  {
    roles.Some? && exists i :: 0 <= i < |roles.value| && IsManagerRole(roles.value[i])
  }

  /** The client's array and the server's set list the same five names. */
  lemma ClientAndServerAgree()
    ensures forall r :: r in ClientManagerRoles <==> r in ServerManagerRoles
    ensures |ClientManagerRoles| == |ServerManagerRoles|
  {
  }

  /** Neither a non-array nor an empty list names a manager role. */
  lemma NoRolesNoManager()
    ensures !HasHoursManagerRole(None)
    ensures !HasHoursManagerRole(Some([]))
  {
  }

  /** Adding roles never withdraws the manager status. */
  lemma {:induction false} ManagerRoleMonotone(roles: seq<string>, more: seq<string>)
    requires HasHoursManagerRole(Some(roles))
    ensures HasHoursManagerRole(Some(roles + more))
    ensures HasHoursManagerRole(Some(more + roles))
  {
    var i :| 0 <= i < |roles| && IsManagerRole(roles[i]);
    assert (roles + more)[i] == roles[i];
    assert (more + roles)[|more| + i] == roles[i];
  }

  /** Spelling and surrounding blanks do not matter: " Gestor Horas " counts. */
  lemma ManagerRoleIgnoresCaseAndBlanks()
    ensures HasHoursManagerRole(Some([" Gestor Horas "]))
  {
    var s := " Gestor Horas ";
    TrimStartNoop(s[1..]);
    assert TrimStart(s) == s[1..];
    var t := s[1..];
    assert TrimEnd(t) == t[..|t| - 1] by {
      TrimEndNoop(t[..|t| - 1]);
    }
    assert Trim(s) == "Gestor Horas";
    assert Lower("Gestor Horas") == "gestor horas";
    assert IsManagerRole(s);
    var roles := [s];
    assert IsManagerRole(roles[0]);
  }
}

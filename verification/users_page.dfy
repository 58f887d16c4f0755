/** The user administration page of the client: the initials shown when a
    user has no picture, the role chips of the form, the roles that are not
    among the stored ones, and the body sent when an existing user is
    saved. */
module UsersPage {
  import opened Common
  import opened Strings
  import opened Json
  import Lists

  // ---------------------------------------------------------------- initials

  /** The space-separated words of `s`, empty pieces dropped. */
  function Words(s: string): seq<string> {
    Lists.Filter(Split(s, ' '), (w: string) => w != "")
  }

  /** The upper-cased first letter of each word. */
  function FirstLetters(words: seq<string>): (r: string)
    requires forall k :: 0 <= k < |words| ==> words[k] != ""
    ensures |r| == |words| && forall k :: 0 <= k < |r| ==> r[k] == UpperChar(words[k][0])
  {
    if |words| == 0 then "" else [UpperChar(words[0][0])] + FirstLetters(words[1..])
  }

  /** `getInitials(name, username)`: the first letters of the first two
      words of the name, or of the username when the name is empty, and
      "US" when there is no word at all. */
  function Initials(name: string, username: string): (r: string)
    ensures var words := Words(if name != "" then name else username);
      (|words| == 0 ==> r == "US")
      && (|words| > 0 ==> |r| == Min(2, |words|) && forall k :: 0 <= k < |r| ==> r[k] == UpperChar(words[k][0]))
  {
    var words := Words(if name != "" then name else username);
    var letters := FirstLetters(words[..Min(2, |words|)]);
    if letters == "" then "US" else letters
  }

  /** Two words give the first letter of each, upper-cased. */
  lemma InitialsOfTwoWords(a: string, b: string, username: string)
    requires a != "" && b != "" && ' ' !in a && ' ' !in b
    ensures Initials(a + " " + b, username) == [UpperChar(a[0]), UpperChar(b[0])]
  {
    assert forall k :: 0 <= k < |b| ==> b[k] != ' ';
    assert forall k :: 0 <= k < |a| ==> a[k] != ' ';
    SplitNoSep(b, ' ');
    SplitPrefix(a, b, ' ');
    assert a + " " + b == a + [' '] + b;
    assert Split(a + " " + b, ' ') == [a, b];
    assert Words(a + " " + b) == [a, b] by {
      assert Lists.Filter([b], (w: string) => w != "") == [b];
    }
  }

  /** A string of separators only splits into empty pieces. */
  lemma {:induction false} SplitOnlySeparators(s: string, sep: char)
    requires forall k :: 0 <= k < |s| ==> s[k] == sep
    ensures forall i :: 0 <= i < |Split(s, sep)| ==> Split(s, sep)[i] == ""
  {
    if |s| > 0 {
      SplitOnlySeparators(s[1..], sep);
    }
  }

  /** A name of spaces only is still used instead of the username, and it
      has no word: the placeholder is shown. */
  lemma BlankNameShowsPlaceholder(name: string, username: string)
    requires name != "" && forall k :: 0 <= k < |name| ==> name[k] == ' '
    ensures Initials(name, username) == "US"
  {
    SplitOnlySeparators(name, ' ');
    Lists.FilterNone(Split(name, ' '), (w: string) => w != "");
  }

  // ---------------------------------------------------------------- roles of the form

  /** `removeRole(name)`: every occurrence goes. */
  function RemoveRole(roles: seq<string>, name: string): (r: seq<string>)
    ensures name !in r
    ensures forall x :: x != name ==> (x in r <==> x in roles)
  {
    Lists.Filter(roles, (x: string) => x != name)
  }

  /** `toggleRole(name)`: a present role is removed everywhere, an absent
      one is appended. */
  function ToggleRole(roles: seq<string>, name: string): (r: seq<string>)
    ensures name in r <==> name !in roles
    ensures forall x :: x != name ==> (x in r <==> x in roles)
    ensures name !in roles ==> r == roles + [name]
  {
    if name in roles then RemoveRole(roles, name) else roles + [name]
  }

  /** Adding a role and toggling it again gives the list back. */
  lemma ToggleTwiceRestores(roles: seq<string>, name: string)
    requires name !in roles
    ensures ToggleRole(ToggleRole(roles, name), name) == roles
  {
    assert forall k :: 0 <= k < |roles| ==> roles[k] != name;
    Lists.FilterAll(roles, (x: string) => x != name);
    Lists.FilterConcat(roles, [name], (x: string) => x != name);
  }

  /** Removing keeps the order of the other roles. */
  lemma RemoveRoleKeepsOrder(a: seq<string>, b: seq<string>, name: string)
    ensures RemoveRole(a + b, name) == RemoveRole(a, name) + RemoveRole(b, name)
  {
    Lists.FilterConcat(a, b, (x: string) => x != name);
  }

  /** `customRoles`: the roles of the form that no stored role is named. */
  function CustomRoles(formRoles: seq<string>, available: seq<string>): (r: seq<string>)
    ensures forall x :: x in r <==> x in formRoles && x !in available
  {
    Lists.Filter(formRoles, (x: string) => x !in available)
  }

  // ---------------------------------------------------------------- saving an existing user

  /** The body of the `PATCH` for an existing user: the display name, the
      roles, the picture or `null`, and the password only when one was
      typed. */
  function EditPayload(displayName: string, roles: seq<string>, avatarUrl: string, password: string): Value {
    var roleValues := seq(|roles|, i requires 0 <= i < |roles| => JStr(roles[i]));
    JObj([("displayName", JStr(displayName)), ("roles", JArr(roleValues)),
          ("avatarUrl", if avatarUrl != "" then JStr(avatarUrl) else JNull)]
         + (if password != "" then [("password", JStr(password))] else []))
  }

  /** The password is sent exactly when the field is not empty, so an empty
      field keeps the stored one; an empty picture is sent as `null`. */
  lemma EditPayloadFields(displayName: string, roles: seq<string>, avatarUrl: string, password: string)
    ensures var body := EditPayload(displayName, roles, avatarUrl, password);
      body.JObj?
      && Get(body.fields, "password") == (if password != "" then Some(JStr(password)) else None)
      && Get(body.fields, "avatarUrl") == Some(if avatarUrl != "" then JStr(avatarUrl) else JNull)
      && Get(body.fields, "displayName") == Some(JStr(displayName))
  {
    var fields := EditPayload(displayName, roles, avatarUrl, password).fields;
    assert Get(fields, "displayName") == Some(fields[0].1);
    assert Get(fields, "avatarUrl") == Some(fields[2].1) by {
      assert fields[0].0[0] == 'd' && fields[1].0[0] == 'r' && "avatarUrl"[0] == 'a';
      GetAt(fields, 2);
    }
    assert Get(fields, "password") == (if password != "" then Some(JStr(password)) else None) by {
      assert fields[0].0[0] == 'd' && fields[1].0[0] == 'r' && fields[2].0[0] == 'a' && "password"[0] == 'p';
      if password != "" {
        GetAt(fields, 3);
      } else {
        assert Keys(fields) == ["displayName", "roles", "avatarUrl"];
      }
    }
  }

  /** The roles are sent as the array of the chosen role names, in order. */
  lemma EditPayloadRoles(displayName: string, roles: seq<string>, avatarUrl: string, password: string)
    ensures var body := EditPayload(displayName, roles, avatarUrl, password);
      (body.JObj? && Get(body.fields, "roles").Some? && Get(body.fields, "roles").value.JArr?
       && |Get(body.fields, "roles").value.items| == |roles|
       && forall i :: 0 <= i < |roles| ==> Get(body.fields, "roles").value.items[i] == JStr(roles[i]))
  {
    var fields := EditPayload(displayName, roles, avatarUrl, password).fields;
    assert fields[0].0[0] == 'd' && "roles"[0] == 'r';
    GetAt(fields, 1);
  }
}

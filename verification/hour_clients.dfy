/** The list of clients offered on the hours forms. Seven default names are
    always offered unless a stored document switches them off; a stored
    document names a client and says whether it is disabled. Adding a name
    re-enables a disabled document or stores a new one, and deleting a name is
    a soft delete: its documents are disabled, or a disabled tombstone is
    stored when there were none. */
module HourClients {
  import opened Common
  import opened Strings
  import opened Json
  import opened Http
  import opened Sorting
  import opened Lists
  import Permissions
  import WorkOrders

  /** `DEFAULT_CLIENTS`. */
  const DefaultClients: seq<string> :=
    ["Conci", "Centro Motor", "Sew", "Gamisol", "Melchior", "Las Piedras", "Echaniz"]

  /** A stored document: its `name` (an absent name is the empty string) and
      whether it is `disabled`. */
  datatype HourClientDoc = HourClientDoc(name: string, disabled: bool)

  /** `normalizeName`. */
  function NormalizeName(name: string): string {
    Trim(name)
  }

  // ---------------------------------------------------------------- buildClientList

  /** The `names` Map: its keys in insertion order and the `disabled` flag of
      each key. */
  datatype Names = Names(order: seq<string>, status: map<string, bool>)

  /** The keys listed in `order` are exactly the keys of `status`, once each. */
  ghost predicate Tracks(t: Names) {
    NoRepeats(t.order) && forall n :: n in t.order <==> n in t.status
  }

  /** `names.set(n, { disabled })`: a new key goes last, an existing key keeps
      its place and takes the new flag. */
  function SetName(t: Names, n: string, disabled: bool): (r: Names)
    requires Tracks(t)
    ensures Tracks(r)
    ensures r.status == t.status[n := disabled]
  {
    if n in t.status then Names(t.order, t.status[n := disabled])
    else
      var o := t.order + [n];
      assert forall i :: 0 <= i < |t.order| ==> o[i] == t.order[i];
      Names(o, t.status[n := disabled])
  }

  /** The Map after the first `k` of the `defaults` were set enabled. */
  function Seeded(defaults: seq<string>, k: nat): (r: Names)
    requires k <= |defaults|
    ensures Tracks(r)
  {
    if k == 0 then Names([], map[])
    else SetName(Seeded(defaults, k - 1), defaults[k - 1], false)
  }

  /** The Map after the defaults and every document, in order: a document with
      a blank name is skipped, any other sets its trimmed name. */
  function Table(docs: seq<HourClientDoc>): (r: Names)
    ensures Tracks(r)
  {
    if |docs| == 0 then Seeded(DefaultClients, |DefaultClients|)
    else
      var t := Table(docs[..|docs| - 1]);
      var last := docs[|docs| - 1];
      var v := NormalizeName(last.name);
      if v == "" then t else SetName(t, v, last.disabled)
  }

  /** Document `i` is the last one whose trimmed name is `n`. */
  predicate LastNamed(docs: seq<HourClientDoc>, n: string, i: int) {
    0 <= i < |docs| && NormalizeName(docs[i].name) == n
    && forall j :: i < j < |docs| ==> NormalizeName(docs[j].name) != n
  }

  /** No document has the trimmed name `n`. */
  predicate NoneNamed(docs: seq<HourClientDoc>, n: string) {
    forall i :: 0 <= i < |docs| ==> NormalizeName(docs[i].name) != n
  }

  /** The client `n` is offered: the last document with that trimmed name is
      enabled, or `n` is a default no document mentions. */
  ghost predicate Listed(docs: seq<HourClientDoc>, n: string) {
    (n != "" && exists i :: LastNamed(docs, n, i) && !docs[i].disabled)
    || (n in DefaultClients && NoneNamed(docs, n))
  }

  lemma {:induction false} SeededStatus(defaults: seq<string>, k: nat)
    requires k <= |defaults|
    ensures forall n :: n in Seeded(defaults, k).status <==> n in defaults[..k]
    ensures forall n :: n in Seeded(defaults, k).status ==> !Seeded(defaults, k).status[n]
  {
    if k > 0 {
      SeededStatus(defaults, k - 1);
      assert defaults[..k] == defaults[..k - 1] + [defaults[k - 1]];
    }
  }

  /** A name is enabled in the Map exactly when it is offered. */
  lemma {:induction false} TableStatus(docs: seq<HourClientDoc>, n: string)
    ensures (n in Table(docs).status && !Table(docs).status[n]) <==> Listed(docs, n)
    ensures n in Table(docs).status ==> n != ""
  {
    if |docs| == 0 {
      TableStatusSeeded(n);
    } else {
      var init := docs[..|docs| - 1];
      var last := docs[|docs| - 1];
      TableStatus(init, n);
      assert docs == init + [last];
      TableStatusStep(init, last, n);
    }
  }

  /** The base of `TableStatus`: the seeded names are all disabled. */
  lemma TableStatusSeeded(n: string)
    ensures (n in Table([]).status && !Table([]).status[n]) <==> Listed([], n)
    ensures n in Table([]).status ==> n != ""
  {
    SeededStatus(DefaultClients, |DefaultClients|);
    assert DefaultClients[..|DefaultClients|] == DefaultClients;
    assert "" !in DefaultClients;
  }

  /** The step of `TableStatus`: appending one document keeps the
      correspondence for `n`. */
  lemma TableStatusStep(init: seq<HourClientDoc>, last: HourClientDoc, n: string)
    requires (n in Table(init).status && !Table(init).status[n]) <==> Listed(init, n)
    requires n in Table(init).status ==> n != ""
    ensures (n in Table(init + [last]).status && !Table(init + [last]).status[n]) <==> Listed(init + [last], n)
    ensures n in Table(init + [last]).status ==> n != ""
  {
    var docs := init + [last];
    assert docs[..|docs| - 1] == init && docs[|docs| - 1] == last;
    if NormalizeName(last.name) == n && n != "" {
      assert Table(docs).status[n] == last.disabled;
      LastDocNamed(init, last, n);
    } else {
      assert n in Table(docs).status <==> n in Table(init).status;
      assert n in Table(docs).status ==> Table(docs).status[n] == Table(init).status[n];
      AppendOtherName(init, last, n);
    }
  }

  /** Appending a document whose trimmed name is `n` decides whether `n` is
      offered: it is exactly when that document is enabled. */
  lemma LastDocNamed(docs: seq<HourClientDoc>, d: HourClientDoc, n: string)
    requires NormalizeName(d.name) == n && n != ""
    ensures Listed(docs + [d], n) <==> !d.disabled
  {
    var docs' := docs + [d];
    assert LastNamed(docs', n, |docs|);
    assert !NoneNamed(docs', n);
    forall i | LastNamed(docs', n, i) ensures i == |docs| {
    }
  }

  /** The first loop of `buildClientList`: every default name set enabled,
      in order. */
  method SeedDefaults(defaults: seq<string>) returns (names: Names)
    ensures names == Seeded(defaults, |defaults|)
  {
    names := Names([], map[]);
    for i := 0 to |defaults|
      invariant names == Seeded(defaults, i)
    {
      names := SetName(names, defaults[i], false);
    }
  }

  /** The Map of `buildClientList`: the defaults, then every document with a
      non-blank name, in order. */
  method BuildTable(docs: seq<HourClientDoc>) returns (names: Names)
    ensures names == Table(docs)
  {
    names := SeedDefaults(DefaultClients);
    for i := 0 to |docs|
      invariant names == Table(docs[..i])
    {
      assert docs[..i + 1][..i] == docs[..i];
      var value := NormalizeName(docs[i].name);
      if value != "" {
        names := SetName(names, value, docs[i].disabled);
      }
    }
    assert docs[..|docs|] == docs;
  }

  /** `buildClientList(docs)`: the defaults go into a Map enabled, every
      document with a non-blank name then sets its trimmed name with its own
      flag, and the enabled names come out sorted. The result is ordered,
      names each offered client once, and nothing else; every name in it is
      trimmed and non-empty. */
  method BuildClientList(docs: seq<HourClientDoc>) returns (list: seq<string>)
    ensures SortedBy(list, LexLe)
    ensures NoRepeats(list)
    ensures forall n :: n in list <==> Listed(docs, n)
    ensures forall k :: 0 <= k < |list| ==> list[k] != "" && Trim(list[k]) == list[k]
  {
    var t := BuildTable(docs);
    var enabled := Filter(t.order, n => n in t.status && !t.status[n]);
    list := SortBy(enabled, LexLe);
    LexLeTotalPreorder();
    SortBySorted(enabled, LexLe);
    FilterNoRepeats(t.order, n => n in t.status && !t.status[n]);
    NoRepeatsPermutation(enabled, list);
    forall n ensures n in list <==> Listed(docs, n) {
      assert n in list <==> n in multiset(list);
      assert n in enabled <==> n in multiset(enabled);
      TableStatus(docs, n);
    }
    forall k | 0 <= k < |list| ensures list[k] != "" && Trim(list[k]) == list[k] {
      var n := list[k];
      TableStatus(docs, n);
      ListedIsTrimmed(docs, n);
    }
  }

  /** Every default name is already trimmed. */
  lemma DefaultsTrimmed()
    ensures forall n :: n in DefaultClients ==> Trim(n) == n
  {
    forall n | n in DefaultClients ensures Trim(n) == n {
      TrimStartNoop(n);
      TrimEndNoop(n);
    }
  }

  /** Every offered name is trimmed. */
  lemma ListedIsTrimmed(docs: seq<HourClientDoc>, n: string)
    requires Listed(docs, n)
    ensures Trim(n) == n
  {
    if n in DefaultClients && NoneNamed(docs, n) {
      DefaultsTrimmed();
    } else {
      var i :| LastNamed(docs, n, i) && !docs[i].disabled;
      TrimIdempotent(docs[i].name);
    }
  }

  // ---------------------------------------------------------------- add and delete

  /** The reply and the documents after a request. */
  datatype Outcome = Outcome(reply: Reply, docs: seq<HourClientDoc>)

  const NameRequired := Failure(400, "Nombre requerido")

  function NameBody(name: string): Value {
    JObj([("name", JStr(name))])
  }

  function DeletedBody(name: string): Value {
    JObj([("name", JStr(name)), ("disabled", JBool(true))])
  }

  /** The first document, from position `i` on, whose stored name is exactly
      `name` (the `where('name', '==', name).limit(1)` query). */
  function FirstNamed(docs: seq<HourClientDoc>, name: string, i: nat): (r: Option<nat>)
    requires i <= |docs|
    ensures r.Some? ==> (i <= r.value < |docs| && docs[r.value].name == name
      && forall j :: i <= j < r.value ==> docs[j].name != name)
    ensures r.None? ==> forall j :: i <= j < |docs| ==> docs[j].name != name
    decreases |docs| - i
  {
    if i == |docs| then None
    else if docs[i].name == name then Some(i)
    else FirstNamed(docs, name, i + 1)
  }

  /** `addHourClient`: a blank name is refused with 400; the first document
      with that exact name is re-enabled when disabled (200) or the request is
      refused with 409 when enabled; with no such document an enabled one is
      added (201). */
  function AddSpec(docs: seq<HourClientDoc>, raw: string): Outcome {
    var clean := NormalizeName(raw);
    if clean == "" then Outcome(Failed(NameRequired), docs)
    else
      match FirstNamed(docs, clean, 0)
      case Some(i) =>
        if docs[i].disabled then Outcome(Reply(200, NameBody(clean)), docs[i := docs[i].(disabled := false)])
        else Outcome(Failed(Failure(409, "El cliente ya existe")), docs)
      case None => Outcome(Reply(201, NameBody(clean)), docs + [HourClientDoc(clean, false)])
  }

  /** Every document with the exact name `name`, disabled. */
  function DisableNamed(docs: seq<HourClientDoc>, name: string): (r: seq<HourClientDoc>)
    ensures |r| == |docs|
  {
    seq(|docs|, i requires 0 <= i < |docs| => if docs[i].name == name then docs[i].(disabled := true) else docs[i])
  }

  /** `deleteHourClient`: a blank name is refused with 400; otherwise every
      document with that exact name is disabled, or a disabled one is added
      when there is none, and the reply is 200. */
  function DeleteSpec(docs: seq<HourClientDoc>, raw: string): Outcome {
    var clean := NormalizeName(raw);
    if clean == "" then Outcome(Failed(NameRequired), docs)
    else if FirstNamed(docs, clean, 0).None? then Outcome(Reply(200, DeletedBody(clean)), docs + [HourClientDoc(clean, true)])
    else Outcome(Reply(200, DeletedBody(clean)), DisableNamed(docs, clean))
  }

  /** The documents the two handlers write: trimmed, non-empty names, one
      document per name. */
  predicate Stored(docs: seq<HourClientDoc>) {
    (forall i :: 0 <= i < |docs| ==> docs[i].name != "" && NormalizeName(docs[i].name) == docs[i].name)
    && forall i, j :: 0 <= i < j < |docs| ==> docs[i].name != docs[j].name
  }

  /** Both handlers refuse a blank name and change nothing. */
  lemma BlankNameRefused(docs: seq<HourClientDoc>, raw: string)
    requires forall k :: 0 <= k < |raw| ==> IsSpace(raw[k])
    ensures AddSpec(docs, raw) == Outcome(Failed(NameRequired), docs)
    ensures DeleteSpec(docs, raw) == Outcome(Failed(NameRequired), docs)
  {
    TrimEmptyIff(raw);
  }

  /** Adding and deleting keep the documents in the shape they write. */
  lemma AddKeepsStored(docs: seq<HourClientDoc>, raw: string)
    requires Stored(docs)
    ensures Stored(AddSpec(docs, raw).docs)
  {
    TrimIdempotent(raw);
  }

  lemma DeleteKeepsStored(docs: seq<HourClientDoc>, raw: string)
    requires Stored(docs)
    ensures Stored(DeleteSpec(docs, raw).docs)
  {
    TrimIdempotent(raw);
    var clean := NormalizeName(raw);
    if clean != "" && FirstNamed(docs, clean, 0).Some? {
      var r := DisableNamed(docs, clean);
      assert forall i :: 0 <= i < |docs| ==> r[i].name == docs[i].name;
    }
  }

  /** With one document per name, a document named `n` is the last one with
      that trimmed name. */
  lemma StoredLast(docs: seq<HourClientDoc>, i: nat)
    requires Stored(docs) && i < |docs|
    ensures LastNamed(docs, docs[i].name, i)
  {
  }

  /** An enabled document with the name makes it offered. */
  lemma EnabledStoredListed(docs: seq<HourClientDoc>, i: nat)
    requires Stored(docs) && i < |docs| && !docs[i].disabled
    ensures Listed(docs, docs[i].name)
  {
    StoredLast(docs, i);
  }

  /** Adding a name refuses with 409 exactly when a document with that name is
      enabled; otherwise (a non-blank name) the name is offered afterwards, and
      every other name is offered afterwards exactly when it was before. */
  lemma AddThenListed(docs: seq<HourClientDoc>, raw: string)
    requires Stored(docs) && NormalizeName(raw) != ""
    ensures var clean := NormalizeName(raw);
      var o := AddSpec(docs, raw);
      (o.reply.status == 409 <==> exists i :: 0 <= i < |docs| && docs[i].name == clean && !docs[i].disabled)
      && (o.reply.status != 409 ==> Listed(o.docs, clean))
      && forall n :: n != clean ==> (Listed(o.docs, n) <==> Listed(docs, n))
  {
    var clean := NormalizeName(raw);
    var o := AddSpec(docs, raw);
    TrimIdempotent(raw);
    AddKeepsStored(docs, raw);
    match FirstNamed(docs, clean, 0)
    case Some(i) =>
      if docs[i].disabled {
        assert o.docs[i].name == clean && !o.docs[i].disabled;
        EnabledStoredListed(o.docs, i);
        forall n | n != clean ensures Listed(o.docs, n) <==> Listed(docs, n) {
          SameOtherNames(docs, o.docs, clean, n);
        }
      } else {
        assert o.docs == docs;
      }
    case None =>
      var last := |docs|;
      assert o.docs[last].name == clean && !o.docs[last].disabled;
      EnabledStoredListed(o.docs, last);
      forall n | n != clean ensures Listed(o.docs, n) <==> Listed(docs, n) {
        AppendOtherName(docs, HourClientDoc(clean, false), n);
      }
  }

  /** After a delete the name is no longer offered, even when it is one of the
      defaults, and every other name is offered exactly when it was before. */
  lemma DeleteThenUnlisted(docs: seq<HourClientDoc>, raw: string)
    requires forall i :: 0 <= i < |docs| ==> NormalizeName(docs[i].name) == docs[i].name
    requires NormalizeName(raw) != ""
    ensures var clean := NormalizeName(raw);
      var o := DeleteSpec(docs, raw);
      o.reply.status == 200 && !Listed(o.docs, clean)
      && forall n :: n != clean ==> (Listed(o.docs, n) <==> Listed(docs, n))
  {
    var clean := NormalizeName(raw);
    var o := DeleteSpec(docs, raw);
    TrimIdempotent(raw);
    if FirstNamed(docs, clean, 0).None? {
      var last := |docs|;
      assert LastNamed(o.docs, clean, last);
      forall i | LastNamed(o.docs, clean, i) ensures o.docs[i].disabled {
        assert i == last;
      }
      assert !NoneNamed(o.docs, clean);
      forall n | n != clean ensures Listed(o.docs, n) <==> Listed(docs, n) {
        AppendOtherName(docs, HourClientDoc(clean, true), n);
      }
    } else {
      var i0 := FirstNamed(docs, clean, 0).value;
      assert NormalizeName(o.docs[i0].name) == clean;
      assert !NoneNamed(o.docs, clean);
      forall i | LastNamed(o.docs, clean, i) ensures o.docs[i].disabled {
      }
      forall n | n != clean ensures Listed(o.docs, n) <==> Listed(docs, n) {
        SameOtherNames(docs, o.docs, clean, n);
      }
    }
  }

  /** Changing only the flags of documents named `clean` does not change
      whether another name is offered. */
  lemma SameOtherNames(docs: seq<HourClientDoc>, docs': seq<HourClientDoc>, clean: string, n: string)
    requires forall i :: 0 <= i < |docs| ==> NormalizeName(docs[i].name) == docs[i].name
    requires |docs'| == |docs| && n != clean
    requires forall i :: 0 <= i < |docs| ==> docs'[i].name == docs[i].name
    requires forall i :: 0 <= i < |docs| && docs[i].name != clean ==> docs'[i] == docs[i]
    ensures Listed(docs', n) <==> Listed(docs, n)
  {
    if n == "" {
      assert "" !in DefaultClients;
    } else {
      forall i ensures LastNamed(docs', n, i) <==> LastNamed(docs, n, i) {
      }
      assert NoneNamed(docs', n) <==> NoneNamed(docs, n);
      forall i | LastNamed(docs, n, i) ensures docs'[i] == docs[i] {
      }
    }
  }

  /** Appending a document under another trimmed name (or a blank one) does
      not change whether `n` is offered. */
  lemma AppendOtherName(docs: seq<HourClientDoc>, d: HourClientDoc, n: string)
    requires NormalizeName(d.name) != n || n == ""
    ensures Listed(docs + [d], n) <==> Listed(docs, n)
  {
    var docs' := docs + [d];
    if n == "" {
      assert "" !in DefaultClients;
    } else {
      NoneNamedAppendOther(docs, d, n);
      if exists i :: LastNamed(docs, n, i) && !docs[i].disabled {
        var i :| LastNamed(docs, n, i) && !docs[i].disabled;
        LastNamedAppendOther(docs, d, n, i);
        assert LastNamed(docs', n, i) && !docs'[i].disabled;
      }
      if exists i :: LastNamed(docs', n, i) && !docs'[i].disabled {
        var i :| LastNamed(docs', n, i) && !docs'[i].disabled;
        LastNamedAppendOther(docs, d, n, i);
        assert LastNamed(docs, n, i) && !docs[i].disabled;
      }
    }
  }

  lemma LastNamedAppendOther(docs: seq<HourClientDoc>, d: HourClientDoc, n: string, i: int)
    requires NormalizeName(d.name) != n
    ensures LastNamed(docs + [d], n, i) <==> LastNamed(docs, n, i)
    ensures 0 <= i < |docs| ==> (docs + [d])[i] == docs[i]
  {
    var docs' := docs + [d];
    assert forall j :: 0 <= j < |docs| ==> docs'[j] == docs[j];
  }

  lemma NoneNamedAppendOther(docs: seq<HourClientDoc>, d: HourClientDoc, n: string)
    requires NormalizeName(d.name) != n
    ensures NoneNamed(docs + [d], n) <==> NoneNamed(docs, n)
  {
    var docs' := docs + [d];
    assert forall j :: 0 <= j < |docs| ==> docs'[j] == docs[j];
  }

  /** A default a document switched off is not offered, and re-adding it
      offers it again. */
  lemma DeleteDefaultThenAdd()
    ensures !Listed(DeleteSpec([], "Sew").docs, "Sew")
    ensures Listed(AddSpec(DeleteSpec([], " Sew ").docs, "Sew").docs, "Sew")
  {
    TrimStartNoop("Sew");
    TrimEndNoop("Sew");
    DeleteThenUnlisted([], "Sew");
    var s := " Sew ";
    TrimStartNoop(s[1..]);
    assert TrimStart(s) == s[1..];
    TrimEndNoop(s[1..][..3]);
    assert Trim(s) == "Sew";
    var d := DeleteSpec([], s).docs;
    assert d == [HourClientDoc("Sew", true)];
    AddThenListed(d, "Sew");
  }

  // ---------------------------------------------------------------- the collection

  /** `canManageHourClients`: the admin role or the `hours.clients` flag. */
  predicate CanManageHourClients(user: Permissions.Principal)
    ensures "admin" in user.roles ==> CanManageHourClients(user)
    ensures (!Truthy(user.permissions) || user.permissions == JObj([]) ==>
      (CanManageHourClients(user) <==> "admin" in user.roles))
  {
    WorkOrders.EmptyPermissionsHoldNothing("hours.clients");
    var perms := if Truthy(user.permissions) then user.permissions else JObj([]);
    "admin" in user.roles || Permissions.HasPermission(perms, "hours.clients")
  }

  /** Unlike the work-order gate, an hours-manager role is not enough here,
      while the admin role alone is. */
  lemma HourClientManagers(uid: string, username: string, displayName: string)
    ensures CanManageHourClients(Permissions.Principal(uid, username, displayName, ["admin"], JNull))
    ensures !CanManageHourClients(Permissions.Principal(uid, username, displayName, ["gestor horas"], JObj([])))
  {
    WorkOrders.EmptyPermissionsHoldNothing("hours.clients");
  }

  /** The `hourClients` collection, in query order. */
  class HourClientCollection {
    var docs: seq<HourClientDoc>

    constructor(initial: seq<HourClientDoc>)
      ensures docs == initial
    {
      docs := initial;
    }

    /** `listHourClients`. */
    method List() returns (list: seq<string>)
      ensures SortedBy(list, LexLe) && NoRepeats(list)
      ensures forall n :: n in list <==> Listed(docs, n)
    {
      list := BuildClientList(docs);
    }

    /** `addHourClient`. */
    method Add(raw: string) returns (reply: Reply)
      modifies this
      ensures Outcome(reply, docs) == AddSpec(old(docs), raw)
    {
      var clean := NormalizeName(raw);
      if clean == "" {
        return Failed(NameRequired);
      }
      var existing := FirstNamed(docs, clean, 0);
      if existing.Some? {
        var i := existing.value;
        if docs[i].disabled {
          docs := docs[i := docs[i].(disabled := false)];
          return Reply(200, NameBody(clean));
        }
        return Failed(Failure(409, "El cliente ya existe"));
      }
      docs := docs + [HourClientDoc(clean, false)];
      reply := Reply(201, NameBody(clean));
    }

    /** `deleteHourClient`: the batch disables the matching documents one by
        one. */
    method Delete(raw: string) returns (reply: Reply)
      modifies this
      ensures Outcome(reply, docs) == DeleteSpec(old(docs), raw)
    {
      var clean := NormalizeName(raw);
      if clean == "" {
        return Failed(NameRequired);
      }
      if FirstNamed(docs, clean, 0).None? {
        docs := docs + [HourClientDoc(clean, true)];
        return Reply(200, DeletedBody(clean));
      }
      ghost var before := docs;
      for i := 0 to |docs|
        invariant |docs| == |before|
        invariant forall j :: 0 <= j < i ==> docs[j] == DisableNamed(before, clean)[j]
        invariant forall j :: i <= j < |docs| ==> docs[j] == before[j]
      {
        if docs[i].name == clean {
          docs := docs[i := docs[i].(disabled := true)];
        }
      }
      assert docs == DisableNamed(before, clean);
      reply := Reply(200, DeletedBody(clean));
    }
  }
}

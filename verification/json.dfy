/** Plain JavaScript values as they travel through the controllers: request
    bodies, stored documents, permission trees and audit payloads. An object
    is its sequence of (key, value) pairs in insertion order, which is the
    order `Object.keys`, `Object.entries` and the spread operator observe. */
module Json {
  import opened Common
  import opened Strings

  datatype Value =
    | JNull
    | JBool(b: bool)
    | JNum(n: int)
    | JStr(s: string)
    | JArr(items: seq<Value>)
    | JObj(fields: seq<(string, Value)>)

  /** JavaScript truthiness: `null`, `false`, `0` and `''` are falsy; arrays and
      objects are truthy even when empty. */
  predicate Truthy(v: Value) {
    match v
    case JNull => false
    case JBool(b) => b
    case JNum(n) => n != 0
    case JStr(s) => s != ""
    case _ => true
  }

  /** A property that is present and truthy. */
  predicate Given(a: Option<Value>) {
    a.Some? && Truthy(a.value)
  }

  /** `a || b` on a property that may be absent. */
  function Or(a: Option<Value>, b: Value): Value {
    if Given(a) then a.value else b
  }

  /** `Object.keys(obj)`. */
  function Keys(fields: seq<(string, Value)>): (ks: seq<string>)
    ensures |ks| == |fields|
    ensures forall i :: 0 <= i < |fields| ==> ks[i] == fields[i].0
  {
    if |fields| == 0 then [] else [fields[0].0] + Keys(fields[1..])
  }

  /** Every key appears once, as in a real JavaScript object. */
  predicate UniqueKeys(fields: seq<(string, Value)>) {
    forall i, j :: 0 <= i < j < |fields| ==> fields[i].0 != fields[j].0
  }

  /** `obj[k]`, None for a missing key. */
  function Get(fields: seq<(string, Value)>, k: string): (r: Option<Value>)
    ensures r.None? <==> k !in Keys(fields)
    ensures r.Some? ==> exists i :: 0 <= i < |fields| && fields[i] == (k, r.value)
  {
    if |fields| == 0 then None
    else if fields[0].0 == k then Some(fields[0].1)
    else Get(fields[1..], k)
  }

  /** `obj[k]` of a value that may not be an object: None unless `v` is an
      object holding `k`. */
  function Member(v: Value, k: string): Option<Value> {
    if v.JObj? then Get(v.fields, k) else None
  }

  /** `obj[k] = v`: an existing key keeps its position, a new key goes last. */
  function Put(fields: seq<(string, Value)>, k: string, v: Value): (r: seq<(string, Value)>)
    ensures k in Keys(fields) ==> |r| == |fields|
    ensures k !in Keys(fields) ==> r == fields + [(k, v)]
  {
    if |fields| == 0 then [(k, v)]
    else if fields[0].0 == k then [(k, v)] + fields[1..]
    else [fields[0]] + Put(fields[1..], k, v)
  }

  /** `delete obj[k]`, removing every pair with that key. */
  function Remove(fields: seq<(string, Value)>, k: string): (r: seq<(string, Value)>)
    ensures |r| <= |fields|
    ensures k !in Keys(r)
    ensures forall p :: p in r ==> p in fields
  {
    if |fields| == 0 then []
    else if fields[0].0 == k then Remove(fields[1..], k)
    else [fields[0]] + Remove(fields[1..], k)
  }

  /** The pair at position `i` is the one read when no earlier pair has its
      key. */
  lemma {:induction false} GetAt(fields: seq<(string, Value)>, i: nat)
    requires i < |fields| && forall j :: 0 <= j < i ==> fields[j].0 != fields[i].0
    ensures Get(fields, fields[i].0) == Some(fields[i].1)
  {
    if i > 0 {
      GetAt(fields[1..], i - 1);
    }
  }

  /** Reading after writing: the written key holds the new value and every
      other key reads as before. */
  lemma {:induction false} GetPut(fields: seq<(string, Value)>, k: string, v: Value, k': string)
    ensures Get(Put(fields, k, v), k') == if k' == k then Some(v) else Get(fields, k')
  {
    if |fields| > 0 && fields[0].0 != k {
      GetPut(fields[1..], k, v, k');
    }
  }

  lemma {:induction false} PutKeepsUnique(fields: seq<(string, Value)>, k: string, v: Value)
    requires UniqueKeys(fields)
    ensures UniqueKeys(Put(fields, k, v))
    ensures Keys(Put(fields, k, v)) == if k in Keys(fields) then Keys(fields) else Keys(fields) + [k]
  {
    if |fields| > 0 && fields[0].0 != k {
      PutKeepsUnique(fields[1..], k, v);
      var r := Put(fields[1..], k, v);
      assert Keys(fields) == [fields[0].0] + Keys(fields[1..]);
      assert fields[0].0 !in Keys(fields[1..]);
    } else if |fields| > 0 {
      assert Keys(Put(fields, k, v)) == [k] + Keys(fields[1..]);
      assert Keys(fields) == [k] + Keys(fields[1..]);
    }
  }

  /** Removing a key hides exactly that key. */
  lemma {:induction false} GetRemove(fields: seq<(string, Value)>, k: string, k': string)
    ensures Get(Remove(fields, k), k') == if k' == k then None else Get(fields, k')
  {
    if |fields| > 0 {
      GetRemove(fields[1..], k, k');
    }
  }

  /** `{ ...a, ...b }`: the pairs of `b` are written over `a` in order. */
  function Spread(a: seq<(string, Value)>, b: seq<(string, Value)>): seq<(string, Value)>
    decreases |b|
  {
    if |b| == 0 then a else Spread(Put(a, b[0].0, b[0].1), b[1..])
  }

  /** A spread reads from the later object when it has the key. */
  lemma {:induction false} GetSpread(a: seq<(string, Value)>, b: seq<(string, Value)>, k: string)
    requires UniqueKeys(b)
    ensures Get(Spread(a, b), k) == if k in Keys(b) then Get(b, k) else Get(a, k)
    decreases |b|
  {
    if |b| > 0 {
      GetSpread(Put(a, b[0].0, b[0].1), b[1..], k);
      GetPut(a, b[0].0, b[0].1, k);
      assert Keys(b) == [b[0].0] + Keys(b[1..]);
      assert b[0].0 !in Keys(b[1..]);
    }
  }

  /** `String(v)`: strings are themselves, numbers their decimal spelling,
      booleans "true"/"false", null "null", arrays their elements joined by
      ',' (null elements as ''), and objects "[object Object]". */
  function ToStr(v: Value): string
    decreases v
  {
    match v
    case JNull => "null"
    case JBool(b) => if b then "true" else "false"
    case JNum(n) => IntToString(n)
    case JStr(s) => s
    case JArr(items) =>
      Join(seq(|items|, i requires 0 <= i < |items| => if items[i].JNull? then "" else ToStr(items[i])), ",")
    case JObj(_) => "[object Object]"
  }
}

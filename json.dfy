/** JSON values as the routes and the page handle them once parsed, with the
    JavaScript meaning of truthiness, property reads, `a || b`, object spread
    and `String(v)`. Numbers are integers; fractions are not modelled. */
module JsonValue {
  import opened Wrappers
  import opened JsText

  datatype Json =
    | JNull
    | JBool(b: bool)
    | JNum(n: int)
    | JStr(s: string)
    | JArr(items: seq<Json>)
    | JObj(fields: seq<(string, Json)>)

  /** A JavaScript TypeError: reading a property of `null`. */
  datatype TypeError = NullProperty(key: string)

  /** JavaScript truthiness of a JSON value. */
  predicate Truthy(v: Json)
  {
    match v
    case JNull => false
    case JBool(b) => b
    case JNum(n) => n != 0
    case JStr(s) => s != ""
    case _ => true
  }

  /** Truthiness of a property read, where `None` is `undefined`. */
  predicate Present(m: Option<Json>)
  {
    m.Some? && Truthy(m.value)
  }

  /** The value stored under `k`: its first binding, or `None`. The
      objects read here hold each key once, so the first binding is also
      the last one, which `JSON.parse` would keep. */
  function Get(fields: seq<(string, Json)>, k: string): (r: Option<Json>)
    ensures r.None? <==> forall i :: 0 <= i < |fields| ==> fields[i].0 != k
    ensures r.Some? ==> exists i :: 0 <= i < |fields| && fields[i] == (k, r.value)
  {
    if |fields| == 0 then None
    else if fields[0].0 == k then Some(fields[0].1)
    else
      var r := Get(fields[1..], k);
      assert forall i :: 0 < i < |fields| ==> fields[i] == fields[1..][i - 1];
      r
  }

  /** `v.k` for a property name that is neither an index nor `length`:
      `undefined` for everything but an object that binds it, and a
      TypeError on `null`. */
  function Member(v: Json, k: string): (r: Result<Option<Json>, TypeError>)
    ensures r.Failure? <==> v == JNull
    ensures r.Success? && r.value.Some? ==> v.JObj? && Get(v.fields, k) == r.value
  {
    match v
    case JNull => Failure(NullProperty(k))
    case JObj(fields) => Success(Get(fields, k))
    case _ => Success(None)
  }

  /** `m || d`. */
  function Or(m: Option<Json>, d: Json): (r: Json)
    ensures Present(m) ==> r == m.value
    ensures !Present(m) ==> r == d
  {
    if Present(m) then m.value else d
  }

  /** Setting property `k` to `v`: an existing binding keeps its place and
      takes the new value; otherwise the binding is added at the end. */
  function Put(fields: seq<(string, Json)>, k: string, v: Json): (r: seq<(string, Json)>)
    ensures |r| == |fields| || |r| == |fields| + 1
    ensures forall i :: 0 <= i < |fields| ==> r[i].0 == fields[i].0
  {
    if Get(fields, k).Some? then Rebind(fields, k, v) else fields + [(k, v)]
  }

  /** Every binding of `k` takes the value `v`. */
  function Rebind(fields: seq<(string, Json)>, k: string, v: Json): (r: seq<(string, Json)>)
    ensures |r| == |fields|
    ensures forall i :: 0 <= i < |fields| ==> r[i] == (if fields[i].0 == k then (k, v) else fields[i])
  {
    seq(|fields|, i requires 0 <= i < |fields| => if fields[i].0 == k then (k, v) else fields[i])
  }

  /** A lookup in a list with a first binding in front. */
  lemma GetCons(k: string, v: Json, rest: seq<(string, Json)>, k': string)
    ensures Get([(k, v)] + rest, k') == if k == k' then Some(v) else Get(rest, k')
  {
    assert ([(k, v)] + rest)[1..] == rest;
  }

  /** After setting `k`, reading `k` gives the new value and every other
      property reads as before. */
  lemma GetPut(fields: seq<(string, Json)>, k: string, v: Json, k': string)
    ensures Get(Put(fields, k, v), k) == Some(v)
    ensures k' != k ==> Get(Put(fields, k, v), k') == Get(fields, k')
  {
    if Get(fields, k).Some? {
      GetRebind(fields, k, v, k');
    } else {
      GetAppend(fields, k, v, k');
    }
  }

  lemma {:induction false} GetRebind(fields: seq<(string, Json)>, k: string, v: Json, k': string)
    ensures Get(fields, k).Some? ==> Get(Rebind(fields, k, v), k) == Some(v)
    ensures k' != k ==> Get(Rebind(fields, k, v), k') == Get(fields, k')
    decreases |fields|
  {
    if |fields| > 0 {
      var r := Rebind(fields, k, v);
      assert r[1..] == Rebind(fields[1..], k, v);
      GetRebind(fields[1..], k, v, k');
    }
  }

  lemma {:induction false} GetAppend(fields: seq<(string, Json)>, k: string, v: Json, k': string)
    requires Get(fields, k).None?
    ensures Get(fields + [(k, v)], k) == Some(v)
    ensures k' != k ==> Get(fields + [(k, v)], k') == Get(fields, k')
    decreases |fields|
  {
    if |fields| > 0 {
      assert (fields + [(k, v)])[1..] == fields[1..] + [(k, v)];
      GetAppend(fields[1..], k, v, k');
    }
  }

  /** The property name of index `i`. */
  function IndexKey(i: nat): string
  {
    NatToString(i)
  }

  /** The own enumerable properties copied by `{...v}`: an object's bindings,
      one property per index for a string or an array, none for anything else. */
  function Spread(v: Json): (r: seq<(string, Json)>)
    ensures v.JObj? ==> r == v.fields
    ensures v.JStr? ==> |r| == |v.s| && forall i :: 0 <= i < |r| ==> r[i] == (IndexKey(i), JStr([v.s[i]]))
    ensures v.JArr? ==> |r| == |v.items| && forall i :: 0 <= i < |r| ==> r[i] == (IndexKey(i), v.items[i])
    ensures !v.JObj? && !v.JStr? && !v.JArr? ==> r == []
  {
    match v
    case JObj(fields) => fields
    case JStr(s) => seq(|s|, i requires 0 <= i < |s| => (IndexKey(i), JStr([s[i]])))
    case JArr(items) => seq(|items|, i requires 0 <= i < |items| => (IndexKey(i), items[i]))
    case _ => []
  }

  /** `String(v)`: how a value turns into text when a string is expected. */
  function ToJsString(v: Json): string
  {
    match v
    case JNull => "null"
    case JBool(b) => if b then "true" else "false"
    case JNum(n) => IntToString(n)
    case JStr(s) => s
    case JArr(items) => JoinItems(items, ",")
    case JObj(_) => "[object Object]"
  }

  /** `items.join(sep)`, where `null` elements give the empty text. */
  function JoinItems(items: seq<Json>, sep: string): string
    decreases items
  {
    if |items| == 0 then ""
    else
      var head := if items[0] == JNull then "" else ToJsString(items[0]);
      if |items| == 1 then head else head + sep + JoinItems(items[1..], sep)
  }

  /** `a || b` on property reads. */
  function OrElse(a: Option<Json>, b: Option<Json>): (r: Option<Json>)
    ensures Present(a) ==> r == a
    ensures !Present(a) ==> r == b
  {
    if Present(a) then a else b
  }

  /** A value written into a template literal: `undefined` for a missing
      property, `String(v)` otherwise. */
  function Interpolate(m: Option<Json>): string
  {
    if m.None? then "undefined" else ToJsString(m.value)
  }
}

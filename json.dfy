/**
 * JSON-like values as the engine handles them after `json.loads`: a dict
 * is an ordered list of (key, value) pairs, as Python dicts keep
 * insertion order.  Numbers are integers.
 */
module Json {
  import opened Wrappers
  import opened Text

  datatype Json =
    | JNull
    | JBool(b: bool)
    | JNum(n: int)
    | JStr(s: string)
    | JArr(items: seq<Json>)
    | JObj(fields: seq<(string, Json)>)

  type Fields = seq<(string, Json)>

  /** Python truthiness. */
  predicate Truthy(j: Json)
  {
    match j
    case JNull => false
    case JBool(b) => b
    case JNum(n) => n != 0
    case JStr(s) => s != []
    case JArr(items) => items != []
    case JObj(fields) => fields != []
  }

  /** `k in d` */
  predicate HasKey(d: Fields, k: string)
    decreases |d|
  {
    d != [] && (d[0].0 == k || HasKey(d[1..], k))
  }

  /** A dict never holds the same key twice. */
  predicate DistinctKeys(d: Fields)
  {
    forall i, j :: 0 <= i < j < |d| ==> d[i].0 != d[j].0
  }

  /** `d.get(k)`: the value stored under `k`. */
  function Get(d: Fields, k: string): (r: Option<Json>)
    ensures r.Some? <==> HasKey(d, k)
  {
    if d == [] then None
    else if d[0].0 == k then Some(d[0].1)
    else Get(d[1..], k)
  }

  /** `d[k] = v`: an existing key keeps its position, a new key goes last (see `SetGet`, `SetShape`). */
  function Set(d: Fields, k: string, v: Json): Fields
  {
    if d == [] then [(k, v)]
    else if d[0].0 == k then [(k, v)] + d[1..]
    else [d[0]] + Set(d[1..], k, v)
  }

  /** After `d[k] = v`, `k` holds `v` and every other key what it held before. */
  lemma {:induction false} SetGet(d: Fields, k: string, v: Json)
    ensures Get(Set(d, k, v), k) == Some(v)
    ensures forall k' :: k' != k ==> Get(Set(d, k, v), k') == Get(d, k')
  {
    if d != [] && d[0].0 != k {
      SetGet(d[1..], k, v);
    }
  }

  /** Setting an existing key keeps the length; setting a new key appends it. */
  lemma {:induction false} SetShape(d: Fields, k: string, v: Json)
    ensures HasKey(d, k) ==> |Set(d, k, v)| == |d|
    ensures !HasKey(d, k) ==> Set(d, k, v) == d + [(k, v)]
  {
    if d != [] && d[0].0 != k {
      SetShape(d[1..], k, v);
    }
  }

  /** `d.pop(k, None)`: the pair stored under `k` removed, the others kept in order. */
  function Remove(d: Fields, k: string): (r: Fields)
    ensures Get(r, k) == None
    ensures forall k' :: k' != k ==> Get(r, k') == Get(d, k')
    ensures |r| <= |d|
  {
    if d == [] then []
    else if d[0].0 == k then Remove(d[1..], k)
    else [d[0]] + Remove(d[1..], k)
  }

  /** Python `repr` of a value (quote choice and escapes are not modelled). */
  function Repr(j: Json): string
    decreases j
  {
    match j
    case JNull => "None"
    case JBool(b) => if b then "True" else "False"
    case JNum(n) => IntToString(n)
    case JStr(s) => "'" + s + "'"
    case JArr(items) => "[" + ReprItems(items) + "]"
    case JObj(fields) => "{" + ReprFields(fields) + "}"
  }

  function ReprItems(items: seq<Json>): string
    decreases items
  {
    if items == [] then ""
    else if |items| == 1 then Repr(items[0])
    else Repr(items[0]) + ", " + ReprItems(items[1..])
  }

  function ReprEntry(p: (string, Json)): string
    decreases p
  {
    "'" + p.0 + "': " + Repr(p.1)
  }

  function ReprFields(fields: Fields): string
    decreases fields
  {
    if fields == [] then ""
    else if |fields| == 1 then ReprEntry(fields[0])
    else ReprEntry(fields[0]) + ", " + ReprFields(fields[1..])
  }

  /** Python `str(value)`: a string is itself, anything else its `repr`. */
  function PyStr(j: Json): string
  {
    match j
    case JStr(s) => s
    case _ => Repr(j)
  }
}

/**
 * JSON-like values as decoded by Python's `json` module: the submissions,
 * the labels of survey items and the values of rows.  `JNull` is Python's
 * `None`; an object is an ordered dict with string keys.
 */
module JsonValues {
  import opened Results
  import opened Dicts
  import Text

  datatype Json =
    | JNull
    | JBool(b: bool)
    | JInt(i: int)
    | JStr(s: string)
    | JList(items: seq<Json>)
    | JObj(fields: Dict<string, Json>)

  /** A JSON object, i.e. a Python dict with string keys. */
  type Obj = Dict<string, Json>

  /** Python truthiness (`if v:`, `v or w`). */
  predicate Truthy(j: Json) {
    match j
    case JNull => false
    case JBool(b) => b
    case JInt(i) => i != 0
    case JStr(s) => s != ""
    case JList(xs) => xs != []
    case JObj(fs) => fs != []
  }

  /** `for x in v`: a list yields its items, a string its characters, a dict
      its keys; anything else raises TypeError. */
  function Iterate(j: Json): (r: Result<seq<Json>>)
    ensures r.Err? <==> j.JNull? || j.JBool? || j.JInt?
    ensures j.JList? ==> r == Ok(j.items)
    ensures r.Ok? ==> (|r.value| == 0 <==> !Truthy(j))
  {
    match j
    case JList(xs) => Ok(xs)
    case JStr(s) => Ok(seq(|s|, i requires 0 <= i < |s| => JStr([s[i]])))
    case JObj(fs) => Ok(seq(|fs|, i requires 0 <= i < |fs| => JStr(fs[i].0)))
    case _ => Err(TypeError)
  }

  /** `v[key]` for a string key: a dict gives the value or raises
      KeyError; a list, a string or a scalar raises TypeError. */
  function Subscript(j: Json, key: string): Result<Json> {
    if !j.JObj? then Err(TypeError)
    else match Get(j.fields, key)
      case Some(v) => Ok(v)
      case None => Err(KeyError)
  }

  /** A subscript succeeds exactly on a dict holding the key, and then gives
      the value stored under it. */
  lemma SubscriptLaws(j: Json, key: string)
    ensures Subscript(j, key).Ok? <==> j.JObj? && key in Keys(j.fields)
    ensures Subscript(j, key).Ok? ==> Get(j.fields, key) == Some(Subscript(j, key).value)
    ensures Subscript(j, key).Err? ==> Subscript(j, key).error == if j.JObj? then KeyError else TypeError
  {
    if j.JObj? {
      GetLaws(j.fields, key);
    }
  }

  /** A value used as a dict (`v.items()`, `v.get(k)`): AttributeError unless it is one. */
  function AsObject(j: Json): (r: Result<Obj>)
    ensures r.Ok? <==> j.JObj?
  {
    if j.JObj? then Ok(j.fields) else Err(AttributeError)
  }

  /** `str(v)`: a string is itself, anything else its repr. */
  function Str(j: Json): string {
    if j.JStr? then j.s else Repr(j)
  }

  /** `repr(v)` (the quoting and escaping of characters inside strings is not modelled). */
  function Repr(j: Json): string
    decreases j, 1
  {
    match j
    case JNull => "None"
    case JBool(b) => if b then "True" else "False"
    case JInt(i) => Text.IntToString(i)
    case JStr(s) => "'" + s + "'"
    case JList(xs) => "[" + ReprItems(xs) + "]"
    case JObj(fs) => "{" + ReprFields(fs) + "}"
  }

  /** Every value has a non-empty repr. */
  lemma ReprNonEmpty(j: Json)
    ensures |Repr(j)| > 0
  {
    if j.JInt? {
      assert |Text.IntToString(j.i)| > 0;
    }
  }

  function ReprItems(xs: seq<Json>): string
    decreases xs, 0
  {
    if |xs| == 0 then ""
    else if |xs| == 1 then Repr(xs[0])
    else Repr(xs[0]) + ", " + ReprItems(xs[1..])
  }

  function ReprFields(fs: Obj): string
    decreases fs, 0
  {
    if |fs| == 0 then ""
    else
      assert fs[0].1 < fs[0];
      var entry := "'" + fs[0].0 + "': " + Repr(fs[0].1);
      if |fs| == 1 then entry else entry + ", " + ReprFields(fs[1..])
  }
}

/**
 * JSON documents as both services see them. An object is an association
 * list of entries in insertion order; `WellFormed` says its keys are
 * distinct, which every object that JSON parsing produces satisfies.
 */
module Json {
  import opened Wrappers

  datatype Value =
    | Null
    | Bool(b: bool)
    | Num(n: real)
    | Str(s: string)
    | Arr(items: seq<Value>)
    | Object(entries: seq<Entry>)

  datatype Entry = Entry(key: string, val: Value)

  type Obj = seq<Entry>

  /** The keys an object carries. */
  function Keys(o: Obj): set<string>
  {
    if o == [] then {} else {o[0].key} + Keys(o[1..])
  }

  /** No key occurs twice. */
  predicate WellFormed(o: Obj)
  {
    o == [] || (o[0].key !in Keys(o[1..]) && WellFormed(o[1..]))
  }

  /** The value stored under `k`: what `obj[k]` (JavaScript) and `get(k)` (Java) read. */
  function Lookup(o: Obj, k: string): (r: Option<Value>)
    ensures r.Some? <==> k in Keys(o)
    ensures r.Some? ==> Entry(k, r.value) in o
  {
    if o == [] then None
    else if o[0].key == k then Some(o[0].val)
    else Lookup(o[1..], k)
  }

  /** The object without its `k` entry; the other entries keep their order. */
  function Without(o: Obj, k: string): (r: Obj)
    ensures Keys(r) == Keys(o) - {k}
    ensures forall k2 :: k2 != k ==> Lookup(r, k2) == Lookup(o, k2)
    ensures WellFormed(o) ==> WellFormed(r)
    ensures k !in Keys(o) ==> r == o
  {
    if o == [] then []
    else if o[0].key == k then Without(o[1..], k)
    else [o[0]] + Without(o[1..], k)
  }

  /**
   * The JavaScript assignment `obj[k] = v`: an existing entry is
   * overwritten where it stands, a new one is appended at the end.
   */
  function Assign(o: Obj, k: string, v: Value): (r: Obj)
    ensures Lookup(r, k) == Some(v)
    ensures forall k2 :: k2 != k ==> Lookup(r, k2) == Lookup(o, k2)
    ensures Keys(r) == Keys(o) + {k}
    ensures WellFormed(o) ==> WellFormed(r)
    ensures k !in Keys(o) ==> r == o + [Entry(k, v)]
    ensures k in Keys(o) ==> |r| == |o| && forall i :: 0 <= i < |o| ==> r[i].key == o[i].key
  {
    if o == [] then [Entry(k, v)]
    else if o[0].key == k then [Entry(k, v)] + o[1..]
    else [o[0]] + Assign(o[1..], k, v)
  }

  /** JavaScript truthiness of a JSON value (JSON has no NaN and no undefined). */
  predicate Truthy(v: Value)
  {
    match v
    case Null => false
    case Bool(b) => b
    case Num(n) => n != 0.0
    case Str(s) => s != ""
    case Arr(_) => true
    case Object(_) => true
  }

  /** `!!obj[k]` in JavaScript: a missing key reads as `undefined`, which is falsy. */
  predicate TruthyAt(o: Obj, k: string)
  {
    match Lookup(o, k)
    case None => false
    case Some(v) => Truthy(v)
  }
}

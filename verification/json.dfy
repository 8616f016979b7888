/** The JSON-like trees that log records are built from and serialised as. */
module Json {
  import opened Wrappers

  /** A JSON value. `Num` holds the floating-point values (durations) as reals. */
  datatype Value =
    | Null
    | Bool(b: bool)
    | Int(i: int)
    | Num(r: real)
    | Str(s: string)
    | Arr(items: seq<Value>)
    | Obj(fields: seq<Field>)

  /** One entry of a JSON object (a Python dict keeps insertion order). */
  datatype Field = Field(key: string, value: Value)

  /** The keys of an object's entries, in order. */
  function Keys(fs: seq<Field>): (ks: seq<string>)
    ensures |ks| == |fs|
    ensures forall i :: 0 <= i < |fs| ==> ks[i] == fs[i].key
  {
    if fs == [] then [] else [fs[0].key] + Keys(fs[1..])
  }

  /** The value stored under `k` (first entry with that key), as `dict.get`. */
  function Get(fs: seq<Field>, k: string): (r: Option<Value>)
    ensures r.None? <==> k !in Keys(fs)
    ensures r.Some? ==> Field(k, r.value) in fs
  {
    if fs == [] then None
    else if fs[0].key == k then Some(fs[0].value)
    else Get(fs[1..], k)
  }

  /** Looking a key up past a prefix that lacks it. */
  lemma {:induction false} GetAppendMissing(a: seq<Field>, b: seq<Field>, k: string)
    requires forall i :: 0 <= i < |a| ==> a[i].key != k
    ensures Get(a + b, k) == Get(b, k)
    decreases |a|
  {
    if a == [] {
      assert a + b == b;
    } else {
      assert (a + b)[0] == a[0];
      assert (a + b)[1..] == a[1..] + b;
      GetAppendMissing(a[1..], b, k);
    }
  }

  /** Looking up a key finds its first entry. */
  lemma {:induction false} GetFirst(fs: seq<Field>, k: string, i: int)
    requires 0 <= i < |fs| && fs[i].key == k
    requires forall j :: 0 <= j < i ==> fs[j].key != k
    ensures Get(fs, k) == Some(fs[i].value)
  {
    if i > 0 {
      GetFirst(fs[1..], k, i - 1);
    }
  }

  /** Python `None` or an integer. */
  function OptInt(o: Option<int>): Value {
    match o
    case Some(n) => Int(n)
    case None => Null
  }

  /** Python `None` or a string. */
  function OptStr(o: Option<string>): Value {
    match o
    case Some(s) => Str(s)
    case None => Null
  }
}

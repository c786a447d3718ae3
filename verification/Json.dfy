/** Results, and JSON values as the card and state code sees them. */
module Json {

  datatype Option<+T> = None | Some(value: T)

  datatype Result<+T> = Ok(value: T) | Err(error: string)

  predicate IsRatio(x: real, m: int, d: int) {
    d != 0 && x * d as real == m as real
  }

  /** A finite float: a rational number. Rounding and width are not modelled. */
  type F64 = x: real | exists m: int, d: int :: IsRatio(x, m, d) ghost witness (assert IsRatio(0.0, 0, 1); 0.0)

  function WholeF64(i: int): (x: F64)
    ensures x == i as real
  {
    assert IsRatio(i as real, i, 1);
    i as real
  }

  const I64_MIN := -0x8000_0000_0000_0000
  const I64_MAX := 0x7fff_ffff_ffff_ffff
  const U64_MAX := 0xffff_ffff_ffff_ffff

  /** What serde keeps as an integer: an i64 or a u64. */
  type JsonInt = i: int | I64_MIN <= i <= U64_MAX

  /** A parsed JSON value. Numbers keep serde's split between integers and
      floats. Objects have no key order. */
  datatype Json =
    | Null
    | Bool(b: bool)
    | Int(i: JsonInt)
    | Float(f: F64)
    | Str(s: string)
    | Arr(items: seq<Json>)
    | Obj(m: map<string, Json>)

  predicate IsNumber(v: Json) {
    v.Int? || v.Float?
  }

  function AsF64(v: Json): real
    requires IsNumber(v)
  {
    if v.Int? then v.i as real else v.f
  }

  /** `get(key)` on a value that may be missing or not an object. */
  function Child(v: Option<Json>, key: string): Option<Json> {
    if v.Some? && v.value.Obj? && key in v.value.m then Some(v.value.m[key]) else None
  }

  function AsStr(v: Option<Json>): Option<string> {
    if v.Some? && v.value.Str? then Some(v.value.s) else None
  }

  /** Fetch a nested value by path. */
  function FetchPath(doc: Json, path: seq<string>): Option<Json> {
    if path == [] then Some(doc)
    else if doc.Obj? && path[0] in doc.m then FetchPath(doc.m[path[0]], path[1..])
    else None
  }

  lemma FetchRoot(doc: Json)
    ensures FetchPath(doc, []) == Some(doc)
  {
  }

  /** One more path element is one more step into the fetched value. */
  lemma {:induction false} FetchSnoc(doc: Json, path: seq<string>, key: string)
    ensures FetchPath(doc, path + [key]) == Child(FetchPath(doc, path), key)
  {
    if path == [] {
      if doc.Obj? && key in doc.m {
        assert ([key])[1..] == [];
      }
    } else {
      assert (path + [key])[1..] == path[1..] + [key];
      if doc.Obj? && path[0] in doc.m {
        FetchSnoc(doc.m[path[0]], path[1..], key);
      }
    }
  }

  /** The JSON text codec, a parameter of the model. */
  datatype JsonCodec = JsonCodec(render: Json -> string, parse: string -> Option<Json>)

  /** What is rendered parses back. */
  ghost predicate Inverse(codec: JsonCodec) {
    forall v :: codec.parse(codec.render(v)) == Some(v)
  }
}

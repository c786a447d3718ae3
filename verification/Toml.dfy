/** TOML values and the two converters between TOML and JSON. */
module Toml {
  import opened Json

  type I64 = i: int | I64_MIN <= i <= I64_MAX

  datatype Toml =
    | TStr(s: string)
    | TInt(i: I64)
    | TFloat(f: F64)
    | TBool(b: bool)
    | TDatetime(text: string)
    | TArr(items: seq<Toml>)
    | TTable(m: map<string, Toml>)

  /** Reading direction: dates become strings, everything else keeps its kind. */
  function TomlToJson(t: Toml): Json
    decreases t, 0
  {
    match t
    case TStr(s) => Str(s)
    case TInt(i) => Int(i)
    case TFloat(f) => Float(f)
    case TBool(b) => Bool(b)
    case TDatetime(text) => Str(text)
    case TArr(items) => Arr(ItemsToJson(items))
    case TTable(m) => Obj(map k | k in m :: TomlToJson(m[k]))
  }

  function ItemsToJson(items: seq<Toml>): (out: seq<Json>)
    ensures |out| == |items|
    decreases items, 1
  {
    if items == [] then [] else [TomlToJson(items[0])] + ItemsToJson(items[1..])
  }

  /** An integer that does not fit an i64 is read as a float. */
  function NumberToToml(i: int): Toml {
    if I64_MIN <= i <= I64_MAX then TInt(i) else TFloat(WholeF64(i))
  }

  /** What the writing direction produces: nulls inside arrays and objects are
      dropped, since TOML has none. */
  function ToToml(v: Json): Toml
    requires !v.Null?
    decreases v, 0
  {
    match v
    case Bool(b) => TBool(b)
    case Int(i) => NumberToToml(i)
    case Float(f) => TFloat(f)
    case Str(s) => TStr(s)
    case Arr(items) => TArr(ItemsToToml(items))
    case Obj(m) => TTable(map k | k in m && !m[k].Null? :: ToToml(m[k]))
  }

  function ItemsToToml(items: seq<Json>): seq<Toml>
    decreases items, 1
  {
    if items == [] then []
    else (if items[0].Null? then [] else [ToToml(items[0])]) + ItemsToToml(items[1..])
  }

  lemma {:induction false} ItemsToTomlSnoc(items: seq<Json>, v: Json)
    ensures ItemsToToml(items + [v])
         == ItemsToToml(items) + if v.Null? then [] else [ToToml(v)]
  {
    hide ToToml;
    if items == [] {
      assert items + [v] == [v] && [v][1..] == [];
    } else {
      var more, rest := items + [v], items[1..];
      assert more[0] == items[0] && more[1..] == rest + [v];
      ItemsToTomlSnoc(rest, v);
      var head, last := if items[0].Null? then [] else [ToToml(items[0])], if v.Null? then [] else [ToToml(v)];
      assert head + (ItemsToToml(rest) + last) == (head + ItemsToToml(rest)) + last;
    }
  }

  /** Writing direction. Fails on a top-level null and on nothing else. */
  method JsonToToml(v: Json) returns (r: Result<Toml>)
    ensures r.Ok? <==> !v.Null?
    ensures r.Ok? ==> r.value == ToToml(v)
    decreases v
  {
    match v {
      case Null => r := Err("TOML does not support null values");
      case Bool(b) => r := Ok(TBool(b));
      case Int(i) => r := Ok(NumberToToml(i));
      case Float(f) => r := Ok(TFloat(f));
      case Str(s) => r := Ok(TStr(s));
      case Arr(items) =>
        var out: seq<Toml> := [];
        for i := 0 to |items|
          invariant out == ItemsToToml(items[..i])
        {
          ItemsToTomlSnoc(items[..i], items[i]);
          assert items[..i] + [items[i]] == items[..i + 1];
          if !items[i].Null? {
            var item := JsonToToml(items[i]);
            if item.Err? {
              return item;
            }
            out := out + [item.value];
          }
        }
        assert items[..|items|] == items;
        r := Ok(TArr(out));
      case Obj(m) =>
        var table: map<string, Toml> := map[];
        var todo := m.Keys;
        while todo != {}
          invariant todo <= m.Keys
          invariant table == map k | k in m.Keys - todo && !m[k].Null? :: ToToml(m[k])
          decreases todo
        {
          var k :| k in todo;
          if !m[k].Null? {
            var val := JsonToToml(m[k]);
            if val.Err? {
              return val;
            }
            table := table[k := val.value];
          }
          todo := todo - {k};
        }
        assert table == map k | k in m && !m[k].Null? :: ToToml(m[k]);
        r := Ok(TTable(table));
    }
  }

  // ----- the round trip -----

  /** v without the nulls inside it, at every depth. */
  function StripNulls(v: Json): Json
    decreases v, 0
  {
    match v
    case Arr(items) => Arr(StripItems(items))
    case Obj(m) => Obj(map k | k in m && !m[k].Null? :: StripNulls(m[k]))
    case _ => v
  }

  function StripItems(items: seq<Json>): seq<Json>
    decreases items, 1
  {
    if items == [] then []
    else (if items[0].Null? then [] else [StripNulls(items[0])]) + StripItems(items[1..])
  }

  /** Every integer in v fits an i64. */
  predicate FitsI64(v: Json)
    decreases v, 0
  {
    match v
    case Int(i) => I64_MIN <= i <= I64_MAX
    case Arr(items) => forall i | 0 <= i < |items| :: FitsI64(items[i])
    case Obj(m) => forall k | k in m :: FitsI64(m[k])
    case _ => true
  }

  /** Writing and reading back drops the nulls and nothing else exactly when
      every integer fits an i64; a larger one comes back as a float. */
  lemma {:induction false} RoundTrip(v: Json)
    requires !v.Null?
    ensures TomlToJson(ToToml(v)) == StripNulls(v) <==> FitsI64(v)
    decreases v, 0
  {
    match v {
      case Arr(items) => RoundTripItems(items);
      case Obj(m) => RoundTripEntries(v);
      case _ =>
    }
  }

  lemma {:induction false} RoundTripItems(items: seq<Json>)
    ensures ItemsToJson(ItemsToToml(items)) == StripItems(items)
       <==> forall i | 0 <= i < |items| :: FitsI64(items[i])
    decreases items, 1
  {
    if items != [] {
      var rest := items[1..];
      RoundTripItems(rest);
      FitsCons(items);
      if !items[0].Null? {
        RoundTrip(items[0]);
        var t, ts := ToToml(items[0]), ItemsToToml(rest);
        assert ([t] + ts)[1..] == ts;
        assert ItemsToJson(ItemsToToml(items)) == [TomlToJson(t)] + ItemsToJson(ts);
        ConsEqual(TomlToJson(t), ItemsToJson(ts), StripNulls(items[0]), StripItems(rest));
      } else {
        assert ItemsToToml(items) == ItemsToToml(rest) && StripItems(items) == StripItems(rest);
      }
    }
  }

  lemma FitsCons(items: seq<Json>)
    requires items != []
    ensures (forall i | 0 <= i < |items| :: FitsI64(items[i]))
       <==> FitsI64(items[0]) && forall i | 0 <= i < |items[1..]| :: FitsI64(items[1..][i])
  {
    if FitsI64(items[0]) && forall i | 0 <= i < |items[1..]| :: FitsI64(items[1..][i]) {
      forall i | 0 <= i < |items|
        ensures FitsI64(items[i])
      {
        assert i > 0 ==> items[i] == items[1..][i - 1];
      }
    }
  }

  lemma ConsEqual(x: Json, xs: seq<Json>, y: Json, ys: seq<Json>)
    ensures [x] + xs == [y] + ys <==> x == y && xs == ys
  {
    if [x] + xs == [y] + ys {
      assert ([x] + xs)[0] == x && ([y] + ys)[0] == y;
      assert ([x] + xs)[1..] == xs && ([y] + ys)[1..] == ys;
    }
  }

  lemma {:induction false} RoundTripEntries(v: Json)
    requires v.Obj?
    ensures TomlToJson(ToToml(v)) == StripNulls(v) <==> FitsI64(v)
    decreases v, -1
  {
    var m := v.m;
    var back, stripped := TomlToJson(ToToml(v)).m, StripNulls(v).m;
    assert back.Keys == stripped.Keys;
    forall k | k in m
      ensures m[k].Null? || (back[k] == stripped[k] <==> FitsI64(m[k]))
    {
      if !m[k].Null? {
        RoundTrip(m[k]);
      }
    }
    if FitsI64(v) {
      assert back == stripped;
    }
    if back == stripped {
      forall k | k in m
        ensures FitsI64(m[k])
      {
        if !m[k].Null? {
          assert back[k] == stripped[k];
        }
      }
    }
  }
}

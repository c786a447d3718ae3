/** The key-order-free serialization that card fingerprints are hashed from.
    Here objects do have a key order, as they may in a parsed document. */
module StableJson {
  import opened Sorting
  import opened WhereDsl
  import Text
  import Find
  import Json

  datatype Entry = Entry(key: string, value: OJson)

  /** JSON with ordered objects; a number is its printed text. */
  datatype OJson =
    | ONull
    | OBool(b: bool)
    | ONumber(text: string)
    | OStr(s: string)
    | OArr(items: seq<OJson>)
    | OObj(entries: seq<Entry>)

  predicate DistinctKeys(entries: seq<Entry>) {
    forall i, j | 0 <= i < j < |entries| :: entries[i].key != entries[j].key
  }

  /** No object, at any depth, has a key twice. */
  predicate Valid(v: OJson) {
    match v
    case OArr(items) => forall i | 0 <= i < |items| :: Valid(items[i])
    case OObj(entries) =>
      DistinctKeys(entries) && forall i | 0 <= i < |entries| :: Valid(entries[i].value)
    case _ => true
  }

  function Keys(entries: seq<Entry>): (keys: seq<string>)
    ensures |keys| == |entries| && forall i | 0 <= i < |keys| :: keys[i] == entries[i].key
  {
    if entries == [] then [] else [entries[0].key] + Keys(entries[1..])
  }

  function ByName(): Comparator<string> {
    (a, b) => CompareString(a, b)
  }

  function SortedKeys(entries: seq<Entry>): seq<string> {
    SortBy(Keys(entries), ByName())
  }

  function IndexOf(entries: seq<Entry>, key: string): (i: nat)
    requires key in Keys(entries)
    ensures i < |entries| && entries[i].key == key
  {
    if entries[0].key == key then 0 else 1 + IndexOf(entries[1..], key)
  }

  lemma SortedKeysAreKeys(entries: seq<Entry>)
    ensures forall k | k in SortedKeys(entries) :: k in Keys(entries)
    ensures |SortedKeys(entries)| == |entries|
  {
    SortMultiset(Keys(entries), ByName());
    var sorted := SortedKeys(entries);
    assert |multiset(sorted)| == |multiset(Keys(entries))|;
    forall k | k in sorted
      ensures k in Keys(entries)
    {
      assert k in multiset(sorted);
    }
  }

  // ----- the text -----

  /** What `stable_json` writes: objects by sorted key, strings unescaped. */
  function TextOf(v: OJson): string
    decreases v, 1, 0
  {
    match v
    case ONull => "null"
    case OBool(b) => if b then "true" else "false"
    case ONumber(text) => text
    case OStr(s) => "\"" + s + "\""
    case OArr(items) => "[" + ItemsText(v, |items|) + "]"
    case OObj(entries) =>
      SortedKeysAreKeys(entries);
      "{" + FieldsText(v, SortedKeys(entries)) + "}"
  }

  /** The first n items, separated by commas. */
  function ItemsText(v: OJson, n: nat): string
    requires v.OArr? && n <= |v.items|
    decreases v, 0, n
  {
    if n == 0 then ""
    else ItemsText(v, n - 1) + (if n > 1 then "," else "") + TextOf(v.items[n - 1])
  }

  /** The fields named by `keys`, in that order, separated by commas. */
  function FieldsText(v: OJson, keys: seq<string>): string
    requires v.OObj? && forall k | k in keys :: k in Keys(v.entries)
    decreases v, 0, |keys|
  {
    if keys == [] then "" else
    var n := |keys| - 1;
    FieldsText(v, keys[..n]) + (if n > 0 then "," else "") + "\"" + keys[n] + "\":"
    + TextOf(v.entries[IndexOf(v.entries, keys[n])].value)
  }

  method StableJsonInto(v: OJson, buf: string) returns (out: string)
    ensures out == buf + TextOf(v)
    decreases v, 1
  {
    match v {
      case ONull => out := buf + "null";
      case OBool(b) => out := buf + if b then "true" else "false";
      case ONumber(text) => out := buf + text;
      case OStr(s) =>
        out := buf + "\"";
        out := out + s;
        out := out + "\"";
        assert out == buf + TextOf(v);
      case OArr(_) => out := StableArrayInto(v, buf);
      case OObj(_) => out := StableObjectInto(v, buf);
    }
  }

  method StableArrayInto(v: OJson, buf: string) returns (out: string)
    requires v.OArr?
    ensures out == buf + TextOf(v)
    decreases v, 0
  {
    out := buf + "[";
    for i := 0 to |v.items|
      invariant out == buf + "[" + ItemsText(v, i)
    {
      ghost var before, sep := ItemsText(v, i), if i > 0 then "," else "";
      if i > 0 {
        out := out + ",";
      }
      out := StableJsonInto(v.items[i], out);
      assert ItemsText(v, i + 1) == before + sep + TextOf(v.items[i]);
      assert out == buf + "[" + (before + sep + TextOf(v.items[i]));
    }
    out := out + "]";
    assert out == buf + ("[" + ItemsText(v, |v.items|) + "]");
  }

  /** Field i with the comma that separates it from the one before. */
  ghost function FieldPart(v: OJson, keys: seq<string>, i: nat): string
    requires v.OObj? && i < |keys| && keys[i] in Keys(v.entries)
  {
    (if i > 0 then "," else "") + "\"" + keys[i] + "\":"
    + TextOf(v.entries[IndexOf(v.entries, keys[i])].value)
  }

  lemma FieldsTextStep(v: OJson, keys: seq<string>, i: nat)
    requires v.OObj? && i < |keys| && forall k | k in keys :: k in Keys(v.entries)
    ensures FieldsText(v, keys[..i + 1]) == FieldsText(v, keys[..i]) + FieldPart(v, keys, i)
  {
    var upTo := keys[..i + 1];
    assert upTo[..i] == keys[..i] && upTo[i] == keys[i];
    var sep, t := if i > 0 then "," else "", TextOf(v.entries[IndexOf(v.entries, keys[i])].value);
    Glue(FieldsText(v, keys[..i]), sep, "\"", keys[i], "\":", t);
  }

  lemma NoFields(v: OJson)
    requires v.OObj?
    ensures FieldsText(v, []) == ""
  {
  }

  lemma Glue(a: string, b: string, c: string, d: string, e: string, f: string)
    ensures a + b + c + d + e + f == a + (b + c + d + e + f)
  {
    Regroup(a, b, c);
    Regroup(a, b + c, d);
    Regroup(a, b + c + d, e);
    Regroup(a, b + c + d + e, f);
  }

  lemma Regroup(a: string, b: string, c: string)
    ensures (a + b) + c == a + (b + c)
  {
  }

  method StableObjectInto(v: OJson, buf: string) returns (out: string)
    requires v.OObj?
    ensures out == buf + TextOf(v)
    decreases v, 0
  {
    hide FieldsText;
    var keys := Keys(v.entries);
    keys := SortBy(keys, ByName());
    SortedKeysAreKeys(v.entries);
    out := buf + "{";
    NoFields(v);
    for i := 0 to |keys|
      invariant out == buf + "{" + FieldsText(v, keys[..i])
    {
      var value := v.entries[IndexOf(v.entries, keys[i])].value;
      ghost var start, sep := out, if i > 0 then "," else "";
      if i > 0 {
        out := out + ",";
      }
      out := out + "\"";
      out := out + keys[i];
      out := out + "\":";
      out := StableJsonInto(value, out);
      Glue(start, sep, "\"", keys[i], "\":", TextOf(value));
      FieldsTextStep(v, keys, i);
      Regroup(buf + "{", FieldsText(v, keys[..i]), FieldPart(v, keys, i));
    }
    assert keys[..|keys|] == keys;
    out := out + "}";
    assert out == buf + ("{" + FieldsText(v, keys) + "}");
  }

  // ----- canonicity -----

  /** The same value up to the order of object keys, at every depth. */
  ghost predicate SameUpToOrder(a: OJson, b: OJson) {
    match (a, b)
    case (OArr(xs), OArr(ys)) =>
      |xs| == |ys| && forall i | 0 <= i < |xs| :: SameUpToOrder(xs[i], ys[i])
    case (OObj(xs), OObj(ys)) =>
      && (forall k :: k in Keys(xs) <==> k in Keys(ys))
      && (forall i, j | 0 <= i < |xs| && 0 <= j < |ys| ::
            xs[i].key == ys[j].key ==> SameUpToOrder(xs[i].value, ys[j].value))
    case _ => a == b
  }

  lemma ByNameIsPreorder()
    ensures TotalPreorder(ByName())
  {
    forall a: string, b: string
      ensures ByName()(a, b) == Reverse(ByName()(b, a))
    {
      Find.StringsCompose(a, b, a);
    }
    forall a: string, b: string, c: string
      | !ByName()(a, b).Greater? && !ByName()(b, c).Greater?
      ensures !ByName()(a, c).Greater?
    {
      Find.StringsCompose(a, b, c);
    }
  }

  lemma EqualMeansSame(a: string, b: string)
    ensures CompareString(a, b).Equal? <==> a == b
  {
    Text.LexIrreflexive(a);
  }

  lemma {:induction false} DistinctTies(keys: seq<string>, x: string)
    requires forall i, j | 0 <= i < j < |keys| :: keys[i] != keys[j]
    ensures Ties(keys, x, ByName()) == if x in keys then [x] else []
  {
    if keys != [] {
      hide CompareString;
      DistinctTies(keys[1..], x);
      EqualMeansSame(x, keys[0]);
      assert keys == [keys[0]] + keys[1..];
    }
  }

  lemma SameKeysSortAlike(a: seq<Entry>, b: seq<Entry>)
    requires DistinctKeys(a) && DistinctKeys(b)
    requires forall k :: k in Keys(a) <==> k in Keys(b)
    ensures SortedKeys(a) == SortedKeys(b)
  {
    ByNameIsPreorder();
    forall x
      ensures Ties(Keys(a), x, ByName()) == Ties(Keys(b), x, ByName())
    {
      DistinctTies(Keys(a), x);
      DistinctTies(Keys(b), x);
    }
    ResortAgrees(Keys(b), Keys(a), ByName());
  }

  /** Values that differ only in key order, at any depth, have the same text. */
  lemma {:induction false} TextIsCanonical(a: OJson, b: OJson)
    requires Valid(a) && Valid(b) && SameUpToOrder(a, b)
    ensures TextOf(a) == TextOf(b)
    decreases a, 1, 0
  {
    match (a, b) {
      case (OArr(xs), OArr(ys)) => ItemsCanonical(a, b, |xs|);
      case (OObj(xs), OObj(ys)) =>
        SameKeysSortAlike(xs, ys);
        SortedKeysAreKeys(xs);
        FieldsCanonical(a, b, SortedKeys(xs));
      case _ =>
    }
  }

  lemma {:induction false} ItemsCanonical(a: OJson, b: OJson, n: nat)
    requires a.OArr? && b.OArr? && Valid(a) && Valid(b) && SameUpToOrder(a, b)
    requires n <= |a.items|
    ensures ItemsText(a, n) == ItemsText(b, n)
    decreases a, 0, n
  {
    if n > 0 {
      ItemsCanonical(a, b, n - 1);
      TextIsCanonical(a.items[n - 1], b.items[n - 1]);
    }
  }

  lemma {:induction false} FieldsCanonical(a: OJson, b: OJson, keys: seq<string>)
    requires a.OObj? && b.OObj? && Valid(a) && Valid(b) && SameUpToOrder(a, b)
    requires forall k | k in keys :: k in Keys(a.entries)
    ensures FieldsText(a, keys) == FieldsText(b, keys)
    decreases a, 0, |keys|
  {
    if keys != [] {
      var n := |keys| - 1;
      FieldsCanonical(a, b, keys[..n]);
      var i, j := IndexOf(a.entries, keys[n]), IndexOf(b.entries, keys[n]);
      TextIsCanonical(a.entries[i].value, b.entries[j].value);
    }
  }

  /** The converse fails: strings are written unescaped, so a quote inside one
      can imitate structure and two different values share a text. */
  lemma TextIsNotInjective(a: OJson, b: OJson)
    requires a == OArr([OStr("x\",\"y")]) && b == OArr([OStr("x"), OStr("y")])
    ensures Valid(a) && Valid(b) && !SameUpToOrder(a, b) && TextOf(a) == TextOf(b)
  {
    assert ItemsText(a, 0) == "" && ItemsText(b, 0) == "";
    assert ItemsText(a, 1) == "\"x\",\"y\"";
    assert ItemsText(b, 1) == "\"x\"";
    assert ItemsText(b, 2) == "\"x\",\"y\"";
  }

  // ----- when the text determines the value -----

  predicate NumberChar(c: char) {
    '0' <= c <= '9' || c == '+' || c == '-' || c == '.' || c == 'e' || c == 'E'
  }

  predicate NumberText(t: string) {
    t != "" && ('0' <= t[0] <= '9' || t[0] == '-') && forall i | 0 <= i < |t| :: NumberChar(t[i])
  }

  predicate Plain(s: string) {
    forall i | 0 <= i < |s| :: s[i] != '"'
  }

  /** No quote in any string or key, and numbers printed as JSON prints them. */
  predicate Readable(v: OJson) {
    match v
    case ONumber(text) => NumberText(text)
    case OStr(s) => Plain(s)
    case OArr(items) => forall i | 0 <= i < |items| :: Readable(items[i])
    case OObj(entries) => forall i | 0 <= i < |entries| :: Plain(entries[i].key) && Readable(entries[i].value)
    case _ => true
  }

  /** What may follow a value. */
  predicate Stop(r: string) {
    r == "" || r[0] == ',' || r[0] == ']' || r[0] == '}'
  }

  lemma Peel(p: string, x: string, q: string, y: string)
    requires p + x == q + y && |p| == |q|
    ensures p == q && x == y
  {
    assert (p + x)[..|p|] == p && (q + y)[..|q|] == q;
    assert (p + x)[|p|..] == x && (q + y)[|q|..] == y;
  }

  lemma At(s: string, x: string, i: nat)
    requires i < |s| + |x|
    ensures (s + x)[i] == if i < |s| then s[i] else x[i - |s|]
  {
  }

  lemma UntilQuote(s: string, x: string, t: string, y: string)
    requires Plain(s) && Plain(t) && x != "" && y != "" && x[0] == '"' && y[0] == '"' && s + x == t + y
    ensures s == t && x == y
  {
    At(s, x, |s|);
    At(t, y, |s|);
    At(s, x, |t|);
    At(t, y, |t|);
    Peel(s, x, t, y);
  }

  lemma UntilStop(s: string, x: string, t: string, y: string)
    requires NumberText(s) && NumberText(t) && Stop(x) && Stop(y) && s + x == t + y
    ensures s == t && x == y
  {
    assert |s| + |x| == |s + x| == |t| + |y|;
    if x != "" {
      At(s, x, |s|);
      At(t, y, |s|);
    }
    if y != "" {
      At(s, x, |t|);
      At(t, y, |t|);
    }
    Peel(s, x, t, y);
  }

  /** The first character tells what kind of value a text is. */
  function KindOf(c: char): nat {
    if c == 'n' then 0 else if c == 't' then 1 else if c == 'f' then 2 else if c == '"' then 3
    else if c == '[' then 4 else if c == '{' then 5 else if '0' <= c <= '9' || c == '-' then 6 else 7
  }

  function Kind(v: OJson): nat {
    match v
    case ONull => 0
    case OBool(b) => if b then 1 else 2
    case OStr(_) => 3
    case OArr(_) => 4
    case OObj(_) => 5
    case ONumber(_) => 6
  }

  lemma FirstChar(v: OJson)
    requires Readable(v)
    ensures TextOf(v) != "" && KindOf(TextOf(v)[0]) == Kind(v)
  {
  }

  lemma SameKind(a: OJson, x: string, b: OJson, y: string)
    requires Readable(a) && Readable(b) && TextOf(a) + x == TextOf(b) + y
    ensures Kind(a) == Kind(b)
  {
    hide TextOf, Kind;
    FirstChar(a);
    FirstChar(b);
    assert (TextOf(a) + x)[0] == TextOf(a)[0] && (TextOf(b) + y)[0] == TextOf(b)[0];
  }

  /** The rest of an array's text from item i on. */
  function ItemsTail(v: OJson, i: nat): string
    requires v.OArr? && i <= |v.items|
    decreases |v.items| - i
  {
    if i == |v.items| then "]"
    else (if i > 0 then "," else "") + (TextOf(v.items[i]) + ItemsTail(v, i + 1))
  }

  lemma {:induction false} ItemsSplit(v: OJson, i: nat)
    requires v.OArr? && i <= |v.items|
    ensures ItemsText(v, i) + ItemsTail(v, i) == ItemsText(v, |v.items|) + "]"
    decreases |v.items| - i
  {
    if i < |v.items| {
      ItemsSplit(v, i + 1);
      var sep := if i > 0 then "," else "";
      assert ItemsText(v, i + 1) == ItemsText(v, i) + sep + TextOf(v.items[i]);
      Chain(ItemsText(v, i), sep, TextOf(v.items[i]), ItemsTail(v, i + 1));
    }
  }

  lemma Chain(a: string, b: string, c: string, d: string)
    ensures (a + b + c) + d == a + (b + (c + d))
  {
    Regroup(a + b, c, d);
    Regroup(a, b, c + d);
  }

  lemma ArrText(v: OJson)
    requires v.OArr?
    ensures TextOf(v) == "[" + ItemsTail(v, 0)
  {
    ItemsSplit(v, 0);
    assert ItemsText(v, 0) + ItemsTail(v, 0) == ItemsTail(v, 0);
    Regroup("[", ItemsText(v, |v.items|), "]");
  }

  /** The rest of an object's text from the i-th sorted key on. */
  ghost function FieldsTail(v: OJson, keys: seq<string>, i: nat): string
    requires v.OObj? && i <= |keys| && forall k | k in keys :: k in Keys(v.entries)
    decreases |keys| - i
  {
    if i == |keys| then "}" else FieldPart(v, keys, i) + FieldsTail(v, keys, i + 1)
  }

  lemma {:induction false} FieldsSplit(v: OJson, keys: seq<string>, i: nat)
    requires v.OObj? && i <= |keys| && forall k | k in keys :: k in Keys(v.entries)
    ensures FieldsText(v, keys[..i]) + FieldsTail(v, keys, i) == FieldsText(v, keys) + "}"
    decreases |keys| - i
  {
    hide FieldsText, FieldPart;
    if i < |keys| {
      FieldsSplit(v, keys, i + 1);
      FieldsTextStep(v, keys, i);
      Regroup(FieldsText(v, keys[..i]), FieldPart(v, keys, i), FieldsTail(v, keys, i + 1));
    } else {
      assert keys[..i] == keys;
    }
  }

  lemma ObjText(v: OJson)
    requires v.OObj?
    ensures (forall k | k in SortedKeys(v.entries) :: k in Keys(v.entries))
    ensures TextOf(v) == "{" + FieldsTail(v, SortedKeys(v.entries), 0)
  {
    SortedKeysAreKeys(v.entries);
    var keys := SortedKeys(v.entries);
    hide FieldPart;
    FieldsSplit(v, keys, 0);
    NoFields(v);
    assert keys[..0] == [];
    assert "" + FieldsTail(v, keys, 0) == FieldsTail(v, keys, 0);
    Regroup("{", FieldsText(v, keys), "}");
  }

  ghost predicate SameFrom(a: OJson, b: OJson, i: nat)
    requires a.OArr? && b.OArr?
  {
    |a.items| == |b.items| && forall j | i <= j < |a.items| :: SameUpToOrder(a.items[j], b.items[j])
  }

  lemma TailStops(v: OJson, i: nat, x: string)
    requires v.OArr? && 0 < i <= |v.items|
    ensures Stop(ItemsTail(v, i) + x)
  {
    hide TextOf;
  }

  /** A text that is a readable value and then a stop is that value, up to key order,
      and that stop. */
  lemma {:induction false} Reads(a: OJson, x: string, b: OJson, y: string)
    requires Valid(a) && Valid(b) && Readable(a) && Readable(b) && Stop(x) && Stop(y)
    requires TextOf(a) + x == TextOf(b) + y
    ensures SameUpToOrder(a, b) && x == y
    decreases a, 3, 0
  {
    SameKind(a, x, b, y);
    match a {
      case ONull => Peel(TextOf(a), x, TextOf(b), y);
      case OBool(_) => Peel(TextOf(a), x, TextOf(b), y);
      case ONumber(text) => UntilStop(text, x, b.text, y);
      case OStr(s) =>
        Requote(s, x);
        Requote(b.s, y);
        Peel("\"", s + ("\"" + x), "\"", b.s + ("\"" + y));
        UntilQuote(s, "\"" + x, b.s, "\"" + y);
        Peel("\"", x, "\"", y);
      case OArr(_) =>
        ArrText(a);
        ArrText(b);
        Regroup("[", ItemsTail(a, 0), x);
        Regroup("[", ItemsTail(b, 0), y);
        Peel("[", ItemsTail(a, 0) + x, "[", ItemsTail(b, 0) + y);
        ItemsRead(a, x, b, y, 0);
      case OObj(_) =>
        ObjText(a);
        ObjText(b);
        var ks, ls := SortedKeys(a.entries), SortedKeys(b.entries);
        Regroup("{", FieldsTail(a, ks, 0), x);
        Regroup("{", FieldsTail(b, ls, 0), y);
        Peel("{", FieldsTail(a, ks, 0) + x, "{", FieldsTail(b, ls, 0) + y);
        FieldsRead(a, ks, x, b, ls, y, 0);
        SameFields(a, b, ks);
    }
  }

  lemma Requote(s: string, x: string)
    ensures ("\"" + s + "\"") + x == "\"" + (s + ("\"" + x))
  {
    Regroup("\"" + s, "\"", x);
    Regroup("\"", s, "\"" + x);
  }

  lemma {:induction false} ItemsRead(a: OJson, x: string, b: OJson, y: string, i: nat)
    requires a.OArr? && b.OArr? && Valid(a) && Valid(b) && Readable(a) && Readable(b) && Stop(x) && Stop(y)
    requires i <= |a.items| && i <= |b.items| && ItemsTail(a, i) + x == ItemsTail(b, i) + y
    ensures SameFrom(a, b, i) && x == y
    decreases a, 2, |a.items| - i
  {
    hide TextOf, SameUpToOrder, Readable, Valid;
    ItemsAreReadable(a);
    ItemsAreReadable(b);
    if i < |a.items| && i < |b.items| {
      var sep, ta, tb := if i > 0 then "," else "", TextOf(a.items[i]), TextOf(b.items[i]);
      var ra, rb := ItemsTail(a, i + 1), ItemsTail(b, i + 1);
      Chain("", sep, ta + ra, x);
      Chain("", sep, tb + rb, y);
      Unfold(sep, ta, ra, x);
      Unfold(sep, tb, rb, y);
      Peel(sep, ta + (ra + x), sep, tb + (rb + y));
      TailStops(a, i + 1, x);
      TailStops(b, i + 1, y);
      Reads(a.items[i], ra + x, b.items[i], rb + y);
      ItemsRead(a, x, b, y, i + 1);
    } else if i < |a.items| {
      TailIsNotEnd(a, i, x);
    } else if i < |b.items| {
      TailIsNotEnd(b, i, y);
    } else {
      Peel("]", x, "]", y);
    }
  }

  lemma Unfold(a: string, b: string, c: string, d: string)
    ensures (a + (b + c)) + d == a + (b + (c + d))
  {
    Regroup(a, b + c, d);
    Regroup(b, c, d);
  }

  lemma ItemsAreReadable(v: OJson)
    requires v.OArr? && Valid(v) && Readable(v)
    ensures forall i | 0 <= i < |v.items| :: Valid(v.items[i]) && Readable(v.items[i])
  {
  }

  lemma TailIsNotEnd(v: OJson, i: nat, x: string)
    requires v.OArr? && i < |v.items| && Readable(v.items[i])
    ensures ItemsTail(v, i) + x != "" && (ItemsTail(v, i) + x)[0] != ']'
  {
    hide TextOf;
    FirstChar(v.items[i]);
  }

  ghost predicate SameFieldsFrom(a: OJson, b: OJson, keys: seq<string>, i: nat)
    requires a.OObj? && b.OObj?
    requires forall k | k in keys :: k in Keys(a.entries) && k in Keys(b.entries)
  {
    forall j | i <= j < |keys| :: SameUpToOrder(ValueAt(a, keys[j]), ValueAt(b, keys[j]))
  }

  function ValueAt(v: OJson, key: string): OJson
    requires v.OObj? && key in Keys(v.entries)
  {
    v.entries[IndexOf(v.entries, key)].value
  }

  lemma ValuesAreReadable(v: OJson, key: string)
    requires v.OObj? && key in Keys(v.entries) && Valid(v) && Readable(v)
    ensures Valid(ValueAt(v, key)) && Readable(ValueAt(v, key)) && Plain(key) && ValueAt(v, key) < v
  {
    var i := IndexOf(v.entries, key);
    assert v.entries[i].key == key;
  }

  lemma PartIs(v: OJson, keys: seq<string>, i: nat, rest: string)
    requires v.OObj? && i < |keys| && keys[i] in Keys(v.entries)
    ensures FieldPart(v, keys, i) + rest
         == (if i > 0 then ",\"" else "\"") + (keys[i] + ("\":" + (TextOf(ValueAt(v, keys[i])) + rest)))
  {
    hide TextOf;
    var sep, t := if i > 0 then "," else "", TextOf(ValueAt(v, keys[i]));
    assert sep + "\"" == if i > 0 then ",\"" else "\"";
    Regroup(sep + "\"" + keys[i] + "\":", t, rest);
    Regroup(sep + "\"" + keys[i], "\":", t + rest);
    Regroup(sep + "\"", keys[i], "\":" + (t + rest));
  }

  ghost predicate AgreeUpTo(ks: seq<string>, ls: seq<string>, i: nat): (ok: bool)
    ensures ok ==> i <= |ks| && i <= |ls|
  {
    i <= |ks| && i <= |ls| && ks[..i] == ls[..i]
  }

  lemma AgreeStep(ks: seq<string>, ls: seq<string>, i: nat)
    requires AgreeUpTo(ks, ls, i) && i < |ks| && i < |ls| && ks[i] == ls[i]
    ensures AgreeUpTo(ks, ls, i + 1)
  {
    assert ks[..i + 1] == ks[..i] + [ks[i]] && ls[..i + 1] == ls[..i] + [ls[i]];
  }

  lemma AgreeAll(a: OJson, ks: seq<string>, b: OJson, ls: seq<string>, i: nat)
    requires a.OObj? && b.OObj? && AgreeUpTo(ks, ls, i) && i == |ks| == |ls|
    requires forall k | k in ks :: k in Keys(a.entries)
    requires forall k | k in ls :: k in Keys(b.entries)
    ensures ks == ls && SameFieldsFrom(a, b, ks, i)
  {
    assert ks == ks[..i] && ls == ls[..i];
  }

  lemma SameFieldsStep(a: OJson, b: OJson, keys: seq<string>, i: nat)
    requires a.OObj? && b.OObj? && i < |keys|
    requires forall k | k in keys :: k in Keys(a.entries) && k in Keys(b.entries)
    requires SameUpToOrder(ValueAt(a, keys[i]), ValueAt(b, keys[i])) && SameFieldsFrom(a, b, keys, i + 1)
    ensures SameFieldsFrom(a, b, keys, i)
  {
    hide SameUpToOrder, ValueAt;
  }

  /** One field is read up to its value. */
  lemma FieldHead(a: OJson, ks: seq<string>, ra: string, b: OJson, ls: seq<string>, rb: string, i: nat)
    requires a.OObj? && b.OObj? && i < |ks| && i < |ls| && ks[i] in Keys(a.entries) && ls[i] in Keys(b.entries)
    requires Plain(ks[i]) && Plain(ls[i]) && FieldPart(a, ks, i) + ra == FieldPart(b, ls, i) + rb
    ensures ks[i] == ls[i] && TextOf(ValueAt(a, ks[i])) + ra == TextOf(ValueAt(b, ls[i])) + rb
  {
    hide TextOf, FieldPart, ValueAt, Plain;
    PartIs(a, ks, i, ra);
    PartIs(b, ls, i, rb);
    var open := if i > 0 then ",\"" else "\"";
    var ta, tb := TextOf(ValueAt(a, ks[i])) + ra, TextOf(ValueAt(b, ls[i])) + rb;
    Peel(open, ks[i] + ("\":" + ta), open, ls[i] + ("\":" + tb));
    UntilQuote(ks[i], "\":" + ta, ls[i], "\":" + tb);
    Peel("\":", ta, "\":", tb);
  }

  lemma {:induction false} FieldsRead(a: OJson, ks: seq<string>, x: string, b: OJson, ls: seq<string>, y: string,
      i: nat)
    requires a.OObj? && b.OObj? && Valid(a) && Valid(b) && Readable(a) && Readable(b) && Stop(x) && Stop(y)
    requires forall k | k in ks :: k in Keys(a.entries)
    requires forall k | k in ls :: k in Keys(b.entries)
    requires AgreeUpTo(ks, ls, i)
    requires FieldsTail(a, ks, i) + x == FieldsTail(b, ls, i) + y
    ensures ks == ls && SameFieldsFrom(a, b, ks, i) && x == y
    decreases a, 2, |ks| - i
  {
    hide TextOf, SameUpToOrder, Readable, Valid, FieldPart, ValueAt, Stop, AgreeUpTo, SameFieldsFrom;
    if i < |ks| && i < |ls| {
      var k, l := ks[i], ls[i];
      ValuesAreReadable(a, k);
      ValuesAreReadable(b, l);
      var ra, rb := FieldsTail(a, ks, i + 1) + x, FieldsTail(b, ls, i + 1) + y;
      Regroup(FieldPart(a, ks, i), FieldsTail(a, ks, i + 1), x);
      Regroup(FieldPart(b, ls, i), FieldsTail(b, ls, i + 1), y);
      FieldHead(a, ks, ra, b, ls, rb, i);
      FieldsStop(a, ks, i + 1, x);
      FieldsStop(b, ls, i + 1, y);
      Reads(ValueAt(a, k), ra, ValueAt(b, l), rb);
      AgreeStep(ks, ls, i);
      FieldsRead(a, ks, x, b, ls, y, i + 1);
      SameFieldsStep(a, b, ks, i);
    } else if i < |ks| {
      FieldsNotEnd(a, ks, i, x);
    } else if i < |ls| {
      FieldsNotEnd(b, ls, i, y);
    } else {
      AgreeAll(a, ks, b, ls, i);
      Peel("}", x, "}", y);
    }
  }

  lemma FieldsStop(v: OJson, keys: seq<string>, i: nat, x: string)
    requires v.OObj? && 0 < i <= |keys| && forall k | k in keys :: k in Keys(v.entries)
    ensures Stop(FieldsTail(v, keys, i) + x)
  {
    if i < |keys| {
      FieldsNotEnd(v, keys, i, x);
    }
  }

  lemma FieldsNotEnd(v: OJson, keys: seq<string>, i: nat, x: string)
    requires v.OObj? && i < |keys| && forall k | k in keys :: k in Keys(v.entries)
    ensures var t := FieldsTail(v, keys, i) + x;
            t != "" && t[0] == if i > 0 then ',' else '"'
  {
    hide FieldPart, TextOf, ValueAt;
    Regroup(FieldPart(v, keys, i), FieldsTail(v, keys, i + 1), x);
    PartIs(v, keys, i, FieldsTail(v, keys, i + 1) + x);
  }

  lemma KeysAreSorted(entries: seq<Entry>, k: string)
    ensures k in Keys(entries) <==> k in SortedKeys(entries)
  {
    SortMultiset(Keys(entries), ByName());
    assert k in Keys(entries) <==> k in multiset(Keys(entries));
    assert k in SortedKeys(entries) <==> k in multiset(SortedKeys(entries));
  }

  lemma SameFields(a: OJson, b: OJson, keys: seq<string>)
    requires a.OObj? && b.OObj? && Valid(a) && Valid(b)
    requires keys == SortedKeys(a.entries) == SortedKeys(b.entries)
    requires forall k | k in keys :: k in Keys(a.entries) && k in Keys(b.entries)
    requires SameFieldsFrom(a, b, keys, 0)
    ensures SameUpToOrder(a, b)
  {
    hide SortedKeys;
    forall k
      ensures k in Keys(a.entries) <==> k in Keys(b.entries)
    {
      KeysAreSorted(a.entries, k);
      KeysAreSorted(b.entries, k);
    }
    forall i, j | 0 <= i < |a.entries| && 0 <= j < |b.entries| && a.entries[i].key == b.entries[j].key
      ensures SameUpToOrder(a.entries[i].value, b.entries[j].value)
    {
      var k := a.entries[i].key;
      assert Keys(a.entries)[i] == k && Keys(b.entries)[j] == k;
      KeysAreSorted(a.entries, k);
      var n :| 0 <= n < |keys| && keys[n] == k;
      assert IndexOf(a.entries, k) == i && IndexOf(b.entries, k) == j;
      assert SameUpToOrder(ValueAt(a, keys[n]), ValueAt(b, keys[n]));
    }
  }

  /** Unique readability: on values whose strings and keys hold no quote, equal texts
      are exactly equal values up to key order. */
  lemma TextDeterminesValue(a: OJson, b: OJson)
    requires Valid(a) && Valid(b) && Readable(a) && Readable(b)
    ensures TextOf(a) == TextOf(b) <==> SameUpToOrder(a, b)
  {
    if SameUpToOrder(a, b) {
      TextIsCanonical(a, b);
    }
    if TextOf(a) == TextOf(b) {
      assert TextOf(a) + "" == TextOf(b) + "";
      Reads(a, "", b, "");
    }
  }
}

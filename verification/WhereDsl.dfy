/** The `where` query language: a compiler from JSON to predicate trees, the
    evaluator of those trees, and a direct interpreter they must agree with. */
module WhereDsl {
  import opened Json
  import opened Sorting
  import Text

  datatype CmpOp = Eq | Ne | Lt | Lte | Gt | Gte | In | Nin | Exists | Contains | StartsWith

  function FromKey(k: string): Option<CmpOp> {
    match k
    case "eq" => Some(Eq)
    case "ne" => Some(Ne)
    case "lt" => Some(Lt)
    case "lte" => Some(Lte)
    case "gt" => Some(Gt)
    case "gte" => Some(Gte)
    case "in" => Some(In)
    case "nin" => Some(Nin)
    case "exists" => Some(Exists)
    case "contains" => Some(Contains)
    case "starts_with" => Some(StartsWith)
    case _ => None
  }

  datatype Predicate =
    | And(subs: seq<Predicate>)
    | Or(subs: seq<Predicate>)
    | Not(sub: Predicate)
    | Cmp(path: seq<string>, op: CmpOp, value: Json)

  /** Every key is an operator name, and there is at least one. */
  predicate IsOperatorObject(m: map<string, Json>) {
    m.Keys != {} && forall k | k in m :: FromKey(k).Some?
  }

  // ----- comparisons -----

  function CompareReal(x: real, y: real): Ordering {
    if x < y then Less else if x == y then Equal else Greater
  }

  function CompareString(x: string, y: string): Ordering {
    if Text.LexLess(x, y) then Less else if x == y then Equal else Greater
  }

  function CompareBool(x: bool, y: bool): Ordering {
    if x == y then Equal else if y then Less else Greater
  }

  /** None when the two values are not comparable. */
  function JsonCmp(a: Json, b: Json): Option<Ordering> {
    if IsNumber(a) && IsNumber(b) then Some(CompareReal(AsF64(a), AsF64(b)))
    else if a.Str? && b.Str? then Some(CompareString(a.s, b.s))
    else if a.Bool? && b.Bool? then Some(CompareBool(a.b, b.b))
    else None
  }

  predicate JsonEq(a: Json, b: Json) {
    if IsNumber(a) && IsNumber(b) then AsF64(a) == AsF64(b) else a == b
  }

  predicate IsSubstring(needle: string, hay: string) {
    exists i | 0 <= i <= |hay| :: needle <= hay[i..]
  }

  predicate Ordered(op: CmpOp, ord: Ordering) {
    match op
    case Lt => ord.Less?
    case Lte => ord.Less? || ord.Equal?
    case Gt => ord.Greater?
    case Gte => ord.Greater? || ord.Equal?
    case _ => false
  }

  /** One operator applied to the value found at its path, if any. */
  predicate OpHolds(op: CmpOp, want: Json, actual: Option<Json>) {
    match op
    case Exists => actual.Some? == (if want.Bool? then want.b else true)
    case Ne => actual.None? || !JsonEq(actual.value, want)
    case Nin =>
      actual.None? || (want.Arr? && !exists e | e in want.items :: JsonEq(e, actual.value))
    case Eq => actual.Some? && JsonEq(actual.value, want)
    case In => actual.Some? && want.Arr? && exists e | e in want.items :: JsonEq(e, actual.value)
    case Contains =>
      actual.Some? && actual.value.Str? && want.Str? && IsSubstring(want.s, actual.value.s)
    case StartsWith => actual.Some? && actual.value.Str? && want.Str? && want.s <= actual.value.s
    case _ =>
      actual.Some? && JsonCmp(actual.value, want).Some?
      && Ordered(op, JsonCmp(actual.value, want).value)
  }

  predicate OperatorsHold(keys: set<string>, m: map<string, Json>, actual: Option<Json>)
    requires IsOperatorObject(m) && keys <= m.Keys
  {
    forall o | o in keys :: OpHolds(FromKey(o).value, m[o], actual)
  }

  /** Evaluate a predicate tree against a whole document. */
  predicate Eval(p: Predicate, doc: Json) {
    match p
    case And(subs) => forall i | 0 <= i < |subs| :: Eval(subs[i], doc)
    case Or(subs) => exists i | 0 <= i < |subs| :: Eval(subs[i], doc)
    case Not(sub) => !Eval(sub, doc)
    case Cmp(path, op, value) => OpHolds(op, value, FetchPath(doc, path))
  }

  // ----- the direct reading of a where clause -----

  /** Exactly the clauses that compile. */
  predicate WellFormed(w: Json)
    decreases w, 0
  {
    w.Obj? && forall k | k in w.m :: EntryWellFormed(k, w.m[k])
  }

  predicate EntryWellFormed(key: string, v: Json)
    decreases v, 1
  {
    if key == "_and" || key == "_or" then
      v.Arr? && forall i | 0 <= i < |v.items| :: WellFormed(v.items[i])
    else if key == "_not" then WellFormed(v)
    else v.Obj? && !IsOperatorObject(v.m) ==> WellFormed(v)
  }

  /** What clause w says about the value `at`, walking clause and value down
      together; no paths are built. */
  predicate Holds(w: Json, at: Option<Json>)
    requires WellFormed(w)
    decreases w, 0
  {
    forall k | k in w.m :: EntryHolds(k, w.m[k], at)
  }

  predicate EntryHolds(key: string, v: Json, at: Option<Json>)
    requires EntryWellFormed(key, v)
    decreases v, 1
  {
    if key == "_and" then forall i | 0 <= i < |v.items| :: Holds(v.items[i], at)
    else if key == "_or" then exists i | 0 <= i < |v.items| :: Holds(v.items[i], at)
    else if key == "_not" then !Holds(v, at)
    else if v.Obj? && IsOperatorObject(v.m) then
      OperatorsHold(v.m.Keys, v.m, Child(at, key))
    else if v.Obj? then Holds(v, Child(at, key))
    else OpHolds(Eq, v, Child(at, key))
  }

  // ----- the compiler -----

  /** Predicate p, run on a whole document, says what clause w says about the
      value at `prefix` in that document. */
  ghost predicate Means(p: Predicate, w: Json, prefix: seq<string>)
    requires WellFormed(w)
  {
    forall doc :: Eval(p, doc) == Holds(w, FetchPath(doc, prefix))
  }

  ghost predicate AllHold(clauses: seq<Predicate>, doc: Json) {
    forall i | 0 <= i < |clauses| :: Eval(clauses[i], doc)
  }

  ghost predicate KeysWellFormed(keys: set<string>, m: map<string, Json>) {
    forall k | k in keys :: k in m && EntryWellFormed(k, m[k])
  }

  ghost predicate KeysHold(keys: set<string>, m: map<string, Json>, at: Option<Json>)
    requires KeysWellFormed(keys, m)
  {
    forall k | k in keys :: EntryHolds(k, m[k], at)
  }

  method ParseWhere(value: Json) returns (r: Result<Predicate>)
    ensures r.Ok? <==> WellFormed(value)
    ensures r.Ok? ==> forall doc :: Eval(r.value, doc) == Holds(value, Some(doc))
  {
    r := ParsePredicate(value, []);
    if r.Ok? {
      forall doc
        ensures Eval(r.value, doc) == Holds(value, Some(doc))
      {
        assert FetchPath(doc, []) == Some(doc);
      }
    }
  }

  /** Keys are visited in any order: the result means the same whichever it is. */
  method ParsePredicate(value: Json, prefix: seq<string>) returns (r: Result<Predicate>)
    ensures r.Ok? <==> WellFormed(value)
    ensures r.Ok? ==> Means(r.value, value, prefix)
    decreases value, 1
  {
    if !value.Obj? {
      return Err("where clause must be a table");
    }
    var m := value.m;
    var clauses: seq<Predicate> := [];
    var todo := m.Keys;
    while todo != {}
      invariant todo <= m.Keys
      invariant KeysWellFormed(m.Keys - todo, m)
      invariant forall doc ::
          AllHold(clauses, doc) == KeysHold(m.Keys - todo, m, FetchPath(doc, prefix))
      decreases todo
    {
      var key :| key in todo;
      ghost var done, before := m.Keys - todo, clauses;
      var more := ParseEntry(key, m[key], prefix);
      if more.Err? {
        return Err(more.error);
      }
      clauses := clauses + more.value;
      todo := todo - {key};
      assert m.Keys - todo == done + {key};
      forall doc
        ensures AllHold(clauses, doc)
             == KeysHold(m.Keys - todo, m, FetchPath(doc, prefix))
      {
        AllHoldConcat(before, more.value, doc);
        assert AllHold(before, doc) == KeysHold(done, m, FetchPath(doc, prefix));
      }
    }
    assert m.Keys - todo == m.Keys;
    forall doc
      ensures AllHold(clauses, doc) == Holds(value, FetchPath(doc, prefix))
    {
      assert AllHold(clauses, doc) == KeysHold(m.Keys, m, FetchPath(doc, prefix));
    }
    if |clauses| == 1 {
      r := Ok(clauses[0]);
      forall doc
        ensures Eval(clauses[0], doc) == AllHold(clauses, doc)
      {
      }
    } else {
      r := Ok(And(clauses));
    }
  }

  /** The clauses one key contributes. */
  method ParseEntry(key: string, val: Json, prefix: seq<string>) returns (r: Result<seq<Predicate>>)
    ensures r.Ok? <==> EntryWellFormed(key, val)
    ensures r.Ok? ==> forall doc ::
        AllHold(r.value, doc) == EntryHolds(key, val, FetchPath(doc, prefix))
    decreases val, 2
  {
    if key == "_and" || key == "_or" {
      if !val.Arr? {
        return Err(key + " must be an array of sub-predicates");
      }
      var subs := ParseAll(val, prefix);
      if subs.Err? {
        return Err(subs.error);
      }
      var p := if key == "_and" then And(subs.value) else Or(subs.value);
      r := Ok([p]);
      forall doc
        ensures AllHold([p], doc) == EntryHolds(key, val, FetchPath(doc, prefix))
      {
        AllHoldSingle(p, doc);
        LogicalHolds(key, subs.value, val, prefix, doc);
      }
    } else if key == "_not" {
      var sub := ParsePredicate(val, prefix);
      if sub.Err? {
        return Err(sub.error);
      }
      r := Ok([Not(sub.value)]);
      forall doc
        ensures AllHold(r.value, doc) == EntryHolds(key, val, FetchPath(doc, prefix))
      {
        AllHoldSingle(Not(sub.value), doc);
        assert Eval(sub.value, doc) == Holds(val, FetchPath(doc, prefix));
      }
    } else {
      var path := prefix + [key];
      forall doc
        ensures FetchPath(doc, path) == Child(FetchPath(doc, prefix), key)
      {
        FetchSnoc(doc, prefix, key);
      }
      if val.Obj? && IsOperatorObject(val.m) {
        var leaves := ParseOperators(val.m, path);
        r := Ok(leaves);
      } else if val.Obj? {
        var section := ParsePredicate(val, path);
        if section.Err? {
          return Err(section.error);
        }
        r := Ok([section.value]);
        forall doc
          ensures AllHold(r.value, doc) == EntryHolds(key, val, FetchPath(doc, prefix))
        {
          AllHoldSingle(section.value, doc);
          assert Eval(section.value, doc) == Holds(val, FetchPath(doc, path));
        }
      } else {
        r := Ok([Cmp(path, Eq, val)]);
        forall doc
          ensures AllHold(r.value, doc) == EntryHolds(key, val, FetchPath(doc, prefix))
        {
          AllHoldSingle(Cmp(path, Eq, val), doc);
        }
      }
    }
  }

  lemma LogicalHolds(key: string, subs: seq<Predicate>, val: Json, prefix: seq<string>, doc: Json)
    requires (key == "_and" || key == "_or") && EntryWellFormed(key, val)
    requires |subs| == |val.items|
    requires forall i | 0 <= i < |subs| :: Means(subs[i], val.items[i], prefix)
    ensures Eval(if key == "_and" then And(subs) else Or(subs), doc)
         == EntryHolds(key, val, FetchPath(doc, prefix))
  {
    forall i | 0 <= i < |subs|
      ensures Eval(subs[i], doc) == Holds(val.items[i], FetchPath(doc, prefix))
    {
      assert Means(subs[i], val.items[i], prefix);
    }
  }

  method ParseAll(val: Json, prefix: seq<string>) returns (r: Result<seq<Predicate>>)
    requires val.Arr?
    ensures r.Ok? <==> forall i | 0 <= i < |val.items| :: WellFormed(val.items[i])
    ensures r.Ok? ==> |r.value| == |val.items|
    ensures r.Ok? ==> forall i | 0 <= i < |val.items| :: Means(r.value[i], val.items[i], prefix)
    decreases val, 1
  {
    var subs: seq<Predicate> := [];
    for i := 0 to |val.items|
      invariant |subs| == i
      invariant forall j | 0 <= j < i :: WellFormed(val.items[j]) && Means(subs[j], val.items[j], prefix)
    {
      var sub := ParsePredicate(val.items[i], prefix);
      if sub.Err? {
        return Err(sub.error);
      }
      subs := subs + [sub.value];
    }
    r := Ok(subs);
  }

  method ParseOperators(m: map<string, Json>, path: seq<string>) returns (leaves: seq<Predicate>)
    requires IsOperatorObject(m)
    ensures forall doc ::
        AllHold(leaves, doc) == OperatorsHold(m.Keys, m, FetchPath(doc, path))
  {
    leaves := [];
    var todo := m.Keys;
    while todo != {}
      invariant todo <= m.Keys
      invariant forall doc ::
          AllHold(leaves, doc) == OperatorsHold(m.Keys - todo, m, FetchPath(doc, path))
      decreases todo
    {
      var key :| key in todo;
      var leaf := Cmp(path, FromKey(key).value, m[key]);
      ghost var done, before := m.Keys - todo, leaves;
      leaves := leaves + [leaf];
      todo := todo - {key};
      assert m.Keys - todo == done + {key};
      forall doc
        ensures AllHold(leaves, doc) == OperatorsHold(m.Keys - todo, m, FetchPath(doc, path))
      {
        AllHoldConcat(before, [leaf], doc);
        AllHoldSingle(leaf, doc);
        assert AllHold(before, doc) == OperatorsHold(done, m, FetchPath(doc, path));
      }
    }
    assert m.Keys - todo == m.Keys;
  }

  lemma AllHoldSingle(p: Predicate, doc: Json)
    ensures AllHold([p], doc) == Eval(p, doc)
  {
    assert AllHold([p], doc) ==> Eval([p][0], doc);
  }

  lemma AllHoldConcat(a: seq<Predicate>, b: seq<Predicate>, doc: Json)
    ensures AllHold(a + b, doc) == (AllHold(a, doc) && AllHold(b, doc))
  {
    if AllHold(a + b, doc) {
      forall i | 0 <= i < |a|
        ensures Eval(a[i], doc)
      {
        assert Eval((a + b)[i], doc);
      }
      forall i | 0 <= i < |b|
        ensures Eval(b[i], doc)
      {
        assert Eval((a + b)[|a| + i], doc);
      }
    }
  }

  // ----- laws of the query language -----

  /** The empty clause is true of everything, and a clause with several keys is
      the conjunction of its one-key clauses. */
  lemma KeysAreConjuncts(w: Json, key: string, at: Option<Json>)
    requires WellFormed(w) && key in w.m
    ensures WellFormed(Obj(w.m - {key})) && WellFormed(Obj(map[key := w.m[key]]))
    ensures Holds(Obj(map[]), at)
    ensures Holds(w, at) == (Holds(Obj(map[key := w.m[key]]), at) && Holds(Obj(w.m - {key}), at))
  {
    var one, rest := map[key := w.m[key]], w.m - {key};
    forall k | k in w.m
      ensures k in one || k in rest
    {
    }
    if Holds(Obj(one), at) && Holds(Obj(rest), at) {
      forall k | k in w.m
        ensures EntryHolds(k, w.m[k], at)
      {
        if k == key {
          assert EntryHolds(k, one[k], at);
        } else {
          assert EntryHolds(k, rest[k], at);
        }
      }
    }
  }

  /** A missing value is treated exactly as a value that is not an object. */
  lemma {:induction false} MissingIsNonObject(w: Json, leaf: Json)
    requires WellFormed(w) && !leaf.Obj?
    ensures Holds(w, None) == Holds(w, Some(leaf))
    decreases w, 0
  {
    forall k | k in w.m
      ensures EntryHolds(k, w.m[k], None) == EntryHolds(k, w.m[k], Some(leaf))
    {
      MissingEntry(k, w.m[k], leaf);
    }
  }

  lemma {:induction false} MissingEntry(key: string, v: Json, leaf: Json)
    requires EntryWellFormed(key, v) && !leaf.Obj?
    ensures EntryHolds(key, v, None) == EntryHolds(key, v, Some(leaf))
    decreases v, 1
  {
    if key == "_and" || key == "_or" {
      forall i | 0 <= i < |v.items|
        ensures Holds(v.items[i], None) == Holds(v.items[i], Some(leaf))
      {
        MissingIsNonObject(v.items[i], leaf);
      }
    } else if key == "_not" {
      MissingIsNonObject(v, leaf);
    } else {
      assert Child(None, key) == Child(Some(leaf), key);
    }
  }

  /** Compiling at a prefix is compiling at the root and running against the
      sub-document found there, or against any non-object when there is none. */
  lemma PrefixIsSubDocument(nested: Predicate, root: Predicate, w: Json, prefix: seq<string>,
      doc: Json, leaf: Json)
    requires WellFormed(w) && !leaf.Obj?
    requires Means(nested, w, prefix) && Means(root, w, [])
    ensures Eval(nested, doc) == match FetchPath(doc, prefix)
                                 case Some(sub) => Eval(root, sub)
                                 case None => Eval(root, leaf)
  {
    hide Eval, Holds;
    if FetchPath(doc, prefix).Some? {
      FetchRoot(FetchPath(doc, prefix).value);
    } else {
      MissingIsNonObject(w, leaf);
      FetchRoot(leaf);
    }
  }

  /** Negated operators are complements of their positive forms exactly where
      the documented missing-field rules let them be. */
  lemma NegatedOperators(want: Json, actual: Option<Json>)
    ensures OpHolds(Ne, want, actual) == !OpHolds(Eq, want, actual)
    ensures OpHolds(Nin, want, actual) == !OpHolds(In, want, actual)
       <==> actual.None? || want.Arr?
    ensures OpHolds(Gte, want, actual) == !OpHolds(Lt, want, actual)
       <==> actual.Some? && JsonCmp(actual.value, want).Some?
    ensures OpHolds(Lte, want, actual) == !OpHolds(Gt, want, actual)
       <==> actual.Some? && JsonCmp(actual.value, want).Some?
  {
  }

  /** On a missing field only `ne`, `nin` and `exists = false` hold. */
  lemma MissingField(op: CmpOp, want: Json)
    ensures OpHolds(op, want, None) <==> op == Ne || op == Nin || (op == Exists && want == Bool(false))
  {
  }
}

/** Card queries: the light path over summaries, the full path over whole
    documents, and when the two answer alike. */
module Find {
  import opened Json
  import opened Sorting
  import opened Toml
  import opened WhereDsl
  import Text

  /** A card file as a scan meets it; `doc` is None when the file cannot be
      read or parsed. */
  datatype CardFile = CardFile(pkg: string, stem: string, doc: Option<Toml>)

  datatype Summary = Summary(cardId: string, pkg: string, createdAt: Option<string>,
    model: Option<string>, flow: Option<string>, scenario: Option<string>, passRate: Option<real>)

  datatype CardRow = CardRow(full: Json, summary: Summary)

  datatype OrderKey = OrderKey(path: seq<string>, desc: bool)

  datatype FindQuery = FindQuery(where_: Option<Predicate>, orderBy: seq<OrderKey>,
    limit: Option<nat>, offset: Option<nat>)

  // ----- projection straight from TOML -----

  function TomlChild(t: Option<Toml>, key: string): Option<Toml> {
    if t.Some? && t.value.TTable? && key in t.value.m then Some(t.value.m[key]) else None
  }

  function TomlStr(t: Option<Toml>): Option<string> {
    if t.Some? && t.value.TStr? then Some(t.value.s) else None
  }

  function TomlFloat(t: Option<Toml>): Option<real> {
    if t.Some? && t.value.TFloat? then Some(t.value.f) else None
  }

  function Summarize(file: CardFile): Option<Summary> {
    if file.doc.None? then None else
    var val := file.doc;
    Some(Summary(
      GetOr(TomlStr(TomlChild(val, "card_id")), file.stem),
      file.pkg,
      TomlStr(TomlChild(val, "created_at")),
      TomlStr(TomlChild(TomlChild(val, "model"), "id")),
      TomlStr(TomlChild(TomlChild(val, "run"), "flow")),
      TomlStr(TomlChild(TomlChild(val, "scenario"), "name")),
      TomlFloat(TomlChild(TomlChild(val, "stats"), "pass_rate"))))
  }

  function GetOr<T>(o: Option<T>, default: T): T {
    if o.Some? then o.value else default
  }

  // ----- projection from the whole document as JSON -----

  function JsonF64(v: Option<Json>): Option<real> {
    if v.Some? && IsNumber(v.value) then Some(AsF64(v.value)) else None
  }

  function LoadFull(file: CardFile): Option<CardRow> {
    if file.doc.None? then None else
    var json := TomlToJson(file.doc.value);
    var val := Some(json);
    Some(CardRow(json, Summary(
      GetOr(AsStr(Child(val, "card_id")), file.stem),
      file.pkg,
      AsStr(Child(val, "created_at")),
      AsStr(Child(Child(val, "model"), "id")),
      AsStr(Child(Child(val, "run"), "flow")),
      AsStr(Child(Child(val, "scenario"), "name")),
      JsonF64(Child(Child(val, "stats"), "pass_rate")))))
  }

  predicate IsDatetime(t: Option<Toml>) {
    t.Some? && t.value.TDatetime?
  }

  /** The fields a summary shows are TOML strings, and the pass rate a TOML
      float, wherever they are present. */
  predicate PlainFields(file: CardFile)
    requires file.doc.Some?
  {
    var val := file.doc;
    var id := TomlChild(val, "card_id");
    && (IsDatetime(id) ==> id.value.text == file.stem)
    && !IsDatetime(TomlChild(val, "created_at"))
    && !IsDatetime(TomlChild(TomlChild(val, "model"), "id"))
    && !IsDatetime(TomlChild(TomlChild(val, "run"), "flow"))
    && !IsDatetime(TomlChild(TomlChild(val, "scenario"), "name"))
    && (var rate := TomlChild(TomlChild(val, "stats"), "pass_rate");
        !(rate.Some? && rate.value.TInt?))
  }

  lemma ChildCommutes(t: Option<Toml>, key: string)
    ensures Child(ToJson(t), key) == ToJson(TomlChild(t, key))
  {
  }

  function ToJson(t: Option<Toml>): Option<Json> {
    if t.Some? then Some(TomlToJson(t.value)) else None
  }

  lemma StringReads(t: Option<Toml>)
    ensures AsStr(ToJson(t)) == (if IsDatetime(t) then Some(t.value.text) else TomlStr(t))
  {
  }

  lemma FloatReads(t: Option<Toml>)
    ensures JsonF64(ToJson(t))
         == (if t.Some? && t.value.TInt? then Some(t.value.i as real) else TomlFloat(t))
  {
  }

  /** The two projections of one file give the same summary exactly when the
      file keeps its summary fields in the types the light path reads. */
  lemma ProjectionsAgree(file: CardFile)
    ensures Summarize(file).Some? <==> LoadFull(file).Some?
    ensures file.doc.Some? ==>
              (Summarize(file).value == LoadFull(file).value.summary <==> PlainFields(file))
  {
    if file.doc.Some? {
      hide TomlToJson, Child, TomlChild, AsStr, TomlStr, JsonF64, TomlFloat;
      var val := file.doc;
      var top, model, run, scenario, stats :=
        ToJson(val), TomlChild(val, "model"), TomlChild(val, "run"), TomlChild(val, "scenario"),
        TomlChild(val, "stats");
      ChildCommutes(val, "card_id");
      ChildCommutes(val, "created_at");
      ChildCommutes(val, "model");
      ChildCommutes(val, "run");
      ChildCommutes(val, "scenario");
      ChildCommutes(val, "stats");
      ChildCommutes(model, "id");
      ChildCommutes(run, "flow");
      ChildCommutes(scenario, "name");
      ChildCommutes(stats, "pass_rate");
      StringReads(TomlChild(val, "card_id"));
      StringReads(TomlChild(val, "created_at"));
      StringReads(TomlChild(model, "id"));
      StringReads(TomlChild(run, "flow"));
      StringReads(TomlChild(scenario, "name"));
      FloatReads(TomlChild(stats, "pass_rate"));
      NotAString(TomlChild(val, "card_id"));
      NotAString(TomlChild(val, "created_at"));
      NotAString(TomlChild(model, "id"));
      NotAString(TomlChild(run, "flow"));
      NotAString(TomlChild(scenario, "name"));
      NotAFloat(TomlChild(stats, "pass_rate"));
    }
  }

  lemma NotAString(t: Option<Toml>)
    ensures IsDatetime(t) ==> TomlStr(t) == None
  {
  }

  lemma NotAFloat(t: Option<Toml>)
    ensures t.Some? && t.value.TInt? ==> TomlFloat(t) == None
  {
  }

  // ----- comparators -----

  /** Missing sorts first: the order of an optional string. */
  function CompareOption(a: Option<string>, b: Option<string>): Ordering {
    match (a, b)
    case (None, None) => Equal
    case (None, Some(_)) => Less
    case (Some(_), None) => Greater
    case (Some(x), Some(y)) => CompareString(x, y)
  }

  /** Missing sorts last. */
  function CompareRate(a: Option<real>, b: Option<real>): Ordering {
    match (a, b)
    case (None, None) => Equal
    case (None, Some(_)) => Greater
    case (Some(_), None) => Less
    case (Some(x), Some(y)) => CompareReal(x, y)
  }

  /** A dotted key name splits into its path at the dots, so names and paths
      correspond one to one. */
  function SummaryCompare(a: Summary, b: Summary, path: seq<string>): Ordering {
    if path == ["card_id"] then CompareString(a.cardId, b.cardId)
    else if path == ["created_at"] then CompareOption(a.createdAt, b.createdAt)
    else if path == ["stats", "pass_rate"] then CompareRate(a.passRate, b.passRate)
    else if path == ["scenario", "name"] then CompareOption(a.scenario, b.scenario)
    else if path == ["model", "id"] then CompareOption(a.model, b.model)
    else if path == ["run", "flow"] then CompareOption(a.flow, b.flow)
    else Equal
  }

  function OrderSummaries(a: Summary, b: Summary, keys: seq<OrderKey>): Ordering {
    if keys == [] then Equal else
    var ord := SummaryCompare(a, b, keys[0].path);
    var ord := if keys[0].desc then Reverse(ord) else ord;
    if ord.Equal? then OrderSummaries(a, b, keys[1..]) else ord
  }

  function FieldCompare(a: Json, b: Json, path: seq<string>): Ordering {
    match (FetchPath(a, path), FetchPath(b, path))
    case (None, None) => Equal
    case (None, Some(_)) => Greater
    case (Some(_), None) => Less
    case (Some(x), Some(y)) => GetOr(JsonCmp(x, y), Equal)
  }

  function OrderCards(a: CardRow, b: CardRow, keys: seq<OrderKey>): Ordering {
    if keys == [] then Equal else
    var ord := FieldCompare(a.full, b.full, keys[0].path);
    var ord := if keys[0].desc then Reverse(ord) else ord;
    if ord.Equal? then OrderCards(a, b, keys[1..]) else ord
  }

  /** Default order: newest first, ties by descending card id. */
  function NewestFirst(a: Summary, b: Summary): Ordering {
    var ord := CompareOption(b.createdAt, a.createdAt);
    if ord.Equal? then CompareString(b.cardId, a.cardId) else ord
  }

  // ----- the pipeline -----

  const SUMMARY_SORT_FIELDS: seq<seq<string>> := [["card_id"], ["created_at"],
    ["stats", "pass_rate"], ["scenario", "name"], ["model", "id"], ["run", "flow"]]

  predicate LightKeys(keys: seq<OrderKey>) {
    forall i | 0 <= i < |keys| :: keys[i].path in SUMMARY_SORT_FIELDS
  }

  predicate IsLightweight(q: FindQuery) {
    q.where_.None? && LightKeys(q.orderBy)
  }

  function Limit(q: FindQuery): int {
    if q.limit.Some? then q.limit.value else -1
  }

  /** What loads, in scan order; unreadable files are skipped. */
  function Loaded<T>(files: seq<CardFile>, load: CardFile -> Option<T>): seq<T> {
    if files == [] then []
    else (if load(files[0]).Some? then [load(files[0]).value] else []) + Loaded(files[1..], load)
  }

  function ToSummaryRow(): CardFile -> Option<Summary> {
    (f: CardFile) => Summarize(f)
  }

  function ToCardRow(): CardFile -> Option<CardRow> {
    (f: CardFile) => LoadFull(f)
  }

  function Summaries(files: seq<CardFile>): seq<Summary> {
    Loaded(files, ToSummaryRow())
  }

  function Rows(files: seq<CardFile>): seq<CardRow> {
    Loaded(files, ToCardRow())
  }

  function Matching(rows: seq<CardRow>, where_: Option<Predicate>): seq<CardRow> {
    if rows == [] then [] else
    var keep := where_.None? || Eval(where_.value, rows[0].full);
    (if keep then [rows[0]] else []) + Matching(rows[1..], where_)
  }

  function ListOrder(): Comparator<Summary> {
    (a, b) => NewestFirst(a, b)
  }

  function LightOrder(keys: seq<OrderKey>): Comparator<Summary> {
    if keys == [] then ListOrder() else (a, b) => OrderSummaries(a, b, keys)
  }

  function FullOrder(keys: seq<OrderKey>): Comparator<CardRow> {
    if keys == [] then (a: CardRow, b: CardRow) => NewestFirst(a.summary, b.summary)
    else (a: CardRow, b: CardRow) => OrderCards(a, b, keys)
  }

  function ToSummary(): CardRow -> Summary {
    (r: CardRow) => r.summary
  }

  /** The light path: a newest-first listing, sorted again. */
  function LightRows(files: seq<CardFile>, keys: seq<OrderKey>): seq<Summary> {
    SortBy(SortBy(Summaries(files), ListOrder()), LightOrder(keys))
  }

  /** The full path: filter whole documents, sort, project. */
  function FullRows(files: seq<CardFile>, where_: Option<Predicate>, keys: seq<OrderKey>): seq<Summary> {
    Map(SortBy(Matching(Rows(files), where_), FullOrder(keys)), ToSummary())
  }

  lemma {:induction false} LoadedSnoc<T>(files: seq<CardFile>, f: CardFile, load: CardFile -> Option<T>)
    ensures Loaded(files + [f], load)
         == Loaded(files, load) + if load(f).Some? then [load(f).value] else []
  {
    if files == [] {
      assert files + [f] == [f];
    } else {
      var rest := files[1..];
      var head := if load(files[0]).Some? then [load(files[0]).value] else [];
      var last := if load(f).Some? then [load(f).value] else [];
      assert (files + [f])[0] == files[0] && (files + [f])[1..] == rest + [f];
      assert Loaded(files + [f], load) == head + Loaded(rest + [f], load);
      LoadedSnoc(rest, f, load);
      assert head + (Loaded(rest, load) + last) == (head + Loaded(rest, load)) + last;
    }
  }

  method List(files: seq<CardFile>) returns (out: seq<Summary>)
    ensures out == SortBy(Summaries(files), ListOrder())
  {
    out := [];
    for i := 0 to |files|
      invariant out == Summaries(files[..i])
    {
      LoadedSnoc(files[..i], files[i], ToSummaryRow());
      assert files[..i] + [files[i]] == files[..i + 1];
      var s := Summarize(files[i]);
      if s.Some? {
        out := out + [s.value];
      }
    }
    assert files[..|files|] == files;
    out := SortBy(out, ListOrder());
  }

  method ScanCards(files: seq<CardFile>) returns (rows: seq<CardRow>)
    ensures rows == Rows(files)
  {
    rows := [];
    for i := 0 to |files|
      invariant rows == Rows(files[..i])
    {
      LoadedSnoc(files[..i], files[i], ToCardRow());
      assert files[..i] + [files[i]] == files[..i + 1];
      var row := LoadFull(files[i]);
      if row.Some? {
        rows := rows + [row.value];
      }
    }
    assert files[..|files|] == files;
  }

  method FindWithStore(files: seq<CardFile>, q: FindQuery) returns (out: seq<Summary>)
    ensures var rows := if IsLightweight(q) then LightRows(files, q.orderBy)
                        else FullRows(files, q.where_, q.orderBy);
            out == Page(rows, GetOr(q.offset, 0), Limit(q))
  {
    if IsLightweight(q) {
      var rows := List(files);
      rows := SortBy(rows, LightOrder(q.orderBy));
      return Page(rows, GetOr(q.offset, 0), Limit(q));
    }
    var all := ScanCards(files);
    var rows := SortBy(Matching(all, q.where_), FullOrder(q.orderBy));
    PageCommutes(rows, ToSummary(), GetOr(q.offset, 0), Limit(q));
    out := Map(Page(rows, GetOr(q.offset, 0), Limit(q)), ToSummary());
  }

  // ----- the comparators are total preorders -----

  /** How three comparisons along a, b, c fit together. */
  predicate Composes(ab: Ordering, bc: Ordering, ac: Ordering) {
    if ab.Equal? then ac == bc
    else if bc.Equal? || ab == bc then ac == ab
    else true
  }

  lemma StringsCompose(a: string, b: string, c: string)
    ensures CompareString(a, b) == Reverse(CompareString(b, a))
    ensures Composes(CompareString(a, b), CompareString(b, c), CompareString(a, c))
  {
    Text.LexTotal(a, b);
    Text.LexTotal(b, c);
    Text.LexTotal(a, c);
    LessIsStrict(a, b);
    LessIsStrict(b, c);
    LessIsStrict(a, c);
    if Text.LexLess(a, b) && Text.LexLess(b, c) {
      Text.LexTransitive(a, b, c);
    }
    if Text.LexLess(c, b) && Text.LexLess(b, a) {
      Text.LexTransitive(c, b, a);
    }
  }

  lemma LessIsStrict(a: string, b: string)
    ensures !(Text.LexLess(a, b) && Text.LexLess(b, a))
    ensures Text.LexLess(a, b) ==> a != b
  {
    Text.LexIrreflexive(a);
    if Text.LexLess(a, b) && Text.LexLess(b, a) {
      Text.LexTransitive(a, b, a);
    }
  }

  lemma OptionsCompose(a: Option<string>, b: Option<string>, c: Option<string>)
    ensures CompareOption(a, b) == Reverse(CompareOption(b, a))
    ensures Composes(CompareOption(a, b), CompareOption(b, c), CompareOption(a, c))
  {
    StringsCompose(GetOr(a, ""), GetOr(b, ""), GetOr(c, ""));
  }

  lemma FieldsCompose(a: Summary, b: Summary, c: Summary, path: seq<string>)
    ensures SummaryCompare(a, b, path) == Reverse(SummaryCompare(b, a, path))
    ensures Composes(SummaryCompare(a, b, path), SummaryCompare(b, c, path), SummaryCompare(a, c, path))
  {
    hide CompareString, CompareOption;
    if path == ["card_id"] {
      StringsCompose(a.cardId, b.cardId, c.cardId);
    } else if path == ["created_at"] {
      OptionsCompose(a.createdAt, b.createdAt, c.createdAt);
    } else if path == ["scenario", "name"] {
      OptionsCompose(a.scenario, b.scenario, c.scenario);
    } else if path == ["model", "id"] {
      OptionsCompose(a.model, b.model, c.model);
    } else if path == ["run", "flow"] {
      OptionsCompose(a.flow, b.flow, c.flow);
    }
  }

  lemma {:induction false} SummariesCompose(a: Summary, b: Summary, c: Summary, keys: seq<OrderKey>)
    ensures OrderSummaries(a, b, keys) == Reverse(OrderSummaries(b, a, keys))
    ensures Composes(OrderSummaries(a, b, keys), OrderSummaries(b, c, keys), OrderSummaries(a, c, keys))
  {
    if keys != [] {
      hide SummaryCompare;
      FieldsCompose(a, b, c, keys[0].path);
      SummariesCompose(a, b, c, keys[1..]);
    }
  }

  lemma NewestCompose(a: Summary, b: Summary, c: Summary)
    ensures NewestFirst(a, b) == Reverse(NewestFirst(b, a))
    ensures Composes(NewestFirst(a, b), NewestFirst(b, c), NewestFirst(a, c))
  {
    hide CompareString, CompareOption;
    OptionsCompose(c.createdAt, b.createdAt, a.createdAt);
    OptionsCompose(b.createdAt, a.createdAt, c.createdAt);
    OptionsCompose(a.createdAt, b.createdAt, c.createdAt);
    StringsCompose(c.cardId, b.cardId, a.cardId);
    StringsCompose(b.cardId, a.cardId, c.cardId);
  }

  lemma LightOrderIsPreorder(keys: seq<OrderKey>)
    ensures TotalPreorder(LightOrder(keys))
  {
    var cmp := LightOrder(keys);
    forall a: Summary, b: Summary
      ensures cmp(a, b) == Reverse(cmp(b, a))
    {
      SummariesCompose(a, b, a, keys);
      NewestCompose(a, b, a);
    }
    forall a: Summary, b: Summary, c: Summary | !cmp(a, b).Greater? && !cmp(b, c).Greater?
      ensures !cmp(a, c).Greater?
    {
      SummariesCompose(a, b, c, keys);
      NewestCompose(a, b, c);
    }
  }

  // ----- when the two comparators say the same -----

  const PASS_RATE := ["stats", "pass_rate"]

  /** The field is missing or has the type Summary reads; a card id is there. */
  predicate KeyTyped(row: CardRow, path: seq<string>) {
    var v := FetchPath(row.full, path);
    if path == PASS_RATE then v.None? || IsNumber(v.value)
    else (path != ["card_id"] && v.None?) || (v.Some? && v.value.Str?)
  }

  predicate Present(row: CardRow, path: seq<string>) {
    FetchPath(row.full, path).Some?
  }

  lemma FetchOne(doc: Json, key: string)
    ensures FetchPath(doc, [key]) == Child(Some(doc), key)
  {
    assert [key] == [] + [key];
    FetchSnoc(doc, [], key);
    FetchRoot(doc);
  }

  lemma FetchTwo(doc: Json, first: string, second: string)
    ensures FetchPath(doc, [first, second]) == Child(Child(Some(doc), first), second)
  {
    FetchOne(doc, first);
    assert [first, second] == [first] + [second];
    FetchSnoc(doc, [first], second);
  }

  /** What the summary of a loaded row holds for a sort field. */
  lemma SummaryReadsFields(file: CardFile)
    requires LoadFull(file).Some?
    ensures var r := LoadFull(file).value; var f := r.full; var s := r.summary;
            && s.cardId == GetOr(AsStr(FetchPath(f, ["card_id"])), file.stem)
            && s.createdAt == AsStr(FetchPath(f, ["created_at"]))
            && s.model == AsStr(FetchPath(f, ["model", "id"]))
            && s.flow == AsStr(FetchPath(f, ["run", "flow"]))
            && s.scenario == AsStr(FetchPath(f, ["scenario", "name"]))
            && s.passRate == JsonF64(FetchPath(f, PASS_RATE))
  {
    hide FetchPath;
    var f := LoadFull(file).value.full;
    FetchOne(f, "card_id");
    FetchOne(f, "created_at");
    FetchTwo(f, "model", "id");
    FetchTwo(f, "run", "flow");
    FetchTwo(f, "scenario", "name");
    FetchTwo(f, "stats", "pass_rate");
  }

  /** On typed fields the two comparators agree on one key exactly when the two
      rows both have the field or both lack it; the pass rate needs no such care. */
  lemma KeyOrdersAgree(fa: CardFile, fb: CardFile, path: seq<string>)
    requires LoadFull(fa).Some? && LoadFull(fb).Some? && path in SUMMARY_SORT_FIELDS
    requires KeyTyped(LoadFull(fa).value, path) && KeyTyped(LoadFull(fb).value, path)
    ensures var a, b := LoadFull(fa).value, LoadFull(fb).value;
            FieldCompare(a.full, b.full, path) == SummaryCompare(a.summary, b.summary, path)
            <==> path == PASS_RATE || Present(a, path) == Present(b, path)
  {
    hide FetchPath, LoadFull, CompareString;
    SummaryReadsFields(fa);
    SummaryReadsFields(fb);
  }

  predicate Comparable(rows: seq<CardRow>, keys: seq<OrderKey>) {
    && LightKeys(keys)
    && (forall i, j | 0 <= i < |rows| && 0 <= j < |keys| :: KeyTyped(rows[i], keys[j].path))
    && (forall i, i', j | 0 <= i < |rows| && 0 <= i' < |rows| && 0 <= j < |keys| ::
          keys[j].path == PASS_RATE || Present(rows[i], keys[j].path) == Present(rows[i'], keys[j].path))
  }

  lemma {:induction false} OrdersAgree(fa: CardFile, fb: CardFile, keys: seq<OrderKey>)
    requires LoadFull(fa).Some? && LoadFull(fb).Some?
    requires Comparable([LoadFull(fa).value, LoadFull(fb).value], keys)
    ensures var a, b := LoadFull(fa).value, LoadFull(fb).value;
            OrderCards(a, b, keys) == OrderSummaries(a.summary, b.summary, keys)
  {
    if keys != [] {
      hide LoadFull, FieldCompare, SummaryCompare;
      var rows := [LoadFull(fa).value, LoadFull(fb).value];
      assert KeyTyped(rows[0], keys[0].path) && KeyTyped(rows[1], keys[0].path);
      assert keys[0].path == PASS_RATE || Present(rows[0], keys[0].path) == Present(rows[1], keys[0].path);
      KeyOrdersAgree(fa, fb, keys[0].path);
      OrdersAgree(fa, fb, keys[1..]);
    }
  }

  // ----- main results -----

  lemma {:induction false} RowsProjectToSummaries(files: seq<CardFile>)
    requires forall i | 0 <= i < |files| :: files[i].doc.Some? ==> PlainFields(files[i])
    ensures Map(Rows(files), ToSummary()) == Summaries(files)
  {
    if files != [] {
      hide PlainFields, Summarize, LoadFull;
      RowsProjectToSummaries(files[1..]);
      ProjectionsAgree(files[0]);
      assert LoadFull(files[0]).Some? ==> files[0].doc.Some?;
      if LoadFull(files[0]).Some? {
        var r := LoadFull(files[0]).value;
        assert ([r] + Rows(files[1..]))[1..] == Rows(files[1..]);
      }
    }
  }

  lemma {:induction false} RowComesFromFile(files: seq<CardFile>, r: CardRow) returns (f: CardFile)
    requires r in Rows(files)
    ensures f in files && LoadFull(f) == Some(r)
  {
    if LoadFull(files[0]) == Some(r) {
      f := files[0];
    } else {
      f := RowComesFromFile(files[1..], r);
    }
  }

  lemma {:induction false} EmptyWhereKeepsAll(rows: seq<CardRow>)
    ensures Matching(rows, Some(And([]))) == rows && Matching(rows, None) == rows
  {
    if rows != [] {
      EmptyWhereKeepsAll(rows[1..]);
      assert Eval(And([]), rows[0].full);
    }
  }

  lemma ComparatorsAgree(files: seq<CardFile>, keys: seq<OrderKey>)
    requires Comparable(Rows(files), keys)
    ensures Agree(Rows(files), FullOrder(keys), ToSummary(), LightOrder(keys))
  {
    var rows := Rows(files);
    forall a, b | a in rows && b in rows
      ensures FullOrder(keys)(a, b) == LightOrder(keys)(a.summary, b.summary)
    {
      if keys != [] {
        var fa := RowComesFromFile(files, a);
        var fb := RowComesFromFile(files, b);
        var i :| 0 <= i < |rows| && rows[i] == a;
        var j :| 0 <= j < |rows| && rows[j] == b;
        PairComparable(rows, i, j, keys);
        OrdersAgree(fa, fb, keys);
      }
    }
  }

  lemma PairComparable(rows: seq<CardRow>, i: nat, j: nat, keys: seq<OrderKey>)
    requires i < |rows| && j < |rows| && Comparable(rows, keys)
    ensures Comparable([rows[i], rows[j]], keys)
  {
    hide KeyTyped, Present;
  }

  /** On stores the light path can read, the full path with the empty `where`
      is one sort of the summaries by the light comparator. */
  lemma FullPathSortsSummaries(files: seq<CardFile>, keys: seq<OrderKey>)
    requires forall i | 0 <= i < |files| :: files[i].doc.Some? ==> PlainFields(files[i])
    requires Comparable(Rows(files), keys)
    ensures FullRows(files, Some(And([])), keys) == SortBy(Summaries(files), LightOrder(keys))
  {
    EmptyWhereKeepsAll(Rows(files));
    RowsProjectToSummaries(files);
    ComparatorsAgree(files, keys);
    SortCommutes(Rows(files), FullOrder(keys), ToSummary(), LightOrder(keys));
  }

  /** A query without `where` and the same query with the empty `where` return
      the same rows, and the same page for every offset and limit, exactly when
      files that tie on the sort keys are scanned newest first. Without sort
      keys they always agree. */
  lemma LightPathAgreesWithFullPath(files: seq<CardFile>, keys: seq<OrderKey>)
    requires forall i | 0 <= i < |files| :: files[i].doc.Some? ==> PlainFields(files[i])
    requires Comparable(Rows(files), keys)
    ensures var light, full := LightRows(files, keys), FullRows(files, Some(And([])), keys);
            (forall offset: nat, limit :: Page(light, offset, limit) == Page(full, offset, limit))
            <==> keys == []
                 || SameTies(SortBy(Summaries(files), ListOrder()), Summaries(files), LightOrder(keys))
  {
    hide *;
    LightRowsResort(files, keys);
    var rows := Summaries(files);
    FullPathSortsSummaries(files, keys);
    LightOrderIsPreorder(keys);
    ResortAgrees(rows, SortBy(rows, ListOrder()), LightOrder(keys));
    if keys == [] {
      DefaultOrder();
      SortKeepsTies(rows, ListOrder());
    }
    PagesDetermineRows(LightRows(files, keys), FullRows(files, Some(And([])), keys));
  }

  lemma LightRowsResort(files: seq<CardFile>, keys: seq<OrderKey>)
    ensures LightRows(files, keys) == SortBy(SortBy(Summaries(files), ListOrder()), LightOrder(keys))
  {
  }

  lemma SortKeepsTies(rows: seq<Summary>, cmp: Comparator<Summary>)
    requires TotalPreorder(cmp)
    ensures SameTies(SortBy(rows, cmp), rows, cmp)
  {
    SortIsStable(rows, cmp);
  }

  lemma DefaultOrder()
    ensures LightOrder([]) == ListOrder()
  {
  }

  /** In particular they agree whenever no two cards tie on the sort keys. */
  lemma NoTiesPathsAgree(files: seq<CardFile>, keys: seq<OrderKey>)
    requires forall i | 0 <= i < |files| :: files[i].doc.Some? ==> PlainFields(files[i])
    requires Comparable(Rows(files), keys)
    requires NoTies(Summaries(files), LightOrder(keys))
    ensures LightRows(files, keys) == FullRows(files, Some(And([])), keys)
  {
    hide *;
    LightRowsResort(files, keys);
    var rows := Summaries(files);
    SortMultiset(rows, ListOrder());
    NoTiesAnyOrder(SortBy(rows, ListOrder()), rows, LightOrder(keys));
    FullPathSortsSummaries(files, keys);
    LightOrderIsPreorder(keys);
    ResortAgrees(rows, SortBy(rows, ListOrder()), LightOrder(keys));
  }

  // ----- cards that lack a sort field -----

  /** The sort fields a summary may lack, other than the pass rate. */
  function OptionField(s: Summary, path: seq<string>): Option<string> {
    if path == ["created_at"] then s.createdAt
    else if path == ["scenario", "name"] then s.scenario
    else if path == ["model", "id"] then s.model
    else if path == ["run", "flow"] then s.flow
    else None
  }

  predicate IsOptionField(path: seq<string>) {
    path == ["created_at"] || path == ["scenario", "name"] || path == ["model", "id"] || path == ["run", "flow"]
  }

  function CompareOptionLast(a: Option<string>, b: Option<string>): Ordering {
    match (a, b)
    case (None, None) => Equal
    case (None, Some(_)) => Greater
    case (Some(_), None) => Less
    case (Some(x), Some(y)) => CompareString(x, y)
  }

  /** The full path's order on summaries: what is missing comes last. */
  function LastCompare(a: Summary, b: Summary, path: seq<string>): Ordering {
    if IsOptionField(path) then CompareOptionLast(OptionField(a, path), OptionField(b, path))
    else SummaryCompare(a, b, path)
  }

  function OrderLast(a: Summary, b: Summary, keys: seq<OrderKey>): Ordering {
    if keys == [] then Equal else
    var ord := LastCompare(a, b, keys[0].path);
    var ord := if keys[0].desc then Reverse(ord) else ord;
    if ord.Equal? then OrderLast(a, b, keys[1..]) else ord
  }

  function LastOrder(keys: seq<OrderKey>): Comparator<Summary> {
    (a: Summary, b: Summary) => OrderLast(a, b, keys)
  }

  lemma OptionsLastCompose(a: Option<string>, b: Option<string>, c: Option<string>)
    ensures CompareOptionLast(a, b) == Reverse(CompareOptionLast(b, a))
    ensures Composes(CompareOptionLast(a, b), CompareOptionLast(b, c), CompareOptionLast(a, c))
  {
    hide CompareString;
    if a.Some? && b.Some? && c.Some? {
      StringsCompose(a.value, b.value, c.value);
    } else if a.Some? && b.Some? {
      StringsCompose(a.value, b.value, a.value);
    }
  }

  lemma LastFieldsCompose(a: Summary, b: Summary, c: Summary, path: seq<string>)
    ensures LastCompare(a, b, path) == Reverse(LastCompare(b, a, path))
    ensures Composes(LastCompare(a, b, path), LastCompare(b, c, path), LastCompare(a, c, path))
  {
    hide SummaryCompare, CompareOptionLast, OptionField, IsOptionField;
    if IsOptionField(path) {
      OptionsLastCompose(OptionField(a, path), OptionField(b, path), OptionField(c, path));
    } else {
      FieldsCompose(a, b, c, path);
    }
  }

  lemma {:induction false} LastCompose(a: Summary, b: Summary, c: Summary, keys: seq<OrderKey>)
    ensures OrderLast(a, b, keys) == Reverse(OrderLast(b, a, keys))
    ensures Composes(OrderLast(a, b, keys), OrderLast(b, c, keys), OrderLast(a, c, keys))
  {
    if keys != [] {
      hide LastCompare;
      LastFieldsCompose(a, b, c, keys[0].path);
      LastCompose(a, b, c, keys[1..]);
    }
  }

  lemma LastOrderIsPreorder(keys: seq<OrderKey>)
    ensures TotalPreorder(LastOrder(keys))
  {
    var cmp := LastOrder(keys);
    forall a: Summary, b: Summary
      ensures cmp(a, b) == Reverse(cmp(b, a))
    {
      LastCompose(a, b, a, keys);
    }
    forall a: Summary, b: Summary, c: Summary | !cmp(a, b).Greater? && !cmp(b, c).Greater?
      ensures !cmp(a, c).Greater?
    {
      LastCompose(a, b, c, keys);
    }
  }

  /** Sort fields only, and every row has them in the types a summary reads. */
  predicate TypedRows(rows: seq<CardRow>, keys: seq<OrderKey>) {
    LightKeys(keys) && forall i, j | 0 <= i < |rows| && 0 <= j < |keys| :: KeyTyped(rows[i], keys[j].path)
  }

  lemma {:induction false} LastAgrees(fa: CardFile, fb: CardFile, keys: seq<OrderKey>)
    requires LoadFull(fa).Some? && LoadFull(fb).Some?
    requires TypedRows([LoadFull(fa).value, LoadFull(fb).value], keys)
    ensures var a, b := LoadFull(fa).value, LoadFull(fb).value;
            OrderCards(a, b, keys) == OrderLast(a.summary, b.summary, keys)
  {
    if keys != [] {
      hide LoadFull, KeyTyped, FieldCompare, LastCompare;
      var rows := [LoadFull(fa).value, LoadFull(fb).value];
      assert KeyTyped(rows[0], keys[0].path) && KeyTyped(rows[1], keys[0].path);
      LastFieldAgrees(fa, fb, keys[0].path);
      LastAgrees(fa, fb, keys[1..]);
    }
  }

  /** What an optional field of a typed row shows. */
  lemma TypedOption(f: CardFile, path: seq<string>)
    requires LoadFull(f).Some? && IsOptionField(path) && KeyTyped(LoadFull(f).value, path)
    ensures var v := FetchPath(LoadFull(f).value.full, path);
            && (v.Some? ==> v.value.Str?)
            && OptionField(LoadFull(f).value.summary, path) == if v.Some? then Some(v.value.s) else None
  {
    hide FetchPath, LoadFull;
    SummaryReadsFields(f);
  }

  lemma LastFieldAgrees(fa: CardFile, fb: CardFile, path: seq<string>)
    requires LoadFull(fa).Some? && LoadFull(fb).Some? && path in SUMMARY_SORT_FIELDS
    requires KeyTyped(LoadFull(fa).value, path) && KeyTyped(LoadFull(fb).value, path)
    ensures var a, b := LoadFull(fa).value, LoadFull(fb).value;
            FieldCompare(a.full, b.full, path)
            == LastCompare(a.summary, b.summary, path)
  {
    if IsOptionField(path) {
      hide FetchPath, LoadFull, CompareString, KeyTyped, IsOptionField, OptionField;
      TypedOption(fa, path);
      TypedOption(fb, path);
    } else {
      hide FetchPath, LoadFull, FieldCompare, SummaryCompare;
      assert path == PASS_RATE || path == ["card_id"];
      KeyOrdersAgree(fa, fb, path);
    }
  }

  lemma OneKeyLight(a: Summary, b: Summary, key: OrderKey)
    ensures LightOrder([key])(a, b)
         == var ord := SummaryCompare(a, b, key.path); if key.desc then Reverse(ord) else ord
  {
    hide SummaryCompare;
    assert [key][1..] == [] && OrderSummaries(a, b, []) == Equal;
    assert LightOrder([key])(a, b) == OrderSummaries(a, b, [key]);
  }

  /** On typed rows the full path is one sort of the summaries, missing fields last. */
  lemma FullPathSortsMissingLast(files: seq<CardFile>, keys: seq<OrderKey>)
    requires forall i | 0 <= i < |files| :: files[i].doc.Some? ==> PlainFields(files[i])
    requires keys != [] && TypedRows(Rows(files), keys)
    ensures FullRows(files, Some(And([])), keys) == SortBy(Summaries(files), LastOrder(keys))
  {
    EmptyWhereKeepsAll(Rows(files));
    RowsProjectToSummaries(files);
    var rows := Rows(files);
    hide PlainFields, LoadFull, KeyTyped, OrderCards, Matching;
    forall a, b | a in rows && b in rows
      ensures FullOrder(keys)(a, b) == LastOrder(keys)(a.summary, b.summary)
    {
      var fa := RowComesFromFile(files, a);
      var fb := RowComesFromFile(files, b);
      var i :| 0 <= i < |rows| && rows[i] == a;
      var j :| 0 <= j < |rows| && rows[j] == b;
      PairTyped(rows, i, j, keys);
      LastAgrees(fa, fb, keys);
    }
    SortCommutes(rows, FullOrder(keys), ToSummary(), LastOrder(keys));
  }

  lemma PairTyped(rows: seq<CardRow>, i: nat, j: nat, keys: seq<OrderKey>)
    requires i < |rows| && j < |rows| && TypedRows(rows, keys)
    ensures TypedRows([rows[i], rows[j]], keys)
  {
    hide KeyTyped;
  }

  /** Two cards tie on all keys before the j-th, and one of them lacks that field. */
  predicate SplitTie(a: Summary, b: Summary, keys: seq<OrderKey>, j: nat) {
    && j < |keys| && IsOptionField(keys[j].path) && OrderSummaries(a, b, keys[..j]).Equal?
    && OptionField(a, keys[j].path).Some? != OptionField(b, keys[j].path).Some?
  }

  predicate NoSplitTies(rows: seq<Summary>, keys: seq<OrderKey>) {
    forall a, b, j: nat | a in rows && b in rows && j < |keys| :: !SplitTie(a, b, keys, j)
  }

  lemma SplitTieStep(a: Summary, b: Summary, keys: seq<OrderKey>, j: nat)
    requires keys != []
    ensures SplitTie(a, b, keys, j + 1)
       <==> SummaryCompare(a, b, keys[0].path).Equal? && SplitTie(a, b, keys[1..], j)
  {
    hide SummaryCompare, OptionField, IsOptionField;
    if j + 1 < |keys| {
      assert keys[..j + 1][1..] == keys[1..][..j];
    }
  }

  lemma OneFieldOrders(a: Summary, b: Summary, path: seq<string>)
    ensures LastCompare(a, b, path).Equal? == SummaryCompare(a, b, path).Equal?
    ensures if IsOptionField(path) && OptionField(a, path).Some? != OptionField(b, path).Some?
            then LastCompare(a, b, path) == Reverse(SummaryCompare(a, b, path)) != Equal
            else LastCompare(a, b, path) == SummaryCompare(a, b, path)
  {
    hide CompareString;
  }

  /** Along a split tie the two paths order the cards opposite ways; without one they
      order them alike. */
  lemma {:induction false} OrdersDiffer(a: Summary, b: Summary, keys: seq<OrderKey>)
    ensures (forall j: nat | j < |keys| :: !SplitTie(a, b, keys, j)) ==>
              OrderLast(a, b, keys) == OrderSummaries(a, b, keys)
    ensures forall j: nat | SplitTie(a, b, keys, j) ::
              OrderLast(a, b, keys) == Reverse(OrderSummaries(a, b, keys)) != Equal
  {
    if keys != [] {
      hide SummaryCompare, LastCompare, OptionField, IsOptionField;
      OneFieldOrders(a, b, keys[0].path);
      OrdersDiffer(a, b, keys[1..]);
      assert SplitTie(a, b, keys, 0)
        == (IsOptionField(keys[0].path) && OptionField(a, keys[0].path).Some? != OptionField(b, keys[0].path).Some?);
      forall j: nat | j < |keys| - 1
        ensures SplitTie(a, b, keys, j + 1)
           <==> SummaryCompare(a, b, keys[0].path).Equal? && SplitTie(a, b, keys[1..], j)
      {
        SplitTieStep(a, b, keys, j);
      }
      forall j: nat | SplitTie(a, b, keys, j)
        ensures OrderLast(a, b, keys) == Reverse(OrderSummaries(a, b, keys)) != Equal
      {
        if j > 0 {
          SplitTieStep(a, b, keys, j - 1);
        }
      }
    }
  }

  lemma NoSplitSortsAlike(rows: seq<Summary>, keys: seq<OrderKey>)
    requires keys != [] && NoSplitTies(rows, keys)
    ensures SortBy(rows, LastOrder(keys)) == SortBy(rows, LightOrder(keys))
  {
    hide SplitTie, OrderLast, OrderSummaries;
    var same := (s: Summary) => s;
    forall a, b | a in rows && b in rows
      ensures LastOrder(keys)(a, b) == LightOrder(keys)(same(a), same(b))
    {
      OrdersDiffer(a, b, keys);
    }
    SortCommutes(rows, LastOrder(keys), same, LightOrder(keys));
    assert Map(rows, same) == rows;
    assert Map(SortBy(rows, LastOrder(keys)), same) == SortBy(rows, LastOrder(keys));
  }

  /** No list of both cards of a split tie is sorted both ways. */
  lemma NotSortedBothWays(out: seq<Summary>, a: Summary, b: Summary, keys: seq<OrderKey>, j: nat)
    requires a in out && b in out && SplitTie(a, b, keys, j)
    ensures !(Sorted(out, LightOrder(keys)) && Sorted(out, LastOrder(keys)))
  {
    hide SplitTie, OrderLast, OrderSummaries;
    OrdersDiffer(a, b, keys);
    SummariesCompose(a, b, a, keys);
    LastCompose(a, b, a, keys);
    DifferentCards(a, b, keys, j);
    var p :| 0 <= p < |out| && out[p] == a;
    var q :| 0 <= q < |out| && out[q] == b;
    assert LightOrder(keys)(a, b) == OrderSummaries(a, b, keys) && LightOrder(keys)(b, a) == OrderSummaries(b, a, keys);
    if p < q {
      SortedPair(out, p, q, LightOrder(keys));
      SortedPair(out, p, q, LastOrder(keys));
    } else {
      SortedPair(out, q, p, LightOrder(keys));
      SortedPair(out, q, p, LastOrder(keys));
    }
  }

  lemma SortedPair(out: seq<Summary>, p: nat, q: nat, cmp: Comparator<Summary>)
    requires p < q < |out|
    ensures Sorted(out, cmp) ==> !cmp(out[p], out[q]).Greater?
  {
  }

  lemma DifferentCards(a: Summary, b: Summary, keys: seq<OrderKey>, j: nat)
    requires SplitTie(a, b, keys, j)
    ensures a != b && keys != []
  {
  }

  /** Where cards that tie on the keys so far differ in having the next field, the two
      paths never agree: they put the two cards opposite ways. */
  lemma MixedNeverAgree(files: seq<CardFile>, keys: seq<OrderKey>)
    requires forall i | 0 <= i < |files| :: files[i].doc.Some? ==> PlainFields(files[i])
    requires TypedRows(Rows(files), keys) && !NoSplitTies(Summaries(files), keys)
    ensures LightRows(files, keys) != FullRows(files, Some(And([])), keys)
  {
    hide PlainFields, TypedRows, SplitTie, LightOrder, LastOrder, SortBy, Summaries, LightRows, FullRows;
    var rows := Summaries(files);
    var a, b, j: nat :| a in rows && b in rows && j < |keys| && SplitTie(a, b, keys, j);
    var listed := SortBy(rows, ListOrder());
    var light, full := SortBy(listed, LightOrder(keys)), SortBy(rows, LastOrder(keys));
    FullPathSortsMissingLast(files, keys);
    LightRowsResort(files, keys);
    SortMultiset(rows, ListOrder());
    SortMultiset(listed, LightOrder(keys));
    assert a in multiset(rows) && b in multiset(rows);
    assert a in light && b in light;
    LightOrderIsPreorder(keys);
    LastOrderIsPreorder(keys);
    SortIsStable(listed, LightOrder(keys));
    SortIsStable(rows, LastOrder(keys));
    NotSortedBothWays(light, a, b, keys, j);
  }

  /** The exact condition for typed sort keys, any number of them: a query without
      `where` and the same query with the empty `where` return the same pages exactly
      when there are no keys, or no two cards that tie on some keys differ in having
      the next one's field and cards that tie on all keys are scanned newest first.
      The pass rate may be missing anywhere. */
  lemma KeyListPathsAgree(files: seq<CardFile>, keys: seq<OrderKey>)
    requires forall i | 0 <= i < |files| :: files[i].doc.Some? ==> PlainFields(files[i])
    requires TypedRows(Rows(files), keys)
    ensures var light, full := LightRows(files, keys), FullRows(files, Some(And([])), keys);
            (forall offset: nat, limit :: Page(light, offset, limit) == Page(full, offset, limit))
            <==> keys == [] || (NoSplitTies(Summaries(files), keys)
                   && SameTies(SortBy(Summaries(files), ListOrder()), Summaries(files), LightOrder(keys)))
  {
    hide *;
    PagesDetermineRows(LightRows(files, keys), FullRows(files, Some(And([])), keys));
    if keys == [] {
      NoKeysComparable(Rows(files));
      LightPathAgreesWithFullPath(files, keys);
    } else if NoSplitTies(Summaries(files), keys) {
      var rows := Summaries(files);
      NoSplitSortsAlike(rows, keys);
      FullPathSortsMissingLast(files, keys);
      LightRowsResort(files, keys);
      LightOrderIsPreorder(keys);
      ResortAgrees(rows, SortBy(rows, ListOrder()), LightOrder(keys));
    } else {
      MixedNeverAgree(files, keys);
    }
  }

  lemma NoKeysComparable(rows: seq<CardRow>)
    ensures Comparable(rows, [])
  {
  }

  // ----- a store for each divergence -----

  function ScenarioFile(id: string, created: string, scenario: Option<string>): CardFile {
    var doc := map["card_id" := TStr(id), "created_at" := TStr(created)];
    CardFile("pkg", id, Some(TTable(
      if scenario.Some? then doc["scenario" := TTable(map["name" := TStr(scenario.value)])] else doc)))
  }

  const BY_SCENARIO := OrderKey(["scenario", "name"], false)

  lemma ScenarioRow(id: string, created: string, scenario: Option<string>)
    ensures var f := ScenarioFile(id, created, scenario);
            && PlainFields(f) && LoadFull(f).Some? && KeyTyped(LoadFull(f).value, BY_SCENARIO.path)
            && (Present(LoadFull(f).value, BY_SCENARIO.path) <==> scenario.Some?)
            && Summarize(f) == Some(Summary(id, "pkg", Some(created), None, None, scenario, None))
  {
    var f := ScenarioFile(id, created, scenario);
    ScenarioPlain(f);
    ScenarioSummary(id, created, scenario);
    hide TomlToJson, Summarize, PlainFields, FetchPath;
    var full := LoadFull(f).value.full;
    FetchTwo(full, "scenario", "name");
    ChildCommutes(f.doc, "scenario");
    ChildCommutes(TomlChild(f.doc, "scenario"), "name");
    if scenario.Some? {
      StringReads(Some(TStr(scenario.value)));
    }
  }

  lemma ScenarioSummary(id: string, created: string, scenario: Option<string>)
    ensures Summarize(ScenarioFile(id, created, scenario))
         == Some(Summary(id, "pkg", Some(created), None, None, scenario, None))
  {
  }

  lemma ScenarioPlain(f: CardFile)
    requires f.doc.Some? && f.doc.value.TTable? && f.doc.value.m.Keys <= {"card_id", "created_at", "scenario"}
    requires forall k | k in f.doc.value.m :: !f.doc.value.m[k].TDatetime?
    requires "scenario" in f.doc.value.m ==>
               f.doc.value.m["scenario"].TTable?
               && forall k | k in f.doc.value.m["scenario"].m :: !f.doc.value.m["scenario"].m[k].TDatetime?
    ensures PlainFields(f)
  {
  }

  lemma TwoRows(a: CardFile, b: CardFile)
    requires LoadFull(a).Some? && LoadFull(b).Some? && Summarize(a).Some? && Summarize(b).Some?
    ensures Rows([a, b]) == [LoadFull(a).value, LoadFull(b).value]
    ensures Summaries([a, b]) == [Summarize(a).value, Summarize(b).value]
  {
    hide LoadFull, Summarize;
    assert [a, b][1..] == [b] && [b][1..] == [];
    assert Loaded([b], ToCardRow()) == [LoadFull(b).value] && Loaded([b], ToSummaryRow()) == [Summarize(b).value];
  }

  /** One card with a scenario and one without: ordered by scenario, `find` without
      `where` and with `where = {}` differ. */
  lemma MissingFieldDiverges(files: seq<CardFile>)
    requires files == [ScenarioFile("a", "1", Some("s")), ScenarioFile("b", "2", None)]
    ensures LightRows(files, [BY_SCENARIO]) != FullRows(files, Some(And([])), [BY_SCENARIO])
  {
    hide *;
    ScenarioRow("a", "1", Some("s"));
    ScenarioRow("b", "2", None);
    TwoRows(files[0], files[1]);
    ByScenarioSorts();
    ScenarioTyped(Rows(files));
    var a, b := Summarize(files[0]).value, Summarize(files[1]).value;
    assert a in Summaries(files) && b in Summaries(files);
    ScenarioSplits(a, b, Summaries(files));
    MixedNeverAgree(files, [BY_SCENARIO]);
  }

  lemma ScenarioTyped(rows: seq<CardRow>)
    requires |rows| == 2 && KeyTyped(rows[0], BY_SCENARIO.path) && KeyTyped(rows[1], BY_SCENARIO.path)
    ensures TypedRows(rows, [BY_SCENARIO])
  {
    hide KeyTyped;
    ByScenarioSorts();
  }

  lemma ScenarioSplits(a: Summary, b: Summary, rows: seq<Summary>)
    requires a.scenario.Some? && b.scenario.None? && a in rows && b in rows
    ensures !NoSplitTies(rows, [BY_SCENARIO])
  {
    assert OrderSummaries(a, b, [BY_SCENARIO][..0]) == Equal;
    assert BY_SCENARIO.path[0] == "scenario";
    assert SplitTie(a, b, [BY_SCENARIO], 0);
  }

  lemma ByScenarioSorts()
    ensures BY_SCENARIO.path in SUMMARY_SORT_FIELDS && BY_SCENARIO.path != PASS_RATE
    ensures BY_SCENARIO.path == ["scenario", "name"] && !BY_SCENARIO.desc
  {
    assert SUMMARY_SORT_FIELDS[3] == BY_SCENARIO.path;
    assert BY_SCENARIO.path[0] != PASS_RATE[0];
  }

  /** Two cards of one scenario, the older scanned first: they come back in scan order
      from one path and newest first from the other. */
  lemma TieDiverges(files: seq<CardFile>)
    requires files == [ScenarioFile("a", "1", Some("s")), ScenarioFile("b", "2", Some("s"))]
    ensures LightRows(files, [BY_SCENARIO]) != FullRows(files, Some(And([])), [BY_SCENARIO])
  {
    hide *;
    ScenarioRow("a", "1", Some("s"));
    ScenarioRow("b", "2", Some("s"));
    TwoRows(files[0], files[1]);
    ByScenarioSorts();
    ScenarioTyped(Rows(files));
    FullPathSortsMissingLast(files, [BY_SCENARIO]);
    LightRowsResort(files, [BY_SCENARIO]);
    var a, b := Summarize(files[0]).value, Summarize(files[1]).value;
    TiedPair(a, b);
    TwoSorted(a, b, ListOrder(), true);
    TwoSorted(b, a, LightOrder([BY_SCENARIO]), false);
    TwoSorted(a, b, LastOrder([BY_SCENARIO]), false);
    assert [a, b][0] != [b, a][0];
  }

  lemma TiedPair(a: Summary, b: Summary)
    requires a == Summary("a", "pkg", Some("1"), None, None, Some("s"), None)
    requires b == Summary("b", "pkg", Some("2"), None, None, Some("s"), None)
    ensures ListOrder()(a, b).Greater? && a != b
    ensures LightOrder([BY_SCENARIO])(b, a).Equal? && LastOrder([BY_SCENARIO])(a, b).Equal?
  {
    ByScenarioSorts();
    OneKeyLight(b, a, BY_SCENARIO);
    assert [BY_SCENARIO][1..] == [] && OrderLast(a, b, []) == Equal;
    assert !Text.LexLess("s", "s") by { Text.LexIrreflexive("s"); }
    assert Text.LexLess("1", "2") && !Text.LexLess("2", "1");
    assert BY_SCENARIO.path[0] == "scenario";
  }

  lemma TwoSorted(a: Summary, b: Summary, cmp: Comparator<Summary>, swaps: bool)
    requires if swaps then cmp(a, b).Greater? else cmp(a, b).Equal?
    ensures SortBy([a, b], cmp) == if swaps then [b, a] else [a, b]
  {
    var both, one, none := [a, b], [b], [a][1..];
    assert both[1..] == one && one[1..] == none;
    assert SortBy(none, cmp) == none && Insert(b, none, cmp) == [b] && Insert(a, none, cmp) == [a];
    assert SortBy(one, cmp) == [b];
    assert SortBy(both, cmp) == Insert(a, one, cmp);
    assert [b] + [a] == [b, a] && [a] + [b] == [a, b];
  }
}

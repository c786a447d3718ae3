/** Card documents: creating one, adding fields to one, and why stored fields
    never change. */
module CardDocs {
  import opened CardEvents
  import opened CardStore
  import opened Json
  import opened Text
  import opened Toml

  /** The TOML text codec, a parameter of the model. */
  datatype TomlCodec = TomlCodec(render: Toml -> string, parse: string -> Option<Toml>)

  /** A TOML value of the kinds that are ever written: dates are only read. */
  predicate Writable(t: Toml) {
    match t
    case TDatetime(_) => false
    case TArr(items) => forall i | 0 <= i < |items| :: Writable(items[i])
    case TTable(m) => forall k | k in m :: Writable(m[k])
    case _ => true
  }

  /** Documents are tables; writing one and parsing it back gives it again. */
  ghost predicate Exact(codec: TomlCodec) {
    && (forall t: Toml | t.TTable? && Writable(t) :: codec.parse(codec.render(t)) == Some(t))
    && (forall s | codec.parse(s).Some? :: codec.parse(s).value.TTable?)
  }

  // ----- what survives a write -----

  lemma {:induction false} ToTomlWritable(v: Json)
    requires !v.Null?
    ensures Writable(ToToml(v))
    decreases v, 0
  {
    match v {
      case Arr(items) => ItemsWritable(items);
      case Obj(m) =>
        forall k | k in m && !m[k].Null?
          ensures Writable(ToToml(m[k]))
        {
          ToTomlWritable(m[k]);
        }
      case _ =>
    }
  }

  lemma {:induction false} ItemsWritable(items: seq<Json>)
    ensures forall i | 0 <= i < |ItemsToToml(items)| :: Writable(ItemsToToml(items)[i])
    decreases items, 1
  {
    if items != [] {
      ItemsWritable(items[1..]);
      if !items[0].Null? {
        ToTomlWritable(items[0]);
      }
    }
  }

  /** No null at any depth. */
  predicate NoNulls(v: Json) {
    match v
    case Null => false
    case Arr(items) => forall i | 0 <= i < |items| :: NoNulls(items[i])
    case Obj(m) => forall k | k in m :: NoNulls(m[k])
    case _ => true
  }

  lemma {:induction false} StripIsIdentity(v: Json)
    requires !v.Null?
    ensures StripNulls(v) == v <==> NoNulls(v)
    decreases v, 0
  {
    match v {
      case Arr(items) =>
        StripItemsIdentity(items);
        assert StripNulls(v) == v <==> StripItems(items) == items;
      case Obj(m) =>
        StripEntriesIdentity(m);
        assert StripNulls(v) == v <==> StripNulls(v).m == m;
      case _ =>
    }
  }

  lemma {:induction false} StripShrinks(items: seq<Json>)
    ensures |StripItems(items)| <= |items|
    ensures |StripItems(items)| == |items| ==> forall i | 0 <= i < |items| :: !items[i].Null?
    decreases items
  {
    if items != [] {
      StripShrinks(items[1..]);
      if |StripItems(items)| == |items| {
        forall i | 0 <= i < |items|
          ensures !items[i].Null?
        {
          assert i > 0 ==> items[i] == items[1..][i - 1];
        }
      }
    }
  }

  lemma {:induction false} StripItemsIdentity(items: seq<Json>)
    ensures StripItems(items) == items <==> forall i | 0 <= i < |items| :: NoNulls(items[i])
    decreases items, 1
  {
    if items != [] {
      var rest := items[1..];
      StripItemsIdentity(rest);
      StripShrinks(rest);
      assert items == [items[0]] + rest;
      NoNullsCons(items);
      if !items[0].Null? {
        StripIsIdentity(items[0]);
        ConsEqual(StripNulls(items[0]), StripItems(rest), items[0], rest);
      } else {
        assert |StripItems(items)| < |items|;
      }
    }
  }

  lemma NoNullsCons(items: seq<Json>)
    requires items != []
    ensures (forall i | 0 <= i < |items| :: NoNulls(items[i]))
       <==> NoNulls(items[0]) && forall i | 0 <= i < |items[1..]| :: NoNulls(items[1..][i])
  {
    if NoNulls(items[0]) && forall i | 0 <= i < |items[1..]| :: NoNulls(items[1..][i]) {
      forall i | 0 <= i < |items|
        ensures NoNulls(items[i])
      {
        assert i > 0 ==> items[i] == items[1..][i - 1];
      }
    }
  }

  lemma {:induction false} StripEntriesIdentity(m: map<string, Json>)
    ensures StripNulls(Obj(m)).m == m <==> forall k | k in m :: NoNulls(m[k])
    decreases Obj(m), -1
  {
    var stripped := StripNulls(Obj(m)).m;
    forall k | k in m && !m[k].Null?
      ensures stripped[k] == m[k] <==> NoNulls(m[k])
    {
      StripIsIdentity(m[k]);
    }
    if stripped == m {
      forall k | k in m
        ensures NoNulls(m[k])
      {
        assert k in stripped;
      }
    }
  }

  /** A value reads back as it was written exactly when it holds no null and no
      integer beyond 64 bits. */
  lemma ReadsBackAsWritten(v: Json)
    requires !v.Null?
    ensures TomlToJson(ToToml(v)) == v <==> NoNulls(v) && FitsI64(v)
  {
    hide *;
    RoundTrip(v);
    StripIsIdentity(v);
    FromTomlIsPlain(ToToml(v));
  }

  /** What is read from TOML has no nulls and only 64-bit integers. */
  lemma {:induction false} FromTomlIsPlain(t: Toml)
    ensures NoNulls(TomlToJson(t)) && FitsI64(TomlToJson(t))
    decreases t, 0
  {
    match t {
      case TArr(items) => ItemsArePlain(items);
      case TTable(m) =>
        forall k | k in m
          ensures NoNulls(TomlToJson(m[k])) && FitsI64(TomlToJson(m[k]))
        {
          FromTomlIsPlain(m[k]);
        }
      case _ =>
    }
  }

  lemma {:induction false} ItemsArePlain(items: seq<Toml>)
    ensures forall i | 0 <= i < |items| :: NoNulls(ItemsToJson(items)[i]) && FitsI64(ItemsToJson(items)[i])
    decreases items, 1
  {
    if items != [] {
      FromTomlIsPlain(items[0]);
      ItemsArePlain(items[1..]);
      var out := ItemsToJson(items);
      assert forall i | 1 <= i < |items| :: out[i] == ItemsToJson(items[1..])[i - 1];
    }
  }

  // ----- append -----

  predicate Conflicts(existing: map<string, Json>, fields: map<string, Json>) {
    exists k | k in fields :: k in existing
  }

  /** The document after an append: null fields are not added. */
  function Merged(existing: map<string, Json>, fields: map<string, Json>): map<string, Json> {
    existing + map k | k in fields && !fields[k].Null? :: fields[k]
  }

  method MergeFields(existing: map<string, Json>, fields: map<string, Json>)
      returns (r: Result<map<string, Json>>)
    ensures r.Err? <==> Conflicts(existing, fields)
    ensures r.Ok? ==> r.value == Merged(existing, fields)
  {
    var doc, todo := existing, fields.Keys;
    while todo != {}
      invariant todo <= fields.Keys
      invariant forall k | k in fields.Keys - todo :: k !in existing
      invariant forall k | k in existing :: k in doc && doc[k] == existing[k]
      invariant forall k | k in fields.Keys - todo && !fields[k].Null? :: k in doc && doc[k] == fields[k]
      invariant forall k | k in doc :: k in existing || (k in fields.Keys - todo && !fields[k].Null?)
      decreases todo
    {
      var k :| k in todo;
      if k in doc {
        assert k in existing;
        return Err("key already set (immutable)");
      }
      if !fields[k].Null? {
        doc := doc[k := fields[k]];
      }
      todo := todo - {k};
    }
    assert doc == Merged(existing, fields);
    r := Ok(doc);
  }

  /** The JSON document behind a stored text. */
  function Doc(text: string, codec: TomlCodec): Option<map<string, Json>> {
    var t := codec.parse(text);
    if t.Some? && TomlToJson(t.value).Obj? then Some(TomlToJson(t.value).m) else None
  }

  function DocText(doc: map<string, Json>, codec: TomlCodec): string {
    codec.render(ToToml(Obj(doc)))
  }

  /** A document as it comes back from a write: no null fields, and each other
      field as TOML holds it. */
  function ReadBack(doc: map<string, Json>): map<string, Json> {
    map k | k in doc && !doc[k].Null? :: TomlToJson(ToToml(doc[k]))
  }

  lemma ReadBackIsTomlJson(doc: map<string, Json>)
    ensures TomlToJson(ToToml(Obj(doc))) == Obj(ReadBack(doc))
  {
    var got, want := TomlToJson(ToToml(Obj(doc))).m, ReadBack(doc);
    assert got.Keys == want.Keys;
    assert forall k | k in want :: got[k] == want[k];
  }

  lemma WrittenDoc(doc: map<string, Json>, codec: TomlCodec)
    requires Exact(codec)
    ensures Doc(DocText(doc, codec), codec) == Some(ReadBack(doc))
  {
    hide TomlToJson, ReadBack, Writable;
    ToTomlWritable(Obj(doc));
    ReadBackIsTomlJson(doc);
    assert codec.parse(codec.render(ToToml(Obj(doc)))) == Some(ToToml(Obj(doc)));
  }

  /** Every field of a stored document reads back as written. */
  lemma StoredFieldIsStable(text: string, codec: TomlCodec, k: string)
    requires Exact(codec) && Doc(text, codec).Some? && k in Doc(text, codec).value
    ensures var v := Doc(text, codec).value[k];
            !v.Null? && NoNulls(v) && FitsI64(v) && TomlToJson(ToToml(v)) == v
  {
    var t := codec.parse(text).value;
    FromTomlIsPlain(t);
    var v := Doc(text, codec).value[k];
    assert NoNulls(v) && FitsI64(v);
    ReadsBackAsWritten(v);
  }

  /** Top-level fields of a are all in b with the same values. */
  predicate KeepsFields(a: map<string, Json>, b: map<string, Json>) {
    forall k | k in a :: k in b && b[k] == a[k]
  }

  /** After an append every earlier field reads back unchanged, and the stored
      document is what the call returned exactly when the added fields hold no
      null and no integer beyond 64 bits. */
  lemma AppendKeepsFields(text: string, fields: map<string, Json>, codec: TomlCodec)
    requires Exact(codec) && Doc(text, codec).Some? && !Conflicts(Doc(text, codec).value, fields)
    ensures var was := Doc(text, codec).value;
            var now := Doc(DocText(Merged(was, fields), codec), codec);
            && now.Some? && KeepsFields(was, now.value)
            && now.value.Keys == Merged(was, fields).Keys
            && (now.value == Merged(was, fields)
                <==> forall k | k in fields && !fields[k].Null? :: NoNulls(fields[k]) && FitsI64(fields[k]))
  {
    hide Doc, NoNulls, FitsI64, TomlToJson, ToToml;
    var was := Doc(text, codec).value;
    var merged := Merged(was, fields);
    WrittenDoc(merged, codec);
    var now := Doc(DocText(merged, codec), codec).value;
    forall k | k in was
      ensures k in merged && !merged[k].Null? && now[k] == merged[k] == was[k]
    {
      StoredFieldIsStable(text, codec, k);
      assert k !in fields;
    }
    forall k | k in fields && !fields[k].Null?
      ensures k in merged && merged[k] == fields[k] && now[k] == TomlToJson(ToToml(fields[k]))
      ensures now[k] == fields[k] <==> NoNulls(fields[k]) && FitsI64(fields[k])
    {
      ReadsBackAsWritten(fields[k]);
    }
    if now == merged {
      forall k | k in fields && !fields[k].Null?
        ensures NoNulls(fields[k]) && FitsI64(fields[k])
      {
        assert now[k] == merged[k];
      }
    }
  }

  /** The text an append writes over this text, or None when it is rejected. */
  ghost function AppendedText(text: string, fields: Json, codec: TomlCodec): Option<string> {
    if !fields.Obj? then None
    else
      var doc := Doc(text, codec);
      if doc.None? || Conflicts(doc.value, fields.m) then None
      else Some(DocText(Merged(doc.value, fields.m), codec))
  }

  /** The write an append makes, or None when it is rejected before writing. */
  ghost function AppendCommand(t: Tree, cardId: string, fields: Json, codec: TomlCodec): Option<Command> {
    if !ValidName(cardId) || !HasCard(t, cardId) then None
    else
      var text := AppendedText(t.cards[PathOf(t, cardId)], fields, codec);
      if text.None? then None else Some(Append(cardId, text.value))
  }

  // ----- create -----

  /** What create draws from its surroundings: the clock, its version, and the
      hashes of a parameter object and of a whole document. */
  datatype CreateEnv = CreateEnv(now: string, createdBy: string, fingerprint: Json -> string,
    newId: map<string, Json> -> string)

  const SCHEMA_VERSION := "card/v0"

  function OrInsert(m: map<string, Json>, k: string, v: Json): map<string, Json> {
    if k in m then m else m[k := v]
  }

  function GivenId(m: map<string, Json>): Option<string> {
    if "card_id" in m && m["card_id"].Str? && m["card_id"].s != "" then Some(m["card_id"].s) else None
  }

  /** The document create writes, with its id. */
  function Enriched(input: map<string, Json>, env: CreateEnv): (string, map<string, Json>) {
    var m := OrInsert(input, "schema_version", Str(SCHEMA_VERSION));
    var m := OrInsert(m, "created_at", Str(env.now));
    var m := OrInsert(m, "created_by", Str(env.createdBy));
    var m := if "params" in m && m["params"].Obj?
             then m["param_fingerprint" := Str(env.fingerprint(m["params"]))] else m;
    var id := if GivenId(m).Some? then GivenId(m).value else env.newId(m);
    (id, m["card_id" := Str(id)])
  }

  function PkgName(input: Json): Option<string> {
    AsStr(Child(Child(Some(input), "pkg"), "name"))
  }

  function CreateCommand(input: Json, env: CreateEnv, codec: TomlCodec): Option<Command> {
    if !input.Obj? || PkgName(input).None? || !ValidName(PkgName(input).value) then None
    else
      var (id, doc) := Enriched(input.m, env);
      if !ValidName(id) then None else Some(Create(PkgName(input).value, id, DocText(doc, codec)))
  }

  /** The fields create owns: the fingerprint, when there are parameters, and an id
      that is not a non-empty string. */
  predicate Owned(input: map<string, Json>, k: string) {
    || (k == "param_fingerprint" && "params" in input && input["params"].Obj?)
    || (k == "card_id" && GivenId(input).None?)
  }

  lemma EnrichedKeeps(input: map<string, Json>, env: CreateEnv, k: string)
    ensures var (id, doc) := Enriched(input, env);
            && (k in input && !Owned(input, k) ==> k in doc && doc[k] == input[k])
            && "card_id" in doc && doc["card_id"] == Str(id)
            && (GivenId(input).Some? ==> id == GivenId(input).value)
            && ("params" in input && input["params"].Obj? ==>
                  "param_fingerprint" in doc && doc["param_fingerprint"] == Str(env.fingerprint(input["params"])))
  {
  }

  /** What the stored card says of the input: a field that create does not own is
      stored unless it is null, and with its value exactly when that holds no null and
      no integer beyond 64 bits; the id and the fingerprint are create's. */
  lemma CreateKeepsInput(input: map<string, Json>, env: CreateEnv, codec: TomlCodec, k: string)
    requires Exact(codec) && k in input
    ensures var (id, doc) := Enriched(input, env);
            var stored := Doc(DocText(doc, codec), codec);
            && stored.Some?
            && (!Owned(input, k) ==>
                  && (k in stored.value <==> !input[k].Null?)
                  && (!input[k].Null? ==>
                        (stored.value[k] == input[k] <==> NoNulls(input[k]) && FitsI64(input[k]))))
            && "card_id" in stored.value && stored.value["card_id"] == Str(id)
            && (GivenId(input).Some? ==> id == GivenId(input).value)
            && ("params" in input && input["params"].Obj? ==>
                  && "param_fingerprint" in stored.value
                  && stored.value["param_fingerprint"] == Str(env.fingerprint(input["params"])))
  {
    hide Enriched, NoNulls, FitsI64, ToToml, TomlToJson, Doc, DocText, Owned;
    var (id, doc) := Enriched(input, env);
    EnrichedKeeps(input, env, k);
    WrittenDoc(doc, codec);
    StringsReadBack(id);
    if "params" in input && input["params"].Obj? {
      StringsReadBack(env.fingerprint(input["params"]));
    }
    if !input[k].Null? {
      ReadsBackAsWritten(input[k]);
    }
  }

  lemma StringsReadBack(s: string)
    ensures TomlToJson(ToToml(Str(s))) == Str(s)
  {
  }

  // ----- whole runs -----

  /** Every readable card of a is in b with all its fields. */
  ghost predicate KeepsCards(a: Tree, b: Tree, codec: TomlCodec) {
    forall p | p in a.cards && Doc(a.cards[p], codec).Some? ::
      && p in b.cards && Doc(b.cards[p], codec).Some?
      && KeepsFields(Doc(a.cards[p], codec).value, Doc(b.cards[p], codec).value)
  }

  /** A step of the store as its cards see it: any command but an overwrite, an append
      that merges into the file its first lookup finds and writes to the file its second
      one finds, or a call that fails and leaves the cards alone. */
  datatype CardStep =
    | Other(c: Command)
    | AppendAt(cardId: string, fields: Json, from: CardPath, to: CardPath)
    | Nothing

  ghost predicate StepsTo(t: Tree, v: CardStep, after: Tree, codec: TomlCodec) {
    match v
    case Other(c) => !c.Append? && after.cards == Perform(t, c).tree.cards
    case AppendAt(id, fields, from, to) =>
      && Finds(t, id, from) && Finds(t, id, to)
      && var text := AppendedText(t.cards[from], fields, codec);
         text.Some? && after.cards == t.cards[to := text.value]
    case Nothing => after.cards == t.cards
  }

  /** An append writes the fields of the file it overwrites: they are among those of
      the file it read and the ones it adds, or that file was no document. */
  predicate CarriesOver(t: Tree, v: CardStep, codec: TomlCodec) {
    v.AppendAt? && v.from in t.cards && v.to in t.cards && v.fields.Obj? ==>
      var was, over := Doc(t.cards[v.from], codec), Doc(t.cards[v.to], codec);
      was.Some? && over.Some? ==> KeepsFields(over.value, was.value + ReadBack(v.fields.m))
  }

  lemma AppendedDoc(text: string, fields: map<string, Json>, codec: TomlCodec)
    requires Exact(codec) && Doc(text, codec).Some? && !Conflicts(Doc(text, codec).value, fields)
    ensures var was := Doc(text, codec).value;
            Doc(DocText(Merged(was, fields), codec), codec) == Some(was + ReadBack(fields))
  {
    hide Doc, NoNulls, FitsI64, TomlToJson, ToToml;
    var was := Doc(text, codec).value;
    var merged := Merged(was, fields);
    WrittenDoc(merged, codec);
    forall k | k in was
      ensures k in ReadBack(merged) && ReadBack(merged)[k] == was[k] && k !in fields
    {
      StoredFieldIsStable(text, codec, k);
    }
    assert ReadBack(merged) == was + ReadBack(fields);
  }

  /** One step keeps the fields of every card exactly when it carries over those of the
      file it overwrites. */
  lemma StepKeepsExactly(t: Tree, v: CardStep, after: Tree, codec: TomlCodec)
    requires Exact(codec) && StepsTo(t, v, after, codec)
    ensures KeepsCards(t, after, codec) <==> CarriesOver(t, v, codec)
  {
    hide ValidName, Doc, DocText, Conflicts, Merged, ReadBack, Exact;
    match v {
      case AppendAt(id, fields, from, to) =>
        AppendedDoc(t.cards[from], fields.m, codec);
      case Other(c) =>
        CommandKeepsTexts(t, c);
      case Nothing =>
    }
  }

  lemma CommandKeepsTexts(t: Tree, c: Command)
    requires !c.Append?
    ensures forall p | p in t.cards :: p in Perform(t, c).tree.cards && Perform(t, c).tree.cards[p] == t.cards[p]
  {
    hide ValidName, CopyAll;
    if c.Import? {
      CopyAllOnlyAdds(t, c.pkg, c.source);
    }
  }

  /** Where the id has one file the two lookups agree, and then the fields survive. */
  lemma OneFileCarriesOver(t: Tree, v: CardStep, after: Tree, codec: TomlCodec)
    requires Exact(codec) && StepsTo(t, v, after, codec)
    requires v.AppendAt? ==> v.from == v.to || UniqueIds(t)
    ensures CarriesOver(t, v, codec)
  {
    hide ValidName, Doc, DocText, Conflicts, Merged, Perform;
    if v.AppendAt? && Doc(t.cards[v.from], codec).Some? {
      NoKeyInBoth(Doc(t.cards[v.from], codec).value, v.fields.m);
      assert ReadBack(v.fields.m).Keys <= v.fields.m.Keys;
    }
  }

  lemma NoKeyInBoth(existing: map<string, Json>, fields: map<string, Json>)
    requires !Conflicts(existing, fields)
    ensures forall k | k in existing :: k !in fields
  {
  }

  lemma KeepsCardsTransitive(a: Tree, b: Tree, c: Tree, codec: TomlCodec)
    requires KeepsCards(a, b, codec) && KeepsCards(b, c, codec)
    ensures KeepsCards(a, c, codec)
  {
    hide Doc;
  }

  lemma KeepsCardsReflexive(t: Tree, codec: TomlCodec)
    ensures KeepsCards(t, t, codec)
  {
  }

  ghost predicate IsCardRun(ts: seq<Tree>, vs: seq<CardStep>, codec: TomlCodec) {
    |ts| == |vs| + 1 && forall n | 0 <= n < |vs| :: StepsTo(ts[n], vs[n], ts[n + 1], codec)
  }

  /** Cards are immutable: over any run a stored top-level field never changes its value
      and never disappears at any step, exactly when every append carries over the
      fields of the file it overwrites; then the last state has all the fields of the
      first. Appends to ids with one file do (OneFileCarriesOver). */
  lemma {:induction false} StoredFieldsNeverChange(ts: seq<Tree>, vs: seq<CardStep>, codec: TomlCodec)
    requires Exact(codec) && IsCardRun(ts, vs, codec)
    ensures (forall n | 0 <= n < |vs| :: KeepsCards(ts[n], ts[n + 1], codec))
       <==> forall n | 0 <= n < |vs| :: CarriesOver(ts[n], vs[n], codec)
    ensures (forall n | 0 <= n < |vs| :: CarriesOver(ts[n], vs[n], codec)) ==>
              KeepsCards(ts[0], ts[|vs|], codec)
  {
    hide StepsTo, KeepsCards, CarriesOver, Exact;
    forall n | 0 <= n < |vs|
      ensures KeepsCards(ts[n], ts[n + 1], codec) <==> CarriesOver(ts[n], vs[n], codec)
    {
      StepKeepsExactly(ts[n], vs[n], ts[n + 1], codec);
    }
    if n :| 0 <= n < |vs| && !CarriesOver(ts[n], vs[n], codec) {
      assert !KeepsCards(ts[n], ts[n + 1], codec);
    } else {
      KeptThroughout(ts, |vs|, codec);
    }
  }

  lemma {:induction false} KeptThroughout(ts: seq<Tree>, m: nat, codec: TomlCodec)
    requires m < |ts| && forall n | 0 <= n < m :: KeepsCards(ts[n], ts[n + 1], codec)
    ensures KeepsCards(ts[0], ts[m], codec)
  {
    hide KeepsCards;
    if m == 0 {
      KeepsCardsReflexive(ts[0], codec);
    } else {
      KeptThroughout(ts, m - 1, codec);
      assert KeepsCards(ts[m - 1], ts[m - 1 + 1], codec);
      KeepsCardsTransitive(ts[0], ts[m - 1], ts[m], codec);
    }
  }

  /** Two packages hold one id: an append that reads one file and writes the other takes
      the other's field away. */
  lemma FieldIsLost(t: Tree, after: Tree, codec: TomlCodec, a: CardPath, b: CardPath, note: map<string, Json>)
    requires Exact(codec) && a.cardId == b.cardId && a != b && note == map["note" := Bool(true)]
    requires t.cards == map[a := DocText(map[], codec), b := DocText(note, codec)]
    requires after == t.(cards := t.cards[b := DocText(map["more" := Bool(true)], codec)])
    ensures StepsTo(t, AppendAt(a.cardId, Obj(map["more" := Bool(true)]), a, b), after, codec)
    ensures Doc(t.cards[b], codec) == Some(note)
    ensures var now := Doc(after.cards[b], codec);
            now.Some? && "note" !in now.value && !KeepsCards(t, after, codec)
  {
    hide *;
    var none: map<string, Json>, more := map[], map["more" := Bool(true)];
    FlagsReadBack("note");
    FlagsReadBack("more");
    WrittenDoc(none, codec);
    WrittenDoc(note, codec);
    WrittenDoc(more, codec);
    NothingMerged(more, "more");
    LostStep(t, after, codec, a, b, note, more);
  }

  lemma FlagsReadBack(k: string)
    ensures ReadBack(map[k := Bool(true)]) == map[k := Bool(true)] && ReadBack(map[]) == map[]
  {
  }

  lemma NothingMerged(fields: map<string, Json>, k: string)
    requires fields == map[k := Bool(true)]
    ensures Merged(map[], fields) == fields && !Conflicts(map[], fields)
  {
  }

  lemma LostStep(t: Tree, after: Tree, codec: TomlCodec, a: CardPath, b: CardPath, note: map<string, Json>,
      more: map<string, Json>)
    requires a.cardId == b.cardId && a != b && note == map["note" := Bool(true)] && more == map["more" := Bool(true)]
    requires t.cards == map[a := DocText(map[], codec), b := DocText(note, codec)]
    requires after == t.(cards := t.cards[b := DocText(more, codec)])
    requires Doc(t.cards[a], codec) == Some(map[]) && Doc(t.cards[b], codec) == Some(note)
    requires Doc(after.cards[b], codec) == Some(more) && Merged(map[], more) == more && !Conflicts(map[], more)
    ensures StepsTo(t, AppendAt(a.cardId, Obj(more), a, b), after, codec)
    ensures "note" !in Doc(after.cards[b], codec).value && !KeepsCards(t, after, codec)
  {
    hide Doc, DocText, Merged, Conflicts;
    assert b in t.cards && "note" in Doc(t.cards[b], codec).value;
  }
}

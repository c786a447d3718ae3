/** The alias table: names bound to cards, kept as one TOML document. */
module Aliases {
  import opened CardDocs
  import opened CardStore
  import opened Json
  import opened Text
  import opened Toml

  datatype Alias = Alias(name: string, cardId: string, pkg: Option<string>, setAt: string, note: Option<string>)

  function OptStr(m: map<string, Toml>, key: string, v: Option<string>): map<string, Toml> {
    if v.Some? then m[key := TStr(v.value)] else m
  }

  function AliasToml(a: Alias): Toml {
    var m := map["name" := TStr(a.name), "card_id" := TStr(a.cardId), "set_at" := TStr(a.setAt)];
    TTable(OptStr(OptStr(m, "pkg", a.pkg), "note", a.note))
  }

  function AliasTomls(aliases: seq<Alias>): seq<Toml> {
    if aliases == [] then []
    else AliasTomls(aliases[..|aliases| - 1]) + [AliasToml(aliases[|aliases| - 1])]
  }

  function TableToml(aliases: seq<Alias>): Toml {
    TTable(map["alias" := TArr(AliasTomls(aliases))])
  }

  function StrOf(m: map<string, Toml>, key: string): Option<string> {
    if key in m && m[key].TStr? then Some(m[key].s) else None
  }

  /** Entries without a name or a card id are skipped. */
  function AliasOf(t: Toml): Option<Alias> {
    if !t.TTable? || StrOf(t.m, "name").None? || StrOf(t.m, "card_id").None? then None
    else
      var at := StrOf(t.m, "set_at");
      Some(Alias(StrOf(t.m, "name").value, StrOf(t.m, "card_id").value, StrOf(t.m, "pkg"),
        if at.Some? then at.value else "", StrOf(t.m, "note")))
  }

  function AliasesOf(items: seq<Toml>): seq<Alias> {
    if items == [] then []
    else
      var a := AliasOf(items[|items| - 1]);
      AliasesOf(items[..|items| - 1]) + if a.Some? then [a.value] else []
  }

  /** None: the file does not parse. */
  function ReadAliases(text: Option<string>, codec: TomlCodec): Option<seq<Alias>> {
    if text.None? then Some([])
    else
      var t := codec.parse(text.value);
      if t.None? then None
      else if t.value.TTable? && "alias" in t.value.m && t.value.m["alias"].TArr? then
        Some(AliasesOf(t.value.m["alias"].items))
      else Some([])
  }

  function TableText(aliases: seq<Alias>, codec: TomlCodec): string {
    codec.render(TableToml(aliases))
  }

  lemma {:induction false} EntriesReadBack(aliases: seq<Alias>)
    ensures AliasesOf(AliasTomls(aliases)) == aliases
    ensures forall i | 0 <= i < |AliasTomls(aliases)| :: Writable(AliasTomls(aliases)[i])
  {
    if aliases != [] {
      var front, last := aliases[..|aliases| - 1], aliases[|aliases| - 1];
      EntriesReadBack(front);
      EntryReadsBack(last);
      var items := AliasTomls(front);
      assert (items + [AliasToml(last)])[..|items|] == items;
    }
  }

  lemma EntryReadsBack(a: Alias)
    ensures AliasOf(AliasToml(a)) == Some(a) && Writable(AliasToml(a))
  {
    var m := AliasToml(a).m;
    assert forall k | k in m :: m[k].TStr?;
  }

  /** Writing an alias table and reading it gives it back, entry for entry. */
  lemma TableReadsBack(aliases: seq<Alias>, codec: TomlCodec)
    requires Exact(codec)
    ensures ReadAliases(Some(TableText(aliases, codec)), codec) == Some(aliases)
  {
    hide AliasTomls, AliasesOf;
    EntriesReadBack(aliases);
    var t := TableToml(aliases);
    assert Writable(t.m["alias"]);
    assert Writable(t);
    assert codec.parse(codec.render(t)) == Some(t);
  }

  // ----- binding a name -----

  function Without(aliases: seq<Alias>, name: string): seq<Alias> {
    if aliases == [] then []
    else
      var last := aliases[|aliases| - 1];
      Without(aliases[..|aliases| - 1], name) + if last.name != name then [last] else []
  }

  /** The first entry of that name. */
  function Find(aliases: seq<Alias>, name: string): Option<Alias> {
    if aliases == [] then None
    else
      var earlier, last := Find(aliases[..|aliases| - 1], name), aliases[|aliases| - 1];
      if earlier.Some? then earlier else if last.name == name then Some(last) else None
  }

  lemma {:induction false} FindWithout(aliases: seq<Alias>, name: string, other: string)
    ensures Find(Without(aliases, name), other) == if other == name then None else Find(aliases, other)
  {
    if aliases != [] {
      var front, last := aliases[..|aliases| - 1], aliases[|aliases| - 1];
      FindWithout(front, name, other);
      var kept := Without(front, name);
      assert (kept + [last])[..|kept|] == kept && kept + [] == kept;
    }
  }

  /** Setting an alias binds its name to the new card and no other name to anything else. */
  lemma SetBindsOneName(aliases: seq<Alias>, entry: Alias, other: string)
    ensures Find(Without(aliases, entry.name) + [entry], other)
         == if other == entry.name then Some(entry) else Find(aliases, other)
  {
    hide Without;
    var kept := Without(aliases, entry.name);
    FindWithout(aliases, entry.name, other);
    assert (kept + [entry])[..|kept|] == kept;
  }

  method Retain(aliases: seq<Alias>, name: string) returns (kept: seq<Alias>)
    ensures kept == Without(aliases, name)
  {
    kept := [];
    for i := 0 to |aliases|
      invariant kept == Without(aliases[..i], name)
    {
      assert aliases[..i + 1][..i] == aliases[..i];
      if aliases[i].name != name {
        kept := kept + [aliases[i]];
      }
    }
    assert aliases[..|aliases|] == aliases;
  }

  /** The write `alias_set` makes, or None when it is rejected. */
  ghost function AliasCommand(t: Tree, entry: Alias, codec: TomlCodec): Option<Command> {
    if !ValidName(entry.name) || !ValidName(entry.cardId) || !HasCard(t, entry.cardId) then None
    else
      var table := ReadAliases(t.aliases, codec);
      if table.None? then None
      else Some(SetAliases(entry.cardId, TableText(Without(table.value, entry.name) + [entry], codec)))
  }

  /** After an accepted `alias_set` the stored table resolves the name to the entry
      and every other name as before. */
  lemma AliasSetResolves(t: Tree, entry: Alias, codec: TomlCodec, other: string)
    requires Exact(codec) && AliasCommand(t, entry, codec).Some?
    ensures var after := Perform(t, AliasCommand(t, entry, codec).value).tree;
            var table := ReadAliases(after.aliases, codec);
            && table.Some? && after.cards == t.cards && after.samples == t.samples
            && Find(table.value, other)
               == if other == entry.name then Some(entry) else Find(ReadAliases(t.aliases, codec).value, other)
  {
    hide ValidName, ReadAliases, TableText, Without, Find;
    var aliases := ReadAliases(t.aliases, codec).value;
    TableReadsBack(Without(aliases, entry.name) + [entry], codec);
    SetBindsOneName(aliases, entry, other);
  }
}

/** The card store and its sinks: files addressed by package and card id, the
    events every successful write publishes, and what a sink does with them. */
module CardStore {
  import opened Json
  import opened Text

  datatype CardPath = CardPath(pkg: string, cardId: string)

  /** A card directory tree: card texts, samples sidecars and the alias table. */
  datatype Tree = Tree(cards: map<CardPath, string>, samples: map<CardPath, string>, aliases: Option<string>)

  const EMPTY_TREE := Tree(map[], map[], None)

  datatype CardEvent =
    | Created(pkg: string, cardId: string, text: string)
    | Appended(cardId: string, text: string)
    | SamplesWritten(cardId: string, text: string)
    | AliasesWritten(text: string)

  ghost predicate HasCard(t: Tree, cardId: string) {
    exists p | p in t.cards :: p.cardId == cardId
  }

  /** A lookup by id may find this file; among several, directory order decides. */
  ghost predicate Finds(t: Tree, cardId: string, p: CardPath) {
    p in t.cards && p.cardId == cardId
  }

  /** No card id is used in two packages. */
  ghost predicate UniqueIds(t: Tree) {
    forall p, q | p in t.cards && q in t.cards :: p.cardId == q.cardId ==> p == q
  }

  ghost predicate NoOrphanSamples(t: Tree) {
    t.samples.Keys <= t.cards.Keys
  }

  /** A file found for the id; with unique ids there is only one candidate. */
  ghost function PathOf(t: Tree, cardId: string): CardPath
    requires HasCard(t, cardId)
  {
    var p :| p in t.cards && p.cardId == cardId;
    p
  }

  lemma PathOfUnique(t: Tree, p: CardPath)
    requires UniqueIds(t) && p in t.cards
    ensures HasCard(t, p.cardId) && PathOf(t, p.cardId) == p
  {
  }

  // ----- what a file sink does with an event -----

  /** None: the sink reports an error and keeps its state. */
  ghost function Receive(t: Tree, ev: CardEvent): Option<Tree> {
    match ev
    case Created(pkg, id, text) =>
      if ValidName(pkg) && ValidName(id) then Some(t.(cards := t.cards[CardPath(pkg, id) := text])) else None
    case Appended(id, text) =>
      if ValidName(id) && HasCard(t, id) then Some(t.(cards := t.cards[PathOf(t, id) := text])) else None
    case SamplesWritten(id, text) =>
      if ValidName(id) && HasCard(t, id) then Some(t.(samples := t.samples[PathOf(t, id) := text])) else None
    case AliasesWritten(text) => Some(t.(aliases := Some(text)))
  }

  ghost function ReceiveAll(t: Tree, evs: seq<CardEvent>): Tree {
    if evs == [] then t
    else
      var before := ReceiveAll(t, evs[..|evs| - 1]);
      var after := Receive(before, evs[|evs| - 1]);
      if after.Some? then after.value else before
  }

  lemma {:induction false} ReceiveAllConcat(t: Tree, a: seq<CardEvent>, b: seq<CardEvent>)
    ensures ReceiveAll(t, a + b) == ReceiveAll(ReceiveAll(t, a), b)
  {
    if b == [] {
      assert a + b == a;
    } else {
      var n := |b| - 1;
      assert (a + b)[..|a + b| - 1] == a + b[..n] && (a + b)[|a + b| - 1] == b[n];
      ReceiveAllConcat(t, a, b[..n]);
    }
  }

  // ----- what the primary does for a command -----

  /** What becomes of a file in an import directory: it is copied, passed over as of
      another schema, fails before anything is written, or fails while it is copied and
      leaves what was written of card and samples. */
  datatype SourceKind =
    | Importable
    | WrongSchema
    | Broken
    | Unfinished(card: Option<string>, samples: Option<string>)

  /** `stem` is the file's name without its last ".toml"; cards are named by it. */
  datatype SourceFile = SourceFile(stem: string, text: string, samples: Option<string>, kind: SourceKind)

  predicate Plain(stem: string) {
    !(|stem| >= 5 && stem[|stem| - 5..] == ".toml")
  }

  /** The id an import reports and finds samples by: every ".toml" is trimmed. */
  function Reported(stem: string): (id: string)
    ensures Plain(id) && |id| <= |stem| && (id == stem <==> Plain(stem))
  {
    if Plain(stem) then stem else Reported(stem[..|stem| - 5])
  }

  function ReportedIds(stems: seq<string>): (ids: seq<string>)
    ensures |ids| == |stems| && forall i | 0 <= i < |ids| :: ids[i] == Reported(stems[i])
  {
    seq(|stems|, i requires 0 <= i < |stems| => Reported(stems[i]))
  }

  /** The write half of each card verb, with the texts it has rendered. */
  datatype Command =
    | Create(pkg: string, cardId: string, text: string)
    | Append(cardId: string, text: string)
    | WriteSamples(cardId: string, text: string)
    | SetAliases(cardId: string, text: string)
    | Import(pkg: string, source: seq<SourceFile>)

  datatype Outcome = Outcome(tree: Tree, ok: bool, events: seq<CardEvent>)

  /** Copying a source directory, file by file: cards already there are skipped, and
      the first file to fail stops the import with what was copied so far. */
  datatype Copied = Copied(tree: Tree, ok: bool, stems: seq<string>)

  function PutFile(t: Tree, pkg: string, stem: string, text: string, samples: Option<string>): Tree {
    var q := CardPath(pkg, Reported(stem));
    var withCard := t.(cards := t.cards[CardPath(pkg, stem) := text]);
    if samples.Some? && q !in t.samples then withCard.(samples := t.samples[q := samples.value]) else withCard
  }

  function CopyNext(c: Copied, pkg: string, f: SourceFile): Copied {
    if !c.ok || CardPath(pkg, f.stem) in c.tree.cards then c
    else
      match f.kind
      case WrongSchema => c
      case Broken => c.(ok := false)
      case Unfinished(card, samples) =>
        Copied(if card.Some? then PutFile(c.tree, pkg, f.stem, card.value, samples) else c.tree, false, c.stems)
      case Importable => Copied(PutFile(c.tree, pkg, f.stem, f.text, f.samples), true, c.stems + [f.stem])
  }

  function CopyAll(t: Tree, pkg: string, source: seq<SourceFile>): Copied {
    if source == [] then Copied(t, true, [])
    else CopyNext(CopyAll(t, pkg, source[..|source| - 1]), pkg, source[|source| - 1])
  }

  /** The events for imported ids, read back by id; an id that is no valid name
      cannot be read back and is skipped. */
  ghost function ImportEvents(t: Tree, pkg: string, ids: seq<string>): seq<CardEvent> {
    if ids == [] then []
    else
      var n := |ids| - 1;
      var id := ids[n];
      ImportEvents(t, pkg, ids[..n])
      + if !ValidName(id) || !HasCard(t, id) then []
        else
          var p := PathOf(t, id);
          [Created(pkg, id, t.cards[p])] + if p in t.samples then [SamplesWritten(id, t.samples[p])] else []
  }

  ghost function Perform(t: Tree, c: Command): Outcome {
    match c
    case Create(pkg, id, text) =>
      var p := CardPath(pkg, id);
      if !ValidName(pkg) || !ValidName(id) || p in t.cards then Outcome(t, false, [])
      else Outcome(t.(cards := t.cards[p := text]), true, [Created(pkg, id, text)])
    case Append(id, text) =>
      if !ValidName(id) || !HasCard(t, id) then Outcome(t, false, [])
      else Outcome(t.(cards := t.cards[PathOf(t, id) := text]), true, [Appended(id, text)])
    case WriteSamples(id, text) =>
      if !ValidName(id) || !HasCard(t, id) || PathOf(t, id) in t.samples then Outcome(t, false, [])
      else Outcome(t.(samples := t.samples[PathOf(t, id) := text]), true, [SamplesWritten(id, text)])
    case SetAliases(id, text) =>
      if !ValidName(id) || !HasCard(t, id) then Outcome(t, false, [])
      else Outcome(t.(aliases := Some(text)), true, [AliasesWritten(text)])
    case Import(pkg, source) =>
      if !ValidName(pkg) then Outcome(t, false, [])
      else
        var c := CopyAll(t, pkg, source);
        Outcome(c.tree, c.ok, if c.ok then ImportEvents(c.tree, pkg, ReportedIds(c.stems)) else [])
  }

  // ----- a healthy sink holds what the primary holds -----

  /** Commands other than import keep a sink equal to the primary. */
  lemma WriteIsMirrored(t: Tree, c: Command)
    requires !c.Import?
    ensures ReceiveAll(t, Perform(t, c).events) == Perform(t, c).tree
  {
    var evs := Perform(t, c).events;
    if evs != [] {
      assert evs[..|evs| - 1] == [];
    }
  }

  /** The part of a tree that belongs to the given cards; the alias table is kept. */
  ghost function Restricted(t: Tree, ps: set<CardPath>): Tree {
    Tree(map p | p in t.cards && p in ps :: t.cards[p], map p | p in t.samples && p in ps :: t.samples[p],
      t.aliases)
  }

  ghost function Paths(pkg: string, ids: seq<string>): set<CardPath> {
    set i | 0 <= i < |ids| :: CardPath(pkg, ids[i])
  }

  ghost function ValidPaths(pkg: string, ids: seq<string>): set<CardPath> {
    set i | 0 <= i < |ids| && ValidName(ids[i]) :: CardPath(pkg, ids[i])
  }

  lemma PathsSnoc(pkg: string, ids: seq<string>, id: string)
    ensures Paths(pkg, ids + [id]) == Paths(pkg, ids) + {CardPath(pkg, id)}
    ensures ValidPaths(pkg, ids + [id])
         == ValidPaths(pkg, ids) + if ValidName(id) then {CardPath(pkg, id)} else {}
  {
    hide ValidName;
    var more, p := ids + [id], CardPath(pkg, id);
    assert more[|ids|] == id;
    assert forall i | 0 <= i < |ids| :: more[i] == ids[i];
    assert p in Paths(pkg, more);
    forall i | 0 <= i < |ids|
      ensures CardPath(pkg, ids[i]) in Paths(pkg, more)
      ensures ValidName(ids[i]) ==> CardPath(pkg, ids[i]) in ValidPaths(pkg, more)
    {
      assert CardPath(pkg, more[i]) in Paths(pkg, more);
    }
  }

  /** Cards and samples that were there are as they were. */
  ghost predicate Grown(a: Tree, b: Tree) {
    && (forall p | p in a.cards :: p in b.cards && b.cards[p] == a.cards[p])
    && (forall p | p in a.samples :: p in b.samples && b.samples[p] == a.samples[p])
    && b.aliases == a.aliases
  }

  lemma PutFileAdds(t: Tree, pkg: string, stem: string, text: string, samples: Option<string>)
    requires CardPath(pkg, stem) !in t.cards
    ensures var after := PutFile(t, pkg, stem, text, samples);
            Grown(t, after) && after.cards.Keys == t.cards.Keys + {CardPath(pkg, stem)}
  {
  }

  lemma GrownTransitive(a: Tree, b: Tree, c: Tree)
    requires Grown(a, b) && Grown(b, c)
    ensures Grown(a, c)
  {
  }

  lemma CopyNextAdds(c: Copied, pkg: string, f: SourceFile)
    ensures var next, p := CopyNext(c, pkg, f), CardPath(pkg, f.stem);
            && Grown(c.tree, next.tree)
            && (next.ok ==> c.ok)
            && if next.stems == c.stems then next.ok ==> next.tree == c.tree
               else
                 && next.stems == c.stems + [f.stem] && p !in c.tree.cards
                 && next.tree.cards.Keys == c.tree.cards.Keys + {p}
  {
    hide PutFile, Grown;
    GrownReflexive(c.tree);
    if CardPath(pkg, f.stem) !in c.tree.cards {
      if f.kind.Importable? {
        PutFileAdds(c.tree, pkg, f.stem, f.text, f.samples);
        assert |c.stems + [f.stem]| > |c.stems|;
      } else if f.kind.Unfinished? && f.kind.card.Some? {
        PutFileAdds(c.tree, pkg, f.stem, f.kind.card.value, f.kind.samples);
      }
    }
  }

  lemma GrownReflexive(t: Tree)
    ensures Grown(t, t)
  {
  }

  lemma GrownKeys(a: Tree, b: Tree)
    requires Grown(a, b)
    ensures a.cards.Keys <= b.cards.Keys
  {
  }

  /** An import only adds: what was there is unchanged, even if it fails half-way, and
      the new cards of one that works are exactly the imported ones. */
  lemma {:induction false} CopyAllOnlyAdds(t: Tree, pkg: string, source: seq<SourceFile>)
    ensures var c := CopyAll(t, pkg, source);
            && Grown(t, c.tree) && t.cards.Keys !! Paths(pkg, c.stems)
            && t.cards.Keys + Paths(pkg, c.stems) <= c.tree.cards.Keys
            && (c.ok ==> c.tree.cards.Keys == t.cards.Keys + Paths(pkg, c.stems))
  {
    if source == [] {
      assert Paths(pkg, []) == {};
    } else {
      hide CopyNext, Grown, Paths;
      var n := |source| - 1;
      var before, f := CopyAll(t, pkg, source[..n]), source[n];
      var next := CopyNext(before, pkg, f);
      CopyAllOnlyAdds(t, pkg, source[..n]);
      CopyNextAdds(before, pkg, f);
      GrownTransitive(t, before.tree, next.tree);
      GrownKeys(before.tree, next.tree);
      PathsSnoc(pkg, before.stems, f.stem);
    }
  }

  lemma PlainFileIsOwned(t: Tree, ps: set<CardPath>, pkg: string, stem: string, text: string,
      samples: Option<string>)
    requires NoOrphanSamples(t) && CardPath(pkg, stem) !in t.cards && ps <= t.cards.Keys && Plain(stem)
    ensures var after := PutFile(t, pkg, stem, text, samples);
            NoOrphanSamples(after) && Restricted(after, ps) == Restricted(t, ps)
  {
    var after := PutFile(t, pkg, stem, text, samples);
    assert Restricted(after, ps).cards == Restricted(t, ps).cards;
    assert Restricted(after, ps).samples == Restricted(t, ps).samples;
  }

  /** Every card file the import leaves is named as its id is reported. */
  predicate PlainImport(t: Tree, pkg: string, source: seq<SourceFile>) {
    forall i | 0 <= i < |source| && Adds(t, pkg, source, i) :: Plain(source[i].stem)
  }

  /** Then its samples belong to it, and the old cards have theirs and no more. */
  lemma {:induction false} PlainImportKeepsOwned(t: Tree, pkg: string, source: seq<SourceFile>)
    requires NoOrphanSamples(t) && PlainImport(t, pkg, source)
    ensures var after := CopyAll(t, pkg, source).tree;
            NoOrphanSamples(after) && t == Restricted(after, t.cards.Keys)
  {
    if source == [] {
      WholeTreeIffAllKept(t, t.cards.Keys);
    } else {
      hide PutFile, NoOrphanSamples, Restricted, Grown, Plain, Adds;
      var n := |source| - 1;
      var before, f := CopyAll(t, pkg, source[..n]), source[n];
      PlainPrefix(t, pkg, source);
      PlainImportKeepsOwned(t, pkg, source[..n]);
      CopyAllOnlyAdds(t, pkg, source[..n]);
      NextAdds(t, pkg, source);
      if before.ok && CardPath(pkg, f.stem) !in before.tree.cards {
        if f.kind.Importable? {
          PlainFileIsOwned(before.tree, t.cards.Keys, pkg, f.stem, f.text, f.samples);
        } else if f.kind.Unfinished? && f.kind.card.Some? {
          PlainFileIsOwned(before.tree, t.cards.Keys, pkg, f.stem, f.kind.card.value, f.kind.samples);
        }
      }
    }
  }

  lemma PlainPrefix(t: Tree, pkg: string, source: seq<SourceFile>)
    requires source != [] && PlainImport(t, pkg, source)
    ensures PlainImport(t, pkg, source[..|source| - 1])
  {
    hide Plain, Adds;
    var n := |source| - 1;
    PrefixPredicts(t, pkg, source, n);
    assert forall i | 0 <= i < n :: source[..n][i] == source[i];
  }

  /** The next file adds a card exactly when it is predicted to. */
  lemma NextAdds(t: Tree, pkg: string, source: seq<SourceFile>)
    requires source != []
    ensures var n, f := |source| - 1, source[|source| - 1];
            var before := CopyAll(t, pkg, source[..n]);
            Adds(t, pkg, source, n)
            <==> before.ok && CardPath(pkg, f.stem) !in before.tree.cards
                 && (f.kind.Importable? || (f.kind.Unfinished? && f.kind.card.Some?))
  {
    hide Held, Taken, Fatal, CopyAll;
    var n := |source| - 1;
    var before := CopyAll(t, pkg, source[..n]);
    ImportIsPredicted(t, pkg, source[..n]);
    PrefixPredicts(t, pkg, source, n);
    PresentIsHeld(t, pkg, source, before);
    FileIs(t, pkg, source, n);
  }

  ghost function OneImport(t: Tree, pkg: string, id: string): seq<CardEvent>
    requires CardPath(pkg, id) in t.cards
  {
    var p := CardPath(pkg, id);
    [Created(pkg, id, t.cards[p])] + if p in t.samples then [SamplesWritten(id, t.samples[p])] else []
  }

  /** Replaying the events of one imported card adds exactly that card. */
  lemma ReplayOne(after: Tree, ps: set<CardPath>, pkg: string, id: string)
    requires UniqueIds(after) && ValidName(pkg) && ValidName(id) && NoOrphanSamples(after)
    requires CardPath(pkg, id) in after.cards && CardPath(pkg, id) !in ps
    ensures ReceiveAll(Restricted(after, ps), OneImport(after, pkg, id))
         == Restricted(after, ps + {CardPath(pkg, id)})
  {
    hide ValidName;
    var p, evs := CardPath(pkg, id), OneImport(after, pkg, id);
    var r0 := Restricted(after, ps);
    var r1 := r0.(cards := r0.cards[p := after.cards[p]]);
    assert evs[..1] == [evs[0]] && evs[..0] == [];
    assert [evs[0]][..0] == [];
    assert ReceiveAll(r0, [evs[0]]) == r1;
    assert UniqueIds(r1) && p in r1.cards;
    PathOfUnique(r1, p);
    if p in after.samples {
      assert ReceiveAll(r0, evs) == r1.(samples := r1.samples[p := after.samples[p]]);
      assert ReceiveAll(r0, evs).cards == Restricted(after, ps + {p}).cards;
      assert ReceiveAll(r0, evs).samples == Restricted(after, ps + {p}).samples;
    } else {
      assert evs == [evs[0]];
      assert r1.cards == Restricted(after, ps + {p}).cards;
      assert r1.samples == Restricted(after, ps + {p}).samples;
    }
  }

  /** Replaying all import events adds the imported cards whose ids are valid names. */
  lemma {:induction false} ImportReplay(after: Tree, ps: set<CardPath>, pkg: string, ids: seq<string>)
    requires ValidName(pkg) && UniqueIds(after) && NoOrphanSamples(after)
    requires Paths(pkg, ids) <= after.cards.Keys && ps !! Paths(pkg, ids)
    requires forall i, j | 0 <= i < j < |ids| :: ids[i] != ids[j]
    ensures ReceiveAll(Restricted(after, ps), ImportEvents(after, pkg, ids))
         == Restricted(after, ps + ValidPaths(pkg, ids))
  {
    if ids == [] {
      assert ps + ValidPaths(pkg, []) == ps;
    } else {
      hide ValidName, Receive;
      var n := |ids| - 1;
      var id, p := ids[n], CardPath(pkg, ids[n]);
      assert ids == ids[..n] + [id];
      PathsSnoc(pkg, ids[..n], id);
      ImportReplay(after, ps, pkg, ids[..n]);
      PathOfUnique(after, p);
      var evs, more := ImportEvents(after, pkg, ids[..n]), ps + ValidPaths(pkg, ids[..n]);
      assert p !in Paths(pkg, ids[..n]);
      if ValidName(id) {
        assert ImportEvents(after, pkg, ids) == evs + OneImport(after, pkg, id);
        ReceiveAllConcat(Restricted(after, ps), evs, OneImport(after, pkg, id));
        ReplayOne(after, more, pkg, id);
        assert more + {p} == ps + ValidPaths(pkg, ids);
      } else {
        assert ImportEvents(after, pkg, ids) == evs + [];
        assert evs + [] == evs;
        assert more == ps + ValidPaths(pkg, ids);
      }
    }
  }

  lemma {:induction false} ImportedAreDistinct(t: Tree, pkg: string, source: seq<SourceFile>)
    ensures var stems := CopyAll(t, pkg, source).stems;
            forall i, j | 0 <= i < j < |stems| :: stems[i] != stems[j]
  {
    if source != [] {
      hide Grown, PutFile;
      var n := |source| - 1;
      ImportedAreDistinct(t, pkg, source[..n]);
      CopyAllOnlyAdds(t, pkg, source[..n]);
      var stems := CopyAll(t, pkg, source[..n]).stems;
      forall i | 0 <= i < |stems|
        ensures CardPath(pkg, stems[i]) in CopyAll(t, pkg, source[..n]).tree.cards
      {
        assert CardPath(pkg, stems[i]) in Paths(pkg, stems);
      }
    }
  }

  // ----- what an import will do, read off its inputs -----

  /** The package has the card, or an earlier file of that name will have been copied. */
  predicate Held(t: Tree, pkg: string, source: seq<SourceFile>, i: nat)
    requires i < |source|
  {
    || CardPath(pkg, source[i].stem) in t.cards
    || exists j | 0 <= j < i :: source[j].stem == source[i].stem && source[j].kind.Importable?
  }

  /** A file that fails and whose card the package lacks: reaching it ends the import. */
  predicate Fatal(t: Tree, pkg: string, source: seq<SourceFile>, i: nat)
    requires i < |source|
  {
    (source[i].kind.Broken? || source[i].kind.Unfinished?) && !Held(t, pkg, source, i)
  }

  /** A card of the current schema that the package lacks. */
  predicate Wanted(t: Tree, pkg: string, source: seq<SourceFile>, i: nat)
    requires i < |source|
  {
    source[i].kind.Importable? && !Held(t, pkg, source, i)
  }

  predicate NoFatalBefore(t: Tree, pkg: string, source: seq<SourceFile>, n: nat)
    requires n <= |source|
  {
    forall j | 0 <= j < n :: !Fatal(t, pkg, source, j)
  }

  /** File i is copied. */
  predicate Taken(t: Tree, pkg: string, source: seq<SourceFile>, i: nat)
    requires i < |source|
  {
    Wanted(t, pkg, source, i) && NoFatalBefore(t, pkg, source, i)
  }

  /** File i leaves a card, whole or not. */
  predicate Adds(t: Tree, pkg: string, source: seq<SourceFile>, i: nat)
    requires i < |source|
  {
    || Taken(t, pkg, source, i)
    || (Fatal(t, pkg, source, i) && NoFatalBefore(t, pkg, source, i)
        && source[i].kind.Unfinished? && source[i].kind.card.Some?)
  }

  lemma PrefixPredicts(t: Tree, pkg: string, source: seq<SourceFile>, n: nat)
    requires n <= |source|
    ensures forall i | 0 <= i < n :: Fatal(t, pkg, source[..n], i) == Fatal(t, pkg, source, i)
    ensures forall i | 0 <= i < n :: Taken(t, pkg, source[..n], i) == Taken(t, pkg, source, i)
    ensures forall i | 0 <= i < n :: Adds(t, pkg, source[..n], i) == Adds(t, pkg, source, i)
    ensures NoFatalBefore(t, pkg, source[..n], n) == NoFatalBefore(t, pkg, source, n)
  {
    forall i | 0 <= i < n
      ensures Held(t, pkg, source[..n], i) == Held(t, pkg, source, i)
    {
      assert forall j | 0 <= j < i :: source[..n][j] == source[j];
    }
  }

  ghost predicate TakenStem(t: Tree, pkg: string, source: seq<SourceFile>, stem: string) {
    exists i | 0 <= i < |source| :: source[i].stem == stem && Taken(t, pkg, source, i)
  }

  /** An import succeeds exactly when no file of its source is fatal, and copies
      exactly the wanted files before the first fatal one. */
  lemma {:induction false} ImportIsPredicted(t: Tree, pkg: string, source: seq<SourceFile>)
    ensures var c := CopyAll(t, pkg, source);
            && (c.ok <==> NoFatalBefore(t, pkg, source, |source|))
            && (forall stem :: stem in c.stems <==> TakenStem(t, pkg, source, stem))
  {
    if source != [] {
      hide PutFile, Fatal, Taken, NoFatalBefore, TakenStem;
      var n := |source| - 1;
      var c := CopyAll(t, pkg, source[..n]);
      ImportIsPredicted(t, pkg, source[..n]);
      PrefixPredicts(t, pkg, source, n);
      PresentIsHeld(t, pkg, source, c);
      FileIs(t, pkg, source, n);
      LastIsPredicted(t, pkg, source, c);
    } else {
      assert NoFatalBefore(t, pkg, [], 0);
      assert forall stem :: !TakenStem(t, pkg, [], stem);
    }
  }

  lemma ImportedPaths(stems: seq<string>, pkg: string, stem: string)
    ensures CardPath(pkg, stem) in Paths(pkg, stems) <==> stem in stems
  {
    if stem in stems {
      var i :| 0 <= i < |stems| && stems[i] == stem;
      assert CardPath(pkg, stems[i]) in Paths(pkg, stems);
    }
  }

  lemma FileIs(t: Tree, pkg: string, source: seq<SourceFile>, i: nat)
    requires i < |source|
    ensures Fatal(t, pkg, source, i)
         == ((source[i].kind.Broken? || source[i].kind.Unfinished?) && !Held(t, pkg, source, i))
    ensures Taken(t, pkg, source, i)
         == (source[i].kind.Importable? && !Held(t, pkg, source, i) && NoFatalBefore(t, pkg, source, i))
  {
  }

  /** The step of the prediction at the last file, from what holds before it. */
  lemma LastIsPredicted(t: Tree, pkg: string, source: seq<SourceFile>, c: Copied)
    requires source != []
    requires var n := |source| - 1;
             && (c.ok <==> NoFatalBefore(t, pkg, source, n))
             && (forall stem :: stem in c.stems <==> TakenStem(t, pkg, source[..n], stem))
             && (c.ok ==> (CardPath(pkg, source[n].stem) in c.tree.cards <==> Held(t, pkg, source, n)))
    ensures var next := CopyNext(c, pkg, source[|source| - 1]);
            && (NoFatalBefore(t, pkg, source, |source|) <==> next.ok)
            && (forall stem :: TakenStem(t, pkg, source, stem) <==> stem in next.stems)
  {
    hide Fatal, Held, Taken, TakenStem, PutFile;
    var n, f := |source| - 1, source[|source| - 1];
    FileIs(t, pkg, source, n);
    assert NoFatalBefore(t, pkg, source, |source|) == (NoFatalBefore(t, pkg, source, n) && !Fatal(t, pkg, source, n));
    forall stem
      ensures TakenStem(t, pkg, source, stem)
         <==> TakenStem(t, pkg, source[..n], stem) || (Taken(t, pkg, source, n) && stem == f.stem)
    {
      TakenSplit(t, pkg, source, stem);
    }
  }

  lemma TakenSplit(t: Tree, pkg: string, source: seq<SourceFile>, stem: string)
    requires source != []
    ensures var n, f := |source| - 1, source[|source| - 1];
            TakenStem(t, pkg, source, stem)
            <==> TakenStem(t, pkg, source[..n], stem) || (Taken(t, pkg, source, n) && stem == f.stem)
  {
    hide Taken;
    var n := |source| - 1;
    PrefixPredicts(t, pkg, source, n);
    assert forall i | 0 <= i < n :: source[..n][i] == source[i];
    if TakenStem(t, pkg, source, stem) {
      var i :| 0 <= i < |source| && source[i].stem == stem && Taken(t, pkg, source, i);
      if i < n {
        assert source[..n][i].stem == stem && Taken(t, pkg, source[..n], i);
      }
    }
    if TakenStem(t, pkg, source[..n], stem) {
      var i :| 0 <= i < n && source[..n][i].stem == stem && Taken(t, pkg, source[..n], i);
      assert source[i].stem == stem && Taken(t, pkg, source, i);
    }
  }

  /** While no fatal file was met, a card is in the tree exactly when it is held. */
  lemma PresentIsHeld(t: Tree, pkg: string, source: seq<SourceFile>, c: Copied)
    requires source != [] && c == CopyAll(t, pkg, source[..|source| - 1])
    requires var n := |source| - 1;
             && (c.ok <==> NoFatalBefore(t, pkg, source[..n], n))
             && (forall stem :: stem in c.stems <==> TakenStem(t, pkg, source[..n], stem))
    ensures var n := |source| - 1;
            c.ok ==> (CardPath(pkg, source[n].stem) in c.tree.cards <==> Held(t, pkg, source, n))
  {
    hide CopyAll, Grown;
    var n := |source| - 1;
    CopyAllOnlyAdds(t, pkg, source[..n]);
    ImportedPaths(c.stems, pkg, source[n].stem);
    if c.ok {
      HeldIsPresent(t, pkg, source, c);
    }
  }

  lemma HeldIsPresent(t: Tree, pkg: string, source: seq<SourceFile>, c: Copied)
    requires source != [] && NoFatalBefore(t, pkg, source[..|source| - 1], |source| - 1)
    requires var n, f := |source| - 1, source[|source| - 1];
             && (forall stem :: stem in c.stems <==> TakenStem(t, pkg, source[..n], stem))
             && (CardPath(pkg, f.stem) in c.tree.cards
                 <==> CardPath(pkg, f.stem) in t.cards || f.stem in c.stems)
    ensures var n := |source| - 1;
            CardPath(pkg, source[n].stem) in c.tree.cards <==> Held(t, pkg, source, n)
  {
    var n, stem := |source| - 1, source[|source| - 1].stem;
    var front := source[..n];
    assert forall i | 0 <= i < n :: front[i] == source[i];
    if CardPath(pkg, stem) !in t.cards && Held(t, pkg, source, n) {
      var j :| 0 <= j < n && source[j].stem == stem && source[j].kind.Importable?;
      var k := FirstImportable(front, stem, j);
      assert Taken(t, pkg, front, k);
    }
    if stem in c.stems {
      var i :| 0 <= i < n && front[i].stem == stem && Taken(t, pkg, front, i);
      assert source[i].kind.Importable?;
    }
  }

  lemma {:induction false} FirstImportable(source: seq<SourceFile>, stem: string, j: nat) returns (k: nat)
    requires j < |source| && source[j].stem == stem && source[j].kind.Importable?
    ensures k <= j && source[k].stem == stem && source[k].kind.Importable?
    ensures forall i | 0 <= i < k :: !(source[i].stem == stem && source[i].kind.Importable?)
  {
    if i :| 0 <= i < j && source[i].stem == stem && source[i].kind.Importable? {
      k := FirstImportable(source, stem, i);
    } else {
      k := j;
    }
  }

  /** An import leaves the tree as it was exactly when no file is predicted to add a card. */
  lemma {:induction false} NothingAdded(t: Tree, pkg: string, source: seq<SourceFile>)
    ensures var after := CopyAll(t, pkg, source).tree;
            && (after == t <==> forall i | 0 <= i < |source| :: !Adds(t, pkg, source, i))
            && (after.cards.Keys == t.cards.Keys ==> after == t)
  {
    if source != [] {
      hide PutFile, Adds, Grown;
      var n := |source| - 1;
      var before, f := CopyAll(t, pkg, source[..n]), source[n];
      NothingAdded(t, pkg, source[..n]);
      PrefixPredicts(t, pkg, source, n);
      NextAdds(t, pkg, source);
      CopyAllOnlyAdds(t, pkg, source[..n]);
      if Adds(t, pkg, source, n) {
        if f.kind.Importable? {
          PutFileAdds(before.tree, pkg, f.stem, f.text, f.samples);
        } else {
          PutFileAdds(before.tree, pkg, f.stem, f.kind.card.value, f.kind.samples);
        }
        assert CardPath(pkg, f.stem) !in t.cards;
      } else {
        assert CopyAll(t, pkg, source).tree == before.tree;
      }
    }
  }

  predicate NamedById(stem: string) {
    ValidName(stem) && Plain(stem)
  }

  /** An import that leaves nothing behind, or one without fatal files that takes only
      files named by valid ids. */
  predicate CleanImport(t: Tree, pkg: string, source: seq<SourceFile>) {
    || (forall i | 0 <= i < |source| :: !Adds(t, pkg, source, i))
    || (NoFatalBefore(t, pkg, source, |source|)
        && forall i | 0 <= i < |source| && Taken(t, pkg, source, i) :: NamedById(source[i].stem))
  }

  lemma CleanIsPredicted(t: Tree, pkg: string, source: seq<SourceFile>)
    ensures var c := CopyAll(t, pkg, source);
            CleanImport(t, pkg, source)
            <==> c.tree == t || (c.ok && forall i | 0 <= i < |c.stems| :: NamedById(c.stems[i]))
  {
    hide ValidName, Plain, Taken, NoFatalBefore, CopyAll, Adds;
    ImportIsPredicted(t, pkg, source);
    NothingAdded(t, pkg, source);
    var c := CopyAll(t, pkg, source);
    forall i | 0 <= i < |c.stems|
      ensures TakenStem(t, pkg, source, c.stems[i])
    {
      assert c.stems[i] in c.stems;
    }
    forall i | 0 <= i < |source| && Taken(t, pkg, source, i)
      ensures source[i].stem in c.stems
    {
      assert TakenStem(t, pkg, source, source[i].stem);
    }
  }

  /** Replaying import events adds cards under reported ids only. */
  lemma {:induction false} ReplayAddsReported(t: Tree, after: Tree, pkg: string, ids: seq<string>)
    ensures ReceiveAll(t, ImportEvents(after, pkg, ids)).cards.Keys <= t.cards.Keys + Paths(pkg, ids)
  {
    if ids != [] {
      hide ValidName, Paths;
      var n := |ids| - 1;
      var evs := ImportEvents(after, pkg, ids[..n]);
      assert ids == ids[..n] + [ids[n]];
      PathsSnoc(pkg, ids[..n], ids[n]);
      ReplayAddsReported(t, after, pkg, ids[..n]);
      var more := ImportEvents(after, pkg, ids)[|evs|..];
      assert ImportEvents(after, pkg, ids) == evs + more;
      ReceiveAllConcat(t, evs, more);
      TwoEventsAdd(ReceiveAll(t, evs), more, pkg, ids[n]);
    }
  }

  lemma TwoEventsAdd(t: Tree, evs: seq<CardEvent>, pkg: string, id: string)
    requires |evs| <= 2 && forall e | 0 <= e < |evs| :: EventOf(evs[e], pkg, id)
    ensures ReceiveAll(t, evs).cards.Keys <= t.cards.Keys + {CardPath(pkg, id)}
  {
    hide ValidName;
    if evs != [] {
      var front := evs[..|evs| - 1];
      assert front != [] ==> front[..|front| - 1] == [] && EventOf(front[0], pkg, id);
    }
  }

  predicate EventOf(ev: CardEvent, pkg: string, id: string) {
    (ev.Created? && ev.pkg == pkg && ev.cardId == id) || ev.SamplesWritten?
  }

  /** A sink never hears of a card whose file is not named by its reported id. */
  lemma OddNameDiverges(t: Tree, after: Tree, pkg: string, stems: seq<string>, i: nat)
    requires i < |stems| && !Plain(stems[i])
    requires CardPath(pkg, stems[i]) in after.cards && CardPath(pkg, stems[i]) !in t.cards
    ensures ReceiveAll(t, ImportEvents(after, pkg, ReportedIds(stems))) != after
  {
    ReplayAddsReported(t, after, pkg, ReportedIds(stems));
  }

  /** An import keeps a sink equal to the primary exactly when it is clean, which the
      files to import and the store tell before the call: one that fails half-way has
      copied cards it never announces, and so has one that copies a file under a name
      other than the id it reports. */
  lemma ImportIsMirrored(t: Tree, pkg: string, source: seq<SourceFile>)
    requires NoOrphanSamples(t) && ValidName(pkg) && UniqueIds(CopyAll(t, pkg, source).tree)
    ensures var o := Perform(t, Import(pkg, source));
            ReceiveAll(t, o.events) == o.tree <==> CleanImport(t, pkg, source)
  {
    hide ValidName, Receive, CleanImport, Plain, NoOrphanSamples, UniqueIds, Grown, CopyAll, Paths;
    var c := CopyAll(t, pkg, source);
    CleanIsPredicted(t, pkg, source);
    CopyAllOnlyAdds(t, pkg, source);
    if c.ok {
      if i :| 0 <= i < |c.stems| && !Plain(c.stems[i]) {
        ImportedPaths(c.stems, pkg, c.stems[i]);
        OddNameDiverges(t, c.tree, pkg, c.stems, i);
        assert !NamedById(c.stems[i]);
        assert c.tree != t;
      } else {
        PlainImportIsMirrored(t, pkg, source);
      }
    }
  }

  lemma PlainImportIsMirrored(t: Tree, pkg: string, source: seq<SourceFile>)
    requires NoOrphanSamples(t) && ValidName(pkg) && UniqueIds(CopyAll(t, pkg, source).tree)
    requires CopyAll(t, pkg, source).ok
    requires forall i | 0 <= i < |CopyAll(t, pkg, source).stems| :: Plain(CopyAll(t, pkg, source).stems[i])
    ensures var o := Perform(t, Import(pkg, source));
            ReceiveAll(t, o.events) == o.tree
            <==> o.tree == t || forall i | 0 <= i < |CopyAll(t, pkg, source).stems| ::
                   NamedById(CopyAll(t, pkg, source).stems[i])
  {
    hide ValidName, Receive, Plain, UniqueIds, CopyAll, Paths, ValidPaths;
    var c := CopyAll(t, pkg, source);
    CopyAllOnlyAdds(t, pkg, source);
    ImportedAreDistinct(t, pkg, source);
    TakenArePlain(t, pkg, source);
    PlainImportKeepsOwned(t, pkg, source);
    assert ReportedIds(c.stems) == c.stems;
    ImportReplay(c.tree, t.cards.Keys, pkg, c.stems);
    var known := t.cards.Keys + ValidPaths(pkg, c.stems);
    WholeTreeIffAllKept(c.tree, known);
    ValidArePaths(pkg, c.stems);
    AllValid(pkg, c.stems, t.cards.Keys);
    if c.tree == t {
      NoPaths(pkg, c.stems);
    }
  }

  lemma ValidArePaths(pkg: string, stems: seq<string>)
    ensures ValidPaths(pkg, stems) <= Paths(pkg, stems)
  {
    hide ValidName;
  }

  lemma NoPaths(pkg: string, stems: seq<string>)
    ensures Paths(pkg, stems) == {} ==> stems == []
  {
    if stems != [] {
      assert CardPath(pkg, stems[0]) in Paths(pkg, stems);
    }
  }

  lemma TakenArePlain(t: Tree, pkg: string, source: seq<SourceFile>)
    requires CopyAll(t, pkg, source).ok
    requires forall i | 0 <= i < |CopyAll(t, pkg, source).stems| :: Plain(CopyAll(t, pkg, source).stems[i])
    ensures PlainImport(t, pkg, source)
  {
    hide CopyAll, Plain, Fatal, Taken;
    ImportIsPredicted(t, pkg, source);
    forall i | 0 <= i < |source| && Adds(t, pkg, source, i)
      ensures Plain(source[i].stem)
    {
      assert TakenStem(t, pkg, source, source[i].stem);
    }
  }

  lemma CleanIsPlain(t: Tree, pkg: string, source: seq<SourceFile>)
    requires CleanImport(t, pkg, source)
    ensures PlainImport(t, pkg, source)
  {
    hide ValidName, Plain, Held;
  }

  /** A good file and then a broken one: the primary keeps the first card, no event is
      published, and the sink stays empty. */
  lemma BrokenImportDiverges(source: seq<SourceFile>)
    requires source == [SourceFile("a", "text", None, Importable), SourceFile("b", "", None, Broken)]
    ensures var o := Perform(EMPTY_TREE, Import("pkg", source));
            && !o.ok && o.events == [] && o.tree.cards == map[CardPath("pkg", "a") := "text"]
            && ReceiveAll(EMPTY_TREE, o.events) == EMPTY_TREE != o.tree
  {
    hide ValidName, CopyAll;
    PkgIsValid();
    var good, bad := source[0], source[1];
    assert source == [good, bad];
    CopyGood(EMPTY_TREE, "pkg", good);
    CopyThenBroken(EMPTY_TREE, "pkg", good, bad);
    assert CardPath("pkg", "a") in PutFile(EMPTY_TREE, "pkg", "a", "text", None).cards;
  }

  /** A file named "x.toml.toml": it is imported as card "x.toml" and reported as "x",
      which no lookup finds, so no event is published and the sink stays empty. */
  lemma OddNameIsNotAnnounced(source: seq<SourceFile>)
    requires source == [SourceFile("x.toml", "text", None, Importable)]
    ensures var o := Perform(EMPTY_TREE, Import("pkg", source));
            && o.ok && o.events == [] && o.tree.cards == map[CardPath("pkg", "x.toml") := "text"]
            && ReceiveAll(EMPTY_TREE, o.events) == EMPTY_TREE != o.tree
            && !CleanImport(EMPTY_TREE, "pkg", source)
  {
    hide ValidName, CopyAll;
    PkgIsValid();
    var odd := source[0];
    assert source == [odd];
    CopyGood(EMPTY_TREE, "pkg", odd);
    var after := PutFile(EMPTY_TREE, "pkg", "x.toml", "text", None);
    assert CardPath("pkg", "x.toml") in after.cards;
    assert "x.toml"[1..] == ".toml" && "x.toml"[..1] == "x";
    assert !Plain("x.toml") && Reported("x.toml") == "x";
    var ids := ReportedIds(["x.toml"]);
    assert ids == ["x"] && ids[..0] == [];
    assert !HasCard(after, "x");
    assert ImportEvents(after, "pkg", ids) == ImportEvents(after, "pkg", ids[..0]) == [];
    CleanIsPredicted(EMPTY_TREE, "pkg", source);
    assert !NamedById(CopyAll(EMPTY_TREE, "pkg", source).stems[0]);
  }

  lemma CopyGood(t: Tree, pkg: string, f: SourceFile)
    requires f.kind.Importable? && CardPath(pkg, f.stem) !in t.cards
    ensures CopyAll(t, pkg, [f]) == Copied(PutFile(t, pkg, f.stem, f.text, f.samples), true, [f.stem])
  {
    hide PutFile;
    assert [f][..0] == [];
    assert CopyAll(t, pkg, []) == Copied(t, true, []);
  }

  lemma CopyThenBroken(t: Tree, pkg: string, f: SourceFile, g: SourceFile)
    requires CopyAll(t, pkg, [f]).ok && g.kind.Broken?
    requires CardPath(pkg, g.stem) !in CopyAll(t, pkg, [f]).tree.cards
    ensures CopyAll(t, pkg, [f, g]) == CopyAll(t, pkg, [f]).(ok := false)
  {
    hide PutFile;
    assert [f, g][..1] == [f];
  }

  lemma PkgIsValid()
    ensures ValidName("pkg")
  {
    forall i | 0 <= i <= 3
      ensures !(".." <= "pkg"[i..])
    {
      assert i < 3 ==> "pkg"[i..][0] != '.';
    }
  }

  lemma WholeTreeIffAllKept(t: Tree, ps: set<CardPath>)
    requires NoOrphanSamples(t)
    ensures Restricted(t, ps) == t <==> t.cards.Keys <= ps
  {
    if t.cards.Keys <= ps {
      assert Restricted(t, ps).cards == t.cards && Restricted(t, ps).samples == t.samples;
    } else {
      var p :| p in t.cards && p !in ps;
      assert p !in Restricted(t, ps).cards;
    }
  }

  lemma AllValid(pkg: string, ids: seq<string>, other: set<CardPath>)
    requires other !! Paths(pkg, ids)
    ensures other + Paths(pkg, ids) <= other + ValidPaths(pkg, ids)
       <==> forall i | 0 <= i < |ids| :: ValidName(ids[i])
  {
    hide ValidName;
    if other + Paths(pkg, ids) <= other + ValidPaths(pkg, ids) {
      forall i | 0 <= i < |ids|
        ensures ValidName(ids[i])
      {
        assert CardPath(pkg, ids[i]) in Paths(pkg, ids);
        assert CardPath(pkg, ids[i]) in ValidPaths(pkg, ids);
      }
    }
  }

  // ----- whole runs -----

  ghost function Run(t: Tree, cs: seq<Command>): Tree {
    if cs == [] then t else Perform(Run(t, cs[..|cs| - 1]), cs[|cs| - 1]).tree
  }

  /** The sink's tree after the same run. */
  ghost function RunSink(t: Tree, sink: Tree, cs: seq<Command>): Tree {
    if cs == [] then sink
    else
      var n := |cs| - 1;
      ReceiveAll(RunSink(t, sink, cs[..n]), Perform(Run(t, cs[..n]), cs[n]).events)
  }

  /** Ids stay unique at every point of the run, and every import is clean. */
  ghost predicate CleanRun(t: Tree, cs: seq<Command>) {
    forall n | 0 <= n < |cs| :: CleanAt(t, cs, n)
  }

  ghost predicate CleanAt(t: Tree, cs: seq<Command>, n: nat)
    requires n < |cs|
  {
    && UniqueIds(Run(t, cs[..n + 1]))
    && (cs[n].Import? ==> CleanImport(Run(t, cs[..n]), cs[n].pkg, cs[n].source))
  }

  lemma PerformKeepsSamplesOwned(t: Tree, c: Command)
    requires NoOrphanSamples(t) && (c.Import? ==> PlainImport(t, c.pkg, c.source))
    ensures NoOrphanSamples(Perform(t, c).tree)
  {
    hide ValidName, PlainImport, CopyAll;
    if c.Import? {
      PlainImportKeepsOwned(t, c.pkg, c.source);
    }
  }

  /** Over any clean run, a sink that never fails and starts equal to the primary
      ends equal to it: cards, samples and alias table, text for text. */
  lemma {:induction false} RunIsMirrored(t: Tree, cs: seq<Command>)
    requires NoOrphanSamples(t) && CleanRun(t, cs)
    ensures RunSink(t, t, cs) == Run(t, cs) && NoOrphanSamples(Run(t, cs))
  {
    if cs != [] {
      hide ValidName, Receive, ReceiveAll, Perform, CleanImport;
      var n := |cs| - 1;
      var before, c := Run(t, cs[..n]), cs[n];
      CleanPrefix(t, cs);
      RunIsMirrored(t, cs[..n]);
      assert cs[..n + 1] == cs;
      if c.Import? {
        CleanIsPlain(before, c.pkg, c.source);
      }
      PerformKeepsSamplesOwned(before, c);
      StepIsMirrored(before, c);
    }
  }

  lemma CleanPrefix(t: Tree, cs: seq<Command>)
    requires cs != [] && CleanRun(t, cs)
    ensures CleanRun(t, cs[..|cs| - 1])
    ensures UniqueIds(Run(t, cs))
    ensures var n := |cs| - 1; cs[n].Import? ==> CleanImport(Run(t, cs[..n]), cs[n].pkg, cs[n].source)
  {
    hide Run, UniqueIds, CleanImport;
    var front := cs[..|cs| - 1];
    assert cs[..|cs| - 1 + 1] == cs;
    assert CleanAt(t, cs, |cs| - 1);
    forall n | 0 <= n < |front|
      ensures CleanAt(t, front, n)
    {
      assert CleanAt(t, cs, n);
      assert front[..n + 1] == cs[..n + 1] && front[..n] == cs[..n];
    }
  }

  lemma StepIsMirrored(t: Tree, c: Command)
    requires NoOrphanSamples(t) && UniqueIds(Perform(t, c).tree)
    requires c.Import? ==> CleanImport(t, c.pkg, c.source)
    ensures ReceiveAll(t, Perform(t, c).events) == Perform(t, c).tree
  {
    if !c.Import? {
      WriteIsMirrored(t, c);
    } else if ValidName(c.pkg) {
      ImportIsMirrored(t, c.pkg, c.source);
    }
  }
}

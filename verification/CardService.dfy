/** The card verbs: write to the primary, then publish what was written. */
module CardService {
  import opened Aliases
  import opened CardDocs
  import opened CardEvents
  import opened CardStore
  import opened Json
  import Samples
  import opened Text
  import opened Toml

  /** Whether the storage of sink i works for the e-th event of a verb. */
  type Health = (nat, nat) -> bool

  ghost function DeliverAll(t: Tree, evs: seq<CardEvent>, io: Health, i: nat): Tree {
    if evs == [] then t
    else
      var n := |evs| - 1;
      Delivered(DeliverAll(t, evs[..n], io, i), evs[n], io(n, i))
  }

  /** A sink that never fails takes every event. */
  lemma {:induction false} HealthySinkTakesAll(t: Tree, evs: seq<CardEvent>, io: Health, i: nat)
    requires forall e: nat | e < |evs| :: io(e, i)
    ensures DeliverAll(t, evs, io, i) == ReceiveAll(t, evs)
  {
    if evs != [] {
      HealthySinkTakesAll(t, evs[..|evs| - 1], io, i);
    }
  }

  /** Events name only cards of the primary. */
  ghost predicate Backed(evs: seq<CardEvent>, primary: Tree) {
    forall e | 0 <= e < |evs| :: evs[e].Created? ==> CardPath(evs[e].pkg, evs[e].cardId) in primary.cards
  }

  lemma PerformIsBacked(t: Tree, c: Command)
    requires c.Import? ==> PlainImport(t, c.pkg, c.source)
    ensures Backed(Perform(t, c).events, Perform(t, c).tree)
  {
    hide ValidName, CopyAll, PlainImport, Paths;
    if c.Import? {
      var copied := CopyAll(t, c.pkg, c.source);
      CopyAllOnlyAdds(t, c.pkg, c.source);
      if copied.ok {
        StemsAreIds(t, c.pkg, c.source);
        ImportIsBacked(copied.tree, c.pkg, copied.stems);
      }
    }
  }

  lemma StemsAreIds(t: Tree, pkg: string, source: seq<SourceFile>)
    requires PlainImport(t, pkg, source)
    ensures ReportedIds(CopyAll(t, pkg, source).stems) == CopyAll(t, pkg, source).stems
  {
    hide CopyAll, Plain, Taken, Fatal;
    ImportIsPredicted(t, pkg, source);
    var stems := CopyAll(t, pkg, source).stems;
    forall i | 0 <= i < |stems|
      ensures Plain(stems[i])
    {
      assert stems[i] in stems;
      var k :| 0 <= k < |source| && source[k].stem == stems[i] && Taken(t, pkg, source, k);
      assert Adds(t, pkg, source, k);
    }
  }

  lemma {:induction false} ImportIsBacked(after: Tree, pkg: string, ids: seq<string>)
    requires Paths(pkg, ids) <= after.cards.Keys
    ensures Backed(ImportEvents(after, pkg, ids), after)
  {
    hide ValidName, HasCard;
    if ids != [] {
      var n := |ids| - 1;
      assert ids == ids[..n] + [ids[n]];
      PathsSnoc(pkg, ids[..n], ids[n]);
      ImportIsBacked(after, pkg, ids[..n]);
    }
  }

  lemma BackedSplits(evs: seq<CardEvent>, primary: Tree)
    requires evs != [] && Backed(evs, primary)
    ensures Backed(evs[..|evs| - 1], primary) && Backed([evs[|evs| - 1]], primary)
  {
  }

  lemma SubtreeIsUnique(sink: Tree, primary: Tree)
    requires UniqueIds(primary) && sink.cards.Keys <= primary.cards.Keys
    ensures UniqueIds(sink)
  {
  }

  lemma DeliveryStaysWithin(t: Tree, ev: CardEvent, io: bool, primary: Tree)
    requires t.cards.Keys <= primary.cards.Keys && Backed([ev], primary)
    ensures Delivered(t, ev, io).cards.Keys <= primary.cards.Keys
  {
    assert [ev][0] == ev;
    hide ValidName;
  }

  // ----- what the sinks may hold after a verb -----

  ghost predicate LandsAll(t: Tree, evs: seq<CardEvent>, io: Health, i: nat, after: Tree) {
    if evs == [] then after == t
    else
      var n := |evs| - 1;
      exists mid :: LandsAll(t, evs[..n], io, i, mid) && Lands(mid, evs[n], io(n, i), after)
  }

  lemma LandsStep(t: Tree, evs: seq<CardEvent>, e: nat, io: Health, i: nat, mid: Tree, after: Tree)
    requires e < |evs| && LandsAll(t, evs[..e], io, i, mid) && Lands(mid, evs[e], io(e, i), after)
    ensures LandsAll(t, evs[..e + 1], io, i, after)
  {
    hide Lands;
    assert evs[..e + 1][..e] == evs[..e];
  }

  /** Sinks that went from `was` to `now` over these events. */
  ghost predicate Took(was: seq<Tree>, now: seq<Tree>, evs: seq<CardEvent>, io: Health) {
    |was| == |now| && forall i | 0 <= i < |now| :: LandsAll(was[i], evs, io, i, now[i])
  }

  ghost predicate TookExactly(was: seq<Tree>, now: seq<Tree>, evs: seq<CardEvent>, io: Health) {
    |was| == |now| && forall i | 0 <= i < |now| :: now[i] == DeliverAll(was[i], evs, io, i)
  }

  lemma NothingTaken(views: seq<Tree>, io: Health)
    ensures Took(views, views, [], io) && TookExactly(views, views, [], io)
  {
  }

  ghost predicate Within(sinks: seq<Tree>, primary: Tree) {
    forall i | 0 <= i < |sinks| :: sinks[i].cards.Keys <= primary.cards.Keys
  }

  /** Ids are unique, and the sinks hold no card the primary does not. */
  ghost predicate Synced(primary: Tree, sinks: seq<Tree>) {
    UniqueIds(primary) && NoOrphanSamples(primary) && Within(sinks, primary)
  }

  /** A sink within a primary of unique ids has one way to take the events. */
  lemma {:induction false} LandsAllOneWay(t: Tree, evs: seq<CardEvent>, io: Health, i: nat, after: Tree, primary: Tree)
    requires UniqueIds(primary) && Backed(evs, primary) && t.cards.Keys <= primary.cards.Keys
    requires LandsAll(t, evs, io, i, after)
    ensures after == DeliverAll(t, evs, io, i) && after.cards.Keys <= primary.cards.Keys
  {
    if evs != [] {
      hide UniqueIds, Lands, Delivered, Backed, OneFile;
      var n := |evs| - 1;
      var mid :| LandsAll(t, evs[..n], io, i, mid) && Lands(mid, evs[n], io(n, i), after);
      BackedSplits(evs, primary);
      LandsAllOneWay(t, evs[..n], io, i, mid, primary);
      SubtreeIsUnique(mid, primary);
      if evs[n].Appended? || evs[n].SamplesWritten? {
        UniqueIdsOneFile(mid, evs[n].cardId);
      }
      LandsOneWay(mid, evs[n], io(n, i), after);
      DeliveryStaysWithin(mid, evs[n], io(n, i), primary);
    }
  }

  /** An event that names its file lands one way on any sink. */
  lemma NamedEventTaken(was: seq<Tree>, now: seq<Tree>, ev: CardEvent, io: Health)
    requires Took(was, now, [ev], io) && (ev.Created? || ev.AliasesWritten?)
    ensures TookExactly(was, now, [ev], io)
  {
    hide Lands, Delivered;
    forall i | 0 <= i < |now|
      ensures now[i] == DeliverAll(was[i], [ev], io, i)
    {
      assert [ev][..0] == [];
      assert LandsAll(was[i], [ev], io, i, now[i]);
      var mid :| LandsAll(was[i], [ev][..0], io, i, mid) && Lands(mid, ev, io(0, i), now[i]);
      assert mid == was[i];
      LandsOneWay(was[i], ev, io(0, i), now[i]);
    }
  }

  lemma PerformKeepsCards(t: Tree, c: Command)
    ensures t.cards.Keys <= Perform(t, c).tree.cards.Keys
  {
    hide ValidName;
    if c.Import? {
      CopyAllOnlyAdds(t, c.pkg, c.source);
    }
  }

  /** After any command that leaves ids unique and files named by them, sinks that were
      in step have taken its events in the one way there is, and are in step again. */
  lemma CommandIsFollowed(t: Tree, c: Command, was: seq<Tree>, now: seq<Tree>, io: Health)
    requires c.Import? ==> PlainImport(t, c.pkg, c.source)
    requires Synced(t, was) && UniqueIds(Perform(t, c).tree) && Took(was, now, Perform(t, c).events, io)
    ensures Synced(Perform(t, c).tree, now) && TookExactly(was, now, Perform(t, c).events, io)
  {
    hide UniqueIds, Perform, LandsAll, DeliverAll, NoOrphanSamples, Backed, PlainImport;
    var o := Perform(t, c);
    PerformIsBacked(t, c);
    PerformKeepsSamplesOwned(t, c);
    PerformKeepsCards(t, c);
    forall i | 0 <= i < |now|
      ensures now[i] == DeliverAll(was[i], o.events, io, i) && now[i].cards.Keys <= o.tree.cards.Keys
    {
      LandsAllOneWay(was[i], o.events, io, i, now[i], o.tree);
    }
  }

  // ----- reading imported cards back -----

  /** Which of the imported cards and samples can be read back. */
  datatype Readable = Readable(card: nat -> bool, samples: nat -> bool)

  ghost predicate AllReadable(io: Readable) {
    forall i :: io.card(i) && io.samples(i)
  }

  ghost predicate Looked(t: Tree, ids: seq<string>, at: seq<CardPath>) {
    |at| == |ids| && forall i | 0 <= i < |ids| && ValidName(ids[i]) && HasCard(t, ids[i]) :: Finds(t, ids[i], at[i])
  }

  /** The events for ids whose card and whose samples were looked up at these files. */
  ghost function EventsAt(t: Tree, pkg: string, ids: seq<string>, cards: seq<CardPath>, samples: seq<CardPath>,
      io: Readable): seq<CardEvent>
    requires Looked(t, ids, cards) && Looked(t, ids, samples)
  {
    if ids == [] then []
    else
      var n := |ids| - 1;
      LookedPrefix(t, ids, cards);
      LookedPrefix(t, ids, samples);
      EventsAt(t, pkg, ids[..n], cards[..n], samples[..n], io)
      + if !ValidName(ids[n]) || !HasCard(t, ids[n]) then []
        else EventsFor(t, pkg, ids[n], cards[n], samples[n], io.card(n), io.samples(n))
  }

  ghost function EventsFor(t: Tree, pkg: string, id: string, card: CardPath, samples: CardPath, readCard: bool,
      readSamples: bool): seq<CardEvent>
    requires card in t.cards
  {
    (if readCard then [Created(pkg, id, t.cards[card])] else [])
    + if samples in t.samples && readSamples then [SamplesWritten(id, t.samples[samples])] else []
  }

  lemma LookedPrefix(t: Tree, ids: seq<string>, at: seq<CardPath>)
    requires ids != [] && Looked(t, ids, at)
    ensures Looked(t, ids[..|ids| - 1], at[..|at| - 1])
    ensures var id := ids[|ids| - 1];
            ValidName(id) && HasCard(t, id) ==> Finds(t, id, at[|at| - 1])
  {
    hide ValidName, HasCard, Finds;
  }

  lemma LookedSnoc(t: Tree, ids: seq<string>, at: seq<CardPath>, id: string, p: CardPath)
    requires Looked(t, ids, at) && (ValidName(id) && HasCard(t, id) ==> Finds(t, id, p))
    ensures Looked(t, ids + [id], at + [p])
  {
    hide ValidName, HasCard, Finds;
  }

  ghost predicate FetchedBack(t: Tree, pkg: string, ids: seq<string>, io: Readable, evs: seq<CardEvent>) {
    exists cards, samples :: Looked(t, ids, cards) && Looked(t, ids, samples)
      && evs == EventsAt(t, pkg, ids, cards, samples, io)
  }

  lemma NothingFetched(t: Tree, pkg: string, io: Readable)
    ensures FetchedBack(t, pkg, [], io, [])
  {
    var none: seq<CardPath> := [];
    assert Looked(t, [], none) && EventsAt(t, pkg, [], none, none, io) == [];
  }

  lemma FetchedSnoc(t: Tree, pkg: string, ids: seq<string>, io: Readable, evs: seq<CardEvent>, id: string,
      card: CardPath, samples: CardPath)
    requires FetchedBack(t, pkg, ids, io, evs)
    requires ValidName(id) && HasCard(t, id) ==> Finds(t, id, card) && Finds(t, id, samples)
    ensures FetchedBack(t, pkg, ids + [id], io, evs
              + if !ValidName(id) || !HasCard(t, id) then []
                else EventsFor(t, pkg, id, card, samples, io.card(|ids|), io.samples(|ids|)))
  {
    hide Looked, HasCard, ValidName, EventsFor;
    var cs, ss :| Looked(t, ids, cs) && Looked(t, ids, ss) && evs == EventsAt(t, pkg, ids, cs, ss, io);
    LookedSnoc(t, ids, cs, id, card);
    LookedSnoc(t, ids, ss, id, samples);
    LookedLength(t, ids, cs);
    LookedLength(t, ids, ss);
    var n := |ids|;
    assert (ids + [id])[..n] == ids && (cs + [card])[..n] == cs && (ss + [samples])[..n] == ss;
    var more := EventsAt(t, pkg, ids + [id], cs + [card], ss + [samples], io);
  }

  lemma LookedLength(t: Tree, ids: seq<string>, at: seq<CardPath>)
    requires Looked(t, ids, at)
    ensures |at| == |ids|
  {
  }

  /** With unique ids, what can be read back is read from where it was imported to. */
  lemma {:induction false} FetchedOneWay(t: Tree, pkg: string, ids: seq<string>, io: Readable, evs: seq<CardEvent>)
    requires UniqueIds(t) && AllReadable(io) && FetchedBack(t, pkg, ids, io, evs)
    ensures evs == ImportEvents(t, pkg, ids)
  {
    var cs, ss :| Looked(t, ids, cs) && Looked(t, ids, ss) && evs == EventsAt(t, pkg, ids, cs, ss, io);
    EventsAtOneWay(t, pkg, ids, cs, ss, io);
  }

  lemma {:induction false} EventsAtOneWay(t: Tree, pkg: string, ids: seq<string>, cards: seq<CardPath>,
      samples: seq<CardPath>, io: Readable)
    requires UniqueIds(t) && AllReadable(io) && Looked(t, ids, cards) && Looked(t, ids, samples)
    ensures EventsAt(t, pkg, ids, cards, samples, io) == ImportEvents(t, pkg, ids)
  {
    if ids != [] {
      hide ValidName, UniqueIds, Looked, HasCard;
      var n := |ids| - 1;
      LookedPrefix(t, ids, cards);
      LookedPrefix(t, ids, samples);
      LookedLength(t, ids, cards);
      LookedLength(t, ids, samples);
      EventsAtOneWay(t, pkg, ids[..n], cards[..n], samples[..n], io);
      if ValidName(ids[n]) && HasCard(t, ids[n]) {
        PathOfUnique(t, cards[n]);
        PathOfUnique(t, samples[n]);
      }
    }
  }

  class CardService {
    const store: FileCardStore
    const bus: CardEventBus
    const codec: TomlCodec

    constructor (store: FileCardStore, bus: CardEventBus, codec: TomlCodec)
      ensures this.store == store && this.bus == bus && this.codec == codec
    {
      this.store, this.bus, this.codec := store, bus, codec;
    }

    /** Every sink gets every event in order; sink failures stay with the sink. */
    method PublishAll(evs: seq<CardEvent>, io: Health)
      requires bus.Valid()
      modifies bus`stats, bus.subscribers
      ensures Took(old(bus.Views()), bus.Views(), evs, io)
    {
      hide Lands, LandsAll, FileCardSubscriber.View, RecordAll;
      ghost var was := bus.Views();
      NothingTaken(was, io);
      assert Took(was, was, [], io);
      var n := |bus.subscribers|;
      for e := 0 to |evs|
        invariant n == |bus.subscribers| == |was|
        invariant forall i | 0 <= i < n :: LandsAll(was[i], evs[..e], io, i, bus.subscribers[i].View())
      {
        ghost var mid := bus.Views();
        bus.Publish(evs[e], seq(n, i requires 0 <= i < n => io(e, i)));
        forall i | 0 <= i < n
          ensures LandsAll(was[i], evs[..e + 1], io, i, bus.subscribers[i].View())
        {
          LandsStep(was[i], evs, e, io, i, mid[i], bus.subscribers[i].View());
        }
      }
      assert evs[..|evs|] == evs;
    }

    /** `alc.card.append`: rejected appends change nothing anywhere. An accepted one
        merges into the document it read, stores it as the card it found and returns it.
        `disk` says which operations on the primary work, here and below. */
    method AppendFields(cardId: string, fields: Json, disk: StoreIo, io: Health)
        returns (r: Result<Json>, ghost from: Option<CardPath>, ghost to: CardPath)
      requires bus.Valid() && Exact(codec)
      modifies store, bus`stats, bus.subscribers
      ensures from.Some? <==> disk.canList && ValidName(cardId) && HasCard(old(store.View()), cardId)
      ensures from.Some? ==> Finds(old(store.View()), cardId, from.value) && Finds(old(store.View()), cardId, to)
      ensures var text := if from.None? then None else AppendedText(old(store.cards)[from.value], fields, codec);
              && (r.Ok? <==> disk.Works() && text.Some?)
              && store.View() == old(store.View()).(cards :=
                   if r.Ok? then old(store.cards)[to := text.value] else old(store.cards))
              && Took(old(bus.Views()), bus.Views(), if r.Ok? then [Appended(cardId, text.value)] else [], io)
      ensures r.Ok? ==> r.value == Obj(Merged(Doc(old(store.cards)[from.value], codec).value, fields.m))
      ensures Synced(old(store.View()), old(bus.Views())) ==>
                && Synced(store.View(), bus.Views())
                && var c := AppendCommand(old(store.View()), cardId, fields, codec);
                   && (r.Ok? <==> disk.Works() && c.Some?)
                   && (r.Ok? ==> store.View() == Perform(old(store.View()), c.value).tree)
                   && TookExactly(old(bus.Views()), bus.Views(),
                        if r.Ok? then Perform(old(store.View()), c.value).events else [], io)
    {
      hide ValidName, Receive, Lands, LandsAll, DeliverAll, Doc, AppendedText, Merged, FileCardSubscriber.View,
        UniqueIds, NoOrphanSamples, Took, TookExactly;
      from, to := None, CardPath("", "");
      ghost var before, was := store.View(), bus.Views();
      NothingTaken(was, io);
      var at := store.FindCardLocator(cardId, disk.canList);
      if at.Err? || at.value.None? {
        return Err("card not found"), None, to;
      }
      from, to := at.value, at.value.value;
      FoundForAppend(before, cardId, fields, codec, at.value.value);
      if !disk.canRead {
        return Err("Failed to read card"), from, to;
      }
      var merged := MergeIntoText(store.cards[at.value.value], fields);
      if merged.Err? {
        return Err(merged.error), from, to;
      }
      var written := merged.value.0;
      var path := store.OverwriteCard(cardId, written, disk);
      if path.Err? {
        return Err(path.error), from, to;
      }
      to := path.value;
      PublishAll([Appended(cardId, written)], io);
      AppendedIs(before, cardId, written);
      if Synced(before, was) {
        CommandIsFollowed(before, Append(cardId, written), was, bus.Views(), io);
      }
      r := Ok(Obj(merged.value.1));
    }

    /** The text and the document an append writes over this text. */
    method MergeIntoText(text: string, fields: Json) returns (r: Result<(string, map<string, Json>)>)
      requires Exact(codec)
      ensures var written := AppendedText(text, fields, codec);
              && (r.Ok? <==> written.Some?)
              && (r.Ok? ==> r.value == (written.value, Merged(Doc(text, codec).value, fields.m)))
    {
      hide ValidName, Doc, DocText, Merged, Conflicts;
      if !fields.Obj? {
        return Err("fields must be a table");
      }
      var existing := Doc(text, codec);
      if existing.None? {
        return Err("failed to parse card");
      }
      var merged := MergeFields(existing.value, fields.m);
      if merged.Err? {
        return Err(merged.error);
      }
      var toml := JsonToToml(Obj(merged.value));
      DocTextIs(merged.value, codec);
      r := Ok((codec.render(toml.value), merged.value));
    }

    /** `alc.card.create`. An id already used in the same package is refused; the
        sinks see the card exactly when the primary took it. */
    method CreateCard(input: Json, env: CreateEnv, disk: StoreIo, io: Health) returns (r: Result<string>)
      requires bus.Valid()
      modifies store, bus`stats, bus.subscribers
      ensures var c := CreateCommand(input, env, codec);
              && (r.Ok? <==> disk.canWrite && c.Some? && Perform(old(store.View()), c.value).ok)
              && (r.Ok? ==> r.value == c.value.cardId)
              && store.View() == (if r.Ok? then Perform(old(store.View()), c.value).tree else old(store.View()))
              && TookExactly(old(bus.Views()), bus.Views(),
                   if r.Ok? then Perform(old(store.View()), c.value).events else [], io)
      ensures Synced(old(store.View()), old(bus.Views())) && UniqueIds(store.View()) ==>
                Synced(store.View(), bus.Views())
    {
      hide ValidName, Lands, LandsAll, DeliverAll, Enriched, FileCardSubscriber.View, DocText, UniqueIds,
        NoOrphanSamples, Took, TookExactly;
      ghost var before, was := store.View(), bus.Views();
      NothingTaken(was, io);
      if !input.Obj? {
        return Err("input must be a table");
      }
      var pkg := PkgName(input);
      if pkg.None? || !ValidName(pkg.value) {
        return Err("pkg.name is required");
      }
      var (id, doc) := Enriched(input.m, env);
      if !ValidName(id) {
        return Err("Invalid card_id name");
      }
      var toml := JsonToToml(Obj(doc));
      var text := codec.render(toml.value);
      DocTextIs(doc, codec);
      ghost var c := Create(pkg.value, id, text);
      assert CreateCommand(input, env, codec) == Some(c);
      var path := store.WriteNewCard(pkg.value, id, text, disk.canWrite);
      if path.Err? {
        return Err(path.error);
      }
      PublishAll([Created(pkg.value, id, text)], io);
      NamedEventTaken(was, bus.Views(), Created(pkg.value, id, text), io);
      if Synced(before, was) && UniqueIds(store.View()) {
        CommandIsFollowed(before, c, was, bus.Views(), io);
      }
      r := Ok(id);
    }

    /** `alc.card.write_samples`: write-once, one JSON line per sample. */
    method WriteSampleLines(cardId: string, samples: seq<Json>, json: JsonCodec, disk: StoreIo, io: Health)
        returns (r: Result<CardPath>, ghost at: Option<CardPath>)
      requires bus.Valid()
      modifies store, bus`stats, bus.subscribers
      ensures at.Some? <==> disk.canList && ValidName(cardId) && HasCard(old(store.View()), cardId)
      ensures at.Some? ==> Finds(old(store.View()), cardId, at.value)
      ensures r.Ok? <==> at.Some? && at.value !in old(store.samples) && disk.canWrite
      ensures r.Ok? ==> r.value == at.value
      ensures var text := Samples.SamplesText(samples, json);
              && store.View() == old(store.View()).(samples :=
                   if r.Ok? then old(store.samples)[r.value := text] else old(store.samples))
              && Took(old(bus.Views()), bus.Views(), if r.Ok? then [SamplesWritten(cardId, text)] else [], io)
      ensures Synced(old(store.View()), old(bus.Views())) ==>
                && Synced(store.View(), bus.Views())
                && var o := Perform(old(store.View()), WriteSamples(cardId, Samples.SamplesText(samples, json)));
                   && (r.Ok? <==> disk.canList && disk.canWrite && o.ok) && (r.Ok? ==> store.View() == o.tree)
                   && TookExactly(old(bus.Views()), bus.Views(), if r.Ok? then o.events else [], io)
    {
      hide ValidName, Lands, LandsAll, DeliverAll, FileCardSubscriber.View, Perform, UniqueIds, NoOrphanSamples,
        Backed, Took, TookExactly, HasCard;
      ghost var before, was := store.View(), bus.Views();
      NothingTaken(was, io);
      var buf := Samples.RenderSamples(samples, json);
      r, at := store.WriteSamplesText(cardId, buf, disk);
      SideWriteIs(before, WriteSamples(cardId, buf));
      if r.Ok? {
        PublishAll([SamplesWritten(cardId, buf)], io);
        if Synced(before, was) {
          CommandIsFollowed(before, WriteSamples(cardId, buf), was, bus.Views(), io);
        }
      }
    }

    /** `alc.card.alias_set`: rebind the name, store the table, announce it. */
    method AliasSet(entry: Alias, disk: StoreIo, io: Health) returns (r: Result<Alias>)
      requires bus.Valid()
      modifies store, bus`stats, bus.subscribers
      ensures var c := AliasCommand(old(store.View()), entry, codec);
              && (r.Ok? <==> disk.Works() && c.Some?) && (r.Ok? ==> r.value == entry)
              && store.View() == (if r.Ok? then Perform(old(store.View()), c.value).tree else old(store.View()))
              && TookExactly(old(bus.Views()), bus.Views(),
                   if r.Ok? then Perform(old(store.View()), c.value).events else [], io)
      ensures Synced(old(store.View()), old(bus.Views())) ==> Synced(store.View(), bus.Views())
    {
      hide ValidName, Lands, LandsAll, DeliverAll, FileCardSubscriber.View, ReadAliases, TableText, Without, UniqueIds,
        NoOrphanSamples, Backed, HasCard, Took, TookExactly;
      ghost var before, was := store.View(), bus.Views();
      NothingTaken(was, io);
      if !ValidName(entry.name) {
        return Err("Invalid alias name");
      }
      var at := store.FindCardLocator(entry.cardId, disk.canList);
      if at.Err? || at.value.None? {
        return Err("card not found");
      }
      var table := ReadAliases(store.aliases, codec);
      if table.None? || !disk.canRead {
        return Err("Failed to parse aliases file");
      }
      var kept := Retain(table.value, entry.name);
      var text := TableText(kept + [entry], codec);
      var stored := store.WriteAliases(text, disk.canWrite);
      if !stored {
        return Err("Failed to write aliases");
      }
      ghost var c := SetAliases(entry.cardId, text);
      assert AliasCommand(before, entry, codec) == Some(c);
      PublishAll([AliasesWritten(text)], io);
      NamedEventTaken(was, bus.Views(), AliasesWritten(text), io);
      SideWriteIs(before, c);
      if Synced(before, was) {
        CommandIsFollowed(before, c, was, bus.Views(), io);
      }
      r := Ok(entry);
    }

    /** Import copies what it can, then announces it; a file that fails leaves what was
        copied before it unannounced. */
    method ImportCards(pkg: string, source: seq<SourceFile>, opens: bool, readable: Readable, io: Health)
        returns (r: Result<seq<string>>, ghost evs: seq<CardEvent>)
      requires bus.Valid()
      modifies store, bus`stats, bus.subscribers
      ensures var o := Perform(old(store.View()), Import(pkg, source));
              (r.Ok? <==> opens && o.ok) && store.View() == if opens then o.tree else old(store.View())
      ensures r.Ok? ==> r.value == ReportedIds(CopyAll(old(store.View()), pkg, source).stems)
      ensures if r.Ok? then FetchedBack(store.View(), pkg, r.value, readable, evs) else evs == []
      ensures Took(old(bus.Views()), bus.Views(), evs, io)
      ensures Synced(old(store.View()), old(bus.Views())) && UniqueIds(store.View()) && AllReadable(readable)
                && PlainImport(old(store.View()), pkg, source) ==>
                && Synced(store.View(), bus.Views())
                && (opens ==> evs == Perform(old(store.View()), Import(pkg, source)).events)
                && TookExactly(old(bus.Views()), bus.Views(), evs, io)
    {
      hide ValidName, Receive, CopyAll, FetchedBack, Took, TookExactly, UniqueIds, Lands, LandsAll, DeliverAll,
        NoOrphanSamples, FileCardSubscriber.View, PlainImport, AllReadable;
      ghost var before, was, c := store.View(), bus.Views(), Import(pkg, source);
      NothingTaken(was, io);
      evs := [];
      r := store.ImportFromDir(pkg, source, opens);
      if r.Ok? {
        var read := ReadBackImports(pkg, r.value, readable);
        evs := read;
        PublishAll(read, io);
      }
      if opens && Synced(before, was) && UniqueIds(store.View()) && AllReadable(readable)
        && PlainImport(before, pkg, source) {
        if r.Ok? {
          FetchedOneWay(store.View(), pkg, r.value, readable, evs);
        }
        CommandIsFollowed(before, c, was, bus.Views(), io);
      }
    }

    /** Read every imported card back by id, its text and its samples by a lookup each,
        and turn what can be read into events. */
    method ReadBackImports(pkg: string, ids: seq<string>, readable: Readable) returns (evs: seq<CardEvent>)
      ensures FetchedBack(store.View(), pkg, ids, readable, evs)
    {
      hide FetchedBack, ValidName, HasCard;
      evs := [];
      NothingFetched(store.View(), pkg, readable);
      for i := 0 to |ids|
        invariant FetchedBack(store.View(), pkg, ids[..i], readable, evs)
      {
        assert ids[..i + 1] == ids[..i] + [ids[i]];
        var card := store.FindCardLocator(ids[i], true);
        if card.Err? || card.value.None? {
          FetchedSnoc(store.View(), pkg, ids[..i], readable, evs, ids[i], CardPath("", ""), CardPath("", ""));
          assert evs + [] == evs;
          continue;
        }
        var sidecar := store.FindCardLocator(ids[i], true);
        var p, q := card.value.value, sidecar.value.value;
        FetchedSnoc(store.View(), pkg, ids[..i], readable, evs, ids[i], p, q);
        var now: seq<CardEvent> := [];
        if readable.card(i) {
          now := [Created(pkg, ids[i], store.cards[p])];
        }
        if q in store.samples && readable.samples(i) {
          now := now + [SamplesWritten(ids[i], store.samples[q])];
        }
        assert now == EventsFor(store.View(), pkg, ids[i], p, q, readable.card(i), readable.samples(i));
        evs := evs + now;
      }
      assert ids[..|ids|] == ids;
    }
  }

  lemma DocTextIs(doc: map<string, Json>, codec: TomlCodec)
    ensures DocText(doc, codec) == codec.render(ToToml(Obj(doc)))
  {
  }

  lemma FoundForAppend(t: Tree, cardId: string, fields: Json, codec: TomlCodec, p: CardPath)
    requires ValidName(cardId) && Finds(t, cardId, p)
    ensures UniqueIds(t) ==>
              var text := AppendedText(t.cards[p], fields, codec);
              AppendCommand(t, cardId, fields, codec) == if text.None? then None else Some(Append(cardId, text.value))
  {
    hide ValidName, AppendedText;
    if UniqueIds(t) {
      PathOfUnique(t, p);
    }
  }

  /** Samples and aliases leave the cards alone. */
  lemma SideWriteIs(t: Tree, c: Command)
    requires c.WriteSamples? || c.SetAliases?
    ensures var o := Perform(t, c);
            && o.tree.cards == t.cards && (UniqueIds(t) ==> UniqueIds(o.tree))
            && o.events == if !o.ok then [] else if c.WriteSamples? then [SamplesWritten(c.cardId, c.text)]
               else [AliasesWritten(c.text)]
  {
    hide ValidName;
  }

  lemma AppendedIs(t: Tree, cardId: string, text: string)
    ensures var o := Perform(t, Append(cardId, text));
            && o.tree.cards.Keys == t.cards.Keys && (UniqueIds(t) ==> UniqueIds(o.tree))
            && o.events == if o.ok then [Appended(cardId, text)] else []
  {
    hide ValidName;
  }
}

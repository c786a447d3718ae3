/** The objects behind the card store: the primary file store, file sinks, and
    the bus that fans every successful write out to the sinks. */
module CardEvents {
  import opened CardStore
  import opened Json
  import opened Text

  datatype EventKind = KCreated | KAppended | KSamples | KAliases

  function KindOf(ev: CardEvent): EventKind {
    match ev
    case Created(_, _, _) => KCreated
    case Appended(_, _) => KAppended
    case SamplesWritten(_, _) => KSamples
    case AliasesWritten(_) => KAliases
  }

  // ----- the primary -----

  /** Whether the operations of a call on the primary's files work: listing the root to
      find a card, reading the file found, and writing. */
  datatype StoreIo = StoreIo(canList: bool, canRead: bool, canWrite: bool)
  {
    predicate Works() {
      canList && canRead && canWrite
    }
  }

  ghost predicate Lists(t: Tree, pkgReads: string -> bool, locators: seq<CardPath>) {
    && (forall p :: p in locators <==> p in t.cards && p.cardId != "" && pkgReads(p.pkg))
    && forall i, j | 0 <= i < j < |locators| :: locators[i] != locators[j]
  }

  class FileCardStore {
    var cards: map<CardPath, string>
    var samples: map<CardPath, string>
    var aliases: Option<string>

    function View(): Tree
      reads this
    {
      Tree(cards, samples, aliases)
    }

    constructor ()
      ensures View() == EMPTY_TREE
    {
      cards, samples, aliases := map[], map[], None;
    }

    method FindCardLocator(cardId: string, canList: bool) returns (r: Result<Option<CardPath>>)
      ensures r.Ok? <==> ValidName(cardId) && canList
      ensures r.Ok? ==> (r.value.Some? <==> HasCard(View(), cardId))
      ensures r.Ok? && r.value.Some? ==> Finds(View(), cardId, r.value.value)
    {
      if !ValidName(cardId) {
        return Err("Invalid card_id name");
      }
      if !canList {
        return Err("Failed to read cards dir");
      }
      if exists p | p in cards :: p.cardId == cardId {
        var p :| p in cards && p.cardId == cardId;
        return Ok(Some(p));
      }
      return Ok(None);
    }

    /** Every card file of the packages whose directory can be read, each once, in
        whatever order the directories give; a bare ".toml" is no card file. */
    method ListCardLocators(rootReads: bool, pkgReads: string -> bool) returns (r: Result<seq<CardPath>>)
      ensures r.Ok? <==> rootReads
      ensures r.Ok? ==> Lists(View(), pkgReads, r.value)
    {
      if !rootReads {
        return Err("Failed to read cards dir");
      }
      var out: seq<CardPath>, rest := [], cards.Keys;
      while rest != {}
        invariant rest <= cards.Keys
        invariant forall p :: p in out <==> p in cards && p !in rest && p.cardId != "" && pkgReads(p.pkg)
        invariant forall i, j | 0 <= i < j < |out| :: out[i] != out[j]
        decreases rest
      {
        var p :| p in rest;
        rest := rest - {p};
        if p.cardId != "" && pkgReads(p.pkg) {
          out := out + [p];
        }
      }
      r := Ok(out);
    }

    /** A write that fails leaves the live file as it was, here and below. */
    method WriteNewCard(pkg: string, cardId: string, text: string, canWrite: bool) returns (r: Result<CardPath>)
      requires ValidName(cardId)
      modifies this
      ensures var o := Perform(old(View()), Create(pkg, cardId, text));
              (r.Ok? <==> canWrite && o.ok) && View() == if canWrite then o.tree else old(View())
    {
      if !ValidName(pkg) {
        return Err("Invalid pkg name");
      }
      var path := CardPath(pkg, cardId);
      if path in cards {
        return Err("card already exists (immutable)");
      }
      if !canWrite {
        return Err("Failed to write card");
      }
      cards := cards[path := text];
      r := Ok(path);
    }

    method OverwriteCard(cardId: string, text: string, io: StoreIo) returns (r: Result<CardPath>)
      modifies this
      ensures r.Ok? <==> io.canList && io.canWrite && ValidName(cardId) && HasCard(old(View()), cardId)
      ensures r.Ok? ==> Finds(old(View()), cardId, r.value)
      ensures View() == old(View()).(cards := if r.Ok? then old(cards)[r.value := text] else old(cards))
      ensures UniqueIds(old(View())) ==>
                var o := Perform(old(View()), Append(cardId, text));
                (r.Ok? <==> io.canList && io.canWrite && o.ok) && (r.Ok? ==> View() == o.tree)
    {
      var at := FindCardLocator(cardId, io.canList);
      if at.Err? || at.value.None? {
        return Err("card not found");
      }
      if !io.canWrite {
        return Err("Failed to write card");
      }
      FoundByAppend(View(), cardId, text, at.value.value);
      cards := cards[at.value.value := text];
      r := Ok(at.value.value);
    }

    /** `at` is the card found, if there is one. */
    method WriteSamplesText(cardId: string, text: string, io: StoreIo)
        returns (r: Result<CardPath>, ghost at: Option<CardPath>)
      modifies this
      ensures at.Some? <==> io.canList && ValidName(cardId) && HasCard(old(View()), cardId)
      ensures at.Some? ==> Finds(old(View()), cardId, at.value)
      ensures r.Ok? <==> at.Some? && at.value !in old(samples) && io.canWrite
      ensures r.Ok? ==> r.value == at.value
      ensures View() == old(View()).(samples := if r.Ok? then old(samples)[r.value := text] else old(samples))
      ensures UniqueIds(old(View())) ==>
                var o := Perform(old(View()), WriteSamples(cardId, text));
                (r.Ok? <==> io.canList && io.canWrite && o.ok) && (r.Ok? ==> View() == o.tree)
    {
      at := None;
      var found := FindCardLocator(cardId, io.canList);
      if found.Err? || found.value.None? {
        return Err("card not found"), None;
      }
      at := found.value;
      FoundBySamples(View(), cardId, text, found.value.value);
      if found.value.value in samples {
        return Err("samples already exist (write-once)"), at;
      }
      if !io.canWrite {
        return Err("Failed to write samples"), at;
      }
      samples := samples[found.value.value := text];
      r := Ok(found.value.value);
    }

    method WriteAliases(text: string, canWrite: bool) returns (ok: bool)
      modifies this
      ensures ok == canWrite
      ensures View() == if canWrite then old(View()).(aliases := Some(text)) else old(View())
    {
      ok := canWrite;
      if canWrite {
        aliases := Some(text);
      }
    }

    /** First writer wins; the imported ids come back only if no file fails. `opens`
        says whether the source can be listed and the package's directory made. */
    method ImportFromDir(pkg: string, source: seq<SourceFile>, opens: bool) returns (r: Result<seq<string>>)
      modifies this
      ensures !ValidName(pkg) || !opens ==> r.Err? && View() == old(View())
      ensures ValidName(pkg) && opens ==>
                var c := CopyAll(old(View()), pkg, source);
                View() == c.tree && (r.Ok? <==> c.ok) && (r.Ok? ==> r.value == ReportedIds(c.stems))
    {
      if !ValidName(pkg) {
        return Err("Invalid pkg name");
      }
      if !opens {
        return Err("Failed to read card source dir");
      }
      hide PutFile, Reported;
      ghost var start := View();
      ghost var stems: seq<string> := [];
      var imported: seq<string> := [];
      for i := 0 to |source|
        invariant CopyAll(start, pkg, source[..i]) == Copied(View(), true, stems) && imported == ReportedIds(stems)
      {
        var f, dest := source[i], CardPath(pkg, source[i].stem);
        assert source[..i + 1][..i] == source[..i];
        if dest in cards {
          continue;
        }
        match f.kind {
          case WrongSchema =>
          case Broken =>
            CopyStops(start, pkg, source, i + 1);
            return Err("Failed to parse card file");
          case Unfinished(left, sidecar) =>
            if left.Some? {
              CopyFile(f, pkg, left.value, sidecar);
            }
            CopyStops(start, pkg, source, i + 1);
            return Err("Failed to copy card");
          case Importable =>
            CopyFile(f, pkg, f.text, f.samples);
            stems := stems + [f.stem];
            imported := imported + [Reported(f.stem)];
        }
      }
      assert source[..|source|] == source;
      r := Ok(imported);
    }

    /** The card under its file's name, its samples under its reported id. */
    method CopyFile(f: SourceFile, pkg: string, text: string, sidecar: Option<string>)
      modifies this
      ensures View() == PutFile(old(View()), pkg, f.stem, text, sidecar)
    {
      var owner := CardPath(pkg, Reported(f.stem));
      cards := cards[CardPath(pkg, f.stem) := text];
      if sidecar.Some? && owner !in samples {
        samples := samples[owner := sidecar.value];
      }
    }
  }

  /** With unique ids the file found is the one the command speaks of. */
  lemma FoundByAppend(t: Tree, cardId: string, text: string, p: CardPath)
    requires ValidName(cardId) && Finds(t, cardId, p)
    ensures UniqueIds(t) ==>
              var o := Perform(t, Append(cardId, text));
              o.ok && o.tree == t.(cards := t.cards[p := text])
  {
    hide ValidName;
    if UniqueIds(t) {
      PathOfUnique(t, p);
    }
  }

  lemma FoundBySamples(t: Tree, cardId: string, text: string, p: CardPath)
    requires ValidName(cardId) && Finds(t, cardId, p)
    ensures UniqueIds(t) ==>
              var o := Perform(t, WriteSamples(cardId, text));
              && (o.ok <==> p !in t.samples)
              && o.tree == if o.ok then t.(samples := t.samples[p := text]) else t
  {
    hide ValidName;
    if UniqueIds(t) {
      PathOfUnique(t, p);
    }
  }

  lemma {:induction false} CopyStops(t: Tree, pkg: string, source: seq<SourceFile>, i: nat)
    requires i <= |source| && !CopyAll(t, pkg, source[..i]).ok
    ensures CopyAll(t, pkg, source) == CopyAll(t, pkg, source[..i])
    decreases |source| - i
  {
    if i == |source| {
      assert source[..i] == source;
    } else {
      assert source[..i + 1][..i] == source[..i];
      CopyStops(t, pkg, source, i + 1);
    }
  }

  // ----- a file sink -----

  ghost predicate Accepts(t: Tree, ev: CardEvent, io: bool) {
    io && Receive(t, ev).Some?
  }

  ghost function Delivered(t: Tree, ev: CardEvent, io: bool): Tree {
    if Accepts(t, ev, io) then Receive(t, ev).value else t
  }

  /** What a sink may hold after an event: an append or a samples file goes to a
      file of that id that its own lookup finds. */
  ghost predicate Lands(t: Tree, ev: CardEvent, io: bool, after: Tree) {
    if !Accepts(t, ev, io) then after == t
    else
      match ev
      case Created(pkg, id, text) => after == t.(cards := t.cards[CardPath(pkg, id) := text])
      case Appended(id, text) => exists p :: Finds(t, id, p) && after == t.(cards := t.cards[p := text])
      case SamplesWritten(id, text) => exists p :: Finds(t, id, p) && after == t.(samples := t.samples[p := text])
      case AliasesWritten(text) => after == t.(aliases := Some(text))
  }

  ghost predicate OneFile(t: Tree, cardId: string) {
    forall p, q :: Finds(t, cardId, p) && Finds(t, cardId, q) ==> p == q
  }

  /** An event that names its file, or an id with one file, leaves one outcome. */
  lemma LandsOneWay(t: Tree, ev: CardEvent, io: bool, after: Tree)
    requires ev.Appended? || ev.SamplesWritten? ==> OneFile(t, ev.cardId)
    ensures Lands(t, ev, io, after) <==> after == Delivered(t, ev, io)
  {
    hide ValidName;
    if Accepts(t, ev, io) && (ev.Appended? || ev.SamplesWritten?) {
      assert Finds(t, ev.cardId, PathOf(t, ev.cardId));
    }
  }

  lemma UniqueIdsOneFile(t: Tree, cardId: string)
    requires UniqueIds(t)
    ensures OneFile(t, cardId)
  {
  }

  /** A sink that held what the primary held surely follows an append exactly when the
      id has one file, or every file of the id holds the new text already. */
  lemma AppendFollowsExactly(t: Tree, cardId: string, text: string)
    requires ValidName(cardId) && HasCard(t, cardId)
    ensures (forall p, after :: Finds(t, cardId, p) && Lands(t, Appended(cardId, text), true, after)
               ==> after == t.(cards := t.cards[p := text]))
       <==> OneFile(t, cardId) || forall p :: Finds(t, cardId, p) ==> t.cards[p] == text
  {
    hide ValidName;
    var ev := Appended(cardId, text);
    if OneFile(t, cardId) {
      forall p, after | Finds(t, cardId, p) && Lands(t, ev, true, after)
        ensures after == t.(cards := t.cards[p := text])
      {
      }
    } else if forall p :: Finds(t, cardId, p) ==> t.cards[p] == text {
      forall p, after | Finds(t, cardId, p) && Lands(t, ev, true, after)
        ensures after == t.(cards := t.cards[p := text])
      {
        var q :| Finds(t, cardId, q) && after == t.(cards := t.cards[q := text]);
        assert t.cards[q := text] == t.cards == t.cards[p := text];
      }
    } else {
      var p, q := OtherFile(t, cardId, text);
      var after := t.(cards := t.cards[p := text]);
      assert Lands(t, ev, true, after);
      assert after.cards[p] != t.(cards := t.cards[q := text]).cards[p];
    }
  }

  lemma OtherFile(t: Tree, cardId: string, text: string) returns (p: CardPath, q: CardPath)
    requires !OneFile(t, cardId)
    requires exists p :: Finds(t, cardId, p) && t.cards[p] != text
    ensures Finds(t, cardId, p) && Finds(t, cardId, q) && p != q && t.cards[p] != text
  {
    p :| Finds(t, cardId, p) && t.cards[p] != text;
    var a, b :| Finds(t, cardId, a) && Finds(t, cardId, b) && a != b;
    q := if a == p then b else a;
  }

  class FileCardSubscriber {
    const uri: string
    var cards: map<CardPath, string>
    var samples: map<CardPath, string>
    var aliases: Option<string>

    function View(): Tree
      reads this
    {
      Tree(cards, samples, aliases)
    }

    constructor (uri: string)
      ensures View() == EMPTY_TREE && this.uri == uri
    {
      this.uri := uri;
      cards, samples, aliases := map[], map[], None;
    }

    /** `canList` says whether the sink's root, if there is one, can be listed. */
    method HasCardId(cardId: string, canList: bool) returns (r: Result<bool>)
      ensures r.Ok? <==> ValidName(cardId) && canList
      ensures r.Ok? ==> r.value == HasCard(View(), cardId)
    {
      if !ValidName(cardId) {
        return Err("Invalid card_id name");
      }
      if !canList {
        return Err("subscriber read_dir");
      }
      r := Ok(exists p | p in cards :: p.cardId == cardId);
    }

    /** `io` says whether the sink's storage works for this event; a write that
        fails leaves the file it would have replaced untouched. */
    method OnEvent(ev: CardEvent, io: bool) returns (ok: bool)
      modifies this
      ensures ok == Accepts(old(View()), ev, io)
      ensures Lands(old(View()), ev, io, View())
    {
      ok := false;
      match ev {
        case Created(pkg, id, text) =>
          if io && ValidName(id) && ValidName(pkg) {
            cards := cards[CardPath(pkg, id) := text];
            ok := true;
          }
        case Appended(id, text) =>
          var at := Locate(id);
          if io && at.Some? {
            cards := cards[at.value := text];
            ok := true;
          }
        case SamplesWritten(id, text) =>
          var at := Locate(id);
          if io && at.Some? {
            samples := samples[at.value := text];
            ok := true;
          }
        case AliasesWritten(text) =>
          if io {
            aliases := Some(text);
            ok := true;
          }
      }
    }

    method Locate(cardId: string) returns (at: Option<CardPath>)
      ensures at.Some? <==> ValidName(cardId) && HasCard(View(), cardId)
      ensures at.Some? ==> Finds(View(), cardId, at.value)
    {
      at := None;
      if ValidName(cardId) && exists p | p in cards :: p.cardId == cardId {
        var p :| p in cards && p.cardId == cardId;
        at := Some(p);
      }
    }
  }

  // ----- the bus -----

  datatype Counter = Counter(ok: nat, err: nat)

  type Stats = map<(string, EventKind), Counter>

  function CountOf(stats: Stats, uri: string, kind: EventKind): Counter {
    if (uri, kind) in stats then stats[(uri, kind)] else Counter(0, 0)
  }

  function Record(stats: Stats, uri: string, kind: EventKind, ok: bool): Stats {
    var c := CountOf(stats, uri, kind);
    stats[(uri, kind) := if ok then c.(ok := c.ok + 1) else c.(err := c.err + 1)]
  }

  datatype Attempt = Attempt(uri: string, ok: bool)

  ghost function Attempts(n: nat, uris: seq<string>, views: seq<Tree>, ev: CardEvent, io: seq<bool>): seq<Attempt>
    requires n <= |uris| && n <= |views| && n <= |io|
  {
    seq(n, i requires 0 <= i < n => Attempt(uris[i], Accepts(views[i], ev, io[i])))
  }

  lemma AttemptsStep(n: nat, uris: seq<string>, views: seq<Tree>, ev: CardEvent, io: seq<bool>)
    requires n < |uris| && n < |views| && n < |io|
    ensures Attempts(n + 1, uris, views, ev, io)
         == Attempts(n, uris, views, ev, io) + [Attempt(uris[n], Accepts(views[n], ev, io[n]))]
  {
  }

  lemma NothingRecorded(stats: Stats, uris: seq<string>, views: seq<Tree>, ev: CardEvent, io: seq<bool>)
    ensures RecordAll(stats, Attempts(0, uris, views, ev, io), KindOf(ev)) == stats
  {
  }

  function RecordAll(stats: Stats, attempts: seq<Attempt>, kind: EventKind): Stats {
    if attempts == [] then stats
    else
      var n := |attempts| - 1;
      Record(RecordAll(stats, attempts[..n], kind), attempts[n].uri, kind, attempts[n].ok)
  }

  lemma RecordAllSnoc(stats: Stats, attempts: seq<Attempt>, a: Attempt, kind: EventKind)
    ensures RecordAll(stats, attempts + [a], kind) == Record(RecordAll(stats, attempts, kind), a.uri, kind, a.ok)
  {
    assert (attempts + [a])[..|attempts|] == attempts;
  }

  lemma {:induction false} OthersUncounted(stats: Stats, attempts: seq<Attempt>, kind: EventKind,
      uri: string, k: EventKind)
    requires k != kind || forall i | 0 <= i < |attempts| :: attempts[i].uri != uri
    ensures CountOf(RecordAll(stats, attempts, kind), uri, k) == CountOf(stats, uri, k)
  {
    if attempts != [] {
      hide Record, CountOf;
      var n := |attempts| - 1;
      OthersUncounted(stats, attempts[..n], kind, uri, k);
      RecordCounts(RecordAll(stats, attempts[..n], kind), attempts[n], kind, uri, k);
    }
  }

  /** With distinct URIs each delivery is counted once, as what it was, under its
      own sink and kind; with OthersUncounted, every other counter stands still. */
  lemma {:induction false} DeliveriesAreCounted(stats: Stats, attempts: seq<Attempt>, kind: EventKind, j: nat)
    requires j < |attempts|
    requires forall i, i' | 0 <= i < i' < |attempts| :: attempts[i].uri != attempts[i'].uri
    ensures var a := attempts[j];
            var was, now := CountOf(stats, a.uri, kind), CountOf(RecordAll(stats, attempts, kind), a.uri, kind);
            now == if a.ok then was.(ok := was.ok + 1) else was.(err := was.err + 1)
  {
    hide Record, CountOf;
    var n := |attempts| - 1;
    if j == n {
      OthersUncounted(stats, attempts[..n], kind, attempts[n].uri, kind);
    } else {
      DeliveriesAreCounted(stats, attempts[..n], kind, j);
    }
    RecordCounts(RecordAll(stats, attempts[..n], kind), attempts[n], kind, attempts[j].uri, kind);
  }

  lemma RecordCounts(stats: Stats, a: Attempt, kind: EventKind, uri: string, k: EventKind)
    ensures var was, now := CountOf(stats, uri, k), CountOf(Record(stats, a.uri, kind, a.ok), uri, k);
            if k != kind || uri != a.uri then now == was
            else if a.ok then now == was.(ok := was.ok + 1) else now == was.(err := was.err + 1)
  {
  }

  class CardEventBus {
    var subscribers: seq<FileCardSubscriber>
    var stats: Stats

    /** Distinct sinks under distinct URIs, as the environment parser leaves them. */
    ghost predicate Valid()
      reads this, subscribers
    {
      forall i, j | 0 <= i < j < |subscribers| ::
        subscribers[i] != subscribers[j] && subscribers[i].uri != subscribers[j].uri
    }

    constructor (subscribers: seq<FileCardSubscriber>)
      ensures this.subscribers == subscribers && stats == map[]
    {
      this.subscribers, stats := subscribers, map[];
    }

    /** Every sink sees the event once; a failing one keeps its state, is counted
        as failed, and holds back neither the others nor the caller. */
    method Publish(ev: CardEvent, io: seq<bool>)
      requires Valid() && |io| == |subscribers|
      modifies this`stats, subscribers
      ensures forall i | 0 <= i < |subscribers| ::
          Lands(old(subscribers[i].View()), ev, io[i], subscribers[i].View())
      ensures stats == RecordAll(old(stats), Attempts(|subscribers|, old(Uris()), old(Views()), ev, io), KindOf(ev))
    {
      hide Accepts, Lands, Attempts, Record, RecordAll, FileCardSubscriber.View;
      ghost var uris, views := Uris(), Views();
      NothingRecorded(stats, uris, views, ev, io);
      for n := 0 to |subscribers|
        invariant forall i | 0 <= i < n :: Lands(views[i], ev, io[i], subscribers[i].View())
        invariant forall i | n <= i < |subscribers| :: subscribers[i].View() == views[i]
        invariant stats == RecordAll(old(stats), Attempts(n, uris, views, ev, io), KindOf(ev))
      {
        var sub := subscribers[n];
        var ok := sub.OnEvent(ev, io[n]);
        stats := Record(stats, sub.uri, KindOf(ev), ok);
        AttemptsStep(n, uris, views, ev, io);
        RecordAllSnoc(old(stats), Attempts(n, uris, views, ev, io), Attempt(sub.uri, ok), KindOf(ev));
      }
    }

    ghost function Uris(): (uris: seq<string>)
      reads this, subscribers
      ensures |uris| == |subscribers| && forall i | 0 <= i < |uris| :: uris[i] == subscribers[i].uri
    {
      seq(|subscribers|, i requires 0 <= i < |subscribers| reads this, subscribers => subscribers[i].uri)
    }

    ghost function Views(): (views: seq<Tree>)
      reads this, subscribers
      ensures |views| == |subscribers| && forall i | 0 <= i < |views| :: views[i] == subscribers[i].View()
    {
      seq(|subscribers|, i requires 0 <= i < |subscribers| reads this, subscribers => subscribers[i].View())
    }

    /** Deliver to the one sink with that URI; the caller learns of a failure. */
    method PublishTo(target: nat, ev: CardEvent, io: bool) returns (ok: bool)
      requires target < |subscribers|
      modifies this`stats, subscribers[target]
      ensures ok == Accepts(old(subscribers[target].View()), ev, io)
      ensures Lands(old(subscribers[target].View()), ev, io, subscribers[target].View())
      ensures stats == Record(old(stats), subscribers[target].uri, KindOf(ev), ok)
    {
      ok := subscribers[target].OnEvent(ev, io);
      stats := Record(stats, subscribers[target].uri, KindOf(ev), ok);
    }
  }
}
